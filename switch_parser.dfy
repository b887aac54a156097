/** The frame decoder `ActionDataParser` of `switch_info.rs`. The device sends, per
    switch event, the header letters `A` and `D`, one payload byte (digital) or two
    (analog), then `E` and `C`. The decoder is fed one byte at a time and keeps its
    progress in counters and buffers; a finished frame becomes a `SwitchInfo`, which is
    first handed to the change detector and then to every `on_complete` handler.

    `ParserState` is a snapshot of the decoder's fields and `Step` the effect of one
    `put_challenge`; the class `ActionDataParser` below is proved to follow `Step`. */
module SwitchParser {
  import opened Common
  import opened Switch
  import opened SwitchCompare

  /** `BodyLen`: the payload size announced by the first payload byte. The decoder
      writes it and never reads it. */
  datatype BodyLen = UnknownBody | DigitalBody | AnalogBody

  function BodyBytes(l: BodyLen): nat
  {
    match l
    case UnknownBody => 0
    case DigitalBody => 1
    case AnalogBody => 2
  }

  const Header: string := "ADEC"
  const HeaderLen: nat := 4

  /** The header letters as byte values. */
  const LetterA: byte := 0x41
  const LetterD: byte := 0x44
  const LetterE: byte := 0x45
  const LetterC: byte := 0x43

  /** `x as i8` for an unsigned `x`: its low eight bits read in two's complement. */
  function AsI8(x: nat): (r: int)
    ensures -128 <= r < 128
    ensures (x - r) % 256 == 0
  {
    var low := x % 256;
    if low < 128 then low else low - 256
  }

  /** Below 128 the cast changes nothing, so comparing casts is comparing values. */
  lemma AsI8Small(x: nat, y: nat)
    requires x < 128 && y < 128
    ensures AsI8(x) == AsI8(y) <==> x == y
  {
  }

  datatype StepResult = StepResult(state: ParserState, emitted: Option<SwitchInfo>)

  /** The fields of `ActionDataParser` that decoding reads and writes. (`header_len`
      holds a copy of the constant 4 and is never read; it is not part of the state.) */
  datatype ParserState = ParserState(
    headerBuf: string,
    isReading: bool,
    readCount: u8,
    dataLen: nat,
    bodyLen: BodyLen,
    hasCollect: bool,
    actionBuf: SwitchInfo,
    actionRawBuf: seq<byte>)
  {
    /** Whether the payload collected so far is enough for `format_switch_data`
        (which indexes the raw buffer and would panic otherwise). */
    predicate Formattable()
    {
      (actionBuf.switchType == Digital ==> |actionRawBuf| >= 1) &&
      (actionBuf.switchType == Analog ==> |actionRawBuf| >= 2)
    }

    /** The first payload byte has been seen: kind, expected frame length and raw byte. */
    predicate PayloadKnown()
    {
      actionBuf.switchType != Unknown && |actionRawBuf| >= 1 &&
      dataLen == HeaderLen + (if actionBuf.switchType == Digital then 1 else 2)
    }

    /** What holds between two calls. While a frame is read the counter runs ahead of
        the header letters; the counter never passes 6, so the `u8` cannot overflow. */
    predicate Inv()
    {
      Bounded() && Progress()
    }

    /** The counter stays small and is zero while idle; the header buffer holds at
        most four letters; the frame length is unset, digital or analog. */
    predicate Bounded()
    {
      readCount <= 6 && |headerBuf| <= HeaderLen && !hasCollect && dataLen in {0, 5, 6} &&
      (!isReading ==> readCount == 0)
    }

    /** During a frame: the counter is at least the number of header letters, which
        stays below four; the first payload byte fixes the kind at count 2, an analog
        frame's second byte arrives at count 3. */
    predicate Progress()
    {
      (isReading ==> 1 <= |headerBuf| <= readCount && |headerBuf| < HeaderLen) &&
      (isReading && readCount <= 2 ==> actionBuf.switchType == Unknown && actionRawBuf == []) &&
      (isReading && readCount >= 3 ==> PayloadKnown()) &&
      (isReading && readCount >= 4 && actionBuf.switchType == Analog ==> |actionRawBuf| >= 2)
    }

    /** `clear_flag_count`. */
    function ClearFlagCount(): ParserState
    {
      this.(isReading := false, readCount := 0, hasCollect := false)
    }

    /** `clear_buf`. */
    function ClearBuf(): ParserState
    {
      this.(headerBuf := "", actionBuf := NewSwitchInfo, actionRawBuf := [])
    }

    /** `data_of_digital_switch`: the whole frame is the header plus one byte. */
    function DataOfDigitalSwitch(): ParserState
    {
      this.(bodyLen := DigitalBody, dataLen := HeaderLen + BodyBytes(DigitalBody))
    }

    /** `data_of_analog_switch`: the header plus two bytes. */
    function DataOfAnalogSwitch(): ParserState
    {
      this.(bodyLen := AnalogBody, dataLen := HeaderLen + BodyBytes(AnalogBody))
    }

    /** `countup_read`. */
    function CountupRead(): ParserState
      requires readCount < 255
    {
      this.(readCount := readCount + 1)
    }

    /** `format_switch_data`: id and state from the raw payload, stamped with `now`. */
    function FormatSwitchData(now: int): ParserState
      requires Formattable()
    {
      var raw := actionRawBuf;
      var id: u8 :=
        match actionBuf.switchType
        case Digital => DigitalId(raw[0])
        case Analog => AnalogId(raw[0])
        case Unknown => 0;
      var state: u16 :=
        match actionBuf.switchType
        case Digital => DigitalState(raw[0])
        case Analog => AnalogState(raw[0], raw[1])
        case Unknown => 0;
      this.(actionBuf := actionBuf.(switchId := id, switchState := state, timestamp := now))
    }

    /** An `A` while idle starts a frame from clean buffers. */
    function Start(msg: string): ParserState
    {
      if msg == "A" && !isReading then
        var s := ClearFlagCount().ClearBuf();
        s.(isReading := true, headerBuf := s.headerBuf + ['A'])
      else this
    }

    /** A header letter is collected whenever it arrives during a frame. */
    function PushLetter(msg: string, letter: char): ParserState
    {
      if msg == [letter] && isReading then this.(headerBuf := headerBuf + [letter]) else this
    }

    /** The payload stage. Its guard is `is_reading && read_count == 2 || read_count == 3`,
        which Rust groups as `(is_reading && read_count == 2) || read_count == 3`. */
    function CollectPayload(b: byte): ParserState
    {
      if (isReading && readCount == 2) || readCount == 3 then
        match actionBuf.switchType
        case Unknown =>
          var check := TypeOfFirstByte(b);
          var s := this.(actionBuf := actionBuf.(switchType := check));
          (match check
           case Digital => s.DataOfDigitalSwitch().(actionRawBuf := actionRawBuf + [b])
           case Analog => s.DataOfAnalogSwitch().(actionRawBuf := actionRawBuf + [b])
           case Unknown => s)
        case Analog => this.(actionRawBuf := actionRawBuf + [b])
        case Digital => this
      else this
    }

    /** The five collecting stages of `put_challenge`, in source order. */
    function Collect(b: byte): ParserState
    {
      var msg := Msg(b);
      Start(msg).PushLetter(msg, 'D').CollectPayload(b).PushLetter(msg, 'E').PushLetter(msg, 'C')
    }

    /** The closing stage: four header letters, or a counter past 5, end the frame; it
        is accepted when the letters spell `ADEC` and the counter, cast to `i8`, equals
        the expected frame length cast to `i8`. */
    function Check(now: int): StepResult
      requires readCount < 255
      requires headerBuf == Header && AsI8(readCount + 1) == AsI8(dataLen) ==> Formattable()
    {
      if |headerBuf| == HeaderLen || readCount > 5 then
        var s := CountupRead();
        if s.headerBuf == Header && AsI8(s.readCount) == AsI8(s.dataLen) then
          var done := s.ClearFlagCount().FormatSwitchData(now);
          StepResult(done, Some(done.actionBuf))
        else
          StepResult(s.ClearFlagCount(), None)
      else
        StepResult(if isReading then CountupRead() else this, None)
    }

    /** `put_challenge(b)` with the clock reading `now`: the new fields, and the event
        handed on when a frame completes (the call then returns `true`). */
    function Step(b: byte, now: int): StepResult
      requires Inv()
    {
      CollectReady(this, b);
      Collect(b).Check(now)
    }
  }

  /** `ActionDataParser::new()`. */
  const InitialParser := ParserState("", false, 0, 0, UnknownBody, false, NewSwitchInfo, [])

  lemma InitialValid()
    ensures InitialParser.Inv()
  {
  }

  /** The state right after an `A` started a frame. */
  function Started(s: ParserState): (t: ParserState)
    ensures t.isReading && t.headerBuf == "A" && t.actionRawBuf == []
  {
    s.(headerBuf := "A", isReading := true, readCount := 0, hasCollect := false,
       actionBuf := NewSwitchInfo, actionRawBuf := [])
  }

  /** The effect of the collecting stages, case by case. */
  lemma CollectFacts(s: ParserState, b: byte)
    requires s.Inv()
    ensures !s.isReading && b == LetterA ==> s.Collect(b) == Started(s)
    ensures !s.isReading && b != LetterA ==> s.Collect(b) == s
    ensures s.isReading ==> var t := s.Collect(b);
      t.isReading && t.readCount == s.readCount && !t.hasCollect &&
      t.headerBuf == s.headerBuf + (if b in {LetterD, LetterE, LetterC} then [b as char] else []) &&
      t.dataLen == s.CollectPayload(b).dataLen &&
      t.actionBuf == s.CollectPayload(b).actionBuf &&
      t.actionRawBuf == s.CollectPayload(b).actionRawBuf
  {
    var msg := Msg(b);
    assert msg == "A" <==> b == LetterA;
    assert msg == "D" <==> b == LetterD;
    assert msg == "E" <==> b == LetterE;
    assert msg == "C" <==> b == LetterC;
    if s.isReading {
      var p := s.Start(msg).PushLetter(msg, 'D');
      assert p.readCount == s.readCount && p.isReading && p.actionBuf == s.actionBuf;
      assert p.CollectPayload(b).actionBuf == s.CollectPayload(b).actionBuf;
    }
  }

  /** The payload stage while a frame is read. */
  lemma PayloadFacts(s: ParserState, b: byte)
    requires s.Inv() && s.isReading
    ensures var t := s.CollectPayload(b);
      t.headerBuf == s.headerBuf && t.isReading && t.readCount == s.readCount && !t.hasCollect &&
      t.dataLen in {0, 5, 6} &&
      (s.readCount <= 1 ==> t.actionBuf == s.actionBuf && t.actionRawBuf == s.actionRawBuf && t.dataLen == s.dataLen) &&
      (s.readCount == 2 ==>
         t.actionBuf.switchType == TypeOfFirstByte(b) && t.actionRawBuf == [b] && t.PayloadKnown()) &&
      (s.readCount == 3 ==>
         t.actionBuf.switchType == s.actionBuf.switchType && t.PayloadKnown() &&
         t.actionRawBuf == s.actionRawBuf + (if s.actionBuf.switchType == Analog then [b] else [])) &&
      (s.readCount >= 4 ==> t == s)
  {
  }

  /** The collecting stages leave the closing stage what it needs. */
  lemma CollectReady(s: ParserState, b: byte)
    requires s.Inv()
    ensures var t := s.Collect(b);
      t.readCount < 255 &&
      (t.headerBuf == Header && AsI8(t.readCount + 1) == AsI8(t.dataLen) ==> t.Formattable())
  {
    CollectFacts(s, b);
    var t := s.Collect(b);
    if s.isReading {
      PayloadFacts(s, b);
      if t.headerBuf == Header && AsI8(t.readCount + 1) == AsI8(t.dataLen) {
        assert t.dataLen in {0, 5, 6};
        AsI8Small(t.readCount + 1, t.dataLen);
      }
    } else if b == LetterA {
    } else {
      AsI8Small(1, s.dataLen);
    }
  }

  /** Decoding keeps the invariant: in particular the counter stays at most 6. */
  lemma StepPreservesInv(s: ParserState, b: byte, now: int)
    requires s.Inv()
    ensures s.Step(b, now).state.Inv()
  {
    CollectFacts(s, b);
    if s.isReading {
      PayloadFacts(s, b);
    }
  }

  /** The decoded event of a complete frame whose payload is `raw`. */
  function Decoded(t: SwitchType, raw: seq<byte>, now: int): SwitchInfo
    requires t == Digital ==> |raw| >= 1
    requires t == Analog ==> |raw| >= 2
  {
    match t
    case Digital => SwitchInfo(Digital, DigitalId(raw[0]), DigitalState(raw[0]), now)
    case Analog => SwitchInfo(Analog, AnalogId(raw[0]), AnalogState(raw[0], raw[1]), now)
    case Unknown => SwitchInfo(Unknown, 0, 0, now)
  }

  /** When one byte completes a frame: exactly when it is the `C` that follows `ADE`
      and the counter then reaches the length the payload announced. The event is the
      decoded payload, of a known kind, stamped with the clock reading. */
  lemma StepEmits(s: ParserState, b: byte, now: int)
    requires s.Inv()
    ensures var r := s.Step(b, now);
      r.emitted.Some? <==>
        s.isReading && b == LetterC && s.headerBuf == "ADE" && s.readCount + 1 == s.dataLen
    ensures var r := s.Step(b, now);
      r.emitted.Some? ==>
        s.PayloadKnown() && s.Formattable() &&
        r.emitted.value == Decoded(s.actionBuf.switchType, s.actionRawBuf, now) &&
        r.emitted.value.switchType != Unknown &&
        r.state.actionBuf == r.emitted.value && r.state.headerBuf == Header && !r.state.isReading
  {
    CollectFacts(s, b);
    var t := s.Collect(b);
    if s.isReading {
      PayloadFacts(s, b);
      AsI8Small(t.readCount + 1, t.dataLen);
      if t.headerBuf == Header {
        assert b in {LetterD, LetterE, LetterC};
        assert t.headerBuf == s.headerBuf + [b as char];
        assert s.headerBuf == Header[..3] && b == LetterC;
      }
      if b == LetterC && s.headerBuf == "ADE" {
        assert t.headerBuf == Header;
      }
    } else if b != LetterA {
      AsI8Small(1, s.dataLen);
    }
  }

  /** Bytes that arrive while idle, other than `A`, change nothing and emit nothing; a
      header left over from an earlier frame stays in the buffer. */
  lemma IdleByteIgnored(s: ParserState, b: byte, now: int)
    requires s.Inv() && !s.isReading && b != LetterA
    ensures s.Step(b, now) == StepResult(s, None)
  {
    CollectFacts(s, b);
    AsI8Small(1, s.dataLen);
  }

  /** An `A` while idle starts a frame from clean buffers, whatever came before; the
      frame length of the previous frame stays until the new payload replaces it. */
  lemma StartResets(s: ParserState, now: int)
    requires s.Inv() && !s.isReading
    ensures s.Step(LetterA, now) == StepResult(Started(s).(readCount := 1), None)
  {
    CollectFacts(s, LetterA);
  }

  /** An `A` during a frame does not restart it: the header collected so far is kept. */
  lemma ReadingIgnoresStart(s: ParserState, now: int)
    requires s.Inv() && s.isReading
    ensures s.Step(LetterA, now).state.headerBuf == s.headerBuf
  {
    CollectFacts(s, LetterA);
  }

  /** During a frame every byte either moves the counter on by one or ends the frame. */
  lemma ReadingAdvances(s: ParserState, b: byte, now: int)
    requires s.Inv() && s.isReading
    ensures var t := s.Step(b, now).state;
      !t.isReading || (t.readCount == s.readCount + 1 && t.readCount <= 6)
  {
    CollectFacts(s, b);
    PayloadFacts(s, b);
  }

  datatype Fed = Fed(state: ParserState, emitted: seq<SwitchInfo>)

  /** The events one step hands on: none, or the one it completed. */
  function Emitted(r: StepResult): (es: seq<SwitchInfo>)
    ensures |es| <= 1
    ensures es == [] <==> r.emitted.None?
  {
    if r.emitted.Some? then [r.emitted.value] else []
  }

  /** `put_challenge` on each byte of `bs` in turn, all with the clock reading `now`:
      the final state and the events handed on, in order. */
  function Feed(s: ParserState, bs: seq<byte>, now: int): (r: Fed)
    requires s.Inv()
    ensures r.state.Inv()
    decreases |bs|
  {
    if bs == [] then Fed(s, [])
    else
      var r1 := s.Step(bs[0], now);
      StepPreservesInv(s, bs[0], now);
      var rest := Feed(r1.state, bs[1..], now);
      Fed(rest.state, Emitted(r1) + rest.emitted)
  }

  /** Feeding a non-empty run is one step and then the rest. */
  lemma FeedFirst(s: ParserState, bs: seq<byte>, now: int)
    requires s.Inv() && bs != []
    ensures s.Step(bs[0], now).state.Inv()
    ensures var r1 := s.Step(bs[0], now);
      var rest := Feed(r1.state, bs[1..], now);
      Feed(s, bs, now) == Fed(rest.state, Emitted(r1) + rest.emitted)
  {
    StepPreservesInv(s, bs[0], now);
  }

  /** Where feeding two pieces ends is where feeding the second ends, started from
      where the first ended. */
  lemma {:induction false} FeedAppendState(s: ParserState, a: seq<byte>, b: seq<byte>, now: int)
    requires s.Inv()
    ensures Feed(s, a + b, now).state == Feed(Feed(s, a, now).state, b, now).state
    decreases |a|
  {
    if a == [] {
      assert a + b == b;
    } else {
      assert (a + b)[0] == a[0];
      assert (a + b)[1..] == a[1..] + b;
      StepPreservesInv(s, a[0], now);
      FeedAppendState(s.Step(a[0], now).state, a[1..], b, now);
    }
  }

  /** The first step of feeding two pieces is the first step of the first piece. */
  lemma FeedAppendFirst(s: ParserState, a: seq<byte>, b: seq<byte>, now: int)
    requires s.Inv() && a != []
    ensures s.Step(a[0], now).state.Inv()
    ensures Feed(s, a + b, now).emitted ==
      Emitted(s.Step(a[0], now)) + Feed(s.Step(a[0], now).state, a[1..] + b, now).emitted
  {
    assert (a + b)[0] == a[0];
    assert (a + b)[1..] == a[1..] + b;
    StepPreservesInv(s, a[0], now);
  }

  /** Feeding two pieces is feeding the first, then the second from where it ended. */
  lemma {:induction false} FeedAppend(s: ParserState, a: seq<byte>, b: seq<byte>, now: int)
    requires s.Inv()
    ensures Feed(s, a + b, now).state == Feed(Feed(s, a, now).state, b, now).state
    ensures Feed(s, a + b, now).emitted == Feed(s, a, now).emitted + Feed(Feed(s, a, now).state, b, now).emitted
    decreases |a|
  {
    FeedAppendState(s, a, b, now);
    if a == [] {
      assert a + b == b;
    } else {
      var r1 := s.Step(a[0], now);
      StepPreservesInv(s, a[0], now);
      var mid := Feed(r1.state, a[1..], now);
      var last := Feed(mid.state, b, now).emitted;
      calc {
        Feed(s, a + b, now).emitted;
        == { FeedAppendFirst(s, a, b, now); }
        Emitted(r1) + Feed(r1.state, a[1..] + b, now).emitted;
        == { FeedAppend(r1.state, a[1..], b, now); }
        Emitted(r1) + (mid.emitted + last);
        == { ConcatAssoc(Emitted(r1), mid.emitted, last); }
        (Emitted(r1) + mid.emitted) + last;
      }
    }
  }

  /** The bytes of a digital frame and of an analog frame. */
  function DigitalFrame(b0: byte): seq<byte>
  {
    [LetterA, LetterD, b0, LetterE, LetterC]
  }

  function AnalogFrame(b0: byte, b1: byte): seq<byte>
  {
    [LetterA, LetterD, b0, b1, LetterE, LetterC]
  }

  /** One step, spelled out as `Feed` of a single byte. */
  lemma FeedOne(s: ParserState, b: byte, now: int)
    requires s.Inv()
    ensures Feed(s, [b], now).state == s.Step(b, now).state
    ensures Feed(s, [b], now).emitted ==
      (if s.Step(b, now).emitted.Some? then [s.Step(b, now).emitted.value] else [])
  {
    assert [b][1..] == [];
  }

  /** Feeding a sequence byte by byte, first byte split off. */
  lemma FeedCons(s: ParserState, b: byte, bs: seq<byte>, now: int)
    requires s.Inv()
    ensures Feed(s, [b] + bs, now).state == Feed(Feed(s, [b], now).state, bs, now).state
    ensures Feed(s, [b] + bs, now).emitted == Feed(s, [b], now).emitted + Feed(Feed(s, [b], now).state, bs, now).emitted
  {
    FeedAppend(s, [b], bs, now);
  }

  /** The first two bytes of any frame, from an idle decoder. */
  lemma FrameOpening(s: ParserState, now: int)
    requires s.Inv() && !s.isReading
    ensures var t := Feed(s, [LetterA, LetterD], now);
      t.emitted == [] && t.state.isReading && t.state.readCount == 2 && t.state.headerBuf == "AD" &&
      t.state.actionBuf == NewSwitchInfo && t.state.actionRawBuf == []
  {
    StartResets(s, now);
    var s1 := Started(s).(readCount := 1);
    FeedOne(s, LetterA, now);
    CollectFacts(s1, LetterD);
    PayloadFacts(s1, LetterD);
    StepEmits(s1, LetterD, now);
    FeedOne(s1, LetterD, now);
    FeedCons(s, LetterA, [LetterD], now);
  }

  /** A payload or trailer byte during a frame that does not finish it: the counter
      moves on, the header grows by the byte if it is a header letter, and the payload
      stage runs. */
  lemma MidFrameStep(s: ParserState, b: byte, now: int)
    requires s.Inv() && s.isReading && s.readCount <= 5
    requires |s.headerBuf| + (if b in {LetterD, LetterE, LetterC} then 1 else 0) < HeaderLen
    ensures var r := s.Step(b, now);
      r.emitted.None? && r.state.isReading && r.state.readCount == s.readCount + 1 &&
      r.state.headerBuf == s.headerBuf + (if b in {LetterD, LetterE, LetterC} then [b as char] else []) &&
      r.state.actionBuf == s.CollectPayload(b).actionBuf &&
      r.state.actionRawBuf == s.CollectPayload(b).actionRawBuf &&
      r.state.dataLen == s.CollectPayload(b).dataLen
  {
    CollectFacts(s, b);
  }

  /** The state after the opening `A`, `D` of a frame. */
  predicate Opened(s: ParserState)
  {
    s.Inv() && s.isReading && s.readCount == 2 && s.headerBuf == "AD" &&
    s.actionBuf == NewSwitchInfo && s.actionRawBuf == []
  }

  /** The three bytes after the opening of a digital frame, one step at a time. */
  lemma DigitalBodySteps(s2: ParserState, b0: byte, now: int)
    requires Opened(s2)
    requires b0 < 0x80 && b0 !in {LetterD, LetterE, LetterC}
    ensures var r3 := s2.Step(b0, now);
      var r4 := r3.state.Step(LetterE, now);
      var r5 := r4.state.Step(LetterC, now);
      r3.state.Inv() && r4.state.Inv() &&
      r3.emitted.None? && r4.emitted.None? &&
      r5.emitted == Some(SwitchInfo(Digital, DigitalId(b0), DigitalState(b0), now)) &&
      !r5.state.isReading && r5.state.headerBuf == Header
  {
    PayloadFacts(s2, b0);
    MidFrameStep(s2, b0, now);
    StepPreservesInv(s2, b0, now);
    var s3 := s2.Step(b0, now).state;
    assert s3.actionBuf.switchType == Digital && s3.actionRawBuf == [b0] && s3.dataLen == 5;
    PayloadFacts(s3, LetterE);
    MidFrameStep(s3, LetterE, now);
    StepPreservesInv(s3, LetterE, now);
    var s4 := s3.Step(LetterE, now).state;
    assert s4.headerBuf == "ADE" && s4.readCount == 4 && s4.actionRawBuf == [b0];
    StepEmits(s4, LetterC, now);
  }

  /** The four bytes after the opening of an analog frame, one step at a time. */
  lemma AnalogBodySteps(s2: ParserState, b0: byte, b1: byte, now: int)
    requires Opened(s2)
    requires b0 >= 0x80 && b1 !in {LetterD, LetterE, LetterC}
    ensures var r3 := s2.Step(b0, now);
      var r4 := r3.state.Step(b1, now);
      var r5 := r4.state.Step(LetterE, now);
      var r6 := r5.state.Step(LetterC, now);
      r3.state.Inv() && r4.state.Inv() && r5.state.Inv() &&
      r3.emitted.None? && r4.emitted.None? && r5.emitted.None? &&
      r6.emitted == Some(SwitchInfo(Analog, AnalogId(b0), AnalogState(b0, b1), now)) &&
      !r6.state.isReading && r6.state.headerBuf == Header
  {
    PayloadFacts(s2, b0);
    MidFrameStep(s2, b0, now);
    StepPreservesInv(s2, b0, now);
    var s3 := s2.Step(b0, now).state;
    assert s3.actionBuf.switchType == Analog && s3.actionRawBuf == [b0] && s3.dataLen == 6;
    PayloadFacts(s3, b1);
    MidFrameStep(s3, b1, now);
    StepPreservesInv(s3, b1, now);
    var s4 := s3.Step(b1, now).state;
    assert s4.headerBuf == "AD" && s4.readCount == 4 && s4.actionRawBuf == [b0, b1];
    PayloadFacts(s4, LetterE);
    MidFrameStep(s4, LetterE, now);
    StepPreservesInv(s4, LetterE, now);
    var s5 := s4.Step(LetterE, now).state;
    assert s5.headerBuf == "ADE" && s5.readCount == 5 && s5.actionRawBuf == [b0, b1];
    StepEmits(s5, LetterC, now);
  }

  /** Feeding three bytes is three steps. */
  lemma FeedThree(s: ParserState, x: byte, y: byte, z: byte, now: int)
    requires s.Inv() && s.Step(x, now).state.Inv() && s.Step(x, now).state.Step(y, now).state.Inv()
    ensures var r1 := s.Step(x, now);
      var r2 := r1.state.Step(y, now);
      var r3 := r2.state.Step(z, now);
      Feed(s, [x, y, z], now) == Fed(r3.state, Emitted(r1) + (Emitted(r2) + Emitted(r3)))
  {
    assert [x, y, z][1..] == [y, z];
    FeedTwo(s.Step(x, now).state, y, z, now);
  }

  /** Feeding two bytes is two steps. */
  lemma FeedTwo(s: ParserState, y: byte, z: byte, now: int)
    requires s.Inv() && s.Step(y, now).state.Inv()
    ensures var r1 := s.Step(y, now);
      var r2 := r1.state.Step(z, now);
      Feed(s, [y, z], now) == Fed(r2.state, Emitted(r1) + Emitted(r2))
  {
    assert [y, z][1..] == [z];
    FeedOne(s.Step(y, now).state, z, now);
    assert Feed(s.Step(y, now).state, [z], now).emitted == Emitted(s.Step(y, now).state.Step(z, now));
  }

  /** Feeding four bytes is four steps. */
  lemma FeedFour(s: ParserState, w: byte, x: byte, y: byte, z: byte, now: int)
    requires s.Inv() && s.Step(w, now).state.Inv()
    requires s.Step(w, now).state.Step(x, now).state.Inv()
    requires s.Step(w, now).state.Step(x, now).state.Step(y, now).state.Inv()
    ensures var r1 := s.Step(w, now);
      var r2 := r1.state.Step(x, now);
      var r3 := r2.state.Step(y, now);
      var r4 := r3.state.Step(z, now);
      Feed(s, [w, x, y, z], now) == Fed(r4.state, Emitted(r1) + (Emitted(r2) + (Emitted(r3) + Emitted(r4))))
  {
    assert [w, x, y, z][1..] == [x, y, z];
    FeedThree(s.Step(w, now).state, x, y, z, now);
  }

  /** A digital frame sent to an idle decoder is decoded: one event, with the id and
      state of its payload byte, handed on when the closing `C` arrives. The payload
      byte must not itself be one of the letters `D`, `E`, `C` (see below). */
  lemma DigitalFrameDecoded(s: ParserState, b0: byte, now: int)
    requires s.Inv() && !s.isReading
    requires b0 < 0x80 && b0 !in {LetterD, LetterE, LetterC}
    ensures var r := Feed(s, DigitalFrame(b0), now);
      r.emitted == [SwitchInfo(Digital, DigitalId(b0), DigitalState(b0), now)] &&
      !r.state.isReading && r.state.headerBuf == Header
  {
    assert DigitalFrame(b0) == [LetterA, LetterD] + [b0, LetterE, LetterC];
    FrameOpening(s, now);
    var s2 := Feed(s, [LetterA, LetterD], now).state;
    DigitalBodySteps(s2, b0, now);
    FeedThree(s2, b0, LetterE, LetterC, now);
    FeedAppend(s, [LetterA, LetterD], [b0, LetterE, LetterC], now);
  }

  /** An analog frame sent to an idle decoder is decoded the same way from its two
      payload bytes; the second must not be one of the letters `D`, `E`, `C`. */
  lemma AnalogFrameDecoded(s: ParserState, b0: byte, b1: byte, now: int)
    requires s.Inv() && !s.isReading
    requires b0 >= 0x80 && b1 !in {LetterD, LetterE, LetterC}
    ensures var r := Feed(s, AnalogFrame(b0, b1), now);
      r.emitted == [SwitchInfo(Analog, AnalogId(b0), AnalogState(b0, b1), now)] &&
      !r.state.isReading && r.state.headerBuf == Header
  {
    assert AnalogFrame(b0, b1) == [LetterA, LetterD] + [b0, b1, LetterE, LetterC];
    FrameOpening(s, now);
    var s2 := Feed(s, [LetterA, LetterD], now).state;
    AnalogBodySteps(s2, b0, b1, now);
    FeedFour(s2, b0, b1, LetterE, LetterC, now);
    FeedAppend(s, [LetterA, LetterD], [b0, b1, LetterE, LetterC], now);
  }

  /** Every digital event the device can send arrives as sent, except those whose
      payload byte is a header letter. */
  lemma DigitalEventDelivered(s: ParserState, id: u8, state: u16, now: int)
    requires s.Inv() && !s.isReading
    requires id <= 63 && state <= 1
    requires EncodeDigital(id, state) !in {LetterD, LetterE, LetterC}
    ensures Feed(s, DigitalFrame(EncodeDigital(id, state)), now).emitted == [SwitchInfo(Digital, id, state, now)]
  {
    DigitalEncodeDecode(id, state);
    DigitalFrameDecoded(s, EncodeDigital(id, state), now);
  }

  /** Every analog event arrives as sent, except those whose low state byte is a
      header letter. */
  lemma AnalogEventDelivered(s: ParserState, id: u8, state: u16, now: int)
    requires s.Inv() && !s.isReading
    requires id <= 31 && state <= 1023
    requires state % 256 !in {LetterD, LetterE, LetterC}
    ensures var p := EncodeAnalog(id, state);
      Feed(s, AnalogFrame(p.0, p.1), now).emitted == [SwitchInfo(Analog, id, state, now)]
  {
    AnalogEncodeDecode(id, state);
    var p := EncodeAnalog(id, state);
    AnalogFrameDecoded(s, p.0, p.1, now);
  }

  /** A frame ends, accepted or not, when its fourth header letter arrives. */
  lemma FourthLetterEnds(s: ParserState, b: byte, now: int)
    requires s.Inv() && s.isReading && |s.headerBuf| == 3 && b in {LetterD, LetterE, LetterC}
    ensures var r := s.Step(b, now);
      !r.state.isReading && r.state.headerBuf == s.headerBuf + [b as char]
  {
    CollectFacts(s, b);
  }

  /** A payload byte equal to a header letter is also taken as a header letter: the
      header is then complete one byte early and wrong, and the frame is dropped. This
      happens for the digital bytes of switch 33 in state 1 and of switch 34. */
  lemma LetterPayloadDropsDigitalFrame(s: ParserState, b0: byte, now: int)
    requires s.Inv() && !s.isReading
    requires b0 in {LetterD, LetterE, LetterC}
    ensures Feed(s, DigitalFrame(b0), now).emitted == []
    ensures b0 == EncodeDigital(33, 1) || b0 == EncodeDigital(34, 0) || b0 == EncodeDigital(34, 1)
  {
    assert DigitalFrame(b0) == [LetterA, LetterD] + [b0, LetterE, LetterC];
    FrameOpening(s, now);
    var s2 := Feed(s, [LetterA, LetterD], now).state;
    MidFrameStep(s2, b0, now);
    StepPreservesInv(s2, b0, now);
    var s3 := s2.Step(b0, now).state;
    StepEmits(s3, LetterE, now);
    FourthLetterEnds(s3, LetterE, now);
    StepPreservesInv(s3, LetterE, now);
    var s4 := s3.Step(LetterE, now).state;
    IdleByteIgnored(s4, LetterC, now);
    FeedThree(s2, b0, LetterE, LetterC, now);
    FeedAppend(s, [LetterA, LetterD], [b0, LetterE, LetterC], now);
  }

  /** The same for an analog frame whose second payload byte is a header letter. */
  lemma LetterPayloadDropsAnalogFrame(s: ParserState, b0: byte, b1: byte, now: int)
    requires s.Inv() && !s.isReading
    requires b0 >= 0x80 && b1 in {LetterD, LetterE, LetterC}
    ensures Feed(s, AnalogFrame(b0, b1), now).emitted == []
  {
    assert AnalogFrame(b0, b1) == [LetterA, LetterD] + [b0, b1, LetterE, LetterC];
    FrameOpening(s, now);
    var s2 := Feed(s, [LetterA, LetterD], now).state;
    MidFrameStep(s2, b0, now);
    StepPreservesInv(s2, b0, now);
    var s3 := s2.Step(b0, now).state;
    MidFrameStep(s3, b1, now);
    StepPreservesInv(s3, b1, now);
    var s4 := s3.Step(b1, now).state;
    StepEmits(s4, LetterE, now);
    FourthLetterEnds(s4, LetterE, now);
    StepPreservesInv(s4, LetterE, now);
    var s5 := s4.Step(LetterE, now).state;
    IdleByteIgnored(s5, LetterC, now);
    FeedFour(s2, b0, b1, LetterE, LetterC, now);
    FeedAppend(s, [LetterA, LetterD], [b0, b1, LetterE, LetterC], now);
  }

  /** Resynchronisation: whatever the decoder was doing, after enough bytes that are
      not `A` it is idle again (at most six bytes, fewer the further a frame had got). */
  lemma {:induction false} NoiseEndsFrame(s: ParserState, bs: seq<byte>, now: int)
    requires s.Inv()
    requires forall i :: 0 <= i < |bs| ==> bs[i] != LetterA
    requires |bs| >= (if s.isReading then 7 - s.readCount else 0)
    ensures !Feed(s, bs, now).state.isReading
    decreases |bs|
  {
    if bs != [] {
      var r := s.Step(bs[0], now);
      if s.isReading {
        ReadingAdvances(s, bs[0], now);
      } else {
        IdleByteIgnored(s, bs[0], now);
      }
      StepPreservesInv(s, bs[0], now);
      NoiseEndsFrame(r.state, bs[1..], now);
    }
  }

  /** So a digital frame that follows six or more such bytes is decoded, whatever state
      the decoder was left in. */
  lemma FrameAfterNoise(s: ParserState, noise: seq<byte>, b0: byte, now: int)
    requires s.Inv()
    requires |noise| >= 6 && forall i :: 0 <= i < |noise| ==> noise[i] != LetterA
    requires b0 < 0x80 && b0 !in {LetterD, LetterE, LetterC}
    ensures Feed(s, noise + DigitalFrame(b0), now).emitted ==
      Feed(s, noise, now).emitted + [SwitchInfo(Digital, DigitalId(b0), DigitalState(b0), now)]
  {
    NoiseEndsFrame(s, noise, now);
    FeedAppend(s, noise, DigitalFrame(b0), now);
    DigitalFrameDecoded(Feed(s, noise, now).state, b0, now);
  }

  /** Only a `C` can complete a frame, so bytes without one hand nothing on. */
  lemma {:induction false} NoEventWithoutC(s: ParserState, bs: seq<byte>, now: int)
    requires s.Inv()
    requires forall i :: 0 <= i < |bs| ==> bs[i] != LetterC
    ensures Feed(s, bs, now).emitted == []
    decreases |bs|
  {
    if bs != [] {
      StepEmits(s, bs[0], now);
      StepPreservesInv(s, bs[0], now);
      NoEventWithoutC(s.Step(bs[0], now).state, bs[1..], now);
    }
  }

  /** A digital frame stretched by four or more bytes that are not header letters,
      between its payload and its trailer, is dropped: the counter passes 5 and ends
      the frame before its trailer arrives. */
  lemma StretchedFrameDropped(s: ParserState, b0: byte, filler: seq<byte>, now: int)
    requires s.Inv() && !s.isReading
    requires b0 < 0x80 && b0 !in {LetterD, LetterE, LetterC}
    requires |filler| >= 4
    requires forall i :: 0 <= i < |filler| ==> filler[i] !in {LetterA, LetterD, LetterE, LetterC}
    ensures Feed(s, [LetterA, LetterD, b0] + filler + [LetterE, LetterC], now).emitted == []
  {
    assert [LetterA, LetterD, b0] + filler + [LetterE, LetterC] ==
      [LetterA, LetterD] + ([b0] + (filler + [LetterE, LetterC]));
    FrameOpening(s, now);
    var s2 := Feed(s, [LetterA, LetterD], now).state;
    PayloadFacts(s2, b0);
    MidFrameStep(s2, b0, now);
    StepPreservesInv(s2, b0, now);
    FeedOne(s2, b0, now);
    var s3 := s2.Step(b0, now).state;
    NoiseEndsFrame(s3, filler, now);
    NoEventWithoutC(s3, filler, now);
    var s4 := Feed(s3, filler, now).state;
    IdleByteIgnored(s4, LetterE, now);
    IdleByteIgnored(s4, LetterC, now);
    FeedTwo(s4, LetterE, LetterC, now);
    FeedAppend(s3, filler, [LetterE, LetterC], now);
    FeedAppend(s2, [b0], filler + [LetterE, LetterC], now);
    FeedAppend(s, [LetterA, LetterD], [b0] + (filler + [LetterE, LetterC]), now);
  }

  /** The class `ActionDataParser`. Its change detector and the callbacks of both share
      one `trace`, so the order in which callbacks run is visible. */
  class ActionDataParser {
    var headerBuf: string
    var isReading: bool
    var readCount: u8
    var headerLen: nat
    var dataLen: nat
    var bodyLen: BodyLen
    var hasCollect: bool
    var onCorrectHandler: seq<HandlerId>
    var completeCount: nat
    var actionBuf: SwitchInfo
    var actionRawBuf: seq<byte>
    const compare: ActionCompare
    const trace: Trace<SwitchInfo>

    /** The decoding fields as a value. */
    function State(): ParserState
      reads this
    {
      ParserState(headerBuf, isReading, readCount, dataLen, bodyLen, hasCollect, actionBuf, actionRawBuf)
    }

    ghost predicate Valid()
      reads this
    {
      State().Inv() && compare.trace == trace
    }

    /** `ActionDataParser::new()`: idle, no handlers, a fresh change detector. */
    constructor (trace: Trace<SwitchInfo>)
      ensures Valid() && State() == InitialParser
      ensures this.trace == trace && fresh(compare)
      ensures onCorrectHandler == [] && completeCount == 0 && headerLen == HeaderLen
      ensures compare.prevActions == map[] && compare.onChangeAction == []
    {
      headerBuf := "";
      isReading := false;
      readCount := 0;
      headerLen := HeaderLen;
      dataLen := 0;
      bodyLen := UnknownBody;
      hasCollect := false;
      onCorrectHandler := [];
      completeCount := 0;
      actionBuf := NewSwitchInfo;
      actionRawBuf := [];
      compare := new ActionCompare(trace);
      this.trace := trace;
    }

    method DataOfDigitalSwitch()
      modifies this
      ensures State() == old(State()).DataOfDigitalSwitch()
      ensures onCorrectHandler == old(onCorrectHandler) && completeCount == old(completeCount)
    {
      bodyLen := DigitalBody;
      dataLen := HeaderLen + BodyBytes(DigitalBody);
    }

    method DataOfAnalogSwitch()
      modifies this
      ensures State() == old(State()).DataOfAnalogSwitch()
      ensures onCorrectHandler == old(onCorrectHandler) && completeCount == old(completeCount)
    {
      bodyLen := AnalogBody;
      dataLen := HeaderLen + BodyBytes(AnalogBody);
    }

    method CountupRead()
      requires readCount < 255
      modifies this
      ensures State() == old(State()).CountupRead()
      ensures onCorrectHandler == old(onCorrectHandler) && completeCount == old(completeCount)
    {
      readCount := readCount + 1;
    }

    method CountupComplete()
      modifies this
      ensures completeCount == old(completeCount) + 1
      ensures State() == old(State()) && onCorrectHandler == old(onCorrectHandler)
    {
      completeCount := completeCount + 1;
    }

    method ClearFlagCount()
      modifies this
      ensures State() == old(State()).ClearFlagCount()
      ensures onCorrectHandler == old(onCorrectHandler) && completeCount == old(completeCount)
    {
      isReading := false;
      readCount := 0;
      hasCollect := false;
    }

    method ClearBuf()
      modifies this
      ensures State() == old(State()).ClearBuf()
      ensures onCorrectHandler == old(onCorrectHandler) && completeCount == old(completeCount)
    {
      headerBuf := "";
      actionBuf := NewSwitchInfo;
      actionRawBuf := [];
    }

    /** `format_switch_data`, with the clock reading passed in. */
    method FormatSwitchData(now: int)
      requires State().Formattable()
      modifies this
      ensures State() == old(State()).FormatSwitchData(now)
      ensures onCorrectHandler == old(onCorrectHandler) && completeCount == old(completeCount)
    {
      var raw := actionRawBuf;
      var id: u8;
      var state: u16;
      match actionBuf.switchType {
        case Digital =>
          id := DigitalId(raw[0]);
          state := DigitalState(raw[0]);
        case Analog =>
          id := AnalogId(raw[0]);
          state := AnalogState(raw[0], raw[1]);
        case Unknown =>
          id := 0;
          state := 0;
      }
      actionBuf := actionBuf.(switchId := id);
      actionBuf := actionBuf.(switchState := state);
      actionBuf := actionBuf.(timestamp := now);
    }

    /** `put_challenge`: one byte from the device, with the clock reading `now`. It
        returns whether the byte completed a frame; the completed event then goes to the
        change detector first and to every `on_complete` handler after. */
    method PutChallenge(data: byte, now: int) returns (ok: bool)
      requires Valid()
      modifies this, compare, trace
      ensures Valid()
      ensures State() == old(State()).Step(data, now).state
      ensures ok <==> old(State()).Step(data, now).emitted.Some?
      ensures onCorrectHandler == old(onCorrectHandler)
      ensures compare.onChangeAction == old(compare.onChangeAction) && compare.actions == old(compare.actions)
      ensures var e := old(State()).Step(data, now).emitted;
        e.None? ==>
          completeCount == old(completeCount) && compare.prevActions == old(compare.prevActions) &&
          trace.calls == old(trace.calls)
      ensures var e := old(State()).Step(data, now).emitted;
        e.Some? ==>
          completeCount == old(completeCount) + 1 &&
          compare.prevActions == Record(old(compare.prevActions), e.value) &&
          trace.calls == old(trace.calls)
            + (if IsChange(old(compare.prevActions), e.value) then Calls(compare.onChangeAction, e.value) else [])
            + Calls(onCorrectHandler, e.value)
    {
      ghost var s0 := State();
      StepPreservesInv(s0, data, now);
      CollectStages(data);
      CollectReady(s0, data);
      if |headerBuf| == HeaderLen || readCount > 5 {
        CountupRead();
        if headerBuf == Header && AsI8(readCount) == AsI8(dataLen) {
          ClearFlagCount();
          FormatSwitchData(now);
          OnCompleteEmitAll(actionBuf);
          return true;
        } else {
          ClearFlagCount();
          return false;
        }
      } else {
        if isReading {
          CountupRead();
        }
        return false;
      }
    }

    /** The first part of `put_challenge`: the stages that collect header letters and
        payload bytes. */
    method CollectStages(data: byte)
      modifies this
      ensures State() == old(State()).Collect(data)
      ensures onCorrectHandler == old(onCorrectHandler) && completeCount == old(completeCount)
    {
      ghost var s0 := State();
      var msg := Msg(data);
      if msg == "A" && !isReading {
        ClearFlagCount();
        ClearBuf();
        isReading := true;
        headerBuf := headerBuf + ['A'];
      }
      if msg == "D" && isReading {
        headerBuf := headerBuf + ['D'];
      }
      assert State() == s0.Start(msg).PushLetter(msg, 'D');
      CollectPayload(data);
      if msg == "E" && isReading {
        headerBuf := headerBuf + ['E'];
      }
      if msg == "C" && isReading {
        headerBuf := headerBuf + ['C'];
      }
    }

    /** The payload stage of `put_challenge`. */
    method CollectPayload(data: byte)
      modifies this
      ensures State() == old(State()).CollectPayload(data)
      ensures onCorrectHandler == old(onCorrectHandler) && completeCount == old(completeCount)
    {
      if (isReading && readCount == 2) || readCount == 3 {
        match actionBuf.switchType {
          case Unknown =>
            var check := TypeOfFirstByte(data);
            actionBuf := actionBuf.(switchType := check);
            match check {
              case Digital =>
                DataOfDigitalSwitch();
                actionRawBuf := actionRawBuf + [data];
              case Analog =>
                DataOfAnalogSwitch();
                actionRawBuf := actionRawBuf + [data];
              case Unknown =>
            }
          case Analog =>
            actionRawBuf := actionRawBuf + [data];
          case Digital =>
        }
      }
    }

    /** `put_data`: only the first byte of the chunk is decoded (an empty chunk would
        panic on the index). */
    method PutData(data: seq<byte>, now: int)
      requires Valid() && |data| >= 1
      modifies this, compare, trace
      ensures Valid()
      ensures State() == old(State()).Step(data[0], now).state
      ensures onCorrectHandler == old(onCorrectHandler)
      ensures compare.onChangeAction == old(compare.onChangeAction) && compare.actions == old(compare.actions)
      ensures var e := old(State()).Step(data[0], now).emitted;
        e.None? ==>
          completeCount == old(completeCount) && compare.prevActions == old(compare.prevActions) &&
          trace.calls == old(trace.calls)
      ensures var e := old(State()).Step(data[0], now).emitted;
        e.Some? ==>
          completeCount == old(completeCount) + 1 &&
          compare.prevActions == Record(old(compare.prevActions), e.value) &&
          trace.calls == old(trace.calls)
            + (if IsChange(old(compare.prevActions), e.value) then Calls(compare.onChangeAction, e.value) else [])
            + Calls(onCorrectHandler, e.value)
    {
      var _ := PutChallenge(data[0], now);
    }

    /** `on_complete`: registers a handler after the ones already there. */
    method OnComplete(callback: HandlerId)
      modifies this
      ensures onCorrectHandler == old(onCorrectHandler) + [callback]
      ensures State() == old(State()) && completeCount == old(completeCount)
    {
      onCorrectHandler := onCorrectHandler + [callback];
    }

    /** `on_change_action`: registers a callback with the change detector. */
    method OnChangeAction(callback: HandlerId)
      modifies compare
      ensures compare.onChangeAction == old(compare.onChangeAction) + [callback]
      ensures compare.prevActions == old(compare.prevActions)
      ensures compare.actions == old(compare.actions)
    {
      compare.OnChangeAction(callback);
    }

    /** `on_complete_emit_all`: count the frame, let the change detector see it, then
        call every `on_complete` handler with it. */
    method OnCompleteEmitAll(action: SwitchInfo)
      requires compare.trace == trace
      modifies this, compare, trace
      ensures State() == old(State()) && onCorrectHandler == old(onCorrectHandler)
      ensures completeCount == old(completeCount) + 1
      ensures compare.prevActions == Record(old(compare.prevActions), action)
      ensures compare.onChangeAction == old(compare.onChangeAction) && compare.actions == old(compare.actions)
      ensures trace.calls == old(trace.calls)
        + (if IsChange(old(compare.prevActions), action) then Calls(compare.onChangeAction, action) else [])
        + Calls(onCorrectHandler, action)
    {
      CountupComplete();
      compare.PutAction(action);
      CallCompleteHandlers(action);
    }

    /** The loop over `on_correct_handler`. */
    method CallCompleteHandlers(action: SwitchInfo)
      modifies trace
      ensures trace.calls == old(trace.calls) + Calls(onCorrectHandler, action)
    {
      for i := 0 to |onCorrectHandler|
        invariant trace.calls == old(trace.calls) + Calls(onCorrectHandler[..i], action)
      {
        CallsPrefix(onCorrectHandler, i, action);
        trace.calls := trace.calls + [Call(onCorrectHandler[i], action)];
      }
      assert onCorrectHandler[..|onCorrectHandler|] == onCorrectHandler;
    }
  }
}

