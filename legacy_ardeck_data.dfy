/** The earlier frame decoder `ArdeckData` of `ardeck/ardeck_data.rs`. Its collecting
    stages are those of `ActionDataParser` (the same `A`, `D`, payload, `E`, `C` stages
    on the same fields, so they are reused from `SwitchParser`), but it closes a frame
    differently: only a fourth header letter ends a frame, the counter moves on with
    every byte that does not, even while idle, and a completed frame goes to a single
    handler as a `SwitchData` that also carries the raw payload. */
module LegacyArdeckData {
  import opened Common
  import opened Switch
  import opened SwitchParser

  /** `SwitchData`: kind, id, state, the raw payload bytes and the timestamp. */
  datatype SwitchData = SwitchData(switchType: SwitchType, id: u8, state: u16, rawData: seq<byte>, timestamp: int)

  /** The decoder's `switch_data_buf` as it is kept in a `ParserState`: the event
      fields in `actionBuf`, the raw payload in `actionRawBuf`. */
  function DataOf(s: ParserState): SwitchData
  {
    SwitchData(s.actionBuf.switchType, s.actionBuf.switchId, s.actionBuf.switchState, s.actionRawBuf, s.actionBuf.timestamp)
  }

  /** The counter moved on by `k` bytes, wrapping after 255. */
  function CountOn(s: ParserState, k: nat): ParserState
  {
    s.(readCount := (s.readCount + k) % 256)
  }

  /** `read_count += 1` on a `u8`, wrapping after 255 (the release-build behaviour). */
  function Countup(s: ParserState): (t: ParserState)
    ensures t.readCount == (s.readCount + 1) % 256
  {
    s.(readCount := (s.readCount + 1) % 256)
  }

  /** Before the first payload byte of a frame: nothing collected yet, and at most as
      many header letters as bytes counted. */
  predicate BeforePayload(s: ParserState)
  {
    s.actionBuf.switchType == Unknown && s.actionRawBuf == [] &&
    1 <= s.readCount <= 2 && |s.headerBuf| <= s.readCount
  }

  /** After the first payload byte: kind and length known; an analog frame still
      waiting for its second byte gets it at count 3. */
  predicate AfterPayload(s: ParserState)
  {
    s.PayloadKnown() &&
    (s.actionBuf.switchType == Analog && |s.actionRawBuf| < 2 ==> s.readCount == 3)
  }

  /** What holds between two calls. Idle, the header buffer is empty (nothing read
      yet) or full from the last frame with the counter reset; during a frame it holds
      one to three letters. */
  predicate Inv(s: ParserState)
  {
    s.dataLen in {0, 5, 6} && |s.headerBuf| <= HeaderLen && !s.hasCollect &&
    (!s.isReading ==> s.headerBuf == "" || (|s.headerBuf| == HeaderLen && s.readCount == 0)) &&
    (s.isReading ==> 1 <= |s.headerBuf| < HeaderLen && (BeforePayload(s) || AfterPayload(s)))
  }

  datatype Outcome = Outcome(state: ParserState, emitted: Option<SwitchData>)

  /** The closing stage: with four header letters the counter moves on and the frame
      ends, accepted when the letters spell `ADEC` and the counter, cast to `i8`,
      equals the expected length cast to `i8`; otherwise only the counter moves on. */
  function Check(t: ParserState, now: int): Outcome
    requires |t.headerBuf| == HeaderLen && t.headerBuf == Header && AsI8(Countup(t).readCount) == AsI8(t.dataLen) ==>
      t.Formattable()
  {
    var c := Countup(t);
    if |t.headerBuf| == HeaderLen then
      if c.headerBuf == Header && AsI8(c.readCount) == AsI8(c.dataLen) then
        var done := c.ClearFlagCount().FormatSwitchData(now);
        Outcome(done, Some(DataOf(done)))
      else
        Outcome(c.ClearFlagCount(), None)
    else
      Outcome(c, None)
  }

  /** `put_challenge(b)` with the clock reading `now`. */
  function Step(s: ParserState, b: byte, now: int): Outcome
    requires Inv(s)
  {
    CollectLeavesReady(s, b);
    Check(s.Collect(b), now)
  }

  /** Below 256 the `i8` cast is one-to-one. */
  lemma AsI8Byte(x: nat, y: nat)
    requires x < 256 && y < 256
    ensures AsI8(x) == AsI8(y) <==> x == y
  {
  }

  /** The effect of the collecting stages, case by case. While idle the payload stage
      can still run, on the counter alone, but it only touches the payload buffers. */
  lemma CollectFacts(s: ParserState, b: byte)
    requires Inv(s)
    ensures !s.isReading && b == LetterA ==> s.Collect(b) == Started(s)
    ensures !s.isReading && b != LetterA ==> var t := s.Collect(b);
      t.headerBuf == s.headerBuf && !t.isReading && t.readCount == s.readCount && !t.hasCollect &&
      t.dataLen in {0, 5, 6}
    ensures s.isReading ==> var t := s.Collect(b);
      t.isReading && t.readCount == s.readCount && !t.hasCollect &&
      t.headerBuf == s.headerBuf + (if b in {LetterD, LetterE, LetterC} then [b as char] else []) &&
      t.dataLen == s.CollectPayload(b).dataLen &&
      t.actionBuf == s.CollectPayload(b).actionBuf &&
      t.actionRawBuf == s.CollectPayload(b).actionRawBuf
  {
    var msg := Msg(b);
    assert msg == "A" <==> b == LetterA;
    assert msg == "D" <==> b == LetterD;
    assert msg == "E" <==> b == LetterE;
    assert msg == "C" <==> b == LetterC;
    if s.isReading {
      var p := s.Start(msg).PushLetter(msg, 'D');
      assert p.readCount == s.readCount && p.isReading && p.actionBuf == s.actionBuf;
      assert p.CollectPayload(b).actionBuf == s.CollectPayload(b).actionBuf;
    } else if b != LetterA {
      var p := s.Start(msg).PushLetter(msg, 'D');
      assert p == s;
    }
  }

  /** The payload stage during a frame. */
  lemma PayloadFacts(s: ParserState, b: byte)
    requires Inv(s) && s.isReading
    ensures var t := s.CollectPayload(b);
      t.headerBuf == s.headerBuf && t.isReading && t.readCount == s.readCount && !t.hasCollect &&
      t.dataLen in {0, 5, 6} &&
      (BeforePayload(s) && s.readCount == 1 ==> t == s) &&
      (BeforePayload(s) && s.readCount == 2 ==>
         t.actionBuf.switchType == TypeOfFirstByte(b) && t.actionRawBuf == [b] && t.PayloadKnown()) &&
      (AfterPayload(s) ==>
         t.actionBuf.switchType == s.actionBuf.switchType && t.PayloadKnown() && t.dataLen == s.dataLen &&
         (s.readCount !in {2, 3} ==> t == s) &&
         (s.readCount == 3 ==> t.Formattable()))
  {
  }

  /** The collecting stages leave the closing stage what it needs. */
  lemma CollectLeavesReady(s: ParserState, b: byte)
    requires Inv(s)
    ensures var t := s.Collect(b);
      |t.headerBuf| == HeaderLen && t.headerBuf == Header && AsI8(Countup(t).readCount) == AsI8(t.dataLen) ==>
        t.Formattable()
  {
    CollectFacts(s, b);
    var t := s.Collect(b);
    if s.isReading {
      PayloadFacts(s, b);
    } else if b != LetterA {
      AsI8Byte(Countup(t).readCount, t.dataLen);
    }
  }

  /** The closing stage before four letters are in: only the counter moves on. */
  lemma CheckOpen(t: ParserState, now: int)
    requires |t.headerBuf| != HeaderLen
    ensures Check(t, now) == Outcome(Countup(t), None)
  {
  }

  /** The closing stage with four letters in: the frame ends with the letters kept and
      the counter reset, and it is accepted exactly when the letters spell `ADEC` and
      the counter, moved on, equals the expected length. */
  lemma CheckCloses(t: ParserState, now: int)
    requires |t.headerBuf| == HeaderLen && t.dataLen in {0, 5, 6} && !t.hasCollect
    requires t.headerBuf == Header && AsI8(Countup(t).readCount) == AsI8(t.dataLen) ==> t.Formattable()
    ensures var r := Check(t, now);
      Inv(r.state) && !r.state.isReading && r.state.headerBuf == t.headerBuf &&
      (r.emitted.Some? <==> t.headerBuf == Header && (t.readCount + 1) % 256 == t.dataLen)
    ensures var r := Check(t, now);
      r.emitted.Some? ==>
        t.Formattable() &&
        r.emitted.value == SwitchData(
          t.actionBuf.switchType,
          Decoded(t.actionBuf.switchType, t.actionRawBuf, now).switchId,
          Decoded(t.actionBuf.switchType, t.actionRawBuf, now).switchState,
          t.actionRawBuf, now)
  {
    AsI8Byte(Countup(t).readCount, t.dataLen);
  }

  /** A step while idle keeps the invariant and hands nothing on. */
  lemma IdleStep(s: ParserState, b: byte, now: int)
    requires Inv(s) && !s.isReading
    ensures Inv(Step(s, b, now).state) && Step(s, b, now).emitted.None?
  {
    CollectFacts(s, b);
    CollectLeavesReady(s, b);
    var t := s.Collect(b);
    if b == LetterA {
      assert t == Started(s);
      CheckOpen(t, now);
    } else {
      IdleOther(s, b, now);
    }
  }

  /** A byte other than `A` while idle: the closing stage sees the idle state itself. */
  lemma IdleOther(s: ParserState, b: byte, now: int)
    requires Inv(s) && !s.isReading && b != LetterA
    ensures Inv(Step(s, b, now).state) && Step(s, b, now).emitted.None?
  {
    CollectFacts(s, b);
    CollectLeavesReady(s, b);
    var t := s.Collect(b);
    if |t.headerBuf| == HeaderLen {
      CheckCloses(t, now);
    } else {
      CheckOpen(t, now);
    }
  }

  /** A step during a frame keeps the invariant. */
  lemma ReadingKeepsInv(s: ParserState, b: byte, now: int)
    requires Inv(s) && s.isReading
    ensures Inv(Step(s, b, now).state)
  {
    CollectFacts(s, b);
    CollectLeavesReady(s, b);
    PayloadFacts(s, b);
    var t := s.Collect(b);
    if |t.headerBuf| == HeaderLen {
      CheckCloses(t, now);
    } else {
      CheckOpen(t, now);
    }
  }

  /** Decoding keeps the invariant. */
  lemma StepKeepsInv(s: ParserState, b: byte, now: int)
    requires Inv(s)
    ensures Inv(Step(s, b, now).state)
  {
    if s.isReading {
      ReadingKeepsInv(s, b, now);
    } else {
      IdleStep(s, b, now);
    }
  }

  /** A step during a frame: when it hands on an event, and which. */
  lemma ReadingEmits(s: ParserState, b: byte, now: int)
    requires Inv(s) && s.isReading
    ensures var r := Step(s, b, now);
      r.emitted.Some? <==> b == LetterC && s.headerBuf == "ADE" && (s.readCount + 1) % 256 == s.dataLen
    ensures var r := Step(s, b, now);
      r.emitted.Some? ==>
        s.PayloadKnown() && s.Formattable() &&
        r.emitted.value == SwitchData(
          s.actionBuf.switchType,
          Decoded(s.actionBuf.switchType, s.actionRawBuf, now).switchId,
          Decoded(s.actionBuf.switchType, s.actionRawBuf, now).switchState,
          s.actionRawBuf, now) &&
        r.emitted.value.switchType != Unknown && r.state.headerBuf == Header && !r.state.isReading
  {
    CollectFacts(s, b);
    CollectLeavesReady(s, b);
    PayloadFacts(s, b);
    var t := s.Collect(b);
    if b == LetterC && s.headerBuf == "ADE" {
      assert t.headerBuf == Header;
    }
    if |t.headerBuf| == HeaderLen {
      CheckCloses(t, now);
      assert b in {LetterD, LetterE, LetterC};
      assert t.headerBuf == s.headerBuf + [b as char];
      if t.headerBuf == Header {
        assert s.headerBuf == Header[..3] && b == LetterC;
      }
    } else {
      CheckOpen(t, now);
    }
  }

  /** When one byte completes a frame: exactly when it is the `C` that follows `ADE`
      and the counter, moved on, equals the announced length. The event carries the
      decoded payload and the raw payload bytes. */
  lemma StepEmits(s: ParserState, b: byte, now: int)
    requires Inv(s)
    ensures var r := Step(s, b, now);
      r.emitted.Some? <==>
        s.isReading && b == LetterC && s.headerBuf == "ADE" && (s.readCount + 1) % 256 == s.dataLen
    ensures var r := Step(s, b, now);
      r.emitted.Some? ==>
        s.PayloadKnown() && s.Formattable() &&
        r.emitted.value == SwitchData(
          s.actionBuf.switchType,
          Decoded(s.actionBuf.switchType, s.actionRawBuf, now).switchId,
          Decoded(s.actionBuf.switchType, s.actionRawBuf, now).switchState,
          s.actionRawBuf, now) &&
        r.emitted.value.switchType != Unknown && r.state.headerBuf == Header && !r.state.isReading
  {
    if s.isReading {
      ReadingEmits(s, b, now);
    } else {
      IdleStep(s, b, now);
    }
  }

  /** Idle, the counter moves on with every byte other than `A`, until the header
      buffer is full; from then on each such byte leaves it at zero. */
  lemma IdleCounts(s: ParserState, b: byte, now: int)
    requires Inv(s) && !s.isReading && b != LetterA
    ensures var r := Step(s, b, now);
      r.emitted.None? && !r.state.isReading && r.state.headerBuf == s.headerBuf &&
      r.state.readCount == (if s.headerBuf == "" then (s.readCount + 1) % 256 else 0)
  {
    StepEmits(s, b, now);
    CollectFacts(s, b);
  }

  /** An `A` while idle starts a frame from clean buffers. */
  lemma StartResets(s: ParserState, now: int)
    requires Inv(s) && !s.isReading
    ensures Step(s, LetterA, now) == Outcome(Started(s).(readCount := 1), None)
  {
    CollectFacts(s, LetterA);
  }

  /** An `A` during a frame does not restart it. */
  lemma ReadingIgnoresStart(s: ParserState, now: int)
    requires Inv(s) && s.isReading
    ensures Step(s, LetterA, now).state.headerBuf == s.headerBuf
    ensures Step(s, LetterA, now).state.isReading
  {
    CollectFacts(s, LetterA);
  }

  /** During a frame a byte that is not a header letter never ends it: the counter
      moves on, wrapping after 255, and the frame goes on however long it gets. */
  lemma NonLetterContinues(s: ParserState, b: byte, now: int)
    requires Inv(s) && s.isReading && b !in {LetterD, LetterE, LetterC}
    ensures var r := Step(s, b, now);
      r.emitted.None? && r.state.isReading && r.state.headerBuf == s.headerBuf &&
      r.state.readCount == (s.readCount + 1) % 256
  {
    CollectFacts(s, b);
    PayloadFacts(s, b);
  }

  datatype Run = Run(state: ParserState, emitted: seq<SwitchData>)

  function Emitted(r: Outcome): (es: seq<SwitchData>)
    ensures |es| <= 1
    ensures es == [] <==> r.emitted.None?
  {
    if r.emitted.Some? then [r.emitted.value] else []
  }

  /** `put_challenge` on each byte of `bs` in turn, with the clock reading `now`. */
  function Feed(s: ParserState, bs: seq<byte>, now: int): (r: Run)
    requires Inv(s)
    ensures Inv(r.state)
    decreases |bs|
  {
    if bs == [] then Run(s, [])
    else
      var r1 := Step(s, bs[0], now);
      StepKeepsInv(s, bs[0], now);
      var rest := Feed(r1.state, bs[1..], now);
      Run(rest.state, Emitted(r1) + rest.emitted)
  }

  /** Where feeding two pieces ends is where feeding the second ends, started from
      where the first ended. */
  lemma {:induction false} FeedAppendState(s: ParserState, a: seq<byte>, b: seq<byte>, now: int)
    requires Inv(s)
    ensures Feed(s, a + b, now).state == Feed(Feed(s, a, now).state, b, now).state
    decreases |a|
  {
    if a == [] {
      assert a + b == b;
    } else {
      assert (a + b)[0] == a[0];
      assert (a + b)[1..] == a[1..] + b;
      StepKeepsInv(s, a[0], now);
      FeedAppendState(Step(s, a[0], now).state, a[1..], b, now);
    }
  }

  /** The first step of feeding two pieces is the first step of the first piece. */
  lemma FeedAppendFirst(s: ParserState, a: seq<byte>, b: seq<byte>, now: int)
    requires Inv(s) && a != []
    ensures Inv(Step(s, a[0], now).state)
    ensures Feed(s, a + b, now).emitted ==
      Emitted(Step(s, a[0], now)) + Feed(Step(s, a[0], now).state, a[1..] + b, now).emitted
  {
    assert (a + b)[0] == a[0];
    assert (a + b)[1..] == a[1..] + b;
    StepKeepsInv(s, a[0], now);
  }

  /** Feeding two pieces is feeding the first, then the second from where it ended. */
  lemma {:induction false} FeedAppend(s: ParserState, a: seq<byte>, b: seq<byte>, now: int)
    requires Inv(s)
    ensures Feed(s, a + b, now).state == Feed(Feed(s, a, now).state, b, now).state
    ensures Feed(s, a + b, now).emitted == Feed(s, a, now).emitted + Feed(Feed(s, a, now).state, b, now).emitted
    decreases |a|
  {
    FeedAppendState(s, a, b, now);
    if a == [] {
      assert a + b == b;
    } else {
      var r1 := Step(s, a[0], now);
      StepKeepsInv(s, a[0], now);
      var mid := Feed(r1.state, a[1..], now);
      var last := Feed(mid.state, b, now).emitted;
      calc {
        Feed(s, a + b, now).emitted;
        == { FeedAppendFirst(s, a, b, now); }
        Emitted(r1) + Feed(r1.state, a[1..] + b, now).emitted;
        == { FeedAppend(r1.state, a[1..], b, now); }
        Emitted(r1) + (mid.emitted + last);
        == { ConcatAssoc(Emitted(r1), mid.emitted, last); }
        (Emitted(r1) + mid.emitted) + last;
      }
    }
  }

  /** Feeding a non-empty run is one step and then the rest. */
  lemma FeedFirst(s: ParserState, bs: seq<byte>, now: int)
    requires Inv(s) && bs != []
    ensures Inv(Step(s, bs[0], now).state)
    ensures var r1 := Step(s, bs[0], now);
      var rest := Feed(r1.state, bs[1..], now);
      Feed(s, bs, now) == Run(rest.state, Emitted(r1) + rest.emitted)
  {
    StepKeepsInv(s, bs[0], now);
  }

  lemma FeedOne(s: ParserState, b: byte, now: int)
    requires Inv(s)
    ensures Feed(s, [b], now) == Run(Step(s, b, now).state, Emitted(Step(s, b, now)))
  {
    assert [b][1..] == [];
  }

  /** The state after the opening `A`, `D` of a frame. */
  predicate Opened(s: ParserState)
  {
    Inv(s) && s.isReading && s.readCount == 2 && s.headerBuf == "AD" &&
    s.actionBuf == NewSwitchInfo && s.actionRawBuf == []
  }

  /** The first two bytes of any frame, from an idle decoder. */
  lemma FrameOpening(s: ParserState, now: int)
    requires Inv(s) && !s.isReading
    ensures Opened(Feed(s, [LetterA, LetterD], now).state)
    ensures Feed(s, [LetterA, LetterD], now).emitted == []
  {
    StartResets(s, now);
    var s1 := Started(s).(readCount := 1);
    FeedOne(s, LetterA, now);
    CollectFacts(s1, LetterD);
    StepEmits(s1, LetterD, now);
    FeedOne(s1, LetterD, now);
    FeedAppend(s, [LetterA], [LetterD], now);
    assert [LetterA] + [LetterD] == [LetterA, LetterD];
  }

  /** Feeding two bytes is two steps. */
  lemma FeedTwo(s: ParserState, y: byte, z: byte, now: int)
    requires Inv(s)
    ensures Inv(Step(s, y, now).state)
    ensures var r1 := Step(s, y, now);
      var r2 := Step(r1.state, z, now);
      Feed(s, [y, z], now) == Run(r2.state, Emitted(r1) + Emitted(r2))
  {
    StepKeepsInv(s, y, now);
    assert [y, z][1..] == [z];
    FeedOne(Step(s, y, now).state, z, now);
  }

  /** A digital frame after its payload byte: header `AD`, counter at 3, one raw byte. */
  predicate DigitalBody(s: ParserState, b0: byte)
  {
    Inv(s) && s.isReading && s.readCount == 3 && s.headerBuf == "AD" &&
    s.actionBuf.switchType == Digital && s.actionRawBuf == [b0] && s.dataLen == 5
  }

  /** An analog frame after both payload bytes: header `AD`, counter at 4. */
  predicate AnalogBody(s: ParserState, b0: byte, b1: byte)
  {
    Inv(s) && s.isReading && s.readCount == 4 && s.headerBuf == "AD" &&
    s.actionBuf.switchType == Analog && s.actionRawBuf == [b0, b1] && s.dataLen == 6
  }

  /** The payload byte of a digital frame fixes its kind and length. */
  lemma DigitalPayload(s2: ParserState, b0: byte, now: int)
    requires Opened(s2)
    requires b0 < 0x80 && b0 !in {LetterD, LetterE, LetterC}
    ensures Step(s2, b0, now).emitted.None? && DigitalBody(Step(s2, b0, now).state, b0)
  {
    PayloadFacts(s2, b0);
    NonLetterContinues(s2, b0, now);
    StepKeepsInv(s2, b0, now);
    CollectFacts(s2, b0);
  }

  /** The two payload bytes of an analog frame. */
  lemma AnalogPayload(s2: ParserState, b0: byte, b1: byte, now: int)
    requires Opened(s2)
    requires b0 >= 0x80 && b1 !in {LetterD, LetterE, LetterC}
    ensures Step(s2, b0, now).emitted.None? && Inv(Step(s2, b0, now).state)
    ensures var s3 := Step(s2, b0, now).state;
      Step(s3, b1, now).emitted.None? && AnalogBody(Step(s3, b1, now).state, b0, b1)
  {
    PayloadFacts(s2, b0);
    NonLetterContinues(s2, b0, now);
    StepKeepsInv(s2, b0, now);
    CollectFacts(s2, b0);
    var s3 := Step(s2, b0, now).state;
    assert s3.actionBuf.switchType == Analog && s3.actionRawBuf == [b0] && s3.readCount == 3;
    PayloadFacts(s3, b1);
    NonLetterContinues(s3, b1, now);
    StepKeepsInv(s3, b1, now);
    CollectFacts(s3, b1);
  }

  /** The closing `E`, `C` of a digital frame hand on its event. */
  lemma DigitalTrailer(s3: ParserState, b0: byte, now: int)
    requires DigitalBody(s3, b0)
    ensures var r := Feed(s3, [LetterE, LetterC], now);
      r.emitted == [SwitchData(Digital, DigitalId(b0), DigitalState(b0), [b0], now)] &&
      !r.state.isReading && r.state.headerBuf == Header
  {
    CollectFacts(s3, LetterE);
    PayloadFacts(s3, LetterE);
    StepEmits(s3, LetterE, now);
    FeedTwo(s3, LetterE, LetterC, now);
    var s4 := Step(s3, LetterE, now).state;
    assert s4.headerBuf == "ADE" && s4.readCount == 4 && s4.actionRawBuf == [b0] &&
      s4.actionBuf.switchType == Digital && s4.dataLen == 5;
    StepEmits(s4, LetterC, now);
  }

  /** The closing `E`, `C` of an analog frame hand on its event. */
  lemma AnalogTrailer(s4: ParserState, b0: byte, b1: byte, now: int)
    requires AnalogBody(s4, b0, b1)
    ensures var r := Feed(s4, [LetterE, LetterC], now);
      r.emitted == [SwitchData(Analog, AnalogId(b0), AnalogState(b0, b1), [b0, b1], now)] &&
      !r.state.isReading && r.state.headerBuf == Header
  {
    CollectFacts(s4, LetterE);
    PayloadFacts(s4, LetterE);
    StepEmits(s4, LetterE, now);
    FeedTwo(s4, LetterE, LetterC, now);
    var s5 := Step(s4, LetterE, now).state;
    assert s5.headerBuf == "ADE" && s5.readCount == 5 && s5.actionRawBuf == [b0, b1] &&
      s5.actionBuf.switchType == Analog && s5.dataLen == 6;
    StepEmits(s5, LetterC, now);
  }

  /** A digital frame sent to an idle decoder is decoded: one event, with the id and
      state of its payload byte and the byte itself, handed on when the closing `C`
      arrives. The payload byte must not be one of the letters `D`, `E`, `C`. */
  lemma DigitalFrameDecoded(s: ParserState, b0: byte, now: int)
    requires Inv(s) && !s.isReading
    requires b0 < 0x80 && b0 !in {LetterD, LetterE, LetterC}
    ensures var r := Feed(s, DigitalFrame(b0), now);
      r.emitted == [SwitchData(Digital, DigitalId(b0), DigitalState(b0), [b0], now)] &&
      !r.state.isReading && r.state.headerBuf == Header
  {
    assert DigitalFrame(b0) == [LetterA, LetterD] + ([b0] + [LetterE, LetterC]);
    FrameOpening(s, now);
    var s2 := Feed(s, [LetterA, LetterD], now).state;
    DigitalPayload(s2, b0, now);
    FeedOne(s2, b0, now);
    DigitalTrailer(Step(s2, b0, now).state, b0, now);
    FeedAppend(s2, [b0], [LetterE, LetterC], now);
    FeedAppend(s, [LetterA, LetterD], [b0] + [LetterE, LetterC], now);
  }

  /** An analog frame sent to an idle decoder is decoded from its two payload bytes;
      the second must not be one of the letters `D`, `E`, `C`. */
  lemma AnalogFrameDecoded(s: ParserState, b0: byte, b1: byte, now: int)
    requires Inv(s) && !s.isReading
    requires b0 >= 0x80 && b1 !in {LetterD, LetterE, LetterC}
    ensures var r := Feed(s, AnalogFrame(b0, b1), now);
      r.emitted == [SwitchData(Analog, AnalogId(b0), AnalogState(b0, b1), [b0, b1], now)] &&
      !r.state.isReading && r.state.headerBuf == Header
  {
    assert AnalogFrame(b0, b1) == [LetterA, LetterD] + ([b0, b1] + [LetterE, LetterC]);
    FrameOpening(s, now);
    var s2 := Feed(s, [LetterA, LetterD], now).state;
    AnalogPayload(s2, b0, b1, now);
    FeedTwo(s2, b0, b1, now);
    var s4 := Step(Step(s2, b0, now).state, b1, now).state;
    AnalogTrailer(s4, b0, b1, now);
    FeedAppend(s2, [b0, b1], [LetterE, LetterC], now);
    FeedAppend(s, [LetterA, LetterD], [b0, b1] + [LetterE, LetterC], now);
  }

  /** Inside a digital frame a byte that is not a header letter only moves the
      counter on. */
  lemma FillerStep(s: ParserState, b: byte, now: int)
    requires Inv(s) && s.isReading && s.actionBuf.switchType == Digital && s.PayloadKnown()
    requires b !in {LetterD, LetterE, LetterC}
    ensures Step(s, b, now) == Outcome(CountOn(s, 1), None)
  {
    CollectFacts(s, b);
    NonLetterContinues(s, b, now);
  }

  /** A run that starts with such a byte: the first byte only moves the counter on. */
  lemma FillerFirst(s: ParserState, bs: seq<byte>, now: int)
    requires Inv(s) && s.isReading && s.actionBuf.switchType == Digital && s.PayloadKnown()
    requires bs != [] && bs[0] !in {LetterD, LetterE, LetterC}
    ensures var s' := CountOn(s, 1);
      Inv(s') && s'.isReading && s'.actionBuf.switchType == Digital && s'.PayloadKnown() &&
      Feed(s, bs, now) == Feed(s', bs[1..], now)
  {
    FillerStep(s, bs[0], now);
    FeedFirst(s, bs, now);
    assert Emitted(Step(s, bs[0], now)) == [];
  }

  /** Counting one and then `n - 1` more, modulo 256, is counting `n`. */
  lemma WrapAdd(a: nat, n: nat)
    requires n >= 1
    ensures ((a + 1) % 256 + (n - 1)) % 256 == (a + n) % 256
  {
    var q := (a + 1) / 256;
    assert (a + 1) % 256 == a + 1 - 256 * q;
    assert (a + n) == ((a + 1) % 256 + (n - 1)) + 256 * q;
  }

  /** Counting a multiple of 256 more, modulo 256, lands where it started. */
  lemma WrapWhole(a: nat, n: nat)
    requires a < 256 && n % 256 == 0
    ensures (a + n) % 256 == a
  {
    assert a + n == a + 256 * (n / 256);
  }

  /** Moving the counter on by one and then by `m` is moving it on by `m + 1`. */
  lemma CountOnThenRest(s: ParserState, m: nat)
    ensures CountOn(CountOn(s, 1), m) == CountOn(s, m + 1)
  {
    WrapAdd(s.readCount, m + 1);
  }

  /** Any run of such bytes does the same, the counter wrapping after 255. */
  lemma {:induction false} FillerKeepsFrame(s: ParserState, bs: seq<byte>, now: int)
    requires Inv(s) && s.isReading && s.actionBuf.switchType == Digital && s.PayloadKnown()
    requires forall i :: 0 <= i < |bs| ==> bs[i] !in {LetterD, LetterE, LetterC}
    ensures Feed(s, bs, now) == Run(CountOn(s, |bs|), [])
    decreases |bs|
  {
    if bs == [] {
      assert CountOn(s, |bs|) == s;
    } else {
      var s' := CountOn(s, 1);
      FillerFirst(s, bs, now);
      FillerKeepsFrame(s', bs[1..], now);
      var m := |bs[1..]|;
      assert m + 1 == |bs|;
      CountOnThenRest(s, m);
    }
  }

  /** From the payload byte on: the filler leaves the frame as it was. */
  lemma StretchedBody(s3: ParserState, b0: byte, filler: seq<byte>, now: int)
    requires DigitalBody(s3, b0)
    requires |filler| % 256 == 0
    requires forall i :: 0 <= i < |filler| ==> filler[i] !in {LetterD, LetterE, LetterC}
    ensures Feed(s3, filler + [LetterE, LetterC], now).emitted ==
      [SwitchData(Digital, DigitalId(b0), DigitalState(b0), [b0], now)]
  {
    FillerKeepsFrame(s3, filler, now);
    WrapWhole(s3.readCount, |filler|);
    assert Feed(s3, filler, now) == Run(s3, []);
    DigitalTrailer(s3, b0, now);
    FeedAppend(s3, filler, [LetterE, LetterC], now);
  }

  /** A digital frame stretched by any multiple of 256 bytes that are not header
      letters, between its payload and its trailer, is still accepted as if nothing
      had come in between: the wrapped counter lands on the expected length again. */
  lemma StretchedFrameAccepted(s: ParserState, b0: byte, filler: seq<byte>, now: int)
    requires Inv(s) && !s.isReading
    requires b0 < 0x80 && b0 !in {LetterD, LetterE, LetterC}
    requires |filler| % 256 == 0
    requires forall i :: 0 <= i < |filler| ==> filler[i] !in {LetterD, LetterE, LetterC}
    ensures Feed(s, [LetterA, LetterD, b0] + filler + [LetterE, LetterC], now).emitted ==
      [SwitchData(Digital, DigitalId(b0), DigitalState(b0), [b0], now)]
  {
    assert [LetterA, LetterD, b0] + filler + [LetterE, LetterC] ==
      [LetterA, LetterD] + ([b0] + (filler + [LetterE, LetterC]));
    FrameOpening(s, now);
    var s2 := Feed(s, [LetterA, LetterD], now).state;
    DigitalPayload(s2, b0, now);
    FeedOne(s2, b0, now);
    StretchedBody(Step(s2, b0, now).state, b0, filler, now);
    FeedAppend(s2, [b0], filler + [LetterE, LetterC], now);
    FeedAppend(s, [LetterA, LetterD], [b0] + (filler + [LetterE, LetterC]), now);
  }

  /** `SwitchData::new()`. */
  const NewSwitchData := SwitchData(Unknown, 0, 0, [], 0)

  /** The handler call a step makes: the registered handler, if one was registered,
      with the completed frame, if the step completed one. (`new` installs a closure
      that does nothing; it is `None` here, since a call to it cannot be observed.) */
  function Delivered(handler: Option<HandlerId>, e: Option<SwitchData>): (cs: seq<Call<SwitchData>>)
    ensures |cs| <= 1
    ensures |cs| == 1 <==> handler.Some? && e.Some?
    ensures |cs| == 1 ==> cs[0] == Call(handler.value, e.value)
  {
    if handler.Some? && e.Some? then [Call(handler.value, e.value)] else []
  }

  /** The class `ArdeckData`. */
  class ArdeckData {
    var headerBuf: string
    var isReading: bool
    var readCount: u8
    var headerLen: nat
    var dataLen: nat
    var bodyLen: BodyLen
    var hasCollect: bool
    var onCorrectHandler: Option<HandlerId>
    var completeCount: nat
    var switchDataBuf: SwitchData
    const trace: Trace<SwitchData>

    /** The decoding fields as a value; `switch_data_buf` is split into the event
        fields and the raw payload. */
    function State(): (s: ParserState)
      reads this
      ensures DataOf(s) == switchDataBuf
    {
      ParserState(headerBuf, isReading, readCount, dataLen, bodyLen, hasCollect,
        SwitchInfo(switchDataBuf.switchType, switchDataBuf.id, switchDataBuf.state, switchDataBuf.timestamp),
        switchDataBuf.rawData)
    }

    ghost predicate Valid()
      reads this
    {
      Inv(State())
    }

    /** `ArdeckData::new()`: idle, empty buffers, the do-nothing handler. */
    constructor (trace: Trace<SwitchData>)
      ensures Valid() && State() == InitialParser && switchDataBuf == NewSwitchData
      ensures onCorrectHandler == None && completeCount == 0 && headerLen == HeaderLen
      ensures this.trace == trace
    {
      headerBuf := "";
      isReading := false;
      readCount := 0;
      headerLen := HeaderLen;
      dataLen := 0;
      bodyLen := UnknownBody;
      hasCollect := false;
      onCorrectHandler := None;
      completeCount := 0;
      switchDataBuf := NewSwitchData;
      this.trace := trace;
    }

    method DataOfDigitalSwitch()
      modifies this
      ensures State() == old(State()).DataOfDigitalSwitch()
      ensures onCorrectHandler == old(onCorrectHandler) && completeCount == old(completeCount)
    {
      bodyLen := DigitalBody;
      dataLen := HeaderLen + BodyBytes(DigitalBody);
    }

    method DataOfAnalogSwitch()
      modifies this
      ensures State() == old(State()).DataOfAnalogSwitch()
      ensures onCorrectHandler == old(onCorrectHandler) && completeCount == old(completeCount)
    {
      bodyLen := AnalogBody;
      dataLen := HeaderLen + BodyBytes(AnalogBody);
    }

    /** `countup_read`: `read_count += 1` on a `u8`, wrapping after 255. */
    method CountupRead()
      modifies this
      ensures State() == Countup(old(State()))
      ensures onCorrectHandler == old(onCorrectHandler) && completeCount == old(completeCount)
    {
      readCount := (readCount + 1) % 256;
    }

    /** `countup_complete`; the `u128` counter is taken as unbounded. */
    method CountupComplete()
      modifies this
      ensures completeCount == old(completeCount) + 1
      ensures State() == old(State()) && onCorrectHandler == old(onCorrectHandler)
    {
      completeCount := completeCount + 1;
    }

    method ClearFlagCount()
      modifies this
      ensures State() == old(State()).ClearFlagCount()
      ensures onCorrectHandler == old(onCorrectHandler) && completeCount == old(completeCount)
    {
      isReading := false;
      readCount := 0;
      hasCollect := false;
    }

    method ClearBuf()
      modifies this
      ensures State() == old(State()).ClearBuf() && switchDataBuf == NewSwitchData
      ensures onCorrectHandler == old(onCorrectHandler) && completeCount == old(completeCount)
    {
      headerBuf := "";
      switchDataBuf := NewSwitchData;
    }

    /** `format_switch_data`, with the clock reading passed in. */
    method FormatSwitchData(now: int)
      requires State().Formattable()
      modifies this
      ensures State() == old(State()).FormatSwitchData(now)
      ensures onCorrectHandler == old(onCorrectHandler) && completeCount == old(completeCount)
    {
      var raw := switchDataBuf.rawData;
      var id: u8;
      var state: u16;
      match switchDataBuf.switchType {
        case Digital =>
          id := DigitalId(raw[0]);
          state := DigitalState(raw[0]);
        case Analog =>
          id := AnalogId(raw[0]);
          state := AnalogState(raw[0], raw[1]);
        case Unknown =>
          id := 0;
          state := 0;
      }
      switchDataBuf := switchDataBuf.(id := id);
      switchDataBuf := switchDataBuf.(state := state);
      switchDataBuf := switchDataBuf.(timestamp := now);
    }

    /** `put_challenge`: one byte from the device, with the clock reading `now`. It
        returns whether the byte completed a frame, which is then counted and handed
        to the handler. */
    method PutChallenge(data: byte, now: int) returns (ok: bool)
      requires Valid()
      modifies this, trace
      ensures Valid()
      ensures State() == Step(old(State()), data, now).state
      ensures ok <==> Step(old(State()), data, now).emitted.Some?
      ensures onCorrectHandler == old(onCorrectHandler)
      ensures completeCount == old(completeCount) + (if ok then 1 else 0)
      ensures trace.calls == old(trace.calls) + Delivered(onCorrectHandler, Step(old(State()), data, now).emitted)
    {
      ghost var s0 := State();
      StepKeepsInv(s0, data, now);
      CollectStages(data);
      CollectLeavesReady(s0, data);
      if |headerBuf| == HeaderLen {
        CountupRead();
        if headerBuf == Header && AsI8(readCount) == AsI8(dataLen) {
          ClearFlagCount();
          FormatSwitchData(now);
          OnCorrectEmit(switchDataBuf);
          return true;
        } else {
          ClearFlagCount();
          return false;
        }
      } else {
        CountupRead();
        return false;
      }
    }

    /** The first part of `put_challenge`: the stages that collect header letters and
        payload bytes. */
    method CollectStages(data: byte)
      modifies this
      ensures State() == old(State()).Collect(data)
      ensures onCorrectHandler == old(onCorrectHandler) && completeCount == old(completeCount)
    {
      ghost var s0 := State();
      var msg := Msg(data);
      if msg == "A" && !isReading {
        ClearFlagCount();
        ClearBuf();
        isReading := true;
        headerBuf := headerBuf + ['A'];
      }
      if msg == "D" && isReading {
        headerBuf := headerBuf + ['D'];
      }
      assert State() == s0.Start(msg).PushLetter(msg, 'D');
      CollectPayload(data);
      if msg == "E" && isReading {
        headerBuf := headerBuf + ['E'];
      }
      if msg == "C" && isReading {
        headerBuf := headerBuf + ['C'];
      }
    }

    /** The payload stage of `put_challenge`, with the same operator grouping as the
        later decoder. */
    method CollectPayload(data: byte)
      modifies this
      ensures State() == old(State()).CollectPayload(data)
      ensures onCorrectHandler == old(onCorrectHandler) && completeCount == old(completeCount)
    {
      if (isReading && readCount == 2) || readCount == 3 {
        match switchDataBuf.switchType {
          case Unknown =>
            var check := TypeOfFirstByte(data);
            switchDataBuf := switchDataBuf.(switchType := check);
            match check {
              case Digital =>
                DataOfDigitalSwitch();
                switchDataBuf := switchDataBuf.(rawData := switchDataBuf.rawData + [data]);
              case Analog =>
                DataOfAnalogSwitch();
                switchDataBuf := switchDataBuf.(rawData := switchDataBuf.rawData + [data]);
              case Unknown =>
            }
          case Analog =>
            switchDataBuf := switchDataBuf.(rawData := switchDataBuf.rawData + [data]);
          case Digital =>
        }
      }
    }

    /** `on_data`: only the first byte of the chunk is decoded (an empty chunk would
        panic on the index). */
    method OnData(data: seq<byte>, now: int)
      requires Valid() && |data| >= 1
      modifies this, trace
      ensures Valid()
      ensures State() == Step(old(State()), data[0], now).state
      ensures onCorrectHandler == old(onCorrectHandler)
      ensures completeCount == old(completeCount) + (if Step(old(State()), data[0], now).emitted.Some? then 1 else 0)
      ensures trace.calls == old(trace.calls) + Delivered(onCorrectHandler, Step(old(State()), data[0], now).emitted)
    {
      var _ := PutChallenge(data[0], now);
    }

    /** `on_complete`: the new handler replaces the previous one. */
    method OnComplete(handler: HandlerId)
      modifies this
      ensures onCorrectHandler == Some(handler)
      ensures State() == old(State()) && completeCount == old(completeCount)
    {
      onCorrectHandler := Some(handler);
    }

    /** `on_correct_emit`: count the frame and hand it to the handler. */
    method OnCorrectEmit(data: SwitchData)
      modifies this, trace
      ensures completeCount == old(completeCount) + 1
      ensures State() == old(State()) && onCorrectHandler == old(onCorrectHandler)
      ensures trace.calls == old(trace.calls) + Delivered(onCorrectHandler, Some(data))
    {
      CountupComplete();
      if onCorrectHandler.Some? {
        trace.calls := trace.calls + [Call(onCorrectHandler.value, data)];
      }
    }
  }
}
