/** The first frame decoder, `ArdeckData` of `ardeck_serial/ardeck_data.rs`. It takes
    each chunk read from the port as a whole, accepts it only if it is valid UTF-8, and
    follows one of two header layouts chosen by its `protocol_version` string. A frame
    that completes is reported by `put_challenge` returning `true`; `on_data` then calls
    the single registered handler with the first byte of the stored chunk. */
module LegacySerialData {
  import opened Common
  import SwitchParser

  /** Whether `b` can follow the lead byte of a multi-byte UTF-8 sequence. */
  predicate Continuation(b: byte)
  {
    0x80 <= b <= 0xBF
  }

  /** The length of the well-formed UTF-8 sequence of one character at the head of
      `bs` (RFC 3629, section 4, which rules out overlong forms, surrogates and code
      points past U+10FFFF), or 0 when `bs` does not start with one. */
  function CharWidth(bs: seq<byte>): (n: nat)
    ensures n <= |bs| && n <= 4
    ensures n == 1 <==> |bs| >= 1 && bs[0] < 0x80
  {
    if |bs| == 0 then 0
    else
      var b0 := bs[0];
      if b0 < 0x80 then 1
      else if 0xC2 <= b0 <= 0xDF then
        if |bs| >= 2 && Continuation(bs[1]) then 2 else 0
      else if 0xE0 <= b0 <= 0xEF then
        var lo := if b0 == 0xE0 then 0xA0 else 0x80;
        var hi := if b0 == 0xED then 0x9F else 0xBF;
        if |bs| >= 3 && lo <= bs[1] <= hi && Continuation(bs[2]) then 3 else 0
      else if 0xF0 <= b0 <= 0xF4 then
        var lo := if b0 == 0xF0 then 0x90 else 0x80;
        var hi := if b0 == 0xF4 then 0x8F else 0xBF;
        if |bs| >= 4 && lo <= bs[1] <= hi && Continuation(bs[2]) && Continuation(bs[3]) then 4 else 0
      else 0
  }

  /** `String::from_utf8(bs).is_ok()`: `bs` is a sequence of well-formed characters. */
  predicate Utf8Valid(bs: seq<byte>)
    decreases |bs|
  {
    bs == [] || (CharWidth(bs) > 0 && Utf8Valid(bs[CharWidth(bs)..]))
  }

  /** A single byte is valid UTF-8 exactly when it is ASCII. */
  lemma SingleByteUtf8(b: byte)
    ensures Utf8Valid([b]) <==> b < 0x80
  {
    assert [b][1..] == [];
  }

  /** Every ASCII text is valid UTF-8. */
  lemma {:induction false} AsciiIsUtf8(bs: seq<byte>)
    requires forall i :: 0 <= i < |bs| ==> bs[i] < 0x80
    ensures Utf8Valid(bs)
    decreases |bs|
  {
    if bs != [] {
      AsciiIsUtf8(bs[1..]);
    }
  }

  /** A complete character at the head of `a` is read the same when more bytes follow. */
  lemma CharWidthExtends(a: seq<byte>, b: seq<byte>)
    requires CharWidth(a) > 0
    ensures CharWidth(a + b) == CharWidth(a)
  {
    assert (a + b)[0] == a[0];
    if CharWidth(a) >= 2 {
      assert (a + b)[1] == a[1];
    }
    if CharWidth(a) >= 3 {
      assert (a + b)[2] == a[2];
    }
    if CharWidth(a) == 4 {
      assert (a + b)[3] == a[3];
    }
  }

  /** A text is valid when its first character is complete and the rest is valid. */
  lemma Utf8Cons(bs: seq<byte>, n: nat, rest: seq<byte>)
    requires n == CharWidth(bs) && n > 0
    requires bs[n..] == rest && Utf8Valid(rest)
    ensures Utf8Valid(bs)
  {
  }

  /** Two valid texts joined are valid. */
  lemma {:induction false} Utf8Concat(a: seq<byte>, b: seq<byte>)
    requires Utf8Valid(a) && Utf8Valid(b)
    ensures Utf8Valid(a + b)
    decreases |a|
  {
    if a == [] {
      assert a + b == b;
    } else {
      var n := CharWidth(a);
      CharWidthExtends(a, b);
      Utf8Concat(a[n..], b);
      assert (a + b)[n..] == a[n..] + b;
      Utf8Cons(a + b, n, a[n..] + b);
    }
  }

  /** The two header layouts. In `2014-06-03` the letters `A`, `D`, `E`, `C` come at
      counts 0 to 3 and the data after them; in `2024-06-17` a size byte comes at count
      2, so `E` and `C` move to counts 3 and 4. */
  const Version2014: string := "2014-06-03"
  const Version2024: string := "2024-06-17"

  /** The fields `put_challenge` reads and writes. (`header` and `bodysize` are set
      by `new` and never read.) */
  datatype SerialState = SerialState(
    headerBuf: string,
    dataBuf: seq<byte>,
    isReading: bool,
    readCount: u8,
    protocolVersion: string)
  {
    /** `param_reset`. */
    function ParamReset(): SerialState
    {
      this.(headerBuf := "", isReading := false, readCount := 0)
    }
  }

  /** What holds between two calls: the counter never passes 4, an idle decoder has a
      zero counter and no header letters, and a frame has counted its `A`. */
  predicate Inv(s: SerialState)
  {
    Bounded(s) && (s.isReading ==> s.readCount >= 1)
  }

  /** The part of the invariant that also holds in the middle of a call, after the
      opening stage. */
  predicate Bounded(s: SerialState)
  {
    s.readCount <= 4 && (!s.isReading ==> s.readCount == 0 && s.headerBuf == "")
  }

  /** `ArdeckData::new()`: the latest layout by default; the data buffer holds one zero. */
  const InitialSerial := SerialState("", [0], false, 0, Version2024)

  lemma InitialInv()
    ensures Inv(InitialSerial)
  {
  }

  /** A valid chunk decodes to the one-letter string `"A"` exactly when it is the single
      byte 0x41, and likewise for the other letters, so comparing the decoded text with a
      letter is comparing the chunk with that byte. */
  function IsLetter(data: seq<byte>, letter: char): bool
    requires letter in "ADEC"
  {
    data == [letter as byte]
  }

  /** The opening stage, common to both layouts: `A` while idle with a zero counter. */
  function Open(s: SerialState, data: seq<byte>): SerialState
  {
    if IsLetter(data, 'A') && !s.isReading && s.readCount == 0 then
      s.ParamReset().(isReading := true, headerBuf := "A")
    else s
  }

  /** A header letter is taken only during a frame and only at its own count. */
  function Take(s: SerialState, data: seq<byte>, letter: char, count: nat): SerialState
    requires letter in "ADEC"
  {
    if IsLetter(data, letter) && s.isReading && s.readCount == count then
      s.(headerBuf := s.headerBuf + [letter])
    else s
  }

  datatype Outcome = Outcome(state: SerialState, ok: bool)

  /** The closing stage, common to both layouts: at count 4 a complete header makes
      the chunk the data and succeeds, anything else resets; below 4 the counter moves
      on during a frame. */
  function Close(s: SerialState, data: seq<byte>): (r: Outcome)
    requires Bounded(s)
    ensures Inv(r.state)
  {
    if s.headerBuf == SwitchParser.Header && |s.headerBuf| == |SwitchParser.Header| &&
       s.isReading && s.readCount == 4 then
      Outcome(s.(dataBuf := data), true)
    else if s.isReading && s.readCount == 4 then
      Outcome(s.ParamReset(), false)
    else if s.isReading then
      Outcome(s.(readCount := s.readCount + 1), false)
    else
      Outcome(s, false)
  }

  /** `put_challenge(data)`. A chunk that is not valid UTF-8 is refused without any
      change; a valid one goes through the stages of the decoder's layout. */
  function Challenge(s: SerialState, data: seq<byte>): (r: Outcome)
    requires Inv(s) && |data| >= 1
    ensures Inv(r.state)
    ensures r.state.protocolVersion == s.protocolVersion
    ensures r.ok ==> r.state.dataBuf == data && r.state.headerBuf == SwitchParser.Header && r.state.readCount == 4
    ensures !r.ok ==> r.state.dataBuf == s.dataBuf
  {
    if !Utf8Valid(data) then Outcome(s, false) else Stages(s, data)
  }

  /** The stages a valid chunk goes through, by protocol version: the opening stage,
      the three letter stages at the layout's counts, and the closing stage. An unknown
      protocol version refuses the chunk without any change. */
  function Stages(s: SerialState, data: seq<byte>): (r: Outcome)
    requires Inv(s)
    ensures Inv(r.state)
    ensures r.state.protocolVersion == s.protocolVersion
    ensures r.ok ==> r.state.dataBuf == data && r.state.headerBuf == SwitchParser.Header && r.state.readCount == 4
    ensures !r.ok ==> r.state.dataBuf == s.dataBuf
  {
    if s.protocolVersion == Version2014 then
      var t := Take(Take(Take(Open(s, data), data, 'D', 1), data, 'E', 2), data, 'C', 3);
      Close(t, data)
    else if s.protocolVersion == Version2024 then
      var t := Take(Take(Take(Open(s, data), data, 'D', 1), data, 'E', 3), data, 'C', 4);
      Close(t, data)
    else Outcome(s, false)
  }

  predicate KnownVersion(s: SerialState)
  {
    s.protocolVersion == Version2014 || s.protocolVersion == Version2024
  }

  /** A chunk that is not valid UTF-8 (for one byte: a byte from 0x80 up) is refused
      and changes nothing. */
  lemma InvalidChunkIgnored(s: SerialState, data: seq<byte>)
    requires Inv(s) && |data| >= 1 && !Utf8Valid(data)
    ensures Challenge(s, data) == Outcome(s, false)
  {
  }

  /** A decoder set to any other protocol version refuses everything. */
  lemma UnknownVersionIgnored(s: SerialState, data: seq<byte>)
    requires Inv(s) && |data| >= 1 && !KnownVersion(s)
    ensures Challenge(s, data) == Outcome(s, false)
  {
  }

  lemma VersionsDiffer()
    ensures Version2014 != Version2024
  {
    assert Version2014[2] != Version2024[2];
  }

  /** `A` starts a frame exactly when the decoder is idle. */
  lemma StartOnlyWhenIdle(s: SerialState)
    requires Inv(s) && KnownVersion(s) && !s.isReading
    ensures Challenge(s, [SwitchParser.LetterA]) ==
      Outcome(s.(isReading := true, headerBuf := "A", readCount := 1), false)
  {
    SingleByteUtf8(SwitchParser.LetterA);
    VersionsDiffer();
    var t := s.(isReading := true, headerBuf := "A");
    assert Open(s, [SwitchParser.LetterA]) == t;
    assert Take(t, [SwitchParser.LetterA], 'D', 1) == t;
    assert Take(t, [SwitchParser.LetterA], 'E', 2) == t;
    assert Take(t, [SwitchParser.LetterA], 'E', 3) == t;
    assert Take(t, [SwitchParser.LetterA], 'C', 3) == t;
    assert Take(t, [SwitchParser.LetterA], 'C', 4) == t;
  }

  /** The letter each layout expects at a count below 4, if any. */
  function Expected(version: string, count: nat): (c: Option<char>)
    ensures c.Some? ==> c.value in "DEC"
  {
    if count == 1 then Some('D')
    else if version == Version2014 && count == 2 then Some('E')
    else if version == Version2014 && count == 3 then Some('C')
    else if version == Version2024 && count == 3 then Some('E')
    else None
  }

  /** What a chunk adds to the header at a count below 4: the expected letter, if the
      chunk is that letter. */
  function Taken(version: string, count: nat, data: seq<byte>): string
  {
    match Expected(version, count)
    case Some(c) => if data == [c as byte] then [c] else ""
    case None => ""
  }

  /** A letter stage at another count leaves the state as it was. */
  lemma TakeElsewhere(s: SerialState, data: seq<byte>, letter: char, count: nat)
    requires letter in "ADEC" && s.readCount as nat != count
    ensures Take(s, data, letter, count) == s
  {
  }

  lemma BelowFour2014(s: SerialState, data: seq<byte>)
    requires Inv(s) && s.protocolVersion == Version2014
    requires s.isReading && s.readCount < 4
    ensures Stages(s, data) ==
      Outcome(s.(headerBuf := s.headerBuf + Taken(Version2014, s.readCount, data), readCount := s.readCount + 1), false)
  {
    VersionsDiffer();
    assert Open(s, data) == s;
    var t := Take(Take(Take(s, data, 'D', 1), data, 'E', 2), data, 'C', 3);
    var u := s.(headerBuf := s.headerBuf + Taken(Version2014, s.readCount, data));
    if s.readCount == 1 {
      assert Take(s, data, 'D', 1) == u;
      TakeElsewhere(u, data, 'E', 2);
      TakeElsewhere(u, data, 'C', 3);
    } else if s.readCount == 2 {
      TakeElsewhere(s, data, 'D', 1);
      assert Take(s, data, 'E', 2) == u;
      TakeElsewhere(u, data, 'C', 3);
    } else {
      TakeElsewhere(s, data, 'D', 1);
      TakeElsewhere(s, data, 'E', 2);
      assert Take(s, data, 'C', 3) == u;
    }
    assert t == u;
  }

  lemma BelowFour2024(s: SerialState, data: seq<byte>)
    requires Inv(s) && s.protocolVersion == Version2024
    requires s.isReading && s.readCount < 4
    ensures Stages(s, data) ==
      Outcome(s.(headerBuf := s.headerBuf + Taken(Version2024, s.readCount, data), readCount := s.readCount + 1), false)
  {
    VersionsDiffer();
    assert Open(s, data) == s;
    var t := Take(Take(Take(s, data, 'D', 1), data, 'E', 3), data, 'C', 4);
    if s.readCount == 1 {
      assert Take(s, data, 'D', 1) == s.(headerBuf := s.headerBuf + Taken(Version2024, 1, data));
    } else if s.readCount == 2 {
      assert Taken(Version2024, 2, data) == "";
    } else {
      assert Take(s, data, 'E', 3) == s.(headerBuf := s.headerBuf + Taken(Version2024, 3, data));
    }
    assert t == s.(headerBuf := s.headerBuf + Taken(Version2024, s.readCount, data));
  }

  /** During a frame and below count 4 a valid chunk never succeeds: the counter moves
      on by one, and the header grows by the chunk exactly when it is the letter the
      layout expects at that count. */
  lemma BelowFour(s: SerialState, data: seq<byte>)
    requires Inv(s) && KnownVersion(s) && |data| >= 1 && Utf8Valid(data)
    requires s.isReading && s.readCount < 4
    ensures Challenge(s, data) ==
      Outcome(s.(headerBuf := s.headerBuf + Taken(s.protocolVersion, s.readCount, data), readCount := s.readCount + 1), false)
  {
    assert Challenge(s, data) == Stages(s, data);
    if s.protocolVersion == Version2014 {
      BelowFour2014(s, data);
    } else {
      BelowFour2024(s, data);
    }
  }

  /** The closing stage at count 4. */
  lemma CloseAtFour(s: SerialState, data: seq<byte>)
    requires Bounded(s) && s.isReading && s.readCount == 4
    ensures Close(s, data).ok <==> s.headerBuf == SwitchParser.Header
    ensures Close(s, data).ok ==> Close(s, data).state == s.(dataBuf := data)
    ensures !Close(s, data).ok ==> Close(s, data).state == s.ParamReset()
  {
  }

  lemma Four2014(s: SerialState, data: seq<byte>)
    requires Inv(s) && s.protocolVersion == Version2014
    requires s.isReading && s.readCount == 4
    ensures Stages(s, data) == Close(s, data)
  {
    assert Open(s, data) == s;
    assert Take(s, data, 'D', 1) == s;
    assert Take(s, data, 'E', 2) == s;
    assert Take(s, data, 'C', 3) == s;
  }

  lemma Four2024(s: SerialState, data: seq<byte>)
    requires Inv(s) && s.protocolVersion == Version2024
    requires s.isReading && s.readCount == 4
    ensures Stages(s, data) == Close(Take(s, data, 'C', 4), data)
    ensures Take(s, data, 'C', 4) ==
      if data == [SwitchParser.LetterC] then s.(headerBuf := s.headerBuf + ['C']) else s
  {
    VersionsDiffer();
    assert Open(s, data) == s;
    assert Take(s, data, 'D', 1) == s;
    assert Take(s, data, 'E', 3) == s;
  }

  /** A `C` completes the header exactly when it follows `ADE`. */
  lemma CompletesHeader(h: string)
    ensures h + ['C'] == SwitchParser.Header <==> h == "ADE"
  {
    if h + ['C'] == SwitchParser.Header {
      assert h == (h + ['C'])[..|h|];
    }
  }

  /** At count 4 a chunk succeeds exactly when it leaves the header complete: when the
      header already is, or, in the 2024 layout, when the chunk is the `C` that completes
      it (a `C` after a complete header spoils it). It then becomes the data. A chunk
      that does not succeed resets the decoder. */
  lemma AtCountFour(s: SerialState, data: seq<byte>)
    requires Inv(s) && KnownVersion(s) && |data| >= 1 && Utf8Valid(data)
    requires s.isReading && s.readCount == 4
    ensures var r := Challenge(s, data);
      r.ok <==>
        if s.protocolVersion == Version2024 && data == [SwitchParser.LetterC] then s.headerBuf == "ADE"
        else s.headerBuf == SwitchParser.Header
    ensures var r := Challenge(s, data);
      r.ok ==> r.state == s.(headerBuf := SwitchParser.Header, dataBuf := data)
    ensures var r := Challenge(s, data);
      !r.ok ==> r.state == s.ParamReset()
  {
    VersionsDiffer();
    assert Challenge(s, data) == Stages(s, data);
    if s.protocolVersion == Version2014 {
      Four2014(s, data);
      CloseAtFour(s, data);
    } else {
      Four2024(s, data);
      var t := Take(s, data, 'C', 4);
      CloseAtFour(t, data);
      CompletesHeader(s.headerBuf);
    }
  }

  datatype Run = Run(state: SerialState, results: seq<bool>)

  /** `put_challenge` on each chunk in turn: the final state and what each call returned. */
  function Feed(s: SerialState, chunks: seq<seq<byte>>): (r: Run)
    requires Inv(s)
    requires forall i :: 0 <= i < |chunks| ==> |chunks[i]| >= 1
    ensures Inv(r.state) && |r.results| == |chunks|
    decreases |chunks|
  {
    if chunks == [] then Run(s, [])
    else
      var c := Challenge(s, chunks[0]);
      var rest := Feed(c.state, chunks[1..]);
      Run(rest.state, [c.ok] + rest.results)
  }

  /** The same feed, one chunk split off the front. */
  lemma FeedCons(s: SerialState, c: seq<byte>, chunks: seq<seq<byte>>)
    requires Inv(s) && |c| >= 1
    requires forall i :: 0 <= i < |chunks| ==> |chunks[i]| >= 1
    ensures var r := Challenge(s, c);
      Feed(s, [c] + chunks) == Run(Feed(r.state, chunks).state, [r.ok] + Feed(r.state, chunks).results)
  {
    assert ([c] + chunks)[0] == c;
    assert ([c] + chunks)[1..] == chunks;
  }

  /** One more chunk in front of a feed whose outcome is known. */
  lemma FeedStep(s: SerialState, c: seq<byte>, rest: seq<seq<byte>>, r: Outcome, run: Run)
    requires Inv(s) && |c| >= 1
    requires forall i :: 0 <= i < |rest| ==> |rest[i]| >= 1
    requires Challenge(s, c) == r && Feed(r.state, rest) == run
    ensures Feed(s, [c] + rest) == Run(run.state, [r.ok] + run.results)
  {
    FeedCons(s, c, rest);
  }

  /** Two chunks fed one call at a time. */
  lemma FeedTwoChunks(s: SerialState, c1: seq<byte>, c2: seq<byte>, r1: Outcome, r2: Outcome)
    requires Inv(s) && |c1| >= 1 && |c2| >= 1
    requires Challenge(s, c1) == r1 && Challenge(r1.state, c2) == r2
    ensures Feed(s, [c1, c2]) == Run(r2.state, [r1.ok, r2.ok])
  {
    assert [c2] + [] == [c2];
    FeedStep(r1.state, c2, [], r2, Run(r2.state, []));
    assert [c1] + [c2] == [c1, c2];
    FeedStep(s, c1, [c2], r1, Run(r2.state, [r2.ok]));
  }

  /** `D` at count 1, in either layout. */
  lemma TakesD(s: SerialState)
    requires Inv(s) && KnownVersion(s) && s.isReading && s.readCount == 1
    ensures Challenge(s, [0x44]) == Outcome(s.(headerBuf := s.headerBuf + "D", readCount := 2), false)
  {
    SingleByteUtf8(0x44);
    BelowFour(s, [0x44]);
  }

  /** The size chunk at count 2 of the 2024 layout. */
  lemma SizeSkipped(s: SerialState, size: seq<byte>)
    requires Inv(s) && s.protocolVersion == Version2024 && s.isReading && s.readCount == 2
    requires |size| >= 1 && Utf8Valid(size)
    ensures Challenge(s, size) == Outcome(s.(readCount := 3), false)
  {
    VersionsDiffer();
    BelowFour(s, size);
    assert Taken(Version2024, 2, size) == "";
  }

  /** `E` at count 3 of the 2024 layout. */
  lemma TakesLateE(s: SerialState)
    requires Inv(s) && s.protocolVersion == Version2024 && s.isReading && s.readCount == 3
    ensures Challenge(s, [0x45]) == Outcome(s.(headerBuf := s.headerBuf + "E", readCount := 4), false)
  {
    SingleByteUtf8(0x45);
    VersionsDiffer();
    BelowFour(s, [0x45]);
    assert Taken(Version2024, 3, [0x45]) == "E";
  }

  /** In the 2014 layout, `A`, `D`, `E`, `C` sent to an idle decoder are each refused,
      and the chunk after them is accepted as the data. */
  lemma Frame2014(s: SerialState, data: seq<byte>)
    requires Inv(s) && !s.isReading && s.protocolVersion == Version2014
    requires |data| >= 1 && Utf8Valid(data)
    ensures var r := Feed(s, [[0x41], [0x44], [0x45], [0x43], data]);
      r.results == [false, false, false, false, true] && r.state.dataBuf == data &&
      r.state.headerBuf == SwitchParser.Header
  {
    StartOnlyWhenIdle(s);
    var s1 := s.(isReading := true, headerBuf := "A", readCount := 1);
    TakesD(s1);
    var s2 := s1.(headerBuf := "AD", readCount := 2);
    Tail2014(s2, data);
    var run := Feed(s2, [[0x45], [0x43], data]);
    assert [[0x44]] + [[0x45], [0x43], data] == [[0x44], [0x45], [0x43], data];
    FeedStep(s1, [0x44], [[0x45], [0x43], data], Outcome(s2, false), run);
    assert [[0x41]] + [[0x44], [0x45], [0x43], data] == [[0x41], [0x44], [0x45], [0x43], data];
    FeedStep(s, [0x41], [[0x44], [0x45], [0x43], data], Outcome(s1, false), Run(run.state, [false] + run.results));
  }

  /** The 2014 layout after `A D`: `E`, `C` and the data chunk. */
  lemma Tail2014(s2: SerialState, data: seq<byte>)
    requires Inv(s2) && s2.protocolVersion == Version2014 && s2.isReading
    requires s2.readCount == 2 && s2.headerBuf == "AD"
    requires |data| >= 1 && Utf8Valid(data)
    ensures Feed(s2, [[0x45], [0x43], data]) ==
      Run(s2.(headerBuf := SwitchParser.Header, readCount := 4, dataBuf := data), [false, false, true])
  {
    SingleByteUtf8(0x45);
    SingleByteUtf8(0x43);
    BelowFour(s2, [0x45]);
    var s3 := s2.(headerBuf := "ADE", readCount := 3);
    BelowFour(s3, [0x43]);
    var s4 := s3.(headerBuf := "ADEC", readCount := 4);
    AtCountFour(s4, data);
    var r5 := Challenge(s4, data);
    FeedTwoChunks(s3, [0x43], data, Outcome(s4, false), r5);
    assert [[0x45]] + [[0x43], data] == [[0x45], [0x43], data];
    FeedStep(s2, [0x45], [[0x43], data], Outcome(s3, false), Run(r5.state, [false, r5.ok]));
  }

  /** In the 2024 layout, `A`, `D`, a size chunk, `E` are refused and the `C` that
      completes the header is accepted, with the `C` itself stored as the data: the size
      chunk is not kept anywhere. */
  lemma Frame2024(s: SerialState, size: seq<byte>)
    requires Inv(s) && !s.isReading && s.protocolVersion == Version2024
    requires |size| >= 1 && Utf8Valid(size)
    ensures var r := Feed(s, [[0x41], [0x44], size, [0x45], [0x43]]);
      r.results == [false, false, false, false, true] && r.state.dataBuf == [0x43] &&
      r.state.headerBuf == SwitchParser.Header
  {
    StartOnlyWhenIdle(s);
    var s1 := s.(isReading := true, headerBuf := "A", readCount := 1);
    TakesD(s1);
    var s2 := s1.(headerBuf := "AD", readCount := 2);
    Tail2024(s2, size);
    var run := Feed(s2, [size, [0x45], [0x43]]);
    assert [[0x44]] + [size, [0x45], [0x43]] == [[0x44], size, [0x45], [0x43]];
    FeedStep(s1, [0x44], [size, [0x45], [0x43]], Outcome(s2, false), run);
    assert [[0x41]] + [[0x44], size, [0x45], [0x43]] == [[0x41], [0x44], size, [0x45], [0x43]];
    FeedStep(s, [0x41], [[0x44], size, [0x45], [0x43]], Outcome(s1, false), Run(run.state, [false] + run.results));
  }

  /** The 2024 layout after `A D`: the size chunk, `E` and `C`. */
  lemma Tail2024(s2: SerialState, size: seq<byte>)
    requires Inv(s2) && s2.protocolVersion == Version2024 && s2.isReading
    requires s2.readCount == 2 && s2.headerBuf == "AD"
    requires |size| >= 1 && Utf8Valid(size)
    ensures Feed(s2, [size, [0x45], [0x43]]) ==
      Run(s2.(headerBuf := SwitchParser.Header, readCount := 4, dataBuf := [0x43]), [false, false, true])
  {
    SingleByteUtf8(0x43);
    SizeSkipped(s2, size);
    var s3 := s2.(readCount := 3);
    TakesLateE(s3);
    var s4 := s3.(headerBuf := "ADE", readCount := 4);
    AtCountFour(s4, [0x43]);
    assert [0x43] == [SwitchParser.LetterC];
    var r5 := Challenge(s4, [0x43]);
    assert r5 == Outcome(s4.(headerBuf := SwitchParser.Header, dataBuf := [0x43]), true);
    FeedTwoChunks(s3, [0x45], [0x43], Outcome(s4, false), r5);
    assert [size] + [[0x45], [0x43]] == [size, [0x45], [0x43]];
    FeedStep(s2, size, [[0x45], [0x43]], Outcome(s3, false), Run(r5.state, [false, r5.ok]));
  }

  /** Nothing resets a decoder after a successful frame: from then on every valid
      chunk is accepted as data, and the last one is kept; only a lone `C` in the 2024
      layout spoils the header. */
  lemma {:induction false} HeaderLatches(s: SerialState, chunks: seq<seq<byte>>)
    requires Inv(s) && KnownVersion(s) && s.isReading && s.readCount == 4 && s.headerBuf == SwitchParser.Header
    requires forall i :: 0 <= i < |chunks| ==> |chunks[i]| >= 1 && Utf8Valid(chunks[i])
    requires forall i :: 0 <= i < |chunks| ==> chunks[i] != [SwitchParser.LetterC]
    ensures var r := Feed(s, chunks);
      (forall i :: 0 <= i < |chunks| ==> r.results[i]) &&
      r.state.headerBuf == SwitchParser.Header &&
      (chunks != [] ==> r.state.dataBuf == chunks[|chunks| - 1])
    decreases |chunks|
  {
    if chunks != [] {
      AtCountFour(s, chunks[0]);
      var s' := s.(dataBuf := chunks[0]);
      HeaderLatches(s', chunks[1..]);
      var rest := Feed(s', chunks[1..]);
      assert Feed(s, chunks) == Run(rest.state, [true] + rest.results);
      if |chunks| > 1 {
        assert chunks[1..][|chunks| - 2] == chunks[|chunks| - 1];
      }
    }
  }

  /** The class `ArdeckData`. */
  class ArdeckData {
    var header: string
    var bodysize: u16
    var headerBuf: string
    var dataBuf: seq<byte>
    var isReading: bool
    var readCount: u8
    var onCorrectHandler: Option<HandlerId>
    var protocolVersion: string
    const trace: Trace<byte>

    function State(): SerialState
      reads this
    {
      SerialState(headerBuf, dataBuf, isReading, readCount, protocolVersion)
    }

    ghost predicate Valid()
      reads this
    {
      Inv(State())
    }

    /** `ArdeckData::new()`. The handler installed by `new` does nothing; it is `None`
        here, since a call to it cannot be observed. */
    constructor (trace: Trace<byte>)
      ensures Valid() && State() == InitialSerial
      ensures header == SwitchParser.Header && bodysize == 1 && onCorrectHandler == None
      ensures this.trace == trace
    {
      header := SwitchParser.Header;
      bodysize := 1;
      headerBuf := "";
      dataBuf := [0];
      isReading := false;
      readCount := 0;
      onCorrectHandler := None;
      protocolVersion := Version2024;
      this.trace := trace;
    }

    /** `countup`. */
    method Countup()
      requires readCount < 255
      modifies this
      ensures State() == old(State()).(readCount := old(readCount) + 1)
      ensures onCorrectHandler == old(onCorrectHandler)
    {
      readCount := readCount + 1;
    }

    /** `param_reset`. */
    method ParamReset()
      modifies this
      ensures State() == old(State()).ParamReset()
      ensures onCorrectHandler == old(onCorrectHandler)
    {
      headerBuf := "";
      isReading := false;
      readCount := 0;
    }

    /** `put_challenge`, branch by branch. */
    method PutChallenge(data: seq<byte>) returns (ok: bool)
      requires Valid() && |data| >= 1
      modifies this
      ensures Valid()
      ensures State() == Challenge(old(State()), data).state
      ensures ok == Challenge(old(State()), data).ok
      ensures onCorrectHandler == old(onCorrectHandler)
    {
      if !Utf8Valid(data) {
        return false;
      }
      if protocolVersion == Version2014 {
        OpenStage(data);
        TakeStage(data, 'D', 1);
        TakeStage(data, 'E', 2);
        TakeStage(data, 'C', 3);
        ok := CloseStage(data);
      } else if protocolVersion == Version2024 {
        OpenStage(data);
        TakeStage(data, 'D', 1);
        TakeStage(data, 'E', 3);
        TakeStage(data, 'C', 4);
        ok := CloseStage(data);
      } else {
        return false;
      }
    }

    /** The `A` condition shared by both branches. */
    method OpenStage(data: seq<byte>)
      modifies this
      ensures State() == Open(old(State()), data)
      ensures onCorrectHandler == old(onCorrectHandler)
    {
      if data == [0x41] && !isReading && readCount == 0 {
        ParamReset();
        isReading := true;
        headerBuf := headerBuf + ['A'];
      }
    }

    /** One of the `D`, `E`, `C` conditions. */
    method TakeStage(data: seq<byte>, letter: char, count: nat)
      requires letter in "ADEC"
      modifies this
      ensures State() == Take(old(State()), data, letter, count)
      ensures onCorrectHandler == old(onCorrectHandler)
    {
      if data == [letter as byte] && isReading && readCount == count {
        headerBuf := headerBuf + [letter];
      }
    }

    /** The success and reset checks and the count step that end both branches. */
    method CloseStage(data: seq<byte>) returns (ok: bool)
      requires Bounded(State())
      modifies this
      ensures State() == Close(old(State()), data).state
      ensures ok == Close(old(State()), data).ok
      ensures onCorrectHandler == old(onCorrectHandler)
    {
      if headerBuf == SwitchParser.Header && |headerBuf| == |SwitchParser.Header| &&
         isReading && readCount == 4 {
        dataBuf := data;
        return true;
      }
      if isReading && readCount == 4 {
        ParamReset();
        return false;
      }
      if isReading {
        Countup();
      }
      return false;
    }

    /** `on_data`: the handler gets the first stored byte exactly when the chunk
        completed a frame. */
    method OnData(data: seq<byte>)
      requires Valid() && |data| >= 1
      modifies this, trace
      ensures Valid()
      ensures State() == Challenge(old(State()), data).state
      ensures onCorrectHandler == old(onCorrectHandler)
      ensures trace.calls == old(trace.calls) +
        (if Challenge(old(State()), data).ok && onCorrectHandler.Some?
         then [Call(onCorrectHandler.value, data[0])] else [])
    {
      var pc := PutChallenge(data);
      if pc && onCorrectHandler.Some? {
        trace.calls := trace.calls + [Call(onCorrectHandler.value, dataBuf[0])];
      }
    }

    /** `on_collect`: the new handler replaces the previous one. */
    method OnCollect(handler: HandlerId)
      modifies this
      ensures onCorrectHandler == Some(handler) && State() == old(State())
    {
      onCorrectHandler := Some(handler);
    }
  }
}
