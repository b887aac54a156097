/** The random strings of `props.ts`: a string of characters drawn from a character set
    chosen by four flag bits, and the unique ids made from 64 such characters and the
    current time in hexadecimal. `Math.random` is an input: the sequence of draws it
    returns, each in [0, 1); `Date.now` is the time passed in. */
module Props {

  const UpperCase: string := "ABCDEFGHIJKLMNOPQRSTUVWXYZ"
  const LowerCase: string := "abcdefghijklmnopqrstuvwxyz"
  const Numbers: string := "0123456789"
  const SpecialCharacters: string := "!@#$%^&*()_+~`|}{[]\\:;?><,./-="

  /** Bit `k` of `n` in two's complement, as JavaScript's `&` sees an integer: `n`
      halved `k` times, rounding down, then its lowest bit. */
  predicate Bit(n: int, k: nat)
    decreases k
  {
    if k == 0 then n % 2 == 1 else Bit(n / 2, k - 1)
  }

  /** The characters `randomStr` draws from: upper case, lower case, digits and special
      characters, in that order, each present when bit 3, 2, 1 or 0 of `flags` is set. */
  function Charset(flags: int): (cs: string)
    ensures |cs| == (if Bit(flags, 3) then 26 else 0) + (if Bit(flags, 2) then 26 else 0)
                  + (if Bit(flags, 1) then 10 else 0) + (if Bit(flags, 0) then 30 else 0)
  {
    (if Bit(flags, 3) then UpperCase else "") + (if Bit(flags, 2) then LowerCase else "")
    + (if Bit(flags, 1) then Numbers else "") + (if Bit(flags, 0) then SpecialCharacters else "")
  }

  predicate IsUpper(c: char) { 'A' <= c <= 'Z' }
  predicate IsLower(c: char) { 'a' <= c <= 'z' }
  predicate IsDigit(c: char) { '0' <= c <= '9' }

  lemma UpperCaseChars()
    ensures forall c :: c in UpperCase <==> IsUpper(c)
  {
    forall c | IsUpper(c) ensures c in UpperCase {
      assert UpperCase[c as int - 'A' as int] == c;
    }
  }

  lemma LowerCaseChars()
    ensures forall c :: c in LowerCase <==> IsLower(c)
  {
    forall c | IsLower(c) ensures c in LowerCase {
      assert LowerCase[c as int - 'a' as int] == c;
    }
  }

  lemma NumberChars()
    ensures forall c :: c in Numbers <==> IsDigit(c)
  {
    forall c | IsDigit(c) ensures c in Numbers {
      assert Numbers[c as int - '0' as int] == c;
    }
  }

  /** A character belongs to the charset exactly when its class's flag bit is set:
      the four classes do not overlap, so no flag brings in a character of another. */
  lemma CharsetMembership(flags: int, c: char)
    ensures c in Charset(flags) <==>
      (Bit(flags, 3) && IsUpper(c)) || (Bit(flags, 2) && IsLower(c)) ||
      (Bit(flags, 1) && IsDigit(c)) || (Bit(flags, 0) && c in SpecialCharacters)
  {
    UpperCaseChars();
    LowerCaseChars();
    NumberChars();
    var a := if Bit(flags, 3) then UpperCase else "";
    var b := if Bit(flags, 2) then LowerCase else "";
    var d := if Bit(flags, 1) then Numbers else "";
    var e := if Bit(flags, 0) then SpecialCharacters else "";
    assert Charset(flags) == a + b + d + e;
    assert c in a + b + d + e <==> c in a || c in b || c in d || c in e;
  }

  /** The charset is empty exactly when none of the four low bits is set. */
  lemma EmptyCharset(flags: int)
    ensures Charset(flags) == "" <==> flags % 16 == 0
  {
    var f1, f2, f3 := flags / 2, flags / 2 / 2, flags / 2 / 2 / 2;
    assert Bit(flags, 1) == (f1 % 2 == 1);
    assert Bit(flags, 2) == Bit(f1, 1) == (f2 % 2 == 1);
    assert Bit(flags, 3) == Bit(f1, 2) == Bit(f2, 1) == (f3 % 2 == 1);
    assert flags % 16 == f3 % 2 * 8 + f2 % 2 * 4 + f1 % 2 * 2 + flags % 2;
  }

  /** `Math.random()` returns a value in [0, 1). */
  predicate Draws(draws: seq<real>)
  {
    forall i :: 0 <= i < |draws| ==> 0.0 <= draws[i] < 1.0
  }

  /** `Math.floor(draw * n)` for a draw in [0, 1): an index into a string of length n. */
  function Index(draw: real, n: nat): (k: nat)
    requires 0.0 <= draw < 1.0 && n > 0
    ensures k < n
  {
    var x := draw * n as real;
    assert x < n as real;
    x.Floor
  }

  /** The string drawn with one draw per character; `charAt` past the end of an empty
      charset gives "", so an empty charset gives the empty string. */
  function Drawn(cs: string, draws: seq<real>): (s: string)
    requires Draws(draws)
    ensures cs == [] ==> s == []
    ensures cs != [] ==> |s| == |draws|
  {
    if draws == [] || cs == [] then []
    else Drawn(cs, draws[..|draws| - 1]) + [cs[Index(draws[|draws| - 1], |cs|)]]
  }

  /** Every character drawn is one of the charset's, placed where its draw says. */
  lemma {:induction false} DrawnChars(cs: string, draws: seq<real>)
    requires Draws(draws) && cs != []
    ensures forall i :: 0 <= i < |Drawn(cs, draws)| ==>
      Drawn(cs, draws)[i] == cs[Index(draws[i], |cs|)] && Drawn(cs, draws)[i] in cs
    decreases |draws|
  {
    if draws != [] {
      DrawnChars(cs, draws[..|draws| - 1]);
    }
  }

  /** The first half of `randomStr`: the flags' classes appended one by one. */
  method Characters(flags: int) returns (characters: string)
    ensures characters == Charset(flags)
  {
    var upper, lower, numbers, special := Bit(flags, 3), Bit(flags, 2), Bit(flags, 1), Bit(flags, 0);
    characters := "";
    if upper { characters := characters + UpperCase; }
    assert characters == (if upper then UpperCase else "");
    if lower { characters := characters + LowerCase; }
    assert characters == (if upper then UpperCase else "") + (if lower then LowerCase else "");
    if numbers { characters := characters + Numbers; }
    if special { characters := characters + SpecialCharacters; }
  }

  /** `randomStr(type, length)`: `length` characters drawn from `Charset(type)`; a
      length of zero or less gives "". The `i`-th character uses the `i`-th draw. */
  method RandomStr(flags: int, length: int, draws: seq<real>) returns (result: string)
    requires Draws(draws) && |draws| >= length
    ensures result == Drawn(Charset(flags), draws[..if length < 0 then 0 else length])
  {
    var characters := Characters(flags);
    result := "";
    var i := 0;
    while i < length
      invariant 0 <= i <= |draws| && i <= (if length < 0 then 0 else length)
      invariant result == Drawn(characters, draws[..i])
    {
      assert draws[..i + 1][..i] == draws[..i];
      if characters != [] {
        result := result + [characters[Index(draws[i], |characters|)]];
      }
      i := i + 1;
    }
    assert i == (if length < 0 then 0 else length);
  }

  /** A random string of a non-empty charset has exactly `length` characters, each
      from the charset. */
  lemma RandomStrShape(flags: int, length: nat, draws: seq<real>)
    requires Draws(draws) && |draws| >= length && Charset(flags) != ""
    ensures |Drawn(Charset(flags), draws[..length])| == length
    ensures forall c :: c in Drawn(Charset(flags), draws[..length]) ==> c in Charset(flags)
  {
    DrawnChars(Charset(flags), draws[..length]);
  }

  const HexDigits: string := "0123456789abcdef"

  /** `n.toString(16)` for a natural number: lower-case hexadecimal, no leading zero. */
  function Hex(n: nat): (s: string)
    ensures |s| >= 1 && (|s| > 1 ==> s[0] != '0')
    ensures forall i :: 0 <= i < |s| ==> s[i] in HexDigits
    decreases n
  {
    if n < 16 then [HexDigits[n]] else Hex(n / 16) + [HexDigits[n % 16]]
  }

  /** `Number.prototype.toString(16)` for an integer: a minus sign before a negative one. */
  function HexString(n: int): (s: string)
    ensures n >= 0 ==> s == Hex(n)
    ensures n < 0 ==> s == "-" + Hex(-n)
  {
    if n < 0 then "-" + Hex(-n) else Hex(n)
  }

  /** The value of a hexadecimal digit. */
  function DigitValue(c: char): nat
  {
    if '0' <= c <= '9' then c as nat - '0' as nat
    else if 'a' <= c <= 'f' then c as nat - 'a' as nat + 10
    else 0
  }

  /** The number a string of hexadecimal digits denotes. */
  function ParseHex(s: string): nat
    decreases |s|
  {
    if s == [] then 0 else ParseHex(s[..|s| - 1]) * 16 + DigitValue(s[|s| - 1])
  }

  lemma HexDigitValues()
    ensures forall d :: 0 <= d < 16 ==> DigitValue(HexDigits[d]) == d
  {
  }

  /** The hexadecimal text of a number reads back as that number. */
  lemma {:induction false} HexRoundTrip(n: nat)
    ensures ParseHex(Hex(n)) == n
    decreases n
  {
    HexDigitValues();
    if n >= 16 {
      HexRoundTrip(n / 16);
      var s := Hex(n);
      assert s[..|s| - 1] == Hex(n / 16);
    }
  }

  /** `makeUid`: 64 characters of lower case and digits, a "-", and `now` in
      hexadecimal. */
  method MakeUid(now: int, draws: seq<real>) returns (uid: string)
    requires Draws(draws) && |draws| >= 64
    ensures uid == Drawn(Charset(0x6), draws[..64]) + "-" + HexString(now)
  {
    var randomStr := RandomStr(0x6, 64, draws);
    uid := randomStr + "-" + HexString(now);
  }

  /** The parts of an id: 64 lower-case letters and digits, the "-" at index 64, then
      the time, which reads back from the rest. */
  lemma UidShape(now: nat, draws: seq<real>)
    requires Draws(draws) && |draws| >= 64
    ensures var uid := Drawn(Charset(0x6), draws[..64]) + "-" + HexString(now);
      |uid| >= 65 && uid[64] == '-' &&
      (forall i :: 0 <= i < 64 ==> IsLower(uid[i]) || IsDigit(uid[i])) &&
      ParseHex(uid[65..]) == now
  {
    assert Bit(0x6, 1) && Bit(0x6, 2) && !Bit(0x6, 3) && !Bit(0x6, 0);
    var cs := Charset(0x6);
    assert cs == LowerCase + Numbers;
    RandomStrShape(0x6, 64, draws);
    var r := Drawn(cs, draws[..64]);
    forall i | 0 <= i < 64 ensures IsLower(r[i]) || IsDigit(r[i]) {
      assert r[i] in r;
      CharsetMembership(0x6, r[i]);
    }
    var uid := r + "-" + HexString(now);
    assert uid[65..] == Hex(now);
    HexRoundTrip(now);
  }
}
