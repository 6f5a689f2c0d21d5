/**
Standard Base64 with padding (section 4 of RFC 4648). Decoding is as lenient as Go's decoder: line breaks
are ignored and unused trailing bits are not checked.
*/
module Base64 {
  import opened Wrappers

  type Byte = n: int | 0 <= n < 256

  function Digit(c: char): Option<nat> {
    if 'A' <= c <= 'Z' then Some(c as nat - 'A' as nat)
    else if 'a' <= c <= 'z' then Some(c as nat - 'a' as nat + 26)
    else if '0' <= c <= '9' then Some(c as nat - '0' as nat + 52)
    else if c == '+' then Some(62)
    else if c == '/' then Some(63)
    else None
  }

  function Symbol(d: nat): char
    requires d < 64
  {
    if d < 26 then ('A' as int + d) as char
    else if d < 52 then ('a' as int + d - 26) as char
    else if d < 62 then ('0' as int + d - 52) as char
    else if d == 62 then '+'
    else '/'
  }

  function Encode(b: seq<Byte>): string {
    if b == [] then ""
    else if |b| == 1 then [Symbol(b[0] / 4), Symbol(b[0] % 4 * 16), '=', '=']
    else if |b| == 2 then
      [Symbol(b[0] / 4), Symbol(b[0] % 4 * 16 + b[1] / 16), Symbol(b[1] % 16 * 4), '=']
    else
      [Symbol(b[0] / 4), Symbol(b[0] % 4 * 16 + b[1] / 16), Symbol(b[1] % 16 * 4 + b[2] / 64), Symbol(b[2] % 64)]
      + Encode(b[3..])
  }

  function WithoutLineBreaks(s: string): string {
    if s == "" then ""
    else (if s[0] == '\n' || s[0] == '\r' then "" else [s[0]]) + WithoutLineBreaks(s[1..])
  }

  /** The first byte of a group, the second, and the third. */
  function First(d0: nat, d1: nat): Byte
    requires d0 < 64 && d1 < 64
  {
    d0 * 4 + d1 / 16
  }

  function Second(d1: nat, d2: nat): Byte
    requires d1 < 64 && d2 < 64
  {
    d1 % 16 * 16 + d2 / 4
  }

  function Third(d2: nat, d3: nat): Byte
    requires d2 < 64 && d3 < 64
  {
    d2 % 4 * 64 + d3
  }

  function DecodeGroups(s: string): Option<seq<Byte>> {
    if s == "" then Some([])
    else if |s| < 4 then None
    else
      var d0, d1, d2, d3 := Digit(s[0]), Digit(s[1]), Digit(s[2]), Digit(s[3]);
      if d0.None? || d1.None? then None
      else if d2.None? then
        if s[2..] == "==" then Some([First(d0.value, d1.value)]) else None
      else if d3.None? then
        if s[3..] == "=" then Some([First(d0.value, d1.value), Second(d1.value, d2.value)]) else None
      else
        match DecodeGroups(s[4..])
        case None => None
        case Some(rest) =>
          Some([First(d0.value, d1.value), Second(d1.value, d2.value), Third(d2.value, d3.value)] + rest)
  }

  function Decode(s: string): Option<seq<Byte>> {
    DecodeGroups(WithoutLineBreaks(s))
  }

  lemma DigitOfSymbol(d: nat)
    requires d < 64
    ensures Digit(Symbol(d)) == Some(d)
  {
  }

  lemma {:induction false} NoLineBreaks(s: string)
    requires forall i | 0 <= i < |s| :: s[i] != '\n' && s[i] != '\r'
    ensures WithoutLineBreaks(s) == s
  {
    if s != "" {
      assert s == [s[0]] + s[1..];
      NoLineBreaks(s[1..]);
    }
  }

  lemma {:induction false} EncodeHasNoLineBreaks(b: seq<Byte>)
    ensures forall i | 0 <= i < |Encode(b)| :: Encode(b)[i] != '\n' && Encode(b)[i] != '\r'
  {
    assert forall d: nat | d < 64 :: Digit(Symbol(d)).Some?;
    if |b| > 2 {
      EncodeHasNoLineBreaks(b[3..]);
    }
  }

  lemma GroupBytes(x: Byte, y: Byte, z: Byte)
    ensures First(x / 4, x % 4 * 16 + y / 16) == x
    ensures Second(x % 4 * 16 + y / 16, y % 16 * 4 + z / 64) == y
    ensures Third(y % 16 * 4 + z / 64, z % 64) == z
  {
  }

  lemma DecodeOne(s: string, d0: nat, d1: nat)
    requires |s| == 4 && d0 < 64 && d1 < 64
    requires Digit(s[0]) == Some(d0) && Digit(s[1]) == Some(d1) && s[2] == s[3] == '='
    ensures DecodeGroups(s) == Some([First(d0, d1)])
  {
    assert s[2..] == "==";
  }

  lemma DecodeTwo(s: string, d0: nat, d1: nat, d2: nat)
    requires |s| == 4 && d0 < 64 && d1 < 64 && d2 < 64
    requires Digit(s[0]) == Some(d0) && Digit(s[1]) == Some(d1) && Digit(s[2]) == Some(d2) && s[3] == '='
    ensures DecodeGroups(s) == Some([First(d0, d1), Second(d1, d2)])
  {
    assert s[3..] == "=";
  }

  lemma DecodeEncodeOne(x: Byte)
    ensures DecodeGroups(Encode([x])) == Some([x])
  {
    var d0, d1 := x / 4, x % 4 * 16;
    DigitOfSymbol(d0);
    DigitOfSymbol(d1);
    DecodeOne(Encode([x]), d0, d1);
    GroupBytes(x, 0, 0);
  }

  lemma DecodeEncodeTwo(x: Byte, y: Byte)
    ensures DecodeGroups(Encode([x, y])) == Some([x, y])
  {
    var d0, d1, d2 := x / 4, x % 4 * 16 + y / 16, y % 16 * 4;
    DigitOfSymbol(d0);
    DigitOfSymbol(d1);
    DigitOfSymbol(d2);
    DecodeTwo(Encode([x, y]), d0, d1, d2);
    GroupBytes(x, y, 0);
  }

  lemma DecodeThree(s: string, d0: nat, d1: nat, d2: nat, d3: nat, rest: seq<Byte>)
    requires |s| >= 4 && d0 < 64 && d1 < 64 && d2 < 64 && d3 < 64
    requires Digit(s[0]) == Some(d0) && Digit(s[1]) == Some(d1) && Digit(s[2]) == Some(d2) && Digit(s[3]) == Some(d3)
    requires DecodeGroups(s[4..]) == Some(rest)
    ensures DecodeGroups(s) == Some([First(d0, d1), Second(d1, d2), Third(d2, d3)] + rest)
  {
  }

  lemma DecodeEncodeThree(x: Byte, y: Byte, z: Byte, b: seq<Byte>)
    requires DecodeGroups(Encode(b)) == Some(b)
    ensures DecodeGroups(Encode([x, y, z] + b)) == Some([x, y, z] + b)
  {
    var d0, d1, d2, d3 := x / 4, x % 4 * 16 + y / 16, y % 16 * 4 + z / 64, z % 64;
    var s := [Symbol(d0), Symbol(d1), Symbol(d2), Symbol(d3)] + Encode(b);
    assert ([x, y, z] + b)[3..] == b;
    assert s == Encode([x, y, z] + b);
    DigitOfSymbol(d0);
    DigitOfSymbol(d1);
    DigitOfSymbol(d2);
    DigitOfSymbol(d3);
    assert s[4..] == Encode(b);
    DecodeThree(s, d0, d1, d2, d3, b);
    GroupBytes(x, y, z);
  }

  lemma {:induction false} DecodeGroupsOfEncode(b: seq<Byte>)
    ensures DecodeGroups(Encode(b)) == Some(b)
  {
    if |b| == 1 {
      DecodeEncodeOne(b[0]);
      assert b == [b[0]];
    } else if |b| == 2 {
      DecodeEncodeTwo(b[0], b[1]);
      assert b == [b[0], b[1]];
    } else if |b| > 2 {
      DecodeGroupsOfEncode(b[3..]);
      DecodeEncodeThree(b[0], b[1], b[2], b[3..]);
      assert b == [b[0], b[1], b[2]] + b[3..];
    }
  }

  lemma RoundTrip(b: seq<Byte>)
    ensures Decode(Encode(b)) == Some(b)
    ensures b != [] ==> Encode(b) != ""
  {
    EncodeHasNoLineBreaks(b);
    NoLineBreaks(Encode(b));
    DecodeGroupsOfEncode(b);
  }

  // ---- What the text looks like ----

  /** The alphabet of table 1 of RFC 4648, by character codes. */
  lemma Alphabet(d: nat)
    requires d < 64
    ensures d < 26 ==> Symbol(d) as int == 65 + d
    ensures 26 <= d < 52 ==> Symbol(d) as int == 97 + (d - 26)
    ensures 52 <= d < 62 ==> Symbol(d) as int == 48 + (d - 52)
    ensures Symbol(62) == '+' && Symbol(63) == '/'
  {
  }

  lemma GroupValue(x: Byte, y: Byte, z: Byte)
    ensures (x * 256 + y) * 256 + z ==
            ((x / 4 * 64 + (x % 4 * 16 + y / 16)) * 64 + (y % 16 * 4 + z / 64)) * 64 + z % 64
  {
    assert x == x / 4 * 4 + x % 4 && y == y / 16 * 16 + y % 16 && z == z / 64 * 64 + z % 64;
  }

  /** The characters are the digits of the group's 24 bits in base 64, most significant first. */
  lemma FullGroup(x: Byte, y: Byte, z: Byte, b: seq<Byte>) returns (d0: nat, d1: nat, d2: nat, d3: nat)
    ensures d0 < 64 && d1 < 64 && d2 < 64 && d3 < 64
    ensures (x * 256 + y) * 256 + z == ((d0 * 64 + d1) * 64 + d2) * 64 + d3
    ensures Encode([x, y, z] + b) == [Symbol(d0), Symbol(d1), Symbol(d2), Symbol(d3)] + Encode(b)
  {
    d0, d1, d2, d3 := x / 4, x % 4 * 16 + y / 16, y % 16 * 4 + z / 64, z % 64;
    GroupValue(x, y, z);
    assert ([x, y, z] + b)[3..] == b;
  }

  /** One byte at the end: twelve bits, the last four zero, and two padding characters. */
  lemma OneByteLeft(x: Byte) returns (d0: nat, d1: nat)
    ensures d0 < 64 && d1 < 64 && x * 16 == d0 * 64 + d1
    ensures Encode([x]) == [Symbol(d0), Symbol(d1), '=', '=']
  {
    d0, d1 := x / 4, x % 4 * 16;
  }

  /** Two bytes at the end: eighteen bits, the last two zero, and one padding character. */
  lemma TwoBytesLeft(x: Byte, y: Byte) returns (d0: nat, d1: nat, d2: nat)
    ensures d0 < 64 && d1 < 64 && d2 < 64 && (x * 256 + y) * 4 == (d0 * 64 + d1) * 64 + d2
    ensures Encode([x, y]) == [Symbol(d0), Symbol(d1), Symbol(d2), '=']
  {
    d0, d1, d2 := x / 4, x % 4 * 16 + y / 16, y % 16 * 4;
    GroupValue(x, y, 0);
  }

  // ---- What the decoder accepts ----

  lemma {:induction false} LineBreaksJoin(s: string, t: string)
    ensures WithoutLineBreaks(s + t) == WithoutLineBreaks(s) + WithoutLineBreaks(t)
  {
    if s == "" {
      assert s + t == t;
    } else {
      LineBreaksJoin(s[1..], t);
      assert (s + t)[0] == s[0] && (s + t)[1..] == s[1..] + t;
      var first := if s[0] == '\n' || s[0] == '\r' then "" else [s[0]];
      assert WithoutLineBreaks(s + t) == first + (WithoutLineBreaks(s[1..]) + WithoutLineBreaks(t));
    }
  }

  /** A line break makes no difference, wherever it stands. */
  lemma LineBreaksAreIgnored(s: string, t: string, c: char)
    requires c == '\n' || c == '\r'
    ensures Decode(s + [c] + t) == Decode(s + t)
  {
    LineBreaksJoin(s + [c], t);
    LineBreaksJoin(s, [c]);
    LineBreaksJoin(s, t);
    assert WithoutLineBreaks([c]) == WithoutLineBreaks([c][1..]) == "";
    assert WithoutLineBreaks(s) + "" == WithoutLineBreaks(s);
    assert WithoutLineBreaks(s + [c] + t) == WithoutLineBreaks(s + t);
  }

  lemma SymbolsStay(s: string)
    requires forall i | 0 <= i < |s| :: s[i] == '=' || Digit(s[i]).Some?
    ensures Decode(s) == DecodeGroups(s)
  {
    NoLineBreaks(s);
  }

  /** The bits that a padded group leaves over are not looked at. */
  lemma SpareBitsOfOne(d0: nat, d1: nat) returns (x: Byte)
    requires d0 < 64 && d1 < 64
    ensures x == (d0 * 64 + d1) / 16
    ensures Decode([Symbol(d0), Symbol(d1), '=', '=']) == Some([x])
  {
    x := First(d0, d1);
    var s := [Symbol(d0), Symbol(d1), '=', '='];
    DigitOfSymbol(d0);
    DigitOfSymbol(d1);
    SymbolsStay(s);
    DecodeOne(s, d0, d1);
  }

  lemma TwoBytesOf(d0: nat, d1: nat, d2: nat)
    requires d0 < 64 && d1 < 64 && d2 < 64
    ensures ((d0 * 64 + d1) * 64 + d2) / 4 == First(d0, d1) * 256 + Second(d1, d2)
  {
    assert d1 == d1 / 16 * 16 + d1 % 16;
  }

  lemma SpareBitsOfTwo(d0: nat, d1: nat, d2: nat) returns (x: Byte, y: Byte)
    requires d0 < 64 && d1 < 64 && d2 < 64
    ensures x * 256 + y == ((d0 * 64 + d1) * 64 + d2) / 4
    ensures Decode([Symbol(d0), Symbol(d1), Symbol(d2), '=']) == Some([x, y])
  {
    x, y := First(d0, d1), Second(d1, d2);
    TwoBytesOf(d0, d1, d2);
    var s := [Symbol(d0), Symbol(d1), Symbol(d2), '='];
    DigitOfSymbol(d0);
    DigitOfSymbol(d1);
    DigitOfSymbol(d2);
    SymbolsStay(s);
    DecodeTwo(s, d0, d1, d2);
  }

  /** Nothing but whole groups is accepted, with padding at the very end only. */
  lemma {:induction false} OnlyWholeGroups(s: string)
    ensures DecodeGroups(s).Some? ==>
              |s| % 4 == 0 && forall i | 0 <= i < |s| - 2 :: Digit(s[i]).Some?
  {
    if |s| >= 4 {
      OnlyWholeGroups(s[4..]);
      assert forall i | 4 <= i < |s| :: s[i] == s[4..][i - 4];
    }
  }
}
