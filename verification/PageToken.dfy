/** Page tokens: the Base64 form of a decimal offset, and Go's parser for what comes back. */
module PageToken {
  import opened Wrappers
  import opened Errors
  import opened Decimal
  import Base64

  const MaxInt: int := 0x7FFF_FFFF_FFFF_FFFF

  function Bytes(s: string): seq<Base64.Byte>
    requires AllDigits(s)
  {
    if s == "" then []
    else
      assert IsDigit(s[0]);
      [s[0] as int] + Bytes(s[1..])
  }

  function Text(b: seq<Base64.Byte>): string {
    if b == [] then "" else [b[0] as char] + Text(b[1..])
  }

  lemma {:induction false} TextOfBytes(s: string)
    requires AllDigits(s)
    ensures Text(Bytes(s)) == s
  {
    if s != "" {
      TextOfBytes(s[1..]);
      assert Bytes(s)[1..] == Bytes(s[1..]);
    }
  }

  /** strconv.Atoi on a 64-bit machine: an optional sign, at least one digit, and a value in range. */
  function Atoi(s: string): Option<int> {
    var signed := s != "" && (s[0] == '-' || s[0] == '+');
    var digits := if signed then s[1..] else s;
    if !IsNumeral(digits) then None
    else
      var v: int := if signed && s[0] == '-' then 0 - Value(digits) else Value(digits);
      if -MaxInt - 1 <= v <= MaxInt then Some(v) else None
  }

  function EncodeToken(offset: nat): string {
    NumeralValue(offset);
    Base64.Encode(Bytes(Numeral(offset)))
  }

  function DecodePageToken(token: string): (r: Result<nat, StoreError>)
    ensures r.Ok? ==> r.value <= MaxInt
  {
    if token == "" then Ok(0)
    else
      match Base64.Decode(token)
      case None => Err(InvalidArgument)
      case Some(decoded) =>
        match Atoi(Text(decoded))
        case None => Err(InvalidArgument)
        case Some(offset) => if offset < 0 then Err(InvalidArgument) else Ok(offset)
  }

  /** Every offset List can hand out comes back unchanged, and its token is never the empty one. */
  lemma TokenRoundTrip(offset: nat)
    requires offset <= MaxInt
    ensures DecodePageToken(EncodeToken(offset)) == Ok(offset)
    ensures EncodeToken(offset) != ""
  {
    NumeralValue(offset);
    var s := Numeral(offset);
    Base64.RoundTrip(Bytes(s));
    TextOfBytes(s);
    assert IsDigit(s[0]);
  }

  /** A decoded text that names an offset: an optional sign, and digits within range; "-0" is zero as well. */
  predicate NamesOffset(text: string) {
    text != "" &&
    var digits := if text[0] == '-' || text[0] == '+' then text[1..] else text;
    IsNumeral(digits) && Value(digits) <= (if text[0] == '-' then 0 else 9_223_372_036_854_775_807)
  }

  function NamedOffset(text: string): nat
    requires NamesOffset(text)
  {
    Value(if text[0] == '-' || text[0] == '+' then text[1..] else text)
  }

  /**
  For every token, forged or not: the empty one is offset zero; any other is accepted iff it is Base64 of an
  optional sign and digits with a value from 0 to the largest int, a minus sign only in front of zero, and
  then stands for that value.
  */
  lemma AcceptedTokens(token: string)
    ensures var decoded := Base64.Decode(token);
            DecodePageToken(token) ==
            if token == "" then Ok(0)
            else if decoded.Some? && NamesOffset(Text(decoded.value)) then Ok(NamedOffset(Text(decoded.value)))
            else Err(InvalidArgument)
  {
  }

  // ---- As a codec ----

  /** The two token functions as values, so that pagination can be argued from what they promise. */
  datatype TokenCodec = TokenCodec(decode: string -> Result<nat, StoreError>, encode: nat -> string)

  ghost predicate Sound(tokens: TokenCodec) {
    && tokens.decode("") == Ok(0)
    && (forall n: nat | n <= MaxInt :: tokens.decode(tokens.encode(n)) == Ok(n) && tokens.encode(n) != "")
  }

  const PageTokens := TokenCodec(DecodePageToken, EncodeToken)

  lemma PageTokensAreSound()
    ensures Sound(PageTokens)
  {
    forall n: nat | n <= MaxInt
      ensures PageTokens.decode(PageTokens.encode(n)) == Ok(n) && PageTokens.encode(n) != ""
    {
      TokenRoundTrip(n);
    }
  }
}
