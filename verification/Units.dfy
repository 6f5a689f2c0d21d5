/**
CPU and memory units. A quantity is modelled by its value; `QuantityText` is the canonical form in which
Kubernetes prints a binary quantity, and `ParseQuantity` reads digits with a binary suffix, none standing
for zero, and caps the value at the largest 64-bit integer.
*/
module Units {
  import opened Arithmetic
  import opened Wrappers
  import opened Decimal

  const MaxQuantity: nat := 0x7FFF_FFFF_FFFF_FFFF
  const Mebi: nat := 0x10_0000
  const Gibi: nat := 0x4000_0000
  const Tebi: nat := 0x100_0000_0000
  const Pebi: nat := 0x4_0000_0000_0000

  datatype MemoryError = UnsupportedUnit | Malformed

  // ---- Suffixes ----

  predicate HasSuffix(s: string, suffix: string) {
    |suffix| <= |s| && s[|s| - |suffix|..] == suffix
  }

  function CutSuffix(s: string, suffix: string): string
    requires HasSuffix(s, suffix)
  {
    s[..|s| - |suffix|]
  }

  // ---- Quantities ----

  function Scale(suffix: string): nat {
    if suffix == "Ki" then 1024
    else if suffix == "Mi" then Mebi
    else if suffix == "Gi" then Gibi
    else if suffix == "Ti" then Tebi
    else if suffix == "Pi" then Pebi
    else if suffix == "Ei" then 0x1000_0000_0000_0000
    else 0
  }

  function ParseQuantity(s: string): (r: Result<nat, MemoryError>)
    ensures r.Ok? ==> r.value <= MaxQuantity
  {
    if |s| < 2 || Scale(s[|s| - 2..]) == 0 || !AllDigits(s[..|s| - 2]) then Err(Malformed)
    else Ok(Min(Value(s[..|s| - 2]) * Scale(s[|s| - 2..]), MaxQuantity))
  }

  /** Removes the factors of 1024, counting them. */
  function Reduce(b: nat): (nat, nat) {
    if b > 0 && b % 1024 == 0 then (Reduce(b / 1024).0, Reduce(b / 1024).1 + 1) else (b, 0)
  }

  function BinarySuffix(exponent: nat): string {
    if exponent == 0 then ""
    else if exponent == 1 then "Ki"
    else if exponent == 2 then "Mi"
    else if exponent == 3 then "Gi"
    else if exponent == 4 then "Ti"
    else if exponent == 5 then "Pi"
    else "Ei"
  }

  /** Values below 1024 are printed with decimal suffixes, where one thousand is "1k". */
  function QuantityText(b: nat): string {
    if b == 1000 then "1k"
    else if b < 1024 then Numeral(b)
    else Numeral(Reduce(b).0) + BinarySuffix(Reduce(b).1)
  }

  // ---- The two unit tables, ranged over in an arbitrary order ----

  type Table = seq<(string, string)>

  const ApiToK8s: Table := [("MB", "Mi"), ("GB", "Gi"), ("TB", "Ti")]
  const K8sToApi: Table := [("Mi", "MB"), ("Gi", "GB"), ("Ti", "TB")]

  ghost predicate Reorders(order: Table, table: Table) {
    forall e :: e in order <==> e in table
  }

  function ConvertMemoryIn(order: Table, s: string): (r: Result<nat, MemoryError>)
    ensures r.Ok? ==> r.value <= MaxQuantity
  {
    if order == [] then Err(UnsupportedUnit)
    else if HasSuffix(s, order[0].0) then ParseQuantity(CutSuffix(s, order[0].0) + order[0].1)
    else ConvertMemoryIn(order[1..], s)
  }

  function ConvertMemory(s: string): Result<nat, MemoryError> {
    ConvertMemoryIn(ApiToK8s, s)
  }

  function TextToApiIn(order: Table, text: string): string {
    if order == [] then text
    else if HasSuffix(text, order[0].0) then CutSuffix(text, order[0].0) + order[0].1
    else TextToApiIn(order[1..], text)
  }

  function MemoryQuantityToApi(b: nat): string {
    TextToApiIn(K8sToApi, QuantityText(b))
  }

  /** The two quantities of a container's CPU, requests and limits, are its bounds unchanged. */
  function ConvertCpu(min: int, max: int): (int, int) {
    (min, max)
  }

  // ---- The order of the tables does not matter ----

  ghost predicate Functional(table: Table) {
    && (forall e | e in table :: |e.0| == 2)
    && (forall e, f | e in table && f in table && e.0 == f.0 :: e == f)
  }

  lemma {:induction false} ConvertMemoryByEntry(order: Table, s: string)
    requires Functional(order)
    ensures forall e | e in order && HasSuffix(s, e.0) ::
              ConvertMemoryIn(order, s) == ParseQuantity(CutSuffix(s, e.0) + e.1)
    ensures (forall e | e in order :: !HasSuffix(s, e.0)) ==> ConvertMemoryIn(order, s) == Err(UnsupportedUnit)
  {
    if order != [] {
      ConvertMemoryByEntry(order[1..], s);
      assert order == [order[0]] + order[1..];
      assert order[0] in order;
      if HasSuffix(s, order[0].0) {
        forall e | e in order && HasSuffix(s, e.0) ensures e == order[0] {
        }
      }
    }
  }

  lemma {:induction false} TextToApiByEntry(order: Table, text: string)
    requires Functional(order)
    ensures forall e | e in order && HasSuffix(text, e.0) ::
              TextToApiIn(order, text) == CutSuffix(text, e.0) + e.1
    ensures (forall e | e in order :: !HasSuffix(text, e.0)) ==> TextToApiIn(order, text) == text
  {
    if order != [] {
      TextToApiByEntry(order[1..], text);
      assert order == [order[0]] + order[1..];
      assert order[0] in order;
      if HasSuffix(text, order[0].0) {
        forall e | e in order && HasSuffix(text, e.0) ensures e == order[0] {
        }
      }
    }
  }

  /** Go ranges over a map in an unspecified order; both conversions give the same result in every order. */
  lemma IterationOrderIsIrrelevant(toK8s: Table, toApi: Table, s: string, b: nat)
    requires Reorders(toK8s, ApiToK8s) && Reorders(toApi, K8sToApi)
    ensures ConvertMemoryIn(toK8s, s) == ConvertMemory(s)
    ensures TextToApiIn(toApi, QuantityText(b)) == MemoryQuantityToApi(b)
  {
    assert Functional(ApiToK8s) && Functional(K8sToApi);
    ConvertMemoryByEntry(toK8s, s);
    ConvertMemoryByEntry(ApiToK8s, s);
    TextToApiByEntry(toApi, QuantityText(b));
    TextToApiByEntry(K8sToApi, QuantityText(b));
  }

  // ---- Memory strings ----

  lemma SuffixOf(s: string, suffix: string)
    ensures HasSuffix(s + suffix, suffix) && CutSuffix(s + suffix, suffix) == s
  {
    assert (s + suffix)[|s|..] == suffix;
  }

  /** What digits with an API unit convert to; a unit without digits reads as zero. */
  lemma ConvertMemoryOfNumeral(num: string, e: (string, string))
    requires AllDigits(num) && e in ApiToK8s
    ensures ConvertMemory(num + e.0) == Ok(Min(Value(num) * Scale(e.1), MaxQuantity))
  {
    assert Functional(ApiToK8s);
    SuffixOf(num, e.0);
    SuffixOf(num, e.1);
    ConvertMemoryByEntry(ApiToK8s, num + e.0);
    assert (num + e.1)[|num|..] == e.1 && (num + e.1)[..|num|] == num;
  }

  /** The API's three units are the binary ones. */
  lemma Megabytes(num: string)
    requires AllDigits(num)
    ensures ConvertMemory(num + "MB") == Ok(Min(Value(num) * 0x10_0000, 0x7FFF_FFFF_FFFF_FFFF))
  {
    ConvertMemoryOfNumeral(num, ApiToK8s[0]);
  }

  lemma Gigabytes(num: string)
    requires AllDigits(num)
    ensures ConvertMemory(num + "GB") == Ok(Min(Value(num) * 0x4000_0000, 0x7FFF_FFFF_FFFF_FFFF))
  {
    ConvertMemoryOfNumeral(num, ApiToK8s[1]);
  }

  lemma Terabytes(num: string)
    requires AllDigits(num)
    ensures ConvertMemory(num + "TB") == Ok(Min(Value(num) * 0x100_0000_0000, 0x7FFF_FFFF_FFFF_FFFF))
  {
    ConvertMemoryOfNumeral(num, ApiToK8s[2]);
  }

  /** There is no other unit. */
  lemma OtherUnitsAreRejected(s: string)
    ensures ConvertMemory(s) == Err(UnsupportedUnit) <==> |s| < 2 || s[|s| - 2..] !in {"MB", "GB", "TB"}
  {
    assert Functional(ApiToK8s);
    ConvertMemoryByEntry(ApiToK8s, s);
    assert ApiToK8s[0].0 == "MB" && ApiToK8s[1].0 == "GB" && ApiToK8s[2].0 == "TB";
    forall e ensures e in ApiToK8s ==> (HasSuffix(s, e.0) <==> |s| >= 2 && s[|s| - 2..] == e.0) {
    }
    forall e | e in ApiToK8s ensures ParseQuantity(s) != Err(UnsupportedUnit) {
    }
  }

  lemma DivideKibi(b: nat)
    ensures b % 0x10_0000 == 0 <==> b % 1024 == 0 && (b / 1024) % 1024 == 0
  {
    var c := b / 1024;
    assert b == 0x10_0000 * (c / 1024) + (1024 * (c % 1024) + b % 1024);
  }

  lemma DivideMebi(b: nat)
    ensures b % 0x4000_0000 == 0 <==> b % 1024 == 0 && (b / 1024) % 0x10_0000 == 0
  {
    var c := b / 1024;
    assert b == 0x4000_0000 * (c / 0x10_0000) + (1024 * (c % 0x10_0000) + b % 1024);
  }

  lemma DivideGibi(b: nat)
    ensures b % 0x100_0000_0000 == 0 <==> b % 1024 == 0 && (b / 1024) % 0x4000_0000 == 0
  {
    var c := b / 1024;
    assert b == 0x100_0000_0000 * (c / 0x4000_0000) + (1024 * (c % 0x4000_0000) + b % 1024);
  }

  lemma DivideTebi(b: nat)
    ensures b % 0x4_0000_0000_0000 == 0 <==> b % 1024 == 0 && (b / 1024) % 0x100_0000_0000 == 0
  {
    var c := b / 1024;
    assert b == 0x4_0000_0000_0000 * (c / 0x100_0000_0000) + (1024 * (c % 0x100_0000_0000) + b % 1024);
  }

  lemma DivideBy1024(b: nat, p: nat)
    requires p in {1024, Mebi, Gibi, Tebi}
    ensures b % (1024 * p) == 0 <==> b % 1024 == 0 && (b / 1024) % p == 0
  {
    DivideKibi(b);
    DivideMebi(b);
    DivideGibi(b);
    DivideTebi(b);
  }

  function Power1024(e: nat): (p: nat)
    ensures p > 0
  {
    if e == 0 then 1 else 1024 * Power1024(e - 1)
  }

  lemma {:induction false} ReduceExponent(b: nat, e: nat)
    requires b > 0 && e <= 5
    ensures e <= Reduce(b).1 <==> b % Power1024(e) == 0
  {
    if e == 1 {
      assert Power1024(1) == 1024 * Power1024(0) == 1024;
    } else if e > 1 {
      assert Power1024(2) == 1024 * Power1024(1) == Mebi && Power1024(3) == 1024 * Power1024(2);
      assert Power1024(4) == 1024 * Power1024(3) && Power1024(5) == 1024 * Power1024(4);
      DivideBy1024(b, Power1024(e - 1));
      if b % 1024 == 0 {
        ReduceExponent(b / 1024, e - 1);
      }
    }
  }

  lemma {:induction false} ReduceValue(b: nat)
    requires b > 0
    ensures b == Reduce(b).0 * Power1024(Reduce(b).1)
  {
    if b % 1024 == 0 {
      ReduceValue(b / 1024);
      var m, p := Reduce(b / 1024).0, Power1024(Reduce(b / 1024).1);
      assert b == 1024 * (m * p) == m * (1024 * p);
    }
  }

  lemma ReduceFactors(b: nat)
    requires b > 0
    ensures var (m, e) := Reduce(b);
            && (e == 2 ==> b == m * Mebi) && (e == 3 ==> b == m * Gibi) && (e == 4 ==> b == m * Tebi)
            && (2 <= e <==> b % Mebi == 0) && (5 <= e <==> b % Pebi == 0)
  {
    ReduceValue(b);
    ReduceExponent(b, 2);
    ReduceExponent(b, 5);
    assert Power1024(1) == 1024 * Power1024(0) && Power1024(2) == 1024 * Power1024(1);
    assert Power1024(3) == 1024 * Power1024(2) && Power1024(4) == 1024 * Power1024(3);
    assert Power1024(5) == 1024 * Power1024(4);
  }

  predicate RoundTrips(b: nat) {
    ConvertMemory(MemoryQuantityToApi(b)) == Ok(b)
  }

  lemma NotSuffix(s: string, suffix: string)
    requires |suffix| == 2
    requires |s| >= 2 ==> s[|s| - 2] != suffix[0] || s[|s| - 1] != suffix[1]
    ensures !HasSuffix(s, suffix)
  {
    assert |s| >= 2 ==> s[|s| - 2..][0] == s[|s| - 2] && s[|s| - 2..][1] == s[|s| - 1];
  }

  /** The last character, or the last two, of a text that carries no API unit. */
  predicate Unitless(s: string) {
    s != "" &&
    var c := s[|s| - 1];
    IsDigit(c) || c == 'k' || (|s| >= 2 && c == 'i' && (s[|s| - 2] == 'K' || s[|s| - 2] == 'P' || s[|s| - 2] == 'E'))
  }

  lemma NoApiUnit(s: string)
    requires Unitless(s)
    ensures TextToApiIn(K8sToApi, s) == s
    ensures ConvertMemory(s) == Err(UnsupportedUnit)
  {
    forall e | e in ApiToK8s ensures !HasSuffix(s, e.0) {
      assert e.0[1] == 'B';
      NotSuffix(s, e.0);
    }
    forall e | e in K8sToApi ensures !HasSuffix(s, e.0) {
      assert e.0[0] == 'M' || e.0[0] == 'G' || e.0[0] == 'T';
      assert e.0[1] == 'i';
      NotSuffix(s, e.0);
    }
    assert Functional(ApiToK8s) && Functional(K8sToApi);
    ConvertMemoryByEntry(ApiToK8s, s);
    TextToApiByEntry(K8sToApi, s);
  }

  lemma NumeralIsUnitless(n: nat, exponent: nat)
    requires exponent !in {2, 3, 4}
    ensures Unitless(Numeral(n) + BinarySuffix(exponent))
  {
    NumeralValue(n);
    var num := Numeral(n);
    assert num[|num| - 1] in num;
  }

  lemma ApiUnit(m: nat, e: (string, string))
    requires e in K8sToApi
    ensures ConvertMemory(TextToApiIn(K8sToApi, Numeral(m) + e.0)) == Ok(Min(m * Scale(e.0), MaxQuantity))
  {
    NumeralValue(m);
    assert Functional(K8sToApi);
    SuffixOf(Numeral(m), e.0);
    TextToApiByEntry(K8sToApi, Numeral(m) + e.0);
    assert (e.1, e.0) in ApiToK8s;
    ConvertMemoryOfNumeral(Numeral(m), (e.1, e.0));
  }

  lemma RawText(b: nat)
    requires Unitless(QuantityText(b))
    ensures !RoundTrips(b) && MemoryQuantityToApi(b) == QuantityText(b)
    ensures ConvertMemory(QuantityText(b)) == Err(UnsupportedUnit)
  {
    NoApiUnit(QuantityText(b));
  }

  lemma OtherIsUnitless(b: nat)
    requires b < 1024 || Reduce(b).1 !in {2, 3, 4}
    ensures Unitless(QuantityText(b))
  {
    if b >= 1024 {
      NumeralIsUnitless(Reduce(b).0, Reduce(b).1);
    } else if b != 1000 {
      NumeralIsUnitless(b, 0);
      assert Numeral(b) + BinarySuffix(0) == Numeral(b);
    }
  }

  lemma ApiSizedExactly(b: nat)
    ensures b >= 1024 && 2 <= Reduce(b).1 <= 4 <==> b % Mebi == 0 && b % Pebi != 0
  {
    if b >= 1024 {
      ReduceFactors(b);
    } else {
      assert b % Mebi == b;
    }
  }

  lemma ReduceToScale(b: nat)
    requires b > 0 && 2 <= Reduce(b).1 <= 4
    ensures b == Reduce(b).0 * Scale(BinarySuffix(Reduce(b).1))
  {
    ReduceFactors(b);
  }

  lemma ApiSized(b: nat)
    requires 1024 <= b <= MaxQuantity && 2 <= Reduce(b).1 <= 4
    ensures RoundTrips(b)
  {
    ReduceToScale(b);
    var (m, e) := Reduce(b);
    var entry := (BinarySuffix(e), if e == 2 then "MB" else if e == 3 then "GB" else "TB");
    assert entry == K8sToApi[e - 2];
    ApiUnit(m, entry);
  }

  /**
  A memory quantity printed in canonical form, mapped to an API string and converted again keeps its value
  exactly when it is a whole number of mebibytes and not a whole number of pebibytes. For every other
  quantity the raw canonical text is returned, which ConvertMemory rejects.
  */
  lemma MemoryRoundTrip(b: nat)
    requires b <= MaxQuantity
    ensures RoundTrips(b) <==> b % Mebi == 0 && b % Pebi != 0
    ensures !RoundTrips(b) ==>
              MemoryQuantityToApi(b) == QuantityText(b) && ConvertMemory(QuantityText(b)) == Err(UnsupportedUnit)
  {
    ApiSizedExactly(b);
    if b >= 1024 && 2 <= Reduce(b).1 <= 4 {
      ApiSized(b);
    } else {
      OtherIsUnitless(b);
      RawText(b);
    }
  }

  lemma ApiAmount(k: nat, e: (string, string))
    requires e in ApiToK8s
    ensures (k * Scale(e.1)) % Mebi == 0
  {
    assert Scale("Mi") == Mebi && Scale("Gi") == 1024 * Mebi && Scale("Ti") == 0x10_0000 * Mebi;
    MebiDivides(k);
    MebiDivides(k * 1024);
    MebiDivides(k * 0x10_0000);
  }

  lemma MebiDivides(k: nat)
    ensures (k * Mebi) % Mebi == 0
  {
  }

  /**
  A quantity that still carries the text it was parsed from prints that text instead of the canonical form;
  then every memory string of the API comes back as it was.
  */
  lemma ParsedTextComesBack(num: string, e: (string, string))
    requires IsNumeral(num) && e in ApiToK8s
    ensures TextToApiIn(K8sToApi, num + e.1) == num + e.0
  {
    assert Functional(K8sToApi);
    SuffixOf(num, e.1);
    TextToApiByEntry(K8sToApi, num + e.1);
    assert (e.1, e.0) in K8sToApi;
  }

  lemma AmountRoundTrip(amount: nat)
    requires amount % Mebi == 0
    ensures RoundTrips(Min(amount, MaxQuantity)) <==> 0 < amount <= MaxQuantity && amount % Pebi != 0
  {
    MemoryRoundTrip(Min(amount, MaxQuantity));
  }

  /**
  For every memory string of the API: printed in canonical form, its amount survives the round trip through
  a Deployment iff it is positive, fits 63 bits and is not a multiple of 2^50; printed as it was parsed, the
  string itself comes back.
  */
  lemma MemoryStringRoundTrip(num: string, e: (string, string))
    requires IsNumeral(num) && e in ApiToK8s
    ensures ConvertMemory(num + e.0).Ok?
    ensures var amount := Value(num) * Scale(e.1);
            RoundTrips(ConvertMemory(num + e.0).value) <==>
              0 < amount < 0x8000_0000_0000_0000 && amount % 0x4_0000_0000_0000 != 0
    ensures TextToApiIn(K8sToApi, num + e.1) == num + e.0
  {
    ConvertMemoryOfNumeral(num, e);
    ApiAmount(Value(num), e);
    AmountRoundTrip(Value(num) * Scale(e.1));
    ParsedTextComesBack(num, e);
  }
}
