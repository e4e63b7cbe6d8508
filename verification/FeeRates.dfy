/** Fee rates as text (kld/src/api/payloads.rs, FeeRate). */
module FeeRates {
  import opened Wrappers
  import opened Integers
  import opened Strings

  const U32_MAX: nat := 0xffff_ffff

  datatype FeeRate = Urgent | Normal | Slow | PerKw(rate: U32) | PerKb(rate: U32)

  datatype ParseError = ExpectedU32ForPerKw | ExpectedU32ForPerKb | UnknownFeeRate

  function Serialize(f: FeeRate): string {
    match f
    case Urgent => "urgent"
    case Normal => "normal"
    case Slow => "slow"
    case PerKw(x) => Decimal(x) + "perkw"
    case PerKb(x) => Decimal(x) + "perkb"
  }

  function FromStr(s: string): Result<FeeRate, ParseError> {
    if s == "urgent" then Ok(Urgent)
    else if s == "normal" then Ok(Normal)
    else if s == "slow" then Ok(Slow)
    else if EndsWith(s, "perkw") then
      var n := ParseUnsigned(TrimEnd(s, "perkw"), U32_MAX);
      if n.Some? then Ok(PerKw(n.value)) else Err(ExpectedU32ForPerKw)
    else if EndsWith(s, "perkb") then
      var n := ParseUnsigned(TrimEnd(s, "perkb"), U32_MAX);
      if n.Some? then Ok(PerKb(n.value)) else Err(ExpectedU32ForPerKb)
    else Err(UnknownFeeRate)
  }

  lemma NoUnitInDecimal(n: nat, units: string)
    requires |units| == 5 && units[4] !in "0123456789"
    ensures !EndsWith(Decimal(n), units)
  {
    DecimalDigits(n);
    LastChar(Decimal(n), units);
  }

  /** Parsing is a left inverse of printing on every fee rate, for every 32-bit rate. */
  lemma RoundTrip(f: FeeRate)
    ensures FromStr(Serialize(f)) == Ok(f)
  {
    match f {
      case PerKw(x) => WithUnit(x, "perkw");
      case PerKb(x) =>
        WithUnit(x, "perkb");
        LastChar(Decimal(x) + "perkb", "perkw");
      case _ =>
    }
  }

  predicate IsName(s: string) { s == "urgent" || s == "normal" || s == "slow" }

  lemma DigitFirstIsNoName(s: string)
    requires s != [] && IsDigit(s[0])
    ensures !IsName(s)
  {
  }

  lemma WithUnit(x: U32, units: string)
    requires |units| == 5 && units[4] !in "0123456789"
    ensures EndsWith(Decimal(x) + units, units) && !IsName(Decimal(x) + units)
    ensures (Decimal(x) + units)[|Decimal(x) + units| - 1] == units[4]
    ensures ParseUnsigned(TrimEnd(Decimal(x) + units, units), U32_MAX) == Some(x)
  {
    TrimOneEnd(Decimal(x), units);
    NoUnitInDecimal(x, units);
    ParseDecimal(x, U32_MAX);
    DecimalDigits(x);
    DigitFirstIsNoName(Decimal(x) + units);
  }

  /** A number and then the unit once or more. */
  ghost predicate Rate(s: string, n: nat, units: string) {
    exists plus: bool, zeros: nat, k: nat :: k >= 1 && s == Spelling(plus, zeros, n) + Repeat(units, k)
  }

  lemma RateIsRead(s: string, n: U32, units: string)
    requires |units| == 5 && units[4] !in "0123456789" && Rate(s, n, units)
    ensures EndsWith(s, units) && ParseUnsigned(TrimEnd(s, units), U32_MAX) == Some(n)
  {
    var plus: bool, zeros: nat, k: nat :| k >= 1 && s == Spelling(plus, zeros, n) + Repeat(units, k);
    var d := Spelling(plus, zeros, n);
    NumberExactlyWhen(d, U32_MAX, n);
    NumberEndsInDigit(d, U32_MAX);
    LastChar(d, units);
    TrimRepeated(d, units, k);
    Regroup(d, Repeat(units, k - 1), units);
    assert s[|s| - 5..] == units;
  }

  lemma ReadIsRate(s: string, n: nat, units: string)
    requires |units| == 5 && EndsWith(s, units) && ParseUnsigned(TrimEnd(s, units), U32_MAX) == Some(n)
    ensures Rate(s, n, units)
  {
    TrimEndSplits(s, units);
    NumberExactlyWhen(TrimEnd(s, units), U32_MAX, n);
    var plus, zeros :| TrimEnd(s, units) == Spelling(plus, zeros, n);
    assert Copies(s, units) >= 1 && s == Spelling(plus, zeros, n) + Repeat(units, Copies(s, units));
  }

  /** The texts of each fee rate: its name, or a number, of whatever spelling `parse` takes, and the unit once
      or more. */
  ghost predicate Denotes(s: string, f: FeeRate) {
    match f
    case Urgent => s == "urgent"
    case Normal => s == "normal"
    case Slow => s == "slow"
    case PerKw(n) => Rate(s, n, "perkw")
    case PerKb(n) => Rate(s, n, "perkb")
  }

  lemma UnitsApart(s: string)
    ensures EndsWith(s, "perkw") ==> !EndsWith(s, "perkb") && !IsName(s)
    ensures EndsWith(s, "perkb") ==> !IsName(s)
  {
    LastChar(s, "perkw");
    LastChar(s, "perkb");
  }

  /** Every text that is accepted, and as what. */
  lemma TextsExactly(s: string, f: FeeRate)
    ensures FromStr(s) == Ok(f) <==> Denotes(s, f)
  {
    UnitsApart(s);
    match f {
      case PerKw(n) =>
        if Denotes(s, f) { RateIsRead(s, n, "perkw"); }
        if FromStr(s) == Ok(f) { ReadIsRate(s, n, "perkw"); }
      case PerKb(n) =>
        if Denotes(s, f) { RateIsRead(s, n, "perkb"); }
        if FromStr(s) == Ok(f) { ReadIsRate(s, n, "perkb"); }
      case _ =>
    }
  }

  /** Every text that is refused, and why: the unit tells which number is missing. */
  lemma RefusalsExactly(s: string)
    ensures (var refused := !exists f :: Denotes(s, f);
      && (FromStr(s) == Err(ExpectedU32ForPerKw) <==> refused && EndsWith(s, "perkw"))
      && (FromStr(s) == Err(ExpectedU32ForPerKb) <==> refused && EndsWith(s, "perkb"))
      && (FromStr(s) == Err(UnknownFeeRate) <==> refused && !EndsWith(s, "perkw") && !EndsWith(s, "perkb")))
  {
    UnitsApart(s);
    forall f ensures FromStr(s) == Ok(f) <==> Denotes(s, f) { TextsExactly(s, f); }
    if FromStr(s).Ok? { assert Denotes(s, FromStr(s).value); }
  }
}
