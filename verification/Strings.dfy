/** The text operations of Rust's standard library that the printers and parsers use. */
module Strings {
  import opened Wrappers

  function DigitChar(d: nat): char
    requires d < 10
  {
    "0123456789"[d]
  }

  predicate IsDigit(c: char) { '0' <= c <= '9' }

  function DigitValue(c: char): nat
    requires IsDigit(c)
  {
    c as nat - '0' as nat
  }

  /** `format!("{n}")` */
  function Decimal(n: nat): string {
    if n < 10 then [DigitChar(n)] else Decimal(n / 10) + [DigitChar(n % 10)]
  }

  /** The value of a list of digits. */
  function Digits(s: string): Option<nat> {
    if s == [] then Some(0)
    else
      var rest := Digits(s[..|s| - 1]);
      if rest.Some? && IsDigit(s[|s| - 1]) then Some(rest.value * 10 + DigitValue(s[|s| - 1])) else None
  }

  /** `str::parse` for an unsigned integer up to max: one sign, which can only be a plus, then digits. */
  function ParseUnsigned(s: string, max: nat): Option<nat> {
    var digits := if |s| > 1 && s[0] == '+' then s[1..] else s;
    if digits == [] then None
    else
      var n := Digits(digits);
      if n.Some? && n.value <= max then n else None
  }

  lemma {:induction false} DecimalDigits(n: nat)
    ensures Decimal(n) != [] && Digits(Decimal(n)) == Some(n)
    ensures forall i :: 0 <= i < |Decimal(n)| ==> IsDigit(Decimal(n)[i])
  {
    if n >= 10 {
      DecimalDigits(n / 10);
      assert Decimal(n)[..|Decimal(n)| - 1] == Decimal(n / 10);
    } else {
      assert Digits([]) == Some(0);
      assert Decimal(n)[..0] == [];
    }
  }

  lemma ParseDecimal(n: nat, max: nat)
    requires n <= max
    ensures ParseUnsigned(Decimal(n), max) == Some(n)
  {
    DecimalDigits(n);
  }

  predicate EndsWith(s: string, suffix: string) {
    |suffix| <= |s| && s[|s| - |suffix|..] == suffix
  }

  /** `trim_end_matches`: the suffix is taken off for as long as it is there. */
  function TrimEnd(s: string, suffix: string): string
    requires suffix != []
    decreases |s|
  {
    if EndsWith(s, suffix) then TrimEnd(s[..|s| - |suffix|], suffix) else s
  }

  /** `trim_start_matches` */
  function TrimStart(s: string, prefix: string): string
    requires prefix != []
    decreases |s|
  {
    if prefix <= s then TrimStart(s[|prefix|..], prefix) else s
  }

  lemma TrimOneEnd(s: string, suffix: string)
    requires suffix != []
    ensures TrimEnd(s + suffix, suffix) == TrimEnd(s, suffix)
  {
    assert (s + suffix)[|s|..] == suffix && (s + suffix)[..|s|] == s;
  }

  lemma TrimOneStart(s: string, prefix: string)
    requires prefix != []
    ensures TrimStart(prefix + s, prefix) == TrimStart(s, prefix)
  {
    assert (prefix + s)[|prefix|..] == s;
  }

  lemma {:induction false} TrimEndShape(s: string, suffix: string)
    requires suffix != []
    ensures !EndsWith(TrimEnd(s, suffix), suffix)
    ensures TrimEnd(s, suffix) <= s
    ensures TrimEnd(s, suffix) == s <==> !EndsWith(s, suffix)
    decreases |s|
  {
    if EndsWith(s, suffix) { TrimEndShape(s[..|s| - |suffix|], suffix); }
  }

  lemma {:induction false} TrimEndSplits(s: string, suffix: string)
    requires suffix != []
    ensures s == TrimEnd(s, suffix) + Repeat(suffix, Copies(s, suffix))
    decreases |s|
  {
    if EndsWith(s, suffix) {
      var t := s[..|s| - |suffix|];
      TrimEndSplits(t, suffix);
      Regroup(TrimEnd(t, suffix), Repeat(suffix, Copies(t, suffix)), suffix);
      assert s == t + suffix;
    } else {
      assert s + Repeat(suffix, 0) == s;
    }
  }

  lemma Regroup(a: string, b: string, c: string)
    ensures (a + b) + c == a + (b + c)
  {
  }

  function Repeat(s: string, k: nat): string {
    if k == 0 then [] else Repeat(s, k - 1) + s
  }

  /** How many copies TrimEnd takes off. */
  function Copies(s: string, suffix: string): nat
    requires suffix != []
    decreases |s|
  {
    if EndsWith(s, suffix) then 1 + Copies(s[..|s| - |suffix|], suffix) else 0
  }

  lemma {:induction false} TrimRepeated(s: string, suffix: string, k: nat)
    requires suffix != []
    ensures TrimEnd(s + Repeat(suffix, k), suffix) == TrimEnd(s, suffix)
  {
    if k == 0 {
      assert s + Repeat(suffix, 0) == s;
    } else {
      TrimRepeated(s, suffix, k - 1);
      TrimOneMore(s, Repeat(suffix, k - 1), Repeat(suffix, k), suffix);
    }
  }

  lemma TrimOneMore(s: string, copies: string, more: string, suffix: string)
    requires suffix != [] && more == copies + suffix
    requires TrimEnd(s + copies, suffix) == TrimEnd(s, suffix)
    ensures TrimEnd(s + more, suffix) == TrimEnd(s, suffix)
  {
    Regroup(s, copies, suffix);
    TrimOneEnd(s + copies, suffix);
  }

  lemma LastChar(s: string, suffix: string)
    requires suffix != []
    ensures EndsWith(s, suffix) ==> s[|s| - 1] == suffix[|suffix| - 1]
  {
    if EndsWith(s, suffix) {
      assert s[|s| - |suffix|..][|suffix| - 1] == s[|s| - 1];
    }
  }

  lemma NumberEndsInDigit(s: string, max: nat)
    requires ParseUnsigned(s, max).Some?
    ensures s != [] && IsDigit(s[|s| - 1])
  {
  }

  lemma {:induction false} TrimStartShape(s: string, prefix: string)
    requires prefix != []
    ensures !(prefix <= TrimStart(s, prefix))
    ensures |TrimStart(s, prefix)| <= |s|
    ensures prefix <= s ==> |TrimStart(s, prefix)| <= |s| - |prefix|
    decreases |s|
  {
    if prefix <= s { TrimStartShape(s[|prefix|..], prefix); }
  }

  predicate IsWhitespace(c: char) {
    || '\U{9}' <= c <= '\U{D}' || c == ' ' || c == '\U{85}' || c == '\U{A0}' || c == '\U{1680}'
    || '\U{2000}' <= c <= '\U{200A}' || c == '\U{2028}' || c == '\U{2029}' || c == '\U{202F}'
    || c == '\U{205F}' || c == '\U{3000}'
  }

  /** `trim` */
  function Trim(s: string): string
    decreases |s|
  {
    if s == [] then s
    else if IsWhitespace(s[0]) then Trim(s[1..])
    else if IsWhitespace(s[|s| - 1]) then Trim(s[..|s| - 1])
    else s
  }

  /** `split(c)` */
  function Split(s: string, c: char): (parts: seq<string>)
    ensures parts != []
  {
    if s == [] then [[]]
    else if s[0] == c then [[]] + Split(s[1..], c)
    else
      var rest := Split(s[1..], c);
      [[s[0]] + rest[0]] + rest[1..]
  }

  lemma {:induction false} SplitOne(s: string, c: char)
    requires c !in s
    ensures Split(s, c) == [s]
  {
    if s != [] {
      SplitOne(s[1..], c);
      assert [s[0]] + s[1..] == s;
    }
  }

  lemma {:induction false} SplitAt(a: string, b: string, c: char)
    requires c !in a
    ensures Split(a + [c] + b, c) == [a] + Split(b, c)
  {
    var s := a + [c] + b;
    if a == [] {
      assert s[1..] == b;
    } else {
      SplitAt(a[1..], b, c);
      assert s[1..] == a[1..] + [c] + b;
      assert [a[0]] + a[1..] == a;
    }
  }

  // ---- All spellings of a number ----

  /** A plus or none, any number of zeros, and the number. */
  function Spelling(plus: bool, zeros: nat, n: nat): string {
    (if plus then "+" else "") + (Repeat("0", zeros) + Decimal(n))
  }

  lemma DigitsAppend(s: string, d: nat)
    requires d < 10
    ensures Digits(s + [DigitChar(d)]) ==
            if Digits(s).Some? then Some(Digits(s).value * 10 + d) else None
  {
    var all := s + [DigitChar(d)];
    assert all[..|all| - 1] == s;
  }

  lemma {:induction false} ZerosAreNothing(zeros: nat)
    ensures Digits(Repeat("0", zeros)) == Some(0)
  {
    if zeros > 0 {
      ZerosAreNothing(zeros - 1);
      DigitsAppend(Repeat("0", zeros - 1), 0);
      assert [DigitChar(0)] == "0";
    }
  }

  lemma {:induction false} SpellingIsRead(zeros: nat, n: nat)
    ensures Digits(Repeat("0", zeros) + Decimal(n)) == Some(n)
    ensures forall i :: 0 <= i < |Repeat("0", zeros) + Decimal(n)| ==> IsDigit((Repeat("0", zeros) + Decimal(n))[i])
    decreases n
  {
    DecimalDigits(n);
    AllZeros(zeros);
    if n < 10 {
      ZerosAreNothing(zeros);
      DigitsAppend(Repeat("0", zeros), n);
    } else {
      SpellingIsRead(zeros, n / 10);
      Regroup(Repeat("0", zeros), Decimal(n / 10), [DigitChar(n % 10)]);
      DigitsAppend(Repeat("0", zeros) + Decimal(n / 10), n % 10);
    }
  }

  lemma {:induction false} AllZeros(zeros: nat)
    ensures forall i :: 0 <= i < |Repeat("0", zeros)| ==> Repeat("0", zeros)[i] == '0'
  {
    if zeros > 0 { AllZeros(zeros - 1); }
  }

  lemma OneDigitMore(zeros: nat, m: nat, d: nat) returns (zeros': nat)
    requires d < 10
    ensures Repeat("0", zeros) + Decimal(m) + [DigitChar(d)] == Repeat("0", zeros') + Decimal(m * 10 + d)
  {
    if m == 0 {
      zeros' := zeros + 1;
      assert Decimal(0) == "0" && Decimal(d) == [DigitChar(d)];
      assert Repeat("0", zeros') == Repeat("0", zeros) + "0";
    } else {
      zeros' := zeros;
      DecimalStep(m, d);
      Regroup(Repeat("0", zeros), Decimal(m), [DigitChar(d)]);
    }
  }

  lemma DecimalStep(m: nat, d: nat)
    requires m > 0 && d < 10
    ensures Decimal(m * 10 + d) == Decimal(m) + [DigitChar(d)]
  {
  }

  lemma LastDigit(s: string) returns (d: nat)
    requires s != [] && Digits(s).Some?
    ensures d < 10 && s == s[..|s| - 1] + [DigitChar(d)]
    ensures Digits(s[..|s| - 1]).Some? && Digits(s).value == Digits(s[..|s| - 1]).value * 10 + d
  {
    d := DigitValue(s[|s| - 1]);
  }

  lemma {:induction false} ReadIsSpelling(s: string) returns (zeros: nat)
    requires s != [] && Digits(s).Some?
    ensures s == Repeat("0", zeros) + Decimal(Digits(s).value)
    decreases |s|
  {
    var d := LastDigit(s);
    var t := s[..|s| - 1];
    if t == [] {
      zeros := 0;
      NoZeros([DigitChar(d)]);
    } else {
      zeros := ReadIsSpelling(t);
      zeros := OneDigitMore(zeros, Digits(t).value, d);
    }
  }

  lemma NoZeros(s: string)
    ensures Repeat("0", 0) + s == s && [] + s == s
  {
  }

  /** The accepted texts of a number are its spellings, if it is in range. */
  lemma NumberExactlyWhen(s: string, max: nat, n: nat)
    ensures ParseUnsigned(s, max) == Some(n) <==> n <= max && exists plus, zeros :: s == Spelling(plus, zeros, n)
  {
    if ParseUnsigned(s, max) == Some(n) {
      var plus := |s| > 1 && s[0] == '+';
      var digits := if plus then s[1..] else s;
      var zeros := ReadIsSpelling(digits);
      SignOff(plus, digits);
      assert plus ==> s == "+" + digits;
      assert s == Spelling(plus, zeros, n);
    }
    if plus, zeros :| s == Spelling(plus, zeros, n) {
      var digits := Repeat("0", zeros) + Decimal(n);
      SpellingIsRead(zeros, n);
      DecimalDigits(n);
      SignOff(plus, digits);
      assert IsDigit(digits[0]);
    }
  }

  lemma SignOff(plus: bool, digits: string)
    ensures if plus then ("+" + digits)[0] == '+' && ("+" + digits)[1..] == digits else "" + digits == digits
  {
  }

  // ---- What trimming and splitting take away ----

  predicate AllWhite(s: string) { forall i :: 0 <= i < |s| ==> IsWhitespace(s[i]) }

  /** Nothing that `trim` takes away at either end. */
  predicate Bare(s: string) { s != [] ==> !IsWhitespace(s[0]) && !IsWhitespace(s[|s| - 1]) }

  lemma {:induction false} TrimSplits(s: string) returns (before: string, after: string)
    ensures s == before + Trim(s) + after && AllWhite(before) && AllWhite(after) && Bare(Trim(s))
    decreases |s|
  {
    before, after := "", "";
    if s != [] {
      var n := |s| - 1;
      if IsWhitespace(s[0]) {
        before, after := TrimSplits(s[1..]);
        Regroup([s[0]], before + Trim(s), after);
        Regroup([s[0]], before, Trim(s));
        before := [s[0]] + before;
        assert s == [s[0]] + s[1..];
      } else if IsWhitespace(s[n]) {
        before, after := TrimSplits(s[..n]);
        Regroup(before + Trim(s), after, [s[n]]);
        after := after + [s[n]];
        assert s == s[..n] + [s[n]];
      }
    }
  }

  lemma {:induction false} TrimmedAfter(text: string, after: string)
    requires AllWhite(after) && Bare(text)
    ensures Trim(text + after) == text
    decreases |after|
  {
    var s := text + after;
    if after == [] {
      assert s == text;
    } else if text == [] {
      assert s == after && s[1..] == text + after[1..];
      TrimmedAfter(text, after[1..]);
    } else {
      var n := |after| - 1;
      assert s[..|s| - 1] == text + after[..n] && s[0] == text[0];
      TrimmedAfter(text, after[..n]);
    }
  }

  lemma {:induction false} Trimmed(before: string, text: string, after: string)
    requires AllWhite(before) && AllWhite(after) && Bare(text)
    ensures Trim(before + text + after) == text
    decreases |before|
  {
    if before == [] {
      assert before + text == text;
      TrimmedAfter(text, after);
    } else {
      Trimmed(before[1..], text, after);
      assert (before + text + after)[1..] == before[1..] + text + after;
    }
  }

  lemma {:induction false} TwoParts(s: string, c: char)
    requires |Split(s, c)| == 2
    ensures (var parts := Split(s, c); s == parts[0] + [c] + parts[1] && c !in parts[0] && c !in parts[1])
  {
    if s != [] {
      if s[0] == c {
        OnePart(s[1..], c);
        assert s == [] + [c] + s[1..];
      } else {
        TwoParts(s[1..], c);
        var rest := Split(s[1..], c);
        assert s == [s[0]] + (rest[0] + [c] + rest[1]);
      }
    }
  }

  lemma {:induction false} OnePart(s: string, c: char)
    requires |Split(s, c)| == 1
    ensures Split(s, c) == [s] && c !in s
  {
    if s != [] {
      OnePart(s[1..], c);
      assert s == [s[0]] + s[1..];
    }
  }

  // ---- Repeated prefixes ----

  lemma {:induction false} TrimStartSplits(s: string, prefix: string) returns (k: nat)
    requires prefix != []
    ensures s == Repeat(prefix, k) + TrimStart(s, prefix) && (prefix <= s ==> k >= 1)
    decreases |s|
  {
    if prefix <= s {
      var t := s[|prefix|..];
      var j := TrimStartSplits(t, prefix);
      RepeatFront(prefix, j);
      Regroup(prefix, Repeat(prefix, j), TrimStart(t, prefix));
      assert s == prefix + t;
      k := j + 1;
    } else {
      k := 0;
      assert s == Repeat(prefix, 0) + s;
    }
  }

  lemma {:induction false} RepeatFront(s: string, k: nat)
    ensures Repeat(s, k + 1) == s + Repeat(s, k)
  {
    if k == 0 {
      assert Repeat(s, 0) == "" && "" + s == s + "";
    } else {
      RepeatFront(s, k - 1);
      Regroup(s, Repeat(s, k - 1), s);
    }
  }

  lemma {:induction false} TrimStartRepeated(prefix: string, k: nat, s: string)
    requires prefix != []
    ensures TrimStart(Repeat(prefix, k) + s, prefix) == TrimStart(s, prefix)
  {
    if k == 0 {
      assert Repeat(prefix, 0) + s == s;
    } else {
      TrimStartRepeated(prefix, k - 1, s);
      RepeatFront(prefix, k - 1);
      Regroup(prefix, Repeat(prefix, k - 1), s);
      TrimOneStart(Repeat(prefix, k - 1) + s, prefix);
    }
  }
}
