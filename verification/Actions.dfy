/** User-interface actions as text (tui/src/action.rs). */
module Actions {
  import opened Wrappers
  import opened Integers
  import opened Strings

  const U16_MAX: nat := 0xffff

  /** Commands, times and key events are printed by other code; `shown` is what that code prints. */
  datatype Action =
    | Tick | Render | Resize(width: U16, height: U16) | Suspend | Resume | Quit | Refresh
    | Error(message: string) | Help | SwitchTab | Tab(name: string)
    | NavUp | NavDown | NavLeft | NavRight | Command(shown: string) | Execute(shown: string, input: string)
    | EnterCmdMode | ExitCmdMode | SwitchInputs | TriggerExecute | History(shown: string) | Input(shown: string)

  function Display(a: Action): string {
    match a
    case Tick => "Tick"
    case Render => "Render"
    case Resize(w, h) => "Resize(" + ((Decimal(w) + "," + Decimal(h)) + ")")
    case Suspend => "Suspend"
    case Resume => "Resume"
    case Quit => "Quit"
    case Refresh => "Refresh"
    case Error(e) => "Error(" + (e + ")")
    case Help => "Help"
    case SwitchTab => "SwitchTab"
    case Tab(t) => "Tab(" + (t + ")")
    case NavUp => "NavUp"
    case NavDown => "NavDown"
    case NavLeft => "NavLeft"
    case NavRight => "NavRight"
    case Command(c) => "Command(" + (c + ")")
    case Execute(c, s) => "Execute(" + (c + ", " + s + ")")
    case EnterCmdMode => "EnterCmdMode"
    case ExitCmdMode => "ExitCmdMode"
    case SwitchInputs => "SwitchInputs"
    case TriggerExecute => "TriggerExecute"
    case History(t) => "History(" + (t + ")")
    case Input(k) => "Input(" + (k + ")")
  }

  function Unit(s: string): Option<Action> {
    if s == "Tick" then Some(Tick)
    else if s == "Render" then Some(Render)
    else if s == "Suspend" then Some(Suspend)
    else if s == "Resume" then Some(Resume)
    else if s == "Quit" then Some(Quit)
    else if s == "Refresh" then Some(Refresh)
    else if s == "Help" then Some(Help)
    else if s == "SwitchTab" then Some(SwitchTab)
    else if s == "NavUp" then Some(NavUp)
    else if s == "NavDown" then Some(NavDown)
    else if s == "NavLeft" then Some(NavLeft)
    else if s == "NavRight" then Some(NavRight)
    else if s == "EnterCmdMode" then Some(EnterCmdMode)
    else if s == "ExitCmdMode" then Some(ExitCmdMode)
    else if s == "SwitchInputs" then Some(SwitchInputs)
    else if s == "TriggerExecute" then Some(TriggerExecute)
    else None
  }

  datatype ParseError = BadNumber | BadResize | UnknownVariant

  function VisitStr(s: string): Result<Action, ParseError> {
    if Unit(s).Some? then Ok(Unit(s).value)
    else if "Error(" <= s then Ok(Error(TrimEnd(TrimStart(s, "Error("), ")")))
    else if "Resize(" <= s then SizeOf(TrimEnd(TrimStart(s, "Resize("), ")"))
    else Err(UnknownVariant)
  }

  function SizeOf(s: string): Result<Action, ParseError> {
    var parts := Split(s, ',');
    if |parts| != 2 then Err(BadResize) else
    var w := ParseUnsigned(Trim(parts[0]), U16_MAX);
    var h := ParseUnsigned(Trim(parts[1]), U16_MAX);
    if w.None? || h.None? then Err(BadNumber) else Ok(Resize(w.value, h.value))
  }

  /** The actions that a key binding can name. */
  predicate Nameable(a: Action) {
    match a
    case Tab(_) => false
    case Command(_) => false
    case Execute(_, _) => false
    case History(_) => false
    case Input(_) => false
    case Error(e) => !("Error(" <= e) && !EndsWith(e, ")")
    case _ => true
  }

  // ---- Texts that start with a name and a bracket ----

  lemma BracketIsNoUnit(s: string, i: nat)
    requires i < |s| && s[i] == '('
    ensures Unit(s).None?
  {
  }

  lemma ErrorPrefix(t: string)
    ensures VisitStr("Error(" + t) == Ok(Error(TrimEnd(TrimStart(t, "Error("), ")")))
  {
    BracketIsNoUnit("Error(" + t, 5);
    TrimOneStart(t, "Error(");
  }

  lemma ResizePrefix(t: string)
    ensures VisitStr("Resize(" + t) == SizeOf(TrimEnd(TrimStart(t, "Resize("), ")"))
  {
    var s := "Resize(" + t;
    BracketIsNoUnit(s, 6);
    TrimOneStart(t, "Resize(");
    assert s[0] == 'R';
  }

  /** No text of another variant is accepted. */
  lemma OtherPrefix(name: string, t: string)
    requires name in ["Tab(", "Command(", "Execute(", "History(", "Input("]
    ensures VisitStr(name + t) == Err(UnknownVariant)
  {
    var s := name + t;
    assert s[|name| - 1] == '(';
    BracketIsNoUnit(s, |name| - 1);
    assert s[0] == name[0] && s[1] == name[1];
  }

  // ---- Errors ----

  lemma BracketStaysOut(e: string)
    ensures "Error(" <= e + ")" <==> "Error(" <= e
  {
    if "Error(" <= e + ")" {
      assert (e + ")")[5] == "Error("[5];
      assert (e + ")")[..|e|] == e;
    }
  }

  /** The trimming takes off exactly what printing put on, unless the message offers more of it. */
  lemma ErrorMessage(e: string)
    ensures TrimEnd(TrimStart(e + ")", "Error("), ")") == e <==> !("Error(" <= e) && !EndsWith(e, ")")
  {
    var t := TrimStart(e + ")", "Error(");
    BracketStaysOut(e);
    TrimStartShape(e + ")", "Error(");
    if "Error(" <= e {
      TrimEndShape(t, ")");
    } else {
      TrimOneEnd(e, ")");
      TrimEndShape(e, ")");
    }
  }

  /** A message that ends with a bracket comes back without it. */
  lemma LastBracketIsLost(e: string)
    requires !("Error(" <= e) && !EndsWith(e, ")")
    ensures VisitStr(Display(Error(e + ")"))) == Ok(Error(e))
  {
    ErrorPrefix((e + ")") + ")");
    BracketStaysOut(e);
    BracketStaysOut(e + ")");
    TrimOneEnd(e + ")", ")");
    TrimOneEnd(e, ")");
    TrimEndShape(e, ")");
  }

  lemma ErrorText(e: string)
    ensures VisitStr(Display(Error(e))) == Ok(Error(e)) <==> Nameable(Error(e))
  {
    ErrorPrefix(e + ")");
    ErrorMessage(e);
  }

  // ---- Sizes ----

  lemma NumberIsPlain(n: nat)
    ensures Trim(Decimal(n)) == Decimal(n) && ',' !in Decimal(n)
  {
    DecimalDigits(n);
  }

  lemma SizeText(w: U16, h: U16)
    ensures SizeOf(Decimal(w) + "," + Decimal(h)) == Ok(Resize(w, h))
  {
    NumberIsPlain(w);
    NumberIsPlain(h);
    SplitAt(Decimal(w), Decimal(h), ',');
    SplitOne(Decimal(h), ',');
    ParseDecimal(w, U16_MAX);
    ParseDecimal(h, U16_MAX);
  }

  lemma SizeEnds(w: nat, h: nat)
    ensures (var s := Decimal(w) + "," + Decimal(h); s != [] && IsDigit(s[0]) && IsDigit(s[|s| - 1]))
  {
    DecimalDigits(w);
    DecimalDigits(h);
    var s := Decimal(w) + "," + Decimal(h);
    assert s[0] == Decimal(w)[0] && s[|s| - 1] == Decimal(h)[|Decimal(h)| - 1];
  }

  lemma DigitsKeepTheirEnds(inner: string)
    requires inner != [] && IsDigit(inner[0]) && IsDigit(inner[|inner| - 1])
    ensures TrimEnd(TrimStart(inner + ")", "Resize("), ")") == inner
  {
    var s := inner + ")";
    assert s[0] == inner[0];
    assert !("Resize(" <= s);
    TrimOneEnd(inner, ")");
    LastChar(inner, ")");
  }

  lemma ResizeText(w: U16, h: U16)
    ensures VisitStr(Display(Resize(w, h))) == Ok(Resize(w, h))
  {
    SizeEnds(w, h);
    DigitsKeepTheirEnds(Decimal(w) + "," + Decimal(h));
    SizeText(w, h);
    ResizePrefix((Decimal(w) + "," + Decimal(h)) + ")");
  }

  // ---- All actions ----

  lemma UnitText(a: Action)
    requires !a.Resize? && !a.Error? && !a.Tab? && !a.Command? && !a.Execute? && !a.History? && !a.Input?
    ensures Unit(Display(a)) == Some(a)
  {
  }

  /** Printing and parsing give back an action exactly when it is nameable. */
  lemma RoundTripExactly(a: Action)
    ensures VisitStr(Display(a)) == Ok(a) <==> Nameable(a)
  {
    match a {
      case Error(e) => ErrorText(e);
      case Resize(w, h) => ResizeText(w, h);
      case Tab(t) => OtherText(a, "Tab(", t + ")");
      case Command(c) => OtherText(a, "Command(", c + ")");
      case Execute(c, s) => OtherText(a, "Execute(", c + ", " + s + ")");
      case History(t) => OtherText(a, "History(", t + ")");
      case Input(k) => OtherText(a, "Input(", k + ")");
      case _ => UnitText(a);
    }
  }

  /** The actions with contents are printed with them in brackets behind the name. */
  lemma PrintedInBrackets(shown: string, input: string, w: U16, h: U16)
    ensures Display(Error(shown)) == "Error(" + shown + ")" && Display(Tab(shown)) == "Tab(" + shown + ")"
    ensures Display(Command(shown)) == "Command(" + shown + ")" && Display(Input(shown)) == "Input(" + shown + ")"
    ensures Display(History(shown)) == "History(" + shown + ")"
    ensures Display(Execute(shown, input)) == "Execute(" + shown + ", " + input + ")"
    ensures Display(Resize(w, h)) == "Resize(" + Decimal(w) + "," + Decimal(h) + ")"
  {
    Regroup("Error(", shown, ")");
    Regroup("Tab(", shown, ")");
    Regroup("Command(", shown, ")");
    Regroup("Input(", shown, ")");
    Regroup("History(", shown, ")");
    Bracketed("Execute(", shown, ", ", input);
    Bracketed("Resize(", Decimal(w), ",", Decimal(h));
  }

  lemma Bracketed(name: string, a: string, between: string, b: string)
    ensures name + ((a + between + b) + ")") == name + a + between + b + ")"
  {
  }

  lemma OtherText(a: Action, name: string, t: string)
    requires name in ["Tab(", "Command(", "Execute(", "History(", "Input("] && Display(a) == name + t
    ensures VisitStr(Display(a)).Err?
  {
    OtherPrefix(name, t);
  }

  /** Whatever text is accepted, the action read from it can be printed and read again: parsing any
      text, printing and parsing once more changes nothing. */
  lemma ParsedIsNameable(s: string)
    requires VisitStr(s).Ok?
    ensures Nameable(VisitStr(s).value)
    ensures VisitStr(Display(VisitStr(s).value)) == VisitStr(s)
  {
    if Unit(s).None? && "Error(" <= s {
      var t := TrimStart(s, "Error(");
      TrimStartShape(s, "Error(");
      TrimEndShape(t, ")");
    }
    RoundTripExactly(VisitStr(s).value);
  }

  // ---- All texts that are read ----

  /** The texts of the actions without contents. */
  predicate UnitIs(s: string, a: Action) {
    match a
    case Tick => s == "Tick"
    case Render => s == "Render"
    case Suspend => s == "Suspend"
    case Resume => s == "Resume"
    case Quit => s == "Quit"
    case Refresh => s == "Refresh"
    case Help => s == "Help"
    case SwitchTab => s == "SwitchTab"
    case NavUp => s == "NavUp"
    case NavDown => s == "NavDown"
    case NavLeft => s == "NavLeft"
    case NavRight => s == "NavRight"
    case EnterCmdMode => s == "EnterCmdMode"
    case ExitCmdMode => s == "ExitCmdMode"
    case SwitchInputs => s == "SwitchInputs"
    case TriggerExecute => s == "TriggerExecute"
    case _ => false
  }

  lemma UnitExactlyWhen(s: string, a: Action)
    ensures Unit(s) == Some(a) <==> UnitIs(s, a)
  {
    if UnitIs(s, a) {
      UnitText(a);
      assert Display(a) == s;
    }
  }

  /** The contents with their bracket name once or more in front and any number of brackets behind. */
  predicate Wraps(s: string, name: string, k: nat, inner: string, j: nat) {
    k >= 1 && s == Repeat(name, k) + inner + Repeat(")", j)
  }

  lemma NameStaysOut(name: string, inner: string, j: nat)
    requires ')' !in name
    ensures name <= inner + Repeat(")", j) ==> name <= inner
  {
    var s := inner + Repeat(")", j);
    if name <= s {
      assert forall i :: 0 <= i < |name| ==> name[i] == s[i] && name[i] in name;
      LongEnough(name, inner, j);
      assert s[..|name|] == inner[..|name|];
    }
  }

  lemma LongEnough(name: string, inner: string, j: nat)
    requires |name| <= |inner| + |Repeat(")", j)|
    requires forall i :: 0 <= i < |name| ==> name[i] == (inner + Repeat(")", j))[i] != ')'
    ensures |name| <= |inner|
  {
    AllBrackets(j);
    BracketAt(inner, j);
  }

  lemma BracketAt(inner: string, j: nat)
    ensures j > 0 ==> |inner| < |inner + Repeat(")", j)| && (inner + Repeat(")", j))[|inner|] == ')'
  {
    AllBrackets(j);
  }

  lemma {:induction false} AllBrackets(j: nat)
    ensures |Repeat(")", j)| == j && forall i :: 0 <= i < j ==> Repeat(")", j)[i] == ')'
  {
    if j > 0 { AllBrackets(j - 1); }
  }

  /** The two trimmings together take off exactly the wrapping. */
  lemma Unwrapped(s: string, name: string, k: nat, inner: string, j: nat)
    requires name != [] && ')' !in name && Wraps(s, name, k, inner, j)
    requires !(name <= inner) && !EndsWith(inner, ")")
    ensures name <= s && TrimEnd(TrimStart(s, name), ")") == inner
  {
    var t := inner + Repeat(")", j);
    NameStaysOut(name, inner, j);
    Regroup(Repeat(name, k), inner, Repeat(")", j));
    TrimStartRepeated(name, k, t);
    TrimRepeated(inner, ")", j);
    TrimEndShape(inner, ")");
    RepeatFront(name, k - 1);
    Regroup(name, Repeat(name, k - 1), t);
  }

  lemma Unwrap(s: string, name: string) returns (k: nat, j: nat)
    requires name != [] && name <= s
    ensures (var inner := TrimEnd(TrimStart(s, name), ")");
      Wraps(s, name, k, inner, j) && !(name <= inner) && !EndsWith(inner, ")"))
  {
    k := TrimStartSplits(s, name);
    var t := TrimStart(s, name);
    TrimStartShape(s, name);
    TrimEndShape(t, ")");
    TrimEndSplits(t, ")");
    j := Copies(t, ")");
    Regroup(Repeat(name, k), TrimEnd(t, ")"), Repeat(")", j));
  }

  /** A spelling of the number, with white space around it or none. */
  ghost predicate Number(s: string, n: nat) {
    exists before, plus, zeros, after ::
      AllWhite(before) && AllWhite(after) && s == before + Spelling(plus, zeros, n) + after
  }

  lemma NumberEnds(s: string, n: nat)
    requires Number(s, n)
    ensures s != [] && (IsWhitespace(s[0]) || s[0] == '+' || IsDigit(s[0]))
    ensures IsWhitespace(s[|s| - 1]) || IsDigit(s[|s| - 1])
    ensures ',' !in s
  {
    var before, plus, zeros, after :|
      AllWhite(before) && AllWhite(after) && s == before + Spelling(plus, zeros, n) + after;
    var text := Spelling(plus, zeros, n);
    SpellingChars(plus, zeros, n);
    assert before != [] ==> s[0] == before[0];
    assert before == [] ==> s[0] == text[0];
    assert after != [] ==> s[|s| - 1] == after[|after| - 1];
    assert after == [] ==> s[|s| - 1] == text[|text| - 1];
    assert forall c :: c in s ==> c in before || c in text || c in after;
  }

  lemma SpellingChars(plus: bool, zeros: nat, n: nat)
    ensures (var s := Spelling(plus, zeros, n);
      && s != [] && (s[0] == '+' || IsDigit(s[0])) && IsDigit(s[|s| - 1])
      && (forall c :: c in s ==> c == '+' || IsDigit(c)))
  {
    var digits := Repeat("0", zeros) + Decimal(n);
    SpellingIsRead(zeros, n);
    DecimalDigits(n);
    SignOff(plus, digits);
  }

  lemma NumberIsParsed(s: string, n: nat)
    ensures n <= U16_MAX && Number(s, n) <==> ParseUnsigned(Trim(s), U16_MAX) == Some(n)
  {
    NumberExactlyWhen(Trim(s), U16_MAX, n);
    if ParseUnsigned(Trim(s), U16_MAX) == Some(n) {
      var before, after := TrimSplits(s);
      var plus, zeros :| Trim(s) == Spelling(plus, zeros, n);
      assert s == before + Spelling(plus, zeros, n) + after;
    }
    if n <= U16_MAX && Number(s, n) {
      var before, plus, zeros, after :|
        AllWhite(before) && AllWhite(after) && s == before + Spelling(plus, zeros, n) + after;
      SpellingChars(plus, zeros, n);
      Trimmed(before, Spelling(plus, zeros, n), after);
    }
  }

  /** Two numbers and a comma between them. */
  ghost predicate Sizes(s: string, w: nat, h: nat) {
    exists left, right :: Number(left, w) && Number(right, h) && s == left + [','] + right
  }

  lemma SizeExactlyWhen(s: string, w: U16, h: U16)
    ensures SizeOf(s) == Ok(Resize(w, h)) <==> Sizes(s, w, h)
  {
    if SizeOf(s) == Ok(Resize(w, h)) {
      TwoParts(s, ',');
      var parts := Split(s, ',');
      NumberIsParsed(parts[0], w);
      NumberIsParsed(parts[1], h);
    }
    if left, right :| Number(left, w) && Number(right, h) && s == left + [','] + right {
      NumberEnds(left, w);
      NumberEnds(right, h);
      SplitAt(left, right, ',');
      SplitOne(right, ',');
      NumberIsParsed(left, w);
      NumberIsParsed(right, h);
    }
  }

  lemma SizesAreBare(s: string, w: nat, h: nat)
    requires Sizes(s, w, h)
    ensures !("Resize(" <= s) && !EndsWith(s, ")")
  {
    var left, right :| Number(left, w) && Number(right, h) && s == left + [','] + right;
    NumberEnds(left, w);
    NumberEnds(right, h);
    assert s[0] == left[0] && s[|s| - 1] == right[|right| - 1];
    LastChar(s, ")");
  }

  /** The texts of each action, a list that no reading is missing from. */
  ghost predicate Denotes(s: string, a: Action) {
    match a
    case Error(e) => !("Error(" <= e) && !EndsWith(e, ")") && exists k, j :: Wraps(s, "Error(", k, e, j)
    case Resize(w, h) => exists k, inner, j :: Wraps(s, "Resize(", k, inner, j) && Sizes(inner, w, h)
    case _ => UnitIs(s, a)
  }

  lemma BracketedIsNoUnit(s: string, name: string)
    requires name == "Error(" || name == "Resize("
    ensures name <= s ==> Unit(s).None? && !((if name == "Error(" then "Resize(" else "Error(") <= s)
  {
    if name <= s {
      assert s[|name| - 1] == name[|name| - 1] && s[0] == name[0];
      BracketIsNoUnit(s, |name| - 1);
    }
  }

  lemma ErrorExactlyWhen(s: string, e: string)
    ensures VisitStr(s) == Ok(Error(e)) <==> Denotes(s, Error(e))
  {
    BracketedIsNoUnit(s, "Error(");
    if VisitStr(s) == Ok(Error(e)) {
      UnitIsNoError(s);
      var k, j := Unwrap(s, "Error(");
    }
    if Denotes(s, Error(e)) {
      var k, j :| Wraps(s, "Error(", k, e, j);
      Unwrapped(s, "Error(", k, e, j);
    }
  }

  lemma UnitIsNoError(s: string)
    ensures Unit(s).Some? ==> !Unit(s).value.Error? && !Unit(s).value.Resize?
  {
  }

  lemma ResizeExactlyWhen(s: string, w: U16, h: U16)
    ensures VisitStr(s) == Ok(Resize(w, h)) <==> Denotes(s, Resize(w, h))
  {
    BracketedIsNoUnit(s, "Resize(");
    if VisitStr(s) == Ok(Resize(w, h)) {
      UnitIsNoError(s);
      var k, j := Unwrap(s, "Resize(");
      SizeExactlyWhen(TrimEnd(TrimStart(s, "Resize("), ")"), w, h);
    }
    if Denotes(s, Resize(w, h)) {
      var k, inner, j :| Wraps(s, "Resize(", k, inner, j) && Sizes(inner, w, h);
      SizesAreBare(inner, w, h);
      Unwrapped(s, "Resize(", k, inner, j);
      SizeExactlyWhen(inner, w, h);
    }
  }

  /** Every text that is accepted, and as what. */
  lemma TextsExactly(s: string, a: Action)
    ensures VisitStr(s) == Ok(a) <==> Denotes(s, a)
  {
    match a {
      case Error(e) => ErrorExactlyWhen(s, e);
      case Resize(w, h) => ResizeExactlyWhen(s, w, h);
      case _ =>
        UnitExactlyWhen(s, a);
        SizesGiveResize(s);
    }
  }

  lemma SizesGiveResize(s: string)
    ensures Unit(s).None? && VisitStr(s).Ok? ==> VisitStr(s).value.Error? || VisitStr(s).value.Resize?
  {
  }
}
