/** Keys and key sequences as text (tui/src/keybinding.rs). */
module KeyBinding {
  import opened Wrappers
  import opened Strings

  datatype KeyCode =
    | Backspace | Enter | Left | Right | Up | Down | Home | End | PageUp | PageDown | Tab | BackTab
    | Delete | Insert | F(number: nat) | Char(c: char) | Esc
    | Null | CapsLock | Menu | ScrollLock | Media(which: nat) | NumLock | PrintScreen | Pause | KeypadBegin
    | ModifierKey(which: nat)

  datatype Modifier = Control | Shift | Alt | Super | Hyper | Meta

  datatype KeyEvent = KeyEvent(code: KeyCode, modifiers: set<Modifier>)

  // ---- Characters ----

  predicate IsUpper(c: char) { 'A' <= c <= 'Z' }
  predicate IsLower(c: char) { 'a' <= c <= 'z' }
  predicate IsAscii(c: char) { c as int < 128 }

  function LowerChar(c: char): char { if IsUpper(c) then (c as int + 32) as char else c }
  function UpperChar(c: char): char { if IsLower(c) then (c as int - 32) as char else c }

  /** `to_ascii_lowercase` */
  function Lower(s: string): string {
    seq(|s|, i requires 0 <= i < |s| => LowerChar(s[i]))
  }

  /** `len` of a str counts bytes of UTF-8. */
  function ByteLength(s: string): nat {
    if s == [] then 0 else
    var c := s[0] as int;
    (if c < 0x80 then 1 else if c < 0x800 then 2 else if c < 0x1_0000 then 3 else 4) + ByteLength(s[1..])
  }

  // ---- Parsing one key ----

  function ExtractModifiers(s: string): (string, set<Modifier>)
    decreases |s|
  {
    if "ctrl-" <= s then var (rest, m) := ExtractModifiers(s[5..]); (rest, m + {Control})
    else if "alt-" <= s then var (rest, m) := ExtractModifiers(s[4..]); (rest, m + {Alt})
    else if "shift-" <= s then var (rest, m) := ExtractModifiers(s[6..]); (rest, m + {Shift})
    else (s, {})
  }

  method StripModifiers(raw: string) returns (current: string, modifiers: set<Modifier>)
    ensures (current, modifiers) == ExtractModifiers(raw)
  {
    modifiers := {};
    current := raw;
    while true
      invariant ExtractModifiers(raw).0 == ExtractModifiers(current).0
      invariant ExtractModifiers(raw).1 == modifiers + ExtractModifiers(current).1
      decreases |current|
    {
      if "ctrl-" <= current {
        modifiers := modifiers + {Control};
        current := current[5..];
      } else if "alt-" <= current {
        modifiers := modifiers + {Alt};
        current := current[4..];
      } else if "shift-" <= current {
        modifiers := modifiers + {Shift};
        current := current[6..];
      } else {
        break;
      }
    }
  }

  /** The keys that have a name in the configuration. */
  function NamedKey(raw: string): Option<KeyCode> {
    if raw == "esc" then Some(Esc)
    else if raw == "enter" then Some(Enter)
    else if raw == "left" then Some(Left)
    else if raw == "right" then Some(Right)
    else if raw == "up" then Some(Up)
    else if raw == "down" then Some(Down)
    else if raw == "home" then Some(Home)
    else if raw == "end" then Some(End)
    else if raw == "pageup" then Some(PageUp)
    else if raw == "pagedown" then Some(PageDown)
    else if raw == "backtab" then Some(BackTab)
    else if raw == "backspace" then Some(Backspace)
    else if raw == "delete" then Some(Delete)
    else if raw == "insert" then Some(Insert)
    else if raw == "f1" then Some(F(1))
    else if raw == "f2" then Some(F(2))
    else if raw == "f3" then Some(F(3))
    else if raw == "f4" then Some(F(4))
    else if raw == "f5" then Some(F(5))
    else if raw == "f6" then Some(F(6))
    else if raw == "f7" then Some(F(7))
    else if raw == "f8" then Some(F(8))
    else if raw == "f9" then Some(F(9))
    else if raw == "f10" then Some(F(10))
    else if raw == "f11" then Some(F(11))
    else if raw == "f12" then Some(F(12))
    else if raw == "space" then Some(Char(' '))
    else if raw == "hyphen" then Some(Char('-'))
    else if raw == "minus" then Some(Char('-'))
    else if raw == "tab" then Some(Tab)
    else None
  }

  function ParseKeyCode(raw: string, modifiers: set<Modifier>): Result<KeyEvent, string> {
    var named := NamedKey(raw);
    if named == Some(BackTab) then Ok(KeyEvent(BackTab, modifiers + {Shift}))
    else if named.Some? then Ok(KeyEvent(named.value, modifiers))
    else if ByteLength(raw) == 1 then
      var c := raw[0];
      Ok(KeyEvent(Char(if Shift in modifiers then UpperChar(c) else c), modifiers))
    else Err(raw)
  }

  function ParseKeyEvent(raw: string): Result<KeyEvent, string> {
    var (remaining, modifiers) := ExtractModifiers(Lower(raw));
    ParseKeyCode(remaining, modifiers)
  }

  // ---- Printing one key ----

  function CodeText(code: KeyCode): string {
    match code
    case Backspace => "backspace"
    case Enter => "enter"
    case Left => "left"
    case Right => "right"
    case Up => "up"
    case Down => "down"
    case Home => "home"
    case End => "end"
    case PageUp => "pageup"
    case PageDown => "pagedown"
    case Tab => "tab"
    case BackTab => "backtab"
    case Delete => "delete"
    case Insert => "insert"
    case F(n) => "f(" + Decimal(n) + ")"
    case Char(c) => if c == ' ' then "space" else [c]
    case Esc => "esc"
    case _ => ""
  }

  function ModifierText(m: set<Modifier>): string {
    (if Control in m then "ctrl-" else "") + ((if Shift in m then "shift-" else "") + (if Alt in m then "alt-" else ""))
  }

  function KeyEventToString(e: KeyEvent): string {
    ModifierText(e.modifiers) + CodeText(e.code)
  }

  /** `join` */
  function Join(parts: seq<string>, glue: string): string {
    if parts == [] then [] else if |parts| == 1 then parts[0] else parts[0] + glue + Join(parts[1..], glue)
  }

  method PrintKeyEvent(e: KeyEvent) returns (key: string)
    ensures key == KeyEventToString(e)
  {
    var modifiers: seq<string> := [];
    if Control in e.modifiers {
      modifiers := modifiers + ["ctrl"];
    }
    if Shift in e.modifiers {
      modifiers := modifiers + ["shift"];
    }
    if Alt in e.modifiers {
      modifiers := modifiers + ["alt"];
    }
    assert modifiers == ModifierParts(e.modifiers);
    key := Join(modifiers, "-");
    JoinModifiers(e.modifiers);
    if key != [] {
      key := key + "-";
    }
    key := key + CodeText(e.code);
  }

  function ModifierParts(m: set<Modifier>): seq<string> {
    (if Control in m then ["ctrl"] else []) +
    (if Shift in m then ["shift"] else []) +
    (if Alt in m then ["alt"] else [])
  }

  lemma JoinOne(a: string)
    ensures Join([a], "-") == a
  {
  }

  lemma JoinMore(a: string, rest: seq<string>)
    requires rest != []
    ensures Join([a] + rest, "-") == a + "-" + Join(rest, "-")
  {
    assert ([a] + rest)[1..] == rest;
  }

  lemma JoinModifiers(m: set<Modifier>)
    ensures (var key := Join(ModifierParts(m), "-"); (if key != [] then key + "-" else key) == ModifierText(m))
  {
    JoinOne("ctrl");
    JoinOne("shift");
    JoinOne("alt");
    JoinMore("shift", ["alt"]);
    JoinMore("ctrl", ["shift"] + ["alt"]);
    JoinMore("ctrl", ["shift"]);
    JoinMore("ctrl", ["alt"]);
    var parts := ModifierParts(m);
    if Control in m {
      if Shift in m {
        if Alt in m {
          assert parts == ["ctrl"] + (["shift"] + ["alt"]);
        } else {
          assert parts == ["ctrl"] + ["shift"];
        }
      } else if Alt in m {
        assert parts == ["ctrl"] + ["alt"];
      } else {
        assert parts == ["ctrl"];
      }
    } else if Shift in m {
      if Alt in m {
        assert parts == ["shift"] + ["alt"];
      } else {
        assert parts == ["shift"];
      }
    } else if Alt in m {
      assert parts == ["alt"];
    } else {
      assert parts == [];
    }
  }

  // ---- Prefixes ----

  lemma LowerConcat(a: string, b: string)
    ensures Lower(a + b) == Lower(a) + Lower(b)
  {
  }

  lemma LowerFixed(s: string)
    requires forall i :: 0 <= i < |s| ==> !IsUpper(s[i])
    ensures Lower(s) == s
  {
  }

  lemma ExtractOne(p: string, rest: string)
    requires p == "ctrl-" || p == "alt-" || p == "shift-"
    ensures ExtractModifiers(p + rest)
         == (ExtractModifiers(rest).0, ExtractModifiers(rest).1 + {ModifierOf(p)})
  {
    assert p <= p + rest && (p + rest)[|p|..] == rest;
    assert (p + rest)[0] == p[0];
    if p != "ctrl-" {
      assert "ctrl-"[0] == 'c';
      assert !("ctrl-" <= p + rest);
    }
    if p == "shift-" {
      assert "alt-"[0] == 'a';
      assert !("alt-" <= p + rest);
    }
  }

  lemma NoPrefix(s: string)
    requires |s| <= 1 || '-' !in s
    ensures ExtractModifiers(s) == (s, {})
  {
    PrefixAt("ctrl-", s, 4);
    PrefixAt("alt-", s, 3);
    PrefixAt("shift-", s, 5);
  }

  lemma PrefixAt(p: string, s: string, i: nat)
    requires i < |p|
    ensures p <= s ==> |p| <= |s| && p[i] in s
  {
    if p <= s { assert s[i] == p[i]; }
  }

  function ModifierOf(p: string): Modifier {
    if p == "ctrl-" then Control else if p == "alt-" then Alt else Shift
  }

  /** A modifier prefix, in any mixture of upper and lower case. */
  predicate IsPrefix(p: string) {
    Lower(p) == "ctrl-" || Lower(p) == "alt-" || Lower(p) == "shift-"
  }

  function Concat(parts: seq<string>): string {
    if parts == [] then [] else parts[0] + Concat(parts[1..])
  }

  function ModifiersOf(ps: seq<string>): set<Modifier> {
    set p | p in ps :: ModifierOf(Lower(p))
  }

  lemma {:induction false} PrefixesAreStripped(ps: seq<string>, rest: string)
    requires forall p :: p in ps ==> IsPrefix(p)
    ensures (var inner := ExtractModifiers(Lower(rest));
             ExtractModifiers(Lower(Concat(ps) + rest)) == (inner.0, inner.1 + ModifiersOf(ps)))
  {
    if ps == [] {
      assert Concat(ps) + rest == rest;
      assert ModifiersOf(ps) == {};
      var inner := ExtractModifiers(Lower(rest)).1;
      assert inner + {} == inner;
    } else {
      var p, tail := ps[0], ps[1..];
      assert ps == [p] + tail && IsPrefix(p);
      PrefixesAreStripped(tail, rest);
      FirstPrefix(p, tail, rest);
      ExtractOne(Lower(p), Lower(Concat(tail) + rest));
      var x := ModifierOf(Lower(p));
      var inner := ExtractModifiers(Lower(rest)).1;
      assert (inner + ModifiersOf(tail)) + {x} == inner + ({x} + ModifiersOf(tail));
    }
  }

  lemma FirstPrefix(p: string, tail: seq<string>, rest: string)
    ensures Lower(Concat([p] + tail) + rest) == Lower(p) + Lower(Concat(tail) + rest)
    ensures ModifiersOf([p] + tail) == {ModifierOf(Lower(p))} + ModifiersOf(tail)
  {
    assert ([p] + tail)[1..] == tail;
    Regroup(p, Concat(tail), rest);
    LowerConcat(p, Concat(tail) + rest);
  }

  /** Modifier prefixes may be reordered, repeated and re-cased. */
  lemma PrefixesCommute(ps: seq<string>, qs: seq<string>, rest: string)
    requires forall p :: p in ps ==> IsPrefix(p)
    requires forall q :: q in qs ==> IsPrefix(q)
    requires ModifiersOf(ps) == ModifiersOf(qs)
    ensures ParseKeyEvent(Concat(ps) + rest) == ParseKeyEvent(Concat(qs) + rest)
  {
    PrefixesAreStripped(ps, rest);
    PrefixesAreStripped(qs, rest);
  }

  // ---- Round trip of one key ----

  /** The modifiers that have a name in the configuration. */
  const NAMED: set<Modifier> := {Control, Shift, Alt}

  predicate CanonicalChar(c: char, shift: bool) {
    IsAscii(c) && (IsUpper(c) ==> shift) && (IsLower(c) ==> !shift)
  }

  /** What the configuration can express: named keys, and characters whose case agrees with Shift. */
  predicate Canonical(e: KeyEvent) {
    && e.modifiers <= NAMED
    && match e.code
       case Char(c) => CanonicalChar(c, Shift in e.modifiers)
       case BackTab => Shift in e.modifiers
       case F(_) | Null | CapsLock | Menu | ScrollLock | Media(_) | NumLock | PrintScreen | Pause | KeypadBegin
         | ModifierKey(_) => false
       case _ => true
  }

  predicate IsNamed(code: KeyCode) {
    match code
    case Char(c) => c == ' '
    case F(_) | Null | CapsLock | Menu | ScrollLock | Media(_) | NumLock | PrintScreen | Pause | KeypadBegin
      | ModifierKey(_) => false
    case _ => true
  }

  lemma NamedText(code: KeyCode)
    requires IsNamed(code)
    ensures '-' !in CodeText(code)
    ensures Lower(CodeText(code)) == CodeText(code)
    ensures NamedKey(CodeText(code)) == Some(code)
  {
    NamedLetters(code);
    LowerFixed(CodeText(code));
  }

  lemma NamedLetters(code: KeyCode)
    requires IsNamed(code)
    ensures forall i :: 0 <= i < |CodeText(code)| ==> IsLower(CodeText(code)[i])
  {
  }

  lemma ExtractPrinted(m: set<Modifier>, text: string)
    requires |text| <= 1 || '-' !in text
    ensures ExtractModifiers(Lower(ModifierText(m) + text)) == (Lower(text), m * NAMED)
  {
    var ps := PrefixList(m);
    ConcatPrefixes(m);
    PrefixesOf(m);
    PrefixesAreStripped(ps, text);
    LowerHyphen(text);
    NoPrefix(Lower(text));
    assert {} + ModifiersOf(ps) == m * NAMED;
  }

  lemma PrefixesOf(m: set<Modifier>)
    ensures forall p :: p in PrefixList(m) ==> IsPrefix(p)
    ensures ModifiersOf(PrefixList(m)) == m * NAMED
  {
    assert Lower("ctrl-") == "ctrl-" && Lower("alt-") == "alt-" && Lower("shift-") == "shift-";
    var ps := PrefixList(m);
    assert Control in m ==> "ctrl-" in ps;
    assert Shift in m ==> "shift-" in ps;
    assert Alt in m ==> "alt-" in ps;
    assert ModifierOf("ctrl-") == Control && ModifierOf("alt-") == Alt && ModifierOf("shift-") == Shift;
    forall x ensures x in ModifiersOf(ps) <==> x in m * NAMED {
      if x in m * NAMED {
        var p := if x == Control then "ctrl-" else if x == Alt then "alt-" else "shift-";
        assert p in ps && ModifierOf(Lower(p)) == x;
      }
    }
  }

  lemma LowerHyphen(text: string)
    ensures '-' in Lower(text) ==> '-' in text
  {
    if '-' in Lower(text) {
      var i :| 0 <= i < |text| && Lower(text)[i] == '-';
      assert text[i] == '-';
    }
  }

  function PrefixList(m: set<Modifier>): seq<string> {
    (if Control in m then ["ctrl-"] else []) +
    (if Shift in m then ["shift-"] else []) +
    (if Alt in m then ["alt-"] else [])
  }

  lemma {:induction false} ConcatTwo(a: seq<string>, b: seq<string>)
    ensures Concat(a + b) == Concat(a) + Concat(b)
  {
    if a == [] {
      assert a + b == b;
    } else {
      ConcatTwo(a[1..], b);
      assert (a + b)[0] == a[0] && (a + b)[1..] == a[1..] + b;
      Regroup(a[0], Concat(a[1..]), Concat(b));
    }
  }

  lemma ConcatPrefixes(m: set<Modifier>)
    ensures Concat(PrefixList(m)) == ModifierText(m)
  {
    var c := if Control in m then ["ctrl-"] else [];
    var s := if Shift in m then ["shift-"] else [];
    var a := if Alt in m then ["alt-"] else [];
    ConcatTwo(c + s, a);
    ConcatTwo(c, s);
    assert Concat(c) == if Control in m then "ctrl-" else "";
    assert Concat(s) == if Shift in m then "shift-" else "";
    assert Concat(a) == if Alt in m then "alt-" else "";
  }

  lemma NoName(text: string)
    requires |text| <= 1 || (|text| > 3 && text[1] == '(')
    ensures NamedKey(text) == None
  {
  }

  lemma NumberedText(n: nat)
    ensures (var text := CodeText(F(n)); |text| > 3 && text[0] == 'f' && text[1] == '(' && '-' !in text)
    ensures ByteLength(Lower(CodeText(F(n)))) > 1
  {
    var text := CodeText(F(n));
    DecimalDigits(n);
    assert text[0] == 'f' && text[1] == '(' && text[2] == Decimal(n)[0];
    assert forall i :: 2 <= i < |text| - 1 ==> text[i] == Decimal(n)[i - 2];
    assert text[|text| - 1] == ')';
    var l := Lower(text);
    assert l[1..] != [] && l[1..][0] == l[1];
    assert ByteLength(l[1..]) >= 1;
  }

  /** Printing a key and reading it back is the identity exactly on the canonical keys. */
  lemma KeyRoundTrip(e: KeyEvent)
    ensures ParseKeyEvent(KeyEventToString(e)) == Ok(e) <==> Canonical(e)
  {
    var text := CodeText(e.code);
    var m := e.modifiers * NAMED;
    if IsNamed(e.code) {
      NamedText(e.code);
      ExtractPrinted(e.modifiers, text);
      NamedRoundTrip(e);
    } else if e.code.Char? {
      ExtractPrinted(e.modifiers, text);
      CharRoundTrip(e.code.c, m);
      assert text == [e.code.c];
      assert ParseKeyEvent(KeyEventToString(e)) == ParseKeyCode(Lower([e.code.c]), m);
      if e.modifiers <= NAMED {
        assert e.modifiers == m;
        assert e == KeyEvent(Char(e.code.c), m);
      }
    } else if e.code.F? {
      NumberedText(e.code.number);
      ExtractPrinted(e.modifiers, text);
      NoName(Lower(text));
    } else {
      assert text == "";
      ExtractPrinted(e.modifiers, text);
      NoName(Lower(text));
    }
  }

  lemma FunctionKeyText(n: nat, m: set<Modifier>)
    ensures KeyEventToString(KeyEvent(F(n), m)) == ModifierText(m) + "f(" + Decimal(n) + ")"
  {
    AppendTwo(ModifierText(m), "f(", Decimal(n), ")");
  }

  lemma AppendTwo(a: string, b: string, c: string, d: string)
    ensures a + (b + c + d) == a + b + c + d
  {
  }

  /** What is printed for a function key is not what the configuration calls it. */
  lemma FunctionKeysAreRefused(n: nat, m: set<Modifier>)
    ensures KeyEventToString(KeyEvent(F(n), m)) == ModifierText(m) + "f(" + Decimal(n) + ")"
    ensures ParseKeyEvent(KeyEventToString(KeyEvent(F(n), m))).Err?
  {
    FunctionKeyText(n, m);
    NumberedText(n);
    ExtractPrinted(m, CodeText(F(n)));
    NoName(Lower(CodeText(F(n))));
  }

  lemma NamedRoundTrip(e: KeyEvent)
    requires IsNamed(e.code)
    ensures ParseKeyCode(CodeText(e.code), e.modifiers * NAMED) == Ok(e) <==> Canonical(e)
  {
    NamedText(e.code);
    var m := e.modifiers * NAMED;
    assert e.modifiers <= NAMED <==> e.modifiers == m;
    if e.code == BackTab {
      assert m + {Shift} == e.modifiers <==> Shift in e.modifiers && e.modifiers <= NAMED;
    }
  }

  lemma CharRoundTrip(c: char, m: set<Modifier>)
    requires c != ' '
    ensures ParseKeyCode(Lower([c]), m) == Ok(KeyEvent(Char(c), m)) <==> CanonicalChar(c, Shift in m)
    ensures ParseKeyCode(Lower([c]), m).Ok? ==> ParseKeyCode(Lower([c]), m).value.modifiers == m
  {
    var l := Lower([c]);
    NoName(l);
    assert l == [LowerChar(c)] && l[1..] == [];
    assert ByteLength(l) == 1 <==> IsAscii(c);
  }

  // ---- Which texts are keys ----

  /** The names of the keys, in lower case. */
  predicate IsNameOf(text: string, code: KeyCode) {
    match code
    case Backspace => text == "backspace"
    case Enter => text == "enter"
    case Left => text == "left"
    case Right => text == "right"
    case Up => text == "up"
    case Down => text == "down"
    case Home => text == "home"
    case End => text == "end"
    case PageUp => text == "pageup"
    case PageDown => text == "pagedown"
    case Tab => text == "tab"
    case BackTab => text == "backtab"
    case Delete => text == "delete"
    case Insert => text == "insert"
    case Esc => text == "esc"
    case F(n) => 1 <= n <= 12 && text == "f" + Decimal(n)
    case Char(c) => (c == ' ' && text == "space") || (c == '-' && (text == "hyphen" || text == "minus"))
    case _ => false
  }

  /** One ASCII character stands for itself, in upper case under Shift. */
  predicate IsTyped(text: string, code: KeyCode, shift: bool) {
    |text| == 1 && IsAscii(text[0]) && code == Char(if shift then UpperChar(text[0]) else text[0])
  }

  lemma ShortDecimals()
    ensures forall n :: 0 <= n < 10 ==> Decimal(n) == [DigitChar(n)]
    ensures Decimal(10) == "10" && Decimal(11) == "11" && Decimal(12) == "12"
  {
    assert Decimal(1) == "1";
  }

  lemma FunctionName(n: nat)
    ensures NamedKey("f" + Decimal(n)) == if 1 <= n <= 12 then Some(F(n)) else None
  {
    ShortDecimals();
    if n < 10 {
      FewFunctionNames(n);
    } else if n <= 12 {
      TwoDigitFunctionNames();
    } else {
      ManyFunctionNames(n);
    }
  }

  lemma FewFunctionNames(n: nat)
    requires n < 10
    ensures NamedKey("f" + [DigitChar(n)]) == if n == 0 then None else Some(F(n))
  {
    assert "f" + [DigitChar(n)] == ['f', DigitChar(n)];
  }

  lemma TwoDigitFunctionNames()
    ensures NamedKey("f" + "10") == Some(F(10)) && NamedKey("f" + "11") == Some(F(11))
    ensures NamedKey("f" + "12") == Some(F(12))
  {
    assert "f" + "10" == "f10" && "f" + "11" == "f11" && "f" + "12" == "f12";
  }

  lemma ManyFunctionNames(n: nat)
    requires n > 12
    ensures NamedKey("f" + Decimal(n)) == None
  {
    var text := "f" + Decimal(n);
    DecimalDigits(n);
    assert forall i :: 1 <= i < |text| ==> text[i] == Decimal(n)[i - 1] && IsDigit(text[i]);
    forall k | 1 <= k <= 12 ensures text != "f" + Decimal(k) {
      DecimalDigits(k);
      assert text[1..] == Decimal(n) && ("f" + Decimal(k))[1..] == Decimal(k);
    }
    SecondIsDigit(text);
  }

  /** Among the names only those of the function keys have a digit in the second place. */
  lemma SecondIsDigit(text: string)
    requires |text| >= 2 && IsDigit(text[1])
    ensures NamedKey(text) != None ==> exists k :: 1 <= k <= 12 && text == "f" + Decimal(k)
  {
    ShortDecimals();
    if NamedKey(text).Some? { ItsNumber(text); }
  }

  lemma ItsNumber(text: string)
    requires |text| >= 2 && IsDigit(text[1]) && NamedKey(text).Some?
    ensures NamedKey(text).value.F? && 1 <= NamedKey(text).value.number <= 12
    ensures text == "f" + Decimal(NamedKey(text).value.number)
  {
    ShortDecimals();
  }

  lemma NamesAreRead(text: string, code: KeyCode)
    requires IsNameOf(text, code)
    ensures NamedKey(text) == Some(code)
  {
    if code.F? {
      FunctionName(code.number);
    }
  }

  lemma ReadAreNames(text: string)
    ensures NamedKey(text).Some? ==> IsNameOf(text, NamedKey(text).value) && |text| > 1
  {
    ShortDecimals();
    if |text| >= 2 && IsDigit(text[1]) && NamedKey(text).Some? { ItsNumber(text); }
  }

  /** The table of keys as a whole: which texts without prefixes are which keys. */
  lemma CodeExactlyWhen(text: string, m: set<Modifier>, e: KeyEvent)
    ensures ParseKeyCode(text, m) == Ok(e) <==>
            && (IsNameOf(text, e.code) || IsTyped(text, e.code, Shift in m))
            && e.modifiers == if e.code == BackTab then m + {Shift} else m
  {
    ReadAreNames(text);
    OneByte(text);
    if IsNameOf(text, e.code) { NamesAreRead(text, e.code); }
    if NamedKey(text).Some? {
      assert NamedKey(text) == Some(e.code) <==> IsNameOf(text, e.code);
    }
  }

  lemma OneByte(text: string)
    ensures ByteLength(text) == 1 <==> |text| == 1 && IsAscii(text[0])
  {
    if text != [] { AnyBytes(text[1..]); }
  }

  lemma AnyBytes(text: string)
    ensures ByteLength(text) == 0 <==> text == []
  {
  }

  /** The text begins with these prefixes, which say these modifiers, each in any mixture of cases. */
  ghost predicate Prefixed(raw: string, ps: seq<string>, rest: string, m: set<Modifier>) {
    && raw == Concat(ps) + rest
    && (forall p :: p in ps ==> Lower(p) in {"ctrl-", "alt-", "shift-"})
    && m <= NAMED
    && (Control in m <==> exists p :: p in ps && Lower(p) == "ctrl-")
    && (Alt in m <==> exists p :: p in ps && Lower(p) == "alt-")
    && (Shift in m <==> exists p :: p in ps && Lower(p) == "shift-")
  }

  lemma PrefixedModifiers(raw: string, ps: seq<string>, rest: string, m: set<Modifier>)
    requires Prefixed(raw, ps, rest, m)
    ensures m == ModifiersOf(ps) && forall p :: p in ps ==> IsPrefix(p)
  {
    forall x ensures x in m <==> x in ModifiersOf(ps) {
      assert x in ModifiersOf(ps) <==> exists p :: p in ps && ModifierOf(Lower(p)) == x;
      assert "ctrl-"[0] == 'c' && "alt-"[0] == 'a' && "shift-"[0] == 's';
    }
  }

  lemma ModifiersPrefixed(ps: seq<string>, rest: string)
    requires forall p :: p in ps ==> IsPrefix(p)
    ensures Prefixed(Concat(ps) + rest, ps, rest, ModifiersOf(ps))
  {
    var m := ModifiersOf(ps);
    assert "ctrl-"[0] == 'c' && "alt-"[0] == 'a' && "shift-"[0] == 's';
    forall x ensures x in m <==> exists p :: p in ps && ModifierOf(Lower(p)) == x {}
  }

  /** Every text is some prefixes and a rest that starts with none. */
  lemma {:induction false} Strip(raw: string) returns (ps: seq<string>, rest: string)
    ensures raw == Concat(ps) + rest && forall p :: p in ps ==> IsPrefix(p)
    ensures ExtractModifiers(Lower(rest)) == (Lower(rest), {})
    decreases |raw|
  {
    var n := PrefixLength(Lower(raw));
    if n == 0 {
      ps, rest := [], raw;
    } else {
      var p := raw[..n];
      var tail;
      tail, rest := Strip(raw[n..]);
      ps := [p] + tail;
      assert Lower(p) == Lower(raw)[..n];
      assert ps[1..] == tail;
      Regroup(p, Concat(tail), rest);
      assert raw == p + raw[n..];
    }
  }

  function PrefixLength(s: string): (n: nat)
    ensures n <= |s|
    ensures n == 0 ==> ExtractModifiers(s) == (s, {})
    ensures n > 0 ==> s[..n] == "ctrl-" || s[..n] == "alt-" || s[..n] == "shift-"
  {
    if "ctrl-" <= s then 5 else if "alt-" <= s then 4 else if "shift-" <= s then 6 else 0
  }

  lemma RestHasNoPrefix(text: string, code: KeyCode, shift: bool)
    requires IsNameOf(text, code) || IsTyped(text, code, shift)
    ensures ExtractModifiers(text) == (text, {})
  {
    if |text| > 1 {
      NameHasNoHyphen(text, code);
    }
    NoPrefix(text);
  }

  lemma NameHasNoHyphen(text: string, code: KeyCode)
    requires IsNameOf(text, code)
    ensures '-' !in text
  {
    if code.F? {
      DecimalDigits(code.number);
      assert forall i :: 1 <= i < |text| ==> text[i] == Decimal(code.number)[i - 1];
    }
  }

  /** The text is a name of the key, or types it, with these modifiers around. */
  predicate Spells(text: string, m: set<Modifier>, e: KeyEvent) {
    && (IsNameOf(text, e.code) || IsTyped(text, e.code, Shift in m))
    && e.modifiers == if e.code == BackTab then m + {Shift} else m
  }

  /** What the configuration reads as what: a text is read as this key exactly when it is any modifier prefixes
      in front of a name of the key, or of the one character the key is, whatever their case; the modifiers are
      those of the prefixes, and BackTab brings Shift. */
  lemma TextIsKeyExactlyWhen(raw: string, e: KeyEvent)
    ensures ParseKeyEvent(raw) == Ok(e) <==>
            exists ps, rest, m :: Prefixed(raw, ps, rest, m) && Spells(Lower(rest), m, e)
  {
    if ParseKeyEvent(raw) == Ok(e) { ReadIsSpelt(raw, e); }
    if ps, rest, m :| Prefixed(raw, ps, rest, m) && Spells(Lower(rest), m, e) { SpeltIsRead(raw, e, ps, rest, m); }
  }

  lemma ReadIsSpelt(raw: string, e: KeyEvent)
    requires ParseKeyEvent(raw) == Ok(e)
    ensures exists ps, rest, m :: Prefixed(raw, ps, rest, m) && Spells(Lower(rest), m, e)
  {
    var ps, rest := Strip(raw);
    ModifiersPrefixed(ps, rest);
    PrefixesAreStripped(ps, rest);
    assert {} + ModifiersOf(ps) == ModifiersOf(ps);
    CodeExactlyWhen(Lower(rest), ModifiersOf(ps), e);
    assert Prefixed(raw, ps, rest, ModifiersOf(ps)) && Spells(Lower(rest), ModifiersOf(ps), e);
  }

  lemma SpeltIsRead(raw: string, e: KeyEvent, ps: seq<string>, rest: string, m: set<Modifier>)
    requires Prefixed(raw, ps, rest, m) && Spells(Lower(rest), m, e)
    ensures ParseKeyEvent(raw) == Ok(e)
  {
    PrefixedModifiers(raw, ps, rest, m);
    RestHasNoPrefix(Lower(rest), e.code, Shift in m);
    PrefixesAreStripped(ps, rest);
    assert {} + ModifiersOf(ps) == m;
    CodeExactlyWhen(Lower(rest), m, e);
  }

  /** The twelve function keys are read by their numbers behind any prefixes, and no others are. */
  lemma FunctionKeysAreRead(ps: seq<string>, n: nat)
    requires forall p :: p in ps ==> IsPrefix(p)
    ensures (var read := ParseKeyEvent(Concat(ps) + "f" + Decimal(n));
      if 1 <= n <= 12 then read == Ok(KeyEvent(F(n), ModifiersOf(ps))) else read.Err?)
  {
    var text := "f" + Decimal(n);
    DecimalDigits(n);
    assert forall i :: 1 <= i < |text| ==> text[i] == Decimal(n)[i - 1];
    LowerFixed(text);
    NoPrefix(text);
    Regroup(Concat(ps), "f", Decimal(n));
    PrefixesAreStripped(ps, text);
    assert {} + ModifiersOf(ps) == ModifiersOf(ps);
    FunctionName(n);
    OneByte(text);
  }
}
