/** Lists of keys as text: what the configuration holds and what the help shows (tui/src/keybinding.rs). */
module KeySequences {
  import opened Wrappers
  import opened Strings
  import opened KeyBinding

  function CountChar(s: string, c: char): nat {
    if s == [] then 0 else (if s[0] == c then 1 else 0) + CountChar(s[1..], c)
  }

  /** `split("><")` */
  function SplitKeys(s: string): (parts: seq<string>)
    ensures parts != []
  {
    if s == [] then [[]]
    else if "><" <= s then [[]] + SplitKeys(s[2..])
    else
      var rest := SplitKeys(s[1..]);
      [[s[0]] + rest[0]] + rest[1..]
  }

  /** `strip_prefix(c).unwrap_or` of a text */
  function StripPrefix(s: string, c: char): string {
    if s != [] && s[0] == c then s[1..] else s
  }

  /** One piece without its opening bracket, or else without its closing bracket. */
  function Unbracket(s: string): string {
    if s != [] && s[0] == '<' then s[1..]
    else if s != [] && s[|s| - 1] == '>' then s[..|s| - 1]
    else s
  }

  function UnbracketAll(parts: seq<string>): seq<string> {
    seq(|parts|, i requires 0 <= i < |parts| => Unbracket(parts[i]))
  }

  predicate HasSeam(s: string) {
    exists i :: 0 <= i < |s| - 1 && s[i] == '>' && s[i + 1] == '<'
  }

  /** `collect` into a Result: the first error is the answer. */
  function ParseAll(texts: seq<string>): Result<seq<KeyEvent>, string> {
    if texts == [] then Ok([])
    else
      match ParseKeyEvent(texts[0])
      case Err(e) => Err(e)
      case Ok(key) =>
        match ParseAll(texts[1..])
        case Err(e) => Err(e)
        case Ok(keys) => Ok([key] + keys)
  }

  function ParseKeySequence(raw: string): Result<seq<KeyEvent>, string> {
    if CountChar(raw, '>') != CountChar(raw, '<') then Err(raw)
    else
      var trimmed := if HasSeam(raw) then raw else StripPrefix(StripPrefix(raw, '<'), '>');
      ParseAll(UnbracketAll(SplitKeys(trimmed)))
  }

  /** Each text in its own brackets. */
  function Bracketed(texts: seq<string>): string {
    if texts == [] then [] else "<" + texts[0] + ">" + Bracketed(texts[1..])
  }

  predicate Plain(s: string) { '<' !in s && '>' !in s }

  lemma {:induction false} CountConcat(a: string, b: string, c: char)
    ensures CountChar(a + b, c) == CountChar(a, c) + CountChar(b, c)
  {
    if a == [] {
      assert a + b == b;
    } else {
      CountConcat(a[1..], b, c);
      assert (a + b)[1..] == a[1..] + b;
    }
  }

  lemma {:induction false} CountAbsent(s: string, c: char)
    requires c !in s
    ensures CountChar(s, c) == 0
  {
    if s != [] { CountAbsent(s[1..], c); }
  }

  /** The brackets around the texts come in equal numbers, whatever the texts are. */
  lemma {:induction false} CountBracketed(texts: seq<string>, c: char)
    requires c == '<' || c == '>'
    ensures CountChar(Bracketed(texts), c) == |texts| + CountChar(Concat(texts), c)
  {
    if texts != [] {
      var tail := texts[1..];
      CountBracketed(tail, c);
      CountConcat("<" + texts[0] + ">", Bracketed(tail), c);
      CountConcat("<" + texts[0], ">", c);
      CountConcat("<", texts[0], c);
      CountConcat(texts[0], Concat(tail), c);
      assert "<"[1..] == "" && ">"[1..] == "";
      assert CountChar("<", c) + CountChar(">", c) == 1;
    }
  }

  lemma SeamAtFront(s: string)
    ensures "><" <= s ==> HasSeam(s) && |s| > 1 && s[0] == '>' && s[1] == '<'
  {
    if "><" <= s { assert s[0] == '>' && s[1] == '<'; }
  }

  lemma NoSeamAfter(s: string)
    requires s != [] && !HasSeam(s)
    ensures !HasSeam(s[1..]) && (s[0] == '>' && |s| > 1 ==> s[1] != '<')
  {
    forall i | 0 <= i < |s| - 2 ensures !(s[1..][i] == '>' && s[1..][i + 1] == '<') {
      assert s[i + 1] == s[1..][i] && s[i + 2] == s[1..][i + 1];
    }
  }

  lemma {:induction false} SplitPlain(s: string)
    requires !HasSeam(s)
    ensures SplitKeys(s) == [s]
  {
    if s != [] {
      SeamAtFront(s);
      NoSeamAfter(s);
      SplitPlain(s[1..]);
      assert [s[0]] + s[1..] == s;
    }
  }

  /** The first seam is where the text before it ends. */
  lemma {:induction false} SplitSeam(a: string, b: string)
    requires !HasSeam(a)
    ensures SplitKeys(a + "><" + b) == [a] + SplitKeys(b)
  {
    var s := a + "><" + b;
    if a == [] {
      assert s[2..] == b;
    } else {
      assert s[0] == a[0] && s[1] == if |a| > 1 then a[1] else '>';
      SeamAtFront(s);
      NoSeamAfter(a);
      SplitSeam(a[1..], b);
      assert s[1..] == a[1..] + "><" + b;
      assert [a[0]] + a[1..] == a;
    }
  }

  /** The texts as they come out of the split when the first bracket has gone. */
  function Pieces(texts: seq<string>): seq<string>
    requires texts != []
  {
    texts[..|texts| - 1] + [texts[|texts| - 1] + ">"]
  }

  lemma LastPiece(t: string)
    requires !HasSeam(t)
    ensures SplitKeys(t + ">") == [t + ">"]
  {
    var s := t + ">";
    forall i | 0 <= i < |s| - 1 ensures !(s[i] == '>' && s[i + 1] == '<') {
      assert s[i] == t[i] && (i + 1 < |t| ==> s[i + 1] == t[i + 1]);
    }
    SplitPlain(s);
  }

  lemma BracketedHead(texts: seq<string>)
    requires texts != []
    ensures Bracketed(texts) == "<" + Bracketed(texts)[1..]
    ensures Bracketed(texts)[1..] == texts[0] + ">" + Bracketed(texts[1..])
  {
    HeadOff(texts[0], Bracketed(texts[1..]));
  }

  lemma HeadOff(a: string, rest: string)
    ensures "<" + a + ">" + rest == "<" + (a + ">" + rest)
    ensures ("<" + (a + ">" + rest))[1..] == a + ">" + rest
  {
  }

  lemma BracketedSeam(texts: seq<string>)
    requires |texts| >= 2
    ensures Bracketed(texts)[1..] == texts[0] + "><" + Bracketed(texts[1..])[1..]
  {
    BracketedHead(texts);
    BracketedHead(texts[1..]);
    Seam(texts[0], Bracketed(texts[1..])[1..]);
  }

  lemma Seam(a: string, rest: string)
    ensures a + ">" + ("<" + rest) == a + "><" + rest
  {
  }

  lemma {:induction false} SplitBracketed(texts: seq<string>)
    requires texts != []
    requires forall t :: t in texts ==> !HasSeam(t)
    ensures SplitKeys(Bracketed(texts)[1..]) == Pieces(texts)
  {
    var first, tail := texts[0], texts[1..];
    assert !HasSeam(first);
    if tail == [] {
      BracketedHead(texts);
      assert Bracketed(tail) == [] && Bracketed(texts)[1..] == first + ">";
      LastPiece(first);
    } else {
      SplitBracketed(tail);
      BracketedSeam(texts);
      SplitSeam(first, Bracketed(tail)[1..]);
      assert Pieces(texts) == [first] + Pieces(tail);
    }
  }

  lemma {:induction false} PlainConcat(texts: seq<string>)
    requires forall t :: t in texts ==> Plain(t)
    ensures Plain(Concat(texts))
  {
    if texts != [] {
      PlainConcat(texts[1..]);
      assert Plain(texts[0]);
    }
  }

  lemma BracketsBalance(texts: seq<string>)
    requires forall t :: t in texts ==> Plain(t)
    ensures CountChar(Bracketed(texts), '>') == CountChar(Bracketed(texts), '<')
  {
    PlainConcat(texts);
    CountBracketed(texts, '<');
    CountBracketed(texts, '>');
    CountAbsent(Concat(texts), '<');
    CountAbsent(Concat(texts), '>');
  }

  lemma BracketedOne(t: string)
    requires Plain(t)
    ensures Bracketed([t]) == "<" + (t + ">") && !HasSeam("<" + (t + ">"))
  {
    assert [t][1..] == [] && Bracketed([]) == [];
    var raw := "<" + (t + ">");
    assert Bracketed([t]) == raw;
    assert forall i :: 0 <= i < |t| ==> raw[i + 1] == t[i];
  }

  lemma StripOne(t: string)
    requires Plain(t)
    ensures StripPrefix(StripPrefix("<" + (t + ">"), '<'), '>') == if t == "" then "" else t + ">"
  {
    assert ("<" + (t + ">"))[1..] == t + ">";
    if t != "" { assert (t + ">")[0] == t[0] && t[0] in t; }
  }

  lemma OneBracketed(t: string)
    requires Plain(t)
    ensures !HasSeam(Bracketed([t]))
    ensures (var trimmed := StripPrefix(StripPrefix(Bracketed([t]), '<'), '>');
             UnbracketAll(SplitKeys(trimmed)) == [t])
  {
    BracketedOne(t);
    StripOne(t);
    if t == "" {
      SplitPlain("");
    } else {
      LastPiece(t);
      assert (t + ">")[0] == t[0] && t[0] in t && (t + ">")[..|t|] == t;
    }
  }

  /** What the parser makes of the texts between the brackets: it takes a bracket off at the wrong
      end of a text that itself has one there. */
  function Seen(texts: seq<string>): (seen: seq<string>)
    ensures |seen| == |texts|
  {
    seq(|texts|, i requires 0 <= i < |texts| =>
      if i == 0 then texts[0] else if i < |texts| - 1 then Unbracket(texts[i]) else Unbracket(texts[i] + ">"))
  }

  lemma UnbracketPieces(texts: seq<string>, pieces: seq<string>)
    requires |texts| >= 2 && |pieces| == |texts|
    requires pieces[0] == ['<'] + texts[0]
    requires forall k :: 0 < k < |texts| - 1 ==> pieces[k] == texts[k]
    requires pieces[|texts| - 1] == texts[|texts| - 1] + ">"
    ensures UnbracketAll(pieces) == Seen(texts)
  {
    assert (['<'] + texts[0])[1..] == texts[0];
  }

  lemma ManyBracketed(texts: seq<string>)
    requires |texts| >= 2
    requires forall t :: t in texts ==> !HasSeam(t)
    ensures HasSeam(Bracketed(texts))
    ensures UnbracketAll(SplitKeys(Bracketed(texts))) == Seen(texts)
  {
    var raw := Bracketed(texts);
    SplitBracketed(texts);
    BracketedHead(texts);
    SeamAfterFirst(texts);
    SplitStep(raw);
    UnbracketPieces(texts, SplitKeys(raw));
  }

  lemma PlainSeen(texts: seq<string>)
    requires forall t :: t in texts ==> Plain(t)
    ensures Seen(texts) == texts
  {
    forall i | 0 <= i < |texts| ensures Seen(texts)[i] == texts[i] {
      var t := texts[i];
      assert Plain(t);
      assert t != "" ==> t[0] in t && t[|t| - 1] in t;
      assert (t + ">")[..|t|] == t;
    }
  }

  lemma SplitStep(s: string)
    requires s != [] && (s[0] == '>' ==> |s| > 1 && s[1] != '<')
    ensures (var rest := SplitKeys(s[1..]); SplitKeys(s) == [[s[0]] + rest[0]] + rest[1..])
  {
    SeamAtFront(s);
  }

  lemma SeamAfterFirst(texts: seq<string>)
    requires |texts| >= 2
    ensures HasSeam(Bracketed(texts))
  {
    var raw := Bracketed(texts);
    var tail := texts[1..];
    assert Bracketed(tail) == "<" + tail[0] + ">" + Bracketed(tail[1..]);
    assert raw == "<" + texts[0] + ">" + Bracketed(tail);
    assert raw[|texts[0]| + 1] == '>' && raw[|texts[0]| + 2] == '<';
  }

  /** The sequence parser reads bracketed texts one by one, however many there are. */
  lemma BracketsAreUndone(texts: seq<string>)
    requires texts != []
    requires forall t :: t in texts ==> Plain(t)
    ensures ParseKeySequence(Bracketed(texts)) == ParseAll(texts)
  {
    BracketsBalance(texts);
    if |texts| == 1 {
      assert texts == [texts[0]];
      OneBracketed(texts[0]);
    } else {
      forall t | t in texts ensures !HasSeam(t) { assert Plain(t); }
      ManyBracketed(texts);
      PlainSeen(texts);
    }
  }

  /** And one text without brackets as the one key that it is. */
  lemma PlainTextIsOneKey(text: string)
    requires Plain(text)
    ensures ParseKeySequence(text) == ParseAll([text])
  {
    CountAbsent(text, '<');
    CountAbsent(text, '>');
    assert text != "" ==> text[0] in text && text[|text| - 1] in text;
    SplitPlain(text);
    assert UnbracketAll([text]) == [text];
  }

  function Texts(keys: seq<KeyEvent>): seq<string> {
    seq(|keys|, i requires 0 <= i < |keys| => KeyEventToString(keys[i]))
  }

  /** The keys printed one after the other, each in its own brackets. */
  function PrintSequence(keys: seq<KeyEvent>): string {
    Bracketed(Texts(keys))
  }

  predicate IsBracket(key: KeyEvent) { key.code == Char('<') || key.code == Char('>') }

  lemma ModifierTextIsPlain(m: set<Modifier>)
    ensures Plain(ModifierText(m))
  {
    assert Plain("ctrl-") && Plain("shift-") && Plain("alt-") && Plain("");
    var control := if Control in m then "ctrl-" else "";
    var shift := if Shift in m then "shift-" else "";
    var alt := if Alt in m then "alt-" else "";
    PlainJoin(shift, alt);
    PlainJoin(control, shift + alt);
  }

  lemma PlainJoin(a: string, b: string)
    ensures Plain(a + b) <==> Plain(a) && Plain(b)
  {
    assert forall c :: c in a + b <==> c in a || c in b;
  }

  lemma CodeTextIsPlain(code: KeyCode)
    requires code != Char('<') && code != Char('>')
    ensures Plain(CodeText(code))
  {
    if IsNamed(code) {
      NamedLetters(code);
    } else if code.F? {
      DecimalDigits(code.number);
      PlainJoin("f(" + Decimal(code.number), ")");
      PlainJoin("f(", Decimal(code.number));
    }
  }

  lemma PlainText(key: KeyEvent)
    ensures Plain(KeyEventToString(key)) <==> !IsBracket(key)
  {
    ModifierTextIsPlain(key.modifiers);
    PlainJoin(ModifierText(key.modifiers), CodeText(key.code));
    if IsBracket(key) {
      assert CodeText(key.code)[0] == key.code.c;
    } else {
      CodeTextIsPlain(key.code);
    }
  }

  lemma ParseAllOne(text: string, texts: seq<string>, key: KeyEvent, keys: seq<KeyEvent>)
    ensures ParseAll([text] + texts) == Ok([key] + keys) <==>
            ParseKeyEvent(text) == Ok(key) && ParseAll(texts) == Ok(keys)
  {
    assert ([text] + texts)[1..] == texts;
    var one := ParseAll(texts);
    if one.Ok? && ParseKeyEvent(text).Ok? {
      var parsed := [ParseKeyEvent(text).value] + one.value;
      if parsed == [key] + keys {
        assert parsed[0] == key && parsed[1..] == one.value && ([key] + keys)[1..] == keys;
      }
    }
  }

  lemma {:induction false} ParseAllPointwise(texts: seq<string>, keys: seq<KeyEvent>)
    requires |texts| == |keys|
    ensures ParseAll(texts) == Ok(keys) <==> forall i :: 0 <= i < |keys| ==> ParseKeyEvent(texts[i]) == Ok(keys[i])
  {
    if keys != [] {
      var text, rest, key, keys' := texts[0], texts[1..], keys[0], keys[1..];
      assert texts == [text] + rest && keys == [key] + keys';
      ParseAllOne(text, rest, key, keys');
      ParseAllPointwise(rest, keys');
      assert forall i :: 1 <= i < |keys| ==> texts[i] == rest[i - 1] && keys[i] == keys'[i - 1];
    }
  }

  function CountKey(keys: seq<KeyEvent>, c: char): nat {
    if keys == [] then 0 else (if keys[0].code == Char(c) then 1 else 0) + CountKey(keys[1..], c)
  }

  lemma CountInText(key: KeyEvent, c: char)
    requires c == '<' || c == '>'
    ensures CountChar(KeyEventToString(key), c) == if key.code == Char(c) then 1 else 0
  {
    if IsBracket(key) {
      var m := ModifierText(key.modifiers);
      ModifierTextIsPlain(key.modifiers);
      CountConcat(m, CodeText(key.code), c);
      CountAbsent(m, c);
      assert CodeText(key.code) == [key.code.c] && CodeText(key.code)[1..] == "";
    } else {
      PlainText(key);
      CountAbsent(KeyEventToString(key), c);
    }
  }

  lemma {:induction false} CountPointwise(texts: seq<string>, keys: seq<KeyEvent>, c: char)
    requires |texts| == |keys|
    requires forall i :: 0 <= i < |keys| ==> CountChar(texts[i], c) == if keys[i].code == Char(c) then 1 else 0
    ensures CountChar(Concat(texts), c) == CountKey(keys, c)
  {
    if keys != [] {
      CountPointwise(texts[1..], keys[1..], c);
      CountConcat(texts[0], Concat(texts[1..]), c);
    }
  }

  lemma CountInTexts(keys: seq<KeyEvent>, c: char)
    requires c == '<' || c == '>'
    ensures CountChar(Concat(Texts(keys)), c) == CountKey(keys, c)
  {
    forall i | 0 <= i < |keys| ensures CountChar(Texts(keys)[i], c) == if keys[i].code == Char(c) then 1 else 0 {
      CountInText(keys[i], c);
    }
    CountPointwise(Texts(keys), keys, c);
  }

  /** Bracket keys are not escaped: a sequence that holds more of one than of the other is refused. */
  lemma UnevenBracketKeysAreRefused(keys: seq<KeyEvent>)
    requires CountKey(keys, '<') != CountKey(keys, '>')
    ensures ParseKeySequence(PrintSequence(keys)).Err?
  {
    CountBracketed(Texts(keys), '<');
    CountBracketed(Texts(keys), '>');
    CountInTexts(keys, '<');
    CountInTexts(keys, '>');
  }

  /** The empty list has no text: the parser reads the empty text as one empty key. */
  lemma EmptySequenceIsRefused()
    ensures ParseKeySequence(PrintSequence([])).Err?
  {
    assert Texts([]) == [] && PrintSequence([]) == "";
    assert UnbracketAll(SplitKeys("")) == [""];
    NoPrefix("");
    assert Lower("") == "";
    NoName("");
    assert ParseKeyEvent("").Err?;
  }

  lemma {:induction false} CountNone(keys: seq<KeyEvent>, c: char)
    requires forall k :: k in keys ==> k.code != Char(c)
    ensures CountKey(keys, c) == 0
  {
    if keys != [] { CountNone(keys[1..], c); }
  }

  lemma {:induction false} CountKeyAppend(a: seq<KeyEvent>, b: seq<KeyEvent>, c: char)
    ensures CountKey(a + b, c) == CountKey(a, c) + CountKey(b, c)
  {
    if a == [] {
      assert a + b == b;
    } else {
      CountKeyAppend(a[1..], b, c);
      assert (a + b)[1..] == a[1..] + b;
    }
  }

  lemma CountEnds(keys: seq<KeyEvent>, c: char)
    requires |keys| >= 2
    ensures (var n := |keys| - 1; (forall i :: 0 < i < n ==> keys[i].code != Char(c)) ==>
      CountKey(keys, c) == (if keys[0].code == Char(c) then 1 else 0) + if keys[n].code == Char(c) then 1 else 0)
  {
    var n := |keys| - 1;
    var first, middle, last := [keys[0]], keys[1..n], [keys[n]];
    assert keys == first + middle + last && first[1..] == [] && last[1..] == [];
    CountKeyAppend(first + middle, last, c);
    CountKeyAppend(first, middle, c);
    if forall i :: 0 < i < n ==> keys[i].code != Char(c) {
      forall k | k in middle ensures k.code != Char(c) {
        var j :| 0 <= j < |middle| && middle[j] == k;
        assert keys[j + 1] == k;
      }
      CountNone(middle, c);
    }
  }

  // ---- The help texts ----

  /** The constants of the terminal library, in the order in which it lists them. */
  const MODIFIERS: seq<Modifier> := [Shift, Control, Alt, Super, Hyper, Meta]

  function ModifierName(m: Modifier): string {
    match m
    case Shift => "SHIFT"
    case Control => "CONTROL"
    case Alt => "ALT"
    case Super => "SUPER"
    case Hyper => "HYPER"
    case Meta => "META"
  }

  function Names(modifiers: set<Modifier>, among: seq<Modifier>): string {
    if among == [] then []
    else (if among[0] in modifiers then ModifierName(among[0]) + "+" else "") + Names(modifiers, among[1..])
  }

  function HelpKey(key: KeyEvent): string {
    Names(key.modifiers, MODIFIERS) + KeyEventToString(key)
  }

  function HelpKeys(keys: seq<KeyEvent>): seq<string> {
    seq(|keys|, i requires 0 <= i < |keys| => HelpKey(keys[i]))
  }

  lemma {:induction false} BracketedAppend(texts: seq<string>, text: string)
    ensures Bracketed(texts + [text]) == Bracketed(texts) + "<" + text + ">"
  {
    if texts == [] {
      assert (texts + [text])[1..] == [] && Bracketed([]) == [];
    } else {
      assert (texts + [text])[1..] == texts[1..] + [text];
      BracketedAppend(texts[1..], text);
    }
  }

  lemma {:induction false} NamesAppend(modifiers: set<Modifier>, among: seq<Modifier>, m: Modifier)
    ensures Names(modifiers, among + [m])
         == Names(modifiers, among) + if m in modifiers then ModifierName(m) + "+" else ""
  {
    if among == [] {
      assert (among + [m])[1..] == [] && Names(modifiers, []) == [];
    } else {
      assert (among + [m])[1..] == among[1..] + [m];
      NamesAppend(modifiers, among[1..], m);
    }
  }

  /** The inner loop of `key_events_to_string`. */
  method PrintNames(modifiers: set<Modifier>, among: seq<Modifier>) returns (out: string)
    ensures out == Names(modifiers, among)
  {
    out := "";
    for i := 0 to |among|
      invariant out == Names(modifiers, among[..i])
    {
      NamesAppend(modifiers, among[..i], among[i]);
      assert among[..i + 1] == among[..i] + [among[i]];
      if among[i] in modifiers {
        out := out + (ModifierName(among[i]) + "+");
      }
    }
    assert among[..|among|] == among;
  }

  lemma BracketedStep(texts: seq<string>, n: nat)
    requires n < |texts|
    ensures Bracketed(texts[..n + 1]) == Bracketed(texts[..n]) + "<" + texts[n] + ">"
  {
    assert texts[..n + 1] == texts[..n] + [texts[n]];
    BracketedAppend(texts[..n], texts[n]);
  }

  /** `key_events_to_string`: the help text shows the modifiers twice, by name and as prefixes. */
  method PrintHelp(keys: seq<KeyEvent>) returns (out: string)
    ensures out == Bracketed(HelpKeys(keys))
  {
    out := "";
    ghost var texts := HelpKeys(keys);
    for n := 0 to |keys|
      invariant out == Bracketed(texts[..n])
    {
      BracketedStep(texts, n);
      var names := "";
      if keys[n].modifiers != {} {
        names := PrintNames(keys[n].modifiers, MODIFIERS);
      } else {
        NoNames(keys[n].modifiers, MODIFIERS);
      }
      out := out + "<" + (names + KeyEventToString(keys[n])) + ">";
    }
    assert texts[..|keys|] == texts;
  }

  /** Each of the six modifiers by its name, in this order, in front of the key's own text. */
  lemma HelpNames(key: KeyEvent)
    ensures (var m := key.modifiers;
      HelpKey(key) ==
        (if Shift in m then "SHIFT+" else "") + (if Control in m then "CONTROL+" else "") +
        (if Alt in m then "ALT+" else "") + (if Super in m then "SUPER+" else "") +
        (if Hyper in m then "HYPER+" else "") + (if Meta in m then "META+" else "") + KeyEventToString(key))
  {
    var m := key.modifiers;
    var all := [] + [Shift] + [Control] + [Alt] + [Super] + [Hyper] + [Meta];
    assert all == MODIFIERS;
    NamesAppend(m, [] + [Shift] + [Control] + [Alt] + [Super] + [Hyper], Meta);
    NamesAppend(m, [] + [Shift] + [Control] + [Alt] + [Super], Hyper);
    NamesAppend(m, [] + [Shift] + [Control] + [Alt], Super);
    NamesAppend(m, [] + [Shift] + [Control], Alt);
    NamesAppend(m, [] + [Shift], Control);
    NamesAppend(m, [], Shift);
    StartsEmpty(if Shift in m then "SHIFT+" else "");
    assert ModifierName(Shift) + "+" == "SHIFT+" && ModifierName(Control) + "+" == "CONTROL+";
    assert ModifierName(Alt) + "+" == "ALT+" && ModifierName(Super) + "+" == "SUPER+";
    assert ModifierName(Hyper) + "+" == "HYPER+" && ModifierName(Meta) + "+" == "META+";
  }

  lemma StartsEmpty(text: string)
    ensures [] + text == text
  {
  }

  lemma {:induction false} NoNames(modifiers: set<Modifier>, among: seq<Modifier>)
    requires modifiers == {}
    ensures Names(modifiers, among) == ""
  {
    if among != [] { NoNames(modifiers, among[1..]); }
  }

  lemma {:induction false} NamesArePlain(modifiers: set<Modifier>, among: seq<Modifier>)
    ensures Plain(Names(modifiers, among))
  {
    if among != [] {
      NamesArePlain(modifiers, among[1..]);
      assert Plain(ModifierName(among[0]) + "+");
      PlainJoin(if among[0] in modifiers then ModifierName(among[0]) + "+" else "", Names(modifiers, among[1..]));
    }
  }

  /** The names start with the name of one of the modifiers. */
  lemma {:induction false} NamesStart(modifiers: set<Modifier>, among: seq<Modifier>)
    returns (m: Modifier, rest: string)
    requires exists x :: x in modifiers && x in among
    ensures Names(modifiers, among) == (ModifierName(m) + "+") + rest
  {
    if among[0] in modifiers {
      m, rest := among[0], Names(modifiers, among[1..]);
    } else {
      assert among == [among[0]] + among[1..];
      m, rest := NamesStart(modifiers, among[1..]);
    }
  }

  /** A name in front is no prefix the parser knows, and no key has it in its own name. */
  lemma NameIsNoKey(m: Modifier, rest: string)
    ensures ParseKeyEvent((ModifierName(m) + "+") + rest).Err?
  {
    var name := Lower(ModifierName(m)) + "+";
    var s := name + Lower(rest);
    LowerConcat(ModifierName(m) + "+", rest);
    LowerConcat(ModifierName(m), "+");
    assert Lower("+") == "+";
    assert Lower((ModifierName(m) + "+") + rest) == s;
    NameIsNoPrefix(m, s);
    assert s[|name| - 1] == '+';
    NoKeyHasPlus(s, |name| - 1);
    TwoBytes(s);
  }

  lemma NameIsNoPrefix(m: Modifier, s: string)
    requires Lower(ModifierName(m)) + "+" <= s
    ensures ExtractModifiers(s) == (s, {})
  {
    var name := Lower(ModifierName(m)) + "+";
    assert forall i :: 0 <= i < |name| ==> s[i] == name[i];
    match m {
      case Shift => assert s[0] == 's' && s[5] == '+';
      case Control => assert s[0] == 'c' && s[1] == 'o';
      case Alt => assert s[0] == 'a' && s[3] == '+';
      case Super => assert s[0] == 's' && s[1] == 'u';
      case Hyper => assert s[0] == 'h';
      case Meta => assert s[0] == 'm';
    }
  }

  lemma NoKeyHasPlus(s: string, i: nat)
    requires i < |s| && s[i] == '+'
    ensures NamedKey(s) == None
  {
  }

  lemma TwoBytes(s: string)
    requires |s| >= 2
    ensures ByteLength(s) >= 2
  {
    assert s[1..][0] == s[1];
    assert ByteLength(s[1..]) >= 1;
  }

  lemma EveryModifier(m: Modifier)
    ensures m in MODIFIERS
  {
    assert MODIFIERS[0] == Shift && MODIFIERS[1] == Control && MODIFIERS[2] == Alt;
    assert MODIFIERS[3] == Super && MODIFIERS[4] == Hyper && MODIFIERS[5] == Meta;
  }

  lemma CountInHelp(keys: seq<KeyEvent>, c: char)
    requires c == '<' || c == '>'
    ensures CountChar(Concat(HelpKeys(keys)), c) == CountKey(keys, c)
  {
    forall i | 0 <= i < |keys| ensures CountChar(HelpKeys(keys)[i], c) == if keys[i].code == Char(c) then 1 else 0 {
      CountInHelpKey(keys[i], c);
    }
    CountPointwise(HelpKeys(keys), keys, c);
  }

  lemma CountInHelpKey(key: KeyEvent, c: char)
    requires c == '<' || c == '>'
    ensures CountChar(HelpKey(key), c) == if key.code == Char(c) then 1 else 0
  {
    CountInText(key, c);
    NamesArePlain(key.modifiers, MODIFIERS);
    CountAbsent(Names(key.modifiers, MODIFIERS), c);
    CountConcat(Names(key.modifiers, MODIFIERS), KeyEventToString(key), c);
  }

  lemma UnbracketAfter(head: string, tail: string)
    requires head != "" && head[0] != '<' && head[|head| - 1] != '>'
    ensures Unbracket(head + tail + ">") == head + tail
    ensures Unbracket(head + tail) == head + tail
         || (tail != "" && Unbracket(head + tail) == head + tail[..|tail| - 1])
  {
    var h := head + tail;
    assert h[0] == head[0] && (h + ">")[..|h|] == h;
    if tail == "" { assert h == head; } else { assert h[..|h| - 1] == head + tail[..|tail| - 1]; }
  }

  /** A name in front stays in front whatever the parser takes off. */
  lemma NamedHelpStays(modifiers: set<Modifier>, among: seq<Modifier>, text: string)
    requires exists x :: x in modifiers && x in among
    ensures (var h := Names(modifiers, among) + text;
      ParseKeyEvent(h).Err? && ParseKeyEvent(Unbracket(h)).Err? && ParseKeyEvent(Unbracket(h + ">")).Err?)
  {
    var m, rest := NamesStart(modifiers, among);
    Regroup(ModifierName(m) + "+", rest, text);
    NameStays(m, rest + text);
  }

  lemma NameStays(m: Modifier, tail: string)
    ensures (var h := (ModifierName(m) + "+") + tail;
      ParseKeyEvent(h).Err? && ParseKeyEvent(Unbracket(h)).Err? && ParseKeyEvent(Unbracket(h + ">")).Err?)
  {
    UnbracketAfter(ModifierName(m) + "+", tail);
    NameIsNoKey(m, tail);
    if tail != "" { NameIsNoKey(m, tail[..|tail| - 1]); }
  }

  // ---- Bracket keys ----

  const LEFT := KeyEvent(Char('<'), {})

  /** What a text can bring back. A bracket key is not escaped: there must be as many of one as of the
      other, a bare "<" only first, and no ">" between the first and the last key. */
  predicate Readable(keys: seq<KeyEvent>) {
    && keys != []
    && (forall k :: k in keys ==> Canonical(k))
    && CountKey(keys, '<') == CountKey(keys, '>')
    && (forall i :: 0 < i < |keys| ==> keys[i] != LEFT)
    && (forall i :: 0 < i < |keys| - 1 ==> keys[i].code != Char('>'))
  }

  lemma NoSeamJoin(a: string, b: string)
    requires Plain(a) && !HasSeam(b)
    ensures !HasSeam(a + b)
  {
    var s := a + b;
    forall i | 0 <= i < |s| - 1 ensures !(s[i] == '>' && s[i + 1] == '<') {
      if i < |a| { assert s[i] == a[i]; } else { assert s[i] == b[i - |a|] && s[i + 1] == b[i + 1 - |a|]; }
    }
  }

  lemma TextHasNoSeam(key: KeyEvent)
    ensures !HasSeam(KeyEventToString(key))
  {
    ModifierTextIsPlain(key.modifiers);
    if !IsBracket(key) { CodeTextIsPlain(key.code); }
    NoSeamJoin(ModifierText(key.modifiers), CodeText(key.code));
  }

  /** The text of a key has a bracket at an end only where a bracket key puts it. */
  lemma TextEnds(key: KeyEvent)
    ensures (var t := KeyEventToString(key); t != "" ==>
      && (t[0] == '<' <==> key.code == Char('<') && ModifierText(key.modifiers) == "")
      && (t[|t| - 1] == '>' <==> key.code == Char('>')))
  {
    var m, t := ModifierText(key.modifiers), KeyEventToString(key);
    PlainText(key);
    ModifierTextIsPlain(key.modifiers);
    if t != "" && !IsBracket(key) {
      assert t[0] in t && t[|t| - 1] in t;
    }
    if m != "" { assert t[0] == m[0] && m[0] in m; }
    if IsBracket(key) { assert CodeText(key.code) == [key.code.c] && t[|t| - 1] == key.code.c; }
  }

  lemma NoModifierText(m: set<Modifier>)
    requires m <= NAMED
    ensures ModifierText(m) == "" <==> m == {}
  {
    assert m != {} ==> Control in m || Shift in m || Alt in m;
  }

  lemma NothingIsNoKey(m: set<Modifier>)
    ensures ParseKeyEvent(ModifierText(m)).Err?
  {
    assert ModifierText(m) + "" == ModifierText(m);
    ExtractPrinted(m, "");
    assert Lower("") == "";
    NoName("");
  }

  lemma MiddleReads(key: KeyEvent)
    ensures ParseKeyEvent(Unbracket(KeyEventToString(key))) == Ok(key) <==>
            Canonical(key) && key != LEFT && key.code != Char('>')
  {
    var t := KeyEventToString(key);
    TextEnds(key);
    if key.code == Char('>') {
      assert CodeText(key.code) == ">" && t[..|t| - 1] == ModifierText(key.modifiers);
      NothingIsNoKey(key.modifiers);
    } else if t != "" && t[0] == '<' {
      assert CodeText(key.code) == "<" && t == "<" && t[1..] == ModifierText({});
      NothingIsNoKey({});
      if key.modifiers <= NAMED { NoModifierText(key.modifiers); }
    } else {
      KeyRoundTrip(key);
      if key == LEFT { NoModifierText({}); }
    }
  }

  lemma LastReads(key: KeyEvent)
    ensures ParseKeyEvent(Unbracket(KeyEventToString(key) + ">")) == Ok(key) <==> Canonical(key) && key != LEFT
  {
    var t := KeyEventToString(key);
    TextEnds(key);
    if t != "" && t[0] == '<' {
      assert CodeText(key.code) == "<" && t == "<" && (t + ">")[1..] == ">";
      GreaterIsRead();
      if key.modifiers <= NAMED { NoModifierText(key.modifiers); }
    } else {
      assert (t + ">")[..|t|] == t;
      KeyRoundTrip(key);
      if key == LEFT { NoModifierText({}); }
    }
  }

  lemma GreaterIsRead()
    ensures ParseKeyEvent(">") == Ok(KeyEvent(Char('>'), {}))
  {
    var right := KeyEvent(Char('>'), {});
    assert KeyEventToString(right) == ">";
    KeyRoundTrip(right);
  }

  /** Bracketed texts without seams and with even brackets are read as what the parser sees of each. */
  lemma SequenceReads(texts: seq<string>, keys: seq<KeyEvent>)
    requires |texts| == |keys| >= 2 && forall t :: t in texts ==> !HasSeam(t)
    requires CountChar(Concat(texts), '<') == CountChar(Concat(texts), '>')
    ensures ParseKeySequence(Bracketed(texts)) == Ok(keys) <==>
            forall i :: 0 <= i < |keys| ==> ParseKeyEvent(Seen(texts)[i]) == Ok(keys[i])
  {
    CountBracketed(texts, '<');
    CountBracketed(texts, '>');
    ManyBracketed(texts);
    ParseAllPointwise(Seen(texts), keys);
  }

  /** Where a key stands decides what of its text is seen. */
  predicate PlaceFits(keys: seq<KeyEvent>, i: nat)
    requires i < |keys|
  {
    (0 < i ==> keys[i] != LEFT) && (0 < i < |keys| - 1 ==> keys[i].code != Char('>'))
  }

  lemma SeenReads(keys: seq<KeyEvent>, i: nat)
    requires i < |keys|
    ensures ParseKeyEvent(Seen(Texts(keys))[i]) == Ok(keys[i]) <==> Canonical(keys[i]) && PlaceFits(keys, i)
  {
    var key := keys[i];
    assert Texts(keys)[i] == KeyEventToString(key);
    if i == 0 {
      KeyRoundTrip(key);
    } else if i < |keys| - 1 {
      MiddleReads(key);
    } else {
      LastReads(key);
    }
  }

  lemma OneKey(key: KeyEvent)
    requires CountKey([key], '<') == CountKey([key], '>')
    ensures !IsBracket(key)
  {
    assert [key][1..] == [];
  }

  lemma ReadablePlaces(keys: seq<KeyEvent>)
    requires keys != [] && CountKey(keys, '<') == CountKey(keys, '>')
    ensures Readable(keys) <==> forall i :: 0 <= i < |keys| ==> Canonical(keys[i]) && PlaceFits(keys, i)
  {
    if forall i :: 0 <= i < |keys| ==> Canonical(keys[i]) && PlaceFits(keys, i) {
      forall i | 0 < i < |keys| ensures keys[i] != LEFT && (i < |keys| - 1 ==> keys[i].code != Char('>')) {
        assert PlaceFits(keys, i);
      }
    }
  }

  /** Printing a list of keys, each in its brackets, and parsing it gives the list back exactly when
      the list is readable. */
  lemma SequenceRoundTrip(keys: seq<KeyEvent>)
    ensures ParseKeySequence(PrintSequence(keys)) == Ok(keys) <==> Readable(keys)
  {
    if keys == [] {
      EmptySequenceIsRefused();
    } else if CountKey(keys, '<') != CountKey(keys, '>') {
      UnevenBracketKeysAreRefused(keys);
    } else {
      ReadablePlaces(keys);
      forall i | 0 <= i < |keys|
        ensures ParseKeyEvent(Seen(Texts(keys))[i]) == Ok(keys[i]) <==> Canonical(keys[i]) && PlaceFits(keys, i)
      {
        SeenReads(keys, i);
      }
      EvenReads(Texts(keys), keys);
    }
  }

  lemma EvenReads(texts: seq<string>, keys: seq<KeyEvent>)
    requires |texts| == |keys| && keys != [] && CountKey(keys, '<') == CountKey(keys, '>')
    requires texts == Texts(keys) || texts == HelpKeys(keys)
    ensures ParseKeySequence(Bracketed(texts)) == Ok(keys) <==>
            forall i :: 0 <= i < |keys| ==> ParseKeyEvent(Seen(texts)[i]) == Ok(keys[i])
  {
    forall i | 0 <= i < |keys| ensures !HasSeam(texts[i]) {
      TextHasNoSeam(keys[i]);
      NamesArePlain(keys[i].modifiers, MODIFIERS);
      NoSeamJoin(Names(keys[i].modifiers, MODIFIERS), KeyEventToString(keys[i]));
    }
    if |keys| == 1 {
      assert keys == [keys[0]];
      OneKey(keys[0]);
      PlainText(keys[0]);
      NamesArePlain(keys[0].modifiers, MODIFIERS);
      PlainJoin(Names(keys[0].modifiers, MODIFIERS), KeyEventToString(keys[0]));
      BracketsAreUndone(texts);
      ParseAllPointwise(texts, keys);
    } else {
      CountInTexts(keys, '<');
      CountInTexts(keys, '>');
      CountInHelp(keys, '<');
      CountInHelp(keys, '>');
      SequenceReads(texts, keys);
    }
  }

  lemma WrongOrder()
    ensures (var right := KeyEvent(Char('>'), {});
      && Seen(Texts([right, LEFT])) == [">", ">"]
      && CountKey([right, LEFT], '<') == CountKey([right, LEFT], '>') == 1)
  {
    var right := KeyEvent(Char('>'), {});
    assert KeyEventToString(LEFT) == "<" && KeyEventToString(right) == ">";
    assert Texts([right, LEFT]) == [">", "<"];
    assert ("<" + ">")[1..] == ">";
    CountEnds([right, LEFT], '<');
    CountEnds([right, LEFT], '>');
  }

  /** Even lists are not safe: the two brackets in the wrong order are read as something else. */
  lemma BracketKeysCanBeMisread()
    ensures (var right := KeyEvent(Char('>'), {});
      ParseKeySequence(PrintSequence([right, LEFT])) == Ok([right, right]))
  {
    var right := KeyEvent(Char('>'), {});
    WrongOrder();
    CountInTexts([right, LEFT], '<');
    CountInTexts([right, LEFT], '>');
    TextHasNoSeam(LEFT);
    TextHasNoSeam(right);
    GreaterIsRead();
    SequenceReads(Texts([right, LEFT]), [right, right]);
  }

  /** In the right order they come back. */
  lemma BracketKeysCanBeRead()
    ensures (var right := KeyEvent(Char('>'), {});
      ParseKeySequence(PrintSequence([LEFT, right])) == Ok([LEFT, right]))
  {
    var right := KeyEvent(Char('>'), {});
    CountEnds([LEFT, right], '<');
    CountEnds([LEFT, right], '>');
    assert Canonical(LEFT) && Canonical(right);
    SequenceRoundTrip([LEFT, right]);
  }

  // ---- What of the help can be typed ----

  lemma HelpSeenReads(keys: seq<KeyEvent>, i: nat)
    requires i < |keys|
    ensures ParseKeyEvent(Seen(HelpKeys(keys))[i]) == Ok(keys[i]) <==>
            Canonical(keys[i]) && PlaceFits(keys, i) && keys[i].modifiers == {}
  {
    var key := keys[i];
    if key.modifiers == {} {
      NoNames(key.modifiers, MODIFIERS);
      assert "" + KeyEventToString(key) == KeyEventToString(key);
      SeenReads(keys, i);
    } else {
      var x :| x in key.modifiers;
      EveryModifier(x);
      NamedHelpStays(key.modifiers, MODIFIERS, KeyEventToString(key));
    }
  }

  /** What the help shows for a binding can be typed into the configuration exactly when the binding
      is readable and uses no modifier at all. */
  lemma HelpIsReadableExactlyWhen(keys: seq<KeyEvent>)
    ensures ParseKeySequence(Bracketed(HelpKeys(keys))) == Ok(keys) <==>
            Readable(keys) && forall k :: k in keys ==> k.modifiers == {}
  {
    if keys == [] {
      assert HelpKeys(keys) == Texts(keys);
      EmptySequenceIsRefused();
    } else if CountKey(keys, '<') != CountKey(keys, '>') {
      CountBracketed(HelpKeys(keys), '<');
      CountBracketed(HelpKeys(keys), '>');
      CountInHelp(keys, '<');
      CountInHelp(keys, '>');
    } else {
      ReadablePlaces(keys);
      forall i | 0 <= i < |keys|
        ensures ParseKeyEvent(Seen(HelpKeys(keys))[i]) == Ok(keys[i]) <==>
                Canonical(keys[i]) && PlaceFits(keys, i) && keys[i].modifiers == {}
      {
        HelpSeenReads(keys, i);
      }
      EvenReads(HelpKeys(keys), keys);
    }
  }

  /** Without modifiers that leaves two shapes: no bracket at all, or "<" first, ">" last and none between. */
  lemma ReadableWithoutModifiers(keys: seq<KeyEvent>)
    requires |keys| >= 2 && forall k :: k in keys ==> Canonical(k) && k.modifiers == {}
    ensures (var n := |keys| - 1;
      Readable(keys) <==>
        && (forall i :: 0 < i < n ==> !IsBracket(keys[i]))
        && ((!IsBracket(keys[0]) && !IsBracket(keys[n])) || (keys[0].code == Char('<') && keys[n].code == Char('>'))))
  {
    var n := |keys| - 1;
    CountEnds(keys, '<');
    CountEnds(keys, '>');
    forall i | 0 <= i <= n ensures keys[i].modifiers == {} && (keys[i].code == Char('<') <==> keys[i] == LEFT) {
      assert keys[i] in keys;
    }
    if Readable(keys) {
      forall i | 0 < i < n ensures !IsBracket(keys[i]) { assert keys[i] != LEFT && keys[i].code != Char('>'); }
    }
  }
}
