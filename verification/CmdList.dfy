/** Moving through the command list (tui/src/components/command/list.rs). */
module CmdList {
  import opened Wrappers

  type Cmd = nat

  /** A heading has no command. */
  datatype Item = Item(text: string, cmd: Option<Cmd>)

  ghost predicate SomeCommand(items: seq<Item>) {
    exists i :: 0 <= i < |items| && items[i].cmd.Some?
  }

  predicate IsCommand(items: seq<Item>, i: int) {
    0 <= i < |items| && items[i].cmd.Some?
  }

  /** How far down the list from i, the end followed by the start, position j lies. */
  function Distance(n: nat, i: nat, j: nat): (d: nat)
    requires i < n && j < n
  {
    if j > i then j - i else j + n - i
  }

  /** j is the first command met going down from i; the list is left and entered again at the top. */
  ghost predicate NextDown(items: seq<Item>, i: nat, j: nat) {
    && i < |items| && IsCommand(items, j)
    && forall k :: 0 <= k < |items| && Distance(|items|, i, k) < Distance(|items|, i, j) ==> !IsCommand(items, k)
  }

  ghost predicate NextUp(items: seq<Item>, i: nat, j: nat) {
    && i < |items| && IsCommand(items, j)
    && forall k :: 0 <= k < |items| && Distance(|items|, k, i) < Distance(|items|, j, i) ==> !IsCommand(items, k)
  }

  class List {
    var display: bool
    var selected: nat
    const items: seq<Item>

    ghost predicate Valid()
      reads this
    {
      selected < |items|
    }

    /** The list starts on its first command, under its first heading. */
    constructor (items: seq<Item>)
      requires |items| > 1 && items[1].cmd.Some?
      ensures Valid() && this.items == items && selected == 1 && display
    {
      this.items, selected, display := items, 1, true;
    }

    /** Without a command on the displayed list the loop has no end. */
    method NavUp() returns (action: Option<Cmd>)
      requires Valid() && (display ==> SomeCommand(items))
      modifies this`selected
      ensures Valid()
      ensures !display ==> action == None && selected == old(selected)
      ensures display ==> NextUp(items, old(selected), selected) && action == items[selected].cmd
    {
      ghost var steps: nat := 0;
      while display
        invariant Valid() && steps < |items|
        invariant steps == 0 ==> selected == old(selected)
        invariant steps > 0 ==> display && Distance(|items|, selected, old(selected)) == steps
        invariant forall k :: 0 <= k < |items| && Distance(|items|, k, old(selected)) <= steps ==> !IsCommand(items, k)
        decreases |items| - steps
      {
        if selected == 0 {
          selected := |items| - 1;
        } else {
          selected := selected - 1;
        }
        if items[selected].cmd.Some? {
          return items[selected].cmd;
        }
        steps := steps + 1;
        SomewhereElse(items, old(selected), selected, steps);
      }
      return None;
    }

    method NavDown() returns (action: Option<Cmd>)
      requires Valid() && (display ==> SomeCommand(items))
      modifies this`selected
      ensures Valid()
      ensures !display ==> action == None && selected == old(selected)
      ensures display ==> NextDown(items, old(selected), selected) && action == items[selected].cmd
    {
      ghost var steps: nat := 0;
      while display
        invariant Valid() && steps < |items|
        invariant steps == 0 ==> selected == old(selected)
        invariant steps > 0 ==> display && Distance(|items|, old(selected), selected) == steps
        invariant forall k :: 0 <= k < |items| && Distance(|items|, old(selected), k) <= steps ==> !IsCommand(items, k)
        decreases |items| - steps
      {
        if selected == |items| - 1 {
          selected := 0;
        } else {
          selected := selected + 1;
        }
        if items[selected].cmd.Some? {
          return items[selected].cmd;
        }
        steps := steps + 1;
        SomewhereElse(items, old(selected), selected, steps);
      }
      return None;
    }
  }

  /** A full turn without meeting a command would mean that there is none. */
  lemma SomewhereElse(items: seq<Item>, i: nat, j: nat, steps: nat)
    requires SomeCommand(items) && i < |items|
    requires (forall k :: 0 <= k < |items| && Distance(|items|, k, i) <= steps ==> !IsCommand(items, k))
             || (forall k :: 0 <= k < |items| && Distance(|items|, i, k) <= steps ==> !IsCommand(items, k))
    ensures steps < |items|
  {
    var c :| 0 <= c < |items| && items[c].cmd.Some?;
    assert Distance(|items|, i, c) <= |items| && Distance(|items|, c, i) <= |items|;
  }

  // ---- The cycle of commands ----

  lemma NextIsUnique(items: seq<Item>, i: nat, j1: nat, j2: nat)
    ensures NextDown(items, i, j1) && NextDown(items, i, j2) ==> j1 == j2
    ensures NextUp(items, i, j1) && NextUp(items, i, j2) ==> j1 == j2
  {
  }

  /** On commands the two moves undo each other. */
  lemma MovesAreInverse(items: seq<Item>, i: nat, j: nat)
    requires IsCommand(items, i) && IsCommand(items, j)
    ensures NextDown(items, i, j) <==> NextUp(items, j, i)
  {
    var n := |items|;
    if NextDown(items, i, j) && exists k :: 0 <= k < n && Distance(n, k, j) < Distance(n, i, j) && IsCommand(items, k) {
      var k :| 0 <= k < n && Distance(n, k, j) < Distance(n, i, j) && IsCommand(items, k);
      Between(n, i, k, j);
    }
    if NextUp(items, j, i) && exists k :: 0 <= k < n && Distance(n, i, k) < Distance(n, i, j) && IsCommand(items, k) {
      var k :| 0 <= k < n && Distance(n, i, k) < Distance(n, i, j) && IsCommand(items, k);
      Between(n, i, k, j);
    }
  }

  lemma Between(n: nat, i: nat, k: nat, j: nat)
    requires i < n && j < n && k < n
    ensures Distance(n, k, j) < Distance(n, i, j) <==> Distance(n, i, k) < Distance(n, i, j)
  {
  }

  /** The positions of the commands, from the top. */
  function Commands(items: seq<Item>): seq<nat> {
    if items == [] then []
    else Commands(items[..|items| - 1]) + if items[|items| - 1].cmd.Some? then [|items| - 1] else []
  }

  lemma {:induction false} CommandsAreSorted(items: seq<Item>)
    ensures forall i :: i in Commands(items) <==> 0 <= i < |items| && IsCommand(items, i)
    ensures forall a, b :: 0 <= a < b < |Commands(items)| ==> Commands(items)[a] < Commands(items)[b]
  {
    if items != [] {
      var before := Commands(items[..|items| - 1]);
      CommandsAreSorted(items[..|items| - 1]);
      forall i ensures i in Commands(items) <==> 0 <= i < |items| && IsCommand(items, i) {
        assert i in before <==> 0 <= i < |items| - 1 && IsCommand(items[..|items| - 1], i);
      }
      forall a | 0 <= a < |before| ensures before[a] < |items| - 1 {
        assert before[a] in before;
      }
    }
  }

  /** Going down leads from each command to the next one of the list, and from the last to the first. */
  lemma DownIsTheCycle(items: seq<Item>, a: nat)
    requires a < |Commands(items)|
    ensures (var c := Commands(items); var b := if a == |c| - 1 then 0 else a + 1;
      c[a] < |items| && c[b] < |items| && NextDown(items, c[a], c[b]))
  {
    var c := Commands(items);
    var b := if a == |c| - 1 then 0 else a + 1;
    CommandsAreSorted(items);
    assert c[a] in c && c[b] in c;
    forall k | 0 <= k < |items| && IsCommand(items, k)
      ensures Distance(|items|, c[a], k) >= Distance(|items|, c[a], c[b])
    {
      assert k in c;
      var x :| 0 <= x < |c| && c[x] == k;
    }
  }

  /** `visited` is the list of positions that repeated NavDown selects. */
  ghost predicate Descends(items: seq<Item>, visited: seq<nat>) {
    forall n :: 0 <= n < |visited| - 1 ==> NextDown(items, visited[n], visited[n + 1])
  }

  /** n moves down from the a-th command, for at most one turn. */
  lemma {:induction false} DescentIsCyclic(items: seq<Item>, visited: seq<nat>, a: nat, n: nat)
    requires Descends(items, visited) && n < |visited| && n <= |Commands(items)|
    requires a < |Commands(items)| && visited[0] == Commands(items)[a]
    ensures visited[n] == Turned(Commands(items), a, n)
  {
    if n > 0 {
      var c := Commands(items);
      DescentIsCyclic(items, visited, a, n - 1);
      var x := if a + n - 1 < |c| then a + n - 1 else a + n - 1 - |c|;
      DownIsTheCycle(items, x);
      assert NextDown(items, visited[n - 1], visited[n]);
      NextIsUnique(items, visited[n - 1], visited[n], Turned(c, a, n));
    }
  }

  function Turned(c: seq<nat>, a: nat, n: nat): nat
    requires a < |c| && n <= |c|
  {
    c[if a + n < |c| then a + n else a + n - |c|]
  }

  /** One turn passes each element of a list without repeats once. */
  lemma OneTurn(c: seq<nat>, a: nat)
    requires a < |c| && forall x, y :: 0 <= x < y < |c| ==> c[x] != c[y]
    ensures Turned(c, a, |c|) == c[a] == Turned(c, a, 0)
    ensures forall i :: i in c ==> exists n :: 0 <= n < |c| && Turned(c, a, n) == i
    ensures forall m, n :: 0 <= m < n < |c| ==> Turned(c, a, m) != Turned(c, a, n)
  {
    forall i | i in c ensures exists n :: 0 <= n < |c| && Turned(c, a, n) == i {
      var x :| 0 <= x < |c| && c[x] == i;
      assert Turned(c, a, if x >= a then x - a else x + |c| - a) == i;
    }
  }

  /** As many moves down as there are commands visit every command exactly once and end where they began. */
  lemma FullTurn(items: seq<Item>, visited: seq<nat>)
    requires |visited| == |Commands(items)| + 1 && Descends(items, visited) && visited[0] in Commands(items)
    ensures visited[|visited| - 1] == visited[0]
    ensures forall i :: IsCommand(items, i) ==> exists n :: 0 <= n < |visited| - 1 && visited[n] == i
    ensures forall m, n :: 0 <= m < n < |visited| - 1 ==> visited[m] != visited[n]
  {
    var c := Commands(items);
    CommandsAreSorted(items);
    var a :| 0 <= a < |c| && c[a] == visited[0];
    OneTurn(c, a);
    forall n | 0 <= n < |visited| ensures visited[n] == Turned(c, a, n) {
      DescentIsCyclic(items, visited, a, n);
    }
    forall i | IsCommand(items, i) ensures exists n :: 0 <= n < |visited| - 1 && visited[n] == i {
      assert i in c;
      var n :| 0 <= n < |c| && Turned(c, a, n) == i;
      assert visited[n] == i;
    }
  }
}
