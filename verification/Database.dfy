/** What the database may answer to one statement. */
module Database {
  /** How a write ends. A lost connection can hide a commit. */
  datatype Write = Committed | CommittedUnheard | NotCommitted

  predicate TookEffect(w: Write) { !w.NotCommitted? }

  function Wrote<T>(before: T, after: T, w: Write): T {
    if TookEffect(w) then after else before
  }

  /** A select without ORDER BY may return its rows in any order, and callers know no more. */
  method Query<T>(rows: seq<T>) returns (answer: seq<T>)
    ensures multiset(answer) == multiset(rows)
  {
    answer := rows;
  }

  lemma Permuted<T>(a: seq<T>, b: seq<T>)
    requires multiset(a) == multiset(b)
    ensures |a| == |b| && forall x :: x in a <==> x in b
  {
    assert |a| == |multiset(a)| == |multiset(b)| == |b|;
    forall x ensures x in a <==> x in b {
      assert x in multiset(a) <==> x in multiset(b);
    }
  }

  function Map<A, B>(s: seq<A>, f: A -> B): seq<B> {
    seq(|s|, i requires 0 <= i < |s| => f(s[i]))
  }

  lemma MapAppend<A, B>(s: seq<A>, x: A, f: A -> B)
    ensures Map(s + [x], f) == Map(s, f) + [f(x)]
  {
  }

  lemma MapHas<A, B>(s: seq<A>, f: A -> B, y: B)
    ensures y in Map(s, f) <==> exists x :: x in s && f(x) == y
  {
    if x :| x in s && f(x) == y {
      var i :| 0 <= i < |s| && s[i] == x;
      assert Map(s, f)[i] == y;
    }
  }

  function Without<T>(s: seq<T>, k: nat): seq<T>
    requires k < |s|
  {
    s[..k] + s[k + 1..]
  }

  lemma TakenOut<T>(s: seq<T>, k: nat)
    requires k < |s|
    ensures multiset(s) == multiset(Without(s, k)) + multiset{s[k]}
  {
    assert s == s[..k] + [s[k]] + s[k + 1..];
  }

  lemma MapWithout<A, B>(s: seq<A>, f: A -> B, k: nat)
    requires k < |s|
    ensures Map(Without(s, k), f) == Without(Map(s, f), k)
  {
  }

  /** Lists that agree up to order still do when every row is read the same way. */
  lemma {:induction false} MapPermutes<A, B>(a: seq<A>, b: seq<A>, f: A -> B)
    requires multiset(a) == multiset(b)
    ensures multiset(Map(a, f)) == multiset(Map(b, f))
    decreases |a|
  {
    Permuted(a, b);
    if a != [] {
      assert a[0] in b;
      var k: nat :| k < |b| && b[k] == a[0];
      TakenOut(a, 0);
      TakenOut(b, k);
      assert multiset(Without(a, 0)) == multiset(a) - multiset{a[0]} == multiset(Without(b, k));
      MapPermutes(Without(a, 0), Without(b, k), f);
      MapWithout(a, f, 0);
      MapWithout(b, f, k);
      TakenOut(Map(a, f), 0);
      TakenOut(Map(b, f), k);
    }
  }

  ghost predicate Distinct<T>(s: seq<T>) {
    forall i, j :: 0 <= i < j < |s| ==> s[i] != s[j]
  }

  /** A list without repetition has none in another order. */
  lemma DistinctPermuted<T>(a: seq<T>, b: seq<T>)
    requires multiset(a) == multiset(b) && Distinct(b)
    ensures Distinct(a)
  {
    forall i, j | 0 <= i < j < |a| ensures a[i] != a[j] {
      TwiceIn(a, i, j);
      OnceIn(b, a[i]);
    }
  }

  lemma TwiceIn<T>(a: seq<T>, i: nat, j: nat)
    requires i < j < |a|
    ensures a[i] == a[j] ==> multiset(a)[a[i]] >= 2
  {
    assert a == a[..j] + [a[j]] + a[j + 1..];
    assert a[..j][i] == a[i] && a[i] in a[..j];
  }

  lemma {:induction false} OnceIn<T>(b: seq<T>, x: T)
    requires Distinct(b)
    ensures multiset(b)[x] <= 1
  {
    if b != [] {
      var n := |b| - 1;
      OnceIn(b[..n], x);
      assert b == b[..n] + [b[n]];
      assert b[n] !in b[..n];
    }
  }
}
