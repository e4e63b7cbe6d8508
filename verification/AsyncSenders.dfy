/** The table of parked API requests (kld/src/ldk/controller.rs, AsyncSenders).

    A oneshot channel is named by its index in the list of all channels ever created, so that
    "who still owns the sending half" can be stated for any number of concurrent event arms. */
module AsyncSenders {
  import opened Wrappers

  /** A oneshot channel seen from its sender: still to be used, used, or dropped unused. */
  datatype Oneshot<RV> = Open | Answered(reply: RV) | Closed

  /** `key` is the key under which the insert that created the channel filed it. */
  datatype Channel<K, RV> = Channel(key: K, state: Oneshot<RV>)

  datatype Entry<V> = Entry(value: V, tx: nat)

  datatype Table<K(==), V, RV> = Table(entries: map<K, Entry<V>>, channels: seq<Channel<K, RV>>)

  /** An entry that an event arm has removed from the table and has yet to answer. */
  datatype Held<K, H> = Held(key: K, tx: nat, work: H)

  function Set<K(==), V, RV>(t: Table<K, V, RV>, tx: nat, state: Oneshot<RV>): Table<K, V, RV>
    requires tx < |t.channels|
  {
    t.(channels := t.channels[tx := t.channels[tx].(state := state)])
  }

  ghost predicate EntriesInRange<K, V, RV>(t: Table<K, V, RV>) {
    forall k :: k in t.entries ==> t.entries[k].tx < |t.channels|
  }

  /** Filing under a key that is taken drops the older sender, as HashMap::insert does. */
  function File<K(==), V, RV>(t: Table<K, V, RV>, k: K, v: V): Table<K, V, RV>
    requires EntriesInRange(t)
  {
    var t0 := if k in t.entries then Set(t, t.entries[k].tx, Closed) else t;
    Table(t0.entries[k := Entry(v, |t0.channels|)], t0.channels + [Channel(k, Open)])
  }

  function Take<K(==), V, RV>(t: Table<K, V, RV>, k: K): Table<K, V, RV> {
    t.(entries := t.entries - {k})
  }

  function Send<K(==), V, RV>(t: Table<K, V, RV>, tx: nat, rv: RV): Table<K, V, RV>
    requires tx < |t.channels|
  {
    Set(t, tx, Answered(rv))
  }

  function RespondTo<K(==), V, RV>(t: Table<K, V, RV>, k: K, rv: RV): Table<K, V, RV>
    requires EntriesInRange(t)
  {
    if k in t.entries then Send(Take(t, k), t.entries[k].tx, rv) else t
  }

  /** The process stops: the table is lost and every unused sender with it. */
  function Restart<K(==), V, RV>(t: Table<K, V, RV>): Table<K, V, RV> {
    Table(map[], seq(|t.channels|, i requires 0 <= i < |t.channels| =>
                     if t.channels[i].state.Open? then t.channels[i].(state := Closed) else t.channels[i]))
  }

  // ---- Ownership of senders ----

  function NothingHeld<K, H>(): map<nat, Held<K, H>> { map[] }

  ghost predicate InTable<K, V, RV>(t: Table<K, V, RV>, c: nat) {
    exists k :: k in t.entries && t.entries[k].tx == c
  }

  ghost predicate IsHeld<K, H>(held: map<nat, Held<K, H>>, c: nat) {
    exists a :: a in held && held[a].tx == c
  }

  ghost predicate EntriesOpen<K(!new), V, RV>(t: Table<K, V, RV>) {
    forall k :: k in t.entries ==>
      t.entries[k].tx < |t.channels| && t.channels[t.entries[k].tx] == Channel(k, Open)
  }

  ghost predicate HeldOpen<K, V, RV, H>(t: Table<K, V, RV>, held: map<nat, Held<K, H>>) {
    && (forall a :: a in held ==>
          && held[a].tx < |t.channels|
          && t.channels[held[a].tx] == Channel(held[a].key, Open)
          && !InTable(t, held[a].tx))
    && (forall a, b :: a in held && b in held && a != b ==> held[a].tx != held[b].tx)
  }

  ghost predicate NoneLost<K, V, RV, H>(t: Table<K, V, RV>, held: map<nat, Held<K, H>>) {
    forall c :: 0 <= c < |t.channels| && t.channels[c].state.Open? ==> InTable(t, c) || IsHeld(held, c)
  }

  /** Every unused sender is in exactly one place, under the key of its own insert, and every
      place holds an unused sender. */
  ghost predicate Owned<K(!new), V, RV, H>(t: Table<K, V, RV>, held: map<nat, Held<K, H>>) {
    EntriesOpen(t) && HeldOpen(t, held) && NoneLost(t, held)
  }

  /** Channels are never forgotten, never re-keyed, and a used or dropped one never changes. */
  ghost predicate Extends<K, V, RV>(t: Table<K, V, RV>, t': Table<K, V, RV>) {
    && |t.channels| <= |t'.channels|
    && forall c {:trigger t'.channels[c]} {:trigger t.channels[c]} :: 0 <= c < |t.channels| ==>
         && t'.channels[c].key == t.channels[c].key
         && (!t.channels[c].state.Open? ==> t'.channels[c] == t.channels[c])
  }

  lemma InsertKeepsOwned<K(!new), V, RV, H>(t: Table<K, V, RV>, held: map<nat, Held<K, H>>, k: K, v: V)
    requires Owned(t, held)
    ensures EntriesInRange(t)
    ensures Owned(File(t, k, v), held) && Extends(t, File(t, k, v))
    ensures File(t, k, v).channels[|t.channels|] == Channel(k, Open)
  {
    InsertKeepsHeld(t, held, k, v);
    InsertLosesNone(t, held, k, v);
  }

  lemma InsertKeepsHeld<K(!new), V, RV, H>(t: Table<K, V, RV>, held: map<nat, Held<K, H>>, k: K, v: V)
    requires EntriesOpen(t) && HeldOpen(t, held)
    ensures HeldOpen(File(t, k, v), held)
  {
    var t' := File(t, k, v);
    forall a | a in held
      ensures t'.channels[held[a].tx] == Channel(held[a].key, Open) && !InTable(t', held[a].tx)
    {
      if k in t.entries { assert InTable(t, t.entries[k].tx); }
      InsertFilesNew(t, k, v, held[a].tx);
    }
  }

  lemma InsertFilesNew<K(!new), V, RV>(t: Table<K, V, RV>, k: K, v: V, c: nat)
    requires EntriesInRange(t) && c < |t.channels|
    ensures InTable(File(t, k, v), c) ==> InTable(t, c)
  {
    if InTable(File(t, k, v), c) {
      var j :| j in File(t, k, v).entries && File(t, k, v).entries[j].tx == c;
      assert j in t.entries && t.entries[j].tx == c;
    }
  }

  lemma InsertLosesNone<K(!new), V, RV, H>(t: Table<K, V, RV>, held: map<nat, Held<K, H>>, k: K, v: V)
    requires EntriesOpen(t) && NoneLost(t, held)
    ensures NoneLost(File(t, k, v), held)
  {
    var t' := File(t, k, v);
    assert t'.entries[k].tx == |t.channels|;
    forall c | 0 <= c < |t'.channels| && t'.channels[c].state.Open?
      ensures InTable(t', c) || IsHeld(held, c)
    {
      if c < |t.channels| && InTable(t, c) {
        var j :| j in t.entries && t.entries[j].tx == c;
        assert j in t'.entries && t'.entries[j].tx == c;
      }
    }
  }

  lemma TakeKeepsOwned<K(!new), V, RV, H>(t: Table<K, V, RV>, held: map<nat, Held<K, H>>, arm: nat, k: K, h: H)
    requires Owned(t, held) && k in t.entries && arm !in held
    ensures Owned(Take(t, k), held[arm := Held(k, t.entries[k].tx, h)])
    ensures Extends(t, Take(t, k))
  {
    TakeKeepsHeld(t, held, arm, k, h);
    TakeLosesNone(t, held, arm, k, h);
  }

  lemma TakeKeepsHeld<K(!new), V, RV, H>(t: Table<K, V, RV>, held: map<nat, Held<K, H>>, arm: nat, k: K, h: H)
    requires EntriesOpen(t) && HeldOpen(t, held) && k in t.entries && arm !in held
    ensures HeldOpen(Take(t, k), held[arm := Held(k, t.entries[k].tx, h)])
  {
    assert InTable(t, t.entries[k].tx);
    TakeUnfiles(t, k, t.entries[k].tx);
    forall a | a in held ensures !InTable(Take(t, k), held[a].tx) {
      TakeUnfiles(t, k, held[a].tx);
    }
  }

  lemma TakeUnfiles<K(!new), V, RV>(t: Table<K, V, RV>, k: K, c: nat)
    requires EntriesOpen(t) && k in t.entries
    ensures InTable(Take(t, k), c) ==> InTable(t, c) && c != t.entries[k].tx
  {
    if InTable(Take(t, k), c) {
      var j :| j in Take(t, k).entries && Take(t, k).entries[j].tx == c;
      assert j != k && t.entries[j].tx == c && t.channels[c] == Channel(j, Open);
    }
  }

  lemma TakeLosesNone<K(!new), V, RV, H>(t: Table<K, V, RV>, held: map<nat, Held<K, H>>, arm: nat, k: K, h: H)
    requires NoneLost(t, held) && k in t.entries && arm !in held
    ensures NoneLost(Take(t, k), held[arm := Held(k, t.entries[k].tx, h)])
  {
    var t', held' := Take(t, k), held[arm := Held(k, t.entries[k].tx, h)];
    forall c | 0 <= c < |t'.channels| && t'.channels[c].state.Open?
      ensures InTable(t', c) || IsHeld(held', c)
    {
      if InTable(t, c) {
        var j :| j in t.entries && t.entries[j].tx == c;
        if j == k { assert held'[arm].tx == c; } else { assert t'.entries[j].tx == c; }
      } else {
        var a :| a in held && held[a].tx == c;
        assert held'[a].tx == c;
      }
    }
  }

  lemma SendKeepsOwned<K(!new), V, RV, H>(t: Table<K, V, RV>, held: map<nat, Held<K, H>>, arm: nat, rv: RV)
    requires Owned(t, held) && arm in held
    ensures held[arm].tx < |t.channels| && t.channels[held[arm].tx].state.Open?
    ensures Owned(Send(t, held[arm].tx, rv), held - {arm})
    ensures Extends(t, Send(t, held[arm].tx, rv))
  {
    var tx := held[arm].tx;
    var t', held' := Send(t, tx, rv), held - {arm};
    forall k | k in t'.entries ensures t'.channels[t'.entries[k].tx] == Channel(k, Open) {
      assert InTable(t, t.entries[k].tx);
    }
    forall c | 0 <= c < |t'.channels| && t'.channels[c].state.Open?
      ensures InTable(t', c) || IsHeld(held', c)
    {
      assert c != tx && t.channels[c].state.Open?;
      if InTable(t, c) {
        var j :| j in t.entries && t.entries[j].tx == c;
        assert t'.entries[j].tx == c;
      } else {
        var a :| a in held && held[a].tx == c;
        assert a in held' && held'[a].tx == c;
      }
    }
  }

  /** `respond` is a take and a send with nothing in between. */
  lemma RespondKeepsOwned<K(!new), V, RV, H>(t: Table<K, V, RV>, held: map<nat, Held<K, H>>, k: K, rv: RV, h: H)
    requires Owned(t, held)
    ensures EntriesInRange(t)
    ensures Owned(RespondTo(t, k, rv), held) && Extends(t, RespondTo(t, k, rv))
  {
    if k in t.entries {
      var arm := FreshArm(held);
      TakeKeepsOwned(t, held, arm, k, h);
      var held1 := held[arm := Held(k, t.entries[k].tx, h)];
      SendKeepsOwned(Take(t, k), held1, arm, rv);
      assert held1 - {arm} == held;
    }
  }

  lemma FreshArm<X>(m: map<nat, X>) returns (arm: nat)
    ensures arm !in m
  {
    arm := FreshNat(m.Keys);
  }

  lemma FreshNat(s: set<nat>) returns (n: nat)
    ensures forall x :: x in s ==> x < n
    decreases s
  {
    if s == {} {
      n := 0;
    } else {
      var x :| x in s;
      var m := FreshNat(s - {x});
      n := if m <= x then x + 1 else m;
      forall y | y in s ensures y < n {
        assert y == x || y in s - {x};
      }
    }
  }

  lemma RestartKeepsOwned<K(!new), V, RV, H>(t: Table<K, V, RV>)
    ensures Owned(Restart(t), NothingHeld<K, H>())
    ensures Extends(t, Restart(t))
  {
  }

  lemma ExtendsTransitive<K, V, RV>(t0: Table<K, V, RV>, t1: Table<K, V, RV>, t2: Table<K, V, RV>)
    requires Extends(t0, t1) && Extends(t1, t2)
    ensures Extends(t0, t2)
  {
    forall c | 0 <= c < |t0.channels|
      ensures t2.channels[c].key == t0.channels[c].key
      ensures !t0.channels[c].state.Open? ==> t2.channels[c] == t0.channels[c]
    {
      assert t1.channels[c].key == t0.channels[c].key;
    }
  }

  // ---- The table as the program keeps it ----

  class Senders<K(==), V, RV> {
    var senders: map<K, Entry<V>>
    var channels: seq<Channel<K, RV>>

    ghost function View(): Table<K, V, RV>
      reads this
    {
      Table(senders, channels)
    }

    ghost predicate Valid()
      reads this
    {
      && EntriesInRange(View())
      && (forall k :: k in senders ==> channels[senders[k].tx] == Channel(k, Open))
    }

    constructor ()
      ensures Valid() && View() == Table(map[], [])
    {
      senders, channels := map[], [];
    }

    method Insert(k: K, v: V) returns (rx: nat)
      requires Valid()
      modifies this
      ensures Valid() && View() == File(old(View()), k, v)
      ensures rx == |old(channels)| && channels[rx] == Channel(k, Open)
    {
      if k in senders {
        var tx := senders[k].tx;
        channels := channels[tx := channels[tx].(state := Closed)];
      }
      rx := |channels|;
      channels := channels + [Channel(k, Open)];
      senders := senders[k := Entry(v, rx)];
    }

    method Get(k: K) returns (entry: Option<Entry<V>>)
      requires Valid()
      modifies this
      ensures Valid() && channels == old(channels)
      ensures k in old(senders) ==>
                entry == Some(old(senders)[k]) && View() == Take(old(View()), k)
      ensures k !in old(senders) ==> entry == None && View() == old(View())
    {
      entry := None;
      if k in senders {
        entry := Some(senders[k]);
        senders := senders - {k};
      }
    }

    /** The `respond` closure that `get` returns. */
    method Answer(tx: nat, rv: RV)
      requires Valid() && tx < |channels| && channels[tx].state.Open?
      requires forall k :: k in senders ==> senders[k].tx != tx
      modifies this
      ensures Valid() && View() == Send(old(View()), tx, rv)
    {
      channels := channels[tx := channels[tx].(state := Answered(rv))];
    }

    method Respond(k: K, rv: RV)
      requires Valid()
      modifies this
      ensures Valid() && View() == RespondTo(old(View()), k, rv)
    {
      var entry := Get(k);
      if entry.Some? {
        Answer(entry.value.tx, rv);
      }
    }
  }
}
