/** Sweeping the outputs of closed channels (kld/src/ldk/event_handler.rs, SpendableOutputs arm;
    kld/src/database/ldk_database.rs, persist_spendable_output). */
module SpendableOutputs {
  import opened Wrappers
  import opened Integers
  import opened Channels

  datatype Descriptor = Descriptor(outPoint: OutPoint, value: nat, data: seq<int>)

  /** The primary key (txid, "index"), the index stored as INT2. */
  datatype Key = Key(txid: seq<int>, index: int)
  datatype Row = Row(value: nat, channelId: Option<seq<int>>, data: seq<int>, isSpent: bool)

  /** `index as i16` */
  function AsI16(n: U16): (i: int)
    ensures -0x8000 <= i < 0x8000 && i % 0x1_0000 == n
  {
    if n < 0x8000 then n else n - 0x1_0000
  }

  function KeyOf(o: OutPoint): Key { Key(o.txid, AsI16(o.index)) }

  lemma KeysTellOutputsApart(o1: OutPoint, o2: OutPoint)
    requires KeyOf(o1) == KeyOf(o2)
    ensures o1 == o2
  {
  }

  /** An UPSERT that does not list channel_id keeps the stored one. */
  function Upsert(rows: map<Key, Row>, d: Descriptor, channelId: Option<seq<int>>, isSpent: bool): map<Key, Row> {
    var k := KeyOf(d.outPoint);
    var kept := if channelId.None? && k in rows then rows[k].channelId else channelId;
    rows[k := Row(d.value, kept, d.data, isSpent)]
  }

  /** Which of the steps between the two rounds of writes succeed. */
  datatype Steps = Steps(address: bool, height: bool, lockTime: bool, build: bool)

  predicate AllSucceed(steps: Steps) { steps.address && steps.height && steps.lockTime && steps.build }

  function OutPoints(outputs: seq<Descriptor>): set<OutPoint> {
    set i | 0 <= i < |outputs| :: outputs[i].outPoint
  }

  // ---- One arm, run to its end ----

  class Sweeper {
    var rows: map<Key, Row>
    /** The inputs of every spending transaction handed to the broadcaster, in order. */
    var broadcasts: seq<set<OutPoint>>

    constructor ()
      ensures rows == map[] && broadcasts == []
    {
      rows, broadcasts := map[], [];
    }

    /** A failed write is logged and otherwise ignored. */
    method Persist(d: Descriptor, channelId: Option<seq<int>>, isSpent: bool, committed: bool)
      modifies this`rows
      ensures rows == if committed then Upsert(old(rows), d, channelId, isSpent) else old(rows)
      ensures committed ==> Stored(rows, d, isSpent) && KeepsChannel(old(rows), rows, d, channelId)
    {
      if committed {
        rows := Upsert(rows, d, channelId, isSpent);
      }
    }

    /** `commits(round, i)` says whether the write of output i in that round commits. */
    method Handle(outputs: seq<Descriptor>, channelId: Option<seq<int>>, steps: Steps, commits: (bool, nat) -> bool)
      returns (ok: bool)
      modifies this
      ensures ok <==> AllSucceed(steps)
      ensures broadcasts == if ok then old(broadcasts) + [OutPoints(outputs)] else old(broadcasts)
      // a row becomes spent only when its output was broadcast
      ensures SpentOnlyOf(old(rows), rows, if ok then outputs else [])
      ensures OthersKept(old(rows), rows, outputs)
      // a write that commits in the last round reached leaves its output with that status
      ensures forall i :: LastMention(outputs, i) && commits(ok, i) ==>
                Stored(rows, outputs[i], ok) && KeepsChannel(old(rows), rows, outputs[i], channelId)
      // and the whole is what the arm's script says
      ensures (rows, broadcasts)
           == Ran(old(rows), old(broadcasts), Script(outputs, channelId, steps), InTurn(|outputs|, commits))
    {
      ghost var rows0, broadcasts0 := rows, broadcasts;
      Round(outputs, channelId, false, commits);
      ghost var first := rows;
      ok := steps.address && steps.height && steps.lockTime && steps.build;
      if ok {
        broadcasts := broadcasts + [OutPoints(outputs)];
        Round(outputs, channelId, true, commits);
      }
      TwoRounds(rows0, outputs, channelId, ok, commits);
      ScriptRuns(rows0, broadcasts0, outputs, channelId, steps, commits);
    }

    method Round(outputs: seq<Descriptor>, channelId: Option<seq<int>>, isSpent: bool, commits: (bool, nat) -> bool)
      modifies this`rows
      ensures rows == AfterRound(old(rows), outputs, channelId, isSpent, commits)
    {
      for n := 0 to |outputs|
        invariant rows == AfterRound(old(rows), outputs[..n], channelId, isSpent, commits)
      {
        assert outputs[..n + 1][..n] == outputs[..n];
        Persist(outputs[n], channelId, isSpent, commits(isSpent, n));
      }
      assert outputs[..|outputs|] == outputs;
    }
  }

  /** The event names this output here and not again. */
  ghost predicate LastMention(outputs: seq<Descriptor>, i: int) {
    0 <= i < |outputs| && forall j :: i < j < |outputs| ==> outputs[j].outPoint != outputs[i].outPoint
  }

  ghost predicate Stored(rows: map<Key, Row>, d: Descriptor, isSpent: bool) {
    var k := KeyOf(d.outPoint);
    k in rows && rows[k].isSpent == isSpent && rows[k].value == d.value && rows[k].data == d.data
  }

  /** The row has the channel id of the write, or the one it had if the write brings none. */
  ghost predicate KeepsChannel(before: map<Key, Row>, after: map<Key, Row>, d: Descriptor,
                               channelId: Option<seq<int>>)
  {
    var k := KeyOf(d.outPoint);
    && k in after
    && after[k].channelId == if channelId.None? && k in before then before[k].channelId else channelId
  }

  /** The row is that of one of these outputs. */
  ghost predicate IsKeyOf(outputs: seq<Descriptor>, k: Key) {
    exists i :: 0 <= i < |outputs| && KeyOf(outputs[i].outPoint) == k
  }

  /** A row that says spent said so before, or is that of one of these outputs. */
  ghost predicate SpentOnlyOf(before: map<Key, Row>, after: map<Key, Row>, outputs: seq<Descriptor>) {
    forall k :: k in after && after[k].isSpent ==> (k in before && before[k].isSpent) || IsKeyOf(outputs, k)
  }

  /** The rows of all other outputs are untouched. */
  ghost predicate OthersKept(before: map<Key, Row>, after: map<Key, Row>, outputs: seq<Descriptor>) {
    forall k :: !IsKeyOf(outputs, k) ==> (k in after <==> k in before) && (k in after ==> after[k] == before[k])
  }

  /** No row has gone, and none has got a channel id but that one or, with none to give, but its own. */
  ghost predicate ChannelsKept(before: map<Key, Row>, after: map<Key, Row>, channelId: Option<seq<int>>) {
    && before.Keys <= after.Keys
    && forall k :: k in after ==>
         || (k in before && after[k].channelId == before[k].channelId)
         || (after[k].channelId == channelId && (k in before ==> channelId.Some?))
  }

  /** The rows after one round of writes, the write of output i committing or not. */
  function AfterRound(rows: map<Key, Row>, outputs: seq<Descriptor>, channelId: Option<seq<int>>, isSpent: bool,
                      commits: (bool, nat) -> bool): map<Key, Row> {
    if outputs == [] then rows
    else
      var n := |outputs| - 1;
      var before := AfterRound(rows, outputs[..n], channelId, isSpent, commits);
      if commits(isSpent, n) then Upsert(before, outputs[n], channelId, isSpent) else before
  }

  lemma {:induction false} RoundTouches(rows: map<Key, Row>, outputs: seq<Descriptor>, channelId: Option<seq<int>>,
                                        isSpent: bool, commits: (bool, nat) -> bool)
    ensures (var after := AfterRound(rows, outputs, channelId, isSpent, commits);
      && SpentOnlyOf(rows, after, if isSpent then outputs else []) && OthersKept(rows, after, outputs)
      && ChannelsKept(rows, after, channelId))
  {
    if outputs != [] {
      var n := |outputs| - 1;
      RoundTouches(rows, outputs[..n], channelId, isSpent, commits);
      KeysGrow(outputs);
    }
  }

  lemma KeysGrow(outputs: seq<Descriptor>)
    requires outputs != []
    ensures (var n := |outputs| - 1;
      forall k :: IsKeyOf(outputs, k) <==> IsKeyOf(outputs[..n], k) || KeyOf(outputs[n].outPoint) == k)
  {
    var n := |outputs| - 1;
    forall k | IsKeyOf(outputs[..n], k) || KeyOf(outputs[n].outPoint) == k ensures IsKeyOf(outputs, k) {
      if IsKeyOf(outputs[..n], k) {
        var i :| 0 <= i < n && KeyOf(outputs[..n][i].outPoint) == k;
        assert KeyOf(outputs[i].outPoint) == k;
      }
    }
    forall k | IsKeyOf(outputs, k) && KeyOf(outputs[n].outPoint) != k ensures IsKeyOf(outputs[..n], k) {
      var i :| 0 <= i < |outputs| && KeyOf(outputs[i].outPoint) == k;
      assert outputs[..n][i] == outputs[i];
    }
  }

  lemma {:induction false} RoundStores(rows: map<Key, Row>, outputs: seq<Descriptor>, channelId: Option<seq<int>>,
                                       isSpent: bool, commits: (bool, nat) -> bool, i: nat)
    requires LastMention(outputs, i) && commits(isSpent, i)
    ensures (var after := AfterRound(rows, outputs, channelId, isSpent, commits);
      && Stored(after, outputs[i], isSpent) && KeepsChannel(rows, after, outputs[i], channelId))
  {
    var n := |outputs| - 1;
    var before := AfterRound(rows, outputs[..n], channelId, isSpent, commits);
    if i < n {
      assert outputs[..n][i] == outputs[i];
      RoundStores(rows, outputs[..n], channelId, isSpent, commits, i);
      if KeyOf(outputs[n].outPoint) == KeyOf(outputs[i].outPoint) {
        KeysTellOutputsApart(outputs[n].outPoint, outputs[i].outPoint);
      }
    } else {
      RoundTouches(rows, outputs[..n], channelId, isSpent, commits);
    }
  }

  /** What an arm leaves: after the first round alone, or after both. */
  lemma TwoRounds(rows: map<Key, Row>, outputs: seq<Descriptor>, channelId: Option<seq<int>>, ok: bool,
                  commits: (bool, nat) -> bool)
    ensures (var first := AfterRound(rows, outputs, channelId, false, commits);
      var last := if ok then AfterRound(first, outputs, channelId, true, commits) else first;
      && SpentOnlyOf(rows, last, if ok then outputs else []) && OthersKept(rows, last, outputs)
      && forall i :: LastMention(outputs, i) && commits(ok, i) ==>
           Stored(last, outputs[i], ok) && KeepsChannel(rows, last, outputs[i], channelId))
  {
    RoundTouches(rows, outputs, channelId, false, commits);
    var first := AfterRound(rows, outputs, channelId, false, commits);
    if ok {
      RoundTouches(first, outputs, channelId, true, commits);
    }
    var start := if ok then first else rows;
    forall i: nat | LastMention(outputs, i) && commits(ok, i)
      ensures Stored(AfterRound(start, outputs, channelId, ok, commits), outputs[i], ok)
      ensures KeepsChannel(start, AfterRound(start, outputs, channelId, ok, commits), outputs[i], channelId)
    {
      RoundStores(start, outputs, channelId, ok, commits, i);
    }
  }

  // ---- Any number of arms, step by step ----

  datatype Effect =
    | Store(descriptor: Descriptor, channelId: Option<seq<int>>, isSpent: bool)
    | Broadcast(inputs: set<OutPoint>)

  function Stores(outputs: seq<Descriptor>, channelId: Option<seq<int>>, isSpent: bool): seq<Effect> {
    seq(|outputs|, i requires 0 <= i < |outputs| => Store(outputs[i], channelId, isSpent))
  }

  /** What an arm does, in order: an early return cuts the list short. */
  function Script(outputs: seq<Descriptor>, channelId: Option<seq<int>>, steps: Steps): seq<Effect> {
    Stores(outputs, channelId, false) +
    if AllSucceed(steps) then [Broadcast(OutPoints(outputs))] + Stores(outputs, channelId, true) else []
  }

  /** The rows and the broadcasts once these effects are done; `commits(k)` says whether the write that is
      effect k commits. */
  function Ran(rows: map<Key, Row>, broadcasts: seq<set<OutPoint>>, effects: seq<Effect>, commits: nat -> bool)
    : (map<Key, Row>, seq<set<OutPoint>>)
  {
    if effects == [] then (rows, broadcasts)
    else
      var n := |effects| - 1;
      Done(Ran(rows, broadcasts, effects[..n], commits), effects[n], commits(n))
  }

  function Done(before: (map<Key, Row>, seq<set<OutPoint>>), effect: Effect, committed: bool)
    : (map<Key, Row>, seq<set<OutPoint>>)
  {
    match effect
    case Store(d, channelId, isSpent) =>
      (if committed then Upsert(before.0, d, channelId, isSpent) else before.0, before.1)
    case Broadcast(inputs) => (before.0, before.1 + [inputs])
  }

  lemma OneMoreEffect(rows: map<Key, Row>, broadcasts: seq<set<OutPoint>>, effects: seq<Effect>, effect: Effect,
                      commits: nat -> bool)
    ensures Ran(rows, broadcasts, effects + [effect], commits)
         == Done(Ran(rows, broadcasts, effects, commits), effect, commits(|effects|))
  {
    assert (effects + [effect])[..|effects|] == effects;
  }

  /** The outcomes of the two rounds, counted through as the script numbers its effects. */
  function InTurn(n: nat, commits: (bool, nat) -> bool): nat -> bool {
    (k: nat) => if k <= n then commits(false, k) else commits(true, k - n - 1)
  }

  lemma {:induction false} StoresRun(rows: map<Key, Row>, broadcasts: seq<set<OutPoint>>, done: seq<Effect>,
                                     outputs: seq<Descriptor>, channelId: Option<seq<int>>, isSpent: bool,
                                     commits: (bool, nat) -> bool, turn: nat -> bool)
    requires forall i: nat :: i < |outputs| ==> turn(|done| + i) == commits(isSpent, i)
    ensures (var before := Ran(rows, broadcasts, done, turn);
      Ran(rows, broadcasts, done + Stores(outputs, channelId, isSpent), turn)
      == (AfterRound(before.0, outputs, channelId, isSpent, commits), before.1))
  {
    var all := done + Stores(outputs, channelId, isSpent);
    if outputs == [] {
      assert all == done;
    } else {
      var n := |outputs| - 1;
      var shorter := done + Stores(outputs[..n], channelId, isSpent);
      StoresRun(rows, broadcasts, done, outputs[..n], channelId, isSpent, commits, turn);
      OneMoreEffect(rows, broadcasts, shorter, Store(outputs[n], channelId, isSpent), turn);
      LastStore(done, outputs, channelId, isSpent);
    }
  }

  lemma LastStore(done: seq<Effect>, outputs: seq<Descriptor>, channelId: Option<seq<int>>, isSpent: bool)
    requires outputs != []
    ensures (var n := |outputs| - 1;
      done + Stores(outputs, channelId, isSpent)
      == done + Stores(outputs[..n], channelId, isSpent) + [Store(outputs[n], channelId, isSpent)])
  {
  }

  /** The two rounds with the broadcast between them do what the script says. */
  lemma ScriptRuns(rows: map<Key, Row>, broadcasts: seq<set<OutPoint>>, outputs: seq<Descriptor>,
                   channelId: Option<seq<int>>, steps: Steps, commits: (bool, nat) -> bool)
    ensures (var first := AfterRound(rows, outputs, channelId, false, commits);
      Ran(rows, broadcasts, Script(outputs, channelId, steps), InTurn(|outputs|, commits))
      == if AllSucceed(steps) then
           (AfterRound(first, outputs, channelId, true, commits), broadcasts + [OutPoints(outputs)])
         else (first, broadcasts))
  {
    var turn := InTurn(|outputs|, commits);
    var one := Stores(outputs, channelId, false);
    assert [] + one == one;
    StoresRun(rows, broadcasts, [], outputs, channelId, false, commits, turn);
    BroadcastThenStores(rows, broadcasts, one, outputs, channelId, commits, turn);
    ScriptParts(outputs, channelId, steps);
  }

  lemma ScriptParts(outputs: seq<Descriptor>, channelId: Option<seq<int>>, steps: Steps)
    ensures (var one := Stores(outputs, channelId, false);
      Script(outputs, channelId, steps)
      == if AllSucceed(steps) then one + [Broadcast(OutPoints(outputs))] + Stores(outputs, channelId, true) else one)
  {
    var one, middle, two :=
      Stores(outputs, channelId, false), [Broadcast(OutPoints(outputs))], Stores(outputs, channelId, true);
    assert one + (middle + two) == one + middle + two;
    assert one + [] == one;
  }

  lemma BroadcastThenStores(rows: map<Key, Row>, broadcasts: seq<set<OutPoint>>, done: seq<Effect>,
                            outputs: seq<Descriptor>, channelId: Option<seq<int>>, commits: (bool, nat) -> bool,
                            turn: nat -> bool)
    requires forall i: nat :: i < |outputs| ==> turn(|done| + 1 + i) == commits(true, i)
    ensures (var inputs, before := OutPoints(outputs), Ran(rows, broadcasts, done, turn);
      Ran(rows, broadcasts, done + [Broadcast(inputs)] + Stores(outputs, channelId, true), turn)
      == (AfterRound(before.0, outputs, channelId, true, commits), before.1 + [inputs]))
  {
    var inputs := OutPoints(outputs);
    OneMoreEffect(rows, broadcasts, done, Broadcast(inputs), turn);
    StoresRun(rows, broadcasts, done + [Broadcast(inputs)], outputs, channelId, true, commits, turn);
  }

  datatype State = State(rows: map<Key, Row>, covered: set<OutPoint>, arms: map<nat, seq<Effect>>)

  datatype Action =
    | Raise(arm: nat, outputs: seq<Descriptor>, channelId: Option<seq<int>>, steps: Steps)
    | Perform(arm: nat, committed: bool)
    | Stop

  const INITIAL := State(map[], {}, map[])

  predicate Enabled(s: State, a: Action) {
    match a
    case Raise(arm, _, _, _) => arm !in s.arms
    case Perform(arm, _) => arm in s.arms && s.arms[arm] != []
    case Stop => true
  }

  /** What a stop leaves of an arm: a write already sent may still be run. */
  function Cut(effects: seq<Effect>): seq<Effect> {
    if effects != [] && effects[0].Store? then [effects[0]] else []
  }

  function Apply(s: State, a: Action): State
    requires Enabled(s, a)
  {
    match a
    case Raise(arm, outputs, channelId, steps) => s.(arms := s.arms[arm := Script(outputs, channelId, steps)])
    case Perform(arm, committed) =>
      var rest := s.arms[arm := s.arms[arm][1..]];
      (match s.arms[arm][0]
       case Broadcast(inputs) => State(s.rows, s.covered + inputs, rest)
       case Store(d, c, isSpent) =>
         State(if committed then Upsert(s.rows, d, c, isSpent) else s.rows, s.covered, rest))
    case Stop => s.(arms := map arm | arm in s.arms :: Cut(s.arms[arm]))
  }

  /** Every "spent" in the list comes after a broadcast of its output. */
  ghost predicate Guarded(covered: set<OutPoint>, effects: seq<Effect>)
    decreases |effects|
  {
    effects != [] ==>
      match effects[0]
      case Broadcast(inputs) => Guarded(covered + inputs, effects[1..])
      case Store(d, _, isSpent) => (isSpent ==> d.outPoint in covered) && Guarded(covered, effects[1..])
  }

  lemma {:induction false} GuardedGrows(covered: set<OutPoint>, covered': set<OutPoint>, effects: seq<Effect>)
    requires covered <= covered' && Guarded(covered, effects)
    ensures Guarded(covered', effects)
    decreases |effects|
  {
    if effects != [] {
      match effects[0] {
        case Broadcast(inputs) => GuardedGrows(covered + inputs, covered' + inputs, effects[1..]);
        case Store(_, _, _) => GuardedGrows(covered, covered', effects[1..]);
      }
    }
  }

  lemma {:induction false} StoresGuarded(outputs: seq<Descriptor>, channelId: Option<seq<int>>, isSpent: bool,
                                         covered: set<OutPoint>, rest: seq<Effect>)
    requires isSpent ==> forall i :: 0 <= i < |outputs| ==> outputs[i].outPoint in covered
    requires Guarded(covered, rest)
    ensures Guarded(covered, Stores(outputs, channelId, isSpent) + rest)
    decreases |outputs|
  {
    var all := Stores(outputs, channelId, isSpent) + rest;
    if outputs == [] {
      assert all == rest;
    } else {
      StoresGuarded(outputs[1..], channelId, isSpent, covered, rest);
      FirstStore(outputs, channelId, isSpent);
      assert all[1..] == Stores(outputs[1..], channelId, isSpent) + rest;
    }
  }

  lemma FirstStore(outputs: seq<Descriptor>, channelId: Option<seq<int>>, isSpent: bool)
    requires outputs != []
    ensures Stores(outputs, channelId, isSpent)
         == [Store(outputs[0], channelId, isSpent)] + Stores(outputs[1..], channelId, isSpent)
  {
  }

  lemma ScriptGuarded(outputs: seq<Descriptor>, channelId: Option<seq<int>>, steps: Steps, covered: set<OutPoint>)
    ensures Guarded(covered, Script(outputs, channelId, steps))
  {
    var inputs := OutPoints(outputs);
    if AllSucceed(steps) {
      forall i | 0 <= i < |outputs| ensures outputs[i].outPoint in covered + inputs {
        assert outputs[i].outPoint in inputs;
      }
      StoresGuarded(outputs, channelId, true, covered + inputs, []);
      var second := Stores(outputs, channelId, true);
      assert second + [] == second;
      var rest := [Broadcast(inputs)] + second;
      assert rest[1..] == second;
      assert Guarded(covered, rest);
      StoresGuarded(outputs, channelId, false, covered, rest);
    } else {
      StoresGuarded(outputs, channelId, false, covered, []);
    }
  }

  ghost predicate SpentIsCovered(s: State) {
    forall o: OutPoint :: KeyOf(o) in s.rows && s.rows[KeyOf(o)].isSpent ==> o in s.covered
  }

  ghost predicate Inv(s: State) {
    && SpentIsCovered(s)
    && forall arm :: arm in s.arms ==> Guarded(s.covered, s.arms[arm])
  }

  lemma StepKeepsInv(s: State, a: Action)
    requires Inv(s) && Enabled(s, a)
    ensures Inv(Apply(s, a)) && s.covered <= Apply(s, a).covered
  {
    var s' := Apply(s, a);
    match a {
      case Raise(arm, outputs, channelId, steps) => ScriptGuarded(outputs, channelId, steps, s.covered);
      case Perform(arm, committed) =>
        assert Guarded(s.covered, s.arms[arm]);
        forall b | b in s.arms && b != arm ensures Guarded(s'.covered, s'.arms[b]) {
          GuardedGrows(s.covered, s'.covered, s.arms[b]);
        }
        SpentStaysCovered(s, arm, committed);
      case Stop =>
        forall arm | arm in s.arms ensures Guarded(s.covered, Cut(s.arms[arm])) {
          assert Guarded(s.covered, s.arms[arm]);
        }
    }
  }

  lemma SpentStaysCovered(s: State, arm: nat, committed: bool)
    requires SpentIsCovered(s) && Enabled(s, Perform(arm, committed)) && Guarded(s.covered, s.arms[arm])
    ensures SpentIsCovered(Apply(s, Perform(arm, committed)))
  {
    var s' := Apply(s, Perform(arm, committed));
    forall o: OutPoint | KeyOf(o) in s'.rows && s'.rows[KeyOf(o)].isSpent ensures o in s'.covered {
      var e := s.arms[arm][0];
      if e.Store? && KeyOf(e.descriptor.outPoint) == KeyOf(o) {
        KeysTellOutputsApart(e.descriptor.outPoint, o);
      }
    }
  }

  ghost predicate IsRun(run: seq<State>, acts: seq<Action>) {
    && |run| == |acts| + 1 && run[0] == INITIAL
    && forall i :: 0 <= i < |acts| ==> Enabled(run[i], acts[i]) && run[i + 1] == Apply(run[i], acts[i])
  }

  lemma {:induction false} RunKeepsInv(run: seq<State>, acts: seq<Action>, i: nat)
    requires IsRun(run, acts) && i < |run|
    ensures Inv(run[i])
  {
    if i > 0 {
      RunKeepsInv(run, acts, i - 1);
      StepKeepsInv(run[i - 1], acts[i - 1]);
    }
  }

  /** Whatever interleaves, fails or is cut short by a stop: an output whose row says spent was an
      input of a transaction broadcast before. */
  lemma SpentImpliesBroadcast(run: seq<State>, acts: seq<Action>, i: nat, o: OutPoint)
    requires IsRun(run, acts) && i < |run| && KeyOf(o) in run[i].rows && run[i].rows[KeyOf(o)].isSpent
    ensures exists j, arm :: 0 <= j < i && BroadcastStep(run, acts, j, arm, o)
  {
    RunKeepsInv(run, acts, i);
    CoveredWasBroadcast(run, acts, i, o);
  }

  ghost predicate BroadcastStep(run: seq<State>, acts: seq<Action>, j: nat, arm: nat, o: OutPoint)
    requires IsRun(run, acts) && j < |acts|
  {
    && acts[j].Perform? && acts[j].arm == arm && arm in run[j].arms && run[j].arms[arm] != []
    && run[j].arms[arm][0].Broadcast? && o in run[j].arms[arm][0].inputs
  }

  lemma {:induction false} CoveredWasBroadcast(run: seq<State>, acts: seq<Action>, i: nat, o: OutPoint)
    requires IsRun(run, acts) && i < |run| && o in run[i].covered
    ensures exists j, arm :: 0 <= j < i && BroadcastStep(run, acts, j, arm, o)
  {
    if i > 0 {
      if o in run[i - 1].covered {
        CoveredWasBroadcast(run, acts, i - 1, o);
        var j, arm :| 0 <= j < i - 1 && BroadcastStep(run, acts, j, arm, o);
      } else {
        assert BroadcastStep(run, acts, i - 1, acts[i - 1].arm, o);
      }
    }
  }
}
