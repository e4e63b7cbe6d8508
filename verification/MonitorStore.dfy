/** Channel monitors written by spawned tasks (kld/src/database/ldk_database.rs,
    persist_new_channel and update_persisted_channel). */
module MonitorStore {
  import opened Wrappers
  import opened Channels

  datatype Monitor = Monitor(data: seq<int>, latestUpdateId: nat)

  /** A write whose process has stopped is adrift: the database may still run it, and nobody hears. */
  datatype Phase = InFlight | Adrift | Stored | Acknowledged | Unheard | Failed

  /** One spawned write: the monitor serialised when it was issued and the id to acknowledge. */
  datatype Task = Task(outPoint: OutPoint, monitor: Monitor, updateId: nat, phase: Phase)

  datatype State = State(tasks: seq<Task>, rows: map<OutPoint, Monitor>, acks: seq<nat>)

  /** A heard commit is followed by an acknowledgement of the same task; any other end is only logged. */
  datatype Action =
    | Issue(outPoint: OutPoint, monitor: Monitor, updateId: nat)
    | Commit(task: nat)
    | CommitUnheard(task: nat)
    | Fail(task: nat)
    | Acknowledge(task: nat)
    | Stop

  const INITIAL := State([], map[], [])

  /** The database has yet to run the write, or never will. */
  predicate Pending(t: Task) { t.phase.InFlight? || t.phase.Adrift? }

  predicate Written(t: Task) { t.phase.Stored? || t.phase.Acknowledged? || t.phase.Unheard? }

  predicate Enabled(s: State, a: Action) {
    match a
    case Issue(_, _, _) => true
    case Commit(t) => t < |s.tasks| && s.tasks[t].phase.InFlight?
    case CommitUnheard(t) => t < |s.tasks| && Pending(s.tasks[t])
    case Fail(t) => t < |s.tasks| && Pending(s.tasks[t])
    case Acknowledge(t) => t < |s.tasks| && s.tasks[t].phase.Stored?
    case Stop => true
  }

  function Moved(s: State, t: nat, phase: Phase): seq<Task>
    requires t < |s.tasks|
  {
    s.tasks[t := s.tasks[t].(phase := phase)]
  }

  function LetGo(t: Task): Task {
    match t.phase
    case InFlight => t.(phase := Adrift)
    case Stored => t.(phase := Unheard)
    case _ => t
  }

  function Apply(s: State, a: Action): State
    requires Enabled(s, a)
  {
    match a
    case Issue(op, m, u) => s.(tasks := s.tasks + [Task(op, m, u, InFlight)])
    case Commit(t) => State(Moved(s, t, Stored), s.rows[s.tasks[t].outPoint := s.tasks[t].monitor], s.acks)
    case CommitUnheard(t) => State(Moved(s, t, Unheard), s.rows[s.tasks[t].outPoint := s.tasks[t].monitor], s.acks)
    case Fail(t) => s.(tasks := Moved(s, t, Failed))
    case Acknowledge(t) => s.(tasks := Moved(s, t, Acknowledged), acks := s.acks + [t])
    case Stop => s.(tasks := seq(|s.tasks|, i requires 0 <= i < |s.tasks| => LetGo(s.tasks[i])))
  }

  /** The tasks that have committed are in `order`, each once, oldest first. */
  ghost predicate OrderOk(s: State, order: seq<nat>) {
    && (forall t :: t in order <==> 0 <= t < |s.tasks| && Written(s.tasks[t]))
    && (forall i, j :: 0 <= i < j < |order| ==> order[i] != order[j])
  }

  ghost predicate AcksOk(s: State) {
    && (forall t :: t in s.acks <==> 0 <= t < |s.tasks| && s.tasks[t].phase.Acknowledged?)
    && (forall i, j :: 0 <= i < j < |s.acks| ==> s.acks[i] != s.acks[j])
  }

  /** The row of an outpoint is there exactly when a write for it has committed, and is the monitor
      of the last one that did. */
  ghost predicate RowOk(s: State, order: seq<nat>, op: OutPoint) {
    var last := LastFor(s.tasks, order, op);
    && (op in s.rows <==> last.Some?)
    && (last.Some? ==> s.rows[op] == s.tasks[last.value].monitor)
  }

  ghost predicate Inv(s: State, order: seq<nat>) {
    && OrderOk(s, order) && AcksOk(s)
    && (forall op :: RowOk(s, order, op))
  }

  /** The last task of the list that wrote for this outpoint. */
  function LastFor(tasks: seq<Task>, order: seq<nat>, op: OutPoint): (t: Option<nat>)
    ensures t.Some? ==> t.value in order && t.value < |tasks| && tasks[t.value].outPoint == op
    ensures t.None? ==> forall x :: x in order && x < |tasks| ==> tasks[x].outPoint != op
  {
    if order == [] then None
    else
      var last := order[|order| - 1];
      if last < |tasks| && tasks[last].outPoint == op then Some(last)
      else LastFor(tasks, order[..|order| - 1], op)
  }

  predicate TakesEffect(a: Action) { a.Commit? || a.CommitUnheard? }

  function Record(order: seq<nat>, a: Action): seq<nat> {
    if TakesEffect(a) then order + [a.task] else order
  }

  lemma {:induction false} LastForSameTargets(tasks: seq<Task>, tasks': seq<Task>, order: seq<nat>, op: OutPoint)
    requires forall i :: 0 <= i < |order| ==>
               order[i] < |tasks| && order[i] < |tasks'| && tasks'[order[i]].outPoint == tasks[order[i]].outPoint
    ensures LastFor(tasks', order, op) == LastFor(tasks, order, op)
  {
    if order != [] {
      LastForSameTargets(tasks, tasks', order[..|order| - 1], op);
    }
  }

  lemma StepKeepsTargets(s: State, a: Action, order: seq<nat>, op: OutPoint)
    requires OrderOk(s, order) && Enabled(s, a)
    ensures LastFor(Apply(s, a).tasks, order, op) == LastFor(s.tasks, order, op)
    ensures forall t :: t in order ==> Apply(s, a).tasks[t].monitor == s.tasks[t].monitor
  {
    forall i | 0 <= i < |order|
      ensures order[i] < |s.tasks| && order[i] < |Apply(s, a).tasks|
      ensures Apply(s, a).tasks[order[i]].outPoint == s.tasks[order[i]].outPoint
    {
      assert order[i] in order;
    }
    LastForSameTargets(s.tasks, Apply(s, a).tasks, order, op);
  }

  lemma StepKeepsRow(s: State, a: Action, order: seq<nat>, op: OutPoint)
    requires OrderOk(s, order) && Enabled(s, a) && RowOk(s, order, op)
    ensures RowOk(Apply(s, a), Record(order, a), op)
  {
    StepKeepsTargets(s, a, order, op);
    if TakesEffect(a) {
      var order' := order + [a.task];
      assert order'[..|order|] == order;
      assert Apply(s, a).rows == s.rows[s.tasks[a.task].outPoint := s.tasks[a.task].monitor];
    } else {
      assert Apply(s, a).rows == s.rows;
    }
  }

  lemma StepKeepsInv(s: State, a: Action, order: seq<nat>)
    requires Inv(s, order) && Enabled(s, a)
    ensures Inv(Apply(s, a), Record(order, a))
  {
    forall op ensures RowOk(Apply(s, a), Record(order, a), op) {
      assert RowOk(s, order, op);
      StepKeepsRow(s, a, order, op);
    }
  }

  // ---- Runs ----

  function Exec(s: State, acts: seq<Action>): Option<State>
    decreases |acts|
  {
    if acts == [] then Some(s)
    else if Enabled(s, acts[0]) then Exec(Apply(s, acts[0]), acts[1..])
    else None
  }

  /** The committed tasks of a run, oldest first. */
  function Commits(acts: seq<Action>): seq<nat> {
    if acts == [] then []
    else Commits(acts[..|acts| - 1]) + (if TakesEffect(acts[|acts| - 1]) then [acts[|acts| - 1].task] else [])
  }

  lemma {:induction false} ExecAppend(s: State, acts: seq<Action>, a: Action)
    ensures Exec(s, acts + [a]) ==
            if Exec(s, acts).Some? && Enabled(Exec(s, acts).value, a) then Some(Apply(Exec(s, acts).value, a)) else None
    decreases |acts|
  {
    if acts == [] {
      assert (acts + [a])[1..] == [];
      assert Exec(Apply'(s, a), []) == Some(Apply'(s, a));
    } else if Enabled(s, acts[0]) {
      assert (acts + [a])[1..] == acts[1..] + [a];
      ExecAppend(Apply(s, acts[0]), acts[1..], a);
    }
  }

  function Apply'(s: State, a: Action): State { if Enabled(s, a) then Apply(s, a) else s }

  lemma {:induction false} RunKeepsInv(acts: seq<Action>)
    requires Exec(INITIAL, acts).Some?
    ensures Inv(Exec(INITIAL, acts).value, Commits(acts))
  {
    if acts == [] {
    } else {
      var n := |acts| - 1;
      assert acts == acts[..n] + [acts[n]];
      ExecAppend(INITIAL, acts[..n], acts[n]);
      RunKeepsInv(acts[..n]);
      StepKeepsInv(Exec(INITIAL, acts[..n]).value, acts[n], Commits(acts[..n]));
      assert Commits(acts) == Record(Commits(acts[..n]), acts[n]);
    }
  }

  /** What a task heard it did: only a heard commit leads to an acknowledgement. */
  lemma {:induction false} HeardCommit(acts: seq<Action>, t: nat)
    requires Exec(INITIAL, acts).Some? && t < |Exec(INITIAL, acts).value.tasks|
    requires (var phase := Exec(INITIAL, acts).value.tasks[t].phase; phase.Stored? || phase.Acknowledged?)
    ensures Commit(t) in acts
  {
    if acts != [] {
      var n := |acts| - 1;
      assert acts == acts[..n] + [acts[n]];
      ExecAppend(INITIAL, acts[..n], acts[n]);
      if acts[n] != Commit(t) { HeardCommit(acts[..n], t); }
    }
  }

  /** In every run: an update is acknowledged at most once, and only after its own write has committed
      and its task has heard so; and each stored row is the monitor of the last write that committed
      for it, heard or not, the process that issued it still running or not. */
  lemma AcknowledgedOnceAfterCommit(acts: seq<Action>)
    requires Exec(INITIAL, acts).Some?
    ensures (var s := Exec(INITIAL, acts).value;
      && (forall i :: 0 <= i < |s.acks| ==> s.acks[i] in Commits(acts) && Commit(s.acks[i]) in acts)
      && (forall i, j :: 0 <= i < j < |s.acks| ==> s.acks[i] != s.acks[j])
      && (forall i, j :: 0 <= i < j < |Commits(acts)| ==> Commits(acts)[i] != Commits(acts)[j])
      && (forall op :: RowOk(s, Commits(acts), op)))
  {
    RunKeepsInv(acts);
    var s := Exec(INITIAL, acts).value;
    forall i | 0 <= i < |s.acks| ensures s.acks[i] in Commits(acts) && Commit(s.acks[i]) in acts {
      assert s.acks[i] in s.acks;
      HeardCommit(acts, s.acks[i]);
    }
  }

  /** The writes handed over in a run, oldest first. */
  function Issues(acts: seq<Action>): seq<Action> {
    if acts == [] then []
    else Issues(acts[..|acts| - 1]) + if acts[|acts| - 1].Issue? then [acts[|acts| - 1]] else []
  }

  /** Task t is what the issue says, whatever has become of it. */
  predicate IsTaskOf(t: Task, a: Action) {
    a.Issue? && t.outPoint == a.outPoint && t.monitor == a.monitor && t.updateId == a.updateId
  }

  lemma StepKeepsTasks(s: State, a: Action, t: nat)
    requires Enabled(s, a) && t < |s.tasks|
    ensures |Apply(s, a).tasks| == |s.tasks| + if a.Issue? then 1 else 0
    ensures Apply(s, a).tasks[t] == s.tasks[t].(phase := Apply(s, a).tasks[t].phase)
  {
  }

  /** In every run: each write handed over is one task, which keeps its outpoint, its monitor and its update id
      to the end, and which is acknowledged exactly when its acknowledgement has happened. */
  lemma {:induction false} TasksAreAsIssued(acts: seq<Action>)
    requires Exec(INITIAL, acts).Some?
    ensures (var s := Exec(INITIAL, acts).value;
      && |s.tasks| == |Issues(acts)|
      && (forall t :: 0 <= t < |s.tasks| ==> IsTaskOf(s.tasks[t], Issues(acts)[t]))
      && (forall t :: t in s.acks <==> Acknowledge(t) in acts))
  {
    if acts != [] {
      var n := |acts| - 1;
      assert acts == acts[..n] + [acts[n]];
      ExecAppend(INITIAL, acts[..n], acts[n]);
      TasksAreAsIssued(acts[..n]);
      var before := Exec(INITIAL, acts[..n]).value;
      var s := Exec(INITIAL, acts).value;
      forall t: nat | t < |before.tasks| ensures IsTaskOf(s.tasks[t], Issues(acts)[t]) {
        StepKeepsTasks(before, acts[n], t);
      }
      TasksGrow(before, acts[n]);
    }
  }

  lemma TasksGrow(s: State, a: Action)
    requires Enabled(s, a)
    ensures |Apply(s, a).tasks| == |s.tasks| + if a.Issue? then 1 else 0
    ensures a.Issue? ==> IsTaskOf(Apply(s, a).tasks[|s.tasks|], a)
    ensures forall t :: t in Apply(s, a).acks <==> t in s.acks || a == Acknowledge(t)
  {
  }

  lemma ExecFirst(acts: seq<Action>, n: nat)
    requires n <= |acts| && Exec(INITIAL, acts).Some?
    ensures Exec(INITIAL, acts[..n]).Some?
    decreases |acts| - n
  {
    if n < |acts| {
      ExecFirst(acts, n + 1);
      assert acts[..n + 1] == acts[..n] + [acts[n]];
      ExecAppend(INITIAL, acts[..n], acts[n]);
    } else {
      assert acts[..n] == acts;
    }
  }

  /** The task has no process any more that could hear of its write. */
  predicate Gone(t: Task) { !t.phase.InFlight? && !t.phase.Stored? }

  lemma GoneStays(s: State, a: Action, t: nat)
    requires Enabled(s, a) && t < |s.tasks| && Gone(s.tasks[t])
    ensures t < |Apply(s, a).tasks| && Gone(Apply(s, a).tasks[t])
    ensures t in Apply(s, a).acks <==> t in s.acks
  {
  }

  lemma StopLetsGo(s: State, t: nat)
    requires t < |s.tasks|
    ensures Gone(Apply(s, Stop).tasks[t]) && Apply(s, Stop).acks == s.acks
  {
  }

  /** A stop silences every task: what it had not acknowledged by then, it never does. */
  lemma {:induction false} NoneAfterStop(acts: seq<Action>, n: nat, i: nat, t: nat)
    requires n < i <= |acts| && acts[n] == Stop && Exec(INITIAL, acts).Some?
    requires Exec(INITIAL, acts[..n]).Some? && t < |Exec(INITIAL, acts[..n]).value.tasks|
    ensures Exec(INITIAL, acts[..i]).Some? && t < |Exec(INITIAL, acts[..i]).value.tasks|
    ensures Gone(Exec(INITIAL, acts[..i]).value.tasks[t])
    ensures t in Exec(INITIAL, acts[..i]).value.acks <==> t in Exec(INITIAL, acts[..n]).value.acks
    decreases i
  {
    ExecFirst(acts, i);
    assert acts[..i] == acts[..i - 1] + [acts[i - 1]];
    ExecAppend(INITIAL, acts[..i - 1], acts[i - 1]);
    if i == n + 1 {
      StopLetsGo(Exec(INITIAL, acts[..n]).value, t);
    } else {
      NoneAfterStop(acts, n, i - 1, t);
      GoneStays(Exec(INITIAL, acts[..i - 1]).value, acts[i - 1], t);
    }
  }

  ghost predicate InIssueOrder(tasks: seq<Task>, order: seq<nat>) {
    forall i, j :: 0 <= i < j < |order| && order[i] < |tasks| && order[j] < |tasks|
                   && tasks[order[i]].outPoint == tasks[order[j]].outPoint ==>
      order[i] < order[j]
  }

  lemma {:induction false} LastForIsLatest(tasks: seq<Task>, order: seq<nat>, op: OutPoint, t: nat)
    requires InIssueOrder(tasks, order) && t in order && t < |tasks| && tasks[t].outPoint == op
    ensures LastFor(tasks, order, op).Some? && t <= LastFor(tasks, order, op).value
  {
    var n := |order| - 1;
    var i :| 0 <= i < |order| && order[i] == t;
    if !(order[n] < |tasks| && tasks[order[n]].outPoint == op) {
      assert i < n && order[..n][i] == t;
      LastForIsLatest(tasks, order[..n], op, t);
    }
  }

  /** When the writes of every outpoint commit in the order they were issued, each row is the last
      monitor issued among those that committed. */
  lemma OrderedCommitsKeepLatest(acts: seq<Action>, t: nat)
    requires Exec(INITIAL, acts).Some?
    requires InIssueOrder(Exec(INITIAL, acts).value.tasks, Commits(acts))
    requires t in Commits(acts)
    ensures (var s := Exec(INITIAL, acts).value;
      && t < |s.tasks| && s.tasks[t].outPoint in s.rows
      && exists u :: t <= u < |s.tasks| && s.tasks[u].outPoint == s.tasks[t].outPoint
                     && Written(s.tasks[u]) && s.rows[s.tasks[t].outPoint] == s.tasks[u].monitor)
  {
    RunKeepsInv(acts);
    var s := Exec(INITIAL, acts).value;
    LastForIsLatest(s.tasks, Commits(acts), s.tasks[t].outPoint, t);
    assert RowOk(s, Commits(acts), s.tasks[t].outPoint);
    var u := LastFor(s.tasks, Commits(acts), s.tasks[t].outPoint).value;
    assert u in Commits(acts);
    assert t <= u < |s.tasks| && s.rows[s.tasks[t].outPoint] == s.tasks[u].monitor;
  }

  // ---- Durability ----

  /** m is a monitor that was issued for the outpoint of task t with that task or after it. Update ids do
      not tell: several monitors of an outpoint may carry the same one. */
  ghost predicate AsNewAs(s: State, t: nat, m: Monitor)
    requires t < |s.tasks|
  {
    exists u :: t <= u < |s.tasks| && s.tasks[u].outPoint == s.tasks[t].outPoint && s.tasks[u].monitor == m
  }

  /** No committed update is hidden by an older monitor: what LDK relies on after an acknowledgement. */
  ghost predicate Durable(s: State) {
    forall t :: 0 <= t < |s.tasks| && Written(s.tasks[t]) ==>
      s.tasks[t].outPoint in s.rows && AsNewAs(s, t, s.rows[s.tasks[t].outPoint])
  }

  /** Of the two tasks for one outpoint the first is still pending, in this process or from one that
      stopped, and the second, issued later, has committed or may still. */
  predicate Races(s: State, i: nat, j: nat) {
    i < j < |s.tasks| && Pending(s.tasks[i]) && !s.tasks[j].phase.Failed? && s.tasks[i].outPoint == s.tasks[j].outPoint
  }

  /** Wherever two writes race, the earlier would bring nothing older than the later. */
  ghost predicate RaceFree(s: State) {
    forall i: nat, j: nat :: Races(s, i, j) ==> AsNewAs(s, j, s.tasks[i].monitor)
  }

  predicate NothingIssued(acts: seq<Action>) {
    forall i :: 0 <= i < |acts| ==> !acts[i].Issue?
  }

  /** Whatever order the spawned tasks now run in, every state on the way is durable. */
  ghost predicate DurableUnderEverySchedule(s: State) {
    forall acts :: NothingIssued(acts) && Exec(s, acts).Some? ==> Durable(Exec(s, acts).value)
  }

  lemma {:induction false} RaceFreeStaysDurable(s: State, acts: seq<Action>)
    requires Durable(s) && RaceFree(s) && NothingIssued(acts) && Exec(s, acts).Some?
    ensures Durable(Exec(s, acts).value)
    decreases |acts|
  {
    if acts != [] {
      RaceFreeStep(s, acts[0]);
      assert NothingIssued(acts[1..]);
      RaceFreeStaysDurable(Apply(s, acts[0]), acts[1..]);
    }
  }

  /** Without an issue the tasks keep their monitors. */
  lemma AsNewStays(s: State, a: Action, t: nat, m: Monitor)
    requires Enabled(s, a) && !a.Issue? && t < |s.tasks|
    ensures |Apply(s, a).tasks| == |s.tasks| && (AsNewAs(Apply(s, a), t, m) <==> AsNewAs(s, t, m))
  {
    var s' := Apply(s, a);
    assert forall u :: 0 <= u < |s.tasks| ==>
             s'.tasks[u].outPoint == s.tasks[u].outPoint && s'.tasks[u].monitor == s.tasks[u].monitor;
  }

  lemma RaceFreeStep(s: State, a: Action)
    requires Durable(s) && RaceFree(s) && Enabled(s, a) && !a.Issue?
    ensures Durable(Apply(s, a)) && RaceFree(Apply(s, a))
  {
    StepKeepsDurable(s, a);
    StepKeepsRaceFree(s, a);
  }

  lemma StepKeepsDurable(s: State, a: Action)
    requires Durable(s) && RaceFree(s) && Enabled(s, a) && !a.Issue?
    ensures Durable(Apply(s, a))
  {
    var s' := Apply(s, a);
    forall t: nat | t < |s'.tasks| && Written(s'.tasks[t])
      ensures s'.tasks[t].outPoint in s'.rows && AsNewAs(s', t, s'.rows[s'.tasks[t].outPoint])
    {
      if TakesEffect(a) && s.tasks[t].outPoint == s.tasks[a.task].outPoint {
        var m := s.tasks[a.task].monitor;
        if t > a.task { assert Races(s, a.task, t); } else { assert AsNewAs(s, t, m); }
        AsNewStays(s, a, t, m);
      } else {
        assert Written(s.tasks[t]);
        AsNewStays(s, a, t, s.rows[s.tasks[t].outPoint]);
      }
    }
  }

  lemma StepKeepsRaceFree(s: State, a: Action)
    requires RaceFree(s) && Enabled(s, a) && !a.Issue?
    ensures RaceFree(Apply(s, a))
  {
    var s' := Apply(s, a);
    forall i: nat, j: nat | Races(s', i, j) ensures AsNewAs(s', j, s'.tasks[i].monitor) {
      assert Races(s, i, j);
      AsNewStays(s, a, j, s.tasks[i].monitor);
    }
  }

  /** Two commits are enough to hide the newer monitor. */
  lemma RaceBreaksDurability(s: State, i: nat, j: nat)
    requires Races(s, i, j) && !AsNewAs(s, j, s.tasks[i].monitor)
    ensures !DurableUnderEverySchedule(s)
  {
    var late, soon := CommitUnheard(i), CommitUnheard(j);
    var s1 := if Pending(s.tasks[j]) then Apply(s, soon) else s;
    var acts := if Pending(s.tasks[j]) then [soon, late] else [late];
    assert [late][1..] == [];
    assert Exec(s1, [late]) == Some(Apply(s1, late));
    if Pending(s.tasks[j]) {
      assert acts[1..] == [late];
      AsNewStays(s, soon, j, s.tasks[i].monitor);
    }
    assert Exec(s, acts) == Some(Apply(s1, late));
    AsNewStays(s1, late, j, s.tasks[i].monitor);
    assert Written(Apply(s1, late).tasks[j]);
    assert NothingIssued(acts);
    assert !Durable(Exec(s, acts).value);
  }

  /** Durability does not hold of every schedule. From a durable state it does, whatever commits, fails,
      goes unheard or is cut off by a stop, exactly when no pending write would put an older monitor over
      one that was issued later and did not fail. */
  lemma DurableExactlyWhenRaceFree(s: State)
    requires Durable(s)
    ensures DurableUnderEverySchedule(s) <==> RaceFree(s)
  {
    if RaceFree(s) {
      forall acts | NothingIssued(acts) && Exec(s, acts).Some? ensures Durable(Exec(s, acts).value) {
        RaceFreeStaysDurable(s, acts);
      }
    } else {
      var i: nat, j: nat :| Races(s, i, j) && !AsNewAs(s, j, s.tasks[i].monitor);
      RaceBreaksDurability(s, i, j);
    }
  }

  ghost predicate DistinctMonitors(s: State) {
    forall i, j :: 0 <= i < j < |s.tasks| && s.tasks[i].outPoint == s.tasks[j].outPoint ==>
      s.tasks[i].monitor != s.tasks[j].monitor
  }

  /** When no monitor of an outpoint is written twice, that is: no pending write has a later one beside it. */
  lemma RaceFreeMeansNoRace(s: State)
    requires DistinctMonitors(s)
    ensures RaceFree(s) <==> forall i: nat, j: nat :: !Races(s, i, j)
  {
    forall i: nat, j: nat | Races(s, i, j) ensures !AsNewAs(s, j, s.tasks[i].monitor) {
      assert s.tasks[i].outPoint == s.tasks[j].outPoint;
    }
  }

  /** Issuing a further monitor of an outpoint keeps every schedule durable exactly when no write of
      another monitor of that outpoint is pending. */
  lemma SafeToIssue(s: State, op: OutPoint, m: Monitor, updateId: nat)
    requires Durable(s) && RaceFree(s)
    ensures DurableUnderEverySchedule(Apply(s, Issue(op, m, updateId))) <==>
            forall t :: 0 <= t < |s.tasks| && Pending(s.tasks[t]) && s.tasks[t].outPoint == op ==>
              s.tasks[t].monitor == m
  {
    IssueKeepsDurable(s, op, m, updateId);
    DurableExactlyWhenRaceFree(Apply(s, Issue(op, m, updateId)));
    IssueRaces(s, op, m, updateId);
  }

  lemma IssueKeepsDurable(s: State, op: OutPoint, m: Monitor, updateId: nat)
    requires Durable(s)
    ensures Durable(Apply(s, Issue(op, m, updateId)))
  {
    var s' := Apply(s, Issue(op, m, updateId));
    forall t: nat | t < |s'.tasks| && Written(s'.tasks[t])
      ensures s'.tasks[t].outPoint in s'.rows && AsNewAs(s', t, s'.rows[s'.tasks[t].outPoint])
    {
      assert Written(s.tasks[t]);
      var m' := s.rows[s.tasks[t].outPoint];
      var u :| t <= u < |s.tasks| && s.tasks[u].outPoint == s.tasks[t].outPoint && s.tasks[u].monitor == m';
      assert s'.tasks[u] == s.tasks[u];
    }
  }

  lemma IssueRaces(s: State, op: OutPoint, m: Monitor, updateId: nat)
    requires RaceFree(s)
    ensures RaceFree(Apply(s, Issue(op, m, updateId))) <==>
            forall t :: 0 <= t < |s.tasks| && Pending(s.tasks[t]) && s.tasks[t].outPoint == op ==>
              s.tasks[t].monitor == m
  {
    var s' := Apply(s, Issue(op, m, updateId));
    var n := |s.tasks|;
    forall t: nat | t < n && Pending(s.tasks[t]) && s.tasks[t].outPoint == op
      ensures Races(s', t, n) && (AsNewAs(s', n, s'.tasks[t].monitor) <==> s.tasks[t].monitor == m)
    {
      assert s'.tasks[n].monitor == m;
    }
    forall i: nat, j: nat | Races(s', i, j) && j < n ensures AsNewAs(s', j, s'.tasks[i].monitor) {
      assert Races(s, i, j);
      var u :| j <= u < n && s.tasks[u].outPoint == s.tasks[j].outPoint && s.tasks[u].monitor == s.tasks[i].monitor;
      assert s'.tasks[u] == s.tasks[u];
    }
  }

  /** No monitor is handed over while a write of another one for its outpoint is pending. */
  ghost predicate HandedOverInTurn(acts: seq<Action>) {
    forall n :: 0 <= n < |acts| && acts[n].Issue? && Exec(INITIAL, acts[..n]).Some? ==>
      NonePending(Exec(INITIAL, acts[..n]).value, acts[n].outPoint, acts[n].monitor)
  }

  ghost predicate NonePending(s: State, op: OutPoint, m: Monitor) {
    forall t :: 0 <= t < |s.tasks| && Pending(s.tasks[t]) && s.tasks[t].outPoint == op ==> s.tasks[t].monitor == m
  }

  /** Over every run in which monitors are handed over in turn, no committed update is ever hidden. */
  lemma {:induction false} InTurnIsDurable(acts: seq<Action>)
    requires Exec(INITIAL, acts).Some? && HandedOverInTurn(acts)
    ensures Durable(Exec(INITIAL, acts).value) && RaceFree(Exec(INITIAL, acts).value)
  {
    if acts != [] {
      var n := |acts| - 1;
      assert acts == acts[..n] + [acts[n]];
      ExecAppend(INITIAL, acts[..n], acts[n]);
      forall k | 0 <= k < n ensures acts[..n][..k] == acts[..k] && acts[..n][k] == acts[k] {
      }
      InTurnIsDurable(acts[..n]);
      var s := Exec(INITIAL, acts[..n]).value;
      match acts[n] {
        case Issue(op, m, updateId) =>
          assert NonePending(s, op, m);
          IssueKeepsDurable(s, op, m, updateId);
          IssueRaces(s, op, m, updateId);
        case _ => RaceFreeStep(s, acts[n]);
      }
    }
  }

  /** Two different monitors of one channel, the second committed and acknowledged first: LDK has been told
      that update 2 is safe, and the table holds monitor 1. The update ids do not matter: they may differ,
      or be equal as those of all updates after a channel has closed are. */
  lemma AcknowledgedUpdateLost(op: OutPoint, m1: Monitor, m2: Monitor)
    requires m1 != m2
    ensures (var issued := [Issue(op, m1, 1), Issue(op, m2, 2)];
      var run := Exec(INITIAL, issued + [Commit(1), Acknowledge(1), Commit(0)]);
      && run.Some? && run.value.acks == [1] && run.value.rows == map[op := m1] && !Durable(run.value)
      && Exec(INITIAL, issued).Some? && Durable(Exec(INITIAL, issued).value) && !RaceFree(Exec(INITIAL, issued).value))
  {
    var issued := [Issue(op, m1, 1), Issue(op, m2, 2)];
    var s1 := Apply(INITIAL, issued[0]);
    var s2 := Apply(s1, issued[1]);
    var s3 := Apply(s2, Commit(1));
    var s4 := Apply(s3, Acknowledge(1));
    var s5 := Apply(s4, Commit(0));
    ExecAppend(INITIAL, [], issued[0]);
    ExecAppend(INITIAL, [issued[0]], issued[1]);
    assert [] + [issued[0]] == [issued[0]] && [issued[0]] + [issued[1]] == issued;
    ExecAppend(INITIAL, issued, Commit(1));
    ExecAppend(INITIAL, issued + [Commit(1)], Acknowledge(1));
    ExecAppend(INITIAL, issued + [Commit(1)] + [Acknowledge(1)], Commit(0));
    assert issued + [Commit(1), Acknowledge(1), Commit(0)] == issued + [Commit(1)] + [Acknowledge(1)] + [Commit(0)];
    assert s5.rows == map[op := m1] && Written(s5.tasks[1]) && s5.tasks[1].monitor == m2;
    assert Races(s2, 0, 1);
  }
}
