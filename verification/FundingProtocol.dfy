/** Opening a channel, as concurrent steps: API calls park a request, event arms take it, work on
    it across await points and answer it, closures answer it directly, and the process may stop
    at any moment (kld/src/ldk/controller.rs, open_channel; kld/src/ldk/event_handler.rs).
    Nothing is assumed of the random keys: two calls may draw the same one. */
module FundingProtocol {
  import opened Wrappers
  import opened Integers
  import opened AsyncSenders
  import opened FeeRates
  import opened EventHandler

  type Reply = Result<Transaction, Failure>
  type Requests = Table<nat, FeeRate, Reply>

  /** How far an arm that holds a request has got. */
  datatype Work = Choosing(userChannelId: nat) | Noting(userChannelId: nat, tx: Transaction)

  datatype State = State(
    requests: Requests,
    held: map<nat, Held<nat, Work>>,
    accepted: set<(nat, Transaction)>,   // funding transactions LDK accepted, by user channel id
    waiting: set<nat>,                   // receivers whose call is still there
    returned: set<(nat, Transaction)>)     // what open_channel returned, by the key it drew

  datatype Action =
    | Park(key: nat, feeRate: FeeRate)
    | TakeForFunding(arm: nat, userChannelId: nat)
    | FundingFails(arm: nat)
    | OpeningFails(arm: nat)
    | Accepts(arm: nat, tx: Transaction)
    | AnswerAccepted(arm: nat)
    | CloseChannel(userChannelId: nat)
    | ReturnToClient(rx: nat)
    | DropCall(rx: nat)
    | Stop

  const INITIAL := State(Table(map[], []), map[], {}, {}, {})

  predicate Enabled(s: State, a: Action) {
    match a
    case Park(key, _) => key < TWO_64 / 2
    case TakeForFunding(arm, _) => arm !in s.held
    case FundingFails(arm) => arm in s.held && s.held[arm].work.Choosing?
    case OpeningFails(arm) => arm in s.held && s.held[arm].work.Choosing?
    case Accepts(arm, _) => arm in s.held && s.held[arm].work.Choosing?
    case AnswerAccepted(arm) => arm in s.held && s.held[arm].work.Noting?
    case CloseChannel(_) => true
    case ReturnToClient(rx) =>
      rx in s.waiting && rx < |s.requests.channels| && s.requests.channels[rx].state.Answered?
    case DropCall(rx) => rx in s.waiting
    case Stop => true
  }

  function Answer(s: State, arm: nat, reply: Reply): State
    requires arm in s.held && s.held[arm].tx < |s.requests.channels|
  {
    s.(requests := Send(s.requests, s.held[arm].tx, reply), held := s.held - {arm})
  }

  function Apply(s: State, a: Action): State
    requires Owned(s.requests, s.held) && Enabled(s, a)
  {
    match a
    case Park(key, feeRate) =>
      s.(requests := File(s.requests, key, feeRate), waiting := s.waiting + {|s.requests.channels|})
    case TakeForFunding(arm, uid) =>
      if RequestKey(uid) !in s.requests.entries then s else
      var k := RequestKey(uid);
      s.(requests := Take(s.requests, k),
         held := s.held[arm := Held(k, s.requests.entries[k].tx, Choosing(uid))])
    case FundingFails(arm) => Answer(s, arm, Err(FundingFailed))
    case OpeningFails(arm) => Answer(s, arm, Err(OpeningFailed))
    case Accepts(arm, tx) =>
      var uid := s.held[arm].work.userChannelId;
      s.(accepted := s.accepted + {(uid, tx)}, held := s.held[arm := s.held[arm].(work := Noting(uid, tx))])
    case AnswerAccepted(arm) => Answer(s, arm, Ok(s.held[arm].work.tx))
    case CloseChannel(uid) => s.(requests := RespondTo(s.requests, RequestKey(uid), Err(ChannelClosed)))
    case ReturnToClient(rx) =>
      var c := s.requests.channels[rx];
      s.(waiting := s.waiting - {rx},
         returned := if c.state.reply.Ok? then s.returned + {(c.key, c.state.reply.value)} else s.returned)
    case DropCall(rx) => s.(waiting := s.waiting - {rx})
    case Stop => s.(requests := Restart(s.requests), held := map[], waiting := {})
  }

  /** Some channel of this key was funded by that transaction. */
  ghost predicate AcceptedFor(s: State, key: nat, tx: Transaction) {
    exists uid :: (uid, tx) in s.accepted && RequestKey(uid) == key
  }

  /** An arm works for the request its channel id names, and notes only what LDK accepted. */
  ghost predicate ArmsFit(s: State) {
    forall a :: a in s.held ==> ArmFits(s, s.held[a])
  }

  predicate ArmFits(s: State, h: Held<nat, Work>) {
    && RequestKey(h.work.userChannelId) == h.key
    && (h.work.Noting? ==> (h.work.userChannelId, h.work.tx) in s.accepted)
  }

  ghost predicate AnswersAccepted(s: State) {
    forall c :: 0 <= c < |s.requests.channels| && GoodAnswer(s, c) ==>
      AcceptedFor(s, s.requests.channels[c].key, s.requests.channels[c].state.reply.value)
  }

  ghost predicate ReturnsAccepted(s: State) {
    forall p :: p in s.returned ==> AcceptedFor(s, p.0, p.1)
  }

  ghost predicate Inv(s: State) {
    Owned(s.requests, s.held) && ArmsFit(s) && AnswersAccepted(s) && ReturnsAccepted(s)
  }

  /** What no step undoes. */
  ghost predicate Grows(s: State, s': State) {
    && Extends(s.requests, s'.requests)
    && s.accepted <= s'.accepted && s.returned <= s'.returned
  }

  lemma StepKeepsOwned(s: State, a: Action)
    requires Owned(s.requests, s.held) && Enabled(s, a)
    ensures Owned(Apply(s, a).requests, Apply(s, a).held) && Extends(s.requests, Apply(s, a).requests)
  {
    match a {
      case Park(key, feeRate) => InsertKeepsOwned(s.requests, s.held, key, feeRate);
      case TakeForFunding(arm, uid) =>
        if RequestKey(uid) in s.requests.entries {
          TakeKeepsOwned(s.requests, s.held, arm, RequestKey(uid), Choosing(uid));
        }
      case FundingFails(arm) => SendKeepsOwned(s.requests, s.held, arm, Err(FundingFailed));
      case OpeningFails(arm) => SendKeepsOwned(s.requests, s.held, arm, Err(OpeningFailed));
      case Accepts(arm, tx) => AcceptsKeepsOwned(s, arm, tx);
      case AnswerAccepted(arm) => SendKeepsOwned(s.requests, s.held, arm, Ok(s.held[arm].work.tx));
      case CloseChannel(uid) =>
        RespondKeepsOwned(s.requests, s.held, RequestKey(uid), Err(ChannelClosed), Choosing(uid));
      case ReturnToClient(rx) =>
      case DropCall(rx) =>
      case Stop => RestartKeepsOwned<nat, FeeRate, Reply, Work>(s.requests);
    }
  }

  lemma AcceptsKeepsOwned(s: State, arm: nat, tx: Transaction)
    requires Owned(s.requests, s.held) && Enabled(s, Accepts(arm, tx))
    ensures Owned(s.requests, Apply(s, Accepts(arm, tx)).held)
  {
    var held' := Apply(s, Accepts(arm, tx)).held;
    forall c | IsHeld(s.held, c) ensures IsHeld(held', c) {
      var b :| b in s.held && s.held[b].tx == c;
      assert held'[b].tx == c;
    }
  }

  lemma AcceptedForGrows(s: State, s': State)
    requires s.accepted <= s'.accepted
    ensures forall key, tx :: AcceptedFor(s, key, tx) ==> AcceptedFor(s', key, tx)
  {
    forall key, tx | AcceptedFor(s, key, tx) ensures AcceptedFor(s', key, tx) {
      var uid :| (uid, tx) in s.accepted && RequestKey(uid) == key;
      assert (uid, tx) in s'.accepted;
    }
  }

  lemma StepGrows(s: State, a: Action, s': State)
    requires Steps(s, a, s')
    ensures Grows(s, s')
  {
    StepKeepsOwned(s, a);
  }

  lemma GrowsTransitive(s0: State, s1: State, s2: State)
    requires Grows(s0, s1) && Grows(s1, s2)
    ensures Grows(s0, s2)
  {
    ExtendsTransitive(s0.requests, s1.requests, s2.requests);
  }

  ghost predicate GoodAnswer(s: State, c: nat)
    requires c < |s.requests.channels|
  {
    s.requests.channels[c].state.Answered? && s.requests.channels[c].state.reply.Ok?
  }

  /** The only new good answer a step can give is the one an accepted arm gives. */
  lemma GoodAnswersAreOld(s: State, a: Action, c: nat)
    requires Owned(s.requests, s.held) && Enabled(s, a)
    requires c < |Apply(s, a).requests.channels| && GoodAnswer(Apply(s, a), c)
    ensures (c < |s.requests.channels| && Apply(s, a).requests.channels[c] == s.requests.channels[c])
            || (a.AnswerAccepted? && c == s.held[a.arm].tx)
  {
  }

  lemma StepKeepsArms(s: State, a: Action)
    requires Owned(s.requests, s.held) && ArmsFit(s) && Enabled(s, a)
    ensures ArmsFit(Apply(s, a))
  {
  }

  lemma StepKeepsAnswers(s: State, a: Action)
    requires Owned(s.requests, s.held) && ArmsFit(s) && AnswersAccepted(s) && Enabled(s, a)
    ensures AnswersAccepted(Apply(s, a))
  {
    var s' := Apply(s, a);
    AcceptedForGrows(s, s');
    forall c | 0 <= c < |s'.requests.channels| && GoodAnswer(s', c)
      ensures AcceptedFor(s', s'.requests.channels[c].key, s'.requests.channels[c].state.reply.value)
    {
      GoodAnswersAreOld(s, a, c);
      if a.AnswerAccepted? && c == s.held[a.arm].tx {
        assert ArmFits(s, s.held[a.arm]);
        assert AcceptedFor(s, s.held[a.arm].key, s.held[a.arm].work.tx);
      } else {
        assert GoodAnswer(s, c);
      }
    }
  }

  lemma StepKeepsReturns(s: State, a: Action)
    requires Owned(s.requests, s.held) && AnswersAccepted(s) && ReturnsAccepted(s) && Enabled(s, a)
    ensures ReturnsAccepted(Apply(s, a))
  {
    AcceptedForGrows(s, Apply(s, a));
    if a.ReturnToClient? && s.requests.channels[a.rx].state.reply.Ok? {
      assert GoodAnswer(s, a.rx);
    }
  }

  lemma StepKeepsInv(s: State, a: Action)
    requires Inv(s) && Enabled(s, a)
    ensures Inv(Apply(s, a))
  {
    StepKeepsOwned(s, a);
    StepKeepsArms(s, a);
    StepKeepsAnswers(s, a);
    StepKeepsReturns(s, a);
  }

  // ---- Runs ----

  ghost predicate Steps(s: State, a: Action, s': State) {
    Owned(s.requests, s.held) && Enabled(s, a) && s' == Apply(s, a)
  }

  ghost predicate IsRun(run: seq<State>, acts: seq<Action>) {
    && |run| == |acts| + 1 && run[0] == INITIAL
    && forall i :: 0 <= i < |acts| ==> Steps(run[i], acts[i], run[i + 1])
  }

  lemma {:induction false} RunKeepsInv(run: seq<State>, acts: seq<Action>, i: nat)
    requires IsRun(run, acts) && i < |run|
    ensures Inv(run[i])
  {
    if i > 0 {
      RunKeepsInv(run, acts, i - 1);
      assert Steps(run[i - 1], acts[i - 1], run[i]);
      StepKeepsInv(run[i - 1], acts[i - 1]);
    }
  }

  lemma RunGrows(run: seq<State>, acts: seq<Action>, i: nat, j: nat)
    requires IsRun(run, acts) && i <= j < |run|
    ensures Grows(run[i], run[j])
  {
    forall n: nat | n < |acts| ensures Grows(run[n], run[n + 1]) { StepGrows(run[n], acts[n], run[n + 1]); }
    ChainGrows(run, i, j);
  }

  lemma {:induction false} ChainGrows(run: seq<State>, i: nat, j: nat)
    requires i <= j < |run| && forall n: nat :: n < |run| - 1 ==> Grows(run[n], run[n + 1])
    ensures Grows(run[i], run[j])
    decreases j
  {
    if i < j {
      ChainGrows(run, i, j - 1);
      assert Grows(run[j - 1], run[j]);
      GrowsTransitive(run[i], run[j - 1], run[j]);
    }
  }

  /** At most one answer: once a receiver has its answer, every later state of every run shows that
      same answer, under the key of the insert that made the receiver. */
  lemma AnsweredOnceForEver(run: seq<State>, acts: seq<Action>, i: nat, j: nat, c: nat)
    requires IsRun(run, acts) && i <= j < |run| && c < |run[i].requests.channels|
    requires !run[i].requests.channels[c].state.Open?
    ensures c < |run[j].requests.channels| && run[j].requests.channels[c] == run[i].requests.channels[c]
  {
    RunGrows(run, acts, i, j);
  }

  /** Taken implies answered: an arm lets go of a request only by answering its receiver, which had
      no answer before, or because the process stopped. Between the two it keeps that receiver. */
  lemma TakenIsAnswered(run: seq<State>, acts: seq<Action>, i: nat, arm: nat)
    requires IsRun(run, acts) && i < |acts| && arm in run[i].held
    ensures LetGoByAnswering(run[i], acts[i], run[i + 1], arm)
  {
    assert Steps(run[i], acts[i], run[i + 1]);
    StepLetsGo(run[i], acts[i], arm);
  }

  ghost predicate LetGoByAnswering(s: State, a: Action, s': State, arm: nat)
    requires arm in s.held
  {
    var h := s.held[arm];
    && h.tx < |s.requests.channels| && s.requests.channels[h.tx] == Channel(h.key, Open)
    && (arm in s'.held ==> s'.held[arm].tx == h.tx)
    && (arm !in s'.held && !a.Stop? ==>
          && h.tx < |s'.requests.channels|
          && s'.requests.channels[h.tx].key == h.key
          && s'.requests.channels[h.tx].state.Answered?)
  }

  lemma StepLetsGo(s: State, a: Action, arm: nat)
    requires Owned(s.requests, s.held) && Enabled(s, a) && arm in s.held
    ensures LetGoByAnswering(s, a, Apply(s, a), arm)
  {
  }

  /** What a caller gets: every transaction open_channel returned was accepted by LDK for a channel
      whose id carries the key that call drew. */
  lemma ReturnedTransactionWasAccepted(run: seq<State>, acts: seq<Action>, i: nat, key: nat, tx: Transaction)
    requires IsRun(run, acts) && i < |run| && (key, tx) in run[i].returned
    ensures AcceptedFor(run[i], key, tx)
  {
    RunKeepsInv(run, acts, i);
  }

  /** The step hands this answer to the call that waits for it. */
  predicate Returns(s: State, a: Action, key: nat, tx: Transaction) {
    a.ReturnToClient? && a.rx < |s.requests.channels| && s.requests.channels[a.rx] == Channel(key, Answered(Ok(tx)))
  }

  /** And every good answer that reaches its call is returned, none other is. */
  lemma ReturnedExactlyWhen(run: seq<State>, acts: seq<Action>, i: nat, key: nat, tx: Transaction)
    requires IsRun(run, acts) && i < |run|
    ensures (key, tx) in run[i].returned <==> exists j :: 0 <= j < i && Returns(run[j], acts[j], key, tx)
  {
    forall n: nat | n < |acts| ensures ReturnsOnly(run[n], acts[n], run[n + 1], key, tx) {
      StepReturns(run[n], acts[n], run[n + 1], key, tx);
    }
    ReturnedSoFar(run, acts, i, key, tx);
  }

  ghost predicate ReturnsOnly(s: State, a: Action, s': State, key: nat, tx: Transaction) {
    (key, tx) in s'.returned <==> (key, tx) in s.returned || Returns(s, a, key, tx)
  }

  lemma {:induction false} ReturnedSoFar(run: seq<State>, acts: seq<Action>, i: nat, key: nat, tx: Transaction)
    requires |run| == |acts| + 1 && run[0] == INITIAL && i < |run|
    requires forall n: nat :: n < |acts| ==> ReturnsOnly(run[n], acts[n], run[n + 1], key, tx)
    ensures (key, tx) in run[i].returned <==> exists j :: 0 <= j < i && Returns(run[j], acts[j], key, tx)
  {
    if i > 0 {
      ReturnedSoFar(run, acts, i - 1, key, tx);
      assert ReturnsOnly(run[i - 1], acts[i - 1], run[i], key, tx);
    }
  }

  lemma StepReturns(s: State, a: Action, s': State, key: nat, tx: Transaction)
    requires Steps(s, a, s')
    ensures ReturnsOnly(s, a, s', key, tx)
  {
    if a.ReturnToClient? {
      var c := s.requests.channels[a.rx];
      assert c.state.reply.Ok? ==> (Returns(s, a, key, tx) <==> (key, tx) == (c.key, c.state.reply.value));
    }
  }

  /** From any state: a call that nothing disturbs returns the transaction LDK accepted for it. */
  lemma CallGoesThrough(s: State, key: nat, feeRate: FeeRate, arm: nat, tx: Transaction)
    requires Inv(s) && Enabled(s, Park(key, feeRate)) && arm !in s.held
    ensures (var parked := Apply(s, Park(key, feeRate));
      && Inv(parked) && arm !in parked.held
      && var taken := Apply(parked, TakeForFunding(arm, key));
      && Inv(taken) && Enabled(taken, Accepts(arm, tx))
      && var accepted := Apply(taken, Accepts(arm, tx));
      && Inv(accepted) && Enabled(accepted, AnswerAccepted(arm))
      && var answered := Apply(accepted, AnswerAccepted(arm)); var rx := |s.requests.channels|;
      && Inv(answered) && Enabled(answered, ReturnToClient(rx))
      && Apply(answered, ReturnToClient(rx)).returned == s.returned + {(key, tx)}
      && Apply(answered, ReturnToClient(rx)).accepted == s.accepted + {(key, tx)})
  {
    var rx := |s.requests.channels|;
    ParkGives(s, key, feeRate);
    var parked := Apply(s, Park(key, feeRate));
    TakeGives(parked, key, rx, arm);
    var taken := Apply(parked, TakeForFunding(arm, key));
    AcceptsGives(taken, key, rx, arm, tx);
    var accepted := Apply(taken, Accepts(arm, tx));
    AnswerGives(accepted, key, rx, arm, tx);
  }

  lemma ParkGives(s: State, key: nat, feeRate: FeeRate)
    requires Inv(s) && Enabled(s, Park(key, feeRate))
    ensures (var s', rx := Apply(s, Park(key, feeRate)), |s.requests.channels|;
      && Inv(s') && s'.held == s.held && s'.accepted == s.accepted && s'.returned == s.returned
      && key in s'.requests.entries && s'.requests.entries[key].tx == rx && rx in s'.waiting)
  {
    StepKeepsInv(s, Park(key, feeRate));
  }

  lemma TakeGives(s: State, key: nat, rx: nat, arm: nat)
    requires Inv(s) && arm !in s.held && key < TWO_64
    requires key in s.requests.entries && s.requests.entries[key].tx == rx && rx in s.waiting
    ensures (var s' := Apply(s, TakeForFunding(arm, key));
      && Inv(s') && s'.accepted == s.accepted && s'.returned == s.returned && rx in s'.waiting
      && arm in s'.held && s'.held[arm] == Held(key, rx, Choosing(key)))
  {
    StepKeepsInv(s, TakeForFunding(arm, key));
    assert RequestKey(key) == key;
  }

  lemma AcceptsGives(s: State, key: nat, rx: nat, arm: nat, tx: Transaction)
    requires Inv(s) && arm in s.held && s.held[arm] == Held(key, rx, Choosing(key)) && rx in s.waiting
    ensures (var s' := Apply(s, Accepts(arm, tx));
      && Inv(s') && s'.accepted == s.accepted + {(key, tx)} && s'.returned == s.returned && rx in s'.waiting
      && arm in s'.held && s'.held[arm] == Held(key, rx, Noting(key, tx)))
  {
    StepKeepsInv(s, Accepts(arm, tx));
  }

  lemma AnswerGives(s: State, key: nat, rx: nat, arm: nat, tx: Transaction)
    requires Inv(s) && arm in s.held && s.held[arm] == Held(key, rx, Noting(key, tx)) && rx in s.waiting
    ensures (var s' := Apply(s, AnswerAccepted(arm));
      && Inv(s') && Enabled(s', ReturnToClient(rx))
      && Apply(s', ReturnToClient(rx)).accepted == s.accepted
      && Apply(s', ReturnToClient(rx)).returned == s.returned + {(key, tx)})
  {
    StepKeepsInv(s, AnswerAccepted(arm));
  }

  /** No sender leaks: a receiver still without answer is waiting in the table or held by one arm. */
  lemma UnansweredIsReachable(run: seq<State>, acts: seq<Action>, i: nat, c: nat)
    requires IsRun(run, acts) && i < |run| && c < |run[i].requests.channels|
    ensures run[i].requests.channels[c].state.Open? <==>
              InTable(run[i].requests, c) || IsHeld(run[i].held, c)
    ensures !(InTable(run[i].requests, c) && IsHeld(run[i].held, c))
  {
    RunKeepsInv(run, acts, i);
  }

  /** An arm that runs to its end without interference has the effect stated for
      Handler.FundingGenerationReady, whichever of its three exits it takes. */
  lemma UninterruptedArm(s: State, arm: nat, uid: nat, tx: Transaction)
    requires Inv(s) && arm !in s.held && RequestKey(uid) in s.requests.entries
    ensures (var s1 := Apply(s, TakeForFunding(arm, uid));
      && Inv(s1)
      && Enabled(s1, FundingFails(arm)) && Enabled(s1, OpeningFails(arm)) && Enabled(s1, Accepts(arm, tx))
      && AnsweredOnce(s.requests, Apply(s1, FundingFails(arm)).requests, RequestKey(uid), Err(FundingFailed))
      && AnsweredOnce(s.requests, Apply(s1, OpeningFails(arm)).requests, RequestKey(uid), Err(OpeningFailed))
      && Apply(s1, FundingFails(arm)).accepted == Apply(s1, OpeningFails(arm)).accepted == s.accepted)
    ensures (var s2 := Apply(Apply(s, TakeForFunding(arm, uid)), Accepts(arm, tx));
      && Inv(s2)
      && Enabled(s2, AnswerAccepted(arm)) && Apply(s2, AnswerAccepted(arm)).accepted == s.accepted + {(uid, tx)}
      && AnsweredOnce(s.requests, Apply(s2, AnswerAccepted(arm)).requests, RequestKey(uid), Ok(tx)))
  {
    var k := RequestKey(uid);
    StepKeepsInv(s, TakeForFunding(arm, uid));
    StepKeepsInv(Apply(s, TakeForFunding(arm, uid)), Accepts(arm, tx));
    TakeThenSend(s.requests, k, Err(FundingFailed));
    TakeThenSend(s.requests, k, Err(OpeningFailed));
    TakeThenSend(s.requests, k, Ok(tx));
  }

  // ---- Closures of other channels ----

  /** Closing this channel leaves every request that was filed under another id alone. */
  ghost predicate ClosesOnlyItsOwn(s: State, userChannelId: nat)
    requires Owned(s.requests, s.held)
  {
    forall k :: k in s.requests.entries && k != userChannelId ==>
      Apply(s, CloseChannel(userChannelId)).requests.channels[s.requests.entries[k].tx]
        == s.requests.channels[s.requests.entries[k].tx]
  }

  /** The truncation to 64 bits matters exactly for ids of 2^64 and above, which LDK may draw for
      inbound channels, whose low half is a parked key. */
  lemma ClosureAliasing(s: State, userChannelId: nat)
    requires Inv(s)
    ensures ClosesOnlyItsOwn(s, userChannelId) <==>
              userChannelId < TWO_64 || RequestKey(userChannelId) !in s.requests.entries
  {
    var k := RequestKey(userChannelId);
    if userChannelId >= TWO_64 && k in s.requests.entries {
      assert k != userChannelId;
      assert Apply(s, CloseChannel(userChannelId)).requests.channels[s.requests.entries[k].tx].state.Answered?;
    } else if k in s.requests.entries {
      assert k == userChannelId;
      forall j | j in s.requests.entries && j != k ensures s.requests.entries[j].tx != s.requests.entries[k].tx {
        assert s.requests.channels[s.requests.entries[j].tx].key == j;
      }
    }
  }

  /** A call parked under 5 is told its channel closed when inbound channel 2^64 + 5 closes. */
  lemma InboundClosureAnswersForeignRequest(feeRate: FeeRate)
    ensures (var s := Apply(INITIAL, Park(5, feeRate));
      && Owned(s.requests, s.held)
      && Apply(s, CloseChannel(TWO_64 + 5)).requests.channels[0].state == Answered(Err(ChannelClosed)))
  {
    StepKeepsInv(INITIAL, Park(5, feeRate));
    assert RequestKey(TWO_64 + 5) == 5;
  }
}
