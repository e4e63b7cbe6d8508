/** Outbound payments from the API call to the stored row, as concurrent steps
    (kld/src/ldk/controller.rs, pay_invoice and keysend_payment; kld/src/ldk/event_handler.rs;
    kld/src/database/ldk_database.rs, persist_payment). Calls and event arms interleave freely,
    any write may fail or commit without its caller hearing of it, any call may be dropped by its
    client, and the process may stop and start again. Payment ids are random and taken as new. */
module PaymentLedger {
  import opened Wrappers
  import opened Database
  import opened Payments
  import opened AsyncSenders
  import opened EventHandler

  type Reply = Result<Payment, Failure>
  type Requests = Table<PaymentId, Payment, Reply>

  /** The columns of the payments table: a payment without its invoice text. */
  datatype Row = Row(
    id: PaymentId, hash: Option<PaymentHash>, preimage: Option<PaymentPreimage>, secret: Option<PaymentSecret>,
    userLabel: Option<string>, status: PaymentStatus, amount: nat, fee: Option<nat>,
    direction: PaymentDirection, timestamp: int)

  function RowOf(p: Payment): Row {
    Row(p.id, p.hash, p.preimage, p.secret, p.userLabel, p.status, p.amount, p.fee, p.direction, p.timestamp)
  }

  datatype SentEvent = SentEvent(id: Option<PaymentId>, hash: PaymentHash, preimage: PaymentPreimage, fee: Option<nat>)
  datatype FailedEvent = FailedEvent(id: PaymentId, reason: Option<FailureReason>)

  /** Where a pay_invoice or keysend_payment call stands, or what it has left behind. */
  datatype Call =
    | Sending(payment: Payment, keysend: bool)
    | StoringInvoice(payment: Payment)
    | StoringPending(payment: Payment)
    | Parking(payment: Payment)
    | Waiting(payment: Payment, rx: nat)
    | StoringFinal(payment: Payment, final: Payment)
    | AdriftPending(payment: Payment)
    | AdriftFinal(payment: Payment, final: Payment)

  /** What is left of a call that ends early: a write it has sent may still be run. */
  function Cut(call: Call): Option<Call> {
    match call
    case StoringPending(p) => Some(AdriftPending(p))
    case StoringFinal(p, q) => Some(AdriftFinal(p, q))
    case AdriftPending(_) => Some(call)
    case AdriftFinal(_, _) => Some(call)
    case _ => None
  }

  /** An arm between `get` and `respond`: the parked payment and what it has become. */
  datatype Settlement = Settlement(before: Payment, after: Payment)

  /** What PaymentClaimed is about, with the random id the row gets. */
  datatype Claim =
    | InvoiceClaim(id: PaymentId, hash: PaymentHash, preimage: Option<PaymentPreimage>, secret: PaymentSecret,
                   amount: nat, now: int)
    | SpontaneousClaim(id: PaymentId, hash: PaymentHash, keysend: PaymentPreimage, amount: nat, now: int)

  function Claimed(c: Claim): (p: Payment)
    ensures p.id == c.id && p.direction == Inbound
  {
    match c
    case InvoiceClaim(id, hash, preimage, secret, amount, now) =>
      OfInvoiceInbound(id, hash, preimage, secret, amount, now)
    case SpontaneousClaim(id, hash, keysend, amount, now) => SpontaneousInbound(id, hash, keysend, amount, now)
  }

  type Arms = map<nat, Held<PaymentId, Settlement>>

  /** The settlement events delivered so far. */
  datatype Events = Events(sent: set<SentEvent>, failed: set<FailedEvent>)

  datatype State = State(
    requests: Requests,
    held: Arms,
    calls: map<PaymentId, Call>,
    rows: map<PaymentId, Row>,
    used: set<PaymentId>,
    events: Events,                      // what LDK has delivered
    returned: map<PaymentId, Payment>)   // what clients were told

  datatype Action =
    | PayInvoice(id: PaymentId, invoice: Bolt11, userLabel: Option<string>, now: int)
    | Keysend(id: PaymentId, amount: nat, now: int)
    | LdkSends(id: PaymentId)
    | InvoiceStored(id: PaymentId)
    | PendingWrite(id: PaymentId, write: Write)
    | Park(id: PaymentId)
    | Receive(id: PaymentId)
    | FinalWrite(id: PaymentId, write: Write)
    | DropCall(id: PaymentId)            // an error return or a client that went away
    | LateWrite(id: PaymentId, took: bool)
    | OnSent(arm: nat, sent: SentEvent)
    | OnFailed(arm: nat, failed: FailedEvent)
    | Respond(arm: nat)
    | OnClaimed(claim: Claim, write: Write)
    | Stop

  const INITIAL := State(Table(map[], []), map[], map[], map[], {}, Events({}, {}), map[])

  ghost predicate Enabled(s: State, a: Action) {
    match a
    case PayInvoice(id, _, _, _) => id !in s.used
    case Keysend(id, _, _) => id !in s.used
    case LdkSends(id) => id in s.calls && s.calls[id].Sending?
    case InvoiceStored(id) => id in s.calls && s.calls[id].StoringInvoice?
    case PendingWrite(id, _) => id in s.calls && s.calls[id].StoringPending?
    case Park(id) => id in s.calls && s.calls[id].Parking?
    case Receive(id) => id in s.calls && s.calls[id].Waiting? && s.calls[id].rx < |s.requests.channels|
                        && !s.requests.channels[s.calls[id].rx].state.Open?
    case FinalWrite(id, _) => id in s.calls && s.calls[id].StoringFinal?
    case DropCall(id) => id in s.calls
    case LateWrite(id, _) => id in s.calls && (s.calls[id].AdriftPending? || s.calls[id].AdriftFinal?)
    case OnSent(arm, _) => arm !in s.held
    case OnFailed(arm, _) => arm !in s.held
    case Respond(arm) => arm in s.held
    case OnClaimed(c, _) => c.id !in s.used
    case Stop => true
  }

  /** Every sender that the table or an arm names is there. */
  ghost predicate InRange(s: State) {
    EntriesInRange(s.requests) && forall arm :: arm in s.held ==> s.held[arm].tx < |s.requests.channels|
  }

  // What each step does, one component of the state after the other. Steps not named leave it as it is.

  function Succeed(p: Payment, e: SentEvent): (q: Payment)
    ensures SucceededWith(p, q, e.hash, e.preimage, e.fee)
  {
    p.(hash := Some(e.hash), preimage := Some(e.preimage), fee := e.fee, status := Succeeded)
  }

  function Fail(p: Payment, e: FailedEvent): (q: Payment)
    ensures FailedWith(p, q, e.reason)
  {
    p.(status := StatusOf(e.reason))
  }

  /** The parked request that an event takes, if there is one. */
  function Taken(t: Requests, a: Action): Option<PaymentId> {
    match a
    case OnSent(_, e) => if e.id.Some? && e.id.value in t.entries then e.id else None
    case OnFailed(_, e) => if e.id in t.entries then Some(e.id) else None
    case _ => None
  }

  function RequestsAfter(s: State, a: Action): Requests
    requires InRange(s) && Enabled(s, a)
  {
    match a
    case Park(id) => File(s.requests, id, s.calls[id].payment)
    case Respond(arm) => Send(s.requests, s.held[arm].tx, Ok(s.held[arm].work.after))
    case Stop => Restart(s.requests)
    case _ => if Taken(s.requests, a).Some? then Take(s.requests, Taken(s.requests, a).value) else s.requests
  }

  function HeldAfter(s: State, a: Action): Arms {
    match a
    case OnSent(arm, e) =>
      var id := Taken(s.requests, a);
      if id.Some? then TakenBy(s, arm, id.value, Succeed(s.requests.entries[id.value].value, e)) else s.held
    case OnFailed(arm, e) =>
      var id := Taken(s.requests, a);
      if id.Some? then TakenBy(s, arm, id.value, Fail(s.requests.entries[id.value].value, e)) else s.held
    case Respond(arm) => s.held - {arm}
    case Stop => map[]
    case _ => s.held
  }

  function TakenBy(s: State, arm: nat, id: PaymentId, after: Payment): Arms
    requires id in s.requests.entries
  {
    s.held[arm := Held(id, s.requests.entries[id].tx, Settlement(s.requests.entries[id].value, after))]
  }

  function CallsAfter(s: State, a: Action): map<PaymentId, Call>
    requires Enabled(s, a)
  {
    match a
    // without an amount the call ends in an error
    case PayInvoice(id, invoice, l, now) =>
      if invoice.amount.None? then s.calls else s.calls[id := Sending(OfInvoiceOutbound(id, invoice, l, now), false)]
    case Keysend(id, amount, now) => s.calls[id := Sending(SpontaneousOutbound(id, amount, now), true)]
    case LdkSends(id) =>
      var p := s.calls[id].payment;
      s.calls[id := if s.calls[id].keysend then StoringPending(p) else StoringInvoice(p)]
    case InvoiceStored(id) => s.calls[id := StoringPending(s.calls[id].payment)]
    case PendingWrite(id, write) =>
      if write.Committed? then s.calls[id := Parking(s.calls[id].payment)] else s.calls - {id}
    case Park(id) => s.calls[id := Waiting(s.calls[id].payment, |s.requests.channels|)]
    case Receive(id) =>
      var answer := s.requests.channels[s.calls[id].rx].state;
      if answer.Answered? && answer.reply.Ok?
      then s.calls[id := StoringFinal(s.calls[id].payment, answer.reply.value)] else s.calls - {id}
    case FinalWrite(id, _) => s.calls - {id}
    case DropCall(id) => if Cut(s.calls[id]).Some? then s.calls[id := Cut(s.calls[id]).value] else s.calls - {id}
    case LateWrite(id, _) => s.calls - {id}
    case Stop => map id | id in s.calls && Cut(s.calls[id]).Some? :: Cut(s.calls[id]).value
    case _ => s.calls
  }

  function WriteRow(rows: map<PaymentId, Row>, p: Payment, write: Write): map<PaymentId, Row> {
    Wrote(rows, rows[p.id := RowOf(p)], write)
  }

  function RowsAfter(s: State, a: Action): map<PaymentId, Row>
    requires Enabled(s, a)
  {
    match a
    case PendingWrite(id, write) => WriteRow(s.rows, s.calls[id].payment, write)
    case FinalWrite(id, write) => WriteRow(s.rows, s.calls[id].final, write)
    case LateWrite(id, took) =>
      var p := if s.calls[id].AdriftFinal? then s.calls[id].final else s.calls[id].payment;
      if took then s.rows[p.id := RowOf(p)] else s.rows
    case OnClaimed(c, write) => WriteRow(s.rows, Claimed(c), write)
    case _ => s.rows
  }

  function UsedAfter(used: set<PaymentId>, a: Action): set<PaymentId> {
    match a
    case PayInvoice(id, _, _, _) => used + {id}
    case Keysend(id, _, _) => used + {id}
    case OnClaimed(c, _) => used + {c.id}
    case _ => used
  }

  function EventsAfter(events: Events, a: Action): Events {
    match a
    case OnSent(_, e) => events.(sent := events.sent + {e})
    case OnFailed(_, e) => events.(failed := events.failed + {e})
    case _ => events
  }

  function ReturnedAfter(s: State, a: Action): map<PaymentId, Payment>
    requires Enabled(s, a)
  {
    match a
    case FinalWrite(id, write) => if write.Committed? then s.returned[id := s.calls[id].final] else s.returned
    case _ => s.returned
  }

  function Apply(s: State, a: Action): State
    requires InRange(s) && Enabled(s, a)
  {
    State(RequestsAfter(s, a), HeldAfter(s, a), CallsAfter(s, a), RowsAfter(s, a), UsedAfter(s.used, a),
          EventsAfter(s.events, a), ReturnedAfter(s, a))
  }

  // ---- What holds in every state ----

  /** As sent: pending, outbound, nothing learnt from LDK yet. */
  ghost predicate Fresh(p: Payment, id: PaymentId) {
    p.id == id && p.status == Pending && p.direction == Outbound && p.preimage == None && p.fee == None
  }

  ghost predicate Within(e: Events, e': Events) {
    e.sent <= e'.sent && e.failed <= e'.failed
  }

  /** q is p after one delivered event for its id. */
  ghost predicate Settled(events: Events, p: Payment, q: Payment) {
    || (exists e :: e in events.sent && e.id == Some(p.id) && SucceededWith(p, q, e.hash, e.preimage, e.fee))
    || (exists e :: e in events.failed && e.id == p.id && FailedWith(p, q, e.reason))
  }

  ghost predicate Unparked(s: State, id: PaymentId) {
    forall c :: 0 <= c < |s.requests.channels| ==> s.requests.channels[c].key != id
  }

  ghost predicate CallOk(s: State, id: PaymentId)
    requires id in s.calls
  {
    var call := s.calls[id];
    && id in s.used && Fresh(call.payment, id)
    && match call
       case Sending(_, _) => id !in s.rows && Unparked(s, id)
       case StoringInvoice(_) => id !in s.rows && Unparked(s, id)
       case StoringPending(_) => id !in s.rows && Unparked(s, id)
       case Parking(p) => id in s.rows && s.rows[id] == RowOf(p) && Unparked(s, id)
       case Waiting(p, rx) =>
         id in s.rows && s.rows[id] == RowOf(p) && AnswerOk(s.requests, s.held, s.events, p, rx)
       case StoringFinal(p, q) => id in s.rows && s.rows[id] == RowOf(p) && Settled(s.events, p, q)
       case AdriftPending(_) => id !in s.rows && Unparked(s, id)
       case AdriftFinal(p, q) => id in s.rows && s.rows[id] == RowOf(p) && Settled(s.events, p, q)
  }

  /** Whatever reaches this receiver is p settled, now or once the holder of its sender sends. */
  ghost predicate AnswerOk(t: Requests, held: Arms, events: Events, p: Payment, rx: nat) {
    && rx < |t.channels| && t.channels[rx].key == p.id
    && (p.id in t.entries ==> t.entries[p.id] == Entry(p, rx))
    && (forall arm :: arm in held && held[arm].tx == rx ==> Settled(events, p, held[arm].work.after))
    && (t.channels[rx].state.Answered? && t.channels[rx].state.reply.Ok? ==>
          Settled(events, p, t.channels[rx].state.reply.value))
  }

  ghost predicate CallsOk(s: State) {
    forall id :: id in s.calls ==> CallOk(s, id)
  }

  ghost predicate IdsUsed(s: State) {
    && (forall id :: id in s.rows ==> id in s.used && s.rows[id].id == id)
    && (forall c :: 0 <= c < |s.requests.channels| ==> s.requests.channels[c].key in s.used)
  }

  /** What a client was told is what the table says, and no call is left that could change it. */
  ghost predicate ReturnedOk(s: State, id: PaymentId)
    requires id in s.returned
  {
    && id !in s.calls && id in s.used
    && id in s.rows && s.rows[id] == RowOf(s.returned[id]) && s.rows[id].status != Pending
  }

  ghost predicate AllReturnedOk(s: State) {
    forall id :: id in s.returned ==> ReturnedOk(s, id)
  }

  ghost predicate Inv(s: State) {
    Owned(s.requests, s.held) && CallsOk(s) && IdsUsed(s) && AllReturnedOk(s)
  }

  /** What may happen to a stored row: nothing, or one settlement by an event for its id. */
  ghost predicate RowSettles(r: Row, r': Row, events: Events) {
    && r.direction == Outbound && r.status == Pending
    && r'.id == r.id && r'.secret == r.secret && r'.userLabel == r.userLabel && r'.amount == r.amount
    && r'.direction == r.direction && r'.timestamp == r.timestamp
    && ( || (exists e :: e in events.sent && e.id == Some(r.id) && r'.status == Succeeded
               && r'.hash == Some(e.hash) && r'.preimage == Some(e.preimage) && r'.fee == e.fee)
         || (exists e :: e in events.failed && e.id == r.id && SaysWhy(r'.status, e.reason)
               && r'.hash == r.hash && r'.preimage == r.preimage && r'.fee == r.fee))
  }

  ghost predicate Evolves(s: State, s': State) {
    && Within(s.events, s'.events)
    && (forall id :: id in s.rows ==>
          && id in s'.rows
          && (s'.rows[id] == s.rows[id] || RowSettles(s.rows[id], s'.rows[id], s'.events)))
    && (forall id :: id in s.returned ==> id in s'.returned && s'.returned[id] == s.returned[id])
  }

  // ---- Steps ----

  lemma SettledGrows(events: Events, events': Events, p: Payment, q: Payment)
    requires Within(events, events') && Settled(events, p, q)
    ensures Settled(events', p, q)
  {
  }

  lemma StepKeepsOwned(s: State, a: Action)
    requires Owned(s.requests, s.held) && Enabled(s, a)
    ensures Owned(Apply(s, a).requests, Apply(s, a).held) && Extends(s.requests, Apply(s, a).requests)
  {
    match a {
      case Park(id) => InsertKeepsOwned(s.requests, s.held, id, s.calls[id].payment);
      case OnSent(arm, e) =>
        if e.id.Some? && e.id.value in s.requests.entries {
          var p := s.requests.entries[e.id.value].value;
          TakeKeepsOwned(s.requests, s.held, arm, e.id.value, Settlement(p, Succeed(p, e)));
        }
      case OnFailed(arm, e) =>
        if e.id in s.requests.entries {
          var p := s.requests.entries[e.id].value;
          TakeKeepsOwned(s.requests, s.held, arm, e.id, Settlement(p, Fail(p, e)));
        }
      case Respond(arm) => SendKeepsOwned(s.requests, s.held, arm, Ok(s.held[arm].work.after));
      case Stop => RestartKeepsOwned<PaymentId, Payment, Reply, Settlement>(s.requests);
      case _ =>
    }
  }

  lemma FileKeepsAnswer(t: Requests, held: Arms, events: Events,
                        p: Payment, rx: nat, k: PaymentId, v: Payment)
    requires EntriesInRange(t) && AnswerOk(t, held, events, p, rx) && k != p.id
    requires k in t.entries ==> t.channels[t.entries[k].tx].key == k
    ensures AnswerOk(File(t, k, v), held, events, p, rx)
  {
  }

  lemma TakeKeepsAnswer(t: Requests, held: Arms, events: Events, events': Events,
                        p: Payment, rx: nat, arm: nat, k: PaymentId, after: Payment)
    requires AnswerOk(t, held, events, p, rx) && Within(events, events')
    requires k in t.entries && t.entries[k].tx < |t.channels| && t.channels[t.entries[k].tx].key == k
    requires k == p.id ==> Settled(events', p, after)
    ensures (var taken := Held(k, t.entries[k].tx, Settlement(t.entries[k].value, after));
      AnswerOk(Take(t, k), held[arm := taken], events', p, rx))
  {
    forall q | Settled(events, p, q) ensures Settled(events', p, q) { SettledGrows(events, events', p, q); }
  }

  lemma SendKeepsAnswer(t: Requests, held: Arms, events: Events,
                        p: Payment, rx: nat, arm: nat)
    requires AnswerOk(t, held, events, p, rx) && arm in held && held[arm].tx < |t.channels|
    ensures AnswerOk(Send(t, held[arm].tx, Ok(held[arm].work.after)), held - {arm}, events, p, rx)
  {
  }

  lemma AnswerOkGrows(t: Requests, held: Arms, events: Events, events': Events, p: Payment, rx: nat)
    requires AnswerOk(t, held, events, p, rx) && Within(events, events')
    ensures AnswerOk(t, held, events', p, rx)
  {
    forall q | Settled(events, p, q) ensures Settled(events', p, q) { SettledGrows(events, events', p, q); }
  }

  lemma StepKeepsAnswer(s: State, a: Action, p: Payment, rx: nat)
    requires Owned(s.requests, s.held) && Enabled(s, a) && !a.Stop?
    requires AnswerOk(s.requests, s.held, s.events, p, rx)
    requires a.Park? ==> a.id != p.id && s.calls[a.id].payment.id == a.id
    ensures var s' := Apply(s, a); AnswerOk(s'.requests, s'.held, s'.events, p, rx)
  {
    var s' := Apply(s, a);
    match a {
      case Park(k) => FileKeepsAnswer(s.requests, s.held, s.events, p, rx, k, s.calls[k].payment);
      case OnSent(arm, e) =>
        if e.id.Some? && e.id.value in s.requests.entries {
          assert e in s'.events.sent;
          var after := Succeed(s.requests.entries[e.id.value].value, e);
          TakeKeepsAnswer(s.requests, s.held, s.events, s'.events, p, rx, arm, e.id.value, after);
        } else {
          AnswerOkGrows(s.requests, s.held, s.events, s'.events, p, rx);
        }
      case OnFailed(arm, e) =>
        if e.id in s.requests.entries {
          assert e in s'.events.failed;
          var after := Fail(s.requests.entries[e.id].value, e);
          TakeKeepsAnswer(s.requests, s.held, s.events, s'.events, p, rx, arm, e.id, after);
        } else {
          AnswerOkGrows(s.requests, s.held, s.events, s'.events, p, rx);
        }
      case Respond(arm) => SendKeepsAnswer(s.requests, s.held, s.events, p, rx, arm);
      case _ =>
    }
  }

  lemma StepKeepsUnparked(s: State, a: Action, id: PaymentId)
    requires InRange(s) && Enabled(s, a) && Unparked(s, id) && !(a.Park? && a.id == id)
    ensures Unparked(Apply(s, a), id)
  {
    forall c | 0 <= c < |Apply(s, a).requests.channels| ensures Apply(s, a).requests.channels[c].key != id {
      ChannelKey(s, a, c);
    }
  }

  /** Only parking makes a channel, and no step gives one another key. */
  lemma ChannelKey(s: State, a: Action, c: nat)
    requires InRange(s) && Enabled(s, a) && c < |Apply(s, a).requests.channels|
    ensures (var key := Apply(s, a).requests.channels[c].key;
      if c < |s.requests.channels| then key == s.requests.channels[c].key else a.Park? && key == a.id)
  {
    if !a.Park? { NoNewChannel(s, a); }
  }

  lemma NoNewChannel(s: State, a: Action)
    requires InRange(s) && Enabled(s, a) && !a.Park?
    ensures |Apply(s, a).requests.channels| == |s.requests.channels|
  {
  }

  /** The step is a write of a call. */
  predicate Writes(a: Action) { a.PendingWrite? || a.FinalWrite? || a.LateWrite? }

  /** The step is one of the call of this id. */
  predicate ActsOn(a: Action, id: PaymentId) {
    !(a.OnSent? || a.OnFailed? || a.Respond? || a.OnClaimed? || a.Stop?) && a.id == id
  }

  /** The step is the call that this id was made for. */
  predicate Starts(a: Action, id: PaymentId) { (a.PayInvoice? || a.Keysend?) && a.id == id }

  /** Only three steps write to the table, each only the row of its own payment. */
  lemma StepKeepsRow(s: State, a: Action, id: PaymentId)
    requires InRange(s) && Enabled(s, a) && !ActsOn(a, id)
    requires Writes(a) ==> CallOk(s, a.id)
    requires a.OnClaimed? ==> id in s.used
    ensures id in Apply(s, a).rows <==> id in s.rows
    ensures id in s.rows ==> Apply(s, a).rows[id] == s.rows[id]
  {
    if Writes(a) && (s.calls[a.id].StoringFinal? || s.calls[a.id].AdriftFinal?) {
      SettledHasId(s.events, s.calls[a.id].payment, s.calls[a.id].final);
    }
  }

  lemma SettledHasId(events: Events, p: Payment, q: Payment)
    requires Settled(events, p, q)
    ensures q.id == p.id && q.status != Pending
  {
  }

  lemma BystanderCallSame(s: State, a: Action, id: PaymentId)
    requires InRange(s) && Enabled(s, a) && id in s.calls && !ActsOn(a, id) && !a.Stop?
    requires Writes(a) ==> CallOk(s, a.id)
    requires id in s.used
    ensures id in Apply(s, a).calls && Apply(s, a).calls[id] == s.calls[id]
    ensures id in Apply(s, a).used && Within(s.events, Apply(s, a).events)
    ensures id in Apply(s, a).rows <==> id in s.rows
    ensures id in s.rows ==> Apply(s, a).rows[id] == s.rows[id]
  {
    StepKeepsRow(s, a, id);
  }

  lemma BystanderCallKept(s: State, a: Action, id: PaymentId)
    requires Owned(s.requests, s.held) && Enabled(s, a) && id in s.calls && !ActsOn(a, id) && !a.Stop?
    requires CallOk(s, id)
    requires (Writes(a) || a.Park?) ==> CallOk(s, a.id)
    ensures id in Apply(s, a).calls && Apply(s, a).calls[id] == s.calls[id] && CallOk(Apply(s, a), id)
  {
    BystanderCallSame(s, a, id);
    BystanderProspects(s, a, id);
  }

  /** What CallOk says of the requests and events, for a call that did not take the step. */
  lemma BystanderProspects(s: State, a: Action, id: PaymentId)
    requires Owned(s.requests, s.held) && Enabled(s, a) && id in s.calls && !ActsOn(a, id) && !a.Stop?
    requires CallOk(s, id) && (a.Park? ==> CallOk(s, a.id))
    ensures (var s', call := Apply(s, a), s.calls[id];
      && (call.Waiting? ==> AnswerOk(s'.requests, s'.held, s'.events, call.payment, call.rx))
      && (call.StoringFinal? || call.AdriftFinal? ==> Settled(s'.events, call.payment, call.final))
      && (!call.Waiting? && !call.StoringFinal? && !call.AdriftFinal? ==> Unparked(s', id)))
  {
    match s.calls[id] {
      case Waiting(p, rx) => StepKeepsAnswer(s, a, p, rx);
      case StoringFinal(p, q) => SettledGrows(s.events, Apply(s, a).events, p, q);
      case AdriftFinal(p, q) => SettledGrows(s.events, Apply(s, a).events, p, q);
      case _ => StepKeepsUnparked(s, a, id);
    }
  }

  lemma CallsAreUsed(s: State, id: PaymentId)
    requires CallsOk(s)
    ensures id in s.calls ==> id in s.used
  {
    assert id in s.calls ==> CallOk(s, id);
  }

  lemma NewCallOk(s: State, a: Action, id: PaymentId)
    requires InRange(s) && IdsUsed(s) && Enabled(s, a) && Starts(a, id) && id in Apply(s, a).calls
    requires id !in s.calls
    ensures CallOk(Apply(s, a), id)
  {
  }

  lemma OwnCallKept(s: State, a: Action, id: PaymentId)
    requires Owned(s.requests, s.held) && Enabled(s, a) && id in s.calls && CallOk(s, id)
    requires ActsOn(a, id) && id in Apply(s, a).calls
    ensures CallOk(Apply(s, a), id)
  {
    match a {
      case Park(_) => ParkKeepsCall(s, id);
      case Receive(_) =>
      case _ =>
    }
  }

  lemma ParkKeepsCall(s: State, id: PaymentId)
    requires Owned(s.requests, s.held) && Enabled(s, Park(id)) && CallOk(s, id)
    ensures CallOk(Apply(s, Park(id)), id)
  {
    InsertKeepsOwned(s.requests, s.held, id, s.calls[id].payment);
  }

  lemma StopKeepsCall(s: State, id: PaymentId)
    requires InRange(s) && id in s.calls && CallOk(s, id) && Cut(s.calls[id]).Some?
    ensures CallOk(Apply(s, Stop), id)
  {
  }

  lemma StepKeepsCalls(s: State, a: Action)
    requires Owned(s.requests, s.held) && CallsOk(s) && IdsUsed(s) && Enabled(s, a)
    ensures CallsOk(Apply(s, a))
  {
    forall id | id in Apply(s, a).calls ensures CallOk(Apply(s, a), id) {
      if Starts(a, id) {
        CallsAreUsed(s, id);
        NewCallOk(s, a, id);
      } else if a.Stop? {
        assert CallOk(s, id);
        StopKeepsCall(s, id);
      } else if ActsOn(a, id) {
        assert CallOk(s, id);
        OwnCallKept(s, a, id);
      } else {
        assert id in s.calls && CallOk(s, id);
        if Writes(a) || a.Park? { assert CallOk(s, a.id); }
        BystanderCallKept(s, a, id);
      }
    }
  }

  lemma StepKeepsIds(s: State, a: Action)
    requires Owned(s.requests, s.held) && CallsOk(s) && IdsUsed(s) && Enabled(s, a)
    ensures IdsUsed(Apply(s, a)) && s.used <= Apply(s, a).used
  {
    var s' := Apply(s, a);
    UsedGrows(s, a);
    if Writes(a) || a.Park? { assert CallOk(s, a.id); }
    forall id | id in s'.rows ensures id in s'.used && s'.rows[id].id == id {
      RowIdUsed(s, a, id);
    }
    forall c | 0 <= c < |s'.requests.channels| ensures s'.requests.channels[c].key in s'.used {
      ChannelKeyUsed(s, a, c);
    }
  }

  lemma UsedGrows(s: State, a: Action)
    requires InRange(s) && Enabled(s, a)
    ensures s.used <= Apply(s, a).used
  {
    match a {
      case _ =>
    }
  }

  lemma RowIdUsed(s: State, a: Action, id: PaymentId)
    requires InRange(s) && Enabled(s, a) && id in Apply(s, a).rows
    requires id in s.rows ==> id in s.used && s.rows[id].id == id
    requires Writes(a) ==> CallOk(s, a.id)
    ensures id in Apply(s, a).used && Apply(s, a).rows[id].id == id
  {
    UsedGrows(s, a);
    match a {
      case FinalWrite(j, _) => SettledHasId(s.events, s.calls[j].payment, s.calls[j].final);
      case _ =>
    }
  }

  lemma ChannelKeyUsed(s: State, a: Action, c: nat)
    requires InRange(s) && Enabled(s, a) && c < |Apply(s, a).requests.channels|
    requires c < |s.requests.channels| ==> s.requests.channels[c].key in s.used
    requires a.Park? ==> CallOk(s, a.id)
    ensures Apply(s, a).requests.channels[c].key in Apply(s, a).used
  {
    UsedGrows(s, a);
    ChannelKey(s, a, c);
  }

  lemma StepKeepsReturned(s: State, a: Action, id: PaymentId)
    requires InRange(s) && CallsOk(s) && Enabled(s, a)
    requires id in s.returned ==> ReturnedOk(s, id)
    ensures id in Apply(s, a).returned ==> ReturnedOk(Apply(s, a), id)
    ensures id in s.returned ==> id in Apply(s, a).returned && Apply(s, a).returned[id] == s.returned[id]
  {
    if Writes(a) { assert CallOk(s, a.id); }
    if a.FinalWrite? && a.id == id {
      FinalWriteReturns(s, id, a.write);
    } else if id in s.returned {
      OldReturnStays(s, a, id);
    }
  }

  lemma FinalWriteReturns(s: State, id: PaymentId, write: Write)
    requires InRange(s) && Enabled(s, FinalWrite(id, write)) && CallOk(s, id) && id !in s.returned
    ensures id in Apply(s, FinalWrite(id, write)).returned ==> ReturnedOk(Apply(s, FinalWrite(id, write)), id)
  {
    SettledHasId(s.events, s.calls[id].payment, s.calls[id].final);
  }

  lemma OldReturnStays(s: State, a: Action, id: PaymentId)
    requires InRange(s) && Enabled(s, a) && id in s.returned && ReturnedOk(s, id)
    requires Writes(a) ==> CallOk(s, a.id)
    ensures id in Apply(s, a).returned && Apply(s, a).returned[id] == s.returned[id] && ReturnedOk(Apply(s, a), id)
  {
    StepKeepsRow(s, a, id);
  }

  lemma StepKeepsInv(s: State, a: Action)
    requires Inv(s) && Enabled(s, a)
    ensures Inv(Apply(s, a))
  {
    StepKeepsOwned(s, a);
    StepKeepsCalls(s, a);
    StepKeepsIds(s, a);
    forall id | id in Apply(s, a).returned ensures ReturnedOk(Apply(s, a), id) { StepKeepsReturned(s, a, id); }
  }

  lemma StepEvolvesRow(s: State, a: Action, id: PaymentId)
    requires InRange(s) && CallsOk(s) && IdsUsed(s) && Enabled(s, a) && id in s.rows
    ensures var s' := Apply(s, a);
      && id in s'.rows && Within(s.events, s'.events)
      && (s'.rows[id] == s.rows[id] || RowSettles(s.rows[id], s'.rows[id], s'.events))
  {
    EventsGrow(s, a);
    if ActsOn(a, id) {
      assert id in s.calls ==> CallOk(s, id);
      OwnStepEvolvesRow(s, a, id);
    } else {
      if Writes(a) { assert CallOk(s, a.id); }
      StepKeepsRow(s, a, id);
    }
  }

  lemma EventsGrow(s: State, a: Action)
    requires InRange(s) && Enabled(s, a)
    ensures Within(s.events, Apply(s, a).events)
  {
  }

  lemma OwnStepEvolvesRow(s: State, a: Action, id: PaymentId)
    requires InRange(s) && Enabled(s, a) && id in s.rows && id in s.used && ActsOn(a, id)
    requires id in s.calls ==> CallOk(s, id)
    ensures var s' := Apply(s, a);
      id in s'.rows && (s'.rows[id] == s.rows[id] || RowSettles(s.rows[id], s'.rows[id], s'.events))
  {
    if a.FinalWrite? {
      var call := s.calls[id];
      SettledHasId(s.events, call.payment, call.final);
      assert Apply(s, a).rows == s.rows || Apply(s, a).rows == s.rows[id := RowOf(call.final)];
    }
  }

  lemma StepEvolves(s: State, a: Action)
    requires Inv(s) && Enabled(s, a)
    ensures Evolves(s, Apply(s, a))
  {
    forall id | id in s.rows
      ensures id in Apply(s, a).rows
      ensures Apply(s, a).rows[id] == s.rows[id] || RowSettles(s.rows[id], Apply(s, a).rows[id], Apply(s, a).events)
    {
      StepEvolvesRow(s, a, id);
    }
    forall id | id in s.returned ensures id in Apply(s, a).returned && Apply(s, a).returned[id] == s.returned[id] {
      StepKeepsReturned(s, a, id);
    }
    assert Within(s.events, Apply(s, a).events);
  }

  // ---- Runs ----

  ghost predicate Steps(s: State, a: Action, s': State) {
    Owned(s.requests, s.held) && Enabled(s, a) && s' == Apply(s, a)
  }

  ghost predicate IsRun(run: seq<State>, acts: seq<Action>) {
    && |run| == |acts| + 1 && run[0] == INITIAL
    && forall i :: 0 <= i < |acts| ==> Steps(run[i], acts[i], run[i + 1])
  }

  lemma {:induction false} RunKeepsInv(run: seq<State>, acts: seq<Action>, i: nat)
    requires IsRun(run, acts) && i < |run|
    ensures Inv(run[i])
  {
    if i > 0 {
      RunKeepsInv(run, acts, i - 1);
      assert Steps(run[i - 1], acts[i - 1], run[i]);
      StepKeepsInv(run[i - 1], acts[i - 1]);
    }
  }

  lemma EvolvesTransitive(s0: State, s1: State, s2: State)
    requires Evolves(s0, s1) && Evolves(s1, s2)
    ensures Evolves(s0, s2)
  {
    forall id | id in s0.rows
      ensures id in s2.rows && (s2.rows[id] == s0.rows[id] || RowSettles(s0.rows[id], s2.rows[id], s2.events))
    {
      assert id in s1.rows;
      if s1.rows[id] != s0.rows[id] {
        RowSettlesIsFinal(s0.rows[id], s1.rows[id], s1.events, s2.events);
      }
    }
  }

  lemma RowSettlesIsFinal(r: Row, r': Row, events: Events, events': Events)
    requires RowSettles(r, r', events) && Within(events, events')
    ensures r'.status != Pending && RowSettles(r, r', events')
  {
    if e :| e in events.sent && e.id == Some(r.id) && r'.status == Succeeded
              && r'.hash == Some(e.hash) && r'.preimage == Some(e.preimage) && r'.fee == e.fee {
      assert e in events'.sent;
    } else {
      var e :| e in events.failed && e.id == r.id && SaysWhy(r'.status, e.reason)
               && r'.hash == r.hash && r'.preimage == r.preimage && r'.fee == r.fee;
      assert e in events'.failed;
    }
  }

  /** The life of every row, over every run: between any two moments it is unchanged, or it was a
      pending outbound payment and one delivered event for its id has settled it, leaving id,
      amount, secret, label, direction and time as they were. */
  lemma {:induction false} RowLifeCycle(run: seq<State>, acts: seq<Action>, i: nat, j: nat)
    requires IsRun(run, acts) && i <= j < |run|
    ensures Evolves(run[i], run[j])
    decreases j
  {
    if i < j {
      RowLifeCycle(run, acts, i, j - 1);
      RunKeepsInv(run, acts, j - 1);
      assert Steps(run[j - 1], acts[j - 1], run[j]);
      StepEvolves(run[j - 1], acts[j - 1]);
      EvolvesTransitive(run[i], run[j - 1], run[j]);
    }
  }

  /** How a row is born, in every run: an outbound row is first stored pending, with no preimage and no fee. */
  lemma OutboundRowsStartPending(run: seq<State>, acts: seq<Action>, i: nat, id: PaymentId)
    requires IsRun(run, acts) && i < |acts| && id !in run[i].rows && id in run[i + 1].rows
    requires run[i + 1].rows[id].direction == Outbound
    ensures (var row := run[i + 1].rows[id];
      row.id == id && row.status == Pending && row.preimage == None && row.fee == None)
  {
    RunKeepsInv(run, acts, i);
    assert Steps(run[i], acts[i], run[i + 1]);
    NewRowIsPending(run[i], acts[i], id);
  }

  lemma NewRowIsPending(s: State, a: Action, id: PaymentId)
    requires InRange(s) && CallsOk(s) && Enabled(s, a) && id !in s.rows && id in Apply(s, a).rows
    requires Apply(s, a).rows[id].direction == Outbound
    ensures (var row := Apply(s, a).rows[id];
      row.id == id && row.status == Pending && row.preimage == None && row.fee == None)
  {
    if Writes(a) {
      assert CallOk(s, a.id);
      var call := s.calls[a.id];
      if call.StoringFinal? || call.AdriftFinal? { SettledHasId(s.events, call.payment, call.final); }
    }
  }

  // ---- What was asked for is what is stored and returned ----

  /** The row is that of the payment the client asked for; a success may have brought another hash. */
  ghost predicate AsAsked(a: Action, r: Row) {
    match a
    case PayInvoice(id, invoice, userLabel, now) =>
      && r.id == id && r.direction == Outbound && r.timestamp == now && r.userLabel == userLabel
      && invoice.amount == Some(r.amount) && r.secret == Some(invoice.secret)
      && (r.status != Succeeded ==> r.hash == Some(invoice.hash))
    case Keysend(id, amount, now) =>
      && r.id == id && r.direction == Outbound && r.timestamp == now && r.userLabel == None
      && r.amount == amount && r.secret == None
      && (r.status != Succeeded ==> r.hash == None)
    case _ => false
  }

  /** The payment's own columns are as asked, and so is its invoice text, which is not stored. */
  ghost predicate PaymentAsAsked(a: Action, p: Payment) {
    AsAsked(a, RowOf(p)) && p.bolt11 == if a.PayInvoice? then Some(a.invoice.text) else None
  }

  lemma SettledAsAsked(a: Action, events: Events, p: Payment, q: Payment)
    requires PaymentAsAsked(a, p) && p.status == Pending && Settled(events, p, q)
    ensures PaymentAsAsked(a, q)
  {
  }

  /** All there is under an id, in any place, is what its start asked for. */
  ghost predicate AllAsAsked(start: Action, s: State, id: PaymentId) {
    && id in s.used
    && (id in s.calls ==> PaymentAsAsked(start, s.calls[id].payment))
    && (id in s.rows ==> AsAsked(start, s.rows[id]))
    && (id in s.returned ==> PaymentAsAsked(start, s.returned[id]))
  }

  ghost predicate Absent(s: State, id: PaymentId) {
    id !in s.used && id !in s.calls && id !in s.rows && id !in s.returned
  }

  lemma UnusedIsAbsent(s: State, id: PaymentId)
    requires Inv(s) && id !in s.used
    ensures Absent(s, id)
  {
    CallsAreUsed(s, id);
    assert id in s.returned ==> ReturnedOk(s, id);
  }

  lemma StartIsAsAsked(s: State, a: Action, id: PaymentId)
    requires InRange(s) && Enabled(s, a) && Starts(a, id) && Absent(s, id)
    ensures AllAsAsked(a, Apply(s, a), id)
  {
  }

  lemma StepKeepsCallPayment(s: State, a: Action, id: PaymentId)
    requires InRange(s) && Enabled(s, a) && id in Apply(s, a).calls && !Starts(a, id)
    ensures id in s.calls && Apply(s, a).calls[id].payment == s.calls[id].payment
  {
  }

  /** A row new to the table is the payment of a call of its id, unless a claim has just made that id. */
  lemma NewRowIsOfCall(s: State, a: Action, id: PaymentId)
    requires InRange(s) && CallsOk(s) && Enabled(s, a) && id !in s.rows && id in Apply(s, a).rows
    requires id in s.used
    ensures id in s.calls && Apply(s, a).rows[id] == RowOf(s.calls[id].payment)
  {
    if Writes(a) {
      assert CallOk(s, a.id);
      var call := s.calls[a.id];
      if call.StoringFinal? || call.AdriftFinal? { SettledHasId(s.events, call.payment, call.final); }
    }
  }

  lemma RowSettlesAsAsked(start: Action, r: Row, r': Row, events: Events)
    requires AsAsked(start, r) && (r' == r || RowSettles(r, r', events))
    ensures AsAsked(start, r')
  {
  }

  lemma StepKeepsRowAsAsked(s: State, a: Action, id: PaymentId, start: Action)
    requires Inv(s) && Enabled(s, a) && AllAsAsked(start, s, id) && id in Apply(s, a).rows
    ensures AsAsked(start, Apply(s, a).rows[id])
  {
    if id in s.rows {
      StepEvolvesRow(s, a, id);
      RowSettlesAsAsked(start, s.rows[id], Apply(s, a).rows[id], Apply(s, a).events);
    } else {
      NewRowIsOfCall(s, a, id);
    }
  }

  lemma StepKeepsReturnedAsAsked(s: State, a: Action, id: PaymentId, start: Action)
    requires Inv(s) && Enabled(s, a) && AllAsAsked(start, s, id) && id in Apply(s, a).returned
    ensures PaymentAsAsked(start, Apply(s, a).returned[id])
  {
    if id in s.returned {
      StepKeepsReturned(s, a, id);
    } else {
      assert CallOk(s, id);
      SettledAsAsked(start, s.events, s.calls[id].payment, s.calls[id].final);
    }
  }

  lemma StepKeepsAsAsked(s: State, a: Action, id: PaymentId, start: Action)
    requires Inv(s) && Enabled(s, a) && AllAsAsked(start, s, id)
    ensures AllAsAsked(start, Apply(s, a), id)
  {
    UsedGrows(s, a);
    if id in Apply(s, a).calls { StepKeepsCallPayment(s, a, id); }
    if id in Apply(s, a).rows { StepKeepsRowAsAsked(s, a, id, start); }
    if id in Apply(s, a).returned { StepKeepsReturnedAsAsked(s, a, id, start); }
  }

  lemma {:induction false} AbsentBefore(run: seq<State>, acts: seq<Action>, i: nat, k: nat, id: PaymentId)
    requires IsRun(run, acts) && i <= k < |run| && id !in run[k].used
    ensures Absent(run[i], id)
    decreases k - i
  {
    RunKeepsInv(run, acts, i);
    if i < k {
      AbsentBefore(run, acts, i + 1, k, id);
      assert Steps(run[i], acts[i], run[i + 1]);
      UsedGrows(run[i], acts[i]);
    }
    UnusedIsAbsent(run[i], id);
  }

  /** In every run: nothing is known under the id of a call to pay_invoice or keysend_payment before it, and
      from then on the call, the row and the answer under it have the amount, secret, label and time of that
      call, and its hash until a success brings the event's; the call and the answer have its invoice text. */
  lemma {:induction false} PaymentIsAsAsked(run: seq<State>, acts: seq<Action>, k: nat, i: nat, id: PaymentId)
    requires IsRun(run, acts) && k < |acts| && i < |run| && Starts(acts[k], id)
    ensures if i <= k then Absent(run[i], id) else AllAsAsked(acts[k], run[i], id)
    decreases i
  {
    assert Steps(run[k], acts[k], run[k + 1]);
    if i <= k {
      AbsentBefore(run, acts, i, k, id);
    } else if i == k + 1 {
      AbsentBefore(run, acts, k, k, id);
      StartIsAsAsked(run[k], acts[k], id);
    } else {
      PaymentIsAsAsked(run, acts, k, i - 1, id);
      RunKeepsInv(run, acts, i - 1);
      assert Steps(run[i - 1], acts[i - 1], run[i]);
      StepKeepsAsAsked(run[i - 1], acts[i - 1], id, acts[k]);
    }
  }

  /** An invoice without an amount is never paid: no row, no call and no answer under that id, ever. */
  lemma {:induction false} AmountlessIsNeverPaid(run: seq<State>, acts: seq<Action>, k: nat, i: nat, id: PaymentId)
    requires IsRun(run, acts) && k < |acts| && i < |run|
    requires acts[k].PayInvoice? && acts[k].id == id && acts[k].invoice.amount == None
    ensures id !in run[i].calls && id !in run[i].rows && id !in run[i].returned
  {
    PaymentIsAsAsked(run, acts, k, i, id);
  }

  /** The row of a received payment, column by column. */
  ghost predicate AsClaimed(c: Claim, r: Row) {
    match c
    case InvoiceClaim(id, hash, preimage, secret, amount, now) =>
      r == Row(id, Some(hash), preimage, Some(secret), None, Succeeded, amount, None, Inbound, now)
    case SpontaneousClaim(id, hash, keysend, amount, now) =>
      r == Row(id, Some(hash), Some(keysend), None, None, Pending, amount, None, Inbound, now)
  }

  /** The claim is stored or, when its write did not take effect, unknown; no call has its id. */
  ghost predicate ClaimTold(s: State, c: Claim, write: Write) {
    && c.id in s.used && c.id !in s.calls
    && (c.id in s.rows <==> TookEffect(write))
    && (c.id in s.rows ==> AsClaimed(c, s.rows[c.id]))
  }

  lemma ClaimIsTold(s: State, c: Claim, write: Write)
    requires InRange(s) && Enabled(s, OnClaimed(c, write)) && Absent(s, c.id)
    ensures ClaimTold(Apply(s, OnClaimed(c, write)), c, write)
  {
  }

  /** In every run a received payment is in the table from its event on, as the event told it, exactly when
      its write took effect; and nothing is known under its id before. */
  lemma {:induction false} RowIsAsClaimed(run: seq<State>, acts: seq<Action>, k: nat, i: nat)
    requires IsRun(run, acts) && k < |acts| && i < |run| && acts[k].OnClaimed?
    ensures if i <= k then Absent(run[i], acts[k].claim.id) else ClaimTold(run[i], acts[k].claim, acts[k].write)
    decreases i
  {
    var c := acts[k].claim;
    assert Steps(run[k], acts[k], run[k + 1]);
    if i <= k {
      AbsentBefore(run, acts, i, k, c.id);
    } else if i == k + 1 {
      AbsentBefore(run, acts, k, k, c.id);
      ClaimIsTold(run[k], c, acts[k].write);
    } else {
      RowIsAsClaimed(run, acts, k, i - 1);
      RunKeepsInv(run, acts, i - 1);
      assert Steps(run[i - 1], acts[i - 1], run[i]);
      ClaimStays(run[i - 1], acts[i - 1], c.id);
    }
  }

  lemma ClaimStays(s: State, a: Action, id: PaymentId)
    requires Inv(s) && Enabled(s, a) && id in s.used && id !in s.calls
    requires id in s.rows ==> s.rows[id].direction == Inbound
    ensures id in Apply(s, a).used && id !in Apply(s, a).calls
    ensures id in Apply(s, a).rows <==> id in s.rows
    ensures id in s.rows ==> Apply(s, a).rows[id] == s.rows[id]
  {
    UsedGrows(s, a);
    if id in Apply(s, a).calls { StepKeepsCallPayment(s, a, id); }
    if id in s.rows {
      StepEvolvesRow(s, a, id);
    } else if id in Apply(s, a).rows {
      NewRowIsOfCall(s, a, id);
    }
  }

  /** No row comes from nowhere: an outbound one was asked for, an inbound one was claimed. */
  lemma {:induction false} RowHasOrigin(run: seq<State>, acts: seq<Action>, i: nat, id: PaymentId)
    requires IsRun(run, acts) && i < |run| && id in run[i].rows
    ensures exists k :: 0 <= k < i &&
              if run[i].rows[id].direction == Outbound then AsAsked(acts[k], run[i].rows[id])
              else acts[k].OnClaimed? && AsClaimed(acts[k].claim, run[i].rows[id])
  {
    RunKeepsInv(run, acts, i);
    var k := MadeBy(run, acts, i, id);
    if acts[k].OnClaimed? {
      RowIsAsClaimed(run, acts, k, i);
    } else {
      PaymentIsAsAsked(run, acts, k, i, id);
    }
  }

  lemma {:induction false} MadeBy(run: seq<State>, acts: seq<Action>, i: nat, id: PaymentId) returns (k: nat)
    requires IsRun(run, acts) && i < |run| && id in run[i].used
    ensures k < i && (Starts(acts[k], id) || (acts[k].OnClaimed? && acts[k].claim.id == id))
  {
    assert i > 0;
    assert Steps(run[i - 1], acts[i - 1], run[i]);
    if id in run[i - 1].used {
      k := MadeBy(run, acts, i - 1, id);
    } else {
      k := i - 1;
    }
  }

  // ---- What is received is returned ----

  /** A call ends in an answer exactly when its final write is heard to commit. */
  lemma {:induction false} ReturnedExactlyWhen(run: seq<State>, acts: seq<Action>, i: nat, id: PaymentId)
    requires IsRun(run, acts) && i < |run|
    ensures id in run[i].returned <==> exists j :: 0 <= j < i && acts[j] == FinalWrite(id, Committed)
  {
    if i > 0 {
      ReturnedExactlyWhen(run, acts, i - 1, id);
      assert Steps(run[i - 1], acts[i - 1], run[i]);
    }
  }

  /** The call has received q and is left with nothing but to store it. */
  ghost predicate HasReceived(s: State, id: PaymentId, q: Payment) {
    && id in s.used
    && (id in s.calls ==> (s.calls[id].StoringFinal? || s.calls[id].AdriftFinal?) && s.calls[id].final == q)
    && (id in s.returned ==> s.returned[id] == q)
  }

  lemma StepKeepsReceived(s: State, a: Action, id: PaymentId, q: Payment)
    requires InRange(s) && Enabled(s, a) && HasReceived(s, id, q)
    ensures HasReceived(Apply(s, a), id, q)
  {
    UsedGrows(s, a);
  }

  /** A call that receives a good answer q stores q and nothing else from then on, and q is what it returns
      if it returns. */
  lemma {:induction false} ReceivedIsReturned(run: seq<State>, acts: seq<Action>, j: nat, i: nat, id: PaymentId,
                                              q: Payment)
    requires IsRun(run, acts) && j < i < |run| && acts[j] == Receive(id)
    requires id in run[j].calls && run[j].calls[id].Waiting? && run[j].calls[id].rx < |run[j].requests.channels|
    requires run[j].requests.channels[run[j].calls[id].rx].state == Answered(Ok(q))
    ensures HasReceived(run[i], id, q)
    ensures i == j + 1 ==> id in run[i].calls && run[i].calls[id].StoringFinal?
    decreases i
  {
    if i == j + 1 {
      RunKeepsInv(run, acts, j);
      assert Steps(run[j], acts[j], run[i]);
      assert CallOk(run[j], id);
      assert id in run[j].returned ==> ReturnedOk(run[j], id);
    } else {
      ReceivedIsReturned(run, acts, j, i - 1, id, q);
      assert Steps(run[i - 1], acts[i - 1], run[i]);
      StepKeepsReceived(run[i - 1], acts[i - 1], id, q);
    }
  }

  /** The step stores the row of this id. */
  predicate WritesRow(a: Action, id: PaymentId) {
    (a.PendingWrite? && a.id == id && TookEffect(a.write)) || a == LateWrite(id, true)
  }

  /** The step stores the settled payment. */
  predicate WritesFinal(s: State, a: Action, id: PaymentId) {
    || (a.FinalWrite? && a.id == id && TookEffect(a.write))
    || (a == LateWrite(id, true) && id in s.calls && s.calls[id].AdriftFinal?)
  }

  predicate RowSettled(s: State, id: PaymentId) { id in s.rows && s.rows[id].status != Pending }

  lemma StepWritesRow(s: State, a: Action, id: PaymentId)
    requires InRange(s) && CallsOk(s) && IdsUsed(s) && Enabled(s, a) && (a.OnClaimed? ==> a.claim.id != id)
    ensures id in Apply(s, a).rows <==> id in s.rows || WritesRow(a, id)
    ensures RowSettled(Apply(s, a), id) <==> RowSettled(s, id) || WritesFinal(s, a, id)
  {
    if ActsOn(a, id) {
      assert id in s.calls ==> CallOk(s, id);
      OwnStepWritesRow(s, a, id);
    } else {
      if Writes(a) { assert CallOk(s, a.id); }
      OtherStepWritesRow(s, a, id);
    }
  }

  lemma OtherStepWritesRow(s: State, a: Action, id: PaymentId)
    requires InRange(s) && Enabled(s, a) && !ActsOn(a, id) && (a.OnClaimed? ==> a.claim.id != id)
    requires Writes(a) ==> CallOk(s, a.id)
    ensures !WritesRow(a, id) && !WritesFinal(s, a, id)
    ensures id in Apply(s, a).rows <==> id in s.rows
    ensures RowSettled(Apply(s, a), id) <==> RowSettled(s, id)
  {
    if !a.OnClaimed? { StepKeepsRow(s, a, id); }
  }

  lemma OwnStepWritesRow(s: State, a: Action, id: PaymentId)
    requires InRange(s) && Enabled(s, a) && ActsOn(a, id) && (id in s.calls ==> CallOk(s, id))
    ensures id in Apply(s, a).rows <==> id in s.rows || WritesRow(a, id)
    ensures RowSettled(Apply(s, a), id) <==> RowSettled(s, id) || WritesFinal(s, a, id)
  {
    if a.FinalWrite? || (a.LateWrite? && s.calls[id].AdriftFinal?) {
      SettledHasId(s.events, s.calls[id].payment, s.calls[id].final);
    }
  }

  lemma ClaimIsOther(run: seq<State>, acts: seq<Action>, k: nat, m: nat, id: PaymentId)
    requires IsRun(run, acts) && k < |acts| && m < |acts| && Starts(acts[k], id) && acts[m].OnClaimed?
    ensures acts[m].claim.id != id
  {
    assert Steps(run[m], acts[m], run[m + 1]);
    PaymentIsAsAsked(run, acts, k, m, id);
    PaymentIsAsAsked(run, acts, k, m + 1, id);
  }

  /** A payment that was asked for is in the table exactly when its pending write has taken effect, heard or
      not, at once or late; and its row is settled exactly when its final write has. */
  lemma {:induction false} WrittenExactlyWhen(run: seq<State>, acts: seq<Action>, k: nat, i: nat, id: PaymentId)
    requires IsRun(run, acts) && k < |acts| && i < |run| && Starts(acts[k], id)
    ensures id in run[i].rows <==> exists j :: 0 <= j < i && WritesRow(acts[j], id)
    ensures RowSettled(run[i], id) <==> exists j :: 0 <= j < i && WritesFinal(run[j], acts[j], id)
    decreases i
  {
    if i > 0 {
      WrittenExactlyWhen(run, acts, k, i - 1, id);
      RunKeepsInv(run, acts, i - 1);
      assert Steps(run[i - 1], acts[i - 1], run[i]);
      if acts[i - 1].OnClaimed? { ClaimIsOther(run, acts, k, i - 1, id); }
      StepWritesRow(run[i - 1], acts[i - 1], id);
    }
  }

  /** A call that its client drops, or that a stop cuts off, ends there, but for a write that it has sent:
      that may still be run, and stores what the call would have stored. */
  lemma CutCallsMayStillWrite(s: State, a: Action, id: PaymentId)
    requires Inv(s) && id in s.calls && (a == DropCall(id) || a == Stop)
    ensures (var s', call := Apply(s, a), s.calls[id];
      && s'.rows == s.rows
      && (id in s'.calls <==> Enabled(s', LateWrite(id, true)))
      && (id in s'.calls <==>
            call.StoringPending? || call.StoringFinal? || call.AdriftPending? || call.AdriftFinal?)
      && (call.StoringPending? ==> Apply(s', LateWrite(id, true)).rows == s.rows[id := RowOf(call.payment)])
      && (call.StoringFinal? ==> Apply(s', LateWrite(id, true)).rows == s.rows[id := RowOf(call.final)])
      && (id in s'.calls ==> Apply(s', LateWrite(id, false)).rows == s.rows))
  {
    assert CallOk(s, id);
    StepKeepsInv(s, a);
    if s.calls[id].StoringFinal? { SettledHasId(s.events, s.calls[id].payment, s.calls[id].final); }
  }

  // ---- A call that nothing disturbs ----

  ghost predicate Leads(s: State, acts: seq<Action>, s': State)
    decreases |acts|
  {
    if acts == [] then s' == s
    else Owned(s.requests, s.held) && Enabled(s, acts[0]) && Leads(Apply(s, acts[0]), acts[1..], s')
  }

  lemma {:induction false} LeadsOn(s: State, acts: seq<Action>, s': State, a: Action)
    requires Leads(s, acts, s') && Inv(s') && Enabled(s', a)
    ensures Leads(s, acts + [a], Apply(s', a)) && Inv(Apply(s', a))
    decreases |acts|
  {
    StepKeepsInv(s', a);
    var all := acts + [a];
    if acts == [] {
      assert all == [a] && all[1..] == [];
    } else {
      LeadsOn(Apply(s, acts[0]), acts[1..], s', a);
      assert all[1..] == acts[1..] + [a];
    }
  }

  /** The call stands there after these steps, and no other arm or answer has come up. */
  ghost predicate Stands(s0: State, acts: seq<Action>, s: State, id: PaymentId, call: Call) {
    Leads(s0, acts, s) && Inv(s) && id in s.calls && s.calls[id] == call && s.held == s0.held
  }

  lemma Advances(s0: State, acts: seq<Action>, s: State, id: PaymentId, call: Call, a: Action) returns (s': State)
    requires Stands(s0, acts, s, id, call) && ActsOn(a, id) && Enabled(s, a)
    ensures s' == Apply(s, a) && Leads(s0, acts + [a], s') && Inv(s') && s'.held == s0.held
    ensures (call.Sending? && a.LdkSends? ==>
               Stands(s0, acts + [a], s', id,
                      if call.keysend then StoringPending(call.payment) else StoringInvoice(call.payment)))
         && (a.InvoiceStored? ==> Stands(s0, acts + [a], s', id, StoringPending(call.payment)))
         && (a == PendingWrite(id, Committed) ==> Stands(s0, acts + [a], s', id, Parking(call.payment)))
         && (a.Park? ==> Stands(s0, acts + [a], s', id, Waiting(call.payment, |s.requests.channels|)))
  {
    LeadsOn(s0, acts, s, a);
    s' := Apply(s, a);
  }

  /** The steps up to the answer's request being parked. */
  function Submission(start: Action, id: PaymentId): seq<Action> {
    Sendings(start, id) + [PendingWrite(id, Committed), Park(id)]
  }

  function Sendings(start: Action, id: PaymentId): seq<Action> {
    [start, LdkSends(id)] + if start.PayInvoice? then [InvoiceStored(id)] else []
  }

  lemma Started(s0: State, start: Action, id: PaymentId) returns (s: State, p: Payment)
    requires Inv(s0) && Enabled(s0, start) && Starts(start, id)
    requires start.PayInvoice? ==> start.invoice.amount.Some?
    ensures Stands(s0, [start], s, id, Sending(p, start.Keysend?)) && Fresh(p, id) && PaymentAsAsked(start, p)
  {
    UnusedIsAbsent(s0, id);
    StartIsAsAsked(s0, start, id);
    LeadsOn(s0, [], s0, start);
    assert [] + [start] == [start];
    s := Apply(s0, start);
    p := s.calls[id].payment;
    assert CallOk(s, id);
  }

  lemma Sent(s0: State, start: Action, s: State, id: PaymentId, p: Payment) returns (s': State)
    requires Stands(s0, [start], s, id, Sending(p, start.Keysend?)) && Starts(start, id)
    ensures Stands(s0, Sendings(start, id), s', id, StoringPending(p))
  {
    s' := Advances(s0, [start], s, id, Sending(p, start.Keysend?), LdkSends(id));
    if start.PayInvoice? {
      s' := Advances(s0, [start] + [LdkSends(id)], s', id, StoringInvoice(p), InvoiceStored(id));
    }
    SendingsAre(start, id);
  }

  lemma SendingsAre(start: Action, id: PaymentId)
    ensures Sendings(start, id)
         == if start.PayInvoice? then [start] + [LdkSends(id)] + [InvoiceStored(id)] else [start] + [LdkSends(id)]
    ensures Submission(start, id) == Sendings(start, id) + [PendingWrite(id, Committed)] + [Park(id)]
  {
  }

  lemma Submitted(s0: State, start: Action, id: PaymentId) returns (s: State, p: Payment, rx: nat)
    requires Inv(s0) && Enabled(s0, start) && Starts(start, id)
    requires start.PayInvoice? ==> start.invoice.amount.Some?
    ensures Stands(s0, Submission(start, id), s, id, Waiting(p, rx)) && Fresh(p, id) && PaymentAsAsked(start, p)
    ensures id in s.requests.entries && s.requests.entries[id] == Entry(p, rx)
  {
    s, p := Started(s0, start, id);
    s := Sent(s0, start, s, id, p);
    s, rx := Parked(s0, Sendings(start, id), s, id, p);
    SendingsAre(start, id);
  }

  lemma Parked(s0: State, acts: seq<Action>, s: State, id: PaymentId, p: Payment) returns (s': State, rx: nat)
    requires Stands(s0, acts, s, id, StoringPending(p))
    ensures Stands(s0, acts + [PendingWrite(id, Committed)] + [Park(id)], s', id, Waiting(p, rx))
    ensures id in s'.requests.entries && s'.requests.entries[id] == Entry(p, rx)
  {
    s' := Advances(s0, acts, s, id, StoringPending(p), PendingWrite(id, Committed));
    rx := |s'.requests.channels|;
    s' := Advances(s0, acts + [PendingWrite(id, Committed)], s', id, Parking(p), Park(id));
  }

  /** The event is about this payment. */
  predicate Settles(a: Action, id: PaymentId) {
    (a.OnSent? && a.sent.id == Some(id)) || (a.OnFailed? && a.failed.id == id)
  }

  /** The payment is what the event makes of p. */
  ghost predicate Told(a: Action, p: Payment, q: Payment)
    requires a.OnSent? || a.OnFailed?
  {
    match a
    case OnSent(_, e) => SucceededWith(p, q, e.hash, e.preimage, e.fee)
    case OnFailed(_, e) => FailedWith(p, q, e.reason)
  }

  /** The steps from the event to the answer. */
  function Settling(settle: Action, id: PaymentId): seq<Action>
    requires settle.OnSent? || settle.OnFailed?
  {
    [settle, Respond(settle.arm), Receive(id), FinalWrite(id, Committed)]
  }

  lemma EventTakesEntry(s: State, settle: Action, id: PaymentId, p: Payment, rx: nat) returns (q: Payment)
    requires InRange(s) && Settles(settle, id) && Enabled(s, settle)
    requires id in s.requests.entries && s.requests.entries[id] == Entry(p, rx)
    ensures Told(settle, p, q)
    ensures Apply(s, settle).held == s.held[settle.arm := Held(id, rx, Settlement(p, q))]
    ensures Apply(s, settle).calls == s.calls && Apply(s, settle).requests.channels == s.requests.channels
  {
    q := if settle.OnSent? then Succeed(p, settle.sent) else Fail(p, settle.failed);
  }

  lemma ArmAnswers(s: State, arm: nat, id: PaymentId, p: Payment, q: Payment, rx: nat)
    requires InRange(s) && arm in s.held && s.held[arm] == Held(id, rx, Settlement(p, q))
    ensures rx < |Apply(s, Respond(arm)).requests.channels|
    ensures Apply(s, Respond(arm)).requests.channels[rx].state == Answered(Ok(q))
    ensures Apply(s, Respond(arm)).calls == s.calls
  {
  }

  lemma CallEnds(s: State, id: PaymentId, p: Payment, q: Payment, rx: nat)
    requires InRange(s) && id in s.calls && s.calls[id] == Waiting(p, rx) && rx < |s.requests.channels|
    requires s.requests.channels[rx].state == Answered(Ok(q))
    ensures Enabled(s, Receive(id)) && InRange(Apply(s, Receive(id)))
    ensures (var s' := Apply(s, Receive(id));
      Enabled(s', FinalWrite(id, Committed)) &&
      Apply(s', FinalWrite(id, Committed)).returned == s.returned[id := q])
  {
  }

  lemma Seized(s0: State, acts: seq<Action>, s: State, settle: Action, id: PaymentId, p: Payment, rx: nat)
    returns (s': State, q: Payment)
    requires Leads(s0, acts, s) && Inv(s) && Enabled(s, settle) && Settles(settle, id)
    requires id in s.calls && id in s.requests.entries && s.requests.entries[id] == Entry(p, rx)
    ensures Leads(s0, acts + [settle], s') && Inv(s') && Told(settle, p, q) && s'.calls == s.calls
    ensures settle.arm in s'.held && s'.held[settle.arm] == Held(id, rx, Settlement(p, q))
  {
    q := EventTakesEntry(s, settle, id, p, rx);
    LeadsOn(s0, acts, s, settle);
    s' := Apply(s, settle);
  }

  lemma Replied(s0: State, acts: seq<Action>, s: State, settle: Action, id: PaymentId, p: Payment, rx: nat)
    returns (s': State, q: Payment)
    requires Leads(s0, acts, s) && Inv(s) && Enabled(s, settle) && Settles(settle, id)
    requires id in s.calls && s.calls[id] == Waiting(p, rx)
    requires id in s.requests.entries && s.requests.entries[id] == Entry(p, rx)
    ensures Leads(s0, acts + [settle] + [Respond(settle.arm)], s') && Inv(s') && Told(settle, p, q)
    ensures id in s'.calls && s'.calls[id] == Waiting(p, rx)
    ensures rx < |s'.requests.channels| && s'.requests.channels[rx].state == Answered(Ok(q))
  {
    s', q := Seized(s0, acts, s, settle, id, p, rx);
    ArmAnswers(s', settle.arm, id, p, q, rx);
    LeadsOn(s0, acts + [settle], s', Respond(settle.arm));
    s' := Apply(s', Respond(settle.arm));
  }

  lemma Ended(s0: State, acts: seq<Action>, s: State, id: PaymentId, p: Payment, q: Payment, rx: nat)
    returns (s': State)
    requires Leads(s0, acts, s) && Inv(s) && id in s.calls && s.calls[id] == Waiting(p, rx)
    requires rx < |s.requests.channels| && s.requests.channels[rx].state == Answered(Ok(q))
    ensures Leads(s0, acts + [Receive(id)] + [FinalWrite(id, Committed)], s') && s'.returned == s.returned[id := q]
  {
    CallEnds(s, id, p, q, rx);
    LeadsOn(s0, acts, s, Receive(id));
    s' := Apply(s, Receive(id));
    LeadsOn(s0, acts + [Receive(id)], s', FinalWrite(id, Committed));
    s' := Apply(s', FinalWrite(id, Committed));
  }

  lemma SettlingIs(acts: seq<Action>, settle: Action, id: PaymentId)
    requires settle.OnSent? || settle.OnFailed?
    ensures acts + [settle] + [Respond(settle.arm)] + [Receive(id)] + [FinalWrite(id, Committed)]
         == acts + Settling(settle, id)
  {
  }

  /** From any state: a call whose steps all succeed and whose event arrives returns the payment asked for,
      as the event settled it. */
  lemma PaymentGoesThrough(s: State, start: Action, id: PaymentId, settle: Action) returns (s': State, p: Payment)
    requires Inv(s) && Enabled(s, start) && Starts(start, id)
    requires start.PayInvoice? ==> start.invoice.amount.Some?
    requires Settles(settle, id) && settle.arm !in s.held
    ensures Leads(s, Submission(start, id) + Settling(settle, id), s')
    ensures Fresh(p, id) && PaymentAsAsked(start, p)
    ensures id in s'.returned && Told(settle, p, s'.returned[id]) && PaymentAsAsked(start, s'.returned[id])
  {
    var middle, rx;
    middle, p, rx := Submitted(s, start, id);
    var acts := Submission(start, id);
    var replied, q := Replied(s, acts, middle, settle, id, p, rx);
    s' := Ended(s, acts + [settle] + [Respond(settle.arm)], replied, id, p, q, rx);
    SettlingIs(acts, settle, id);
    ToldAsAsked(start, settle, p, q);
  }

  lemma ToldAsAsked(start: Action, settle: Action, p: Payment, q: Payment)
    requires (settle.OnSent? || settle.OnFailed?) && Told(settle, p, q)
    requires PaymentAsAsked(start, p) && p.status == Pending
    ensures PaymentAsAsked(start, q)
  {
  }

  /** A terminal status, and every inbound row, is for ever: restarts, failed writes and further
      events for the same payment included. */
  lemma TerminalRowsNeverChange(run: seq<State>, acts: seq<Action>, i: nat, j: nat, id: PaymentId)
    requires IsRun(run, acts) && i <= j < |run| && id in run[i].rows
    requires run[i].rows[id].status != Pending || run[i].rows[id].direction == Inbound
    ensures id in run[j].rows && run[j].rows[id] == run[i].rows[id]
  {
    RowLifeCycle(run, acts, i, j);
  }

  /** An outbound row is untouched or shows what a delivered event said. */
  ghost predicate OutboundRowOk(r: Row, events: Events) {
    r.direction == Outbound ==>
      || (r.status == Pending && r.preimage == None && r.fee == None)
      || (exists e :: e in events.sent && e.id == Some(r.id) && r.status == Succeeded
            && r.hash == Some(e.hash) && r.preimage == Some(e.preimage) && r.fee == e.fee)
      || (exists e :: e in events.failed && e.id == r.id && SaysWhy(r.status, e.reason)
            && r.preimage == None && r.fee == None)
  }

  lemma OutboundRowStaysOk(r: Row, r': Row, events: Events, events': Events)
    requires OutboundRowOk(r, events) && Within(events, events')
    requires r' == r || RowSettles(r, r', events')
    ensures OutboundRowOk(r', events')
  {
    if r' == r && r.direction == Outbound && r.status != Pending {
      if e :| e in events.sent && e.id == Some(r.id) && r.status == Succeeded
                && r.hash == Some(e.hash) && r.preimage == Some(e.preimage) && r.fee == e.fee {
        assert e in events'.sent;
      } else {
        var e :| e in events.failed && e.id == r.id && SaysWhy(r.status, e.reason)
                 && r.preimage == None && r.fee == None;
        assert e in events'.failed;
      }
    }
  }

  lemma StepKeepsRowOk(s: State, a: Action, id: PaymentId)
    requires Inv(s) && Enabled(s, a) && id in Apply(s, a).rows
    requires id in s.rows ==> OutboundRowOk(s.rows[id], s.events)
    ensures OutboundRowOk(Apply(s, a).rows[id], Apply(s, a).events)
  {
    if id in s.rows {
      StepEvolvesRow(s, a, id);
      OutboundRowStaysOk(s.rows[id], Apply(s, a).rows[id], s.events, Apply(s, a).events);
    } else {
      if Apply(s, a).rows[id].direction == Outbound { NewRowIsPending(s, a, id); }
    }
  }

  /** Every success the ledger shows was reported by LDK for that id, with that hash and preimage;
      every other terminal status by a failure for that id, and then no preimage is shown. */
  lemma {:induction false} SettledRowsHaveEvents(run: seq<State>, acts: seq<Action>, i: nat, id: PaymentId)
    requires IsRun(run, acts) && i < |run| && id in run[i].rows
    ensures OutboundRowOk(run[i].rows[id], run[i].events)
  {
    if i > 0 {
      RunKeepsInv(run, acts, i - 1);
      assert Steps(run[i - 1], acts[i - 1], run[i]);
      if id in run[i - 1].rows { SettledRowsHaveEvents(run, acts, i - 1, id); }
      StepKeepsRowOk(run[i - 1], acts[i - 1], id);
    }
  }

  /** What pay_invoice or keysend_payment returned to its client is in the table from then on. */
  lemma ReturnedPaymentIsStored(run: seq<State>, acts: seq<Action>, i: nat, j: nat, id: PaymentId)
    requires IsRun(run, acts) && i <= j < |run| && id in run[i].returned
    ensures id in run[j].rows && run[j].rows[id] == RowOf(run[i].returned[id]) && run[j].rows[id].status != Pending
  {
    RunKeepsInv(run, acts, i);
    assert ReturnedOk(run[i], id);
    RowLifeCycle(run, acts, i, j);
  }

  /** The answer a call receives is its own payment, settled, and no later state replaces it. */
  lemma AnswerIsForThatCall(run: seq<State>, acts: seq<Action>, i: nat, j: nat, id: PaymentId)
    requires IsRun(run, acts) && i <= j < |run| && id in run[i].calls && run[i].calls[id].Waiting?
    ensures var call := run[i].calls[id];
      && call.rx < |run[i].requests.channels| <= |run[j].requests.channels|
      && (!run[i].requests.channels[call.rx].state.Open? ==>
            run[j].requests.channels[call.rx] == run[i].requests.channels[call.rx])
      && (forall q :: run[i].requests.channels[call.rx].state == Answered(Ok(q)) ==>
            SameIdentity(call.payment, q) && q.status != Pending)
  {
    RunKeepsInv(run, acts, i);
    assert CallOk(run[i], id);
    RunExtends(run, acts, i, j);
    var call := run[i].calls[id];
    forall q | run[i].requests.channels[call.rx].state == Answered(Ok(q))
      ensures SameIdentity(call.payment, q) && q.status != Pending
    {
      SettledHasId(run[i].events, call.payment, q);
    }
  }

  lemma {:induction false} RunExtends(run: seq<State>, acts: seq<Action>, i: nat, j: nat)
    requires IsRun(run, acts) && i <= j < |run|
    ensures Extends(run[i].requests, run[j].requests)
    decreases j
  {
    if i < j {
      RunExtends(run, acts, i, j - 1);
      assert Steps(run[j - 1], acts[j - 1], run[j]);
      StepKeepsOwned(run[j - 1], acts[j - 1]);
      ExtendsTransitive(run[i].requests, run[j - 1].requests, run[j].requests);
    }
  }
}
