/** Payments and their life cycle (kld/src/database/payment.rs). */
module Payments {
  import opened Wrappers

  type Byte = b: nat | b < 256

  datatype PaymentId = PaymentId(bytes: seq<Byte>)
  datatype PaymentHash = PaymentHash(bytes: seq<Byte>)
  datatype PaymentPreimage = PaymentPreimage(bytes: seq<Byte>)
  datatype PaymentSecret = PaymentSecret(bytes: seq<Byte>)

  datatype PaymentStatus =
    | Pending | Succeeded | RecipientRejected | UserAbandoned
    | RetriesExhausted | Expired | RouteNotFound | Error

  datatype PaymentDirection = Inbound | Outbound

  datatype FailureReason =
    | RecipientRejection | Abandonment | RetryExhaustion | PaymentExpiry | NoRoute | UnexpectedError

  datatype Payment = Payment(
    id: PaymentId,
    hash: Option<PaymentHash>,
    preimage: Option<PaymentPreimage>,
    secret: Option<PaymentSecret>,
    userLabel: Option<string>,
    status: PaymentStatus,
    amount: nat,
    fee: Option<nat>,
    direction: PaymentDirection,
    timestamp: int,
    bolt11: Option<string>)

  /** What the ledger needs of a BOLT11 invoice. */
  datatype Bolt11 = Bolt11(hash: PaymentHash, secret: PaymentSecret, amount: Option<nat>, text: string)

  function SpontaneousInbound(id: PaymentId, hash: PaymentHash, preimage: PaymentPreimage, amount: nat,
                              now: int): Payment {
    Payment(id, Some(hash), Some(preimage), None, None, Pending, amount, None, Inbound, now, None)
  }

  function SpontaneousOutbound(id: PaymentId, amount: nat, now: int): Payment {
    Payment(id, None, None, None, None, Pending, amount, None, Outbound, now, None)
  }

  function OfInvoiceInbound(id: PaymentId, hash: PaymentHash, preimage: Option<PaymentPreimage>,
                            secret: PaymentSecret, amount: nat, now: int): Payment {
    Payment(id, Some(hash), preimage, Some(secret), None, Succeeded, amount, None, Inbound, now, None)
  }

  /** An invoice need not say an amount. */
  function OfInvoiceOutbound(id: PaymentId, invoice: Bolt11, userLabel: Option<string>, now: int): (p: Payment)
    ensures invoice.amount == Some(p.amount) || (invoice.amount == None && p.amount == 0)
  {
    Payment(id, Some(invoice.hash), None, Some(invoice.secret), userLabel, Pending,
            if invoice.amount.Some? then invoice.amount.value else 0, None, Outbound, now, Some(invoice.text))
  }

  function StatusOf(reason: Option<FailureReason>): PaymentStatus {
    match reason
    case Some(RecipientRejection) => RecipientRejected
    case Some(Abandonment) => UserAbandoned
    case Some(RetryExhaustion) => RetriesExhausted
    case Some(PaymentExpiry) => Expired
    case Some(NoRoute) => RouteNotFound
    case _ => Error
  }

  /** The fields no settlement may touch. */
  ghost predicate SameIdentity(p: Payment, q: Payment) {
    && q.id == p.id && q.secret == p.secret && q.userLabel == p.userLabel && q.amount == p.amount
    && q.direction == p.direction && q.timestamp == p.timestamp && q.bolt11 == p.bolt11
  }

  ghost predicate SucceededWith(p: Payment, q: Payment, hash: PaymentHash, preimage: PaymentPreimage,
                                fee: Option<nat>) {
    && SameIdentity(p, q)
    && q.status == Succeeded
    && q.hash == Some(hash) && q.preimage == Some(preimage) && q.fee == fee
  }

  ghost predicate FailedWith(p: Payment, q: Payment, reason: Option<FailureReason>) {
    && SameIdentity(p, q)
    && SaysWhy(q.status, reason)
    && q.hash == p.hash && q.preimage == p.preimage && q.fee == p.fee
  }

  /** Each named reason has its own status; what is unexpected or not told is an error. */
  ghost predicate SaysWhy(status: PaymentStatus, reason: Option<FailureReason>) {
    && status != Pending && status != Succeeded
    && (status == RecipientRejected <==> reason == Some(RecipientRejection))
    && (status == UserAbandoned <==> reason == Some(Abandonment))
    && (status == RetriesExhausted <==> reason == Some(RetryExhaustion))
    && (status == Expired <==> reason == Some(PaymentExpiry))
    && (status == RouteNotFound <==> reason == Some(NoRoute))
    && (status == Error <==> reason == None || reason == Some(UnexpectedError))
  }

  /** A failure never reads as pending or as a success, and the five named reasons stay apart. */
  lemma FailureStatusIsTerminal(r1: Option<FailureReason>, r2: Option<FailureReason>)
    ensures StatusOf(r1) != Pending && StatusOf(r1) != Succeeded && SaysWhy(StatusOf(r1), r1)
    ensures StatusOf(r1) == StatusOf(r2) <==>
              r1 == r2 || (r1 in {None, Some(UnexpectedError)} && r2 in {None, Some(UnexpectedError)})
  {
    match r1
    case None =>
    case Some(_) =>
  }

  /** The `mut payment` of an event arm: the two settlements assign its fields in place. */
  class MutablePayment {
    var id: PaymentId
    var hash: Option<PaymentHash>
    var preimage: Option<PaymentPreimage>
    var secret: Option<PaymentSecret>
    var userLabel: Option<string>
    var status: PaymentStatus
    var amount: nat
    var fee: Option<nat>
    var direction: PaymentDirection
    var timestamp: int
    var bolt11: Option<string>

    function Value(): Payment
      reads this
    {
      Payment(id, hash, preimage, secret, userLabel, status, amount, fee, direction, timestamp, bolt11)
    }

    constructor (p: Payment)
      ensures Value() == p
    {
      id, hash, preimage, secret, userLabel := p.id, p.hash, p.preimage, p.secret, p.userLabel;
      status, amount, fee, direction := p.status, p.amount, p.fee, p.direction;
      timestamp, bolt11 := p.timestamp, p.bolt11;
    }

    method Succeed(hash: PaymentHash, preimage: PaymentPreimage, fee: Option<nat>)
      modifies this
      ensures SucceededWith(old(Value()), Value(), hash, preimage, fee)
    {
      this.hash := Some(hash);
      this.preimage := Some(preimage);
      this.fee := fee;
      this.status := Succeeded;
    }

    method Fail(reason: Option<FailureReason>)
      modifies this
      ensures FailedWith(old(Value()), Value(), reason)
    {
      this.status := StatusOf(reason);
    }
  }
}
