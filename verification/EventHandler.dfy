/** The event arms that answer parked API requests (kld/src/ldk/event_handler.rs). */
module EventHandler {
  import opened Wrappers
  import opened Integers
  import opened Payments
  import opened AsyncSenders
  import opened FeeRates

  type Transaction = seq<Byte>

  datatype Failure =
    | NoSuchRequest | NoPaymentId | FundingFailed | OpeningFailed | ChannelClosed | Database

  /** `user_channel_id as u64`: the 128-bit id keeps its low half. */
  function RequestKey(userChannelId: nat): nat { userChannelId % TWO_64 }

  /** The request filed under k has left the table and its receiver, and no other, has `reply`. */
  ghost predicate AnsweredOnce<K(!new), V, RV>(t: Table<K, V, RV>, t': Table<K, V, RV>, k: K, reply: RV) {
    && k in t.entries && t'.entries == t.entries - {k}
    && |t'.channels| == |t.channels| && t.entries[k].tx < |t.channels|
    && t'.channels[t.entries[k].tx] == Channel(t.channels[t.entries[k].tx].key, Answered(reply))
    && forall c :: 0 <= c < |t.channels| && c != t.entries[k].tx ==> t'.channels[c] == t.channels[c]
  }

  lemma TakeThenSend<K(!new), V, RV>(t: Table<K, V, RV>, k: K, reply: RV)
    requires k in t.entries && t.entries[k].tx < |t.channels|
    ensures AnsweredOnce(t, Send(Take(t, k), t.entries[k].tx, reply), k, reply)
  {
  }

  class Handler {
    const funding: Senders<nat, FeeRate, Result<Transaction, Failure>>
    const payments: Senders<PaymentId, Payment, Result<Payment, Failure>>
    /** Funding transactions the channel manager has accepted, in order. */
    var accepted: seq<(nat, Transaction)>

    ghost predicate Valid()
      reads this, funding, payments
    {
      funding.Valid() && payments.Valid()
    }

    constructor (funding: Senders<nat, FeeRate, Result<Transaction, Failure>>,
                 payments: Senders<PaymentId, Payment, Result<Payment, Failure>>)
      requires funding.Valid() && payments.Valid()
      ensures Valid() && this.funding == funding && this.payments == payments && accepted == []
    {
      this.funding, this.payments, this.accepted := funding, payments, [];
    }

    /** `fundTx` is the wallet and `generated` the channel manager; the last step, the note in
        initializing_channels, is only logged when it fails. */
    method FundingGenerationReady(userChannelId: nat, fundTx: FeeRate -> Result<Transaction, Failure>,
                                  generated: Transaction -> bool) returns (r: Result<(), Failure>)
      requires Valid()
      modifies this, funding
      ensures Valid()
      ensures RequestKey(userChannelId) !in old(funding.senders) ==>
                r == Err(NoSuchRequest) && funding.View() == old(funding.View()) && accepted == old(accepted)
      ensures RequestKey(userChannelId) in old(funding.senders) ==>
                var k := RequestKey(userChannelId);
                var tx := fundTx(old(funding.senders)[k].value);
                && (tx.Err? ==>
                      r == Err(FundingFailed) && accepted == old(accepted)
                      && AnsweredOnce(old(funding.View()), funding.View(), k, Err(FundingFailed)))
                && (tx.Ok? && !generated(tx.value) ==>
                      r == Err(OpeningFailed) && accepted == old(accepted)
                      && AnsweredOnce(old(funding.View()), funding.View(), k, Err(OpeningFailed)))
                && (tx.Ok? && generated(tx.value) ==>
                      r == Ok(()) && accepted == old(accepted) + [(userChannelId, tx.value)]
                      && AnsweredOnce(old(funding.View()), funding.View(), k, Ok(tx.value)))
    {
      var entry := funding.Get(RequestKey(userChannelId));
      if entry.None? {
        return Err(NoSuchRequest);
      }
      var tx := fundTx(entry.value.value);
      if tx.Err? {
        funding.Answer(entry.value.tx, Err(FundingFailed));
        return Err(FundingFailed);
      }
      if !generated(tx.value) {
        funding.Answer(entry.value.tx, Err(OpeningFailed));
        return Err(OpeningFailed);
      }
      accepted := accepted + [(userChannelId, tx.value)];
      funding.Answer(entry.value.tx, Ok(tx.value));
      return Ok(());
    }

    /** The request is answered before the channel table is touched, so also when `closeRow` fails. */
    method ChannelClosedArm(userChannelId: nat, closeRow: bool) returns (r: Result<(), Failure>)
      requires Valid()
      modifies funding
      ensures Valid() && (r == Ok(()) <==> closeRow)
      ensures RequestKey(userChannelId) !in old(funding.senders) ==> funding.View() == old(funding.View())
      ensures RequestKey(userChannelId) in old(funding.senders) ==>
                AnsweredOnce(old(funding.View()), funding.View(), RequestKey(userChannelId), Err(ChannelClosed))
    {
      funding.Respond(RequestKey(userChannelId), Err(ChannelClosed));
      return if closeRow then Ok(()) else Err(Database);
    }

    method PaymentSent(id: Option<PaymentId>, hash: PaymentHash, preimage: PaymentPreimage, fee: Option<nat>)
      returns (r: Result<(), Failure>)
      requires Valid()
      modifies payments
      ensures Valid() && (r.Ok? <==> id.Some? && id.value in old(payments.senders))
      ensures r.Err? ==> payments.View() == old(payments.View())
      ensures r.Ok? ==> exists q ::
                && SucceededWith(old(payments.senders)[id.value].value, q, hash, preimage, fee)
                && AnsweredOnce(old(payments.View()), payments.View(), id.value, Ok(q))
    {
      if id.None? {
        return Err(NoPaymentId);
      }
      var entry := payments.Get(id.value);
      if entry.None? {
        return Err(NoSuchRequest);
      }
      var payment := new MutablePayment(entry.value.value);
      payment.Succeed(hash, preimage, fee);
      ghost var q := payment.Value();
      payments.Answer(entry.value.tx, Ok(payment.Value()));
      assert AnsweredOnce(old(payments.View()), payments.View(), id.value, Ok(q));
      return Ok(());
    }

    method PaymentFailed(id: PaymentId, reason: Option<FailureReason>) returns (r: Result<(), Failure>)
      requires Valid()
      modifies payments
      ensures Valid() && (r.Ok? <==> id in old(payments.senders))
      ensures r.Err? ==> payments.View() == old(payments.View())
      ensures r.Ok? ==> exists q ::
                && FailedWith(old(payments.senders)[id].value, q, reason)
                && AnsweredOnce(old(payments.View()), payments.View(), id, Ok(q))
    {
      var entry := payments.Get(id);
      if entry.None? {
        return Err(NoSuchRequest);
      }
      var payment := new MutablePayment(entry.value.value);
      payment.Fail(reason);
      ghost var q := payment.Value();
      payments.Answer(entry.value.tx, Ok(payment.Value()));
      assert AnsweredOnce(old(payments.View()), payments.View(), id, Ok(q));
      return Ok(());
    }
  }
}
