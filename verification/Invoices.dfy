/** Invoices with their payments, read through a left join
    (kld/src/database/ldk_database.rs, fetch_invoices; kld/src/api/invoices.rs, list_invoices). */
module Invoices {
  import opened Wrappers
  import opened Integers
  import opened Payments

  /** The invoice columns of a row. `readable` is false when the stored bolt11 text or key does not parse. */
  datatype Invoice = Invoice(hash: seq<Byte>, userLabel: Option<string>, bolt11: string, readable: bool,
                             expiry: Option<int>, amount: Option<int>, timestamp: int)

  /** The payment columns of a row; a hash, preimage, secret or id of a wrong length does not parse. */
  datatype PaymentColumns = PaymentColumns(id: seq<Byte>, hash: Option<seq<Byte>>, preimage: Option<seq<Byte>>,
                                           secret: Option<seq<Byte>>, amount: U64, rest: seq<int>)

  datatype JoinRow = JoinRow(invoice: Invoice, payment: Option<PaymentColumns>)

  /** An invoice with its payments, as returned. */
  datatype Listed = Listed(invoice: Invoice, payments: seq<PaymentColumns>)

  predicate Is32(bytes: seq<Byte>) { |bytes| == 32 }
  predicate Absent32(bytes: Option<seq<Byte>>) { bytes.Some? ==> Is32(bytes.value) }

  predicate PaymentParses(p: PaymentColumns) {
    Is32(p.id) && Absent32(p.hash) && Absent32(p.preimage) && Absent32(p.secret)
  }

  predicate RowParses(row: JoinRow) {
    Is32(row.invoice.hash) && (row.payment.Some? ==> PaymentParses(row.payment.value))
  }

  /** The lengths that a readable row has: 32 bytes for every hash, id, preimage and secret there is. */
  predicate Sized(row: JoinRow) {
    && |row.invoice.hash| == 32
    && match row.payment
       case None => true
       case Some(p) =>
         && |p.id| == 32
         && (p.hash == None || |p.hash.value| == 32)
         && (p.preimage == None || |p.preimage.value| == 32)
         && (p.secret == None || |p.secret.value| == 32)
  }

  /** The rows can all be read: by themselves, and the invoice columns of the first row of each hash. */
  ghost predicate AllRead(rows: seq<JoinRow>) {
    && (forall n :: 0 <= n < |rows| ==> Sized(rows[n]))
    && forall h :: FirstInvoice(rows, h).Some? ==> FirstInvoice(rows, h).value.readable
  }

  lemma {:induction false} FirstStaysFirst(rows: seq<JoinRow>, n: nat, hash: seq<Byte>)
    requires n <= |rows| && FirstInvoice(rows[..n], hash).Some?
    ensures FirstInvoice(rows, hash) == FirstInvoice(rows[..n], hash)
    decreases |rows| - n
  {
    if n < |rows| {
      assert rows[..n + 1] == rows[..n] + [rows[n]];
      FirstInvoiceAppend(rows[..n], rows[n], hash);
      FirstStaysFirst(rows, n + 1, hash);
    } else {
      assert rows[..n] == rows;
    }
  }

  lemma BadRowIsUnread(rows: seq<JoinRow>, n: nat)
    requires n < |rows| && BadRow(rows, n)
    ensures !AllRead(rows)
  {
    if RowParses(rows[n]) {
      var h := rows[n].invoice.hash;
      assert rows[..n + 1] == rows[..n] + [rows[n]];
      FirstInvoiceAppend(rows[..n], rows[n], h);
      FirstStaysFirst(rows, n + 1, h);
    } else {
      assert !Sized(rows[n]);
    }
  }

  /** The payments of an invoice come in the order of its rows. */
  lemma {:induction false} PaymentsInOrder(before: seq<JoinRow>, after: seq<JoinRow>, hash: seq<Byte>)
    ensures PaymentsIn(before + after, hash) == PaymentsIn(before, hash) + PaymentsIn(after, hash)
  {
    if after == [] {
      assert before + after == before;
    } else {
      var n := |after| - 1;
      PaymentsInOrder(before, after[..n], hash);
      assert (before + after)[..|before| + n] == before + after[..n];
    }
  }

  /** The payments that rows of this hash bring, in row order. */
  function PaymentsIn(rows: seq<JoinRow>, hash: seq<Byte>): seq<PaymentColumns> {
    if rows == [] then [] else
    var last := rows[|rows| - 1];
    PaymentsIn(rows[..|rows| - 1], hash)
      + if last.invoice.hash == hash && last.payment.Some? then [last.payment.value] else []
  }

  /** The invoice columns of the first row of this hash. */
  function FirstInvoice(rows: seq<JoinRow>, hash: seq<Byte>): Option<Invoice> {
    if rows == [] then None
    else if rows[0].invoice.hash == hash then Some(rows[0].invoice)
    else FirstInvoice(rows[1..], hash)
  }

  ghost predicate Folded(rows: seq<JoinRow>, invoices: map<seq<Byte>, Listed>) {
    && (forall h :: h in invoices <==> FirstInvoice(rows, h).Some?)
    && (forall h :: h in invoices ==>
          invoices[h] == Listed(FirstInvoice(rows, h).value, PaymentsIn(rows, h)) && invoices[h].invoice.readable)
  }

  lemma {:induction false} FirstInvoiceAppend(rows: seq<JoinRow>, row: JoinRow, hash: seq<Byte>)
    ensures FirstInvoice(rows + [row], hash) ==
            if FirstInvoice(rows, hash).Some? then FirstInvoice(rows, hash)
            else if row.invoice.hash == hash then Some(row.invoice) else None
  {
    if rows == [] {
      assert (rows + [row])[1..] == [];
    } else {
      assert (rows + [row])[1..] == rows[1..] + [row];
      FirstInvoiceAppend(rows[1..], row, hash);
    }
  }

  /** A row that cannot be read: by itself, or as the first of its invoice. */
  ghost predicate BadRow(rows: seq<JoinRow>, n: nat)
    requires n < |rows|
  {
    || !RowParses(rows[n])
    || (FirstInvoice(rows[..n], rows[n].invoice.hash).None? && !rows[n].invoice.readable)
  }

  /** What reading one more row makes of the map. */
  lemma FoldStep(rows: seq<JoinRow>, n: nat, invoices: map<seq<Byte>, Listed>)
    requires n < |rows| && Folded(rows[..n], invoices)
    ensures (var row, h := rows[n], rows[n].invoice.hash;
      var brought := if row.payment.Some? then [row.payment.value] else [];
      && (h in invoices ==>
            Folded(rows[..n + 1], invoices[h := invoices[h].(payments := invoices[h].payments + brought)]))
      && (h in invoices && row.payment.None? ==> Folded(rows[..n + 1], invoices))
      && (h !in invoices && row.invoice.readable ==>
            Folded(rows[..n + 1], invoices[h := Listed(row.invoice, brought)])))
  {
    var row, h := rows[n], rows[n].invoice.hash;
    assert rows[..n + 1] == rows[..n] + [row] && rows[..n + 1][..n] == rows[..n];
    forall k ensures FirstInvoice(rows[..n + 1], k) ==
                       if FirstInvoice(rows[..n], k).Some? then FirstInvoice(rows[..n], k)
                       else if h == k then Some(row.invoice) else None
    {
      FirstInvoiceAppend(rows[..n], row, k);
    }
    if h !in invoices { NoRowsNoPayments(rows[..n], h); }
  }

  method Fold(rows: seq<JoinRow>) returns (r: Result<map<seq<Byte>, Listed>, ()>)
    ensures r.Ok? <==> AllRead(rows)
    ensures r.Ok? ==> Folded(rows, r.value)
  {
    var invoices: map<seq<Byte>, Listed> := map[];
    for n := 0 to |rows|
      invariant Folded(rows[..n], invoices)
      invariant forall i :: 0 <= i < n ==> RowParses(rows[i])
    {
      var row := rows[n];
      var hash := row.invoice.hash;
      FoldStep(rows, n, invoices);
      if !RowParses(row) {
        BadRowIsUnread(rows, n);
        return Err(());
      }
      if hash in invoices {
        if row.payment.Some? {
          invoices := invoices[hash := invoices[hash].(payments := invoices[hash].payments + [row.payment.value])];
        }
      } else {
        if !row.invoice.readable {
          BadRowIsUnread(rows, n);
          return Err(());
        }
        invoices := invoices[hash := Listed(row.invoice, if row.payment.Some? then [row.payment.value] else [])];
      }
    }
    assert rows[..|rows|] == rows;
    return Ok(invoices);
  }

  lemma {:induction false} NoRowsNoPayments(rows: seq<JoinRow>, hash: seq<Byte>)
    requires FirstInvoice(rows, hash).None?
    ensures PaymentsIn(rows, hash) == []
  {
    if rows != [] {
      var n := |rows| - 1;
      assert rows == rows[..n] + [rows[n]];
      FirstInvoiceAppend(rows[..n], rows[n], hash);
      NoRowsNoPayments(rows[..n], hash);
    }
  }

  /** The invoices leave the map in an order of its own. */
  method FetchInvoices(rows: seq<JoinRow>) returns (r: Result<seq<Listed>, ()>)
    ensures r.Ok? <==> AllRead(rows)
    ensures r.Ok? ==> OnePerHash(rows, r.value)
  {
    var folded := Fold(rows);
    if folded.Err? {
      return Err(());
    }
    var invoices := folded.value;
    var out: seq<Listed> := [];
    var left := invoices.Keys;
    while left != {}
      invariant left <= invoices.Keys
      invariant forall i :: 0 <= i < |out| ==> out[i].invoice.hash in invoices.Keys - left
                                               && out[i] == invoices[out[i].invoice.hash]
      invariant forall i, j :: 0 <= i < j < |out| ==> out[i].invoice.hash != out[j].invoice.hash
      invariant forall h :: h in invoices.Keys - left ==> invoices[h] in out
      decreases left
    {
      var h :| h in left;
      HashOfFirst(rows, h);
      out := out + [invoices[h]];
      left := left - {h};
    }
    forall h | FirstInvoice(rows, h).Some? ensures exists i :: 0 <= i < |out| && out[i].invoice.hash == h {
      assert invoices[h] in out;
      HashOfFirst(rows, h);
    }
    return Ok(out);
  }

  lemma {:induction false} HashOfFirst(rows: seq<JoinRow>, hash: seq<Byte>)
    requires FirstInvoice(rows, hash).Some?
    ensures FirstInvoice(rows, hash).value.hash == hash
  {
    if rows[0].invoice.hash != hash { HashOfFirst(rows[1..], hash); }
  }

  /** One entry for each hash the rows mention, with the payments its rows bring, in row order. */
  ghost predicate OnePerHash(rows: seq<JoinRow>, out: seq<Listed>) {
    && (forall i, j :: 0 <= i < j < |out| ==> out[i].invoice.hash != out[j].invoice.hash)
    && (forall i :: 0 <= i < |out| ==>
          && FirstInvoice(rows, out[i].invoice.hash) == Some(out[i].invoice)
          && out[i].payments == PaymentsIn(rows, out[i].invoice.hash))
    && (forall h :: FirstInvoice(rows, h).Some? ==> exists i :: 0 <= i < |out| && out[i].invoice.hash == h)
  }

  // ---- The rows of the join ----

  /** `rows` is, in whatever order, the left join of the selected invoices (by payment hash) with the
      payments (by id). */
  ghost predicate IsLeftJoin(rows: seq<JoinRow>, selected: map<seq<Byte>, Invoice>,
                             payments: map<seq<Byte>, PaymentColumns>) {
    && (forall i :: 0 <= i < |rows| ==>
          && rows[i].invoice.hash in selected && rows[i].invoice == selected[rows[i].invoice.hash]
          && (rows[i].payment.Some? ==> Stored(payments, rows[i].payment.value, rows[i].invoice.hash))
          && (rows[i].payment.None? ==> forall p :: !Stored(payments, p, rows[i].invoice.hash)))
    && (forall h :: h in selected ==> selected[h].hash == h && FirstInvoice(rows, h).Some?)
    && (forall h, p :: h in selected && Stored(payments, p, h) ==>
          exists i :: 0 <= i < |rows| && rows[i].payment == Some(p))
    && (forall i, j :: 0 <= i < j < |rows| && rows[i].payment.Some? ==> rows[i].payment != rows[j].payment)
  }

  ghost predicate Stored(payments: map<seq<Byte>, PaymentColumns>, p: PaymentColumns, hash: seq<Byte>) {
    p.id in payments && payments[p.id] == p && p.hash == Some(hash)
  }

  lemma {:induction false} PaymentsInHas(rows: seq<JoinRow>, hash: seq<Byte>, p: PaymentColumns)
    ensures p in PaymentsIn(rows, hash) <==> exists i :: Brings(rows, i, hash, p)
  {
    if rows != [] {
      var n := |rows| - 1;
      PaymentsInHas(rows[..n], hash, p);
      if i :| Brings(rows[..n], i, hash, p) { assert Brings(rows, i, hash, p); }
      if i :| Brings(rows, i, hash, p) {
        if i < n { assert Brings(rows[..n], i, hash, p); }
      }
      if rows[n].invoice.hash == hash && rows[n].payment == Some(p) { assert Brings(rows, n, hash, p); }
    }
  }

  ghost predicate Brings(rows: seq<JoinRow>, i: int, hash: seq<Byte>, p: PaymentColumns) {
    0 <= i < |rows| && rows[i].invoice.hash == hash && rows[i].payment == Some(p)
  }

  lemma {:induction false} PaymentsInDistinct(rows: seq<JoinRow>, hash: seq<Byte>)
    requires forall i, j :: 0 <= i < j < |rows| && rows[i].payment.Some? ==> rows[i].payment != rows[j].payment
    ensures NoRepeats(PaymentsIn(rows, hash))
  {
    if rows != [] {
      var n := |rows| - 1;
      PaymentsInDistinct(rows[..n], hash);
      if rows[n].payment.Some? {
        PaymentsInHas(rows[..n], hash, rows[n].payment.value);
      }
    }
  }

  ghost predicate NoRepeats<T>(s: seq<T>) {
    forall i, j :: 0 <= i < j < |s| ==> s[i] != s[j]
  }

  lemma {:induction false} FirstInvoiceIs(rows: seq<JoinRow>, hash: seq<Byte>)
    requires FirstInvoice(rows, hash).Some?
    ensures (var first := FirstInvoice(rows, hash).value;
      first.hash == hash && exists i :: 0 <= i < |rows| && rows[i].invoice == first)
  {
    if rows[0].invoice.hash == hash {
      assert rows[0].invoice == FirstInvoice(rows, hash).value;
    } else {
      FirstInvoiceIs(rows[1..], hash);
      var i :| 0 <= i < |rows[1..]| && rows[1..][i].invoice == FirstInvoice(rows[1..], hash).value;
      assert rows[i + 1] == rows[1..][i];
    }
  }

  /** Whatever order the join delivers its rows in, the answer has each selected invoice once, with
      exactly the stored payments of its hash, none twice. */
  lemma ListingIsExact(rows: seq<JoinRow>, selected: map<seq<Byte>, Invoice>, payments: map<seq<Byte>, PaymentColumns>,
                       out: seq<Listed>, hash: seq<Byte>, p: PaymentColumns)
    requires IsLeftJoin(rows, selected, payments) && OnePerHash(rows, out)
    ensures hash in selected <==> exists i :: 0 <= i < |out| && out[i].invoice.hash == hash
    ensures forall i :: 0 <= i < |out| && out[i].invoice.hash == hash ==>
              && hash in selected && out[i].invoice == selected[hash] && NoRepeats(out[i].payments)
              && (p in out[i].payments <==> Stored(payments, p, hash))
  {
    if i :| 0 <= i < |out| && out[i].invoice.hash == hash {
      FirstInvoiceIs(rows, hash);
      PaymentsInDistinct(rows, hash);
      PaymentsInHas(rows, hash, p);
      if Stored(payments, p, hash) {
        var k :| 0 <= k < |rows| && rows[k].payment == Some(p);
        assert Brings(rows, k, hash, p);
      }
    }
  }

  // ---- Received amounts ----

  function Received(payments: seq<PaymentColumns>): nat {
    if payments == [] then 0 else Received(payments[..|payments| - 1]) + payments[|payments| - 1].amount
  }

  function TotalReceived(out: seq<Listed>): nat {
    if out == [] then 0 else TotalReceived(out[..|out| - 1]) + Received(out[|out| - 1].payments)
  }

  /** The response field: no amount at all when nothing, or a multiple of 2^64, was received. */
  function AmountShown(payments: seq<PaymentColumns>): Option<nat> {
    if Wrap(Received(payments)) > 0 then Some(Wrap(Received(payments))) else None
  }

  method AmountsReceived(out: seq<Listed>) returns (amounts: seq<Option<nat>>)
    ensures |amounts| == |out|
    ensures forall i :: 0 <= i < |out| ==> amounts[i] == AmountShown(out[i].payments)
  {
    amounts := [];
    for n := 0 to |out|
      invariant |amounts| == n
      invariant forall i :: 0 <= i < n ==> amounts[i] == AmountShown(out[i].payments)
    {
      var payments := out[n].payments;
      var sum: U64 := 0;
      for k := 0 to |payments|
        invariant sum == Wrap(Received(payments[..k]))
      {
        assert payments[..k + 1][..k] == payments[..k];
        WrapAdd(Received(payments[..k]), payments[k].amount);
        sum := Wrap(sum + payments[k].amount);
      }
      assert payments[..|payments|] == payments;
      amounts := amounts + [if sum > 0 then Some(sum) else None];
    }
  }

  /** The field shows what was received if and only if that is a 64-bit number. */
  lemma AmountExactWhen(payments: seq<PaymentColumns>)
    ensures (var shown := AmountShown(payments);
      (if shown.Some? then shown.value else 0) == Received(payments) <==> Received(payments) < TWO_64)
  {
    WrapsOutside(Received(payments));
  }

  /** Two payments of 2^64 millisatoshis together are shown as nothing received. */
  lemma AmountWrapsAround(p: PaymentColumns, q: PaymentColumns)
    requires p.amount == TWO_64 - 1 && q.amount == 1
    ensures Received([p, q]) == TWO_64 && AmountShown([p, q]) == None
  {
    assert [p, q][..1] == [p] && [p][..0] == [];
    assert Received([p]) == p.amount;
  }

  lemma {:induction false} ReceivedAppend(payments: seq<PaymentColumns>, p: PaymentColumns)
    ensures Received(payments + [p]) == Received(payments) + p.amount
  {
    assert (payments + [p])[..|payments|] == payments;
  }

  function AmountIn(row: JoinRow): nat { if row.payment.Some? then row.payment.value.amount else 0 }

  function RowsTotal(rows: seq<JoinRow>): nat {
    if rows == [] then 0 else RowsTotal(rows[..|rows| - 1]) + AmountIn(rows[|rows| - 1])
  }

  function OverHashes(hashes: seq<seq<Byte>>, rows: seq<JoinRow>): nat {
    if hashes == [] then 0
    else OverHashes(hashes[..|hashes| - 1], rows) + Received(PaymentsIn(rows, hashes[|hashes| - 1]))
  }

  lemma {:induction false} OneMoreRow(hashes: seq<seq<Byte>>, rows: seq<JoinRow>)
    requires NoRepeats(hashes) && rows != []
    ensures (var n := |rows| - 1;
      OverHashes(hashes, rows) ==
        OverHashes(hashes, rows[..n]) + if rows[n].invoice.hash in hashes then AmountIn(rows[n]) else 0)
  {
    var last := rows[|rows| - 1];
    if hashes != [] {
      var n := |hashes| - 1;
      assert hashes == hashes[..n] + [hashes[n]];
      OneMoreRow(hashes[..n], rows);
      if last.payment.Some? { ReceivedAppend(PaymentsIn(rows[..|rows| - 1], hashes[n]), last.payment.value); }
      assert PaymentsIn(rows[..|rows| - 1], hashes[n]) + [] == PaymentsIn(rows[..|rows| - 1], hashes[n]);
    }
  }

  lemma {:induction false} HashesPartitionRows(hashes: seq<seq<Byte>>, rows: seq<JoinRow>)
    requires NoRepeats(hashes) && forall i :: 0 <= i < |rows| ==> rows[i].invoice.hash in hashes
    ensures OverHashes(hashes, rows) == RowsTotal(rows)
    decreases |rows|
  {
    if rows == [] {
      NothingOverHashes(hashes);
    } else {
      OneMoreRow(hashes, rows);
      HashesPartitionRows(hashes, rows[..|rows| - 1]);
    }
  }

  lemma {:induction false} NothingOverHashes(hashes: seq<seq<Byte>>)
    ensures OverHashes(hashes, []) == 0
  {
    if hashes != [] { NothingOverHashes(hashes[..|hashes| - 1]); }
  }

  function HashesOf(out: seq<Listed>): seq<seq<Byte>> {
    seq(|out|, i requires 0 <= i < |out| => out[i].invoice.hash)
  }

  lemma {:induction false} TotalIsOverHashes(rows: seq<JoinRow>, out: seq<Listed>)
    requires forall i :: 0 <= i < |out| ==> out[i].payments == PaymentsIn(rows, out[i].invoice.hash)
    ensures TotalReceived(out) == OverHashes(HashesOf(out), rows)
  {
    if out != [] {
      TotalIsOverHashes(rows, out[..|out| - 1]);
      assert HashesOf(out)[..|out| - 1] == HashesOf(out[..|out| - 1]);
    }
  }

  function RowPayments(rows: seq<JoinRow>): seq<PaymentColumns> {
    if rows == [] then []
    else
      var last := rows[|rows| - 1].payment;
      RowPayments(rows[..|rows| - 1]) + if last.Some? then [last.value] else []
  }

  lemma {:induction false} RowPaymentsHave(rows: seq<JoinRow>, p: PaymentColumns)
    ensures p in RowPayments(rows) <==> exists i :: 0 <= i < |rows| && rows[i].payment == Some(p)
  {
    if rows != [] {
      RowPaymentsHave(rows[..|rows| - 1], p);
      assert forall i :: 0 <= i < |rows| - 1 ==> rows[..|rows| - 1][i] == rows[i];
    }
  }

  lemma {:induction false} RowPaymentsTotal(rows: seq<JoinRow>)
    requires forall i, j :: 0 <= i < j < |rows| && rows[i].payment.Some? ==> rows[i].payment != rows[j].payment
    ensures Received(RowPayments(rows)) == RowsTotal(rows) && NoRepeats(RowPayments(rows))
  {
    if rows != [] {
      var n := |rows| - 1;
      RowPaymentsTotal(rows[..n]);
      if rows[n].payment.Some? {
        ReceivedAppend(RowPayments(rows[..n]), rows[n].payment.value);
        RowPaymentsHave(rows[..n], rows[n].payment.value);
      } else {
        assert RowPayments(rows) == RowPayments(rows[..n]);
      }
    }
  }

  /** The payments of a scan of the whole table whose hash is selected. */
  function Matching(scan: seq<PaymentColumns>, selected: map<seq<Byte>, Invoice>): seq<PaymentColumns> {
    if scan == [] then [] else
    var p := scan[|scan| - 1];
    Matching(scan[..|scan| - 1], selected) + if p.hash.Some? && p.hash.value in selected then [p] else []
  }

  lemma {:induction false} MatchingHas(scan: seq<PaymentColumns>, selected: map<seq<Byte>, Invoice>)
    requires NoRepeats(scan)
    ensures forall p :: p in Matching(scan, selected) <==> p in scan && p.hash.Some? && p.hash.value in selected
    ensures NoRepeats(Matching(scan, selected))
  {
    if scan != [] {
      MatchingHas(scan[..|scan| - 1], selected);
      assert scan == scan[..|scan| - 1] + [scan[|scan| - 1]];
    }
  }

  lemma {:induction false} SameMembersSameTotal(a: seq<PaymentColumns>, b: seq<PaymentColumns>)
    requires NoRepeats(a) && NoRepeats(b) && forall p :: p in a <==> p in b
    ensures Received(a) == Received(b)
    decreases |a|
  {
    assert b == [] || b[0] in b;
    if a == [] {
    } else {
      var n := |a| - 1;
      assert a == a[..n] + [a[n]];
      assert a[n] in b;
      var k :| 0 <= k < |b| && b[k] == a[n];
      SameMembersWithoutOne(a, b, k);
      SameMembersSameTotal(a[..n], b[..k] + b[k + 1..]);
      RemoveOne(b, k);
    }
  }

  lemma SameMembersWithoutOne(a: seq<PaymentColumns>, b: seq<PaymentColumns>, k: nat)
    requires NoRepeats(a) && NoRepeats(b) && forall p :: p in a <==> p in b
    requires a != [] && k < |b| && b[k] == a[|a| - 1]
    ensures (var rest := b[..k] + b[k + 1..];
      NoRepeats(rest) && forall p :: p in a[..|a| - 1] <==> p in rest)
  {
    var n := |a| - 1;
    var rest := b[..k] + b[k + 1..];
    assert a == a[..n] + [a[n]];
    forall p ensures p in a[..n] <==> p in rest {
      if p in rest { assert p in b; }
      if p in a[..n] {
        assert p in b;
        var i :| 0 <= i < |b| && b[i] == p;
        if i < k { assert rest[i] == p; } else { assert rest[i - 1] == p; }
      }
    }
  }

  lemma {:induction false} RemoveOne(b: seq<PaymentColumns>, k: nat)
    requires k < |b|
    ensures Received(b) == Received(b[..k] + b[k + 1..]) + b[k].amount
    decreases |b|
  {
    var n := |b| - 1;
    if k == n {
      assert b[..k] + b[k + 1..] == b[..n];
    } else {
      RemoveOne(b[..n], k);
      assert b[..n][..k] + b[..n][k + 1..] + [b[n]] == b[..k] + b[k + 1..];
      ReceivedAppend(b[..n][..k] + b[..n][k + 1..], b[n]);
    }
  }

  /** Conservation: the amounts received, summed over the listed invoices, are the amounts of all
      stored payments whose hash belongs to a selected invoice. `scan` lists the payments table. */
  lemma ReceivedIsConserved(rows: seq<JoinRow>, selected: map<seq<Byte>, Invoice>,
                            payments: map<seq<Byte>, PaymentColumns>, out: seq<Listed>, scan: seq<PaymentColumns>)
    requires IsLeftJoin(rows, selected, payments) && OnePerHash(rows, out)
    requires NoRepeats(scan) && forall p :: p in scan <==> p.id in payments && payments[p.id] == p
    ensures TotalReceived(out) == Received(Matching(scan, selected))
  {
    ListedIsRows(rows, out);
    RowPaymentsTotal(rows);
    MatchingHas(scan, selected);
    forall p ensures p in RowPayments(rows) <==> p in Matching(scan, selected) {
      RowBringsStored(rows, selected, payments, p);
    }
    SameMembersSameTotal(RowPayments(rows), Matching(scan, selected));
  }

  lemma ListedIsRows(rows: seq<JoinRow>, out: seq<Listed>)
    requires OnePerHash(rows, out) && forall i :: 0 <= i < |rows| ==> FirstInvoice(rows, rows[i].invoice.hash).Some?
    ensures TotalReceived(out) == RowsTotal(rows)
  {
    TotalIsOverHashes(rows, out);
    forall i | 0 <= i < |rows| ensures rows[i].invoice.hash in HashesOf(out) {
      var h := rows[i].invoice.hash;
      var k :| 0 <= k < |out| && out[k].invoice.hash == h;
      assert HashesOf(out)[k] == h;
    }
    HashesPartitionRows(HashesOf(out), rows);
  }

  lemma RowBringsStored(rows: seq<JoinRow>, selected: map<seq<Byte>, Invoice>,
                        payments: map<seq<Byte>, PaymentColumns>, p: PaymentColumns)
    requires IsLeftJoin(rows, selected, payments)
    ensures p in RowPayments(rows) <==>
            p.id in payments && payments[p.id] == p && p.hash.Some? && p.hash.value in selected
  {
    RowPaymentsHave(rows, p);
    if p.hash.Some? && p.hash.value in selected && p.id in payments && payments[p.id] == p {
      assert Stored(payments, p, p.hash.value);
    }
  }
}
