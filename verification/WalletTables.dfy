/** The two tables of wallet transactions and the statements on them
    (kld/src/database/wallet_database.rs). Neither table has a primary key
    (kld/src/database/sql/V2__wallet.sql), so both are lists of rows. */
module WalletTables {
  import opened Wrappers
  import opened Payments

  type Bytes = seq<Byte>

  /** Consensus encoding: a transaction is named by its serialisation. */
  datatype Codec = Codec(txidOf: Bytes -> Bytes, parses: Bytes -> bool)

  /** A txid has 32 bytes, and no transaction has: one input alone takes 41. */
  ghost predicate Sound(codec: Codec) {
    && (forall raw :: |codec.txidOf(raw)| == 32)
    && (forall raw :: codec.parses(raw) ==> |raw| != 32)
  }

  datatype BlockTime = BlockTime(height: nat, timestamp: nat)
  datatype Details = Details(transaction: Option<Bytes>, txid: Bytes, received: nat, sent: nat, fee: Option<nat>,
                             confirmationTime: Option<BlockTime>)

  datatype RawRow = RawRow(txid: Bytes, raw: Bytes)
  datatype DetailRow = DetailRow(txid: Bytes, timestamp: Option<nat>, received: nat, sent: nat, fee: Option<nat>,
                                 height: Option<nat>)

  datatype Db = Db(raws: seq<RawRow>, details: seq<DetailRow>)

  function RowOf(d: Details): DetailRow {
    DetailRow(d.txid, if d.confirmationTime.Some? then Some(d.confirmationTime.value.timestamp) else None,
              d.received, d.sent, d.fee,
              if d.confirmationTime.Some? then Some(d.confirmationTime.value.height) else None)
  }

  function Read(row: DetailRow, transaction: Option<Bytes>): Details {
    Details(transaction, row.txid, row.received, row.sent, row.fee,
            if row.height.Some? && row.timestamp.Some?
            then Some(BlockTime(row.height.value, row.timestamp.value)) else None)
  }

  lemma ReadBack(d: Details)
    ensures Read(RowOf(d), d.transaction) == d
  {
  }

  // ---- What the database does with a statement ----

  function RawsOf(raws: seq<RawRow>, txid: Bytes): seq<RawRow> {
    if raws == [] then []
    else RawsOf(raws[..|raws| - 1], txid) + if raws[|raws| - 1].txid == txid then [raws[|raws| - 1]] else []
  }

  function DetailsOf(details: seq<DetailRow>, txid: Bytes): seq<DetailRow> {
    if details == [] then []
    else DetailsOf(details[..|details| - 1], txid)
           + if details[|details| - 1].txid == txid then [details[|details| - 1]] else []
  }

  function Pair(d: DetailRow, raws: seq<RawRow>): seq<(DetailRow, RawRow)> {
    seq(|raws|, i requires 0 <= i < |raws| => (d, raws[i]))
  }

  /** SELECT .. WHERE wtd.txid = wt.txid */
  function Join(details: seq<DetailRow>, raws: seq<RawRow>): seq<(DetailRow, RawRow)> {
    if details == [] then []
    else Join(details[..|details| - 1], raws)
           + Pair(details[|details| - 1], RawsOf(raws, details[|details| - 1].txid))
  }

  /** UPDATE wallet_transactions SET raw_tx = $1 WHERE txid = $2 */
  function UpdateRaw(raws: seq<RawRow>, raw: Bytes, txid: Bytes): seq<RawRow> {
    seq(|raws|, i requires 0 <= i < |raws| => if raws[i].txid == txid then RawRow(raws[i].txid, raw) else raws[i])
  }

  function UpdateDetails(details: seq<DetailRow>, row: DetailRow): seq<DetailRow> {
    seq(|details|, i requires 0 <= i < |details| => if details[i].txid == row.txid then row else details[i])
  }

  function DeleteRaw(raws: seq<RawRow>, txid: Bytes): seq<RawRow> {
    if raws == [] then []
    else DeleteRaw(raws[..|raws| - 1], txid) + if raws[|raws| - 1].txid == txid then [] else [raws[|raws| - 1]]
  }

  function DeleteDetails(details: seq<DetailRow>, txid: Bytes): seq<DetailRow> {
    if details == [] then []
    else DeleteDetails(details[..|details| - 1], txid)
           + if details[|details| - 1].txid == txid then [] else [details[|details| - 1]]
  }

  function RawsAfterSet(codec: Codec, raws: seq<RawRow>, raw: Bytes, found: bool): seq<RawRow> {
    if found then UpdateRaw(raws, codec.txidOf(raw), raw)  // the two parameters are bound the wrong way round
    else raws + [RawRow(codec.txidOf(raw), raw)]
  }

  function DetailsAfterSet(details: seq<DetailRow>, d: Details, found: bool): seq<DetailRow> {
    if found then UpdateDetails(details, RowOf(d)) else details + [RowOf(d)]
  }

  // ---- Rows of one transaction ----

  lemma {:induction false} RawsOfHas(raws: seq<RawRow>, txid: Bytes)
    ensures forall r :: r in RawsOf(raws, txid) <==> r in raws && r.txid == txid
  {
    if raws != [] {
      RawsOfHas(raws[..|raws| - 1], txid);
      assert raws == raws[..|raws| - 1] + [raws[|raws| - 1]];
    }
  }

  lemma {:induction false} DetailsOfHas(details: seq<DetailRow>, txid: Bytes)
    ensures forall d :: d in DetailsOf(details, txid) <==> d in details && d.txid == txid
  {
    if details != [] {
      DetailsOfHas(details[..|details| - 1], txid);
      assert details == details[..|details| - 1] + [details[|details| - 1]];
    }
  }

  lemma {:induction false} AtMostOneRaw(raws: seq<RawRow>, txid: Bytes)
    requires DistinctRaws(raws)
    ensures |RawsOf(raws, txid)| <= 1
  {
    if raws != [] {
      var n := |raws| - 1;
      AtMostOneRaw(raws[..n], txid);
      RawsOfHas(raws[..n], txid);
      var before := RawsOf(raws[..n], txid);
      assert before == [] || before[0] in before;
    }
  }

  lemma {:induction false} AtMostOneDetail(details: seq<DetailRow>, txid: Bytes)
    requires DistinctDetails(details)
    ensures |DetailsOf(details, txid)| <= 1
  {
    if details != [] {
      var n := |details| - 1;
      AtMostOneDetail(details[..n], txid);
      DetailsOfHas(details[..n], txid);
      var before := DetailsOf(details[..n], txid);
      assert before == [] || before[0] in before;
    }
  }

  /** A pair of the join for each details row and each raw row of the same txid. */
  lemma {:induction false} JoinHas(details: seq<DetailRow>, raws: seq<RawRow>)
    ensures forall p :: p in Join(details, raws) <==> p.0 in details && p.1 in raws && p.0.txid == p.1.txid
  {
    if details != [] {
      var n := |details| - 1;
      JoinHas(details[..n], raws);
      RawsOfHas(raws, details[n].txid);
      assert details == details[..n] + [details[n]];
      var pairs := Pair(details[n], RawsOf(raws, details[n].txid));
      forall p ensures p in pairs <==> p.0 == details[n] && p.1 in RawsOf(raws, details[n].txid) {
        if p.0 == details[n] && p.1 in RawsOf(raws, details[n].txid) {
          var k :| 0 <= k < |RawsOf(raws, details[n].txid)| && RawsOf(raws, details[n].txid)[k] == p.1;
          assert pairs[k] == p;
        }
      }
    }
  }

  /** The join of one transaction's details rows is empty exactly when either table has no row for it. */
  lemma JoinNeedsBoth(db: Db, txid: Bytes)
    ensures Join(DetailsOf(db.details, txid), db.raws) == [] <==>
            DetailsOf(db.details, txid) == [] || RawsOf(db.raws, txid) == []
  {
    var mine := DetailsOf(db.details, txid);
    var pairs := Join(mine, db.raws);
    DetailsOfHas(db.details, txid);
    RawsOfHas(db.raws, txid);
    JoinHas(mine, db.raws);
    if mine != [] && RawsOf(db.raws, txid) != [] {
      assert mine[0] in mine && RawsOf(db.raws, txid)[0] in RawsOf(db.raws, txid);
      assert (mine[0], RawsOf(db.raws, txid)[0]) in pairs;
    }
    if pairs != [] {
      assert pairs[0] in pairs;
      assert pairs[0].1 in RawsOf(db.raws, txid);
    }
  }

  // ---- Tables without repeated transactions ----

  ghost predicate DistinctRaws(raws: seq<RawRow>) {
    forall i, j :: 0 <= i < j < |raws| ==> raws[i].txid != raws[j].txid
  }

  ghost predicate DistinctDetails(details: seq<DetailRow>) {
    forall i, j :: 0 <= i < j < |details| ==> details[i].txid != details[j].txid
  }

  lemma UpdateDetailsKeeps(details: seq<DetailRow>, row: DetailRow)
    requires DistinctDetails(details)
    ensures DistinctDetails(UpdateDetails(details, row))
    ensures forall d :: d in UpdateDetails(details, row) <==>
              (d in details && d.txid != row.txid) || (d == row && exists e :: e in details && e.txid == row.txid)
  {
    var after := UpdateDetails(details, row);
    forall d | d in after
      ensures (d in details && d.txid != row.txid) || (d == row && exists e :: e in details && e.txid == row.txid)
    {
      var i :| 0 <= i < |after| && after[i] == d;
      assert details[i] in details;
    }
    forall d | d in details && d.txid != row.txid ensures d in after {
      var i :| 0 <= i < |details| && details[i] == d;
      assert after[i] == d;
    }
    if e :| e in details && e.txid == row.txid {
      var i :| 0 <= i < |details| && details[i] == e;
      assert after[i] == row;
    }
  }

  lemma NewDetailsKeeps(details: seq<DetailRow>, row: DetailRow)
    requires DistinctDetails(details) && DetailsOf(details, row.txid) == []
    ensures DistinctDetails(details + [row])
    ensures forall d :: d in details + [row] <==> d == row || (d in details && d.txid != row.txid)
  {
    DetailsOfHas(details, row.txid);
    forall i | 0 <= i < |details| ensures details[i].txid != row.txid {
      assert details[i] in details && details[i] !in DetailsOf(details, row.txid);
    }
  }

  lemma DetailsAfterSetHas(details: seq<DetailRow>, d: Details, found: bool)
    requires DistinctDetails(details) && (found <==> DetailsOf(details, d.txid) != [])
    ensures (var after := DetailsAfterSet(details, d, found);
      && DistinctDetails(after)
      && (forall row :: row in after <==> row == RowOf(d) || (row in details && row.txid != d.txid)))
  {
    if found {
      DetailsOfHas(details, d.txid);
      assert DetailsOf(details, d.txid)[0] in DetailsOf(details, d.txid);
      UpdateDetailsKeeps(details, RowOf(d));
    } else {
      NewDetailsKeeps(details, RowOf(d));
    }
  }

  lemma {:induction false} DeleteRawHas(raws: seq<RawRow>, txid: Bytes)
    ensures forall r :: r in DeleteRaw(raws, txid) <==> r in raws && r.txid != txid
    ensures DistinctRaws(raws) ==> DistinctRaws(DeleteRaw(raws, txid))
  {
    if raws != [] {
      DeleteRawHas(raws[..|raws| - 1], txid);
      assert raws == raws[..|raws| - 1] + [raws[|raws| - 1]];
      if DistinctRaws(raws) {
        var before := DeleteRaw(raws[..|raws| - 1], txid);
        forall i | 0 <= i < |before| ensures before[i].txid != raws[|raws| - 1].txid {
          assert before[i] in before && before[i] in raws[..|raws| - 1];
        }
      }
    }
  }

  lemma {:induction false} DeleteDetailsHas(details: seq<DetailRow>, txid: Bytes)
    ensures forall d :: d in DeleteDetails(details, txid) <==> d in details && d.txid != txid
    ensures DistinctDetails(details) ==> DistinctDetails(DeleteDetails(details, txid))
  {
    if details != [] {
      DeleteDetailsHas(details[..|details| - 1], txid);
      assert details == details[..|details| - 1] + [details[|details| - 1]];
      if DistinctDetails(details) {
        var before := DeleteDetails(details[..|details| - 1], txid);
        forall i | 0 <= i < |before| ensures before[i].txid != details[|details| - 1].txid {
          assert before[i] in before && before[i] in details[..|details| - 1];
        }
      }
    }
  }

  // ---- How often a transaction is listed ----

  function Mine(pairs: seq<(DetailRow, RawRow)>, txid: Bytes): nat {
    if pairs == [] then 0 else Mine(pairs[..|pairs| - 1], txid) + if pairs[|pairs| - 1].0.txid == txid then 1 else 0
  }

  lemma {:induction false} MineOfPair(before: seq<(DetailRow, RawRow)>, d: DetailRow, raws: seq<RawRow>, txid: Bytes)
    ensures Mine(before + Pair(d, raws), txid) == Mine(before, txid) + if d.txid == txid then |raws| else 0
  {
    var all := before + Pair(d, raws);
    if raws == [] {
      assert all == before;
    } else {
      MineOfPair(before, d, raws[..|raws| - 1], txid);
      assert all[..|all| - 1] == before + Pair(d, raws[..|raws| - 1]);
    }
  }

  lemma OneMore(d: nat, r: nat)
    ensures (d + 1) * r == d * r + r
  {
  }

  lemma {:induction false} JoinCounts(details: seq<DetailRow>, raws: seq<RawRow>, txid: Bytes)
    ensures Mine(Join(details, raws), txid) == |DetailsOf(details, txid)| * |RawsOf(raws, txid)|
  {
    if details != [] {
      var n := |details| - 1;
      JoinCounts(details[..n], raws, txid);
      MineOfPair(Join(details[..n], raws), details[n], RawsOf(raws, details[n].txid), txid);
      OneMore(|DetailsOf(details[..n], txid)|, |RawsOf(raws, txid)|);
    }
  }

  lemma OnceEach(d: nat, r: nat)
    ensures d * r == d <==> d == 0 || r == 1
  {
    if d * r == d && d != 0 { assert d * (r - 1) == 0; }
  }

  lemma {:induction false} DetailsOfUpdate(details: seq<DetailRow>, row: DetailRow)
    ensures |DetailsOf(UpdateDetails(details, row), row.txid)| == |DetailsOf(details, row.txid)|
  {
    if details != [] {
      DetailsOfUpdate(details[..|details| - 1], row);
      assert UpdateDetails(details, row)[..|details| - 1] == UpdateDetails(details[..|details| - 1], row);
    }
  }
}
