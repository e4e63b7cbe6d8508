/** The operations of the wallet database, outside a batch (kld/src/database/wallet_database.rs). Each
    is a series of statements, and every statement may fail by itself. */
module WalletDatabase {
  import opened Wrappers
  import opened Database
  import opened WalletTables

  /** What the database does with the statements of one operation: whether it answers a select, and
      how a write ends. A process that stops within an operation leaves what CommittedUnheard leaves, or
      what NotCommitted leaves with the write run later. */
  datatype Answers = Answers(select: bool, details: Write, rawSelect: bool, raw: Write)

  const ALL_WELL := Answers(true, Committed, true, Committed)

  // ---- What each operation may return and leave ----

  function Decoded(codec: Codec, pair: (DetailRow, RawRow)): Result<Option<Details>, ()> {
    if codec.parses(pair.1.raw) then Ok(Some(Read(pair.0, Some(pair.1.raw)))) else Err(())
  }

  function DecodedRaw(codec: Codec, row: RawRow): Result<Option<Bytes>, ()> {
    if codec.parses(row.raw) then Ok(Some(row.raw)) else Err(())
  }

  /** The first row counts, and any row may come first. */
  ghost predicate Selects(codec: Codec, db: Db, txid: Bytes, answered: bool, r: Result<Option<Details>, ()>) {
    var rows := Join(DetailsOf(db.details, txid), db.raws);
    if !answered then r == Err(())
    else if rows == [] then r == Ok(None)
    else exists p :: p in rows && r == Decoded(codec, p)
  }

  ghost predicate SelectsRaw(codec: Codec, raws: seq<RawRow>, txid: Bytes, answered: bool,
                             r: Result<Option<Bytes>, ()>) {
    var rows := RawsOf(raws, txid);
    if !answered then r == Err(())
    else if rows == [] then r == Ok(None)
    else exists row :: row in rows && r == DecodedRaw(codec, row)
  }

  ghost predicate SetsRaw(codec: Codec, raws: seq<RawRow>, raw: Bytes, a: Answers, ok: bool, raws': seq<RawRow>) {
    exists r ::
      SelectsRaw(codec, raws, codec.txidOf(raw), a.rawSelect, r) && SetsRawGiven(codec, raws, raw, r, a, ok, raws')
  }

  ghost predicate SetsRawGiven(codec: Codec, raws: seq<RawRow>, raw: Bytes, r: Result<Option<Bytes>, ()>, a: Answers,
                               ok: bool, raws': seq<RawRow>) {
    if r.Err? then !ok && raws' == raws
    else (ok <==> a.raw.Committed?) && raws' == Wrote(raws, RawsAfterSet(codec, raws, raw, r.value.Some?), a.raw)
  }

  ghost predicate SetsTx(codec: Codec, db: Db, d: Details, a: Answers, ok: bool, db': Db) {
    exists r :: Selects(codec, db, d.txid, a.select, r) && SetsTxGiven(codec, db, d, r, a, ok, db')
  }

  /** Each write is a statement of its own; the first that is not heard to commit ends the operation. */
  ghost predicate SetsTxGiven(codec: Codec, db: Db, d: Details, r: Result<Option<Details>, ()>, a: Answers,
                              ok: bool, db': Db) {
    if r.Err? then !ok && db' == db
    else
      && db'.details == Wrote(db.details, DetailsAfterSet(db.details, d, r.value.Some?), a.details)
      && if !a.details.Committed? then !ok && db'.raws == db.raws
         else if d.transaction.None? then ok && db'.raws == db.raws
         else SetsRaw(codec, db.raws, d.transaction.value, a, ok, db'.raws)
  }

  ghost predicate DeletesTx(codec: Codec, db: Db, txid: Bytes, includeRaw: bool, a: Answers,
                            r: Result<Option<Details>, ()>, db': Db) {
    exists s :: Selects(codec, db, txid, a.select, s) && DeletesTxGiven(db, txid, includeRaw, s, a, r, db')
  }

  ghost predicate DeletesTxGiven(db: Db, txid: Bytes, includeRaw: bool, s: Result<Option<Details>, ()>, a: Answers,
                                 r: Result<Option<Details>, ()>, db': Db) {
    if s.Err? || s.value.None? then r == s && db' == db
    else
      && db'.details == Wrote(db.details, DeleteDetails(db.details, txid), a.details)
      && if !a.details.Committed? then r == Err(()) && db'.raws == db.raws
         else if !includeRaw then r == s && db'.raws == db.raws
         else
           && r == (if a.raw.Committed? then s else Err(()))
           && db'.raws == Wrote(db.raws, DeleteRaw(db.raws, txid), a.raw)
  }

  ghost predicate DeletesRaw(codec: Codec, db: Db, txid: Bytes, a: Answers, r: Result<Option<Bytes>, ()>, db': Db) {
    exists s :: SelectsRaw(codec, db.raws, txid, a.rawSelect, s) && DeletesRawGiven(db, txid, s, a, r, db')
  }

  ghost predicate DeletesRawGiven(db: Db, txid: Bytes, s: Result<Option<Bytes>, ()>, a: Answers,
                                  r: Result<Option<Bytes>, ()>, db': Db) {
    if s.Err? || s.value.None? then r == s && db' == db
    else
      && r == (if a.raw.Committed? then s else Err(()))
      && db' == Db(Wrote(db.raws, DeleteRaw(db.raws, txid), a.raw), db.details)
  }

  function ReadRow(p: (DetailRow, RawRow)): Details { Read(p.0, Some(p.1.raw)) }
  function ReadDetail(d: DetailRow): Details { Read(d, None) }
  function Bare(d: Details): Details { d.(transaction := None) }

  /** The read that joins the raw transactions in fails when any of them does not decode. */
  ghost predicate ReadsJoined(codec: Codec, db: Db, answered: bool, r: Result<seq<Details>, ()>) {
    var rows := Join(db.details, db.raws);
    && (r.Ok? <==> answered && forall p :: p in rows ==> codec.parses(p.1.raw))
    && (r.Ok? ==> multiset(r.value) == multiset(Map(rows, ReadRow)))
  }

  ghost predicate ReadsPlain(db: Db, answered: bool, r: Result<seq<Details>, ()>) {
    (r.Ok? <==> answered) && (r.Ok? ==> multiset(r.value) == multiset(Map(db.details, ReadDetail)))
  }

  // ---- The operations ----

  class Wallet {
    const codec: Codec
    var raws: seq<RawRow>
    var details: seq<DetailRow>

    constructor (codec: Codec)
      ensures this.codec == codec && View() == Db([], [])
    {
      this.codec, raws, details := codec, [], [];
    }

    function View(): Db
      reads this
    {
      Db(raws, details)
    }

    method SelectTransaction(txid: Bytes, answered: bool) returns (r: Result<Option<Bytes>, ()>)
      ensures SelectsRaw(codec, raws, txid, answered, r)
    {
      if !answered {
        return Err(());
      }
      var rows := Query(RawsOf(raws, txid));
      Permuted(rows, RawsOf(raws, txid));
      if rows == [] {
        return Ok(None);
      }
      assert rows[0] in rows;
      return if codec.parses(rows[0].raw) then Ok(Some(rows[0].raw)) else Err(());
    }

    method SelectDetails(txid: Bytes, answered: bool) returns (r: Result<Option<Details>, ()>)
      ensures Selects(codec, View(), txid, answered, r)
    {
      if !answered {
        return Err(());
      }
      var rows := Query(Join(DetailsOf(details, txid), raws));
      Permuted(rows, Join(DetailsOf(details, txid), raws));
      if rows == [] {
        return Ok(None);
      }
      assert rows[0] in rows;
      if !codec.parses(rows[0].1.raw) {
        return Err(());
      }
      return Ok(Some(Read(rows[0].0, Some(rows[0].1.raw))));
    }

    method SetRawTx(raw: Bytes, a: Answers) returns (r: Result<(), ()>)
      modifies this`raws
      ensures SetsRaw(codec, old(raws), raw, a, r.Ok?, raws)
    {
      var txid := codec.txidOf(raw);
      var found := SelectTransaction(txid, a.rawSelect);
      if found.Err? {
        return Err(());
      }
      if found.value.Some? {
        raws := Wrote(raws, UpdateRaw(raws, txid, raw), a.raw);  // the two parameters are bound the wrong way round
      } else {
        raws := Wrote(raws, raws + [RawRow(txid, raw)], a.raw);
      }
      return if a.raw.Committed? then Ok(()) else Err(());
    }

    method SetTx(d: Details, a: Answers) returns (r: Result<(), ()>)
      modifies this
      ensures SetsTx(codec, old(View()), d, a, r.Ok?, View())
    {
      var found := SelectDetails(d.txid, a.select);
      if found.Err? {
        return Err(());
      }
      if found.value.Some? {
        details := Wrote(details, UpdateDetails(details, RowOf(d)), a.details);
      } else {
        details := Wrote(details, details + [RowOf(d)], a.details);
      }
      if !a.details.Committed? {
        return Err(());
      }
      if d.transaction.Some? {
        r := SetRawTx(d.transaction.value, a);
      } else {
        r := Ok(());
      }
    }

    method DelTx(txid: Bytes, includeRaw: bool, a: Answers) returns (r: Result<Option<Details>, ()>)
      modifies this
      ensures DeletesTx(codec, old(View()), txid, includeRaw, a, r, View())
    {
      r := SelectDetails(txid, a.select);
      if r.Err? || r.value.None? {
        return r;
      }
      details := Wrote(details, DeleteDetails(details, txid), a.details);
      if !a.details.Committed? {
        return Err(());
      }
      if includeRaw {
        raws := Wrote(raws, DeleteRaw(raws, txid), a.raw);
        if !a.raw.Committed? {
          return Err(());
        }
      }
    }

    method DelRawTx(txid: Bytes, a: Answers) returns (r: Result<Option<Bytes>, ()>)
      modifies this`raws
      ensures DeletesRaw(codec, old(View()), txid, a, r, View())
    {
      r := SelectTransaction(txid, a.rawSelect);
      if r.Err? || r.value.None? {
        return r;
      }
      raws := Wrote(raws, DeleteRaw(raws, txid), a.raw);
      if !a.raw.Committed? {
        return Err(());
      }
    }

    method GetTx(txid: Bytes, includeRaw: bool, answered: bool) returns (r: Result<Option<Details>, ()>)
      ensures exists s :: Selects(codec, View(), txid, answered, s) &&
                r == if s.Ok? && s.value.Some? && !includeRaw then Ok(Some(Bare(s.value.value))) else s
    {
      var s := SelectDetails(txid, answered);
      r := s;
      if s.Ok? && s.value.Some? && !includeRaw {
        r := Ok(Some(s.value.value.(transaction := None)));
      }
    }

    method IterTxs(includeRaw: bool, answered: bool) returns (r: Result<seq<Details>, ()>)
      ensures includeRaw ==> ReadsJoined(codec, View(), answered, r)
      ensures !includeRaw ==> ReadsPlain(View(), answered, r)
    {
      if !answered {
        return Err(());
      }
      if includeRaw {
        r := ReadAllJoined();
      } else {
        r := ReadAllPlain();
      }
    }

    method ReadAllJoined() returns (r: Result<seq<Details>, ()>)
      ensures ReadsJoined(codec, View(), true, r)
    {
      var rows := Query(Join(details, raws));
      Permuted(rows, Join(details, raws));
      var out: seq<Details> := [];
      for n := 0 to |rows|
        invariant out == Map(rows[..n], ReadRow)
        invariant forall i :: 0 <= i < n ==> codec.parses(rows[i].1.raw)
      {
        if !codec.parses(rows[n].1.raw) {
          assert rows[n] in rows;
          return Err(());
        }
        MapAppend(rows[..n], rows[n], ReadRow);
        assert rows[..n + 1] == rows[..n] + [rows[n]];
        out := out + [Read(rows[n].0, Some(rows[n].1.raw))];
      }
      assert rows[..|rows|] == rows;
      MapPermutes(rows, Join(details, raws), ReadRow);
      return Ok(out);
    }

    method ReadAllPlain() returns (r: Result<seq<Details>, ()>)
      ensures ReadsPlain(View(), true, r)
    {
      var rows := Query(details);
      Permuted(rows, details);
      var out: seq<Details> := [];
      for n := 0 to |rows|
        invariant out == Map(rows[..n], ReadDetail)
      {
        MapAppend(rows[..n], rows[n], ReadDetail);
        assert rows[..n + 1] == rows[..n] + [rows[n]];
        out := out + [Read(rows[n], None)];
      }
      assert rows[..|rows|] == rows;
      MapPermutes(rows, details, ReadDetail);
      return Ok(out);
    }
  }

  // ---- The invariant ----

  ghost predicate RawsOk(codec: Codec, raws: seq<RawRow>) {
    && DistinctRaws(raws)
    && forall r :: r in raws ==> codec.parses(r.raw) && codec.txidOf(r.raw) == r.txid
  }

  ghost predicate HasRow(raws: seq<RawRow>, txid: Bytes) {
    exists r :: r in raws && r.txid == txid
  }

  ghost predicate Covered(db: Db) {
    forall d :: d in db.details ==> HasRow(db.raws, d.txid)
  }

  ghost predicate Inv(codec: Codec, db: Db) {
    RawsOk(codec, db.raws) && DistinctDetails(db.details) && Covered(db)
  }

  lemma HasRowIs(raws: seq<RawRow>, txid: Bytes)
    ensures HasRow(raws, txid) <==> RawsOf(raws, txid) != []
  {
    RawsOfHas(raws, txid);
    var mine := RawsOf(raws, txid);
    if mine != [] { assert mine[0] in mine; }
  }

  /** With decodable rows an answered select of raw rows says whether there is one. */
  lemma RawSelectTells(codec: Codec, raws: seq<RawRow>, txid: Bytes, answered: bool, r: Result<Option<Bytes>, ()>)
    requires RawsOk(codec, raws) && SelectsRaw(codec, raws, txid, answered, r)
    ensures r.Ok? <==> answered
    ensures r.Ok? ==> (r.value.Some? <==> RawsOf(raws, txid) != [])
  {
    RawsOfHas(raws, txid);
  }

  /** The select of a details row says whether there are a details row and a raw row. */
  lemma SelectTells(codec: Codec, db: Db, txid: Bytes, answered: bool, r: Result<Option<Details>, ()>)
    requires RawsOk(codec, db.raws) && Selects(codec, db, txid, answered, r)
    ensures r.Ok? <==> answered
    ensures r.Ok? ==> (r.value.Some? <==> DetailsOf(db.details, txid) != [] && RawsOf(db.raws, txid) != [])
  {
    JoinNeedsBoth(db, txid);
    JoinHas(DetailsOf(db.details, txid), db.raws);
  }

  lemma CoveredIs(db: Db, txid: Bytes)
    requires Covered(db) && DetailsOf(db.details, txid) != []
    ensures RawsOf(db.raws, txid) != []
  {
    var mine := DetailsOf(db.details, txid);
    DetailsOfHas(db.details, txid);
    assert mine[0] in mine;
    HasRowIs(db.raws, txid);
  }

  // ---- The table of raw transactions ----

  /** A stored transaction is never replaced: with its parameters the wrong way round the update
      looks for a row whose txid is a whole transaction, and there is none. What set_raw_tx is called
      with is what get_raw_tx then returns exactly when no other serialisation of it was stored. */
  lemma SetRawNeverReplaces(codec: Codec, raws: seq<RawRow>, raw: Bytes, a: Answers, ok: bool, raws': seq<RawRow>)
    requires Sound(codec) && RawsOk(codec, raws) && codec.parses(raw) && SetsRaw(codec, raws, raw, a, ok, raws')
    ensures (var stored, row := RawsOf(raws, codec.txidOf(raw)), RawRow(codec.txidOf(raw), raw);
      && RawsOk(codec, raws')
      && raws' == (if stored == [] && a.rawSelect && TookEffect(a.raw) then raws + [row] else raws)
      && (ok ==> (RawsOf(raws', row.txid) == [row] <==> stored == [] || stored[0].raw == raw)))
  {
    var txid := codec.txidOf(raw);
    var stored := RawsOf(raws, txid);
    var r :| SelectsRaw(codec, raws, txid, a.rawSelect, r) && SetsRawGiven(codec, raws, raw, r, a, ok, raws');
    RawSelectTells(codec, raws, txid, a.rawSelect, r);
    RawsOfHas(raws, txid);
    if stored == [] {
      NewRawIsKept(codec, raws, raw);
    } else {
      AtMostOneRaw(raws, txid);
      assert stored[0] in stored && stored[0] in raws;
      MisboundUpdate(codec, raws, raw);
      assert stored == [stored[0]] && stored[0].txid == txid;
    }
  }

  lemma NewRawIsKept(codec: Codec, raws: seq<RawRow>, raw: Bytes)
    requires RawsOk(codec, raws) && codec.parses(raw) && RawsOf(raws, codec.txidOf(raw)) == []
    ensures (var row := RawRow(codec.txidOf(raw), raw);
      RawsOk(codec, raws + [row]) && RawsOf(raws + [row], row.txid) == [row])
  {
    var row := RawRow(codec.txidOf(raw), raw);
    RawsOfHas(raws, row.txid);
    assert (raws + [row])[..|raws|] == raws;
    forall i | 0 <= i < |raws| ensures raws[i].txid != row.txid {
      assert raws[i] in raws && raws[i] !in RawsOf(raws, row.txid);
    }
  }

  lemma MisboundUpdate(codec: Codec, raws: seq<RawRow>, raw: Bytes)
    requires Sound(codec) && RawsOk(codec, raws) && codec.parses(raw)
    ensures UpdateRaw(raws, codec.txidOf(raw), raw) == raws
  {
    forall i | 0 <= i < |raws| ensures raws[i].txid != raw {
      assert raws[i] in raws;
    }
  }

  /** Which transactions have a raw row after set_raw_tx. */
  lemma SetRawCovers(codec: Codec, raws: seq<RawRow>, raw: Bytes, a: Answers, ok: bool, raws': seq<RawRow>, txid: Bytes)
    requires Sound(codec) && RawsOk(codec, raws) && codec.parses(raw) && SetsRaw(codec, raws, raw, a, ok, raws')
    ensures HasRow(raws', txid) <==>
            HasRow(raws, txid) || (txid == codec.txidOf(raw) && a.rawSelect && TookEffect(a.raw))
  {
    SetRawNeverReplaces(codec, raws, raw, a, ok, raws');
    HasRowIs(raws, codec.txidOf(raw));
    var row := RawRow(codec.txidOf(raw), raw);
    if raws' == raws + [row] {
      assert row in raws';
      if r :| r in raws && r.txid == txid { assert r in raws'; }
    }
  }

  // ---- What one operation keeps ----

  datatype Operation =
    | SetTx(d: Details) | SetRawTx(raw: Bytes) | DelTx(txid: Bytes, includeRaw: bool) | DelRawTx(txid: Bytes)

  datatype Call = Call(op: Operation, answers: Answers)

  /** A transaction in memory has a serialisation that decodes. */
  ghost predicate Proper(codec: Codec, op: Operation) {
    match op
    case SetTx(d) => d.transaction.Some? ==> codec.parses(d.transaction.value)
    case SetRawTx(raw) => codec.parses(raw)
    case DelTx(_, _) => true
    case DelRawTx(_) => true
  }

  ghost predicate Performs(codec: Codec, db: Db, call: Call, db': Db) {
    match call.op
    case SetTx(d) => exists ok :: SetsTx(codec, db, d, call.answers, ok, db')
    case SetRawTx(raw) =>
      db'.details == db.details && exists ok :: SetsRaw(codec, db.raws, raw, call.answers, ok, db'.raws)
    case DelTx(txid, includeRaw) => exists r :: DeletesTx(codec, db, txid, includeRaw, call.answers, r, db')
    case DelRawTx(txid) => exists r :: DeletesRaw(codec, db, txid, call.answers, r, db')
  }

  /** A new details row goes in and its raw row does not, or a raw row goes from under a details row. */
  predicate LeavesOrphan(codec: Codec, db: Db, call: Call) {
    var a := call.answers;
    match call.op
    case SetTx(d) =>
      && DetailsOf(db.details, d.txid) == [] && RawsOf(db.raws, d.txid) == []
      && a.select && TookEffect(a.details)
      && !(a.details.Committed? && StoresRaw(codec, d) && a.rawSelect && TookEffect(a.raw))
    case DelRawTx(txid) => DetailsOf(db.details, txid) != [] && a.rawSelect && TookEffect(a.raw)
    case _ => false
  }

  /** The details come with the transaction that they are about. */
  predicate StoresRaw(codec: Codec, d: Details) {
    d.transaction.Some? && codec.txidOf(d.transaction.value) == d.txid
  }

  /** Under the invariant the select tells what the operation needs to know. */
  lemma SetTxIs(codec: Codec, db: Db, d: Details, a: Answers, ok: bool, db': Db)
    requires Inv(codec, db) && SetsTx(codec, db, d, a, ok, db')
    ensures !a.select ==> !ok && db' == db
    ensures a.select ==>
              && (var found := DetailsOf(db.details, d.txid) != [];
                  db'.details == Wrote(db.details, DetailsAfterSet(db.details, d, found), a.details))
              && if a.details.Committed? && d.transaction.Some?
                 then SetsRaw(codec, db.raws, d.transaction.value, a, ok, db'.raws)
                 else (ok <==> a.details.Committed?) && db'.raws == db.raws
  {
    var r :| Selects(codec, db, d.txid, a.select, r) && SetsTxGiven(codec, db, d, r, a, ok, db');
    SelectTells(codec, db, d.txid, a.select, r);
    if DetailsOf(db.details, d.txid) != [] { CoveredIs(db, d.txid); }
  }

  lemma RawsAfterSetTx(codec: Codec, db: Db, d: Details, a: Answers, ok: bool, db': Db, txid: Bytes)
    requires Sound(codec) && Inv(codec, db) && Proper(codec, SetTx(d)) && SetsTx(codec, db, d, a, ok, db')
    ensures RawsOk(codec, db'.raws)
    ensures HasRow(db'.raws, txid) <==>
              || HasRow(db.raws, txid)
              || (&& d.transaction.Some? && txid == codec.txidOf(d.transaction.value)
                  && a.select && a.details.Committed? && a.rawSelect && TookEffect(a.raw))
  {
    SetTxIs(codec, db, d, a, ok, db');
    if a.select && a.details.Committed? && d.transaction.Some? {
      SetRawNeverReplaces(codec, db.raws, d.transaction.value, a, ok, db'.raws);
      SetRawCovers(codec, db.raws, d.transaction.value, a, ok, db'.raws, txid);
    }
  }

  /** The details rows after set_tx: at most the new one in the place of any other of that txid. */
  lemma DetailsAfterSetTx(codec: Codec, db: Db, d: Details, a: Answers, ok: bool, db': Db)
    requires Inv(codec, db) && SetsTx(codec, db, d, a, ok, db')
    ensures DistinctDetails(db'.details)
    ensures !(a.select && TookEffect(a.details)) ==> db'.details == db.details
    ensures a.select && TookEffect(a.details) ==>
              forall row :: row in db'.details <==> row == RowOf(d) || (row in db.details && row.txid != d.txid)
  {
    SetTxIs(codec, db, d, a, ok, db');
    DetailsAfterSetHas(db.details, d, DetailsOf(db.details, d.txid) != []);
  }

  /** set_tx never adds a second details row, whatever fails, and leaves every details row with a raw row
      exactly when it is not cut short after the insert of a new one. */
  lemma SetTxKeepsInvExactly(codec: Codec, db: Db, d: Details, a: Answers, ok: bool, db': Db)
    requires Sound(codec) && Inv(codec, db) && Proper(codec, SetTx(d)) && SetsTx(codec, db, d, a, ok, db')
    ensures Inv(codec, db') <==> !LeavesOrphan(codec, db, Call(SetTx(d), a))
  {
    DetailsAfterSetTx(codec, db, d, a, ok, db');
    RawsAfterSetTx(codec, db, d, a, ok, db', d.txid);
    HasRowIs(db.raws, d.txid);
    if DetailsOf(db.details, d.txid) != [] { CoveredIs(db, d.txid); }
    forall row | row in db.details ensures HasRow(db'.raws, row.txid) {
      RawsAfterSetTx(codec, db, d, a, ok, db', row.txid);
    }
    if a.select && TookEffect(a.details) {
      assert RowOf(d) in db'.details && RowOf(d).txid == d.txid;
      assert Covered(db') <==> HasRow(db'.raws, d.txid);
    }
  }

  lemma DeleteRawCovers(raws: seq<RawRow>, txid: Bytes, other: Bytes)
    ensures HasRow(DeleteRaw(raws, txid), other) <==> HasRow(raws, other) && other != txid
  {
    DeleteRawHas(raws, txid);
    if r :| r in raws && r.txid == other && other != txid { assert r in DeleteRaw(raws, txid); }
  }

  /** del_tx removes the details row before the raw row, so that it leaves no details row alone whatever fails. */
  lemma DelTxKeepsInv(codec: Codec, db: Db, txid: Bytes, includeRaw: bool, a: Answers,
                      r: Result<Option<Details>, ()>, db': Db)
    requires Inv(codec, db) && DeletesTx(codec, db, txid, includeRaw, a, r, db')
    ensures Inv(codec, db')
    ensures r.Ok? ==> forall d :: d in db'.details <==> d in db.details && d.txid != txid
  {
    DeleteRawHas(db.raws, txid);
    DeleteDetailsHas(db.details, txid);
    DetailsOfHas(db.details, txid);
    var s :| Selects(codec, db, txid, a.select, s) && DeletesTxGiven(db, txid, includeRaw, s, a, r, db');
    SelectTells(codec, db, txid, a.select, s);
    if s == Ok(None) && DetailsOf(db.details, txid) != [] { CoveredIs(db, txid); }
    forall d | d in db'.details ensures HasRow(db'.raws, d.txid) {
      assert HasRow(db.raws, d.txid);
      DeleteRawCovers(db.raws, txid, d.txid);
    }
  }

  /** A del_tx that succeeds returns what get_tx would have, whole, and takes just the raw row of that
      transaction away, if it is asked to and has found the transaction. */
  lemma DelTxReturnsAndRemoves(codec: Codec, db: Db, txid: Bytes, includeRaw: bool, a: Answers,
                               r: Result<Option<Details>, ()>, db': Db)
    requires DeletesTx(codec, db, txid, includeRaw, a, r, db') && r.Ok?
    ensures Selects(codec, db, txid, true, r)
    ensures if includeRaw && r.value.Some? then forall row :: row in db'.raws <==> row in db.raws && row.txid != txid
            else db'.raws == db.raws
    ensures if r.value.Some? then forall row :: row in db'.details <==> row in db.details && row.txid != txid
            else db'.details == db.details
  {
    DeleteRawHas(db.raws, txid);
    DeleteDetailsHas(db.details, txid);
  }

  /** And so does del_raw_tx with the raw row alone. */
  lemma DelRawTxReturnsAndRemoves(codec: Codec, db: Db, txid: Bytes, a: Answers, r: Result<Option<Bytes>, ()>, db': Db)
    requires DeletesRaw(codec, db, txid, a, r, db') && r.Ok?
    ensures SelectsRaw(codec, db.raws, txid, true, r) && db'.details == db.details
    ensures forall row :: row in db'.raws <==> row in db.raws && row.txid != txid
  {
    DeleteRawHas(db.raws, txid);
    RawsOfHas(db.raws, txid);
  }

  /** del_raw_tx leaves a details row behind alone exactly when there is one for the transaction it removes. */
  lemma DelRawTxKeepsInvExactly(codec: Codec, db: Db, txid: Bytes, a: Answers, r: Result<Option<Bytes>, ()>, db': Db)
    requires Inv(codec, db) && DeletesRaw(codec, db, txid, a, r, db')
    ensures Inv(codec, db') <==> !LeavesOrphan(codec, db, Call(DelRawTx(txid), a))
  {
    var s :| SelectsRaw(codec, db.raws, txid, a.rawSelect, s) && DeletesRawGiven(db, txid, s, a, r, db');
    RawSelectTells(codec, db.raws, txid, a.rawSelect, s);
    if DetailsOf(db.details, txid) != [] { CoveredIs(db, txid); }
    if a.rawSelect && RawsOf(db.raws, txid) != [] && TookEffect(a.raw) {
      WithoutRawIs(codec, db, txid);
    }
  }

  lemma WithoutRawIs(codec: Codec, db: Db, txid: Bytes)
    requires Inv(codec, db)
    ensures Inv(codec, Db(DeleteRaw(db.raws, txid), db.details)) <==> DetailsOf(db.details, txid) == []
  {
    DeleteRawHas(db.raws, txid);
    var mine := DetailsOf(db.details, txid);
    DetailsOfHas(db.details, txid);
    if mine != [] { assert mine[0] in mine && mine[0] in db.details; }
    forall d | d in db.details ensures HasRow(DeleteRaw(db.raws, txid), d.txid) <==> d.txid != txid {
      DeleteRawCovers(db.raws, txid, d.txid);
    }
  }

  lemma SetRawTxKeepsInv(codec: Codec, db: Db, raw: Bytes, a: Answers, ok: bool, db': Db)
    requires Sound(codec) && Inv(codec, db) && codec.parses(raw)
    requires SetsRaw(codec, db.raws, raw, a, ok, db'.raws) && db'.details == db.details
    ensures Inv(codec, db')
  {
    SetRawNeverReplaces(codec, db.raws, raw, a, ok, db'.raws);
    forall d | d in db'.details ensures HasRow(db'.raws, d.txid) {
      SetRawCovers(codec, db.raws, raw, a, ok, db'.raws, d.txid);
    }
  }

  /** An operation keeps every details row covered, and none of them double, exactly when it leaves no orphan. */
  lemma OperationKeepsInvExactly(codec: Codec, db: Db, call: Call, db': Db)
    requires Sound(codec) && Inv(codec, db) && Proper(codec, call.op) && Performs(codec, db, call, db')
    ensures Inv(codec, db') <==> !LeavesOrphan(codec, db, call)
  {
    match call.op {
      case SetTx(d) =>
        var ok :| SetsTx(codec, db, d, call.answers, ok, db');
        SetTxKeepsInvExactly(codec, db, d, call.answers, ok, db');
      case SetRawTx(raw) =>
        var ok :| SetsRaw(codec, db.raws, raw, call.answers, ok, db'.raws);
        SetRawTxKeepsInv(codec, db, raw, call.answers, ok, db');
      case DelTx(txid, includeRaw) =>
        var r :| DeletesTx(codec, db, txid, includeRaw, call.answers, r, db');
        DelTxKeepsInv(codec, db, txid, includeRaw, call.answers, r, db');
      case DelRawTx(txid) =>
        var r :| DeletesRaw(codec, db, txid, call.answers, r, db');
        DelRawTxKeepsInvExactly(codec, db, txid, call.answers, r, db');
    }
  }

  // ---- Writes that are run late ----

  /** A write as it was sent. */
  datatype Statement =
    | PutDetails(d: Details, found: bool)
    | PutRaw(raw: Bytes, found: bool)
    | DropDetails(txid: Bytes)
    | DropRaw(txid: Bytes)

  function Execute(codec: Codec, db: Db, w: Statement): Db {
    match w
    case PutDetails(d, found) => Db(db.raws, DetailsAfterSet(db.details, d, found))
    case PutRaw(raw, found) => Db(RawsAfterSet(codec, db.raws, raw, found), db.details)
    case DropDetails(txid) => Db(db.raws, DeleteDetails(db.details, txid))
    case DropRaw(txid) => Db(DeleteRaw(db.raws, txid), db.details)
  }

  function Joined(db: Db, txid: Bytes): bool { Join(DetailsOf(db.details, txid), db.raws) != [] }

  function RawWrite(codec: Codec, db: Db, raw: Bytes, a: Answers): set<Statement> {
    if a.rawSelect && a.raw.NotCommitted? then {PutRaw(raw, RawsOf(db.raws, codec.txidOf(raw)) != [])} else {}
  }

  /** The write that an operation ended on without its commit, if there is one: the database may still run
      it when the connection or the process is gone. */
  function Unheard(codec: Codec, db: Db, call: Call): set<Statement> {
    var a := call.answers;
    match call.op
    case SetTx(d) =>
      if !a.select then {}
      else if a.details.NotCommitted? then {PutDetails(d, Joined(db, d.txid))}
      else if a.details.Committed? && d.transaction.Some? then RawWrite(codec, db, d.transaction.value, a)
      else {}
    case SetRawTx(raw) => RawWrite(codec, db, raw, a)
    case DelTx(txid, includeRaw) =>
      if !a.select || !Joined(db, txid) then {}
      else if a.details.NotCommitted? then {DropDetails(txid)}
      else if a.details.Committed? && includeRaw && a.raw.NotCommitted? then {DropRaw(txid)}
      else {}
    case DelRawTx(txid) =>
      if a.rawSelect && a.raw.NotCommitted? && RawsOf(db.raws, txid) != [] then {DropRaw(txid)} else {}
  }

  /** The statement does harm where the tables have moved on since it was sent. */
  predicate ComesTooLate(codec: Codec, db: Db, w: Statement) {
    match w
    case PutDetails(d, found) => !found && (DetailsOf(db.details, d.txid) != [] || RawsOf(db.raws, d.txid) == [])
    case PutRaw(raw, found) => !found && RawsOf(db.raws, codec.txidOf(raw)) != []
    case DropDetails(_) => false
    case DropRaw(txid) => DetailsOf(db.details, txid) != []
  }

  ghost predicate Decodes(codec: Codec, w: Statement) {
    w.PutRaw? ==> codec.parses(w.raw)
  }

  lemma LatePutDetails(codec: Codec, db: Db, d: Details, found: bool)
    requires Inv(codec, db)
    ensures Inv(codec, Execute(codec, db, PutDetails(d, found))) <==> !ComesTooLate(codec, db, PutDetails(d, found))
  {
    var row, after := RowOf(d), DetailsAfterSet(db.details, d, found);
    var mine := DetailsOf(db.details, d.txid);
    DetailsOfHas(db.details, d.txid);
    HasRowIs(db.raws, d.txid);
    if found {
      UpdateDetailsKeeps(db.details, row);
    } else if mine == [] {
      NewDetailsKeeps(db.details, row);
      assert row in after && row.txid == d.txid;
    } else {
      assert mine[0] in mine;
      var i :| 0 <= i < |db.details| && db.details[i] == mine[0];
      assert after[i].txid == after[|db.details|].txid;
    }
  }

  lemma LatePutRaw(codec: Codec, db: Db, raw: Bytes, found: bool)
    requires Sound(codec) && Inv(codec, db) && codec.parses(raw)
    ensures Inv(codec, Execute(codec, db, PutRaw(raw, found))) <==> !ComesTooLate(codec, db, PutRaw(raw, found))
  {
    var txid := codec.txidOf(raw);
    var mine := RawsOf(db.raws, txid);
    RawsOfHas(db.raws, txid);
    if found {
      MisboundUpdate(codec, db.raws, raw);
    } else if mine == [] {
      NewRawIsKept(codec, db.raws, raw);
      forall d | d in db.details ensures HasRow(db.raws + [RawRow(txid, raw)], d.txid) {
        var r :| r in db.raws && r.txid == d.txid;
        assert r in db.raws + [RawRow(txid, raw)];
      }
    } else {
      assert mine[0] in mine;
      var i :| 0 <= i < |db.raws| && db.raws[i] == mine[0];
      var after := db.raws + [RawRow(txid, raw)];
      assert after[i].txid == after[|db.raws|].txid;
    }
  }

  /** A late write keeps every details row covered, and none of them double, exactly when it does not come
      too late. */
  lemma LateWriteKeepsInvExactly(codec: Codec, db: Db, w: Statement)
    requires Sound(codec) && Inv(codec, db) && Decodes(codec, w)
    ensures Inv(codec, Execute(codec, db, w)) <==> !ComesTooLate(codec, db, w)
  {
    match w {
      case PutDetails(d, found) => LatePutDetails(codec, db, d, found);
      case PutRaw(raw, found) => LatePutRaw(codec, db, raw, found);
      case DropDetails(txid) =>
        DeleteDetailsHas(db.details, txid);
      case DropRaw(txid) => WithoutRawIs(codec, db, txid);
    }
  }

  // ---- Runs ----

  /** An operation, or the late run of the write on which the operation of step `from` ended. */
  datatype Event = Do(call: Call) | Late(write: Statement, from: nat)

  /** The write was sent by that operation, and is run once. */
  ghost predicate WasSent(codec: Codec, run: seq<Db>, events: seq<Event>, i: nat)
    requires |run| == |events| + 1 && i < |events| && events[i].Late?
  {
    var from := events[i].from;
    && from < i && events[from].Do? && events[i].write in Unheard(codec, run[from], events[from].call)
    && forall j :: 0 <= j < i && events[j].Late? ==> events[j].from != from
  }

  ghost predicate Happens(codec: Codec, run: seq<Db>, events: seq<Event>, i: nat)
    requires |run| == |events| + 1 && i < |events|
  {
    match events[i]
    case Do(call) => Performs(codec, run[i], call, run[i + 1])
    case Late(w, _) => WasSent(codec, run, events, i) && run[i + 1] == Execute(codec, run[i], w)
  }

  ghost predicate IsRun(codec: Codec, run: seq<Db>, events: seq<Event>) {
    && |run| == |events| + 1 && run[0] == Db([], [])
    && forall i :: 0 <= i < |events| ==> Happens(codec, run, events, i)
  }

  ghost predicate AllProper(codec: Codec, events: seq<Event>) {
    forall i :: 0 <= i < |events| && events[i].Do? ==> Proper(codec, events[i].call.op)
  }

  /** The step leaves a details row without a raw row, or makes a row double. */
  predicate DoesHarm(codec: Codec, db: Db, event: Event) {
    match event
    case Do(call) => LeavesOrphan(codec, db, call)
    case Late(w, _) => ComesTooLate(codec, db, w)
  }

  /** None of the first n steps did harm where it stood. */
  ghost predicate NoHarmBefore(codec: Codec, run: seq<Db>, events: seq<Event>, n: nat)
    requires |run| == |events| + 1
  {
    forall i :: 0 <= i < n && i < |events| ==> !DoesHarm(codec, run[i], events[i])
  }

  lemma StepKeepsInvExactly(codec: Codec, run: seq<Db>, events: seq<Event>, i: nat)
    requires Sound(codec) && IsRun(codec, run, events) && AllProper(codec, events) && i < |events|
    requires Inv(codec, run[i])
    ensures Inv(codec, run[i + 1]) <==> !DoesHarm(codec, run[i], events[i])
  {
    assert Happens(codec, run, events, i);
    match events[i] {
      case Do(call) => OperationKeepsInvExactly(codec, run[i], call, run[i + 1]);
      case Late(w, from) =>
        assert Proper(codec, events[from].call.op);
        LateWriteKeepsInvExactly(codec, run[i], w);
    }
  }

  lemma {:induction false} RunKeepsInv(codec: Codec, run: seq<Db>, events: seq<Event>, n: nat)
    requires Sound(codec) && IsRun(codec, run, events) && AllProper(codec, events) && n < |run|
    requires NoHarmBefore(codec, run, events, n)
    ensures Inv(codec, run[n])
  {
    if n > 0 {
      RunKeepsInv(codec, run, events, n - 1);
      StepKeepsInvExactly(codec, run, events, n - 1);
    }
  }

  /** Over every run, with whatever failures and late writes: every details row always has its raw row, and
      no row is double, if and only if no step of the run does harm. */
  lemma EveryRunKeepsInvExactly(codec: Codec, run: seq<Db>, events: seq<Event>)
    requires Sound(codec) && IsRun(codec, run, events) && AllProper(codec, events)
    ensures (forall i :: 0 <= i < |run| ==> Inv(codec, run[i])) <==> NoHarmBefore(codec, run, events, |events|)
  {
    if NoHarmBefore(codec, run, events, |events|) {
      forall i | 0 <= i < |run| ensures Inv(codec, run[i]) { RunKeepsInv(codec, run, events, i); }
    }
    if forall i :: 0 <= i < |run| ==> Inv(codec, run[i]) {
      forall i | 0 <= i < |events| ensures !DoesHarm(codec, run[i], events[i]) {
        assert Inv(codec, run[i]) && Inv(codec, run[i + 1]);
        StepKeepsInvExactly(codec, run, events, i);
      }
    }
  }

  // ---- What is read ----

  lemma {:induction false} JoinedRowsAreDetails(codec: Codec, details: seq<DetailRow>, raws: seq<RawRow>)
    requires RawsOk(codec, raws) && Covered(Db(raws, details))
    ensures Map(Map(Join(details, raws), ReadRow), Bare) == Map(details, ReadDetail)
  {
    if details != [] {
      var n := |details| - 1;
      assert details == details[..n] + [details[n]] && details[n] in details;
      assert Covered(Db(raws, details[..n]));
      JoinedRowsAreDetails(codec, details[..n], raws);
      var pair := LastJoined(details, raws);
      MapAppend(Join(details[..n], raws), pair, ReadRow);
      MapAppend(Map(Join(details[..n], raws), ReadRow), ReadRow(pair), Bare);
      MapAppend(details[..n], details[n], ReadDetail);
    }
  }

  lemma LastJoined(details: seq<DetailRow>, raws: seq<RawRow>) returns (pair: (DetailRow, RawRow))
    requires details != [] && DistinctRaws(raws) && HasRow(raws, details[|details| - 1].txid)
    ensures Join(details, raws) == Join(details[..|details| - 1], raws) + [pair]
    ensures Bare(ReadRow(pair)) == ReadDetail(details[|details| - 1])
  {
    var row := details[|details| - 1];
    HasRowIs(raws, row.txid);
    AtMostOneRaw(raws, row.txid);
    pair := (row, RawsOf(raws, row.txid)[0]);
    assert Pair(row, RawsOf(raws, row.txid)) == [pair];
  }

  /** While no details row is without a raw row, both reads succeed when answered, and return the same
      transactions with the same other fields, whatever order the database returns its rows in. */
  lemma ReadsAgree(codec: Codec, db: Db, joined: Result<seq<Details>, ()>, plain: Result<seq<Details>, ()>)
    requires Inv(codec, db) && ReadsJoined(codec, db, true, joined) && ReadsPlain(db, true, plain)
    ensures joined.Ok? && plain.Ok? && multiset(Map(joined.value, Bare)) == multiset(plain.value)
  {
    JoinHas(db.details, db.raws);
    JoinedRowsAreDetails(codec, db.details, db.raws);
    MapPermutes(joined.value, Map(Join(db.details, db.raws), ReadRow), Bare);
  }

  /** What is read of a stored row, field by field. */
  ghost predicate Tells(e: Details, row: DetailRow, transaction: Option<Bytes>) {
    && e.transaction == transaction && e.txid == row.txid
    && e.received == row.received && e.sent == row.sent && e.fee == row.fee
    && (match e.confirmationTime
        case Some(t) => row.height == Some(t.height) && row.timestamp == Some(t.timestamp)
        case None => row.height == None || row.timestamp == None)
  }

  /** The entry is told by a details row and a raw row of one transaction. */
  ghost predicate TellsBoth(db: Db, e: Details, row: DetailRow, raw: RawRow) {
    row in db.details && raw in db.raws && raw.txid == row.txid && Tells(e, row, Some(raw.raw))
  }

  /** From any tables at all: an entry of the joined read has the stored transaction and the fields of a stored
      details row of the same txid, and every such pair of rows gives one. */
  lemma JoinedReadMeans(codec: Codec, db: Db, joined: Result<seq<Details>, ()>)
    requires ReadsJoined(codec, db, true, joined) && joined.Ok?
    ensures forall e :: e in joined.value <==> exists row, raw :: TellsBoth(db, e, row, raw)
    ensures forall e :: e in joined.value ==> e.transaction.Some?
  {
    var rows := Join(db.details, db.raws);
    JoinHas(db.details, db.raws);
    Permuted(joined.value, Map(rows, ReadRow));
    forall e ensures e in joined.value <==> exists row, raw :: TellsBoth(db, e, row, raw) {
      MapHas(rows, ReadRow, e);
      if p :| p in rows && ReadRow(p) == e {
        TellsIsRead(e, p.0, Some(p.1.raw));
        assert TellsBoth(db, e, p.0, p.1);
      }
      if row, raw :| TellsBoth(db, e, row, raw) {
        TellsIsRead(e, row, Some(raw.raw));
        assert (row, raw) in rows && ReadRow((row, raw)) == e;
      }
    }
  }

  lemma TellsIsRead(e: Details, row: DetailRow, transaction: Option<Bytes>)
    ensures Tells(e, row, transaction) <==> e == Read(row, transaction)
  {
  }

  /** And the read of the one table has an entry without a transaction for each row, as often as there are rows. */
  lemma PlainReadMeans(db: Db, plain: Result<seq<Details>, ()>)
    requires ReadsPlain(db, true, plain)
    ensures plain.Ok? && |plain.value| == |db.details|
    ensures forall e :: e in plain.value <==> exists row :: row in db.details && Tells(e, row, None)
  {
    Permuted(plain.value, Map(db.details, ReadDetail));
    forall e ensures e in plain.value <==> exists row :: row in db.details && Tells(e, row, None) {
      MapHas(db.details, ReadDetail, e);
      if row :| row in db.details && ReadDetail(row) == e { TellsIsRead(e, row, None); }
      if row :| row in db.details && Tells(e, row, None) {
        TellsIsRead(e, row, None);
        assert ReadDetail(row) == e;
      }
    }
  }

  /** While the invariant holds, iter_txs with the transactions lists just what get_tx returns for each of
      them, and none twice. */
  lemma IterListsWhatGetReturns(codec: Codec, db: Db, joined: Result<seq<Details>, ()>)
    requires Inv(codec, db) && ReadsJoined(codec, db, true, joined)
    ensures joined.Ok? && NoneTwice(joined.value)
    ensures forall txid, got :: Selects(codec, db, txid, true, got) ==>
              forall e :: e in joined.value && e.txid == txid <==> got == Ok(Some(e))
  {
    JoinHas(db.details, db.raws);
    JoinedReadMeans(codec, db, joined);
    ListedOnce(codec, db, joined);
    forall txid, got, e | Selects(codec, db, txid, true, got)
      ensures e in joined.value && e.txid == txid <==> got == Ok(Some(e))
    {
      if e in joined.value && e.txid == txid {
        var row, raw :| TellsBoth(db, e, row, raw);
        OnlyAnswer(codec, db, row, raw, got);
      }
      if got == Ok(Some(e)) { AnswerIsRead(codec, db, txid, e); }
    }
  }

  lemma AnswerIsRead(codec: Codec, db: Db, txid: Bytes, e: Details)
    requires Selects(codec, db, txid, true, Ok(Some(e)))
    ensures e.txid == txid && exists row, raw :: TellsBoth(db, e, row, raw)
  {
    var rows := Join(DetailsOf(db.details, txid), db.raws);
    JoinHas(DetailsOf(db.details, txid), db.raws);
    DetailsOfHas(db.details, txid);
    var p :| p in rows && Ok(Some(e)) == Decoded(codec, p);
    assert TellsBoth(db, e, p.0, p.1);
  }

  ghost predicate NoneTwice(entries: seq<Details>) {
    forall i, j :: 0 <= i < j < |entries| ==> entries[i].txid != entries[j].txid
  }

  function TxidOf(e: Details): Bytes { e.txid }

  lemma ListedOnce(codec: Codec, db: Db, joined: Result<seq<Details>, ()>)
    requires Inv(codec, db) && ReadsJoined(codec, db, true, joined) && joined.Ok?
    ensures NoneTwice(joined.value)
  {
    var plain := Map(db.details, ReadDetail);
    ReadsAgree(codec, db, joined, Ok(plain));
    TxidsOf(joined.value, plain);
    TxidsDiffer(db.details, plain);
    DistinctPermuted(Map(joined.value, TxidOf), Map(plain, TxidOf));
    forall i, j | 0 <= i < j < |joined.value| ensures joined.value[i].txid != joined.value[j].txid {
      assert Map(joined.value, TxidOf)[i] != Map(joined.value, TxidOf)[j];
    }
  }

  lemma TxidsDiffer(details: seq<DetailRow>, plain: seq<Details>)
    requires DistinctDetails(details) && plain == Map(details, ReadDetail)
    ensures Distinct(Map(plain, TxidOf))
  {
    var txids := Map(plain, TxidOf);
    assert forall i :: 0 <= i < |plain| ==> plain[i] == ReadDetail(details[i]);
    assert forall i :: 0 <= i < |txids| ==> txids[i] == TxidOf(plain[i]);
  }

  lemma TxidsOf(joined: seq<Details>, plain: seq<Details>)
    requires multiset(Map(joined, Bare)) == multiset(plain)
    ensures multiset(Map(joined, TxidOf)) == multiset(Map(plain, TxidOf))
  {
    var bare := Map(joined, Bare);
    MapPermutes(bare, plain, TxidOf);
    assert forall i :: 0 <= i < |bare| ==> bare[i] == Bare(joined[i]);
    assert forall i :: 0 <= i < |bare| ==> Map(bare, TxidOf)[i] == TxidOf(bare[i]);
    assert forall i :: 0 <= i < |joined| ==> Map(joined, TxidOf)[i] == TxidOf(joined[i]);
    assert Map(bare, TxidOf) == Map(joined, TxidOf);
  }

  lemma ReadsAgreeInRuns(codec: Codec, run: seq<Db>, events: seq<Event>, n: nat,
                         joined: Result<seq<Details>, ()>, plain: Result<seq<Details>, ()>)
    requires Sound(codec) && IsRun(codec, run, events) && AllProper(codec, events) && n < |run|
    requires NoHarmBefore(codec, run, events, n)
    requires ReadsJoined(codec, run[n], true, joined) && ReadsPlain(run[n], true, plain)
    ensures joined.Ok? && plain.Ok? && multiset(Map(joined.value, Bare)) == multiset(plain.value)
  {
    RunKeepsInv(codec, run, events, n);
    ReadsAgree(codec, run[n], joined, plain);
  }

  /** Reading back what was set: every field of it, with the serialisation stored first. */
  lemma SetThenGet(codec: Codec, db: Db, d: Details, a: Answers, db': Db, r: Result<Option<Details>, ()>)
    requires Sound(codec) && Inv(codec, db) && Proper(codec, SetTx(d)) && StoresRaw(codec, d)
    requires SetsTx(codec, db, d, a, true, db') && Selects(codec, db', d.txid, true, r)
    ensures r == Ok(Some(d.(transaction := Some(if RawsOf(db.raws, d.txid) == [] then d.transaction.value
                                                else RawsOf(db.raws, d.txid)[0].raw))))
  {
    SetTxIs(codec, db, d, a, true, db');
    DetailsAfterSetTx(codec, db, d, a, true, db');
    var row := StoredRaw(codec, db.raws, d.transaction.value, a, db'.raws);
    OnlyAnswer(codec, db', RowOf(d), row, r);
    ReadBack(d.(transaction := Some(row.raw)));
  }

  /** And iter_txs with the transactions then lists just that for it. */
  lemma SetThenIter(codec: Codec, db: Db, d: Details, a: Answers, db': Db, joined: Result<seq<Details>, ()>)
    requires Sound(codec) && Inv(codec, db) && Proper(codec, SetTx(d)) && StoresRaw(codec, d)
    requires SetsTx(codec, db, d, a, true, db') && ReadsJoined(codec, db', true, joined)
    ensures (var first := if RawsOf(db.raws, d.txid) == [] then d.transaction.value else RawsOf(db.raws, d.txid)[0].raw;
      && joined.Ok? && NoneTwice(joined.value)
      && forall e :: e in joined.value && e.txid == d.txid <==> e == d.(transaction := Some(first)))
  {
    SetTxIs(codec, db, d, a, true, db');
    HeardRaw(codec, db.raws, d.transaction.value, a, db'.raws);
    SetTxKeepsInvExactly(codec, db, d, a, true, db');
    IterListsWhatGetReturns(codec, db', joined);
    var got := SomeAnswer(codec, db', d.txid);
    SetThenGet(codec, db, d, a, db', got);
  }

  lemma SomeAnswer(codec: Codec, db: Db, txid: Bytes) returns (got: Result<Option<Details>, ()>)
    ensures Selects(codec, db, txid, true, got)
  {
    var rows := Join(DetailsOf(db.details, txid), db.raws);
    if rows == [] {
      got := Ok(None);
    } else {
      assert rows[0] in rows;
      got := Decoded(codec, rows[0]);
    }
  }

  lemma StoredRaw(codec: Codec, raws: seq<RawRow>, raw: Bytes, a: Answers, raws': seq<RawRow>) returns (row: RawRow)
    requires Sound(codec) && RawsOk(codec, raws) && codec.parses(raw) && SetsRaw(codec, raws, raw, a, true, raws')
    ensures RawsOk(codec, raws') && row in raws' && row.txid == codec.txidOf(raw)
    ensures row.raw == if RawsOf(raws, row.txid) == [] then raw else RawsOf(raws, row.txid)[0].raw
  {
    HeardRaw(codec, raws, raw, a, raws');
    SetRawNeverReplaces(codec, raws, raw, a, true, raws');
    var stored := RawsOf(raws, codec.txidOf(raw));
    RawsOfHas(raws, codec.txidOf(raw));
    if stored == [] {
      row := RawRow(codec.txidOf(raw), raw);
    } else {
      assert stored[0] in stored;
      row := stored[0];
    }
  }

  lemma HeardRaw(codec: Codec, raws: seq<RawRow>, raw: Bytes, a: Answers, raws': seq<RawRow>)
    requires RawsOk(codec, raws) && SetsRaw(codec, raws, raw, a, true, raws')
    ensures a.rawSelect && a.raw.Committed?
  {
    var r :| SelectsRaw(codec, raws, codec.txidOf(raw), a.rawSelect, r)
             && SetsRawGiven(codec, raws, raw, r, a, true, raws');
    RawSelectTells(codec, raws, codec.txidOf(raw), a.rawSelect, r);
  }

  lemma OnlyAnswer(codec: Codec, db: Db, row: DetailRow, raw: RawRow, r: Result<Option<Details>, ()>)
    requires RawsOk(codec, db.raws) && DistinctDetails(db.details) && row in db.details && raw in db.raws
    requires raw.txid == row.txid && Selects(codec, db, row.txid, true, r)
    ensures r == Ok(Some(Read(row, Some(raw.raw))))
  {
    DetailsOfHas(db.details, row.txid);
    JoinHas(DetailsOf(db.details, row.txid), db.raws);
    assert (row, raw) in Join(DetailsOf(db.details, row.txid), db.raws);
  }

  // ---- Outside the invariant ----

  /** From any tables at all: a set_tx whose write takes effect adds a second details row for a
      transaction exactly when there already was one without a raw row. */
  lemma SetTxDuplicatesExactlyOrphans(codec: Codec, db: Db, d: Details, a: Answers, db': Db)
    requires SetsTx(codec, db, d, a, true, db') && DetailsOf(db.details, d.txid) != []
    ensures |DetailsOf(db'.details, d.txid)| > |DetailsOf(db.details, d.txid)| <==> RawsOf(db.raws, d.txid) == []
  {
    JoinNeedsBoth(db, d.txid);
    DetailsOfUpdate(db.details, RowOf(d));
    assert (db.details + [RowOf(d)])[..|db.details|] == db.details;
  }

  /** Such a row cannot be deleted either: del_tx does not see it. */
  lemma OrphansCannotBeDeleted(codec: Codec, db: Db, txid: Bytes, includeRaw: bool, a: Answers,
                               r: Result<Option<Details>, ()>, db': Db)
    requires RawsOf(db.raws, txid) == [] && DeletesTx(codec, db, txid, includeRaw, a, r, db')
    ensures db' == db && (a.select ==> r == Ok(None))
  {
    JoinNeedsBoth(db, txid);
  }

  /** From any tables at all: the two reads list a transaction equally often exactly when it has no
      details row or one raw row. */
  lemma ReadsAgreeExactlyWhen(db: Db, txid: Bytes)
    ensures Mine(Join(db.details, db.raws), txid) == |DetailsOf(db.details, txid)|
            <==> DetailsOf(db.details, txid) == [] || |RawsOf(db.raws, txid)| == 1
  {
    JoinCounts(db.details, db.raws, txid);
    OnceEach(|DetailsOf(db.details, txid)|, |RawsOf(db.raws, txid)|);
  }

  // ---- Runs that fail ----

  function Fresh(codec: Codec, raw: Bytes): Details {
    Details(Some(raw), codec.txidOf(raw), 0, 0, None, None)
  }

  const RAW_LOST := Answers(true, Committed, true, NotCommitted)

  /** The connection is lost between the two inserts of a set_tx: the details row stays alone, the
      deletion does not see it, and the retry inserts a second one. */
  lemma OrphanIsDoubledOnRetry(codec: Codec, raw: Bytes)
    requires Sound(codec) && codec.parses(raw)
    ensures (var d := Fresh(codec, raw); var row := RowOf(d); var empty := Db([], []);
      var orphan, doubled := Db([], [row]), Db([RawRow(d.txid, raw)], [row, row]);
      && IsRun(codec, [empty, orphan, orphan, doubled],
               [Do(Call(SetTx(d), RAW_LOST)), Do(Call(DelTx(d.txid, true), ALL_WELL)), Do(Call(SetTx(d), ALL_WELL))])
      && !Inv(codec, orphan) && !Inv(codec, doubled))
  {
    var d := Fresh(codec, raw);
    var row := RowOf(d);
    var empty, orphan, doubled := Db([], []), Db([], [row]), Db([RawRow(d.txid, raw)], [row, row]);
    FirstTryIsCut(codec, raw);
    NothingFound(codec, orphan, d.txid);
    assert DeletesTx(codec, orphan, d.txid, true, ALL_WELL, Ok(None), orphan);
    RetryDoubles(codec, raw);
    assert row in orphan.details;
    assert doubled.details[0].txid == doubled.details[1].txid;
  }

  lemma FirstTryIsCut(codec: Codec, raw: Bytes)
    requires Sound(codec) && codec.parses(raw)
    ensures (var d := Fresh(codec, raw); SetsTx(codec, Db([], []), d, RAW_LOST, false, Db([], [RowOf(d)])))
  {
    var d := Fresh(codec, raw);
    NothingFound(codec, Db([], []), d.txid);
    assert SetsRaw(codec, [], raw, RAW_LOST, false, []);
    assert SetsTxGiven(codec, Db([], []), d, Ok(None), RAW_LOST, false, Db([], [RowOf(d)]));
  }

  lemma RetryDoubles(codec: Codec, raw: Bytes)
    requires Sound(codec) && codec.parses(raw)
    ensures (var d := Fresh(codec, raw); var row := RowOf(d);
      SetsTx(codec, Db([], [row]), d, ALL_WELL, true, Db([RawRow(d.txid, raw)], [row, row])))
  {
    var d := Fresh(codec, raw);
    var orphan, doubled := Db([], [RowOf(d)]), Db([RawRow(d.txid, raw)], [RowOf(d), RowOf(d)]);
    NothingFound(codec, orphan, d.txid);
    assert SetsRawGiven(codec, [], raw, Ok(None), ALL_WELL, true, doubled.raws);
    assert SetsRaw(codec, [], raw, ALL_WELL, true, doubled.raws);
    assert SetsTxGiven(codec, orphan, d, Ok(None), ALL_WELL, true, doubled);
  }

  const DETAILS_LOST := Answers(true, NotCommitted, true, NotCommitted)

  /** The connection is lost at the first insert of a set_tx, the retry succeeds, and only then the database
      runs the insert that was taken for lost: the details row is double. */
  lemma LateInsertDoubles(codec: Codec, raw: Bytes)
    requires Sound(codec) && codec.parses(raw)
    ensures (var d := Fresh(codec, raw); var row := RowOf(d); var empty := Db([], []);
      var stored, doubled := Db([RawRow(d.txid, raw)], [row]), Db([RawRow(d.txid, raw)], [row, row]);
      && IsRun(codec, [empty, empty, stored, doubled],
               [Do(Call(SetTx(d), DETAILS_LOST)), Do(Call(SetTx(d), ALL_WELL)), Late(PutDetails(d, false), 0)])
      && Inv(codec, stored) && !Inv(codec, doubled))
  {
    var d := Fresh(codec, raw);
    var row, rawRow := RowOf(d), RawRow(d.txid, raw);
    var empty, stored, doubled := Db([], []), Db([rawRow], [row]), Db([rawRow], [row, row]);
    NothingFound(codec, empty, d.txid);
    assert SetsTxGiven(codec, empty, d, Ok(None), DETAILS_LOST, false, empty);
    assert SetsTx(codec, empty, d, DETAILS_LOST, false, empty);
    assert SetsRawGiven(codec, [], raw, Ok(None), ALL_WELL, true, [rawRow]);
    assert SetsRaw(codec, [], raw, ALL_WELL, true, [rawRow]);
    assert SetsTxGiven(codec, empty, d, Ok(None), ALL_WELL, true, stored);
    assert SetsTx(codec, empty, d, ALL_WELL, true, stored);
    var run := [empty, empty, stored, doubled];
    var c0, c1 := Call(SetTx(d), DETAILS_LOST), Call(SetTx(d), ALL_WELL);
    var events := [Do(c0), Do(c1), Late(PutDetails(d, false), 0)];
    JoinNeedsBoth(empty, d.txid);
    assert Unheard(codec, empty, c0) == {PutDetails(d, false)};
    assert WasSent(codec, run, events, 2);
    assert Happens(codec, run, events, 0) && Happens(codec, run, events, 1) && Happens(codec, run, events, 2);
    assert HasRow(stored.raws, d.txid) by { assert rawRow in stored.raws; }
    assert doubled.details[0].txid == doubled.details[1].txid;
  }

  lemma NothingFound(codec: Codec, db: Db, txid: Bytes)
    requires db.raws == []
    ensures Selects(codec, db, txid, true, Ok(None)) && SelectsRaw(codec, db.raws, txid, true, Ok(None))
  {
    JoinNeedsBoth(db, txid);
  }

  /** A codec with two serialisations of one transaction, as with and without witness data. */
  ghost function TwoForms(): Codec {
    Codec((_: Bytes) => seq(32, _ => 0), (raw: Bytes) => raw == [1] || raw == [2])
  }

  /** The second serialisation of a stored transaction is reported as set and is not. */
  lemma SecondSerialisationIsNotStored()
    ensures (var txid := TwoForms().txidOf([1]); var stored := Db([RawRow(txid, [1])], []);
      && Sound(TwoForms()) && SetsRaw(TwoForms(), stored.raws, [2], ALL_WELL, true, stored.raws)
      && IsRun(TwoForms(), [Db([], []), stored, stored],
               [Do(Call(SetRawTx([1]), ALL_WELL)), Do(Call(SetRawTx([2]), ALL_WELL))]))
  {
    var codec := TwoForms();
    var txid := codec.txidOf([1]);
    var row := RawRow(txid, [1]);
    NothingFound(codec, Db([], []), txid);
    assert SetsRawGiven(codec, [], [1], Ok(None), ALL_WELL, true, [row]);
    assert SetsRaw(codec, [], [1], ALL_WELL, true, [row]);
    assert codec.txidOf([2]) == txid && [row][..0] == [];
    assert RawsOf([row], txid) == [row] && row in [row] && DecodedRaw(codec, row) == Ok(Some([1]));
    assert SelectsRaw(codec, [row], txid, true, Ok(Some([1])));
    assert UpdateRaw([row], txid, [2]) == [row];
    assert SetsRawGiven(codec, [row], [2], Ok(Some([1])), ALL_WELL, true, [row]);
    assert SetsRaw(codec, [row], [2], ALL_WELL, true, [row]);
    var empty, stored := Db([], []), Db([row], []);
    var c1, c2 := Call(SetRawTx([1]), ALL_WELL), Call(SetRawTx([2]), ALL_WELL);
    var run, events := [empty, stored, stored], [Do(c1), Do(c2)];
    assert Performs(codec, empty, c1, stored) && Performs(codec, stored, c2, stored);
    assert Happens(codec, run, events, 0) && Happens(codec, run, events, 1);
  }
}
