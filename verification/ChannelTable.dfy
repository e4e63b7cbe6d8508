/** The channels table, its two listings and its count
    (kld/src/database/ldk_database.rs; kld/src/database/mod.rs, open_channel_count;
    kld/src/ldk/event_handler.rs, the channel events). */
module ChannelTable {
  import opened Wrappers
  import opened Database
  import opened Channels

  datatype Row = Row(counterparty: NodeId, scid: Option<nat>, isUsable: bool, isPublic: bool,
                     data: Option<Detail>, openTimestamp: int, updateTimestamp: int, closureReason: Option<string>)

  type Rows = map<ChannelId, Row>

  datatype Operation =
    | Create(channelId: ChannelId, isPublic: bool, counterparty: NodeId)
    | Persist(detail: Detail)
    | Close(channelId: ChannelId, reason: string)

  /** What each operation leaves, column by column. */
  ghost predicate Changes(rows: Rows, op: Operation, now: int, rows': Rows) {
    match op
    case Create(id, isPublic, counterparty) =>
      // INSERT: a second row of the same key is refused
      if id in rows then rows' == rows
      else rows' == rows[id := Row(counterparty, None, false, isPublic, None, now, now, None)]
    case Persist(d) =>
      // UPSERT of listed columns: open_timestamp and closure_reason stay, and without an scid that column too
      && rows'.Keys == rows.Keys + {d.channelId}
      && (forall id :: id in rows && id != d.channelId ==> rows'[id] == rows[id])
      && var r := rows'[d.channelId];
         && r.counterparty == d.counterparty && r.isUsable == d.isUsable && r.isPublic == d.isPublic
         && r.data == Some(d) && r.updateTimestamp == now
         && r.scid == (if d.scid.Some? then d.scid else if d.channelId in rows then rows[d.channelId].scid else None)
         && r.openTimestamp == (if d.channelId in rows then rows[d.channelId].openTimestamp else now)
         && r.closureReason == (if d.channelId in rows then rows[d.channelId].closureReason else None)
    case Close(id, reason) =>
      if id !in rows then rows' == rows
      else rows' == rows[id := rows[id].(isUsable := false, updateTimestamp := now, closureReason := Some(reason))]
  }

  /** A write that takes effect makes the change, whether or not its caller hears so. */
  ghost predicate Writes(rows: Rows, op: Operation, now: int, write: Write, rows': Rows) {
    if TookEffect(write) then Changes(rows, op, now, rows') else rows' == rows
  }

  /** What can be read back of what is stored: a blob or a key of another version cannot. */
  datatype Reader = Reader(blob: Detail -> bool, id: ChannelId -> bool, peer: NodeId -> bool)

  predicate BlobReads(reader: Reader, row: Row) {
    row.data.Some? ==> reader.blob(row.data.value)
  }

  predicate RowReads(reader: Reader, id: ChannelId, row: Row) {
    BlobReads(reader, row) && reader.peer(row.counterparty) && reader.id(id)
  }

  /** The columns of the row, one by one, and the detail with the column's word on being usable. */
  ghost predicate ShowsRow(record: Record, id: ChannelId, row: Row) {
    && record.channelId == id && record.counterparty == row.counterparty
    && record.openTimestamp == row.openTimestamp && record.updateTimestamp == row.updateTimestamp
    && record.closureReason == row.closureReason
    && (record.detail.Some? <==> row.data.Some?)
    && (row.data.Some? ==>
          && record.detail.value.isUsable == row.isUsable
          && record.detail.value.(isUsable := row.data.value.isUsable) == row.data.value)
  }

  // ---- The table as the program drives it ----

  class Table {
    var rows: Rows

    constructor ()
      ensures rows == map[]
    {
      rows := map[];
    }

    method CreateChannel(id: ChannelId, isPublic: bool, counterparty: NodeId, now: int, write: Write)
      returns (r: Result<(), ()>)
      modifies this
      ensures Writes(old(rows), Create(id, isPublic, counterparty), now, write, rows)
      ensures r.Ok? <==> id !in old(rows) && write.Committed?
    {
      if id in rows {
        return Err(());
      }
      rows := Wrote(rows, rows[id := Row(counterparty, None, false, isPublic, None, now, now, None)], write);
      return if write.Committed? then Ok(()) else Err(());
    }

    method PersistChannel(d: Detail, now: int, write: Write) returns (r: Result<(), ()>)
      modifies this
      ensures Writes(old(rows), Persist(d), now, write, rows) && (r.Ok? <==> write.Committed?)
    {
      var id := d.channelId;
      var row := Row(d.counterparty, d.scid, d.isUsable, d.isPublic, Some(d), now, now, None);
      if id in rows {
        var scid := if d.scid.Some? then d.scid else rows[id].scid;
        row := rows[id].(counterparty := d.counterparty, scid := scid, isUsable := d.isUsable,
                         isPublic := d.isPublic, data := Some(d), updateTimestamp := now);
      }
      rows := Wrote(rows, rows[id := row], write);
      return if write.Committed? then Ok(()) else Err(());
    }

    method CloseChannel(id: ChannelId, reason: string, now: int, write: Write) returns (r: Result<(), ()>)
      modifies this
      ensures Writes(old(rows), Close(id, reason), now, write, rows) && (r.Ok? <==> write.Committed?)
    {
      if id in rows {
        var row := rows[id].(isUsable := false, updateTimestamp := now, closureReason := Some(reason));
        rows := Wrote(rows, rows[id := row], write);
      }
      return if write.Committed? then Ok(()) else Err(());
    }

    /** `scan` is the order in which the database happens to return the rows. */
    method FetchChannelHistory(scan: seq<ChannelId>, answered: bool, reader: Reader)
      returns (r: Result<seq<Record>, ()>)
      requires IsScan(rows, scan)
      ensures r.Ok? <==> answered && forall id :: id in rows && !rows[id].isUsable ==> BlobReads(reader, rows[id])
      ensures r.Ok? ==> r.value == History(rows, scan)
    {
      if !answered {
        return Err(());
      }
      var records := [];
      for n := 0 to |scan|
        invariant records == History(rows, scan[..n])
        invariant forall i :: 0 <= i < n && !rows[scan[i]].isUsable ==> BlobReads(reader, rows[scan[i]])
      {
        assert scan[..n + 1][..n] == scan[..n];
        var row := rows[scan[n]];
        if !row.isUsable {
          if !BlobReads(reader, row) {
            return Err(());
          }
          if row.data.Some? {
            var detail := row.data.value.(isUsable := false);
            records := records + [Record(detail.channelId, detail.counterparty, row.openTimestamp, row.updateTimestamp,
                                         row.closureReason, Some(detail))];
          }
        }
      }
      assert scan[..|scan|] == scan;
      return Ok(records);
    }

    method FetchChannels(scan: seq<ChannelId>, answered: bool, reader: Reader) returns (r: Result<seq<Record>, ()>)
      requires IsScan(rows, scan)
      ensures r.Ok? <==> answered && forall id :: id in rows ==> RowReads(reader, id, rows[id])
      ensures r.Ok? ==> r.value == Views(rows, scan)
      ensures r.Ok? ==> forall n :: 0 <= n < |scan| ==> ShowsRow(r.value[n], scan[n], rows[scan[n]])
    {
      if !answered {
        return Err(());
      }
      var records := [];
      for n := 0 to |scan|
        invariant |records| == n
        invariant forall i :: 0 <= i < n ==> records[i] == View(scan[i], rows[scan[i]])
        invariant forall i :: 0 <= i < n ==> RowReads(reader, scan[i], rows[scan[i]])
      {
        var row := rows[scan[n]];
        if !BlobReads(reader, row) {
          return Err(());
        }
        var detail := row.data;
        if detail.Some? {
          detail := Some(detail.value.(isUsable := row.isUsable));
        }
        if !reader.peer(row.counterparty) || !reader.id(scan[n]) {
          return Err(());
        }
        records := records + [Record(scan[n], row.counterparty, row.openTimestamp, row.updateTimestamp,
                                     row.closureReason, detail)];
      }
      return Ok(records);
    }

    method OpenChannelCount(scan: seq<ChannelId>, answered: bool) returns (r: Result<nat, ()>)
      requires IsScan(rows, scan)
      ensures r == if answered then Ok(|Usable(rows)|) else Err(())
    {
      if !answered {
        return Err(());
      }
      var count := 0;
      for n := 0 to |scan|
        invariant count == |UsableIn(rows, scan[..n])|
      {
        UsableStep(rows, scan, n);
        if rows[scan[n]].isUsable {
          count := count + 1;
        }
      }
      assert scan[..|scan|] == scan;
      assert UsableIn(rows, scan) == Usable(rows);
      return Ok(count);
    }
  }

  function Usable(rows: Rows): set<ChannelId> {
    set id | id in rows && rows[id].isUsable
  }

  ghost function UsableIn(rows: Rows, scan: seq<ChannelId>): set<ChannelId> {
    set id | id in scan && id in rows && rows[id].isUsable
  }

  lemma UsableStep(rows: Rows, scan: seq<ChannelId>, n: nat)
    requires n < |scan| && scan[n] in rows
    requires forall i, j :: 0 <= i < j < |scan| ==> scan[i] != scan[j]
    ensures |UsableIn(rows, scan[..n + 1])| == |UsableIn(rows, scan[..n])| + if rows[scan[n]].isUsable then 1 else 0
  {
    var seen := UsableIn(rows, scan[..n]);
    assert scan[..n + 1] == scan[..n] + [scan[n]];
    assert scan[n] !in scan[..n];
    assert UsableIn(rows, scan[..n + 1]) == if rows[scan[n]].isUsable then seen + {scan[n]} else seen;
  }

  method Find(inMemory: seq<Detail>, id: ChannelId) returns (found: Option<Detail>)
    ensures found.None? ==> forall i :: 0 <= i < |inMemory| ==> inMemory[i].channelId != id
    ensures found.Some? ==> found.value in inMemory && found.value.channelId == id
  {
    for n := 0 to |inMemory|
      invariant forall i :: 0 <= i < n ==> inMemory[i].channelId != id
    {
      if inMemory[n].channelId == id {
        return Some(inMemory[n]);
      }
    }
    return None;
  }

  ghost predicate Listed(inMemory: seq<Detail>, id: ChannelId) {
    exists i :: 0 <= i < |inMemory| && inMemory[i].channelId == id
  }

  ghost predicate PersistsOneOf(rows: Rows, inMemory: seq<Detail>, id: ChannelId, now: int, write: Write, rows': Rows) {
    exists d :: d in inMemory && d.channelId == id && Writes(rows, Persist(d), now, write, rows')
  }

  /** `noted` is the outcome of the update of initializing_channels, made for our own channels only. */
  method OnChannelPending(table: Table, inMemory: seq<Detail>, id: ChannelId, ours: bool, noted: bool,
                          counterparty: NodeId, now: int, write: Write) returns (r: Result<(), ()>)
    modifies table
    ensures ours && !noted ==> r.Err? && table.rows == old(table.rows)
    ensures (ours ==> noted) && Listed(inMemory, id) ==>
              && (r.Ok? <==> write.Committed?)
              && PersistsOneOf(old(table.rows), inMemory, id, now, write, table.rows)
    ensures (ours ==> noted) && !Listed(inMemory, id) ==>
              && (r.Ok? <==> id !in old(table.rows) && write.Committed?)
              && Writes(old(table.rows), Create(id, true, counterparty), now, write, table.rows)
  {
    if ours && !noted {
      return Err(());
    }
    var found := Find(inMemory, id);
    if found.Some? {
      r := table.PersistChannel(found.value, now, write);
    } else {
      r := table.CreateChannel(id, true, counterparty, now, write);
    }
  }

  const DETAIL_MISSING := "Channel detail missing when receiving ChannelReady"

  method OnChannelReady(table: Table, inMemory: seq<Detail>, id: ChannelId, now: int, write: Write)
    returns (r: Result<(), ()>)
    modifies table
    ensures r.Ok? <==> write.Committed?
    ensures Listed(inMemory, id) ==> PersistsOneOf(old(table.rows), inMemory, id, now, write, table.rows)
    ensures !Listed(inMemory, id) ==> Writes(old(table.rows), Close(id, DETAIL_MISSING), now, write, table.rows)
  {
    var found := Find(inMemory, id);
    if found.Some? {
      r := table.PersistChannel(found.value, now, write);
    } else {
      r := table.CloseChannel(id, DETAIL_MISSING, now, write);
    }
  }

  ghost predicate IsScan(rows: Rows, scan: seq<ChannelId>) {
    && (forall n :: 0 <= n < |scan| ==> scan[n] in rows)
    && (forall id :: id in rows ==> id in scan)
    && (forall i, j :: 0 <= i < j < |scan| ==> scan[i] != scan[j])
  }

  /** A row as fetch_channels shows it: the column, not the stored blob, says whether it is usable. */
  function View(id: ChannelId, row: Row): Record {
    Record(id, row.counterparty, row.openTimestamp, row.updateTimestamp, row.closureReason,
           if row.data.Some? then Some(row.data.value.(isUsable := row.isUsable)) else None)
  }

  function Views(rows: Rows, scan: seq<ChannelId>): seq<Record>
    requires forall n :: 0 <= n < |scan| ==> scan[n] in rows
  {
    seq(|scan|, n requires 0 <= n < |scan| => View(scan[n], rows[scan[n]]))
  }

  /** The rows of fetch_channel_history, which names channel and peer from the blob. */
  function History(rows: Rows, scan: seq<ChannelId>): seq<Record>
    requires forall n :: 0 <= n < |scan| ==> scan[n] in rows
  {
    if scan == [] then [] else
    var n := |scan| - 1;
    var row := rows[scan[n]];
    History(rows, scan[..n]) +
    if row.isUsable || row.data.None? then []
    else [Record(row.data.value.channelId, row.data.value.counterparty, row.openTimestamp, row.updateTimestamp,
                 row.closureReason, Some(row.data.value.(isUsable := false)))]
  }

  /** In scan order. */
  lemma {:induction false} HistoryInOrder(rows: Rows, before: seq<ChannelId>, after: seq<ChannelId>)
    requires forall id :: id in before + after ==> id in rows
    ensures (forall n :: 0 <= n < |before| ==> before[n] in rows) && forall n :: 0 <= n < |after| ==> after[n] in rows
    ensures History(rows, before + after) == History(rows, before) + History(rows, after)
  {
    assert forall n :: 0 <= n < |before| ==> before[n] in before + after;
    assert forall n :: 0 <= n < |after| ==> after[n] in before + after;
    if after == [] {
      assert before + after == before;
    } else {
      var n := |after| - 1;
      HistoryInOrder(rows, before, after[..n]);
      assert (before + after)[..|before| + n] == before + after[..n];
    }
  }

  function Filter(records: seq<Record>, keep: Record -> bool): seq<Record> {
    if records == [] then [] else
    var n := |records| - 1;
    Filter(records[..n], keep) + if keep(records[n]) then [records[n]] else []
  }

  predicate Retired(r: Record) { r.detail.Some? && !r.detail.value.isUsable }
  predicate InUse(r: Record) { r.detail.Some? && r.detail.value.isUsable }
  predicate Bare(r: Record) { r.detail.None? }

  // ---- Runs ----

  /** A row without blob is never usable, and a blob agrees with its row on who and which. */
  ghost predicate Inv(rows: Rows) {
    forall id :: id in rows ==>
      && (rows[id].data.None? ==> !rows[id].isUsable)
      && (rows[id].data.Some? ==>
            rows[id].data.value.channelId == id && rows[id].data.value.counterparty == rows[id].counterparty)
  }

  ghost predicate Reachable(rows: Rows, steps: nat)
    decreases steps
  {
    if steps == 0 then rows == map[]
    else exists rows0, op, now, write :: Reachable(rows0, steps - 1) && Writes(rows0, op, now, write, rows)
  }

  lemma {:induction false} ReachableKeepsInv(rows: Rows, steps: nat)
    requires Reachable(rows, steps)
    ensures Inv(rows)
  {
    if steps > 0 {
      var rows0, op, now, write :| Reachable(rows0, steps - 1) && Writes(rows0, op, now, write, rows);
      ReachableKeepsInv(rows0, steps - 1);
      if TookEffect(write) { ChangeKeepsInv(rows0, op, now, rows); }
    }
  }

  lemma ChangeKeepsInv(rows: Rows, op: Operation, now: int, rows': Rows)
    requires Inv(rows) && Changes(rows, op, now, rows')
    ensures Inv(rows')
  {
    match op {
      case Create(_, _, _) =>
      case Persist(d) =>
        forall id | id in rows' && id != d.channelId ensures rows'[id] == rows[id] {
          assert id in rows;
        }
      case Close(_, _) =>
    }
  }

  lemma {:induction false} HistoryUnderInv(rows: Rows, scan: seq<ChannelId>)
    requires Inv(rows) && forall n :: 0 <= n < |scan| ==> scan[n] in rows
    ensures History(rows, scan) == Filter(Views(rows, scan), Retired)
  {
    if scan != [] {
      var n := |scan| - 1;
      HistoryUnderInv(rows, scan[..n]);
      assert Views(rows, scan)[..n] == Views(rows, scan[..n]);
      assert scan[n] in rows;
    }
  }

  /** In every reachable table the history is exactly what fetch_channels shows with a detail that is
      not usable, in the same order, whatever the stored blobs say about being usable. */
  lemma HistoryIsRetiredView(rows: Rows, scan: seq<ChannelId>, steps: nat)
    requires Reachable(rows, steps) && forall n :: 0 <= n < |scan| ==> scan[n] in rows
    ensures History(rows, scan) == Filter(Views(rows, scan), Retired)
  {
    ReachableKeepsInv(rows, steps);
    HistoryUnderInv(rows, scan);
  }

  lemma PartitionUnderInv(rows: Rows, scan: seq<ChannelId>)
    requires Inv(rows) && IsScan(rows, scan)
    ensures |Usable(rows)| + |History(rows, scan)| + |Filter(Views(rows, scan), Bare)|
            == |Views(rows, scan)| == |rows|
  {
    HistoryUnderInv(rows, scan);
    CountInUse(rows, scan);
    assert UsableIn(rows, scan) == Usable(rows);
    ThreeKinds(Views(rows, scan));
    ScanCoversRows(rows.Keys, scan);
    assert |rows.Keys| == |rows|;
  }

  /** The usable count, the history and the rows without detail account for every row once. */
  lemma ViewsPartitionTheTable(rows: Rows, scan: seq<ChannelId>, steps: nat)
    requires Reachable(rows, steps) && IsScan(rows, scan)
    ensures |Usable(rows)| + |History(rows, scan)| + |Filter(Views(rows, scan), Bare)|
            == |Views(rows, scan)| == |rows|
  {
    ReachableKeepsInv(rows, steps);
    PartitionUnderInv(rows, scan);
  }

  lemma {:induction false} ThreeKinds(records: seq<Record>)
    ensures |Filter(records, InUse)| + |Filter(records, Retired)| + |Filter(records, Bare)| == |records|
  {
    if records != [] { ThreeKinds(records[..|records| - 1]); }
  }

  lemma {:induction false} CountInUse(rows: Rows, scan: seq<ChannelId>)
    requires Inv(rows) && forall n :: 0 <= n < |scan| ==> scan[n] in rows
    requires forall i, j :: 0 <= i < j < |scan| ==> scan[i] != scan[j]
    ensures |UsableIn(rows, scan)| == |Filter(Views(rows, scan), InUse)|
  {
    if scan != [] {
      var n := |scan| - 1;
      CountInUse(rows, scan[..n]);
      assert Views(rows, scan)[..n] == Views(rows, scan[..n]);
      UsableStep(rows, scan, n);
      assert scan[..n + 1] == scan;
      assert scan[n] in rows;
    }
  }

  lemma {:induction false} ScanCoversRows(keys: set<ChannelId>, scan: seq<ChannelId>)
    requires forall id :: id in keys <==> id in scan
    requires forall i, j :: 0 <= i < j < |scan| ==> scan[i] != scan[j]
    ensures |keys| == |scan|
  {
    if scan != [] {
      var n := |scan| - 1;
      assert scan == scan[..n] + [scan[n]];
      ScanCoversRows(keys - {scan[n]}, scan[..n]);
      assert scan[n] in keys;
    } else {
      assert keys == {};
    }
  }

  lemma {:induction false} BareStays(rows: Rows, rows': Rows, scan: seq<ChannelId>)
    requires forall n :: 0 <= n < |scan| ==> scan[n] in rows && scan[n] in rows'
    requires forall n :: 0 <= n < |scan| ==> rows'[scan[n]].data == rows[scan[n]].data
    ensures |Filter(Views(rows', scan), Bare)| == |Filter(Views(rows, scan), Bare)|
  {
    if scan != [] {
      var n := |scan| - 1;
      BareStays(rows, rows', scan[..n]);
      assert Views(rows, scan)[..n] == Views(rows, scan[..n]);
      assert Views(rows', scan)[..n] == Views(rows', scan[..n]);
      assert scan[n] in rows;
    }
  }

  /** Closing shows at once, though the blob is not rewritten: a usable channel moves from the count to the
      history, and for any other both stay. */
  lemma ClosingMovesToHistory(rows: Rows, id: ChannelId, reason: string, now: int, rows': Rows,
                              scan: seq<ChannelId>, steps: nat)
    requires Reachable(rows, steps) && IsScan(rows, scan) && id in rows && Changes(rows, Close(id, reason), now, rows')
    ensures IsScan(rows', scan)
    ensures (var moved := if rows[id].isUsable then 1 else 0;
      && |Usable(rows')| == |Usable(rows)| - moved
      && |History(rows', scan)| == |History(rows, scan)| + moved)
  {
    ReachableKeepsInv(rows, steps);
    ChangeKeepsInv(rows, Close(id, reason), now, rows');
    ClosedRow(rows, id, rows', scan);
    PartitionUnderInv(rows, scan);
    PartitionUnderInv(rows', scan);
  }

  lemma ClosedRow(rows: Rows, id: ChannelId, rows': Rows, scan: seq<ChannelId>)
    requires IsScan(rows, scan) && id in rows && rows'.Keys == rows.Keys
    requires forall j :: j in rows && j != id ==> rows'[j] == rows[j]
    requires rows'[id].data == rows[id].data && !rows'[id].isUsable
    ensures IsScan(rows', scan) && |rows'| == |rows|
    ensures |Usable(rows')| == |Usable(rows)| - if rows[id].isUsable then 1 else 0
    ensures |Filter(Views(rows', scan), Bare)| == |Filter(Views(rows, scan), Bare)|
  {
    forall n | 0 <= n < |scan| ensures scan[n] in rows' && rows'[scan[n]].data == rows[scan[n]].data {
      assert scan[n] in rows;
    }
    BareStays(rows, rows', scan);
    UsableLoses(rows, id, rows');
  }

  lemma UsableLoses(rows: Rows, id: ChannelId, rows': Rows)
    requires id in rows && rows'.Keys == rows.Keys && !rows'[id].isUsable
    requires forall j :: j in rows && j != id ==> rows'[j] == rows[j]
    ensures |Usable(rows')| == |Usable(rows)| - if rows[id].isUsable then 1 else 0
    ensures |rows'| == |rows|
  {
    assert Usable(rows') == Usable(rows) - {id};
    assert |rows'.Keys| == |rows'| && |rows.Keys| == |rows|;
  }
}
