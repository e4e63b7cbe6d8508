/** Listing channels from the table and from memory at once (kld/src/api/channels.rs, list_channels). */
module ListChannels {
  import opened Wrappers
  import opened Channels
  import opened Database

  /** ChannelConfig::default() of the lightning library, which is not part of this model. */
  type Defaults = Config

  /** What the response shows of a channel beside its names and configuration. */
  datatype Shown = Shown(scid: Option<nat>, isUsable: bool, isPublic: bool, rest: seq<int>)

  function ShownOf(d: Detail): Shown { Shown(d.scid, d.isUsable, d.isPublic, d.rest) }

  /** `shown` and `config` are None where the response has default values. */
  datatype Item = Item(channelId: ChannelId, counterparty: NodeId, shown: Option<Shown>, config: Option<Config>,
                       hasMonitor: bool, openTimestamp: int, updateTimestamp: int, closureReason: Option<string>)

  const INVALID_RECORD := "** Invalid Channel Record **"

  function ConfigOr(d: Detail, defaults: Defaults): Config {
    if d.config.Some? then d.config.value else defaults
  }

  /** The last in-memory channel of that id, which is where the search ends up. */
  function LastMatch(mem: seq<Detail>, id: ChannelId): (m: Option<nat>)
    ensures m.Some? ==> m.value < |mem| && mem[m.value].channelId == id
    ensures forall i :: 0 <= i < |mem| && mem[i].channelId == id ==> m.Some? && i <= m.value
  {
    if mem == [] then None
    else if mem[|mem| - 1].channelId == id then Some(|mem| - 1)
    else LastMatch(mem[..|mem| - 1], id)
  }

  /** The item of a stored record, given the in-memory channel it was matched with. */
  function StoredItem(r: Record, m: Option<Detail>, defaults: Defaults): Item {
    if r.detail.None? then
      Item(r.channelId, r.counterparty, None, None, false, r.openTimestamp, r.updateTimestamp, r.closureReason)
    else
      var d := if m.Some? then m.value else r.detail.value;
      Item(d.channelId, d.counterparty, Some(ShownOf(d)), Some(ConfigOr(r.detail.value, defaults)), m.Some?,
           r.openTimestamp, r.updateTimestamp, r.closureReason)
  }

  function MissingItem(d: Detail, defaults: Defaults): Item {
    Item(d.channelId, d.counterparty, Some(ShownOf(d)), Some(ConfigOr(d, defaults)), true, 0, 0, Some(INVALID_RECORD))
  }

  function MatchIn(r: Record, mem: seq<Detail>): Option<nat> {
    if r.detail.None? then None else LastMatch(mem, r.detail.value.channelId)
  }

  function DropMatch(r: Record, mem: seq<Detail>): seq<Detail> {
    var m := MatchIn(r, mem);
    if m.Some? then Without(mem, m.value) else mem
  }

  /** What is left of the in-memory list after these records. */
  function Rest(db: seq<Record>, mem: seq<Detail>): (rest: seq<Detail>)
    decreases |db|
  {
    if db == [] then mem
    else
      DropMatch(db[|db| - 1], Rest(db[..|db| - 1], mem))
  }

  function MatchOf(db: seq<Record>, mem: seq<Detail>, n: nat): Option<Detail>
    requires n < |db|
  {
    var before := Rest(db[..n], mem);
    var m := MatchIn(db[n], before);
    if m.Some? then Some(before[m.value]) else None
  }

  ghost predicate StoredItems(items: seq<Item>, rows: seq<Record>, mem: seq<Detail>, defaults: Defaults, n: nat) {
    && n <= |items| && n <= |rows|
    && forall i :: 0 <= i < n ==> items[i] == StoredItem(rows[i], MatchOf(rows, mem, i), defaults)
  }

  ghost predicate MissingItems(items: seq<Item>, rest: seq<Detail>, defaults: Defaults) {
    |items| == |rest| && forall i :: 0 <= i < |rest| ==> items[i] == MissingItem(rest[i], defaults)
  }

  /** What List makes of a table and a memory. */
  ghost predicate IsListing(items: seq<Item>, db: seq<Record>, mem: seq<Detail>, defaults: Defaults) {
    && |items| == |db| + |Rest(db, mem)|
    && StoredItems(items, db, mem, defaults, |db|)
    && MissingItems(items[|db|..], Rest(db, mem), defaults)
  }

  lemma RestStep(rows: seq<Record>, mem: seq<Detail>, n: nat)
    requires n < |rows|
    ensures Rest(rows[..n + 1], mem) == DropMatch(rows[n], Rest(rows[..n], mem))
  {
    assert rows[..n + 1][..n] == rows[..n];
  }

  /** `db` is an error when the table could not be read; then only the channels in memory are listed. */
  method List(db: Result<seq<Record>, ()>, mem: seq<Detail>, defaults: Defaults) returns (items: seq<Item>)
    ensures (var rows := if db.Ok? then db.value else [];
      IsListing(items, rows, mem, defaults))
  {
    var rows := if db.Ok? then db.value else [];
    var inMemory := mem;
    var response := [];
    for n := 0 to |rows|
      invariant inMemory == Rest(rows[..n], mem)
      invariant |response| == n && StoredItems(response, rows, mem, defaults, n)
    {
      RestStep(rows, mem, n);
      var item, inMemory' := ListStored(rows[n], inMemory, defaults);
      ItemAppended(response, item, rows, mem, defaults, n);
      inMemory := inMemory';
      response := response + [item];
    }
    assert rows[..|rows|] == rows;
    var missing := ListMissing(inMemory, defaults);
    items := response + missing;
    ItemsComplete(response, missing, rows, mem, defaults);
  }

  lemma ItemAppended(items: seq<Item>, item: Item, rows: seq<Record>, mem: seq<Detail>, defaults: Defaults, n: nat)
    requires |items| == n < |rows| && StoredItems(items, rows, mem, defaults, n)
    requires item == StoredItem(rows[n], MatchOf(rows, mem, n), defaults)
    ensures StoredItems(items + [item], rows, mem, defaults, n + 1)
  {
  }

  lemma ItemsComplete(stored: seq<Item>, missing: seq<Item>, rows: seq<Record>, mem: seq<Detail>, defaults: Defaults)
    requires |stored| == |rows| && StoredItems(stored, rows, mem, defaults, |rows|)
    requires MissingItems(missing, Rest(rows, mem), defaults)
    ensures IsListing(stored + missing, rows, mem, defaults)
  {
    assert (stored + missing)[|rows|..] == missing;
  }

  /** One round of the first loop: the item of a record, and the channels still unmatched. */
  method ListStored(r: Record, inMemory: seq<Detail>, defaults: Defaults) returns (item: Item, rest: seq<Detail>)
    ensures (var m := MatchIn(r, inMemory);
      && item == StoredItem(r, if m.Some? then Some(inMemory[m.value]) else None, defaults)
      && rest == DropMatch(r, inMemory))
  {
    rest := inMemory;
    if r.detail.Some? {
      var detail := r.detail.value;
      var config := ConfigOr(detail, defaults);
      var isFound := FindLast(inMemory, detail.channelId);
      var hasMonitor := false;
      if isFound.Some? {
        detail := inMemory[isFound.value];
        rest := Without(inMemory, isFound.value);
        hasMonitor := true;
      }
      item := Item(detail.channelId, detail.counterparty, Some(ShownOf(detail)), Some(config), hasMonitor,
                   r.openTimestamp, r.updateTimestamp, r.closureReason);
    } else {
      item := Item(r.channelId, r.counterparty, None, None, false,
                   r.openTimestamp, r.updateTimestamp, r.closureReason);
    }
  }

  /** The second loop of the listing. */
  method ListMissing(inMemory: seq<Detail>, defaults: Defaults) returns (items: seq<Item>)
    ensures MissingItems(items, inMemory, defaults)
  {
    items := [];
    for n := 0 to |inMemory|
      invariant |items| == n
      invariant forall i :: 0 <= i < n ==> items[i] == MissingItem(inMemory[i], defaults)
    {
      var d := inMemory[n];
      items := items + [Item(d.channelId, d.counterparty, Some(ShownOf(d)), Some(ConfigOr(d, defaults)), true,
                             0, 0, Some(INVALID_RECORD))];
    }
  }

  method FindLast(mem: seq<Detail>, id: ChannelId) returns (found: Option<nat>)
    ensures found == LastMatch(mem, id)
  {
    found := None;
    for i := 0 to |mem|
      invariant found == LastMatch(mem[..i], id)
    {
      assert mem[..i + 1][..i] == mem[..i];
      if mem[i].channelId == id {
        found := Some(i);
      }
    }
    assert mem[..|mem|] == mem;
  }

  // ---- What the merge means ----

  ghost predicate UniqueIds(mem: seq<Detail>) {
    forall i, j :: 0 <= i < j < |mem| ==> mem[i].channelId != mem[j].channelId
  }

  ghost predicate UniqueRecords(db: seq<Record>) {
    forall i, j :: 0 <= i < j < |db| && db[i].detail.Some? && db[j].detail.Some? ==>
      db[i].detail.value.channelId != db[j].detail.value.channelId
  }

  /** Some detailed record carries this id. */
  ghost predicate Recorded(db: seq<Record>, id: ChannelId) {
    exists n :: 0 <= n < |db| && db[n].detail.Some? && db[n].detail.value.channelId == id
  }

  ghost function Unrecorded(mem: seq<Detail>, db: seq<Record>): seq<Detail> {
    if mem == [] then []
    else Unrecorded(mem[..|mem| - 1], db) + if Recorded(db, mem[|mem| - 1].channelId) then [] else [mem[|mem| - 1]]
  }

  lemma {:induction false} UnrecordedHas(mem: seq<Detail>, db: seq<Record>, d: Detail)
    ensures d in Unrecorded(mem, db) <==> d in mem && !Recorded(db, d.channelId)
  {
    if mem != [] {
      UnrecordedHas(mem[..|mem| - 1], db, d);
      assert mem == mem[..|mem| - 1] + [mem[|mem| - 1]];
    }
  }

  lemma {:induction false} UnrecordedUnique(mem: seq<Detail>, db: seq<Record>)
    requires UniqueIds(mem)
    ensures UniqueIds(Unrecorded(mem, db))
  {
    if mem != [] {
      var n := |mem| - 1;
      var u := Unrecorded(mem[..n], db);
      UnrecordedUnique(mem[..n], db);
      forall i | 0 <= i < |u| ensures u[i].channelId != mem[n].channelId {
        UnrecordedHas(mem[..n], db, u[i]);
        assert u[i] in u && u[i] in mem[..n];
      }
    }
  }

  lemma {:induction false} UnrecordedSame(mem: seq<Detail>, db: seq<Record>, db': seq<Record>)
    requires forall i :: 0 <= i < |mem| ==> (Recorded(db, mem[i].channelId) <==> Recorded(db', mem[i].channelId))
    ensures Unrecorded(mem, db) == Unrecorded(mem, db')
  {
    if mem != [] {
      UnrecordedSame(mem[..|mem| - 1], db, db');
      assert Recorded(db, mem[|mem| - 1].channelId) <==> Recorded(db', mem[|mem| - 1].channelId);
    }
  }

  lemma RecordedGrows(db: seq<Record>, n: nat, id: ChannelId)
    requires n < |db|
    ensures Recorded(db[..n + 1], id) <==>
            Recorded(db[..n], id) || (db[n].detail.Some? && db[n].detail.value.channelId == id)
  {
    if Recorded(db[..n], id) {
      var i :| 0 <= i < n && db[..n][i].detail.Some? && db[..n][i].detail.value.channelId == id;
      assert db[..n + 1][i] == db[..n][i];
    }
    if db[n].detail.Some? && db[n].detail.value.channelId == id {
      assert db[..n + 1][n] == db[n];
    }
    if Recorded(db[..n + 1], id) {
      var i :| 0 <= i < n + 1 && db[..n + 1][i].detail.Some? && db[..n + 1][i].detail.value.channelId == id;
      if i < n { assert db[..n][i] == db[..n + 1][i]; }
    }
  }

  /** Recording one more id drops exactly the one channel of that id, wherever it stands. */
  lemma {:induction false} RecordOneMore(mem: seq<Detail>, db: seq<Record>, n: nat)
    requires UniqueIds(mem) && n < |db|
    ensures Unrecorded(mem, db[..n + 1]) == DropMatch(db[n], Unrecorded(mem, db[..n]))
    decreases |mem|
  {
    var r := db[n];
    if mem == [] {
    } else if r.detail.None? {
      NothingToRecord(mem, db, n);
    } else {
      var k := |mem| - 1;
      var last := mem[k];
      RecordOneMore(mem[..k], db, n);
      RecordedGrows(db, n, last.channelId);
      if last.channelId == r.detail.value.channelId { OnlyLastMatches(mem, db[..n]); }
      DropWithLast(r, Unrecorded(mem[..k], db[..n]), last, Recorded(db[..n], last.channelId));
    }
  }

  lemma NothingToRecord(mem: seq<Detail>, db: seq<Record>, n: nat)
    requires n < |db| && db[n].detail.None?
    ensures Unrecorded(mem, db[..n + 1]) == Unrecorded(mem, db[..n])
  {
    forall i | 0 <= i < |mem| ensures Recorded(db[..n + 1], mem[i].channelId) <==> Recorded(db[..n], mem[i].channelId) {
      RecordedGrows(db, n, mem[i].channelId);
    }
    UnrecordedSame(mem, db[..n + 1], db[..n]);
  }

  lemma OnlyLastMatches(mem: seq<Detail>, db: seq<Record>)
    requires UniqueIds(mem) && mem != []
    ensures LastMatch(Unrecorded(mem[..|mem| - 1], db), mem[|mem| - 1].channelId) == None
  {
    var k := |mem| - 1;
    forall i | 0 <= i < |mem[..k]| ensures mem[..k][i].channelId != mem[k].channelId {
      assert mem[..k][i] == mem[i];
    }
    NoMatch(mem[..k], db, mem[k].channelId);
  }

  lemma DropWithLast(r: Record, u: seq<Detail>, last: Detail, recorded: bool)
    requires r.detail.Some?
    requires last.channelId == r.detail.value.channelId ==> MatchIn(r, u) == None
    ensures (var same := last.channelId == r.detail.value.channelId;
      DropMatch(r, u + if recorded then [] else [last]) == DropMatch(r, u) + if recorded || same then [] else [last])
  {
    if recorded {
      assert u + [] == u;
    } else {
      var v := u + [last];
      assert v[..|u|] == u;
      var m := MatchIn(r, v);
      if last.channelId == r.detail.value.channelId {
        assert Without(v, |u|) == u;
      } else if m.Some? {
        assert Without(v, m.value) == Without(u, m.value) + [last];
      }
    }
  }

  lemma NoMatch(mem: seq<Detail>, db: seq<Record>, id: ChannelId)
    requires forall i :: 0 <= i < |mem| ==> mem[i].channelId != id
    ensures LastMatch(Unrecorded(mem, db), id) == None
  {
    var u := Unrecorded(mem, db);
    forall i | 0 <= i < |u| ensures u[i].channelId != id {
      assert u[i] in u;
      UnrecordedHas(mem, db, u[i]);
    }
  }

  /** Each step of the merge leaves the in-memory channels that no record so far carries, in order. */
  lemma {:induction false} RestIsUnrecorded(db: seq<Record>, mem: seq<Detail>, n: nat)
    requires UniqueIds(mem) && n <= |db|
    ensures Rest(db[..n], mem) == Unrecorded(mem, db[..n])
  {
    if n == 0 {
      NothingRecorded(mem);
      assert db[..0] == [];
    } else {
      RestIsUnrecorded(db, mem, n - 1);
      RecordOneMore(mem, db, n - 1);
      assert db[..n][..n - 1] == db[..n - 1];
    }
  }

  lemma {:induction false} NothingRecorded(mem: seq<Detail>)
    ensures Unrecorded(mem, []) == mem
  {
    if mem != [] {
      NothingRecorded(mem[..|mem| - 1]);
      assert mem == mem[..|mem| - 1] + [mem[|mem| - 1]];
    }
  }

  /** With ids unique on each side: a detailed record is matched exactly when its channel is in
      memory, with that channel; the trailing items are the channels in memory that no detailed
      record carries, in their order. */
  lemma MergeIsExact(db: seq<Record>, mem: seq<Detail>, n: nat, d: Detail)
    requires UniqueIds(mem) && UniqueRecords(db)
    ensures Rest(db, mem) == Unrecorded(mem, db)
    ensures n < |db| && db[n].detail.Some? ==>
              (MatchOf(db, mem, n) == Some(d) <==> d in mem && d.channelId == db[n].detail.value.channelId)
    ensures n < |db| && db[n].detail.None? ==> MatchOf(db, mem, n) == None
    ensures UniqueIds(Rest(db, mem)) && (d in Rest(db, mem) <==> d in mem && !Recorded(db, d.channelId))
  {
    RestIsUnrecorded(db, mem, |db|);
    assert db[..|db|] == db;
    UnrecordedHas(mem, db, d);
    UnrecordedUnique(mem, db);
    if n < |db| && db[n].detail.Some? {
      MatchIsExact(db, mem, n, d);
    }
  }

  lemma MatchIsExact(db: seq<Record>, mem: seq<Detail>, n: nat, d: Detail)
    requires UniqueIds(mem) && UniqueRecords(db) && n < |db| && db[n].detail.Some?
    ensures MatchOf(db, mem, n) == Some(d) <==> d in mem && d.channelId == db[n].detail.value.channelId
  {
    var id := db[n].detail.value.channelId;
    var u := Unrecorded(mem, db[..n]);
    RestIsUnrecorded(db, mem, n);
    UnrecordedUnique(mem, db[..n]);
    assert !Recorded(db[..n], id);
    var m := LastMatch(u, id);
    if m.Some? { UnrecordedHas(mem, db[..n], u[m.value]); assert u[m.value] in u; }
    if d in mem && d.channelId == id {
      UnrecordedHas(mem, db[..n], d);
      var i :| 0 <= i < |u| && u[i] == d;
      assert m.Some? && i == m.value;
    }
  }

  function CountMatched(db: seq<Record>, mem: seq<Detail>, n: nat): nat
    requires n <= |db|
  {
    if n == 0 then 0 else CountMatched(db, mem, n - 1) + if MatchOf(db, mem, n - 1).Some? then 1 else 0
  }

  /** The length of the list, with or without unique ids. */
  lemma {:induction false} LengthLaw(db: seq<Record>, mem: seq<Detail>, n: nat)
    requires n <= |db|
    ensures |Rest(db[..n], mem)| + CountMatched(db, mem, n) == |mem|
  {
    if n > 0 {
      LengthLaw(db, mem, n - 1);
      assert db[..n][..n - 1] == db[..n - 1];
    }
  }

  /** The live fields of the channel, one by one. */
  ghost predicate Shows(item: Item, d: Detail) {
    && item.shown.Some?
    && item.shown.value.scid == d.scid && item.shown.value.isUsable == d.isUsable
    && item.shown.value.isPublic == d.isPublic && item.shown.value.rest == d.rest
  }

  /** Reading one listed record: it has a monitor exactly when its channel is in memory, and then
      shows that channel's live fields beside the configuration that was stored. */
  lemma StoredItemMeaning(db: seq<Record>, mem: seq<Detail>, n: nat, d: Detail, defaults: Defaults)
    requires UniqueIds(mem) && UniqueRecords(db) && n < |db| && db[n].detail.Some?
    ensures (var stored, item := db[n].detail.value, StoredItem(db[n], MatchOf(db, mem, n), defaults);
      && (item.hasMonitor <==> exists m :: m in mem && m.channelId == stored.channelId)
      && item.channelId == stored.channelId
      && item.config == Some(if stored.config.Some? then stored.config.value else defaults)
      && (d in mem && d.channelId == stored.channelId ==>
            Shows(item, d) && item.counterparty == d.counterparty)
      && (!item.hasMonitor ==> Shows(item, stored) && item.counterparty == stored.counterparty)
      && item.closureReason == db[n].closureReason
      && item.openTimestamp == db[n].openTimestamp && item.updateTimestamp == db[n].updateTimestamp)
  {
    MatchIsExact(db, mem, n, d);
    var m := MatchOf(db, mem, n);
    if m.Some? { MatchIsExact(db, mem, n, m.value); }
    if x :| x in mem && x.channelId == db[n].detail.value.channelId { MatchIsExact(db, mem, n, x); }
  }

  /** Reading the item of a record without detail: its own columns and nothing else. */
  lemma BareItemMeaning(items: seq<Item>, db: seq<Record>, mem: seq<Detail>, defaults: Defaults, n: nat)
    requires IsListing(items, db, mem, defaults) && n < |db| && db[n].detail.None?
    ensures (var r, item := db[n], items[n];
      && item.channelId == r.channelId && item.counterparty == r.counterparty
      && item.shown == None && item.config == None && !item.hasMonitor
      && item.openTimestamp == r.openTimestamp && item.updateTimestamp == r.updateTimestamp
      && item.closureReason == r.closureReason)
  {
  }

  /** Reading a trailing item: its channel's live fields and own configuration, marked as not recorded. */
  lemma MissingItemMeaning(items: seq<Item>, db: seq<Record>, mem: seq<Detail>, defaults: Defaults, k: nat)
    requires IsListing(items, db, mem, defaults) && k < |Rest(db, mem)|
    ensures (var d, item := Rest(db, mem)[k], items[|db| + k];
      && item.channelId == d.channelId && item.counterparty == d.counterparty && Shows(item, d) && item.hasMonitor
      && item.config == Some(if d.config.Some? then d.config.value else defaults)
      && item.openTimestamp == 0 && item.updateTimestamp == 0
      && item.closureReason == Some("** Invalid Channel Record **"))
  {
    assert items[|db| + k] == items[|db|..][k];
  }

  // ---- Every channel once ----

  /** The id under which a record is listed. */
  function RowId(r: Record): ChannelId {
    if r.detail.Some? then r.detail.value.channelId else r.channelId
  }

  ghost predicate UniqueRows(db: seq<Record>) {
    forall i, j :: 0 <= i < j < |db| ==> RowId(db[i]) != RowId(db[j])
  }

  lemma ItemIds(items: seq<Item>, db: seq<Record>, mem: seq<Detail>, defaults: Defaults)
    requires UniqueIds(mem) && UniqueRows(db) && IsListing(items, db, mem, defaults)
    ensures forall i :: 0 <= i < |db| ==> items[i].channelId == RowId(db[i])
    ensures forall k :: 0 <= k < |Rest(db, mem)| ==> items[|db| + k].channelId == Rest(db, mem)[k].channelId
  {
    forall i | 0 <= i < |db| ensures items[i].channelId == RowId(db[i]) {
      if db[i].detail.Some? && MatchOf(db, mem, i).Some? {
        MatchIsExact(db, mem, i, MatchOf(db, mem, i).value);
      }
    }
    forall k | 0 <= k < |Rest(db, mem)| ensures items[|db| + k].channelId == Rest(db, mem)[k].channelId {
      assert items[|db| + k] == items[|db|..][k];
    }
  }

  lemma RestIs(db: seq<Record>, mem: seq<Detail>, d: Detail)
    requires UniqueIds(mem)
    ensures UniqueIds(Rest(db, mem)) && (d in Rest(db, mem) <==> d in mem && !Recorded(db, d.channelId))
  {
    RestIsUnrecorded(db, mem, |db|);
    assert db[..|db|] == db;
    UnrecordedHas(mem, db, d);
    UnrecordedUnique(mem, db);
  }

  /** Every channel in memory is listed. */
  lemma NothingIsLost(items: seq<Item>, db: seq<Record>, mem: seq<Detail>, defaults: Defaults, d: Detail)
    requires UniqueIds(mem) && UniqueRows(db) && IsListing(items, db, mem, defaults) && d in mem
    ensures exists i :: 0 <= i < |items| && items[i].channelId == d.channelId && items[i].hasMonitor
  {
    ItemIds(items, db, mem, defaults);
    RestIs(db, mem, d);
    if Recorded(db, d.channelId) {
      var n :| 0 <= n < |db| && db[n].detail.Some? && db[n].detail.value.channelId == d.channelId;
      MatchIsExact(db, mem, n, d);
      assert items[n].hasMonitor;
    } else {
      var k :| 0 <= k < |Rest(db, mem)| && Rest(db, mem)[k] == d;
      assert items[|db| + k] == items[|db|..][k];
    }
  }

  /** No record without detail is about a channel in memory. */
  ghost predicate NoBareInMemory(db: seq<Record>, mem: seq<Detail>) {
    forall n, d :: 0 <= n < |db| && db[n].detail.None? && d in mem ==> d.channelId != db[n].channelId
  }

  ghost predicate NoIdTwice(items: seq<Item>) {
    forall i, j :: 0 <= i < j < |items| ==> items[i].channelId != items[j].channelId
  }

  /** A channel in memory whose record has no detail is listed twice, once bare and once as not recorded.
      With ids unique on each side that is the only way: no id is listed twice exactly when there is none. */
  lemma ListedOnceExactlyWhen(items: seq<Item>, db: seq<Record>, mem: seq<Detail>, defaults: Defaults)
    requires UniqueIds(mem) && UniqueRows(db) && IsListing(items, db, mem, defaults)
    ensures NoIdTwice(items) <==> NoBareInMemory(db, mem)
  {
    ItemIds(items, db, mem, defaults);
    if NoBareInMemory(db, mem) {
      forall i, j | 0 <= i < j < |items| ensures items[i].channelId != items[j].channelId {
        if j >= |db| { ListedApart(items, db, mem, defaults, i, j - |db|); }
      }
    }
    if !NoBareInMemory(db, mem) {
      var n, d :| 0 <= n < |db| && db[n].detail.None? && d in mem && d.channelId == db[n].channelId;
      BareIsListedTwice(items, db, mem, defaults, n, d);
    }
  }

  lemma BareIsListedTwice(items: seq<Item>, db: seq<Record>, mem: seq<Detail>, defaults: Defaults, n: nat, d: Detail)
    requires UniqueIds(mem) && UniqueRows(db) && IsListing(items, db, mem, defaults)
    requires n < |db| && db[n].detail.None? && d in mem && d.channelId == db[n].channelId
    ensures !NoIdTwice(items)
  {
    ItemIds(items, db, mem, defaults);
    RestIs(db, mem, d);
    assert RowId(db[n]) == d.channelId && !Recorded(db, d.channelId);
    var k :| 0 <= k < |Rest(db, mem)| && Rest(db, mem)[k] == d;
    assert items[n].channelId == items[|db| + k].channelId;
  }

  lemma ListedApart(items: seq<Item>, db: seq<Record>, mem: seq<Detail>, defaults: Defaults, i: nat, k: nat)
    requires UniqueIds(mem) && UniqueRows(db) && IsListing(items, db, mem, defaults) && NoBareInMemory(db, mem)
    requires k < |Rest(db, mem)| && i < |db| + k
    ensures items[i].channelId != items[|db| + k].channelId
  {
    var rest := Rest(db, mem);
    ItemIds(items, db, mem, defaults);
    RestIs(db, mem, rest[k]);
    assert rest[k] in rest;
    if i >= |db| {
      assert items[|db| + (i - |db|)].channelId == rest[i - |db|].channelId;
    }
  }
}
