/** The item loop of a collector run: raw rows, deduplicated records and their counters, all or nothing. */
module CollectorWorker {
  import opened Lists

  datatype Collector = Collector(name: string, moduleName: string, source: string)

  datatype Item = Item(externalId: Option<string>, payload: string)

  /** The hash of an item's payload, and the checksum of its raw document. */
  datatype Hashes = Hashes(payload: Item -> string, checksum: Item -> string)

  datatype Record = Record(collector: string, source: string, externalId: Option<string>, hash: string, run: nat)

  datatype Raw = Raw(moduleName: string, source: string, checksum: string)

  datatype Db = Db(records: seq<Record>, raws: seq<Raw>)

  /** The unique constraint on records; a missing external id equals nothing, not even another missing one. */
  predicate Conflict(a: Record, b: Record) {
    a.collector == b.collector && a.source == b.source && a.hash == b.hash && a.externalId.Some?
        && a.externalId == b.externalId
  }

  predicate HasConflict(records: seq<Record>, r: Record) {
    exists i :: 0 <= i < |records| && Conflict(records[i], r)
  }

  function RecordOf(c: Collector, run: nat, item: Item, hashes: Hashes): Record {
    Record(c.name, c.source, item.externalId, hashes.payload(item), run)
  }

  function RawOf(c: Collector, item: Item, hashes: Hashes): Raw {
    Raw(c.moduleName, c.source, hashes.checksum(item))
  }

  /** The tables and the three counters of a run under way. */
  datatype Progress = Progress(db: Db, saved: nat, rawSaved: nat, rawDuplicates: nat)

  function SaveItem(p: Progress, c: Collector, run: nat, item: Item, hashes: Hashes): Progress {
    var raw, record := RawOf(c, item, hashes), RecordOf(c, run, item, hashes);
    var known, conflict := raw in p.db.raws, HasConflict(p.db.records, record);
    Progress(Db(if conflict then p.db.records else p.db.records + [record],
        if known then p.db.raws else p.db.raws + [raw]),
             if conflict then p.saved else p.saved + 1,
             if known then p.rawSaved else p.rawSaved + 1,
             if known then p.rawDuplicates + 1 else p.rawDuplicates)
  }

  function SaveAll(db: Db, c: Collector, run: nat, items: seq<Item>, hashes: Hashes): Progress {
    if items == [] then Progress(db, 0, 0, 0)
    else SaveItem(SaveAll(db, c, run, items[..|items| - 1], hashes), c, run, items[|items| - 1], hashes)
  }

  datatype Outcome = Succeeded(saved: nat, rawSaved: nat, rawDuplicates: nat) | Failed

  class Store {
    var records: seq<Record>
    var raws: seq<Raw>

    ghost function View(): Db
      reads this
    {
      Db(records, raws)
    }

    /** `collected` is what the collector returns, or nothing if it raises; an exception at item `failAt` rolls back. */
    method RunCollector(c: Collector, run: nat, collected: Option<seq<Item>>, failAt: Option<nat>, hashes: Hashes)
      returns (outcome: Outcome)
      modifies this
      ensures outcome.Failed? <==> collected.None? || (failAt.Some? && failAt.value < |collected.value|)
      ensures outcome.Failed? ==> View() == old(View())
      ensures outcome.Succeeded? ==>
                Progress(View(), outcome.saved, outcome.rawSaved, outcome.rawDuplicates)
                == SaveAll(old(View()), c, run, collected.value, hashes)
    {
      hide HasConflict;
      if collected.None? {
        return Failed;
      }
      var items := collected.value;
      var recordsBefore, rawsBefore := records, raws;
      var saved, rawSaved, rawDuplicates := 0, 0, 0;
      for i := 0 to |items|
        invariant Progress(View(), saved, rawSaved, rawDuplicates) == SaveAll(old(View()), c, run, items[..i], hashes)
        invariant failAt.Some? ==> i <= failAt.value
      {
        if failAt == Some(i) {
          records, raws := recordsBefore, rawsBefore;
          return Failed;
        }
        assert items[..i + 1][..i] == items[..i];
        var raw, record := RawOf(c, items[i], hashes), RecordOf(c, run, items[i], hashes);
        if raw in raws {
          rawDuplicates := rawDuplicates + 1;
        } else {
          raws := raws + [raw];
          rawSaved := rawSaved + 1;
        }
        if !HasConflict(records, record) {
          records := records + [record];
          saved := saved + 1;
        }
      }
      assert items[..|items|] == items;
      return Succeeded(saved, rawSaved, rawDuplicates);
    }
  }

  // ----- What a run keeps

  /** No two records conflict and no raw row occurs twice. */
  ghost predicate Consistent(db: Db) {
    && (forall i, j :: 0 <= i < j < |db.records| ==> !Conflict(db.records[i], db.records[j]))
    && NoRepeats(db.raws)
  }

  /** Every item is a new or a known raw row, the counters count the rows added, nothing is removed, and the
      constraints hold. */
  lemma {:induction false} CountersAddUp(db: Db, c: Collector, run: nat, items: seq<Item>, hashes: Hashes)
    requires Consistent(db)
    ensures var p := SaveAll(db, c, run, items, hashes);
            && p.rawSaved + p.rawDuplicates == |items| && p.saved <= |items|
            && db.records <= p.db.records && |p.db.records| == |db.records| + p.saved
            && db.raws <= p.db.raws && |p.db.raws| == |db.raws| + p.rawSaved
            && Consistent(p.db)
  {
    if items != [] {
      CountersAddUp(db, c, run, items[..|items| - 1], hashes);
    }
  }

  /** Both of an item's rows are present. */
  ghost predicate Present(db: Db, c: Collector, item: Item, hashes: Hashes) {
    RawOf(c, item, hashes) in db.raws
        && (item.externalId.Some? ==> HasConflict(db.records, RecordOf(c, 0, item, hashes)))
  }

  lemma ItemPresent(p: Progress, c: Collector, run: nat, item: Item, hashes: Hashes)
    ensures Present(SaveItem(p, c, run, item, hashes).db, c, item, hashes)
  {
    var next := SaveItem(p, c, run, item, hashes).db;
    var record := RecordOf(c, run, item, hashes);
    if item.externalId.Some? {
      if HasConflict(p.db.records, record) {
        var i :| 0 <= i < |p.db.records| && Conflict(p.db.records[i], record);
        assert Conflict(next.records[i], RecordOf(c, 0, item, hashes));
      } else {
        assert Conflict(next.records[|p.db.records|], RecordOf(c, 0, item, hashes));
      }
    }
  }

  lemma PresentPersists(db: Db, later: Db, c: Collector, item: Item, hashes: Hashes)
    requires Present(db, c, item, hashes) && db.records <= later.records && db.raws <= later.raws
    ensures Present(later, c, item, hashes)
  {
    if item.externalId.Some? {
      var i :| 0 <= i < |db.records| && Conflict(db.records[i], RecordOf(c, 0, item, hashes));
      assert Conflict(later.records[i], RecordOf(c, 0, item, hashes));
    }
  }

  lemma {:induction false} AllPresent(db: Db, c: Collector, run: nat, items: seq<Item>, hashes: Hashes)
    ensures forall item :: item in items ==> Present(SaveAll(db, c, run, items, hashes).db, c, item, hashes)
  {
    if items != [] {
      hide Present;
      var m := |items| - 1;
      var before := SaveAll(db, c, run, items[..m], hashes);
      AllPresent(db, c, run, items[..m], hashes);
      ItemPresent(before, c, run, items[m], hashes);
      forall item | item in items
        ensures Present(SaveItem(before, c, run, items[m], hashes).db, c, item, hashes)
      {
        if item in items[..m] {
          PresentPersists(before.db, SaveItem(before, c, run, items[m], hashes).db, c, item, hashes);
        }
      }
    }
  }

  function Nameless(): Item -> bool {
    (item: Item) => item.externalId.None?
  }

  lemma {:induction false} PresentItemsRepeat(db: Db, c: Collector, run: nat, items: seq<Item>, hashes: Hashes)
    requires forall item :: item in items ==> Present(db, c, item, hashes)
    ensures var p := SaveAll(db, c, run, items, hashes);
            && p.saved == |Filter(items, Nameless())| && p.rawSaved == 0 && p.rawDuplicates == |items|
            && p.db.raws == db.raws && db.records <= p.db.records && |p.db.records| == |db.records| + p.saved
  {
    if items != [] {
      var m := |items| - 1;
      var before := SaveAll(db, c, run, items[..m], hashes);
      PresentItemsRepeat(db, c, run, items[..m], hashes);
      assert items[m] in items;
      PresentPersists(db, before.db, c, items[m], hashes);
      if items[m].externalId.Some? {
        var i :| 0 <= i < |before.db.records| && Conflict(before.db.records[i], RecordOf(c, 0, items[m], hashes));
        assert Conflict(before.db.records[i], RecordOf(c, run, items[m], hashes));
      }
    }
  }

  /** Collecting the same items again saves exactly those without an external id once more, so it changes nothing
      exactly when every item has one. */
  lemma {:induction false} RerunChangesNothingExactlyWhen(
    db: Db, c: Collector, first: nat, second: nat, items: seq<Item>, hashes: Hashes)
    ensures var once := SaveAll(db, c, first, items, hashes).db;
            var again := SaveAll(once, c, second, items, hashes);
            && again.saved == |Filter(items, Nameless())| && again.rawSaved == 0 && again.rawDuplicates == |items|
            && (again.db == once <==> forall item :: item in items ==> item.externalId.Some?)
  {
    hide SaveAll;
    var once := SaveAll(db, c, first, items, hashes).db;
    AllPresent(db, c, first, items, hashes);
    PresentItemsRepeat(once, c, second, items, hashes);
    FilterMembers(items, Nameless());
    if forall item :: item in items ==> item.externalId.Some? {
      FilterNone(items, Nameless());
    }
  }
}
