/** Seeding the default collection targets: insert or switch each seed, switch off other collectors on its URL.

    The call works through a session that does not flush before queries. New rows and flag changes wait in the
    session until the commit, while switching other collectors off is sent to the database at once, so a query
    sees the switched rows but neither the new rows nor the changed flags. */
module DefaultTargets {
  import opened Lists
  import opened Tables

  /** A row loaded into the session: its flag when it was read, and the flag the session now holds for it. */
  datatype Loaded = Loaded(read: bool, held: bool)

  /** The table as SQL sees it inside the transaction, the loaded rows by position, and the inserts not sent yet. */
  datatype Transaction = Transaction(rows: seq<Target>, loaded: map<nat, Loaded>, added: seq<Target>)

  predicate Listed(table: seq<Target>, seed: Target) {
    exists i :: 0 <= i < |table| && SameIdentity(table[i], seed)
  }

  /** The position of a row with the given identity. */
  function Find(table: seq<Target>, t: Target): (found: Option<nat>)
    ensures found.Some? ==> found.value < |table| && SameIdentity(table[found.value], t)
    ensures found.None? <==> !Listed(table, t)
  {
    if table == [] then None
    else if SameIdentity(table[|table| - 1], t) then Some(|table| - 1)
    else Find(table[..|table| - 1], t)
  }

  predicate Rival(row: Target, seed: Target) {
    SameUrl(row, seed) && row.collector != seed.collector
  }

  predicate HasRival(row: Target, seeds: seq<Target>) {
    exists i :: 0 <= i < |seeds| && Rival(row, seeds[i])
  }

  function SwitchedOff(row: Target, seed: Target): Target {
    if Rival(row, seed) then row.(active := false) else row
  }

  function SwitchOff(table: seq<Target>, seed: Target): (after: seq<Target>)
    ensures |after| == |table|
  {
    seq(|table|, i requires 0 <= i < |table| => SwitchedOff(table[i], seed))
  }

  function Visit(t: Transaction, seed: Target): Transaction {
    var found := Find(t.rows, seed);
    var rows := SwitchOff(t.rows, seed);
    if found.None? then Transaction(rows, t.loaded, t.added + [seed])
    else
      var read := if found.value in t.loaded then t.loaded[found.value].read else t.rows[found.value].active;
      Transaction(rows, t.loaded[found.value := Loaded(read, seed.active)], t.added)
  }

  function VisitAll(table: seq<Target>, seeds: seq<Target>): Transaction {
    if seeds == [] then Transaction(table, map[], [])
    else Visit(VisitAll(table, seeds[..|seeds| - 1]), seeds[|seeds| - 1])
  }

  /** What the commit sends for a row: the held flag if it differs from the one read. */
  function Flushed(row: Target, k: nat, loaded: map<nat, Loaded>): Target {
    if k in loaded && loaded[k].read != loaded[k].held then row.(active := loaded[k].held) else row
  }

  function Flush(t: Transaction): (after: seq<Target>)
    ensures |after| == |t.rows| + |t.added|
  {
    seq(|t.rows|, k requires 0 <= k < |t.rows| => Flushed(t.rows[k], k, t.loaded)) + t.added
  }

  /** The committed table, or nothing if the commit violates the unique constraint. */
  function Ensure(table: seq<Target>, seeds: seq<Target>): Option<seq<Target>> {
    var after := Flush(VisitAll(table, seeds));
    if UniqueTargets(after) then Some(after) else None
  }

  class Session {
    var rows: seq<Target>
    var loaded: map<nat, Loaded>
    var added: seq<Target>

    ghost function View(): Transaction
      reads this
    {
      Transaction(rows, loaded, added)
    }

    /** The row of a seed's identity; the unique constraint leaves at most one. */
    method FindExact(seed: Target) returns (found: Option<nat>)
      requires UniqueTargets(rows)
      ensures found == Find(rows, seed)
    {
      for i := 0 to |rows|
        invariant forall j :: 0 <= j < i ==> !SameIdentity(rows[j], seed)
      {
        if SameIdentity(rows[i], seed) {
          OnlyOneFound(rows, seed, i);
          return Some(i);
        }
      }
      return None;
    }

    method EnsureSeed(seed: Target) returns (created: nat)
      requires UniqueTargets(rows)
      modifies this
      ensures View() == Visit(old(View()), seed)
      ensures created == |added| - |old(added)|
    {
      hide Find, UniqueTargets;
      ghost var before := rows;
      created := 0;
      var exact := FindExact(seed);
      if exact.None? {
        added := added + [seed];
        created := 1;
      } else {
        var k := exact.value;
        if k !in loaded {
          loaded := loaded[k := Loaded(rows[k].active, rows[k].active)];
        }
        if !loaded[k].held && seed.active {
          loaded := loaded[k := loaded[k].(held := true)];
        } else if loaded[k].held && !seed.active {
          loaded := loaded[k := loaded[k].(held := false)];
        }
      }
      for i := 0 to |rows|
        invariant |rows| == |before|
        invariant loaded == Visit(old(View()), seed).loaded && added == Visit(old(View()), seed).added
        invariant forall j :: i <= j < |rows| ==> rows[j] == before[j]
        invariant forall j :: 0 <= j < i ==> rows[j] == SwitchedOff(before[j], seed)
      {
        if SameUrl(rows[i], seed) && rows[i].collector != seed.collector && rows[i].active {
          rows := rows[i := rows[i].(active := false)];
        }
      }
      assert rows == SwitchOff(before, seed);
    }

    /** Sends the waiting changes; a violated constraint fails the commit. */
    method Commit(before: seq<Target>) returns (ok: bool)
      modifies this
      ensures ok == UniqueTargets(Flush(old(View())))
      ensures rows == if ok then Flush(old(View())) else before
    {
      ghost var start := View();
      for k := 0 to |rows|
        invariant |rows| == |start.rows| && loaded == start.loaded && added == start.added
        invariant forall j :: k <= j < |rows| ==> rows[j] == start.rows[j]
        invariant forall j :: 0 <= j < k ==> rows[j] == Flushed(start.rows[j], j, start.loaded)
      {
        if k in loaded && loaded[k].read != loaded[k].held {
          rows := rows[k := rows[k].(active := loaded[k].held)];
        }
      }
      rows := rows + added;
      assert rows == Flush(start);
      ok := UniqueTargets(rows);
      if !ok {
        rows := before;
      }
    }

    /** Applies every seed in order and commits; returns the number of rows created, or nothing if the commit fails. */
    method EnsureDefaultCollectionTargets(seeds: seq<Target>) returns (created: Option<nat>)
      requires UniqueTargets(rows)
      modifies this
      ensures var after := Ensure(old(rows), seeds);
              if after.None? then created.None? && rows == old(rows)
              else rows == after.value && created == Some(|rows| - |old(rows)|)
    {
      var before, count := rows, 0;
      loaded, added := map[], [];
      for i := 0 to |seeds|
        invariant View() == VisitAll(before, seeds[..i])
        invariant UniqueTargets(rows) && |rows| == |before| && count == |added|
      {
        assert seeds[..i + 1][..i] == seeds[..i];
        VisitedRows(before, seeds[..i + 1]);
        var one := EnsureSeed(seeds[i]);
        count := count + one;
      }
      assert seeds[..|seeds|] == seeds;
      var ok := Commit(before);
      created := if ok then Some(count) else None;
    }
  }

  lemma OnlyOneFound(table: seq<Target>, t: Target, k: nat)
    requires UniqueTargets(table) && k < |table| && SameIdentity(table[k], t)
    ensures Find(table, t) == Some(k)
  {
    var found := Find(table, t).value;
    assert SameIdentity(table[found], table[k]);
  }

  // ----- What the whole seed list does to the rows already there

  /** Rows keep their place and identity; those with a rival seed are switched off as the seeds are visited. */
  lemma {:induction false} VisitedRows(table: seq<Target>, seeds: seq<Target>)
    ensures var rows := VisitAll(table, seeds).rows;
            && |rows| == |table|
            && (forall k :: 0 <= k < |table| ==>
                 rows[k] == table[k].(active := table[k].active && !HasRival(table[k], seeds)))
            && (UniqueTargets(table) ==> UniqueTargets(rows))
  {
    if seeds != [] {
      var m := |seeds| - 1;
      VisitedRows(table, seeds[..m]);
      forall k | 0 <= k < |table|
        ensures HasRival(table[k], seeds) == (HasRival(table[k], seeds[..m]) || Rival(table[k], seeds[m]))
      {
        RivalSnoc(table[k], seeds);
      }
    }
  }

  lemma RivalSnoc(row: Target, seeds: seq<Target>)
    requires seeds != []
    ensures HasRival(row, seeds) == (HasRival(row, seeds[..|seeds| - 1]) || Rival(row, seeds[|seeds| - 1]))
  {
    var m := |seeds| - 1;
    if HasRival(row, seeds[..m]) {
      var i :| 0 <= i < m && Rival(row, seeds[..m][i]);
      assert Rival(row, seeds[i]);
    }
    if HasRival(row, seeds) {
      var i :| 0 <= i <= m && Rival(row, seeds[i]);
      assert i < m ==> Rival(row, seeds[..m][i]);
    }
  }

  ghost predicate DistinctKeys(seeds: seq<Target>) {
    forall i, j :: 0 <= i < j < |seeds| ==> !SameIdentity(seeds[i], seeds[j])
  }

  /** A row is loaded exactly when it has a seed, with the flag it had after the earlier seeds. */
  lemma {:induction false} LoadedRow(table: seq<Target>, seeds: seq<Target>, k: nat)
    requires UniqueTargets(table) && DistinctKeys(seeds) && k < |table|
    ensures var loaded, e := VisitAll(table, seeds).loaded, Find(seeds, table[k]);
            && (k in loaded <==> e.Some?)
            && (e.Some? ==> loaded[k] == Loaded(table[k].active
               && !HasRival(table[k], seeds[..e.value]), seeds[e.value].active))
  {
    if seeds != [] {
      hide HasRival, SwitchOff, Listed;
      var m := |seeds| - 1;
      var before := VisitAll(table, seeds[..m]);
      LoadedRow(table, seeds[..m], k);
      VisitedRows(table, seeds[..m]);
      if SameIdentity(table[k], seeds[m]) {
        OnlyOneFound(before.rows, seeds[m], k);
        NotFoundBefore(seeds, table[k]);
      } else {
        var e := Find(seeds[..m], table[k]);
        assert e.Some? ==> seeds[..m][..e.value] == seeds[..e.value];
      }
    }
  }

  lemma NotFoundBefore(seeds: seq<Target>, row: Target)
    requires DistinctKeys(seeds) && seeds != [] && SameIdentity(row, seeds[|seeds| - 1])
    ensures Find(seeds, row) == Some(|seeds| - 1) && Find(seeds[..|seeds| - 1], row) == None
  {
    var m := |seeds| - 1;
    forall i | 0 <= i < m
      ensures !SameIdentity(seeds[..m][i], row)
    {
      assert !SameIdentity(seeds[i], seeds[m]);
    }
  }

  /** The flag a row ends up with. A row with an active seed stays off only if it was on, no earlier seed has another
      collector on its URL, and a later one has: the session then sees nothing to change, but the later seed
      switches the row off. */
  predicate FinalFlag(row: Target, seeds: seq<Target>) {
    var e := Find(seeds, row);
    if e.None? then row.active && !HasRival(row, seeds)
    else seeds[e.value].active && !(row.active && !HasRival(row, seeds[..e.value]) &&
          HasRival(row, seeds[e.value + 1..]))
  }

  lemma RivalSplit(row: Target, seeds: seq<Target>, e: nat)
    requires e < |seeds| && !Rival(row, seeds[e])
    ensures HasRival(row, seeds) == (HasRival(row, seeds[..e]) || HasRival(row, seeds[e + 1..]))
  {
    if HasRival(row, seeds) {
      var i :| 0 <= i < |seeds| && Rival(row, seeds[i]);
      assert i < e ==> Rival(row, seeds[..e][i]);
      assert i > e ==> Rival(row, seeds[e + 1..][i - e - 1]);
    }
    if HasRival(row, seeds[..e]) {
      var i :| 0 <= i < e && Rival(row, seeds[..e][i]);
      assert Rival(row, seeds[i]);
    }
    if HasRival(row, seeds[e + 1..]) {
      var i :| 0 <= i < |seeds| - e - 1 && Rival(row, seeds[e + 1..][i]);
      assert Rival(row, seeds[e + 1 + i]);
    }
  }

  /** Existing rows keep their place and identity and get their final flag; rows off every seeded URL are untouched. */
  lemma {:induction false} ExistingRowsSettle(table: seq<Target>, seeds: seq<Target>, k: nat)
    requires UniqueTargets(table) && DistinctKeys(seeds) && k < |table|
    ensures var after := Flush(VisitAll(table, seeds));
            && |after| >= |table|
            && after[k] == table[k].(active := FinalFlag(table[k], seeds))
            && ((forall s :: s in seeds ==> !SameUrl(table[k], s)) ==> after[k] == table[k])
  {
    VisitedRows(table, seeds);
    LoadedRow(table, seeds, k);
    var e := Find(seeds, table[k]);
    if e.Some? {
      RivalSplit(table[k], seeds, e.value);
      assert seeds[e.value] in seeds;
    }
  }

  // ----- New rows and the unique constraint

  function Missing(table: seq<Target>): Target -> bool {
    (s: Target) => !Listed(table, s)
  }

  /** The rows added are the seeds the table did not list, in seed order and with the seed's own flag. */
  lemma {:induction false} NewRowsAreSeeds(table: seq<Target>, seeds: seq<Target>)
    ensures var t := VisitAll(table, seeds);
            && t.added == Filter(seeds, Missing(table))
            && |t.rows| == |table| && Flush(t)[|table|..] == t.added
  {
    VisitedRows(table, seeds);
    if seeds != [] {
      var m := |seeds| - 1;
      NewRowsAreSeeds(table, seeds[..m]);
      VisitedRows(table, seeds[..m]);
      SameListed(table, VisitAll(table, seeds[..m]).rows, seeds[m]);
    }
  }

  lemma SameListed(a: seq<Target>, b: seq<Target>, s: Target)
    requires |a| == |b| && forall k :: 0 <= k < |a| ==> SameIdentity(a[k], b[k])
    ensures Listed(a, s) == Listed(b, s)
  {
    if Listed(a, s) {
      var k :| 0 <= k < |a| && SameIdentity(a[k], s);
      assert SameIdentity(b[k], s);
    }
    if Listed(b, s) {
      var k :| 0 <= k < |b| && SameIdentity(b[k], s);
      assert SameIdentity(a[k], s);
    }
  }

  lemma UniqueSnoc(rows: seq<Target>, row: Target)
    ensures UniqueTargets(rows + [row]) <==> UniqueTargets(rows) && !Listed(rows, row)
  {
    var all := rows + [row];
    if UniqueTargets(all) {
      forall i, j | 0 <= i < j < |rows|
        ensures !SameIdentity(rows[i], rows[j])
      {
        assert !SameIdentity(all[i], all[j]);
      }
      forall i | 0 <= i < |rows|
        ensures !SameIdentity(rows[i], row)
      {
        assert !SameIdentity(all[i], all[|rows|]);
      }
    }
  }

  lemma {:induction false} UniqueConcat(a: seq<Target>, b: seq<Target>)
    requires UniqueTargets(a) && forall s :: s in b ==> !Listed(a, s)
    ensures UniqueTargets(a + b) <==> UniqueTargets(b)
  {
    if b == [] {
      assert a + b == a;
    } else {
      var m := |b| - 1;
      assert b == b[..m] + [b[m]] && a + b == (a + b[..m]) + [b[m]];
      UniqueConcat(a, b[..m]);
      UniqueSnoc(a + b[..m], b[m]);
      UniqueSnoc(b[..m], b[m]);
      assert b[m] in b;
      if Listed(b[..m], b[m]) {
        var i :| 0 <= i < m && SameIdentity(b[..m][i], b[m]);
        assert SameIdentity((a + b[..m])[|a| + i], b[m]);
      }
    }
  }

  /** Two seeds of one identity that the table does not list. */
  ghost predicate Clashes(table: seq<Target>, seeds: seq<Target>) {
    exists i, j :: 0 <= i < j < |seeds| && SameIdentity(seeds[i], seeds[j]) && !Listed(table, seeds[i])
  }

  lemma ClashSnoc(table: seq<Target>, seeds: seq<Target>)
    requires seeds != []
    ensures var m := |seeds| - 1;
            Clashes(table, seeds)
            <==> Clashes(table, seeds[..m]) || (!Listed(table, seeds[m]) && Listed(seeds[..m], seeds[m]))
  {
    var m := |seeds| - 1;
    if Clashes(table, seeds) {
      var i, j :| 0 <= i < j < |seeds| && SameIdentity(seeds[i], seeds[j]) && !Listed(table, seeds[i]);
      if j < m {
        assert SameIdentity(seeds[..m][i], seeds[..m][j]) && !Listed(table, seeds[..m][i]);
      } else {
        assert SameIdentity(seeds[..m][i], seeds[m]);
        SameIdentityListed(table, seeds[i], seeds[m]);
      }
    }
    if Clashes(table, seeds[..m]) {
      var i, j :| 0 <= i < j < m && SameIdentity(seeds[..m][i], seeds[..m][j]) && !Listed(table, seeds[..m][i]);
      assert SameIdentity(seeds[i], seeds[j]);
    }
    if !Listed(table, seeds[m]) && Listed(seeds[..m], seeds[m]) {
      var i :| 0 <= i < m && SameIdentity(seeds[..m][i], seeds[m]);
      SameIdentityListed(table, seeds[m], seeds[i]);
      assert SameIdentity(seeds[i], seeds[m]) && !Listed(table, seeds[i]);
    }
  }

  /** A seed the table lacks has an earlier twin exactly when it has one among the seeds the table lacks. */
  lemma ListedAmongMissing(table: seq<Target>, seeds: seq<Target>, s: Target)
    requires !Listed(table, s)
    ensures Listed(Filter(seeds, Missing(table)), s) <==> Listed(seeds, s)
  {
    hide Filter;
    var kept := Filter(seeds, Missing(table));
    FilterMembers(seeds, Missing(table));
    if Listed(kept, s) {
      var i :| 0 <= i < |kept| && SameIdentity(kept[i], s);
      assert kept[i] in kept;
      var j :| 0 <= j < |seeds| && seeds[j] == kept[i];
    }
    if Listed(seeds, s) {
      var i :| 0 <= i < |seeds| && SameIdentity(seeds[i], s);
      SameIdentityListed(table, s, seeds[i]);
      assert seeds[i] in kept;
    }
  }

  lemma {:induction false} AddedUnique(table: seq<Target>, seeds: seq<Target>)
    ensures UniqueTargets(Filter(seeds, Missing(table))) <==> !Clashes(table, seeds)
  {
    if seeds != [] {
      hide Filter, Listed, UniqueTargets, Clashes;
      var m := |seeds| - 1;
      AddedUnique(table, seeds[..m]);
      ClashSnoc(table, seeds);
      assert seeds == seeds[..m] + [seeds[m]];
      FilterSnoc(seeds[..m], seeds[m], Missing(table));
      UniqueSnoc(Filter(seeds[..m], Missing(table)), seeds[m]);
      if !Listed(table, seeds[m]) {
        ListedAmongMissing(table, seeds[..m], seeds[m]);
      }
    }
  }

  lemma SameIdentityListed(table: seq<Target>, s: Target, t: Target)
    requires SameIdentity(s, t) && !Listed(table, s)
    ensures !Listed(table, t)
  {
    forall k | 0 <= k < |table|
      ensures !SameIdentity(table[k], t)
    {
      assert !SameIdentity(table[k], s);
    }
  }

  /** The call fails exactly when two seeds share an identity the table does not have yet: neither insert is visible
      to the query of the other. */
  lemma FailsExactlyWhen(table: seq<Target>, seeds: seq<Target>)
    requires UniqueTargets(table)
    ensures Ensure(table, seeds).None? <==> Clashes(table, seeds)
  {
    hide Flush, VisitAll;
    var t := VisitAll(table, seeds);
    var after := Flush(t);
    NewRowsAreSeeds(table, seeds);
    KeptIdentities(table, seeds);
    AddedUnique(table, seeds);
    FilterMembers(seeds, Missing(table));
    var kept := after[..|table|];
    assert after == kept + t.added;
    forall s | s in t.added
      ensures !Listed(kept, s)
    {
      SameListed(table, kept, s);
    }
    UniqueConcat(kept, t.added);
  }

  /** The commit changes no row's identity. */
  lemma KeptIdentities(table: seq<Target>, seeds: seq<Target>)
    requires UniqueTargets(table)
    ensures var after := Flush(VisitAll(table, seeds));
            && |table| <= |after| && UniqueTargets(after[..|table|])
            && forall k :: 0 <= k < |table| ==> SameIdentity(table[k], after[..|table|][k])
  {
    VisitedRows(table, seeds);
  }

  lemma DistinctNeverFail(table: seq<Target>, seeds: seq<Target>)
    requires UniqueTargets(table) && DistinctKeys(seeds)
    ensures Ensure(table, seeds) == Some(Flush(VisitAll(table, seeds)))
  {
    FailsExactlyWhen(table, seeds);
  }

  /** Afterwards every seed is listed, and a row with a seed but not there before carries the seed's flag. */
  lemma EverySeedListed(table: seq<Target>, seeds: seq<Target>, s: Target)
    requires UniqueTargets(table) && DistinctKeys(seeds) && s in seeds
    ensures Listed(Flush(VisitAll(table, seeds)), s)
  {
    var after := Flush(VisitAll(table, seeds));
    NewRowsAreSeeds(table, seeds);
    FilterMembers(seeds, Missing(table));
    if Listed(table, s) {
      var k :| 0 <= k < |table| && SameIdentity(table[k], s);
      ExistingRowsSettle(table, seeds, k);
      assert SameIdentity(after[k], s);
    } else {
      var i :| 0 <= i < |after[|table|..]| && after[|table|..][i] == s;
      assert SameIdentity(after[|table| + i], s);
    }
  }

  /** Every row afterwards: an old row with its final flag, or a new row with its seed's flag. */
  lemma {:induction false} RowAfter(table: seq<Target>, seeds: seq<Target>, k: nat)
    requires UniqueTargets(table) && DistinctKeys(seeds) && k < |Flush(VisitAll(table, seeds))|
    ensures var row := Flush(VisitAll(table, seeds))[k];
            if k < |table| then row == table[k].(active := FinalFlag(table[k], seeds)) else row in seeds
  {
    if k < |table| {
      ExistingRowsSettle(table, seeds, k);
    } else {
      NewRowsAreSeeds(table, seeds);
      FilterMembers(seeds, Missing(table));
      assert Flush(VisitAll(table, seeds))[k] == Flush(VisitAll(table, seeds))[|table|..][k - |table|];
    }
  }

  // ----- Convergence

  /** Every seed's row carries the seed's flag, and no other collector on its URL is active. */
  ghost predicate Converged(table: seq<Target>, seeds: seq<Target>) {
    forall s :: s in seeds ==>
      && Listed(table, s)
      && (forall k :: 0 <= k < |table| && SameIdentity(table[k], s) ==> table[k].active == s.active)
      && (forall k :: 0 <= k < |table| && Rival(table[k], s) ==> !table[k].active)
  }

  /** No URL is seeded for two collectors unless both are switched off. */
  ghost predicate Uncontested(seeds: seq<Target>) {
    forall i, j :: 0 <= i < |seeds| && 0 <= j < |seeds| && Rival(seeds[i], seeds[j]) ==> !seeds[i].active
  }

  /** Among distinct keys, the seed found for a row of its identity is that seed. */
  lemma FoundSeed(seeds: seq<Target>, row: Target, j: nat)
    requires DistinctKeys(seeds) && j < |seeds| && SameIdentity(row, seeds[j])
    ensures Find(seeds, row) == Some(j)
  {
    var e := Find(seeds, row).value;
    assert SameIdentity(seeds[e], seeds[j]);
  }

  lemma RivalsOfSeed(seeds: seq<Target>, row: Target, e: nat, part: seq<Target>)
    requires Uncontested(seeds) && e < |seeds| && SameIdentity(row, seeds[e]) && seeds[e].active
    requires forall s :: s in part ==> s in seeds
    ensures !HasRival(row, part)
  {
    forall i | 0 <= i < |part|
      ensures !Rival(row, part[i])
    {
      assert part[i] in part;
      var j :| 0 <= j < |seeds| && seeds[j] == part[i];
      assert !Rival(seeds[e], seeds[j]);
    }
  }

  /** With uncontested seeds a row on a seeded URL ends active exactly when its own seed is active. */
  lemma UncontestedFlag(row: Target, seeds: seq<Target>, j: nat)
    requires DistinctKeys(seeds) && Uncontested(seeds) && j < |seeds| && SameUrl(row, seeds[j])
    ensures row.collector == seeds[j].collector ==> FinalFlag(row, seeds) == seeds[j].active
    ensures row.collector != seeds[j].collector ==> !FinalFlag(row, seeds)
  {
    if row.collector == seeds[j].collector {
      FoundSeed(seeds, row, j);
      if seeds[j].active {
        RivalsOfSeed(seeds, row, j, seeds[j + 1..]);
      }
    } else {
      assert Rival(row, seeds[j]);
      var e := Find(seeds, row);
      if e.Some? {
        assert Rival(seeds[e.value], seeds[j]);
      }
    }
  }

  lemma {:induction false} UncontestedConverges(table: seq<Target>, seeds: seq<Target>)
    requires UniqueTargets(table) && DistinctKeys(seeds) && Uncontested(seeds)
    ensures Converged(Flush(VisitAll(table, seeds)), seeds)
  {
    hide FinalFlag, Flush, VisitAll;
    var after := Flush(VisitAll(table, seeds));
    forall s | s in seeds
      ensures Listed(after, s)
    {
      EverySeedListed(table, seeds, s);
    }
    forall s, k | s in seeds && 0 <= k < |after| && SameUrl(after[k], s)
      ensures if after[k].collector == s.collector then after[k].active == s.active else !after[k].active
    {
      var j :| 0 <= j < |seeds| && seeds[j] == s;
      RowAfter(table, seeds, k);
      if k < |table| {
        UncontestedFlag(table[k], seeds, j);
      } else {
        var i :| 0 <= i < |seeds| && seeds[i] == after[k];
        assert Rival(seeds[i], seeds[j]) || SameIdentity(seeds[i], seeds[j]);
      }
    }
  }

  /** With distinct keys the call always succeeds, and it converges, from any table, exactly when no URL is contested
      by an active seed. */
  lemma ConvergesExactlyWhen(table: seq<Target>, seeds: seq<Target>)
    requires UniqueTargets(table) && DistinctKeys(seeds)
    ensures var after := Ensure(table, seeds);
            after.Some? && (Converged(after.value, seeds) <==> Uncontested(seeds))
  {
    DistinctNeverFail(table, seeds);
    if Uncontested(seeds) {
      UncontestedConverges(table, seeds);
    }
    var after := Ensure(table, seeds).value;
    if Converged(after, seeds) {
      forall i, j | 0 <= i < |seeds| && 0 <= j < |seeds| && Rival(seeds[i], seeds[j])
        ensures !seeds[i].active
      {
        assert seeds[i] in seeds && seeds[j] in seeds;
        var k :| 0 <= k < |after| && SameIdentity(after[k], seeds[i]);
        assert Rival(after[k], seeds[j]);
      }
    }
  }

  // ----- The second call

  /** The first seed on its URL is active although a later one names another collector. */
  ghost predicate Flips(seeds: seq<Target>, i: nat)
    requires i < |seeds|
  {
    seeds[i].active && !HasRival(seeds[i], seeds[..i]) && HasRival(seeds[i], seeds[i + 1..])
  }

  lemma SameRivals(a: Target, b: Target, seeds: seq<Target>)
    requires SameIdentity(a, b)
    ensures HasRival(a, seeds) == HasRival(b, seeds)
  {
    assert forall i :: 0 <= i < |seeds| ==> Rival(a, seeds[i]) == Rival(b, seeds[i]);
  }

  /** The final flag of the row of seed `j`. */
  lemma SeedRowFlag(seeds: seq<Target>, row: Target, j: nat)
    requires DistinctKeys(seeds) && j < |seeds| && SameIdentity(row, seeds[j])
    ensures FinalFlag(row, seeds) == if Flips(seeds, j) then !row.active else seeds[j].active
  {
    FoundSeed(seeds, row, j);
    SameRivals(row, seeds[j], seeds[..j]);
    SameRivals(row, seeds[j], seeds[j + 1..]);
  }

  /** The flag of a row without a flipping seed no longer changes once set. */
  lemma FlagSettles(row: Target, seeds: seq<Target>)
    requires DistinctKeys(seeds) && forall i :: 0 <= i < |seeds| ==> !Flips(seeds, i)
    ensures FinalFlag(row.(active := FinalFlag(row, seeds)), seeds) == FinalFlag(row, seeds)
  {
    var again := row.(active := FinalFlag(row, seeds));
    SameRivals(row, again, seeds);
    if Listed(seeds, row) {
      var j := Find(seeds, row).value;
      SeedRowFlag(seeds, row, j);
      SeedRowFlag(seeds, again, j);
    } else {
      forall j | 0 <= j < |seeds|
        ensures !SameIdentity(seeds[j], again)
      {
        assert !SameIdentity(seeds[j], row);
      }
    }
  }

  lemma NothingCreated(table: seq<Target>, seeds: seq<Target>)
    requires forall s :: s in seeds ==> Listed(table, s)
    ensures |Flush(VisitAll(table, seeds))| == |table|
  {
    NewRowsAreSeeds(table, seeds);
    FilterNone(seeds, Missing(table));
  }

  /** Each call turns the row of a flipping seed the other way. */
  lemma FirstSeedFlips(table: seq<Target>, seeds: seq<Target>, i: nat, k: nat)
    requires UniqueTargets(table) && DistinctKeys(seeds)
    requires i < |seeds| && Flips(seeds, i) && k < |table| && SameIdentity(table[k], seeds[i])
    ensures var after := Flush(VisitAll(table, seeds));
            k < |after| && after[k].active == !table[k].active
  {
    ExistingRowsSettle(table, seeds, k);
    SeedRowFlag(seeds, table[k], i);
  }

  /** A second call creates nothing; it changes nothing exactly when no seed flips, as when no URL is contested. */
  lemma SecondCallChangesNothingExactlyWhen(table: seq<Target>, seeds: seq<Target>)
    requires UniqueTargets(table) && DistinctKeys(seeds)
    ensures Ensure(table, seeds).Some?
    ensures var once := Ensure(table, seeds).value;
            var twice := Ensure(once, seeds);
            && twice.Some? && |twice.value| == |once|
            && (twice.value == once <==> forall i :: 0 <= i < |seeds| ==> !Flips(seeds, i))
    ensures Uncontested(seeds) ==> forall i :: 0 <= i < |seeds| ==> !Flips(seeds, i)
  {
    hide FinalFlag, Flush, VisitAll;
    DistinctNeverFail(table, seeds);
    var once := Ensure(table, seeds).value;
    DistinctNeverFail(once, seeds);
    var twice := Ensure(once, seeds).value;
    forall s | s in seeds
      ensures Listed(once, s)
    {
      EverySeedListed(table, seeds, s);
    }
    NothingCreated(once, seeds);
    if i :| 0 <= i < |seeds| && Flips(seeds, i) {
      assert seeds[i] in seeds;
      var k :| 0 <= k < |once| && SameIdentity(once[k], seeds[i]);
      FirstSeedFlips(once, seeds, i, k);
    } else {
      forall k | 0 <= k < |once|
        ensures twice[k] == once[k]
      {
        SecondFlag(table, seeds, k);
      }
      assert twice == once;
    }
    UncontestedNeverFlips(seeds);
  }

  /** Two active collectors seeded on one URL: no call converges, and every call changes the table again. */
  lemma ContestedPairNeverSettles(table: seq<Target>, a: Target, b: Target)
    requires UniqueTargets(table) && Rival(a, b) && a.active
    ensures var once := Ensure(table, [a, b]);
            && once.Some? && !Converged(once.value, [a, b])
            && Ensure(once.value, [a, b]).Some? && Ensure(once.value, [a, b]).value != once.value
  {
    hide FinalFlag, Flush, VisitAll;
    var seeds := [a, b];
    assert Rival(seeds[0], seeds[1]) && Rival(seeds[0], seeds[1..][0]);
    assert Flips(seeds, 0);
    ConvergesExactlyWhen(table, seeds);
    SecondCallChangesNothingExactlyWhen(table, seeds);
  }

  lemma SecondFlag(table: seq<Target>, seeds: seq<Target>, k: nat)
    requires UniqueTargets(table) && DistinctKeys(seeds) && forall i :: 0 <= i < |seeds| ==> !Flips(seeds, i)
    requires UniqueTargets(Flush(VisitAll(table, seeds))) && k < |Flush(VisitAll(table, seeds))|
    ensures var once := Flush(VisitAll(table, seeds));
            k < |Flush(VisitAll(once, seeds))| && Flush(VisitAll(once, seeds))[k] == once[k]
  {
    hide FinalFlag, Flush, VisitAll;
    var once := Flush(VisitAll(table, seeds));
    RowAfter(table, seeds, k);
    ExistingRowsSettle(once, seeds, k);
    if k < |table| {
      FlagSettles(table[k], seeds);
    } else {
      var j :| 0 <= j < |seeds| && seeds[j] == once[k];
      SeedRowFlag(seeds, once[k], j);
    }
  }

  lemma UncontestedNeverFlips(seeds: seq<Target>)
    ensures Uncontested(seeds) ==> forall i :: 0 <= i < |seeds| ==> !Flips(seeds, i)
  {
    if Uncontested(seeds) {
      forall i | 0 <= i < |seeds|
        ensures !Flips(seeds, i)
      {
        if seeds[i].active {
          RivalsOfSeed(seeds, seeds[i], i, seeds[i + 1..]);
        }
      }
    }
  }

  /** After seeding a row is active only if it was before and is on no other collector's URL, or is an active seed's
      row. */
  lemma ActiveAfterSeeding(table: seq<Target>, seeds: seq<Target>, k: nat)
    requires UniqueTargets(table) && DistinctKeys(seeds)
    requires k < |Flush(VisitAll(table, seeds))| && Flush(VisitAll(table, seeds))[k].active
    ensures var row := Flush(VisitAll(table, seeds))[k];
            || (k < |table| && row == table[k] && !HasRival(row, seeds))
            || (exists s :: s in seeds && s.active && SameIdentity(row, s))
  {
    hide Flush, VisitAll;
    var row := Flush(VisitAll(table, seeds))[k];
    RowAfter(table, seeds, k);
    if k < |table| {
      var e := Find(seeds, table[k]);
      if e.Some? {
        assert SameIdentity(row, seeds[e.value]) && seeds[e.value] in seeds;
      }
    } else {
      assert SameIdentity(row, row);
    }
  }

  /** An active seed's row ends active unless it was active before. */
  lemma ActiveSeedActivates(table: seq<Target>, seeds: seq<Target>, s: Target, k: nat)
    requires UniqueTargets(table) && DistinctKeys(seeds) && s in seeds && s.active
    requires k < |Flush(VisitAll(table, seeds))| && SameIdentity(Flush(VisitAll(table, seeds))[k], s)
    ensures Flush(VisitAll(table, seeds))[k].active || (k < |table| && SameIdentity(table[k], s) && table[k].active)
  {
    hide Flush, VisitAll;
    RowAfter(table, seeds, k);
    var j :| 0 <= j < |seeds| && seeds[j] == s;
    if k < |table| {
      FoundSeed(seeds, table[k], j);
    } else {
      var i :| 0 <= i < |seeds| && seeds[i] == Flush(VisitAll(table, seeds))[k];
      FoundSeed(seeds, s, i);
      FoundSeed(seeds, s, j);
    }
  }
}
