/** The price feed: keyset paging over the full history, and the latest snapshot per product. */
module PriceFeed {
  import opened Lists
  import opened Sorting

  /** Ids compare in the database's order, here the order of integers. */
  datatype Product = Product(id: int, canonicalId: Option<int>, price: Option<real>, store: Option<string>,
      collectedAt: int)

  datatype Cursor = Cursor(collectedAt: int, id: int)

  /** A cursor parameter: absent, undecodable, or the position it decodes to. */
  datatype CursorText = Absent | Malformed | Encoded(position: Cursor)

  function Decode(text: CursorText): Option<Cursor> {
    if text.Encoded? then Some(text.position) else None
  }

  /** The rows both modes select. */
  function Selected(since: int, source: Option<string>): Product -> bool {
    (p: Product) => p.price.Some? && p.canonicalId.Some? && p.collectedAt >= since
                    && (source.None? || source.value == "" || p.store == source)
  }

  /** Strictly after the cursor in feed order; everything is after no cursor. */
  function After(cursor: Option<Cursor>): Product -> bool {
    (p: Product) => cursor.None? || p.collectedAt < cursor.value.collectedAt
                    || (p.collectedAt == cursor.value.collectedAt && p.id < cursor.value.id)
  }

  function SelectedAfter(since: int, source: Option<string>, cursor: Option<Cursor>): Product -> bool {
    (p: Product) => Selected(since, source)(p) && After(cursor)(p)
  }

  /** ORDER BY collected_at DESC, id DESC. */
  predicate Newer(a: Product, b: Product) {
    a.collectedAt > b.collectedAt || (a.collectedAt == b.collectedAt && a.id >= b.id)
  }

  function Take<T>(s: seq<T>, n: nat): seq<T> {
    if |s| <= n then s else s[..n]
  }

  function CursorOf(p: Product): Cursor {
    Cursor(p.collectedAt, p.id)
  }

  datatype Page = Page(items: seq<Product>, next: CursorText)

  /** One request in full-history mode. */
  function HistoryPage(table: seq<Product>, since: int, source: Option<string>, limit: nat, cursor: CursorText): Page
    requires limit >= 1
  {
    var items := Take(Sort(Filter(table, SelectedAfter(since, source, Decode(cursor))), Newer), limit);
    Page(items, if |items| == limit then Encoded(CursorOf(items[|items| - 1])) else Absent)
  }

  /** The whole filtered history in feed order: the query without cursor or limit. */
  function History(table: seq<Product>, since: int, source: Option<string>): seq<Product> {
    Sort(Filter(table, Selected(since, source)), Newer)
  }

  /** Ids are primary keys. */
  ghost predicate UniqueIds(table: seq<Product>) {
    forall i, j :: 0 <= i < j < |table| ==> table[i].id != table[j].id
  }

  lemma NewerIsOrder()
    ensures TotalPreorder(Newer)
  {
  }

  lemma TiesAreEqual(table: seq<Product>)
    requires UniqueIds(table)
    ensures forall x, y :: x in table && y in table && Newer(x, y) && Newer(y, x) ==> x == y
  {
  }

  /** What a cursor leaves: the history, filtered to the rows after it. */
  function Remaining(table: seq<Product>, since: int, source: Option<string>, cursor: Option<Cursor>): seq<Product> {
    Filter(History(table, since, source), After(cursor))
  }

  lemma PageIsPrefixOfRemaining(table: seq<Product>, since: int, source: Option<string>, limit: nat, cursor: CursorText)
    requires limit >= 1 && UniqueIds(table)
    ensures HistoryPage(table, since, source, limit, cursor).items
         == Take(Remaining(table, since, source, Decode(cursor)), limit)
  {
    var c := Decode(cursor);
    FilterAnd(table, Selected(since, source), After(c), SelectedAfter(since, source, c));
    FilterMembers(table, Selected(since, source));
    TiesAreEqual(table);
    NewerIsOrder();
    SortFilterCommute(Filter(table, Selected(since, source)), After(c), Newer);
  }

  lemma HistoryFacts(table: seq<Product>, since: int, source: Option<string>)
    requires UniqueIds(table)
    ensures var h := History(table, since, source);
            && Sorted(h, Newer)
            && (forall x, y :: x in h && y in h && Newer(x, y) && Newer(y, x) ==> x == y)
            && NoRepeats(h)
            && (forall p :: p in h <==> p in table && Selected(since, source)(p))
  {
    var f := Filter(table, Selected(since, source));
    NewerIsOrder();
    SortCorrect(f, Newer);
    SameMembers(Sort(f, Newer), f);
    FilterMembers(table, Selected(since, source));
    TiesAreEqual(table);
    FilteredNoRepeats(table, Selected(since, source), History(table, since, source));
  }

  /** In a feed without repeats, exactly the rows behind the k-th are after its cursor. */
  lemma AfterKth(h: seq<Product>, k: nat, i: nat)
    requires k < |h| && i < |h| && Sorted(h, Newer)
    requires forall x, y :: x in h && y in h && Newer(x, y) && Newer(y, x) ==> x == y
    requires NoRepeats(h)
    ensures After(Some(CursorOf(h[k])))(h[i]) <==> i > k
  {
    assert h[i] in h && h[k] in h;
    if i < k {
      assert Newer(h[i], h[k]);
    } else if i > k {
      assert Newer(h[k], h[i]) && h[k] != h[i];
    }
  }

  /** Filtering a feed to the rows after its k-th element keeps the suffix behind it. */
  lemma SuffixAfter(h: seq<Product>, k: nat)
    requires k < |h| && Sorted(h, Newer)
    requires forall x, y :: x in h && y in h && Newer(x, y) && Newer(y, x) ==> x == y
    requires NoRepeats(h)
    ensures Filter(h, After(Some(CursorOf(h[k])))) == h[k + 1..]
  {
    hide Filter, After, Newer, Sorted;
    var p := After(Some(CursorOf(h[k])));
    forall i | 0 <= i < |h|
      ensures p(h[i]) <==> i > k
    {
      AfterKth(h, k, i);
    }
    assert h == h[..k + 1] + h[k + 1..];
    FilterConcat(h[..k + 1], h[k + 1..], p);
    FilterNone(h[..k + 1], p);
    FilterAll(h[k + 1..], p);
  }

  /** After a full page, what remains is what remained before, without the page. */
  lemma RemainingShrinks(table: seq<Product>, since: int, source: Option<string>, limit: nat, cursor: CursorText)
    requires limit >= 1 && UniqueIds(table)
    ensures var before := Remaining(table, since, source, Decode(cursor));
            var page := HistoryPage(table, since, source, limit, cursor);
            if |before| >= limit then
              page.items == before[..limit] && page.next.Encoded?
              && Remaining(table, since, source, Decode(page.next)) == before[limit..]
            else page.items == before && page.next == Absent
  {
    hide Filter, Sort, History;
    var h := History(table, since, source);
    var before := Remaining(table, since, source, Decode(cursor));
    PageIsPrefixOfRemaining(table, since, source, limit, cursor);
    HistoryFacts(table, since, source);
    if |before| >= limit {
      var last := before[limit - 1];
      RemainingIsSuffix(h, Decode(cursor));
      var start := |h| - |before|;
      assert before == h[start..];
      assert h[start + limit - 1] == last;
      SuffixAfter(h, start + limit - 1);
      assert h[start + limit..] == before[limit..];
    }
  }

  /** Any cursor cuts a sorted feed into a prefix and a remaining suffix. */
  lemma RemainingIsSuffix(h: seq<Product>, cursor: Option<Cursor>)
    requires Sorted(h, Newer)
    ensures |Filter(h, After(cursor))| <= |h|
    ensures Filter(h, After(cursor)) == h[|h| - |Filter(h, After(cursor))|..]
  {
    hide Filter;
    FilterKeepsSuffix(h, After(cursor));
  }

  // ----- Following next_cursor to the end

  datatype Walk = Walk(items: seq<Product>, requests: nat)

  /** What happens before a request: rows are inserted, and the clock sets the start of the request's window. */
  datatype Step = Step(inserted: seq<Product>, start: int)

  /** Follows `next_cursor` from a position, with `steps[i]` before request i and nothing new after the last step. */
  function Follow(table: seq<Product>, steps: seq<Step>, since: int, source: Option<string>, limit: nat,
                  cursor: CursorText, fuel: nat): Walk
    requires limit >= 1
    decreases fuel
  {
    var now := if steps == [] then table else table + steps[0].inserted;
    var start := if steps == [] then since else steps[0].start;
    var later := if steps == [] then [] else steps[1..];
    var page := HistoryPage(now, start, source, limit, cursor);
    if page.next == Absent || fuel == 0 then Walk(page.items, 1)
    else
      var rest := Follow(now, later, start, source, limit, page.next, fuel - 1);
      Walk(page.items + rest.items, rest.requests + 1)
  }

  /** The window's start never moves back, every row inserted before a request of the walk lies at or above the cursor
      it carries or before its window, and ids stay unique. */
  ghost predicate Undisturbed(
    table: seq<Product>, steps: seq<Step>, since: int, source: Option<string>, limit: nat, cursor: CursorText)
    requires limit >= 1
    decreases |steps|
  {
    UniqueIds(table) &&
    (steps != [] ==>
       var now, start := table + steps[0].inserted, steps[0].start;
       var next := HistoryPage(now, start, source, limit, cursor).next;
       && since <= start && UniqueIds(now)
       && (forall p :: p in steps[0].inserted ==> !SelectedAfter(start, source, Decode(cursor))(p))
       && (next.Encoded? ==> Undisturbed(now, steps[1..], start, source, limit, next)))
  }

  lemma InsertedRowsInvisible(
    table: seq<Product>, batch: seq<Product>, since: int, source: Option<string>, cursor: Option<Cursor>)
    requires UniqueIds(table) && UniqueIds(table + batch)
    requires forall p :: p in batch ==> !SelectedAfter(since, source, cursor)(p)
    ensures Remaining(table + batch, since, source, cursor) == Remaining(table, since, source, cursor)
  {
    RemainingAsQuery(table, since, source, cursor);
    RemainingAsQuery(table + batch, since, source, cursor);
    FilterConcat(table, batch, SelectedAfter(since, source, cursor));
    FilterNone(batch, SelectedAfter(since, source, cursor));
    var kept := Filter(table, SelectedAfter(since, source, cursor));
    assert kept + [] == kept;
  }

  lemma RemainingAsQuery(table: seq<Product>, since: int, source: Option<string>, cursor: Option<Cursor>)
    requires UniqueIds(table)
    ensures Remaining(table, since, source, cursor) == Sort(Filter(table, SelectedAfter(since, source, cursor)), Newer)
  {
    FilterAnd(table, Selected(since, source), After(cursor), SelectedAfter(since, source, cursor));
    FilterMembers(table, Selected(since, source));
    TiesAreEqual(table);
    NewerIsOrder();
    SortFilterCommute(Filter(table, Selected(since, source)), After(cursor), Newer);
  }

  function From(start: int): Product -> bool {
    (p: Product) => p.collectedAt >= start
  }

  lemma RemainingFacts(table: seq<Product>, since: int, source: Option<string>, cursor: Option<Cursor>)
    requires UniqueIds(table)
    ensures var left := Remaining(table, since, source, cursor);
            && Sorted(left, Newer) && NoRepeats(left)
            && forall p :: p in left ==> p in table && p.collectedAt >= since
  {
    hide Sort, Filter;
    var h := History(table, since, source);
    HistoryFacts(table, since, source);
    RemainingIsSuffix(h, cursor);
    FilterMembers(h, After(cursor));
    var left := Remaining(table, since, source, cursor);
    assert forall i :: 0 <= i < |left| ==> left[i] == h[|h| - |left| + i];
  }

  lemma SelectedFrom(p: Product, since: int, start: int, source: Option<string>)
    requires since <= start
    ensures Selected(start, source)(p) <==> Selected(since, source)(p) && From(start)(p)
  {
  }

  /** `part` is the beginning of `whole` and holds all its rows at or after `from`. */
  ghost predicate NewestPart(part: seq<Product>, whole: seq<Product>, from: int) {
    part <= whole && forall p :: p in whole && p.collectedAt >= from ==> p in part
  }

  /** A later start of the window keeps the newer part of what remains. */
  lemma LaterStart(table: seq<Product>, since: int, start: int, source: Option<string>, cursor: Option<Cursor>)
    requires UniqueIds(table) && since <= start
    ensures NewestPart(Remaining(table, start, source, cursor), Remaining(table, since, source, cursor), start)
  {
    hide Sort, Filter, Remaining, History;
    var left := Remaining(table, since, source, cursor);
    var wide := SelectedAfter(since, source, cursor);
    RemainingAsQuery(table, since, source, cursor);
    RemainingAsQuery(table, start, source, cursor);
    forall p | p in table
      ensures SelectedAfter(start, source, cursor)(p) <==> wide(p) && From(start)(p)
    {
      SelectedFrom(p, since, start, source);
    }
    FilterAnd(table, wide, From(start), SelectedAfter(start, source, cursor));
    FilterMembers(table, wide);
    TiesAreEqual(table);
    NewerIsOrder();
    SortFilterCommute(Filter(table, wide), From(start), Newer);
    RemainingFacts(table, since, source, cursor);
    FilterKeepsPrefix(left, From(start));
    FilterMembers(left, From(start));
  }

  /** The requests a walk over `n` rows takes. */
  function Pages(n: nat, limit: nat): nat
    requires limit >= 1
  {
    n / limit + 1
  }

  /** What one step leaves of the remaining rows. */
  lemma StepKeeps(table: seq<Product>, steps: seq<Step>, since: int, source: Option<string>, limit: nat,
                  cursor: CursorText)
    requires limit >= 1 && Undisturbed(table, steps, since, source, limit, cursor)
    ensures var left := Remaining(table, since, source, Decode(cursor));
            var now := if steps == [] then table else table + steps[0].inserted;
            var start := if steps == [] then since else steps[0].start;
            var later := if steps == [] then [] else steps[1..];
            var kept := Remaining(now, start, source, Decode(cursor));
            var next := HistoryPage(now, start, source, limit, cursor).next;
            && since <= start && UniqueIds(now) && NewestPart(kept, left, start) && |kept| <= |left|
            && (next.Encoded? ==> Undisturbed(now, later, start, source, limit, next))
  {
    hide Remaining, HistoryPage;
    if steps != [] {
      LaterStart(table, since, steps[0].start, source, Decode(cursor));
      InsertedRowsInvisible(table, steps[0].inserted, steps[0].start, source, Decode(cursor));
    }
  }

  /** A page and what a shorter walk returns behind it. */
  lemma PageAndRest(left: seq<Product>, kept: seq<Product>, limit: nat, rest: seq<Product>, start: int, last: int)
    requires limit <= |kept| && start <= last
    requires NewestPart(kept, left, start) && NewestPart(rest, kept[limit..], last)
    ensures NewestPart(kept[..limit] + rest, left, last)
  {
    assert kept == kept[..limit] + kept[limit..];
  }

  lemma LaterEnd(part: seq<Product>, whole: seq<Product>, from: int, last: int)
    requires NewestPart(part, whole, from) && from <= last
    ensures NewestPart(part, whole, last)
  {
  }

  lemma FollowStep(table: seq<Product>, steps: seq<Step>, since: int, source: Option<string>, limit: nat,
                   cursor: CursorText, fuel: nat)
    requires limit >= 1 && fuel > 0
    ensures var now := if steps == [] then table else table + steps[0].inserted;
            var start := if steps == [] then since else steps[0].start;
            var later := if steps == [] then [] else steps[1..];
            var page := HistoryPage(now, start, source, limit, cursor);
            var rest := Follow(now, later, start, source, limit, page.next, fuel - 1);
            Follow(table, steps, since, source, limit, cursor, fuel)
            == if page.next == Absent then Walk(page.items, 1) else Walk(page.items + rest.items, rest.requests + 1)
  {
    hide HistoryPage;
  }

  lemma ShortWalk(table: seq<Product>, steps: seq<Step>, since: int, source: Option<string>, limit: nat,
                  cursor: CursorText, fuel: nat)
    requires limit >= 1
    ensures var now := if steps == [] then table else table + steps[0].inserted;
            var start := if steps == [] then since else steps[0].start;
            var page := HistoryPage(now, start, source, limit, cursor);
            page.next == Absent ==> Follow(table, steps, since, source, limit, cursor, fuel) == Walk(page.items, 1)
  {
    hide HistoryPage;
  }

  /** While the window's start never moves back, the walk returns the newest of what remained at its start, in order and
      without repeats, with every remaining row at or after the last start, in (rows returned)/limit + 1 requests. */
  lemma {:induction false} MovingWalk(
    table: seq<Product>, steps: seq<Step>, since: int, source: Option<string>, limit: nat, cursor: CursorText,
    last: int, fuel: nat)
    requires limit >= 1 && Undisturbed(table, steps, since, source, limit, cursor)
    requires since <= last && forall s :: s in steps ==> s.start <= last
    requires fuel >= |Remaining(table, since, source, Decode(cursor))|
    ensures var left := Remaining(table, since, source, Decode(cursor));
            var walk := Follow(table, steps, since, source, limit, cursor, fuel);
            NewestPart(walk.items, left, last) && walk.requests == Pages(|walk.items|, limit)
    decreases fuel
  {
    hide Remaining, HistoryPage, Undisturbed, Pages, Follow, Decode, NewestPart, UniqueIds;
    var now := if steps == [] then table else table + steps[0].inserted;
    var start := if steps == [] then since else steps[0].start;
    var later := if steps == [] then [] else steps[1..];
    StepKeeps(table, steps, since, source, limit, cursor);
    RemainingShrinks(now, start, source, limit, cursor);
    var left := Remaining(table, since, source, Decode(cursor));
    var kept := Remaining(now, start, source, Decode(cursor));
    var page := HistoryPage(now, start, source, limit, cursor);
    if |kept| >= limit {
      FollowStep(table, steps, since, source, limit, cursor, fuel);
      MovingWalk(now, later, start, source, limit, page.next, last, fuel - 1);
      var rest := Follow(now, later, start, source, limit, page.next, fuel - 1).items;
      PageAndRest(left, kept, limit, rest, start, last);
      OneMorePage(limit + |rest|, limit);
    } else {
      ShortWalk(table, steps, since, source, limit, cursor, fuel);
      LaterEnd(kept, left, start, last);
      SmallQuotient(|kept|, limit);
    }
  }

  /** Over a window that stays where it is, the walk returns everything that remained at its start. */
  lemma {:induction false} WalkReturnsRemaining(
    table: seq<Product>, steps: seq<Step>, since: int, source: Option<string>, limit: nat, cursor: CursorText,
    fuel: nat)
    requires limit >= 1 && Undisturbed(table, steps, since, source, limit, cursor)
    requires forall s :: s in steps ==> s.start == since
    requires fuel >= |Remaining(table, since, source, Decode(cursor))|
    ensures var left := Remaining(table, since, source, Decode(cursor));
            Follow(table, steps, since, source, limit, cursor, fuel) == Walk(left, Pages(|left|, limit))
  {
    hide Remaining, Follow, Pages;
    var left := Remaining(table, since, source, Decode(cursor));
    var walk := Follow(table, steps, since, source, limit, cursor, fuel);
    UniqueAtStart(table, steps, since, source, limit, cursor);
    hide Undisturbed;
    RemainingFacts(table, since, source, Decode(cursor));
    MovingWalk(table, steps, since, source, limit, cursor, since, fuel);
    WholePrefix(left, walk.items);
  }

  lemma WholePrefix(s: seq<Product>, t: seq<Product>)
    requires t <= s && NoRepeats(s) && forall p :: p in s ==> p in t
    ensures t == s
  {
    if s != [] {
      var i := |s| - 1;
      assert s[i] in t;
      var j :| 0 <= j < |t| && t[j] == s[i];
      assert s[j] == s[i];
    }
  }

  lemma UniqueAtStart(table: seq<Product>, steps: seq<Step>, since: int, source: Option<string>, limit: nat,
                      cursor: CursorText)
    requires limit >= 1 && Undisturbed(table, steps, since, source, limit, cursor)
    ensures UniqueIds(table)
  {
  }

  lemma {:induction false} OneMorePage(n: nat, limit: nat)
    requires n >= limit >= 1
    ensures Pages(n, limit) == Pages(n - limit, limit) + 1
  {
    var q, r := (n - limit) / limit, (n - limit) % limit;
    assert n == limit * (q + 1) + r;
    QuotientIs(n, limit, q + 1, r);
  }

  lemma {:induction false} QuotientIs(n: nat, d: nat, q: nat, r: nat)
    requires 0 <= r < d && n == d * q + r
    ensures n / d == q
  {
    var p := n / d;
    if p < q {
      ScaleOrder(d, p + 1, q);
    } else if q < p {
      ScaleOrder(d, q + 1, p);
    }
  }

  lemma ScaleOrder(d: nat, a: nat, b: nat)
    requires a <= b
    ensures d * a <= d * b
  {
  }

  lemma SmallQuotient(n: nat, limit: nat)
    requires n < limit
    ensures Pages(n, limit) == 1
  {
  }

  /** From no cursor, or an undecodable one, the walk is the whole history. */
  lemma FullWalkIsHistory(table: seq<Product>, since: int, source: Option<string>, limit: nat, cursor: CursorText)
    requires limit >= 1 && UniqueIds(table) && !cursor.Encoded?
    ensures var h := History(table, since, source);
            Follow(table, [], since, source, limit, cursor, |h|) == Walk(h, Pages(|h|, limit))
  {
    var h := History(table, since, source);
    FilterAll(h, After(None));
    WalkReturnsRemaining(table, [], since, source, limit, cursor, |h|);
  }

  // ----- Latest snapshot per product

  /** ORDER BY canonical_product_id, collected_at DESC, id DESC. */
  predicate Grouped(a: Product, b: Product)
  {
    CidOf(a) < CidOf(b) || (CidOf(a) == CidOf(b) && Newer(a, b))
  }

  function CidOf(p: Product): int {
    if p.canonicalId.Some? then p.canonicalId.value else 0
  }

  /** DISTINCT ON: the first row of each run of equal ids. */
  function FirstOfEach(s: seq<Product>): seq<Product> {
    if s == [] then []
    else
      var rest := FirstOfEach(s[..|s| - 1]);
      if exists i :: 0 <= i < |s| - 1 && CidOf(s[i]) == CidOf(s[|s| - 1]) then rest else rest + [s[|s| - 1]]
  }

  function AllLatest(table: seq<Product>, since: int, source: Option<string>): seq<Product> {
    FirstOfEach(Sort(Filter(table, Selected(since, source)), Grouped))
  }

  /** A request with latest_only: the cursor is ignored. */
  function LatestPage(table: seq<Product>, since: int, source: Option<string>, limit: nat): seq<Product> {
    Take(AllLatest(table, since, source), limit)
  }

  lemma GroupedIsOrder()
    ensures TotalPreorder(Grouped)
  {
  }

  /** `FirstOfEach` keeps exactly the rows without an earlier row of the same id, in order. */
  lemma {:induction false} FirstOfEachMeaning(s: seq<Product>)
    ensures forall p :: p in FirstOfEach(s) <==>
              exists k :: 0 <= k < |s| && s[k] == p && forall i :: 0 <= i < k ==> CidOf(s[i]) != CidOf(p)
    ensures forall i, j :: 0 <= i < j < |FirstOfEach(s)| ==> CidOf(FirstOfEach(s)[i]) != CidOf(FirstOfEach(s)[j])
  {
    if s != [] {
      var m := |s| - 1;
      var t := s[..m];
      FirstOfEachMeaning(t);
      forall p
        ensures p in FirstOfEach(s) <==> FirstAt(s, p)
      {
        FirstAtSnoc(s, p);
      }
      forall p
        ensures p in FirstOfEach(t) <==> FirstAt(t, p)
      {
      }
    }
  }

  ghost predicate FirstAt(s: seq<Product>, p: Product) {
    exists k :: 0 <= k < |s| && s[k] == p && forall i :: 0 <= i < k ==> CidOf(s[i]) != CidOf(p)
  }

  lemma FirstAtSnoc(s: seq<Product>, p: Product)
    requires s != []
    ensures FirstAt(s, p) <==>
      FirstAt(s[..|s| - 1], p)
      || (p == s[|s| - 1] && !exists i :: 0 <= i < |s| - 1 && CidOf(s[i]) == CidOf(s[|s| - 1]))
  {
  }

  /** `p` is at least as new as every selected row of its product. */
  ghost predicate Leads(p: Product, rows: seq<Product>) {
    p in rows && forall q :: q in rows && CidOf(q) == CidOf(p) ==> Newer(p, q)
  }

  /** In any arrangement that lists each product newest first, the first row of a product is its leader. */
  lemma FirstIsLeader(s: seq<Product>, p: Product)
    requires forall i, j :: 0 <= i < j < |s| && CidOf(s[i]) == CidOf(s[j]) ==> Newer(s[i], s[j])
    requires forall x, y :: x in s && y in s && Newer(x, y) && Newer(y, x) ==> x == y
    ensures FirstAt(s, p) <==> Leads(p, s)
  {
    if FirstAt(s, p) {
      var k :| 0 <= k < |s| && s[k] == p && forall i :: 0 <= i < k ==> CidOf(s[i]) != CidOf(p);
      forall q | q in s && CidOf(q) == CidOf(p)
        ensures Newer(p, q)
      {
        var j :| 0 <= j < |s| && s[j] == q;
      }
    }
    if Leads(p, s) {
      var k := FirstIndex(s, CidOf(p), p);
      var j :| 0 <= j < |s| && s[j] == p;
      assert Newer(s[k], p) && s[k] in s;
    }
  }

  lemma {:induction false} FirstIndex(s: seq<Product>, cid: int, p: Product) returns (k: nat)
    requires p in s && CidOf(p) == cid
    ensures k < |s| && CidOf(s[k]) == cid
    ensures forall i :: 0 <= i < k ==> CidOf(s[i]) != cid
  {
    if CidOf(s[0]) == cid {
      k := 0;
    } else {
      assert s == [s[0]] + s[1..];
      k := FirstIndex(s[1..], cid, p);
      k := k + 1;
    }
  }

  /** Without truncation, latest_only returns exactly the first history row of every product, one per product. */
  lemma LatestIsFirstOfHistory(table: seq<Product>, since: int, source: Option<string>)
    requires UniqueIds(table)
    ensures forall p :: p in AllLatest(table, since, source) <==> FirstAt(History(table, since, source), p)
    ensures var latest := AllLatest(table, since, source);
            forall i, j :: 0 <= i < j < |latest| ==> CidOf(latest[i]) != CidOf(latest[j])
  {
    var f := Filter(table, Selected(since, source));
    FilterMembers(table, Selected(since, source));
    TiesAreEqual(table);
    GroupedIsOrder();
    NewerIsOrder();
    SortCorrect(f, Grouped);
    SortCorrect(f, Newer);
    var g, h := Sort(f, Grouped), Sort(f, Newer);
    SameMembers(g, f);
    SameMembers(h, f);
    FirstOfEachMeaning(g);
    forall p
      ensures p in AllLatest(table, since, source) <==> FirstAt(h, p)
    {
      FirstIsLeader(g, p);
      FirstIsLeader(h, p);
      assert p in FirstOfEach(g) <==> FirstAt(g, p);
    }
  }

  /** The latest rows come in strictly ascending id order. */
  lemma {:induction false} FirstOfEachAscends(s: seq<Product>)
    requires Sorted(s, Grouped)
    ensures forall i, j :: 0 <= i < j < |FirstOfEach(s)| ==> CidOf(FirstOfEach(s)[i]) < CidOf(FirstOfEach(s)[j])
  {
    hide Grouped, CidOf;
    if s != [] {
      var m := |s| - 1;
      var before := FirstOfEach(s[..m]);
      FirstOfEachAscends(s[..m]);
      FirstOfEachMeaning(s);
      forall i | 0 <= i < |before|
        ensures CidOf(before[i]) <= CidOf(s[m])
      {
        ListedBefore(s, before[i]);
      }
    }
  }

  lemma ListedBefore(s: seq<Product>, p: Product)
    requires s != [] && Sorted(s, Grouped) && p in FirstOfEach(s[..|s| - 1])
    ensures CidOf(p) <= CidOf(s[|s| - 1])
  {
    var m := |s| - 1;
    FirstOfEachMeaning(s[..m]);
    var k :| 0 <= k < m && s[..m][k] == p;
    assert Grouped(s[k], s[m]);
  }

  function SmallerId(p: Product): Product -> bool {
    (q: Product) => CidOf(q) < CidOf(p)
  }

  lemma CountSmaller(s: seq<Product>, k: nat)
    requires k < |s|
    requires forall i, j :: 0 <= i < j < |s| ==> CidOf(s[i]) < CidOf(s[j])
    ensures |Filter(s, SmallerId(s[k]))| == k
  {
    assert s == s[..k] + s[k..];
    FilterConcat(s[..k], s[k..], SmallerId(s[k]));
    FilterAll(s[..k], SmallerId(s[k]));
    FilterNone(s[k..], SmallerId(s[k]));
  }

  /** Truncation keeps the smallest ids, not the newest rows: a product's snapshot survives `limit`
      exactly when fewer than `limit` listed products have a smaller id. */
  lemma TruncationKeepsSmallestIds(table: seq<Product>, since: int, source: Option<string>, limit: nat, p: Product)
    requires p in AllLatest(table, since, source)
    ensures p in LatestPage(table, since, source, limit)
      <==> |Filter(AllLatest(table, since, source), SmallerId(p))| < limit
  {
    var latest := AllLatest(table, since, source);
    hide Filter, FirstOfEach;
    GroupedIsOrder();
    SortCorrect(Filter(table, Selected(since, source)), Grouped);
    FirstOfEachAscends(Sort(Filter(table, Selected(since, source)), Grouped));
    var k :| 0 <= k < |latest| && latest[k] == p;
    CountSmaller(latest, k);
    if k < limit {
      assert Take(latest, limit)[k] == p;
    }
  }

  lemma SortTwo(a: Product, b: Product, le: (Product, Product) -> bool)
    ensures Sort([a, b], le) == if le(a, b) then [a, b] else [b, a]
  {
    assert [a, b][1..] == [b] && [b][1..] == [];
    assert Sort([b], le) == Insert(b, [], le);
    assert Insert(a, [b], le) == if le(a, b) then [a] + [b] else [b] + Insert(a, [], le);
  }

  /** The feed is described as the most recently collected products; a limit of one can return the older of two. */
  lemma TruncationCanDropNewest()
    ensures exists table: seq<Product> ::
      |table| == 2 && UniqueIds(table) && LatestPage(table, 0, None, 1) == [table[0]]
          && History(table, 0, None) == [table[1], table[0]]
  {
    var older, newer := Product(1, Some(1), Some(9.0), None, 10), Product(2, Some(2), Some(9.0), None, 20);
    var table := [older, newer];
    FilterAll(table, Selected(0, None));
    SortTwo(older, newer, Grouped);
    SortTwo(older, newer, Newer);
    assert table[..1] == [older] && [older][..0] == [];
    assert FirstOfEach([older]) == [older];
    assert FirstOfEach(table) == [older, newer];
  }
}
