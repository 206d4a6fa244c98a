/** Backfilling canonical product ids in batches of rows that still lack one. */
module CanonicalBackfill {
  import opened Lists

  datatype Product = Product(canonicalId: Option<string>, sourceId: Option<string>, title: Option<string>)

  function TitleSlug(title: Option<string>, slug: string -> string): Option<string> {
    if title.None? || title.value == "" then None else Some("slug:" + slug(title.value))
  }

  predicate HasSourceId(p: Product) {
    p.sourceId.Some? && p.sourceId.value != ""
  }

  /** The id a row without one receives, if it can receive any. */
  function Resolve(p: Product, slug: string -> string): Option<string> {
    if HasSourceId(p) then p.sourceId else TitleSlug(p.title, slug)
  }

  function Fill(p: Product, slug: string -> string): Product {
    if p.canonicalId.None? then p.(canonicalId := Resolve(p, slug)) else p
  }

  /** A row is missing an id. Rows are named by their position. */
  function Nulls(table: seq<Product>): set<nat> {
    set i: nat | i < |table| && table[i].canonicalId.None?
  }

  function FilledFrom(table: seq<Product>, rows: set<nat>, slug: string -> string): (filled: seq<Product>)
    ensures |filled| == |table|
  {
    seq(|table|, i requires 0 <= i < |table| => if i in rows then Fill(table[i], slug) else table[i])
  }

  /** Any batch the query may return: rows without an id, as many as the limit allows. */
  ghost predicate IsBatch(table: seq<Product>, batch: set<nat>, batchSize: nat) {
    batch <= Nulls(table) && |batch| == if |Nulls(table)| <= batchSize then |Nulls(table)| else batchSize
  }

  /** Every row without an id has a source id or a title. */
  predicate Resolvable(table: seq<Product>) {
    forall i :: 0 <= i < |table| && table[i].canonicalId.None?
        ==> HasSourceId(table[i]) || (table[i].title.Some? && table[i].title.value != "")
  }

  function BySource(table: seq<Product>): set<nat> {
    set i: nat | i < |table| && table[i].canonicalId.None? && HasSourceId(table[i])
  }

  function BySlug(table: seq<Product>): set<nat> {
    set i: nat | i < |table| && table[i].canonicalId.None? && !HasSourceId(table[i]) && table[i].title.Some?
        && table[i].title.value != ""
  }

  lemma {:induction false} SomeBatch(rows: set<nat>, size: nat) returns (batch: set<nat>)
    requires size <= |rows|
    ensures batch <= rows && |batch| == size
  {
    if size == |rows| {
      batch := rows;
    } else {
      var i :| i in rows;
      batch := SomeBatch(rows - {i}, size);
    }
  }

  lemma BatchExists(table: seq<Product>, batchSize: nat)
    ensures exists batch: set<nat> :: IsBatch(table, batch, batchSize)
  {
    var batch := SomeBatch(Nulls(table), if |Nulls(table)| <= batchSize then |Nulls(table)| else batchSize);
    assert IsBatch(table, batch, batchSize);
  }

  class Store {
    var products: seq<Product>

    /** One pass over a batch, counting the rows filled from each origin; a row with neither is left as it is. */
    method FillBatch(batch: set<nat>, slug: string -> string) returns (viaSource: nat, viaSlug: nat)
      requires batch <= Nulls(products)
      modifies this
      ensures products == FilledFrom(old(products), batch, slug)
      ensures viaSource == |batch * BySource(old(products))|
      ensures viaSlug == |batch * BySlug(old(products))|
    {
      hide FilledFrom, Nulls, BySource, BySlug;
      viaSource, viaSlug := 0, 0;
      NoneFilled(products, slug);
      var todo := batch;
      ghost var done: set<nat> := {};
      while todo != {}
        invariant done + todo == batch && done !! todo
        invariant products == FilledFrom(old(products), done, slug)
        invariant viaSource == |done * BySource(old(products))|
        invariant viaSlug == |done * BySlug(old(products))|
        decreases |todo|
      {
        var i :| i in todo;
        FilledOne(old(products), done, i, slug);
        CountOne(done, i, BySource(old(products)));
        CountOne(done, i, BySlug(old(products)));
        done, todo := done + {i}, todo - {i};
        if HasSourceId(products[i]) {
          products := products[i := products[i].(canonicalId := products[i].sourceId)];
          viaSource := viaSource + 1;
        } else {
          var id := TitleSlug(products[i].title, slug);
          if id.Some? {
            products := products[i := products[i].(canonicalId := id)];
            viaSlug := viaSlug + 1;
          }
        }
      }
      assert done == batch;
    }

    /** Batches are repeated until none is left; defined where that loop ends. */
    method Backfill(batchSize: nat, slug: string -> string) returns (viaSource: nat, viaSlug: nat)
      requires batchSize >= 1 && Resolvable(products)
      modifies this
      ensures Nulls(products) == {}
      ensures products == FilledFrom(old(products), Nulls(old(products)), slug)
      ensures viaSource == |BySource(old(products))| && viaSlug == |BySlug(old(products))|
      ensures viaSource + viaSlug == |Nulls(old(products))|
    {
      hide FilledFrom, Nulls, BySource, BySlug;
      viaSource, viaSlug := 0, 0;
      NoneFilled(products, slug);
      ghost var done: set<nat> := {};
      while true
        invariant done <= Nulls(old(products))
        invariant products == FilledFrom(old(products), done, slug)
        invariant viaSource == |done * BySource(old(products))|
        invariant viaSlug == |done * BySlug(old(products))|
        decreases |Nulls(products)|
      {
        FilledNulls(old(products), done, slug);
        ghost var missing := Nulls(products);
        var batch: set<nat> := PickBatch(products, batchSize);
        if batch == {} {
          NoneMissing(products, batchSize);
          OriginsSplitMissing(old(products));
          assert done == Nulls(old(products));
          assert done * BySource(old(products)) == BySource(old(products));
          assert done * BySlug(old(products)) == BySlug(old(products));
          break;
        }
        var a, b := FillBatch(batch, slug);
        FilledTwice(old(products), done, batch, slug);
        FilledNulls(old(products), done + batch, slug);
        Smaller(Nulls(products), missing);
        CountUnion(done, batch, BySource(old(products)));
        CountUnion(done, batch, BySlug(old(products)));
        viaSource, viaSlug := viaSource + a, viaSlug + b;
        done := done + batch;
      }
    }
  }

  lemma FilledOne(table: seq<Product>, done: set<nat>, i: nat, slug: string -> string)
    requires i in Nulls(table) - done
    ensures i < |table| && table[i].canonicalId.None?
    ensures i in BySource(table) <==> HasSourceId(table[i])
    ensures i in BySlug(table) <==> !HasSourceId(table[i]) && TitleSlug(table[i].title, slug).Some?
    ensures FilledFrom(table, done, slug)[i] == table[i]
    ensures FilledFrom(table, done, slug)[i := Fill(table[i], slug)] == FilledFrom(table, done + {i}, slug)
  {
  }

  lemma NoneFilled(table: seq<Product>, slug: string -> string)
    ensures FilledFrom(table, {}, slug) == table
  {
  }

  lemma CountOne(done: set<nat>, i: nat, chosen: set<nat>)
    requires i !in done
    ensures |done + {i}| == |done| + 1
    ensures |(done + {i}) * chosen| == |done * chosen| + if i in chosen then 1 else 0
  {
    if i in chosen {
      assert (done + {i}) * chosen == done * chosen + {i};
    } else {
      assert (done + {i}) * chosen == done * chosen;
    }
  }

  lemma CountUnion(a: set<nat>, b: set<nat>, chosen: set<nat>)
    requires a !! b
    ensures |a + b| == |a| + |b|
    ensures |(a + b) * chosen| == |a * chosen| + |b * chosen|
    ensures b * (chosen - a) == b * chosen
  {
    assert (a + b) * chosen == a * chosen + b * chosen;
  }

  /** On a resolvable table the two origins split the missing rows. */
  lemma OriginsSplitMissing(table: seq<Product>)
    requires Resolvable(table)
    ensures BySource(table) <= Nulls(table) && BySlug(table) <= Nulls(table)
    ensures |BySource(table)| + |BySlug(table)| == |Nulls(table)|
  {
    assert BySource(table) + BySlug(table) == Nulls(table);
    assert |BySource(table) + BySlug(table)| == |BySource(table)| + |BySlug(table)|;
  }

  /** An empty batch under a positive limit means no row is missing. */
  lemma NoneMissing(table: seq<Product>, batchSize: nat)
    requires batchSize >= 1 && IsBatch(table, {}, batchSize)
    ensures Nulls(table) == {}
  {
  }

  /** The query's choice among the admissible batches. */
  method PickBatch(table: seq<Product>, batchSize: nat) returns (batch: set<nat>)
    ensures IsBatch(table, batch, batchSize)
  {
    batch := {};
    var todo := Nulls(table);
    while todo != {} && |batch| < batchSize
      invariant batch + todo == Nulls(table) && batch !! todo
      invariant |batch| <= batchSize
      decreases |todo|
    {
      var i :| i in todo;
      batch, todo := batch + {i}, todo - {i};
    }
    assert todo == {} ==> batch == Nulls(table);
    SubsetSize(batch, Nulls(table));
  }

  lemma Smaller(a: set<nat>, b: set<nat>)
    requires a < b
    ensures |a| < |b|
  {
    SubsetSize(a, b);
  }

  /** Filling some rows of a resolvable table removes exactly those from the missing ones. */
  lemma FilledNulls(table: seq<Product>, rows: set<nat>, slug: string -> string)
    requires Resolvable(table) && rows <= Nulls(table)
    ensures Nulls(FilledFrom(table, rows, slug)) == Nulls(table) - rows
    ensures Resolvable(FilledFrom(table, rows, slug))
    ensures BySource(FilledFrom(table, rows, slug)) == BySource(table) - rows
    ensures BySlug(FilledFrom(table, rows, slug)) == BySlug(table) - rows
  {
  }

  lemma FilledTwice(table: seq<Product>, a: set<nat>, b: set<nat>, slug: string -> string)
    requires a !! b
    ensures FilledFrom(FilledFrom(table, a, slug), b, slug) == FilledFrom(table, a + b, slug)
  {
  }

  // ----- When the loop can end at all

  /** The table after a run of batches. */
  function After(table: seq<Product>, batches: seq<set<nat>>, slug: string -> string): seq<Product>
    decreases |batches|
  {
    if batches == [] then table
    else After(FilledFrom(table, batches[0], slug), batches[1..], slug)
  }

  /** Every batch is one the query could have returned at that point. */
  ghost predicate IsRun(table: seq<Product>, batches: seq<set<nat>>, batchSize: nat, slug: string -> string)
    decreases |batches|
  {
    batches != [] ==>
      IsBatch(table, batches[0], batchSize) && IsRun(FilledFrom(table, batches[0], slug), batches[1..], batchSize, slug)
  }

  /** A row with neither origin stays missing through every run. */
  lemma {:induction false} UnresolvableStays(
    table: seq<Product>, batches: seq<set<nat>>, batchSize: nat, slug: string -> string, i: nat)
    requires IsRun(table, batches, batchSize, slug)
    requires i in Nulls(table) && Resolve(table[i], slug).None?
    ensures i in Nulls(After(table, batches, slug))
    decreases |batches|
  {
    if batches != [] {
      UnresolvableStays(FilledFrom(table, batches[0], slug), batches[1..], batchSize, slug, i);
    }
  }

  /** On a resolvable table, each round clears a full batch, so k rounds leave nulls - k*size rows, or none. */
  lemma {:induction false} RoundsRemaining(
    table: seq<Product>, batches: seq<set<nat>>, batchSize: nat, slug: string -> string)
    requires Resolvable(table) && IsRun(table, batches, batchSize, slug)
    ensures var left := |Nulls(table)| - |batches| * batchSize;
            |Nulls(After(table, batches, slug))| == if left > 0 then left else 0
    decreases |batches|
  {
    if batches != [] {
      var next := FilledFrom(table, batches[0], slug);
      FilledNulls(table, batches[0], slug);
      assert |Nulls(table) - batches[0]| == |Nulls(table)| - |batches[0]|;
      RoundsRemaining(next, batches[1..], batchSize, slug);
      assert |batches| * batchSize == (|batches| - 1) * batchSize + batchSize;
      NonNegative(|batches| - 1, batchSize);
    }
  }

  lemma NonNegative(a: nat, b: nat)
    ensures a * b >= 0
  {
  }

  lemma {:induction false} RunOfLength(
    table: seq<Product>, batchSize: nat, slug: string -> string, k: nat) returns (batches: seq<set<nat>>)
    ensures IsRun(table, batches, batchSize, slug) && |batches| == k
    decreases k
  {
    if k == 0 {
      batches := [];
    } else {
      BatchExists(table, batchSize);
      var batch: set<nat> :| IsBatch(table, batch, batchSize);
      var rest := RunOfLength(FilledFrom(table, batch, slug), batchSize, slug, k - 1);
      batches := [batch] + rest;
      assert batches[1..] == rest;
    }
  }

  lemma AtLeastCount(n: nat, k: nat)
    requires k >= 1
    ensures n * k >= n
  {
  }

  lemma ClearingRun(table: seq<Product>, batchSize: nat, slug: string -> string) returns (batches: seq<set<nat>>)
    requires batchSize >= 1 && Resolvable(table)
    ensures IsRun(table, batches, batchSize, slug) && Nulls(After(table, batches, slug)) == {}
  {
    hide Nulls, After, IsRun, Resolvable;
    batches := RunOfLength(table, batchSize, slug, |Nulls(table)|);
    RoundsRemaining(table, batches, batchSize, slug);
    AtLeastCount(|Nulls(table)|, batchSize);
  }

  lemma UnresolvableRow(table: seq<Product>, slug: string -> string) returns (i: nat)
    requires !Resolvable(table)
    ensures i in Nulls(table) && Resolve(table[i], slug).None?
  {
    i :| 0 <= i < |table| && table[i].canonicalId.None?
        && !(HasSourceId(table[i]) || (table[i].title.Some? && table[i].title.value != ""));
  }

  /** Some run of batches clears the table exactly when every row without an id can be resolved. */
  lemma ExitReachableExactlyWhen(table: seq<Product>, batchSize: nat, slug: string -> string)
    requires batchSize >= 1
    ensures (exists batches :: IsRun(table, batches, batchSize, slug) && Nulls(After(table, batches, slug)) == {})
      <==> Resolvable(table)
  {
    hide Nulls, After, IsRun, Resolvable;
    if Resolvable(table) {
      var batches := ClearingRun(table, batchSize, slug);
    } else {
      var i := UnresolvableRow(table, slug);
      forall batches | IsRun(table, batches, batchSize, slug)
        ensures Nulls(After(table, batches, slug)) != {}
      {
        UnresolvableStays(table, batches, batchSize, slug, i);
      }
    }
  }

  // ----- Which rows long runs fill

  /** The missing ids that can be filled. */
  function Solvable(table: seq<Product>): set<nat> {
    BySource(table) + BySlug(table)
  }

  function Unsolvable(table: seq<Product>): set<nat> {
    Nulls(table) - Solvable(table)
  }

  /** A batch removes exactly its solvable rows from the missing ones, and never touches the others. */
  lemma BatchFills(table: seq<Product>, batch: set<nat>, slug: string -> string)
    requires batch <= Nulls(table)
    ensures Solvable(FilledFrom(table, batch, slug)) == Solvable(table) - batch
    ensures Unsolvable(FilledFrom(table, batch, slug)) == Unsolvable(table)
    ensures batch !! Solvable(table) ==> FilledFrom(table, batch, slug) == table
  {
  }

  /** With fewer unsolvable rows than a batch holds, each batch fills a solvable row while there is one. */
  lemma BatchProgresses(table: seq<Product>, batch: set<nat>, batchSize: nat)
    requires IsBatch(table, batch, batchSize) && |Unsolvable(table)| < batchSize && Solvable(table) != {}
    ensures |Solvable(table) - batch| < |Solvable(table)|
  {
    hide BySource, BySlug;
    NullsSplit(table);
    if batch !! Solvable(table) {
      assert batch <= Unsolvable(table);
      SubsetSize(batch, Unsolvable(table));
    } else {
      Smaller(Solvable(table) - batch, Solvable(table));
    }
  }

  lemma NullsSplit(table: seq<Product>)
    ensures Solvable(table) + Unsolvable(table) == Nulls(table)
    ensures |Solvable(table)| + |Unsolvable(table)| == |Nulls(table)|
  {
    assert Solvable(table) <= Nulls(table);
    assert Solvable(table) + Unsolvable(table) == Nulls(table);
  }

  lemma {:induction false} LongRunsFill(
    table: seq<Product>, batches: seq<set<nat>>, batchSize: nat, slug: string -> string)
    requires IsRun(table, batches, batchSize, slug) && |batches| >= |Solvable(table)|
    requires |Unsolvable(table)| < batchSize || Solvable(table) == {}
    ensures Solvable(After(table, batches, slug)) == {}
    decreases |batches|
  {
    hide Solvable, Unsolvable, FilledFrom;
    if batches != [] {
      BatchFills(table, batches[0], slug);
      SubsetSize(Solvable(table) - batches[0], Solvable(table));
      if Solvable(table) != {} {
        BatchProgresses(table, batches[0], batchSize);
      }
      LongRunsFill(FilledFrom(table, batches[0], slug), batches[1..], batchSize, slug);
    }
  }

  lemma {:induction false} IdleRun(table: seq<Product>, batch: set<nat>, batchSize: nat, slug: string -> string, k: nat)
    returns (batches: seq<set<nat>>)
    requires IsBatch(table, batch, batchSize) && batch !! Solvable(table)
    ensures IsRun(table, batches, batchSize, slug) && |batches| == k && After(table, batches, slug) == table
  {
    hide IsBatch, FilledFrom;
    if k == 0 {
      batches := [];
    } else {
      var rest := IdleRun(table, batch, batchSize, slug, k - 1);
      BatchWithin(table, batch, batchSize);
      BatchFills(table, batch, slug);
      batches := [batch] + rest;
      assert batches[1..] == rest;
    }
  }

  lemma BatchWithin(table: seq<Product>, batch: set<nat>, batchSize: nat)
    requires IsBatch(table, batch, batchSize)
    ensures batch <= Nulls(table)
  {
  }

  /** Although the loop cannot end, runs of `k` batches fill every row that can be filled, whatever the query returns,
      exactly when fewer rows than a batch holds have neither origin, or nothing can be filled. */
  lemma {:induction false} FilledByAllRunsExactlyWhen(
    table: seq<Product>, batchSize: nat, slug: string -> string, k: nat)
    requires k >= |Solvable(table)|
    ensures (forall batches :: IsRun(table, batches, batchSize, slug) && |batches| == k
               ==> Solvable(After(table, batches, slug)) == {})
       <==> |Unsolvable(table)| < batchSize || Solvable(table) == {}
  {
    hide Solvable, Unsolvable, After, IsRun, IsBatch;
    if |Unsolvable(table)| < batchSize || Solvable(table) == {} {
      forall batches | IsRun(table, batches, batchSize, slug) && |batches| == k
        ensures Solvable(After(table, batches, slug)) == {}
      {
        LongRunsFill(table, batches, batchSize, slug);
      }
    } else {
      var batch := SomeBatch(Unsolvable(table), batchSize);
      UnsolvableBatch(table, batch, batchSize);
      var batches := IdleRun(table, batch, batchSize, slug, k);
    }
  }

  lemma UnsolvableBatch(table: seq<Product>, batch: set<nat>, batchSize: nat)
    requires batch <= Unsolvable(table) && |batch| == batchSize && Solvable(table) != {}
    ensures IsBatch(table, batch, batchSize) && batch !! Solvable(table)
  {
    hide BySource, BySlug;
    NullsSplit(table);
    SubsetSize(batch, Unsolvable(table));
  }

  /** What can be filled is what can be resolved. */
  lemma SolvableMeaning(table: seq<Product>, slug: string -> string, i: nat)
    requires i in Nulls(table)
    ensures i in Solvable(table) <==> Resolve(table[i], slug).Some?
  {
  }

  /** A full batch of unresolvable rows changes nothing, so it can be returned forever while other rows wait. */
  lemma UnresolvableBatchIsIdle(table: seq<Product>, batch: set<nat>, batchSize: nat, slug: string -> string)
    requires IsBatch(table, batch, batchSize)
    requires forall i :: i in batch ==> Resolve(table[i], slug).None?
    ensures FilledFrom(table, batch, slug) == table
  {
  }
}
