/** Walking a collection page by page, newest first
    (backend/internal/platform/cursor/page.go, keyset.go, backend/internal/invoices/collection.go). */
module Paging {
  import opened Wrappers

  /** The sort key of one item: the moment it was created at and the identifier that decides a tie. */
  datatype Position = Position(moment: int, id: nat)

  predicate Below(a: Position, b: Position) {
    a.moment < b.moment || (a.moment == b.moment && a.id < b.id)
  }

  /** A collection as the database reads it: every item once, in strictly descending order. */
  predicate Descending(items: seq<Position>) {
    forall i, j :: 0 <= i < j < |items| ==> Below(items[j], items[i])
  }

  /** How many items are read past to reach the first below a position; a page that states none starts at the
      newest. */
  function Skip(items: seq<Position>, after: Option<Position>): (k: nat)
    ensures k <= |items|
  {
    if items == [] || after.None? || Below(items[0], after.value) then 0 else 1 + Skip(items[1..], after)
  }

  function After(items: seq<Position>, after: Option<Position>): seq<Position> {
    items[Skip(items, after)..]
  }

  function Fetched(items: seq<Position>, after: Option<Position>, limit: nat): seq<Position> {
    var found := After(items, after);
    if |found| <= limit then found else found[..limit]
  }

  /** Publishes at most `limit` items, and the position of the last of them only when another item was read. */
  function Cut(items: seq<Position>, limit: nat): (r: (seq<Position>, Option<Position>))
    requires limit > 0
    ensures r.0 <= items && |r.0| <= limit
    ensures r.1.Some? <==> |items| > limit
    ensures r.1.Some? ==> |r.0| == limit && r.1.value == r.0[limit - 1]
    ensures r.1.None? ==> r.0 == items
  {
    if |items| <= limit then (items, None) else (items[..limit], Some(items[limit - 1]))
  }

  /** A page is read with one item more than it publishes. */
  function ReadPage(items: seq<Position>, after: Option<Position>, limit: nat): (seq<Position>, Option<Position>)
    requires limit > 0
  {
    Cut(Fetched(items, after, limit + 1), limit)
  }

  /** Reading after the item at a place continues exactly behind it. */
  lemma {:induction false} SkipAnItem(items: seq<Position>, k: nat)
    requires Descending(items) && k < |items|
    ensures Skip(items, Some(items[k])) == k + 1
    decreases |items|
  {
    if k == 0 {
      if |items| > 1 {
        assert Below(items[1], items[0]);
        assert items[1..][0] == items[1];
      }
    } else {
      assert Below(items[k], items[0]) && items[1..][k - 1] == items[k];
      SkipAnItem(items[1..], k - 1);
    }
  }

  /** All the items a reader publishes that starts after a position and follows `next` until there is none. Each
      page is read from the collection as it then is. */
  function Walk(collections: seq<seq<Position>>, after: Option<Position>, limit: nat): seq<Position>
    requires limit > 0
    decreases |collections|
  {
    if collections == [] then []
    else
      var (page, next) := ReadPage(collections[0], after, limit);
      if next.None? then page else page + Walk(collections[1..], next, limit)
  }

  /** The position of the last item of a page, when one follows it. */
  function Next(items: seq<Position>, after: Option<Position>, limit: nat): Option<Position>
    requires limit > 0
  {
    ReadPage(items, after, limit).1
  }

  /** What one page publishes, by places in the collection. */
  lemma {:induction false} PageByPlaces(items: seq<Position>, after: Option<Position>, limit: nat, k: nat)
    requires limit > 0 && k == Skip(items, after)
    ensures |items| - k <= limit ==> ReadPage(items, after, limit) == (items[k..], None)
    ensures |items| - k > limit ==>
              ReadPage(items, after, limit) == (items[k..k + limit], Some(items[k + limit - 1]))
  {
    if |items| - k > limit {
      assert Fetched(items, after, limit + 1) == items[k..k + limit + 1] by {
        SliceOfRest(items, k, limit + 1);
      }
      SliceOfSlice(items, k, limit);
    }
  }

  lemma {:induction false} SliceOfRest(items: seq<Position>, k: nat, n: nat)
    requires k + n <= |items|
    ensures items[k..][..n] == items[k..k + n]
  {
  }

  lemma {:induction false} SliceOfSlice(items: seq<Position>, k: nat, n: nat)
    requires 0 < n && k + n < |items|
    ensures items[k..k + n + 1][..n] == items[k..k + n] && items[k..k + n + 1][n - 1] == items[k + n - 1]
  {
  }

  lemma {:induction false} SlicesMeet(items: seq<Position>, k: nat, n: nat)
    requires k + n <= |items|
    ensures items[k..k + n] + items[k + n..] == items[k..]
  {
  }

  /** A page and what is left behind it are what was left before it. */
  lemma {:induction false} PageAndRest(items: seq<Position>, after: Option<Position>, limit: nat)
    requires limit > 0 && Descending(items)
    ensures var (page, next) := ReadPage(items, after, limit);
            && (next.None? ==> page == After(items, after))
            && (next.Some? ==> page + After(items, next) == After(items, after) && |page| == limit)
  {
    var k := Skip(items, after);
    PageByPlaces(items, after, limit, k);
    if |items| - k > limit {
      SkipAnItem(items, k + limit - 1);
      SlicesMeet(items, k, limit);
    }
  }

  /** The reader reaches exactly the items below its position. */
  lemma {:induction false} AfterIsWhatIsBelow(items: seq<Position>, after: Option<Position>, p: Position)
    requires Descending(items)
    ensures p in After(items, after) <==> p in items && (after.None? || Below(p, after.value))
    decreases |items|
  {
    if items == [] || after.None? {
      assert After(items, after) == items;
    } else if Below(items[0], after.value) {
      assert After(items, after) == items;
      forall i | 0 <= i < |items| ensures Below(items[i], after.value) {
        assert i > 0 ==> Below(items[i], items[0]);
      }
    } else {
      AfterIsWhatIsBelow(items[1..], after, p);
      assert After(items, after) == After(items[1..], after);
      assert items == [items[0]] + items[1..];
    }
  }

  /** A collection in order is determined by what it holds. */
  lemma {:induction false} OrderedByContents(a: seq<Position>, b: seq<Position>)
    requires Descending(a) && Descending(b) && forall p :: p in a <==> p in b
    ensures a == b
    decreases |a|
  {
    if a == [] {
      SomethingIsIn(b);
    } else if b == [] {
      SomethingIsIn(a);
    } else {
      FirstIsTheSame(a, b);
      forall p ensures p in a[1..] <==> p in b[1..] {
        RestHolds(a, p);
        RestHolds(b, p);
      }
      OrderedByContents(a[1..], b[1..]);
      assert a == [a[0]] + a[1..] && b == [b[0]] + b[1..];
    }
  }

  lemma {:induction false} SomethingIsIn(a: seq<Position>)
    ensures a == [] || exists p :: p in a
  {
    if a != [] {
      assert a[0] in a;
    }
  }

  lemma {:induction false} FirstIsTheSame(a: seq<Position>, b: seq<Position>)
    requires Descending(a) && Descending(b) && (forall p :: p in a <==> p in b) && a != [] && b != []
    ensures a[0] == b[0]
  {
    assert a[0] in b && b[0] in a;
    var i :| 0 <= i < |b| && b[i] == a[0];
    var j :| 0 <= j < |a| && a[j] == b[0];
  }

  lemma {:induction false} RestHolds(a: seq<Position>, p: Position)
    requires Descending(a) && a != []
    ensures p in a[1..] <==> p in a && p != a[0]
  {
    assert a == [a[0]] + a[1..];
    forall i | 1 <= i < |a| ensures a[i] != a[0] {
      assert Below(a[i], a[0]);
    }
  }

  /** Whatever was added, the same items are below a position in both collections; without a position, nothing
      was added. */
  ghost predicate SameBelow(a: seq<Position>, b: seq<Position>, after: Option<Position>) {
    forall p :: after.None? || Below(p, after.value) ==> (p in a <==> p in b)
  }

  lemma {:induction false} SameBelowReadsTheSame(a: seq<Position>, b: seq<Position>, after: Option<Position>)
    requires Descending(a) && Descending(b) && SameBelow(a, b, after)
    ensures After(a, after) == After(b, after)
  {
    var x, y := After(a, after), After(b, after);
    forall p ensures p in x <==> p in y {
      AfterIsWhatIsBelow(a, after, p);
      AfterIsWhatIsBelow(b, after, p);
    }
    OrderedByContents(x, y);
  }

  /** Between any two reads, items were added only above the position the reader had reached by then. */
  ghost predicate OnlyNewerAdded(before: seq<Position>, collections: seq<seq<Position>>, after: Option<Position>,
                                 limit: nat)
    requires limit > 0
    decreases |collections|
  {
    collections == [] ||
    (&& Descending(collections[0]) && SameBelow(before, collections[0], after)
     && var next := Next(collections[0], after, limit);
        next.Some? ==> OnlyNewerAdded(collections[0], collections[1..], next, limit))
  }

  /** Whatever is added above the reader meanwhile, a walk publishes every item that was below its position, once,
      in order, and ends. */
  lemma {:induction false} WalkIsComplete(before: seq<Position>, collections: seq<seq<Position>>,
                                          after: Option<Position>, limit: nat)
    requires limit > 0 && Descending(before) && OnlyNewerAdded(before, collections, after, limit)
    requires |collections| > |After(before, after)|
    ensures Walk(collections, after, limit) == After(before, after)
    decreases |collections|
  {
    var now := collections[0];
    var next := Next(now, after, limit);
    SameBelowReadsTheSame(before, now, after);
    PageAndRest(now, after, limit);
    if next.Some? {
      WalkIsComplete(now, collections[1..], next, limit);
    }
  }

  /** A quiet collection, read page by page from the newest item, is read whole: every item exactly once, in
      strictly descending order, in finitely many pages. */
  lemma {:induction false} QuietWalkReadsEverything(items: seq<Position>, collections: seq<seq<Position>>, limit: nat)
    requires limit > 0 && Descending(items)
    requires |collections| > |items| && forall i :: 0 <= i < |collections| ==> collections[i] == items
    ensures Walk(collections, None, limit) == items
  {
    QuietIsOnlyNewer(items, collections, None, limit);
    assert After(items, None) == items;
    WalkIsComplete(items, collections, None, limit);
  }

  lemma {:induction false} QuietIsOnlyNewer(items: seq<Position>, collections: seq<seq<Position>>,
                                            after: Option<Position>, limit: nat)
    requires limit > 0 && Descending(items)
    requires forall i :: 0 <= i < |collections| ==> collections[i] == items
    ensures OnlyNewerAdded(items, collections, after, limit)
    decreases |collections|
  {
    if collections != [] {
      QuietIsOnlyNewer(items, collections[1..], Next(items, after, limit), limit);
    }
  }
}
