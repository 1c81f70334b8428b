/**
 * What keyset paging promises about the listing: over a table sorted newest
 * first, every page is a run of consecutive eligible rows, the two flags say
 * exactly whether rows lie before or after that run, the keys it hands out
 * lead to the runs right next to it, and the rows a viewer may list are the
 * ones the access voter lets it read.
 */
module ListingProperties {
  import opened Common
  import opened Text
  import opened Timestamps
  import opened Roles
  import opened Documents
  import opened AccessVoter
  import opened Criteria
  import opened Paging
  import opened Listing

  function Min(a: int, b: int): int {
    if a <= b then a else b
  }

  // ---------------------------------------------------------------------
  // The eligible rows

  /** The base query keeps exactly the eligible rows of the table. */
  lemma {:induction false} EligiblesExact(table: seq<DocumentRecord>, viewer: Option<RoleRecord>)
    ensures forall x :: x in Eligibles(table, viewer) <==> x in table && Eligible(x, viewer)
  {
    if |table| > 0 {
      EligiblesExact(table[1..], viewer);
      assert table == [table[0]] + table[1..];
    }
  }

  lemma NewerTransitive(a: DocumentRecord, b: DocumentRecord, c: DocumentRecord)
    requires Newer(a, b) && Newer(b, c)
    ensures Newer(a, c)
  {
    if Before(c.updatedAt, b.updatedAt) && Before(b.updatedAt, a.updatedAt) {
      BeforeTransitive(c.updatedAt, b.updatedAt, a.updatedAt);
    }
  }

  /** In sorted rows every row is newer than every later one. */
  lemma {:induction false} SortedPair(s: seq<DocumentRecord>, i: nat, j: nat)
    requires SortedNewestFirst(s) && i < j < |s|
    ensures Newer(s[i], s[j])
  {
    if i > 0 {
      SortedPair(s[1..], i - 1, j - 1);
    } else if j > 1 {
      SortedPair(s[1..], 0, j - 1);
      NewerTransitive(s[0], s[1], s[j]);
    }
  }

  lemma SortedCons(x: DocumentRecord, rest: seq<DocumentRecord>)
    requires SortedNewestFirst(rest)
    requires |rest| > 0 ==> Newer(x, rest[0])
    ensures SortedNewestFirst([x] + rest)
  {
    assert ([x] + rest)[1..] == rest;
  }

  /** Filtering keeps the listing order. */
  lemma {:induction false} EligiblesSorted(table: seq<DocumentRecord>, viewer: Option<RoleRecord>)
    requires SortedNewestFirst(table)
    ensures SortedNewestFirst(Eligibles(table, viewer))
  {
    if |table| > 0 {
      var tail := table[1..];
      var rest := Eligibles(tail, viewer);
      EligiblesSorted(tail, viewer);
      if !Eligible(table[0], viewer) {
        assert Eligibles(table, viewer) == rest;
      } else if |rest| > 0 {
        EligiblesExact(tail, viewer);
        assert rest[0] in rest;
        var j :| 0 <= j < |tail| && tail[j] == rest[0];
        assert tail[j] == table[j + 1];
        SortedPair(table, 0, j + 1);
        SortedCons(table[0], rest);
      } else {
        assert Eligibles(table, viewer) == [table[0]];
      }
    }
  }

  /**
   * The query fetches at most `getMaxResults` rows, and all of them exactly
   * when more rows lie beyond the bound than the page shows.
   */
  lemma WindowWithinMaxResults(table: seq<DocumentRecord>, c: PageCriteria)
    requires c.limit >= 1
    ensures var w := ExecuteQuery(table, c.ToShape(), c.ViewerRecord());
      |w| <= c.GetMaxResults()
      && (|w| == c.GetMaxResults() <==> |InRangeRows(Eligibles(table, c.ViewerRecord()), c.ToShape())| > c.GetLimit())
  {
  }

  /** The pager condition keeps exactly the rows it admits. */
  lemma {:induction false} InRangeRowsExact(s: seq<DocumentRecord>, shape: Shape)
    ensures forall x :: x in InRangeRows(s, shape) <==> x in s && InRange(x, shape)
  {
    if |s| > 0 {
      InRangeRowsExact(s[1..], shape);
      assert s == [s[0]] + s[1..];
    }
  }

  /** The pager condition keeps the listing order. */
  lemma {:induction false} InRangeRowsSorted(s: seq<DocumentRecord>, shape: Shape)
    requires SortedNewestFirst(s)
    ensures SortedNewestFirst(InRangeRows(s, shape))
  {
    if |s| > 0 {
      var tail := s[1..];
      var rest := InRangeRows(tail, shape);
      InRangeRowsSorted(tail, shape);
      if !InRange(s[0], shape) {
        assert InRangeRows(s, shape) == rest;
      } else if |rest| > 0 {
        InRangeRowsExact(tail, shape);
        assert rest[0] in rest;
        var j :| 0 <= j < |tail| && tail[j] == rest[0];
        assert tail[j] == s[j + 1];
        SortedPair(s, 0, j + 1);
        SortedCons(s[0], rest);
      } else {
        assert InRangeRows(s, shape) == [s[0]];
      }
    }
  }

  // ---------------------------------------------------------------------
  // The bound as a cut in the listing order

  /** In the listing order, `(updated_at, id) < bound` holds of every row after one it holds of. */
  lemma BelowClosed(x: DocumentRecord, y: DocumentRecord, b: Bound)
    requires Newer(x, y) && Below(x, b)
    ensures Below(y, b)
  {
    if Before(y.updatedAt, x.updatedAt) && x.updatedAt != b.time.value {
      BeforeTransitive(y.updatedAt, x.updatedAt, b.time.value);
    }
  }

  /** In the listing order, `(updated_at, id) > bound` holds of every row before one it holds of. */
  lemma AboveClosed(x: DocumentRecord, y: DocumentRecord, b: Bound)
    requires Newer(x, y) && Above(y, b)
    ensures Above(x, b)
  {
    if Before(y.updatedAt, x.updatedAt) && y.updatedAt != b.time.value {
      BeforeTransitive(b.time.value, y.updatedAt, x.updatedAt);
    }
  }

  /** Index of the first row a shape admits (`|s|` if none). */
  function FirstIn(s: seq<DocumentRecord>, shape: Shape): (r: nat)
    ensures r <= |s|
  {
    if |s| == 0 || InRange(s[0], shape) then 0 else 1 + FirstIn(s[1..], shape)
  }

  /** No row before `FirstIn` is admitted, and the row at `FirstIn` is. */
  lemma {:induction false} FirstInAt(s: seq<DocumentRecord>, shape: Shape)
    ensures var r := FirstIn(s, shape);
      (forall k :: 0 <= k < r ==> !InRange(s[k], shape)) && (r < |s| ==> InRange(s[r], shape))
  {
    if |s| > 0 && !InRange(s[0], shape) {
      FirstInAt(s[1..], shape);
      assert forall k :: 1 <= k <= FirstIn(s[1..], shape) ==> s[k] == s[1..][k - 1];
    }
  }

  /** Index of the first row a shape does not admit (`|s|` if none). */
  function FirstOut(s: seq<DocumentRecord>, shape: Shape): (r: nat)
    ensures r <= |s|
  {
    if |s| == 0 || !InRange(s[0], shape) then 0 else 1 + FirstOut(s[1..], shape)
  }

  /** Every row before `FirstOut` is admitted, and the row at `FirstOut` is not. */
  lemma {:induction false} FirstOutAt(s: seq<DocumentRecord>, shape: Shape)
    ensures var r := FirstOut(s, shape);
      (forall k :: 0 <= k < r ==> InRange(s[k], shape)) && (r < |s| ==> !InRange(s[r], shape))
  {
    if |s| > 0 && InRange(s[0], shape) {
      FirstOutAt(s[1..], shape);
      assert forall k :: 1 <= k <= FirstOut(s[1..], shape) ==> s[k] == s[1..][k - 1];
    }
  }

  /** When a shape admits exactly the rows at indices `lo..hi`, the filter yields that slice. */
  lemma {:induction false} InRangeRowsSlice(s: seq<DocumentRecord>, shape: Shape, lo: nat, hi: nat)
    requires lo <= hi <= |s|
    requires forall k :: 0 <= k < |s| ==> (InRange(s[k], shape) <==> lo <= k < hi)
    ensures InRangeRows(s, shape) == s[lo..hi]
  {
    if |s| > 0 {
      var lo', hi' := if lo > 0 then lo - 1 else 0, if hi > 0 then hi - 1 else 0;
      forall k | 0 <= k < |s| - 1 ensures InRange(s[1..][k], shape) <==> lo' <= k < hi' {
        assert s[1..][k] == s[k + 1];
      }
      InRangeRowsSlice(s[1..], shape, lo', hi');
      if lo == 0 && hi > 0 {
        assert s[lo..hi] == [s[0]] + s[1..][lo'..hi'];
      } else {
        assert s[lo..hi] == s[1..][lo'..hi'];
      }
    }
  }

  lemma BelowClosedSeq(s: seq<DocumentRecord>, shape: Shape)
    requires SortedNewestFirst(s) && shape.direction == Next
    ensures forall i, j :: 0 <= i < j < |s| && InRange(s[i], shape) ==> InRange(s[j], shape)
  {
    forall i, j | 0 <= i < j < |s| && InRange(s[i], shape) && |shape.boundaries| > 0
      ensures InRange(s[j], shape)
    {
      SortedPair(s, i, j);
      BelowClosed(s[i], s[j], BoundOf(shape));
    }
  }

  lemma AboveClosedSeq(s: seq<DocumentRecord>, shape: Shape)
    requires SortedNewestFirst(s) && shape.direction == Prev
    ensures forall i, j :: 0 <= i < j < |s| && InRange(s[j], shape) ==> InRange(s[i], shape)
  {
    forall i, j | 0 <= i < j < |s| && InRange(s[j], shape) && |shape.boundaries| > 0
      ensures InRange(s[i], shape)
    {
      SortedPair(s, i, j);
      AboveClosed(s[i], s[j], BoundOf(shape));
    }
  }

  /** Over sorted rows a NEXT shape admits a suffix: everything from its first admitted row on. */
  lemma NextRangeIsSuffix(s: seq<DocumentRecord>, shape: Shape)
    requires SortedNewestFirst(s) && shape.direction == Next
    ensures forall k :: 0 <= k < |s| ==> (InRange(s[k], shape) <==> FirstIn(s, shape) <= k)
  {
    BelowClosedSeq(s, shape);
  }

  /** Over sorted rows a PREV shape admits a prefix: everything before its first rejected row. */
  lemma PrevRangeIsPrefix(s: seq<DocumentRecord>, shape: Shape)
    requires SortedNewestFirst(s) && shape.direction == Prev
    ensures forall k :: 0 <= k < |s| ==> (InRange(s[k], shape) <==> k < FirstOut(s, shape))
  {
    AboveClosedSeq(s, shape);
  }

  /** The bound of a pager built from a row is that row's `(updated_at, id)`. */
  lemma RowBound(row: DocumentRecord, limit: int, direction: Direction)
    ensures var shape := Shape(limit, direction, RowBoundaries(row));
      |shape.boundaries| > 0 && BoundOf(shape) == Bound(Some(row.updatedAt), Some(row.id))
  {
  }

  /** In sorted rows, the listing order is the index order. */
  lemma SortedOrder(s: seq<DocumentRecord>, i: nat, j: nat)
    requires SortedNewestFirst(s) && i < |s| && j < |s|
    ensures Newer(s[i], s[j]) <==> i < j
  {
    if i < j {
      SortedPair(s, i, j);
    } else if j < i {
      SortedPair(s, j, i);
      BeforeTotal(s[i].updatedAt, s[j].updatedAt);
    }
  }

  /** Bounded by row `s[j]`, a PREV shape admits exactly the rows before index `j`. */
  lemma PrevOfRow(s: seq<DocumentRecord>, j: nat, shape: Shape)
    requires SortedNewestFirst(s) && j < |s|
    requires shape.direction == Prev && |shape.boundaries| > 0 && BoundOf(shape) == Bound(Some(s[j].updatedAt), Some(s[j].id))
    ensures forall i :: 0 <= i < |s| ==> (InRange(s[i], shape) <==> i < j)
  {
    forall i | 0 <= i < |s| ensures InRange(s[i], shape) <==> i < j {
      SortedOrder(s, i, j);
    }
  }

  /** Bounded by row `s[j]`, a NEXT shape admits exactly the rows after index `j`. */
  lemma NextOfRow(s: seq<DocumentRecord>, j: nat, shape: Shape)
    requires SortedNewestFirst(s) && j < |s|
    requires shape.direction == Next && |shape.boundaries| > 0 && BoundOf(shape) == Bound(Some(s[j].updatedAt), Some(s[j].id))
    ensures forall i :: 0 <= i < |s| ==> (InRange(s[i], shape) <==> j < i)
  {
    forall i | 0 <= i < |s| ensures InRange(s[i], shape) <==> j < i {
      SortedOrder(s, j, i);
    }
  }

  /** Reversing the first `n` of the reversed rows gives back the last `n` rows. */
  lemma ReverseTakeReverse<T>(s: seq<T>, n: nat)
    ensures Reverse(Take(Reverse(s), n)) == s[|s| - Min(|s|, n)..]
  {
    var rs := Reverse(s);
    var t := Take(rs, n);
    var r := Reverse(t);
    var m := Min(|s|, n);
    assert |t| == m;
    forall i | 0 <= i < m ensures r[i] == s[|s| - m + i] {
      assert r[i] == t[m - 1 - i];
      assert t[m - 1 - i] == rs[m - 1 - i];
    }
  }

  // ---------------------------------------------------------------------
  // Pages

  /**
   * The page of a non-empty window: the displayed rows and the total; each
   * pager exists exactly when the source lets it, and is bounded by an edge
   * of the displayed rows, the first for PREV and the last for NEXT.
   */
  lemma PageEdges(w: seq<DocumentRecord>, total: int, limit: int, direction: Direction, hasOffset: bool)
    requires limit >= 1 && |w| >= 1
    ensures var p := PageOf(w, total, limit, direction, hasOffset);
      |p.items| >= 1 && p.items == Displayed(w, limit, direction) && p.total == total
      && (p.prev.Some? <==> !((direction == Next && !hasOffset) || (direction == Prev && IsLastPage(|w|, limit))))
      && (p.next.Some? <==> !((direction == Prev && !hasOffset) || (direction == Next && IsLastPage(|w|, limit))))
      && (p.prev.Some? ==> p.prev.value == Shape(limit, Prev, RowBoundaries(p.items[0])))
      && (p.next.Some? ==> p.next.value == Shape(limit, Next, RowBoundaries(p.items[|p.items| - 1])))
  {
  }

  /** The page of a NEXT window that starts at `e[k]`. */
  lemma NextPageOf(e: seq<DocumentRecord>, k: nat, limit: int, hasOffset: bool)
    requires limit >= 1 && k < |e|
    ensures var p := PageOf(Take(e[k..], limit + 1), |e|, limit, Next, hasOffset);
      p.items == Take(e[k..], limit) && p.total == |e|
      && (p.prev.Some? <==> hasOffset) && (p.next.Some? <==> k + limit < |e|)
  {
    var w := Take(e[k..], limit + 1);
    PageEdges(w, |e|, limit, Next, hasOffset);
    if |w| == limit + 1 {
      assert w[..|w| - 1] == e[k..][..limit];
    }
  }

  /** The page of a PREV window that ends before `e[k]`, with at most `limit + 1` rows. */
  lemma PrevPageOf(e: seq<DocumentRecord>, k: nat, limit: int, hasOffset: bool)
    requires limit >= 1 && 0 < k <= |e|
    ensures var m := Min(k, limit + 1);
      var p := PageOf(e[k - m..k], |e|, limit, Prev, hasOffset);
      p.items == e[k - Min(k, limit)..k] && p.total == |e|
      && (p.prev.Some? <==> k > limit) && (p.next.Some? <==> hasOffset)
  {
    var m := Min(k, limit + 1);
    var w := e[k - m..k];
    PageEdges(w, |e|, limit, Prev, hasOffset);
    if m == limit + 1 {
      assert w[1..] == e[k - limit..k];
    }
  }

  /** The window of a NEXT request over sorted rows: up to `limit + 1` rows from the first one its bound admits. */
  lemma NextWindow(e: seq<DocumentRecord>, shape: Shape)
    requires SortedNewestFirst(e) && shape.direction == Next && shape.limit >= 0
    ensures Window(e, shape) == Take(e[FirstIn(e, shape)..], shape.limit + 1)
  {
    var k := FirstIn(e, shape);
    NextRangeIsSuffix(e, shape);
    InRangeRowsSlice(e, shape, k, |e|);
    assert StatementRows(e, shape) == Take(e[k..], shape.limit + 1);
  }

  /** The window of a bounded PREV request over sorted rows: up to `limit + 1` rows before the first one its bound rejects. */
  lemma PrevWindow(e: seq<DocumentRecord>, shape: Shape)
    requires SortedNewestFirst(e) && shape.direction == Prev && |shape.boundaries| > 0 && shape.limit >= 0
    ensures var k := FirstOut(e, shape);
      Window(e, shape) == e[k - Min(k, shape.limit + 1)..k]
  {
    var k := FirstOut(e, shape);
    PrevRangeIsPrefix(e, shape);
    InRangeRowsSlice(e, shape, 0, k);
    assert StatementRows(e, shape) == Take(Reverse(e[0..k]), shape.limit + 1);
    ReverseTakeReverse(e[0..k], shape.limit + 1);
  }

  /** The probe before row `j` of sorted rows finds a row iff `j` is not the first. */
  lemma ProbeBefore(e: seq<DocumentRecord>, j: nat)
    requires SortedNewestFirst(e) && j < |e|
    ensures |StatementRows(e, Shape(1, Prev, RowBoundaries(e[j])))| > 0 <==> j > 0
  {
    var o := Shape(1, Prev, RowBoundaries(e[j]));
    RowBound(e[j], 1, Prev);
    PrevOfRow(e, j, o);
    InRangeRowsSlice(e, o, 0, j);
    assert |StatementRows(e, o)| == Min(j, 2);
  }

  /** The probe after row `j` of sorted rows finds a row iff `j` is not the last. */
  lemma ProbeAfter(e: seq<DocumentRecord>, j: nat)
    requires SortedNewestFirst(e) && j < |e|
    ensures |StatementRows(e, Shape(1, Next, RowBoundaries(e[j])))| > 0 <==> j + 1 < |e|
  {
    var o := Shape(1, Next, RowBoundaries(e[j]));
    RowBound(e[j], 1, Next);
    NextOfRow(e, j, o);
    InRangeRowsSlice(e, o, j + 1, |e|);
  }

  /** The probe before the first row of a NEXT window from `e[k]` of sorted rows finds a row iff `k` is not the first. */
  lemma NextProbe(e: seq<DocumentRecord>, k: nat, limit: int)
    requires SortedNewestFirst(e) && k < |e| && limit >= 1
    ensures |StatementRows(e, ProbeShape(Take(e[k..], limit + 1), Next))| > 0 <==> 0 < k
  {
    assert Take(e[k..], limit + 1)[0] == e[k];
    ProbeBefore(e, k);
  }

  /** The probe after the last row of a PREV window that ends before `e[k]` of sorted rows finds a row iff `e[k]` exists. */
  lemma PrevProbe(e: seq<DocumentRecord>, k: nat, limit: int)
    requires SortedNewestFirst(e) && 0 < k <= |e| && limit >= 1
    ensures |StatementRows(e, ProbeShape(e[k - Min(k, limit + 1)..k], Prev))| > 0 <==> k < |e|
  {
    var w := e[k - Min(k, limit + 1)..k];
    assert w[|w| - 1] == e[k - 1];
    ProbeAfter(e, k - 1);
  }

  /** A request whose window is the non-empty `w` gets the page of `w`, with the probe run beyond `w`. */
  lemma PageOfWindow(e: seq<DocumentRecord>, shape: Shape, w: seq<DocumentRecord>)
    requires shape.limit >= 1 && Window(e, shape) == w && |w| >= 1
    ensures PageFor(e, shape) == PageOf(w, |e|, shape.limit, shape.direction, |StatementRows(e, ProbeShape(w, shape.direction))| > 0)
  {
  }

  /**
   * What a NEXT request whose bound first admits row `k` shows: `limit` rows
   * from `k`; a previous pager iff rows precede `k`, a next pager iff more
   * than `limit` rows follow, and the full count unless the page is empty.
   */
  predicate NextPageShows(e: seq<DocumentRecord>, p: Page, k: nat, limit: nat)
    requires k <= |e|
  {
    p.items == Take(e[k..], limit)
    && (p.prev.Some? <==> 0 < k < |e|) && (p.next.Some? <==> k + limit < |e|)
    && p.total == (if k < |e| then |e| else 0)
  }

  /**
   * What a bounded PREV request whose bound first rejects row `k` shows: the
   * last `limit` rows before `k`; a previous pager iff more than `limit` rows
   * precede `k`, a next pager iff rows follow, and the full count unless the
   * page is empty.
   */
  predicate PrevPageShows(e: seq<DocumentRecord>, p: Page, k: nat, limit: nat)
    requires k <= |e|
  {
    p.items == e[k - Min(k, limit)..k]
    && (p.prev.Some? <==> k > limit) && (p.next.Some? <==> 0 < k < |e|)
    && p.total == (if k > 0 then |e| else 0)
  }

  /** A NEXT request whose window starts at `e[k]`, once the probe has answered. */
  lemma NextPageFromWindow(e: seq<DocumentRecord>, shape: Shape, k: nat)
    requires shape.direction == Next && shape.limit >= 1 && k < |e|
    requires Window(e, shape) == Take(e[k..], shape.limit + 1)
    requires |StatementRows(e, ProbeShape(Take(e[k..], shape.limit + 1), Next))| > 0 <==> 0 < k
    ensures NextPageShows(e, PageFor(e, shape), k, shape.limit)
  {
    var w := Take(e[k..], shape.limit + 1);
    PageOfWindow(e, shape, w);
    NextPageOf(e, k, shape.limit, |StatementRows(e, ProbeShape(w, Next))| > 0);
  }

  /** A NEXT request over sorted rows whose window starts at `e[k]`. */
  lemma NextPageAt(e: seq<DocumentRecord>, shape: Shape, k: nat)
    requires SortedNewestFirst(e) && shape.direction == Next && shape.limit >= 1 && k < |e|
    requires Window(e, shape) == Take(e[k..], shape.limit + 1)
    ensures NextPageShows(e, PageFor(e, shape), k, shape.limit)
  {
    NextProbe(e, k, shape.limit);
    NextPageFromWindow(e, shape, k);
  }

  /** A NEXT request whose bound admits no row gets the empty page. */
  lemma NextPageNone(e: seq<DocumentRecord>, shape: Shape)
    requires shape.direction == Next && shape.limit >= 1
    requires Window(e, shape) == Take(e[|e|..], shape.limit + 1)
    ensures NextPageShows(e, PageFor(e, shape), |e|, shape.limit)
  {
    assert e[|e|..] == [];
    EmptyWindowPage(e, shape);
  }

  /** A bounded PREV request whose window ends before `e[k]`, once the probe has answered. */
  lemma PrevPageFromWindow(e: seq<DocumentRecord>, shape: Shape, k: nat)
    requires shape.direction == Prev && shape.limit >= 1 && 0 < k <= |e|
    requires Window(e, shape) == e[k - Min(k, shape.limit + 1)..k]
    requires |StatementRows(e, ProbeShape(e[k - Min(k, shape.limit + 1)..k], Prev))| > 0 <==> k < |e|
    ensures PrevPageShows(e, PageFor(e, shape), k, shape.limit)
  {
    var w := e[k - Min(k, shape.limit + 1)..k];
    PageOfWindow(e, shape, w);
    PrevPageOf(e, k, shape.limit, |StatementRows(e, ProbeShape(w, Prev))| > 0);
  }

  /** A bounded PREV request over sorted rows whose window ends before `e[k]`. */
  lemma PrevPageAt(e: seq<DocumentRecord>, shape: Shape, k: nat)
    requires SortedNewestFirst(e) && shape.direction == Prev && shape.limit >= 1 && 0 < k <= |e|
    requires Window(e, shape) == e[k - Min(k, shape.limit + 1)..k]
    ensures PrevPageShows(e, PageFor(e, shape), k, shape.limit)
  {
    PrevProbe(e, k, shape.limit);
    PrevPageFromWindow(e, shape, k);
  }

  /** A bounded PREV request whose bound rejects the first row gets the empty page. */
  lemma PrevPageNone(e: seq<DocumentRecord>, shape: Shape)
    requires shape.direction == Prev && shape.limit >= 1
    requires |Window(e, shape)| == 0
    ensures PrevPageShows(e, PageFor(e, shape), 0, shape.limit)
  {
    EmptyWindowPage(e, shape);
  }

  /** Up to `n` rows before index `0`: none. */
  lemma NoRowsBefore(e: seq<DocumentRecord>, k: nat, n: int)
    requires k == 0 && n >= 0
    ensures e[k - Min(k, n)..k] == []
  {
  }

  /** A request whose window is empty gets the empty page. */
  lemma EmptyWindowPage(e: seq<DocumentRecord>, shape: Shape)
    requires shape.limit >= 1 && |Window(e, shape)| == 0
    ensures PageFor(e, shape) == Page([], 0, None, None)
  {
  }

  /**
   * A NEXT request over the sorted rows `e` a viewer may list shows `limit`
   * rows from the first one its bound admits (index `k`); it has a previous
   * pager iff rows precede `k`, a next pager iff more than `limit` rows
   * follow, and reports the full count unless the page is empty.
   */
  lemma NextPage(e: seq<DocumentRecord>, shape: Shape)
    requires SortedNewestFirst(e) && shape.direction == Next && shape.limit >= 1
    ensures NextPageShows(e, PageFor(e, shape), FirstIn(e, shape), shape.limit)
  {
    var k := FirstIn(e, shape);
    NextWindow(e, shape);
    if k < |e| {
      NextPageAt(e, shape, k);
    } else {
      NextPageNone(e, shape);
    }
  }

  /**
   * A bounded PREV request over the sorted rows `e` a viewer may list shows
   * the last `limit` rows before the first one its bound rejects (index
   * `k`); it has a previous pager iff more than `limit` rows precede `k`, a
   * next pager iff rows follow.
   */
  lemma PrevPage(e: seq<DocumentRecord>, shape: Shape)
    requires SortedNewestFirst(e) && shape.direction == Prev && |shape.boundaries| > 0 && shape.limit >= 1
    ensures PrevPageShows(e, PageFor(e, shape), FirstOut(e, shape), shape.limit)
  {
    var k := FirstOut(e, shape);
    PrevWindow(e, shape);
    if k > 0 {
      PrevPageAt(e, shape, k);
    } else {
      NoRowsBefore(e, k, shape.limit + 1);
      PrevPageNone(e, shape);
    }
  }

  /** The requests paging can make: NEXT ones, and PREV ones with a bound. */
  predicate Pageable(shape: Shape) {
    shape.limit >= 1 && (shape.direction == Next || |shape.boundaries| > 0)
  }

  /** `items` is the run of `e` that starts at index `a`. */
  predicate RunAt(e: seq<DocumentRecord>, items: seq<DocumentRecord>, a: int) {
    0 <= a && a + |items| <= |e| && items == e[a..a + |items|]
  }

  /** The edges of a non-empty run at `a` are the rows at `a` and right before `a + |items|`. */
  lemma RunEdges(e: seq<DocumentRecord>, items: seq<DocumentRecord>, a: int)
    requires RunAt(e, items, a) && |items| > 0
    ensures items[0] == e[a] && items[|items| - 1] == e[a + |items| - 1]
  {
    assert items[|items| - 1] == e[a..a + |items|][|items| - 1];
  }

  /** Where a page starts among the rows `e`. */
  function PageStart(e: seq<DocumentRecord>, shape: Shape): nat {
    if shape.direction == Next then FirstIn(e, shape)
    else FirstOut(e, shape) - Min(FirstOut(e, shape), shape.limit)
  }

  /**
   * The page `p` shows the run of rows of `e` that starts at `a`, at most
   * `limit` long; it has a previous pager exactly when rows precede the run
   * and a next pager exactly when rows follow it; its total is the row count
   * unless it is empty.
   */
  predicate ShowsRun(e: seq<DocumentRecord>, p: Page, a: int, limit: int) {
    |p.items| <= limit && RunAt(e, p.items, a)
    && (p.prev.Some? <==> |p.items| > 0 && a > 0)
    && (p.next.Some? <==> |p.items| > 0 && a + |p.items| < |e|)
    && p.total == (if |p.items| > 0 then |e| else 0)
  }

  /** The first `n` rows from index `k` are the run at `k`, non-empty iff `k` is a row, with rows after it iff more than `n` follow `k`. */
  lemma TakeRun(e: seq<DocumentRecord>, k: nat, n: nat)
    requires k <= |e| && n >= 1
    ensures var items := Take(e[k..], n);
      |items| <= n && RunAt(e, items, k) && (|items| > 0 <==> k < |e|) && (k + |items| < |e| <==> k + n < |e|)
  {
    var items := Take(e[k..], n);
    assert items == e[k..k + |items|];
  }

  /** The last up to `n` rows before index `k` are the run that ends at `k`, non-empty iff `k > 0`, with rows before it iff more than `n` precede `k`. */
  lemma DropRun(e: seq<DocumentRecord>, k: nat, n: nat)
    requires k <= |e| && n >= 1
    ensures var a := k - Min(k, n);
      var items := e[a..k];
      |items| <= n && RunAt(e, items, a) && a + |items| == k && (|items| > 0 <==> k > 0) && (a > 0 <==> k > n)
  {
  }

  /** The slice facts of a NEXT page, from what `NextPage` says about it. */
  lemma NextRunOfPage(e: seq<DocumentRecord>, k: nat, limit: int, p: Page)
    requires k <= |e| && limit >= 1
    requires NextPageShows(e, p, k, limit)
    ensures ShowsRun(e, p, k, limit)
  {
    TakeRun(e, k, limit);
  }

  /** The slice facts of a bounded PREV page, from what `PrevPage` says about it. */
  lemma PrevRunOfPage(e: seq<DocumentRecord>, k: nat, limit: int, p: Page, a: int)
    requires k <= |e| && limit >= 1 && a == k - Min(k, limit)
    requires PrevPageShows(e, p, k, limit)
    ensures ShowsRun(e, p, a, limit)
  {
    DropRun(e, k, limit);
  }

  /** A NEXT page over sorted rows is the run that starts at `PageStart`, with pagers exactly where rows lie beyond it. */
  lemma NextSlice(e: seq<DocumentRecord>, shape: Shape)
    requires SortedNewestFirst(e) && shape.direction == Next && shape.limit >= 1
    ensures ShowsRun(e, PageFor(e, shape), PageStart(e, shape), shape.limit)
  {
    NextPage(e, shape);
    NextRunOfPage(e, FirstIn(e, shape), shape.limit, PageFor(e, shape));
  }

  /** A bounded PREV page over sorted rows is the run that starts at `PageStart`, with pagers exactly where rows lie beyond it. */
  lemma PrevSlice(e: seq<DocumentRecord>, shape: Shape)
    requires SortedNewestFirst(e) && shape.direction == Prev && |shape.boundaries| > 0 && shape.limit >= 1
    ensures ShowsRun(e, PageFor(e, shape), PageStart(e, shape), shape.limit)
  {
    PrevPage(e, shape);
    PrevRunOfPage(e, FirstOut(e, shape), shape.limit, PageFor(e, shape), PageStart(e, shape));
  }

  /**
   * Over sorted rows every page is the run of consecutive rows that starts
   * at `PageStart`, at most `limit` long; it has a previous pager exactly
   * when rows precede it and a next pager exactly when rows follow it; the
   * total is the row count unless the page is empty.
   */
  lemma WindowIsSlice(e: seq<DocumentRecord>, shape: Shape)
    requires SortedNewestFirst(e) && Pageable(shape)
    ensures ShowsRun(e, PageFor(e, shape), PageStart(e, shape), shape.limit)
  {
    if shape.direction == Next {
      NextSlice(e, shape);
    } else {
      PrevSlice(e, shape);
    }
  }

  /**
   * The pagers of `p` keep the page size `limit` and are bounded by its
   * edges: the previous pager by its first row, the next pager by its last.
   */
  predicate PagersAtEdges(p: Page, limit: int) {
    (p.prev.Some? ==> |p.items| > 0 && p.prev == Some(Shape(limit, Prev, RowBoundaries(p.items[0]))))
    && (p.next.Some? ==> |p.items| > 0 && p.next == Some(Shape(limit, Next, RowBoundaries(p.items[|p.items| - 1]))))
  }

  /** The pagers of a non-empty window's page sit at its edges. */
  lemma PagersOfWindow(w: seq<DocumentRecord>, total: int, limit: int, direction: Direction, hasOffset: bool)
    requires limit >= 1 && |w| >= 1
    ensures PagersAtEdges(PageOf(w, total, limit, direction, hasOffset), limit)
  {
    PageEdges(w, total, limit, direction, hasOffset);
  }

  /** Every page's pagers keep its size and sit at its edges. */
  lemma PagersOfPage(e: seq<DocumentRecord>, shape: Shape)
    requires shape.limit >= 1
    ensures PagersAtEdges(PageFor(e, shape), shape.limit)
  {
    var w := Window(e, shape);
    if |w| > 0 {
      var hasOffset := |StatementRows(e, ProbeShape(w, shape.direction))| > 0;
      PageOfWindow(e, shape, w);
      PagersOfWindow(w, |e|, shape.limit, shape.direction, hasOffset);
    } else {
      EmptyWindowPage(e, shape);
    }
  }

  /**
   * The listing over a table sorted newest first: the rows shown are the run
   * of eligible rows that starts at `PageStart`, at most `limit` of them;
   * `hasPrev` says exactly that eligible rows precede the run, `hasNext`
   * that eligible rows follow it; the total is the eligible count unless
   * nothing is shown.
   */
  lemma ListingIsSlice(table: seq<DocumentRecord>, shape: Shape, viewer: Option<RoleRecord>)
    requires SortedNewestFirst(table) && Pageable(shape)
    ensures var e := Eligibles(table, viewer);
      var r := ListSpec(table, shape, viewer);
      var a := PageStart(e, shape);
      |r.items| <= shape.limit && RunAt(e, r.items, a)
      && (r.hasPrev <==> |r.items| > 0 && a > 0)
      && (r.hasNext <==> |r.items| > 0 && a + |r.items| < |e|)
      && r.total == (if |r.items| > 0 then |e| else 0)
  {
    EligiblesSorted(table, viewer);
    WindowIsSlice(Eligibles(table, viewer), shape);
  }

  /** The first page never offers a previous page, and lists the `limit` newest eligible rows. */
  lemma FirstPageListing(table: seq<DocumentRecord>, limit: int, viewer: Option<RoleRecord>)
    requires SortedNewestFirst(table) && limit >= 1
    ensures !ListSpec(table, FirstPage(limit), viewer).hasPrev
    ensures ListSpec(table, FirstPage(limit), viewer).items == Take(Eligibles(table, viewer), limit)
  {
    var e := Eligibles(table, viewer);
    EligiblesSorted(table, viewer);
    NextPage(e, FirstPage(limit));
    assert FirstIn(e, FirstPage(limit)) == 0;
    assert e[0..] == e;
  }

  /** An empty page is the bare empty result: no total, no keys, no flags. */
  lemma EmptyListing(table: seq<DocumentRecord>, shape: Shape, viewer: Option<RoleRecord>)
    requires shape.limit >= 1
    ensures var r := ListSpec(table, shape, viewer);
      r.items == [] <==> r == EmptyList()
  {
    var e := Eligibles(table, viewer);
    var w := Window(e, shape);
    if |w| > 0 {
      var hasOffset := |StatementRows(e, ProbeShape(w, shape.direction))| > 0;
      PageEdges(w, |e|, shape.limit, shape.direction, hasOffset);
    }
  }

  // ---------------------------------------------------------------------
  // Keys

  /** A row the database can hold: an auto-increment id (from 1) and a DATETIME before year 10000. */
  predicate Storable(row: DocumentRecord) {
    row.id > 0 && Valid(row.updatedAt) && row.updatedAt.year < 10000
  }

  /** The dashed date reads back to the fourteen digits it was built from. */
  lemma DashedRoundTrip(d: string)
    requires |d| == 14 && AllDigits(d)
    ensures IsSqlDateTime(DashedDate(d)) && Undashed(DashedDate(d)) == d
  {
    var s := DashedDate(d);
    assert Undashed(s) == d[0..4] + d[4..6] + d[6..8] + d[8..10] + d[10..12] + d[12..14];
    assert d == d[0..4] + d[4..6] + d[6..8] + d[8..10] + d[10..12] + d[12..14];
  }

  /** Where the pieces of an assembled key sit. */
  lemma KeyPieces(c: char, id: string, date: string)
    requires |date| == 14
    ensures var key := [c] + "-" + id + "-" + date;
      |key| == |id| + 17 && key[0] == c && key[1] == '-' && key[|key| - 15] == '-'
      && key[2..|key| - 15] == id && key[|key| - 14..] == date
  {
    var key := [c] + "-" + id + "-" + date;
    assert key[2..|key| - 15] == id;
    assert key[|key| - 14..] == date;
  }

  /** A key assembled from a direction letter, a digit run and fourteen digits matches, and yields those parts. */
  lemma KeyParse(c: char, id: string, date: string)
    requires c == 'p' || c == 'n'
    requires |id| > 0 && AllDigits(id) && |date| == 14 && AllDigits(date)
    ensures MatchKeyExactly([c] + "-" + id + "-" + date) == Some(KeyParts(if c == 'n' then Next else Prev, id, date))
  {
    KeyPieces(c, id, date);
  }

  /**
   * The key written for a pager: its letter, the bound row's id in decimal,
   * its update time as `YmdHis`. This is the shape `KeyParse` reads back,
   * which is how a key handed out leads to the page it names.
   */
  lemma PagerKeyText(row: DocumentRecord, limit: int, direction: Direction)
    ensures var pager := Shape(limit, direction, RowBoundaries(row));
      Keyable(Some(pager))
      && CreatePageKey(Some(pager)) == [if direction == Prev then 'p' else 'n'] + "-" + NatToDecimal(row.id) + "-" + FormatYmdHis(row.updatedAt)
  {
  }

  /** The text boundaries a key for `row` decodes to: its id in decimal and its update time as `Y-m-d H:i:s`. */
  function KeyBoundaries(row: DocumentRecord): map<string, BoundaryValue>
    requires Storable(row)
  {
    FormatParseRoundTrip(row.updatedAt);
    map[BOUND_ID := TextValue(NatToDecimal(row.id)), BOUND_UPDATED_AT := TextValue(DashedDate(FormatYmdHis(row.updatedAt)))]
  }

  /** The key written for a pager bounded by a stored row decodes to a bounded request of the same size and direction. */
  lemma KeyDecodes(row: DocumentRecord, limit: int, direction: Direction)
    requires Storable(row)
    ensures var pager := Shape(limit, direction, RowBoundaries(row));
      Keyable(Some(pager))
      && DecodeKey(Some(CreatePageKey(Some(pager))), limit) == Shape(limit, direction, KeyBoundaries(row))
  {
    PagerKeyText(row, limit, direction);
    var id := NatToDecimal(row.id);
    var date := FormatYmdHis(row.updatedAt);
    FormatParseRoundTrip(row.updatedAt);
    KeyParse(if direction == Prev then 'p' else 'n', id, date);
    DecimalRoundTrip(row.id);
    assert DecimalValue("0") == 0;
  }

  /** The decoded text boundaries bind the same parameters as the row's own id and DateTime. */
  lemma KeyBound(row: DocumentRecord, limit: int, direction: Direction)
    requires Storable(row)
    ensures BoundOf(Shape(limit, direction, KeyBoundaries(row)))
         == BoundOf(Shape(limit, direction, RowBoundaries(row)))
  {
    var date := FormatYmdHis(row.updatedAt);
    FormatParseRoundTrip(row.updatedAt);
    DashedRoundTrip(date);
    DecimalRoundTrip(row.id);
  }

  /** Two requests that agree on size, direction, being bounded and the bound. */
  predicate SameRequest(s1: Shape, s2: Shape) {
    s1.limit == s2.limit && s1.direction == s2.direction
    && (|s1.boundaries| > 0 <==> |s2.boundaries| > 0) && BoundOf(s1) == BoundOf(s2)
  }

  /**
   * The key written for a pager bounded by a stored row decodes to a request
   * in the same direction with the same size whose bound is that row.
   */
  lemma KeyRoundTrip(row: DocumentRecord, limit: int, direction: Direction)
    requires Storable(row)
    ensures var pager := Shape(limit, direction, RowBoundaries(row));
      Keyable(Some(pager)) && SameRequest(DecodeKey(Some(CreatePageKey(Some(pager))), limit), pager)
  {
    KeyDecodes(row, limit, direction);
    KeyBound(row, limit, direction);
    RowBound(row, limit, direction);
    assert BOUND_ID in KeyBoundaries(row);
  }

  /** Two requests that agree on direction, on being bounded, and on the bound admit the same rows. */
  lemma {:induction false} SameRange(s: seq<DocumentRecord>, s1: Shape, s2: Shape)
    requires s1.direction == s2.direction && (|s1.boundaries| > 0 <==> |s2.boundaries| > 0) && BoundOf(s1) == BoundOf(s2)
    ensures InRangeRows(s, s1) == InRangeRows(s, s2)
  {
    if |s| > 0 {
      SameRange(s[1..], s1, s2);
      assert InRange(s[0], s1) == InRange(s[0], s2);
    }
  }

  /** Two requests that agree on size, direction, being bounded and the bound give the same page. */
  lemma SameBoundSamePage(e: seq<DocumentRecord>, s1: Shape, s2: Shape)
    requires SameRequest(s1, s2) && s1.limit >= 1
    ensures PageFor(e, s1) == PageFor(e, s2)
  {
    SameRange(e, s1, s2);
    assert Window(e, s1) == Window(e, s2);
  }

  /** Over sorted rows, the first row a NEXT bound at `e[j]` admits is the one right after it. */
  lemma FirstInAfterRow(e: seq<DocumentRecord>, j: nat, pager: Shape)
    requires SortedNewestFirst(e) && j < |e|
    requires pager.direction == Next && |pager.boundaries| > 0 && BoundOf(pager) == Bound(Some(e[j].updatedAt), Some(e[j].id))
    ensures FirstIn(e, pager) == j + 1
  {
    NextOfRow(e, j, pager);
    FirstInAt(e, pager);
  }

  /** Over sorted rows, the first row a PREV bound at `e[a]` rejects is `e[a]` itself. */
  lemma FirstOutAtRow(e: seq<DocumentRecord>, a: nat, pager: Shape)
    requires SortedNewestFirst(e) && a < |e|
    requires pager.direction == Prev && |pager.boundaries| > 0 && BoundOf(pager) == Bound(Some(e[a].updatedAt), Some(e[a].id))
    ensures FirstOut(e, pager) == a
  {
    PrevOfRow(e, a, pager);
    FirstOutAt(e, pager);
  }

  /** Bounded by row `e[j]` of sorted rows, a NEXT request shows the `limit` rows after it and has a previous pager. */
  lemma PageAfterRow(e: seq<DocumentRecord>, j: nat, pager: Shape)
    requires SortedNewestFirst(e) && j + 1 < |e| && pager.limit >= 1
    requires pager == Shape(pager.limit, Next, RowBoundaries(e[j]))
    ensures PageFor(e, pager).items == Take(e[j + 1..], pager.limit) && PageFor(e, pager).prev.Some?
  {
    RowBound(e[j], pager.limit, Next);
    FirstInAfterRow(e, j, pager);
    NextPage(e, pager);
  }

  /** Bounded by row `e[a]` of sorted rows, a PREV request shows the up to `limit` rows before it and has a next pager. */
  lemma PageBeforeRow(e: seq<DocumentRecord>, a: nat, pager: Shape)
    requires SortedNewestFirst(e) && 0 < a < |e| && pager.limit >= 1
    requires pager == Shape(pager.limit, Prev, RowBoundaries(e[a]))
    ensures PageFor(e, pager).items == e[a - Min(a, pager.limit)..a] && PageFor(e, pager).next.Some?
  {
    RowBound(e[a], pager.limit, Prev);
    FirstOutAtRow(e, a, pager);
    PrevPage(e, pager);
  }

  /** `q` lists the `limit` rows right after the run `items` at `a` of `e`, and offers a previous page. */
  predicate ContinuesAfter(e: seq<DocumentRecord>, items: seq<DocumentRecord>, a: int, q: Page, limit: nat) {
    RunAt(e, items, a) && a + |items| < |e| && q.items == Take(e[a + |items|..], limit) && q.prev.Some?
  }

  /** `q` lists the rows right before the run `items` at `a` of `e`, `limit` of them or as many as there are, and offers a next page. */
  predicate ContinuesBefore(e: seq<DocumentRecord>, items: seq<DocumentRecord>, a: int, q: Page, limit: nat) {
    RunAt(e, items, a) && a > 0 && q.items == e[a - Min(a, limit)..a] && q.next.Some?
  }

  /** The next pager of a page that shows a run of sorted rows continues right after the run. */
  lemma NextPagerAfterRun(e: seq<DocumentRecord>, p: Page, a: int, limit: int)
    requires SortedNewestFirst(e) && limit >= 1
    requires ShowsRun(e, p, a, limit) && PagersAtEdges(p, limit) && p.next.Some?
    ensures ContinuesAfter(e, p.items, a, PageFor(e, p.next.value), limit)
  {
    RunEdges(e, p.items, a);
    PageAfterRow(e, a + |p.items| - 1, p.next.value);
  }

  /** The previous pager of a page that shows a run of sorted rows continues right before the run. */
  lemma PrevPagerBeforeRun(e: seq<DocumentRecord>, p: Page, a: int, limit: int)
    requires SortedNewestFirst(e) && limit >= 1
    requires ShowsRun(e, p, a, limit) && PagersAtEdges(p, limit) && p.prev.Some?
    ensures ContinuesBefore(e, p.items, a, PageFor(e, p.prev.value), limit)
  {
    RunEdges(e, p.items, a);
    PageBeforeRow(e, a, p.prev.value);
  }

  /** A row of rows that are all storable is storable. */
  lemma StorableAt(e: seq<DocumentRecord>, j: nat)
    requires (forall x :: x in e ==> Storable(x)) && j < |e|
    ensures Storable(e[j])
  {
  }

  /** The key of a pager bounded by a stored row decodes to the same request as the pager. */
  lemma PagerKeyRoundTrip(q: Option<Shape>, row: DocumentRecord, limit: int, direction: Direction)
    requires Storable(row) && q == Some(Shape(limit, direction, RowBoundaries(row)))
    ensures Keyable(q) && SameRequest(DecodeKey(Some(CreatePageKey(q)), limit), q.value)
  {
    KeyRoundTrip(row, limit, direction);
  }

  /** The key of the next pager of a page that shows a run of storable rows decodes to the same request. */
  lemma NextKeyOfRun(e: seq<DocumentRecord>, p: Page, a: int, limit: int)
    requires (forall x :: x in e ==> Storable(x)) && limit >= 1
    requires ShowsRun(e, p, a, limit) && PagersAtEdges(p, limit) && p.next.Some?
    ensures Keyable(p.next) && SameRequest(DecodeKey(Some(CreatePageKey(p.next)), limit), p.next.value)
  {
    RunEdges(e, p.items, a);
    StorableAt(e, a + |p.items| - 1);
    PagerKeyRoundTrip(p.next, p.items[|p.items| - 1], limit, Next);
  }

  /** The key of the previous pager of a page that shows a run of storable rows decodes to the same request. */
  lemma PrevKeyOfRun(e: seq<DocumentRecord>, p: Page, a: int, limit: int)
    requires (forall x :: x in e ==> Storable(x)) && limit >= 1
    requires ShowsRun(e, p, a, limit) && PagersAtEdges(p, limit) && p.prev.Some?
    ensures Keyable(p.prev) && SameRequest(DecodeKey(Some(CreatePageKey(p.prev)), limit), p.prev.value)
  {
    RunEdges(e, p.items, a);
    StorableAt(e, a);
    PagerKeyRoundTrip(p.prev, p.items[0], limit, Prev);
  }

  /**
   * Over sorted rows, the next pager of a page shows the `limit` rows right
   * after it, with nothing skipped and nothing repeated, and that page has
   * a previous pager.
   */
  lemma NextPagerContinues(e: seq<DocumentRecord>, shape: Shape)
    requires SortedNewestFirst(e) && Pageable(shape)
    ensures var p := PageFor(e, shape);
      p.next.Some? ==> ContinuesAfter(e, p.items, PageStart(e, shape), PageFor(e, p.next.value), shape.limit)
  {
    var p := PageFor(e, shape);
    if p.next.Some? {
      WindowIsSlice(e, shape);
      PagersOfPage(e, shape);
      NextPagerAfterRun(e, p, PageStart(e, shape), shape.limit);
    }
  }

  /**
   * Over sorted rows, the previous pager of a page shows the rows right
   * before it, `limit` of them or as many as there are, and that page has a
   * next pager.
   */
  lemma PrevPagerContinues(e: seq<DocumentRecord>, shape: Shape)
    requires SortedNewestFirst(e) && Pageable(shape)
    ensures var p := PageFor(e, shape);
      p.prev.Some? ==> ContinuesBefore(e, p.items, PageStart(e, shape), PageFor(e, p.prev.value), shape.limit)
  {
    var p := PageFor(e, shape);
    if p.prev.Some? {
      WindowIsSlice(e, shape);
      PagersOfPage(e, shape);
      PrevPagerBeforeRun(e, p, PageStart(e, shape), shape.limit);
    }
  }

  /**
   * Over sorted storable rows, following the next key of a listing lists
   * the `limit` rows right after the page, and offers a previous page.
   */
  lemma NextKeyPage(e: seq<DocumentRecord>, shape: Shape)
    requires SortedNewestFirst(e) && (forall x :: x in e ==> Storable(x)) && Pageable(shape)
    ensures var r := Render(PageFor(e, shape));
      r.hasNext ==> ContinuesAfter(e, r.items, PageStart(e, shape), PageFor(e, DecodeKey(Some(r.nextKey), shape.limit)), shape.limit)
  {
    var p := PageFor(e, shape);
    if p.next.Some? {
      WindowIsSlice(e, shape);
      PagersOfPage(e, shape);
      NextPagerAfterRun(e, p, PageStart(e, shape), shape.limit);
      NextKeyOfRun(e, p, PageStart(e, shape), shape.limit);
      SameBoundSamePage(e, DecodeKey(Some(CreatePageKey(p.next)), shape.limit), p.next.value);
    }
  }

  /**
   * Over sorted storable rows, following the previous key of a listing
   * lists the rows right before the page, `limit` of them or as many as
   * there are, and offers a next page.
   */
  lemma PrevKeyPage(e: seq<DocumentRecord>, shape: Shape)
    requires SortedNewestFirst(e) && (forall x :: x in e ==> Storable(x)) && Pageable(shape)
    ensures var r := Render(PageFor(e, shape));
      r.hasPrev ==> ContinuesBefore(e, r.items, PageStart(e, shape), PageFor(e, DecodeKey(Some(r.prevKey), shape.limit)), shape.limit)
  {
    var p := PageFor(e, shape);
    if p.prev.Some? {
      WindowIsSlice(e, shape);
      PagersOfPage(e, shape);
      PrevPagerBeforeRun(e, p, PageStart(e, shape), shape.limit);
      PrevKeyOfRun(e, p, PageStart(e, shape), shape.limit);
      SameBoundSamePage(e, DecodeKey(Some(CreatePageKey(p.prev)), shape.limit), p.prev.value);
    }
  }

  /**
   * The rows a viewer may list out of a table sorted newest first whose rows
   * are all storable are themselves sorted newest first and storable, so the
   * page and key lemmas above apply to the listing of every viewer.
   */
  lemma ListedRowsPageable(table: seq<DocumentRecord>, viewer: Option<RoleRecord>)
    requires SortedNewestFirst(table) && (forall x :: x in table ==> Storable(x))
    ensures var e := Eligibles(table, viewer);
      SortedNewestFirst(e) && (forall x :: x in e ==> Storable(x))
      && (forall shape: Shape :: shape.limit >= 1 ==> ListSpec(table, shape, viewer) == Render(PageFor(e, shape)))
  {
    EligiblesSorted(table, viewer);
    EligiblesExact(table, viewer);
  }

  /** A decoded key is always a request paging can make: PREV only ever comes with a bound. */
  lemma DecodedIsPageable(key: Option<string>, perPage: int)
    requires perPage >= 1
    ensures Pageable(DecodeKey(key, perPage))
  {
  }

  /** No key, a key that does not match the pattern, or id `0` all give the first page. */
  lemma FirstPageKeys(key: string, perPage: int)
    ensures DecodeKey(None, perPage) == FirstPage(perPage)
    ensures MatchKey(key).None? ==> DecodeKey(Some(key), perPage) == FirstPage(perPage)
    ensures MatchKey(key).Some? && MatchKey(key).value.idDigits == "0" ==> DecodeKey(Some(key), perPage) == FirstPage(perPage)
  {
  }

  /** `n-0-20200101000000` is well formed, but its id `0` is falsy, so it decodes to the first page. */
  lemma ZeroIdKeyExample(perPage: int)
    ensures MatchKey("n-0-20200101000000").Some?
    ensures DecodeKey(Some("n-0-20200101000000"), perPage) == FirstPage(perPage)
  {
    var key := "n-0-20200101000000";
    assert key[2..|key| - 15] == "0";
    AllDigitsAt(key[2..|key| - 15]);
    AllDigitsAt(key[|key| - 14..]);
  }

  /** One final line feed after a well-formed key is ignored. */
  lemma TrailingLineFeedIgnored(key: string, perPage: int)
    requires MatchKeyExactly(key).Some?
    ensures DecodeKey(Some(key + "\n"), perPage) == DecodeKey(Some(key), perPage)
  {
    var k := key + "\n";
    assert k[..|k| - 1] == key;
    assert k[|k| - 15] != '-' || !AllDigits(k[|k| - 14..]) by {
      assert k[|k| - 1] == '\n';
      assert !IsDigit(k[|k| - 1]);
      if k[|k| - 15] == '-' {
        assert k[|k| - 14..][13] == '\n';
      }
    }
  }

  // ---------------------------------------------------------------------
  // Who sees what

  /** A viewer with an id lists exactly the documents that are not removed and that the voter lets it READ. */
  lemma ListedIffReadable(doc: DocumentRecord, authorId: Option<nat>, role: RoleRecord)
    requires role.id.Some?
    ensures Eligible(doc, Some(role)) <==> !doc.isRemoved && VoteOnAttribute(READ, AccessView(doc.tagIds, authorId), User(role))
  {
  }

  /**
   * For a stored document and a saved viewer: the row the listing reads is
   * listed exactly when the document is not removed and the access voter
   * grants the viewer READ on it.
   */
  lemma StoredDocumentListedIffReadable(doc: Document, viewer: Role)
    requires doc.id.Some? && doc.updatedAt.Some? && doc.author != null && viewer.id.Some?
    ensures Eligible(doc.Record(), Some(viewer.Record())) <==>
      !doc.GetIsRemoved() && VoteOnAttribute(READ, doc.View(), User(viewer.Record()))
  {
    ListedIffReadable(doc.Record(), doc.author.id, viewer.Record());
  }

  /** Without a viewer, or for a super viewer, every document that is not removed is listed. */
  lemma UnrestrictedViewers(doc: DocumentRecord, role: RoleRecord)
    requires role.isSuper
    ensures Eligible(doc, None) <==> !doc.isRemoved
    ensures Eligible(doc, Some(role)) <==> !doc.isRemoved
  {
  }

  /** A viewer that is not super and has no id lists nothing. */
  lemma UnsavedViewerSeesNothing(doc: DocumentRecord, role: RoleRecord)
    requires !role.isSuper && role.id.None?
    ensures !Eligible(doc, Some(role))
  {
  }
}
