/**
 * The paged collection: a window of at most `limit + 1` rows, newest first,
 * from which it derives the rows to display, the criteria of the previous
 * and next pages, and the one-row probe for a page on the other side.
 */
module Paging {
  import opened Common
  import opened Timestamps
  import opened Documents
  import opened Criteria

  /** The entity getters a boundary delimiter may name. */
  datatype Getter = GetId | GetUpdatedAt

  function Extract(row: DocumentRecord, getter: Getter): BoundaryValue {
    match getter
    case GetId => IdValue(row.id)
    case GetUpdatedAt => TimeValue(row.updatedAt)
  }

  /** The listing's delimiters: `id` from `getId`, `updated_at` from `getUpdatedAt`. */
  function StandardDelimiters(): map<string, Getter> {
    map[BOUND_ID := GetId, BOUND_UPDATED_AT := GetUpdatedAt]
  }

  /** One boundary per delimiter, each set to its getter's value on the bound row. */
  function BoundariesOf(row: DocumentRecord, delimiters: map<string, Getter>): (b: map<string, BoundaryValue>)
    ensures b.Keys == delimiters.Keys
    ensures forall n :: n in b ==> b[n] == Extract(row, delimiters[n])
  {
    map n | n in delimiters :: Extract(row, delimiters[n])
  }

  /** With the listing's delimiters, a row's boundaries are its id and its update time. */
  lemma StandardBoundaries(row: DocumentRecord)
    ensures BoundariesOf(row, StandardDelimiters()) == map[BOUND_ID := IdValue(row.id), BOUND_UPDATED_AT := TimeValue(row.updatedAt)]
  {
  }

  /** Relative to the direction: no further page that way, because the window is not `limit + 1` rows. */
  predicate IsLastPage(count: nat, limit: int) {
    count != limit + 1
  }

  /** `getItems`: drop the extra row (the last for NEXT, the first for PREV) unless this is the last page. */
  function Displayed(window: seq<DocumentRecord>, limit: int, direction: Direction): seq<DocumentRecord> {
    if IsLastPage(|window|, limit) || |window| == 0 then window
    else if direction == Next then window[..|window| - 1]
    else window[1..]
  }

  /**
   * The displayed rows are the window without its extra row: a run of
   * consecutive rows of the window, `limit` of them when it is not the last
   * page, and never more than `limit` when the window holds at most
   * `limit + 1` rows.
   */
  lemma DisplayedSlice(window: seq<DocumentRecord>, limit: int, direction: Direction)
    requires limit >= 0
    ensures var d := Displayed(window, limit, direction);
      var s := if direction == Prev && !IsLastPage(|window|, limit) then 1 else 0;
      s + |d| <= |window| && d == window[s..s + |d|]
      && (!IsLastPage(|window|, limit) ==> |d| == limit)
      && (IsLastPage(|window|, limit) ==> d == window)
      && (|window| <= limit + 1 ==> |d| <= limit)
  {
  }

  /** `getFirst`: row 1 for PREV, the first row for NEXT; `None` where the collection yields null or false. */
  function FirstRow(window: seq<DocumentRecord>, direction: Direction): Option<DocumentRecord> {
    if direction == Prev then (if |window| > 1 then Some(window[1]) else None)
    else if |window| > 0 then Some(window[0]) else None
  }

  /** `getLast`: the last row for PREV, row `limit - 1` for NEXT; `None` where there is no such row. */
  function LastRow(window: seq<DocumentRecord>, limit: int, direction: Direction): Option<DocumentRecord> {
    if direction == Prev then (if |window| > 0 then Some(window[|window| - 1]) else None)
    else if 0 <= limit - 1 < |window| then Some(window[limit - 1]) else None
  }

  /**
   * `getPrevPager`: none when paging forward with no earlier row confirmed,
   * or when paging back and this is the last page; otherwise a PREV page of
   * the same size bounded by the first displayed row.
   */
  function PrevPager(window: seq<DocumentRecord>, limit: int, direction: Direction, hasOffset: bool,
                     delimiters: map<string, Getter>): Option<Shape>
    requires limit >= 1 && |window| >= 1
  {
    if direction == Next && !hasOffset then None
    else if direction == Prev && IsLastPage(|window|, limit) then None
    else
      var bound := FirstRow(window, direction);
      assert bound.Some?;
      Some(Shape(limit, Prev, BoundariesOf(bound.value, delimiters)))
  }

  /**
   * `getNextPager`: none when paging back with no later row confirmed, or
   * when paging forward and this is the last page; otherwise a NEXT page of
   * the same size bounded by the last displayed row.
   */
  function NextPager(window: seq<DocumentRecord>, limit: int, direction: Direction, hasOffset: bool,
                     delimiters: map<string, Getter>): Option<Shape>
    requires limit >= 1 && |window| >= 1
  {
    if direction == Prev && !hasOffset then None
    else if direction == Next && IsLastPage(|window|, limit) then None
    else
      var bound := LastRow(window, limit, direction);
      assert bound.Some?;
      Some(Shape(limit, Next, BoundariesOf(bound.value, delimiters)))
  }

  /**
   * `getOffsetCriteria`: one row in the opposite direction, bounded by the
   * first row when paging forward and by the last row when paging back.
   */
  function OffsetShape(window: seq<DocumentRecord>, direction: Direction, delimiters: map<string, Getter>): Shape
    requires |window| >= 1
  {
    if direction == Next then Shape(1, Prev, BoundariesOf(window[0], delimiters))
    else Shape(1, Next, BoundariesOf(window[|window| - 1], delimiters))
  }

  /**
   * A pager exists exactly in the cases the source allows, and whenever it
   * exists its bound row is an edge of the displayed rows: the first for the
   * previous page, the last for the next page; both keep the page size.
   */
  lemma PagerEdges(window: seq<DocumentRecord>, limit: int, direction: Direction, hasOffset: bool,
                   delimiters: map<string, Getter>)
    requires limit >= 1 && |window| >= 1
    ensures var d := Displayed(window, limit, direction);
      var prev := PrevPager(window, limit, direction, hasOffset, delimiters);
      var next := NextPager(window, limit, direction, hasOffset, delimiters);
      |d| >= 1
      && (prev.None? <==> (direction == Next && !hasOffset) || (direction == Prev && IsLastPage(|window|, limit)))
      && (next.None? <==> (direction == Prev && !hasOffset) || (direction == Next && IsLastPage(|window|, limit)))
      && (prev.Some? ==> prev.value == Shape(limit, Prev, BoundariesOf(d[0], delimiters)))
      && (next.Some? ==> next.value == Shape(limit, Next, BoundariesOf(d[|d| - 1], delimiters)))
  {
  }

  /**
   * The offset probe looks one row past the window's far edge: it is bounded
   * at the window's first row when paging forward and at its last row when
   * paging back, asks for a single row, and goes the other way, so it finds
   * a row exactly when the page has a neighbour on that side.
   */
  lemma OffsetEdges(window: seq<DocumentRecord>, direction: Direction, delimiters: map<string, Getter>)
    requires |window| >= 1
    ensures var o := OffsetShape(window, direction, delimiters);
      o.limit == 1 && o.direction != direction
      && o.boundaries == BoundariesOf(if direction == Next then window[0] else window[|window| - 1], delimiters)
  {
  }

  class PagedCollection {
    const items: seq<DocumentRecord>
    const totalCount: int
    const criteria: PageCriteria
    const delimiters: map<string, Getter>
    var hasOffset: bool

    /** No offset is confirmed until `setHasOffset`. */
    constructor(items: seq<DocumentRecord>, totalCount: int, criteria: PageCriteria, delimiters: map<string, Getter>)
      ensures this.items == items && this.totalCount == totalCount
      ensures this.criteria == criteria && this.delimiters == delimiters
      ensures !hasOffset
    {
      this.items := items;
      this.totalCount := totalCount;
      this.criteria := criteria;
      this.delimiters := delimiters;
      hasOffset := false;
    }

    /**
     * `isLastPage`: the window is not the `getMaxResults` rows a further
     * page needs; otherwise one row is held back and `limit` are shown.
     */
    predicate IsLast()
      ensures IsLast() <==> IsLastPage(|items|, criteria.GetLimit())
      ensures !IsLast() && criteria.limit >= 0 ==> |Displayed(items, criteria.limit, criteria.direction)| == criteria.limit
    {
      |items| != criteria.GetMaxResults()
    }

    /**
     * `getItems`: remove the extra row from a copy of the window; the window
     * itself is never changed, so every call returns the same rows.
     */
    method GetItems() returns (shown: seq<DocumentRecord>)
      ensures shown == Displayed(items, criteria.limit, criteria.direction)
    {
      var copy := items;
      if !IsLast() && |copy| > 0 {
        if criteria.IsNext() {
          copy := copy[..|copy| - 1];
        } else {
          copy := copy[1..];
        }
      }
      shown := copy;
    }

    function GetTotalCount(): int {
      totalCount
    }

    method SetHasOffset(value: bool)
      modifies this`hasOffset
      ensures hasOffset == value
    {
      hasOffset := value;
    }

    /**
     * `getFirst`: a row of the window; wherever a previous pager is built
     * from it (paging forward, or a full window paging back) it is the
     * first displayed row.
     */
    function GetFirst(): (r: Option<DocumentRecord>)
      ensures r.Some? ==> r.value in items
      ensures criteria.limit >= 1 && |items| >= 1 && (criteria.direction == Next || !IsLast()) ==>
        r == Some(Displayed(items, criteria.limit, criteria.direction)[0])
    {
      FirstRow(items, criteria.direction)
    }

    /**
     * `getLast`: a row of the window; wherever a next pager is built from it
     * (paging back, or a full window paging forward) it is the last
     * displayed row.
     */
    function GetLast(): (r: Option<DocumentRecord>)
      ensures r.Some? ==> r.value in items
      ensures criteria.limit >= 1 && |items| >= 1 && (criteria.direction == Prev || !IsLast()) ==>
        var d := Displayed(items, criteria.limit, criteria.direction);
        r == Some(d[|d| - 1])
    {
      LastRow(items, criteria.limit, criteria.direction)
    }

    /**
     * `buildSimpleCriteria`: a fresh criteria in `direction`, with the given
     * limit or else this page's, and one boundary per delimiter taken from
     * the bound row.
     */
    method BuildSimpleCriteria(bound: DocumentRecord, direction: Direction, limit: Option<int>) returns (c: PageCriteria)
      ensures fresh(c) && c.viewer == null
      ensures c.ToShape() == Shape(if limit.Some? then limit.value else criteria.limit, direction, BoundariesOf(bound, delimiters))
    {
      c := new PageCriteria(if limit.Some? then limit.value else criteria.GetLimit(), direction);
      var pending := delimiters.Keys;
      while pending != {}
        invariant pending <= delimiters.Keys
        invariant c.viewer == null
        invariant c.boundaries == map n | n in delimiters.Keys - pending :: Extract(bound, delimiters[n])
        decreases |pending|
      {
        var name :| name in pending;
        c.SetBoundary(name, Extract(bound, delimiters[name]));
        pending := pending - {name};
      }
    }

    method GetOffsetCriteria() returns (c: PageCriteria)
      requires |items| >= 1
      ensures fresh(c) && c.viewer == null
      ensures c.ToShape() == OffsetShape(items, criteria.direction, delimiters)
    {
      if criteria.IsNext() {
        c := BuildSimpleCriteria(items[0], Prev, Some(1));
      } else {
        c := BuildSimpleCriteria(items[|items| - 1], Next, Some(1));
      }
    }

    method GetPrevPager() returns (c: PageCriteria?)
      requires criteria.limit >= 1 && |items| >= 1
      ensures c == null <==> PrevPager(items, criteria.limit, criteria.direction, hasOffset, delimiters).None?
      ensures c != null ==> fresh(c) && c.viewer == null
      ensures c != null ==> Some(c.ToShape()) == PrevPager(items, criteria.limit, criteria.direction, hasOffset, delimiters)
    {
      if criteria.IsNext() && !hasOffset {
        return null;
      }
      if criteria.IsPrev() && IsLast() {
        return null;
      }
      var bound := GetFirst();
      c := BuildSimpleCriteria(bound.value, Prev, None);
    }

    method GetNextPager() returns (c: PageCriteria?)
      requires criteria.limit >= 1 && |items| >= 1
      ensures c == null <==> NextPager(items, criteria.limit, criteria.direction, hasOffset, delimiters).None?
      ensures c != null ==> fresh(c) && c.viewer == null
      ensures c != null ==> Some(c.ToShape()) == NextPager(items, criteria.limit, criteria.direction, hasOffset, delimiters)
    {
      if criteria.IsPrev() && !hasOffset {
        return null;
      }
      if criteria.IsNext() && IsLast() {
        return null;
      }
      var bound := GetLast();
      c := BuildSimpleCriteria(bound.value, Next, None);
    }
  }
}
