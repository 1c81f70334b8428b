/**
 * The recent-documents listing: the page-key codec, the query a page
 * request stands for (visibility, removal, the row-value bound, the order and
 * the `limit + 1` fetch), the total count, the offset probe, and `getList`,
 * which wires them to the paged collection.
 *
 * The table is the sequence of stored document rows in the order
 * `ORDER BY updated_at DESC, id DESC` lists them; the lemmas about paging
 * assume it strictly sorted that way (ids are unique).
 */
module Listing {
  import opened Common
  import opened Text
  import opened Timestamps
  import opened Roles
  import opened Documents
  import opened AccessVoter
  import opened Criteria
  import opened Paging

  // ---------------------------------------------------------------------
  // Sequences

  /** The rows in the opposite order. */
  function Reverse<T>(s: seq<T>): (r: seq<T>)
    ensures |r| == |s|
    ensures forall i :: 0 <= i < |s| ==> r[i] == s[|s| - 1 - i]
  {
    seq(|s|, i requires 0 <= i < |s| => s[|s| - 1 - i])
  }

  /** `LIMIT n`: the first `n` rows, or all of them when there are fewer. */
  function Take<T>(s: seq<T>, n: nat): (r: seq<T>)
    ensures |r| == if |s| <= n then |s| else n
    ensures r == s[..|r|]
  {
    if |s| <= n then s else s[..n]
  }

  // ---------------------------------------------------------------------
  // Which rows a viewer may list

  /**
   * `buildBaseQuery`'s tag filter: none for a missing or super viewer;
   * otherwise the document must have a tag among the viewer's read tags and
   * none outside them (the query looks them up by the viewer's id, so a
   * viewer without an id sees nothing).
   */
  predicate Visible(doc: DocumentRecord, viewer: Option<RoleRecord>) {
    viewer.None? || viewer.value.isSuper || (viewer.value.id.Some? && TagsAllow(doc.tagIds, viewer.value.readTags))
  }

  /** Listed at all: not removed, and visible to the viewer. */
  predicate Eligible(doc: DocumentRecord, viewer: Option<RoleRecord>) {
    !doc.isRemoved && Visible(doc, viewer)
  }

  /** The rows the base query selects, in table order. */
  function Eligibles(table: seq<DocumentRecord>, viewer: Option<RoleRecord>): (e: seq<DocumentRecord>)
    ensures |e| <= |table|
  {
    if |table| == 0 then []
    else (if Eligible(table[0], viewer) then [table[0]] else []) + Eligibles(table[1..], viewer)
  }

  // ---------------------------------------------------------------------
  // The row-value bound

  /** `(updated_at, id)` strictly descending: `a` comes before `b` in the listing order. */
  predicate Newer(a: DocumentRecord, b: DocumentRecord) {
    Before(b.updatedAt, a.updatedAt) || (b.updatedAt == a.updatedAt && b.id < a.id)
  }

  /** The `ORDER BY updated_at DESC, id DESC` order, stated on neighbours. */
  predicate SortedNewestFirst(s: seq<DocumentRecord>) {
    |s| < 2 || (Newer(s[0], s[1]) && SortedNewestFirst(s[1..]))
  }

  /** The two bound parameters as the query binds them; `None` is SQL's NULL. */
  datatype Bound = Bound(time: Option<DateTime>, id: Option<nat>)

  /** `YYYY-MM-DD HH:MM:SS` without its separators. */
  function Undashed(s: string): string
    requires |s| == 19
  {
    s[0..4] + s[5..7] + s[8..10] + s[11..13] + s[14..16] + s[17..19]
  }

  /** A string in the `Y-m-d H:i:s` shape. */
  predicate IsSqlDateTime(s: string) {
    |s| == 19 && s[4] == '-' && s[7] == '-' && s[10] == ' ' && s[13] == ':' && s[16] == ':'
    && AllDigits(Undashed(s))
  }

  /** The `:bound_id` parameter: an integer id, or a digit string the database reads as one. */
  function BoundId(boundaries: map<string, BoundaryValue>): Option<nat> {
    if BOUND_ID !in boundaries then None
    else match boundaries[BOUND_ID]
      case IdValue(n) => Some(n)
      case TextValue(s) => if |s| > 0 && AllDigits(s) then Some(DecimalValue(s)) else None
      case TimeValue(_) => None
  }

  /** The `:bound_updated_at` parameter: a DateTime, or a `Y-m-d H:i:s` string the database reads as one. */
  function BoundTime(boundaries: map<string, BoundaryValue>): Option<DateTime> {
    if BOUND_UPDATED_AT !in boundaries then None
    else match boundaries[BOUND_UPDATED_AT]
      case TimeValue(t) => Some(t)
      case TextValue(s) => if IsSqlDateTime(s) then Some(ParseYmdHis(Undashed(s))) else None
      case IdValue(_) => None
  }

  function BoundOf(shape: Shape): Bound {
    Bound(BoundTime(shape.boundaries), BoundId(shape.boundaries))
  }

  /**
   * `(d.updated_at, d.id) < (:bound_updated_at, :bound_id)`: compared left
   * to right, and a NULL met before the pair is decided makes the row
   * unknown, which the `WHERE` clause drops.
   */
  predicate Below(row: DocumentRecord, b: Bound) {
    b.time.Some? &&
    if row.updatedAt != b.time.value then Before(row.updatedAt, b.time.value)
    else b.id.Some? && row.id < b.id.value
  }

  /** `(d.updated_at, d.id) > (:bound_updated_at, :bound_id)`, with the same NULL rule. */
  predicate Above(row: DocumentRecord, b: Bound) {
    b.time.Some? &&
    if row.updatedAt != b.time.value then Before(b.time.value, row.updatedAt)
    else b.id.Some? && row.id > b.id.value
  }

  /** `buildPagerQuery`'s condition: none without boundaries, `>` for PREV, `<` for NEXT. */
  predicate InRange(row: DocumentRecord, shape: Shape) {
    |shape.boundaries| == 0
    || (shape.direction == Prev && Above(row, BoundOf(shape)))
    || (shape.direction == Next && Below(row, BoundOf(shape)))
  }

  /** The rows `buildPagerQuery`'s condition admits, in table order. */
  function InRangeRows(s: seq<DocumentRecord>, shape: Shape): (r: seq<DocumentRecord>)
    ensures |r| <= |s|
  {
    if |s| == 0 then []
    else (if InRange(s[0], shape) then [s[0]] else []) + InRangeRows(s[1..], shape)
  }

  // ---------------------------------------------------------------------
  // The queries

  /**
   * The rows the statement returns from the rows the viewer may list, in its
   * own order: `updated_at, id` ascending for a bounded PREV page (the rows
   * reversed), descending otherwise, cut to `limit + 1` rows.
   */
  function StatementRows(e: seq<DocumentRecord>, shape: Shape): seq<DocumentRecord>
    requires shape.limit + 1 >= 0
  {
    var rows := InRangeRows(e, shape);
    if |shape.boundaries| > 0 && shape.direction == Prev then Take(Reverse(rows), shape.limit + 1)
    else Take(rows, shape.limit + 1)
  }

  /** The window `executeQuery` hands back: the statement's rows, reversed for PREV. */
  function Window(e: seq<DocumentRecord>, shape: Shape): seq<DocumentRecord>
    requires shape.limit + 1 >= 0
  {
    var rows := StatementRows(e, shape);
    if shape.direction == Prev then Reverse(rows) else rows
  }

  /** The statement `executeQuery` and `checkForOffset` run against the table. */
  function QueryRows(table: seq<DocumentRecord>, shape: Shape, viewer: Option<RoleRecord>): seq<DocumentRecord>
    requires shape.limit + 1 >= 0
  {
    StatementRows(Eligibles(table, viewer), shape)
  }

  /** `executeQuery`. */
  function ExecuteQuery(table: seq<DocumentRecord>, shape: Shape, viewer: Option<RoleRecord>): seq<DocumentRecord>
    requires shape.limit + 1 >= 0
  {
    Window(Eligibles(table, viewer), shape)
  }

  /** `getTotalCount`: every row the viewer may list, whatever the bound. */
  function TotalCount(table: seq<DocumentRecord>, viewer: Option<RoleRecord>): nat {
    |Eligibles(table, viewer)|
  }

  /** `checkForOffset`: the probe's statement returns at least one row. */
  predicate CheckForOffset(table: seq<DocumentRecord>, shape: Shape, viewer: Option<RoleRecord>)
    requires shape.limit + 1 >= 0
  {
    |QueryRows(table, shape, viewer)| > 0
  }

  // ---------------------------------------------------------------------
  // The page key

  /** The parts the key pattern captures: direction letter, id digits, fourteen date digits. */
  datatype KeyParts = KeyParts(direction: Direction, idDigits: string, dateDigits: string)

  /** `^(p|n|N|P)-(\d+)-(\d{14})$` against the whole string. */
  function MatchKeyExactly(s: string): Option<KeyParts> {
    if |s| >= 18 && s[0] in "pnNP" && s[1] == '-' && s[|s| - 15] == '-'
       && AllDigits(s[2..|s| - 15]) && AllDigits(s[|s| - 14..])
    then Some(KeyParts(if LowerChar(s[0]) == 'n' then Next else Prev, s[2..|s| - 15], s[|s| - 14..]))
    else None
  }

  /** The pattern as `preg_match` applies it: `$` also matches before one final line feed. */
  function MatchKey(key: string): Option<KeyParts> {
    if MatchKeyExactly(key).Some? then MatchKeyExactly(key)
    else if |key| > 0 && key[|key| - 1] == '\n' then MatchKeyExactly(key[..|key| - 1])
    else None
  }

  /** The bound date the decoder builds: `YYYY-MM-DD HH:MM:SS`. */
  function DashedDate(d: string): (s: string)
    requires |d| == 14
    ensures |s| == 19 && s[4] == '-' && s[7] == '-' && s[10] == ' ' && s[13] == ':' && s[16] == ':'
    ensures Undashed(s) == d
  {
    var s := d[0..4] + "-" + d[4..6] + "-" + d[6..8] + " " + d[8..10] + ":" + d[10..12] + ":" + d[12..14];
    assert s[0..4] == d[0..4] && s[5..7] == d[4..6] && s[8..10] == d[6..8];
    assert s[11..13] == d[8..10] && s[14..16] == d[10..12] && s[17..19] == d[12..14];
    assert d == d[0..4] + d[4..6] + d[6..8] + d[8..10] + d[10..12] + d[12..14];
    s
  }

  /** PHP truthiness of a string: neither empty nor `"0"`. */
  predicate Truthy(s: string) {
    s != "" && s != "0"
  }

  /** The first page: NEXT, no boundaries. */
  function FirstPage(perPage: int): Shape {
    Shape(perPage, Next, map[])
  }

  /** `createCriteria`: bounded by the id and date strings when all three parts are truthy, else the first page. */
  function CriteriaShape(perPage: int, direction: Option<Direction>, id: Option<string>, date: Option<string>): (s: Shape)
    ensures s.limit == perPage
    ensures |s.boundaries| > 0 <==> direction.Some? && id.Some? && Truthy(id.value) && date.Some? && Truthy(date.value)
    ensures |s.boundaries| == 0 ==> s == FirstPage(perPage)
    ensures |s.boundaries| > 0 ==>
      && s.direction == direction.value && s.boundaries.Keys == {BOUND_ID, BOUND_UPDATED_AT}
      && s.boundaries[BOUND_ID] == TextValue(id.value) && s.boundaries[BOUND_UPDATED_AT] == TextValue(date.value)
  {
    assert BOUND_ID in map[BOUND_ID := TextValue(""), BOUND_UPDATED_AT := TextValue("")];
    if direction.Some? && id.Some? && Truthy(id.value) && date.Some? && Truthy(date.value)
    then Shape(perPage, direction.value, map[BOUND_ID := TextValue(id.value), BOUND_UPDATED_AT := TextValue(date.value)])
    else FirstPage(perPage)
  }

  /** `parsePageKey` as a value: an absent or non-matching key gives the first page. */
  function DecodeKey(key: Option<string>, perPage: int): (s: Shape)
    ensures s.limit == perPage
    ensures key.None? || MatchKey(key.value).None? ==> s == FirstPage(perPage)
    ensures key.Some? && MatchKey(key.value).Some? ==>
      var p := MatchKey(key.value).value;
      && (|s.boundaries| > 0 <==> Truthy(p.idDigits))
      && (!Truthy(p.idDigits) ==> s == FirstPage(perPage))
      && (Truthy(p.idDigits) ==>
            s.direction == p.direction
            && BoundOf(s) == Bound(Some(ParseYmdHis(p.dateDigits)), Some(DecimalValue(p.idDigits))))
  {
    var parts := if key.Some? then MatchKey(key.value) else None;
    if parts.None? then CriteriaShape(perPage, None, None, None)
    else CriteriaShape(perPage, Some(parts.value.direction), Some(parts.value.idDigits),
                       Some(DashedDate(parts.value.dateDigits)))
  }

  method CreateCriteria(perPage: int, direction: Option<Direction>, id: Option<string>, date: Option<string>)
    returns (c: PageCriteria)
    ensures fresh(c) && c.viewer == null
    ensures c.ToShape() == CriteriaShape(perPage, direction, id, date)
  {
    if direction.Some? && id.Some? && Truthy(id.value) && date.Some? && Truthy(date.value) {
      c := new PageCriteria(perPage, direction.value);
      c.SetBoundary(BOUND_ID, TextValue(id.value));
      c.SetBoundary(BOUND_UPDATED_AT, TextValue(date.value));
    } else {
      c := new PageCriteria(perPage, Next);
    }
  }

  method ParsePageKey(key: Option<string>, perPage: int) returns (c: PageCriteria)
    ensures fresh(c) && c.viewer == null
    ensures c.ToShape() == DecodeKey(key, perPage)
  {
    var parts := if key.Some? then MatchKey(key.value) else None;
    if parts.Some? {
      var bound_date := DashedDate(parts.value.dateDigits);
      c := CreateCriteria(perPage, Some(parts.value.direction), Some(parts.value.idDigits), Some(bound_date));
    } else {
      c := CreateCriteria(perPage, None, None, None);
    }
  }

  /** A pager `createPageKey` can write: its `updated_at` is a DateTime and its `id` is not. */
  predicate Keyable(pager: Option<Shape>) {
    pager.None? ||
    (BOUND_UPDATED_AT in pager.value.boundaries && pager.value.boundaries[BOUND_UPDATED_AT].TimeValue?
     && (BOUND_ID in pager.value.boundaries ==> !pager.value.boundaries[BOUND_ID].TimeValue?))
  }

  /** `%s` of the id boundary: an integer in decimal, a string as it is, a missing one as nothing. */
  function IdText(boundaries: map<string, BoundaryValue>): string
    requires BOUND_ID in boundaries ==> !boundaries[BOUND_ID].TimeValue?
  {
    if BOUND_ID !in boundaries then ""
    else match boundaries[BOUND_ID]
      case IdValue(n) => NatToDecimal(n)
      case TextValue(s) => s
  }

  /** `createPageKey`: empty for no pager, else `p|n-<id>-<YmdHis>`. */
  function CreatePageKey(pager: Option<Shape>): (key: string)
    requires Keyable(pager)
    ensures key == "" <==> pager.None?
  {
    if pager.None? then ""
    else
      var b := pager.value.boundaries;
      [if pager.value.direction == Prev then 'p' else 'n'] + "-" + IdText(b) + "-" + FormatYmdHis(b[BOUND_UPDATED_AT].time)
  }

  // ---------------------------------------------------------------------
  // The listing

  /** A page before its keys are written: the displayed rows, the total, and the two pagers. */
  datatype Page = Page(items: seq<DocumentRecord>, total: int, prev: Option<Shape>, next: Option<Shape>)

  /** What `getList` returns: the rows, the total, the two keys and the two flags. */
  datatype ListResult = ListResult(items: seq<DocumentRecord>, total: int, prevKey: string, nextKey: string,
                                   hasPrev: bool, hasNext: bool)

  /** The response for an empty window. */
  function EmptyList(): ListResult {
    ListResult([], 0, "", "", false, false)
  }

  /** The bounds a pager or probe built with the listing's delimiters keeps for a row: its id and its update time. */
  function RowBoundaries(row: DocumentRecord): (b: map<string, BoundaryValue>)
    ensures b.Keys == {BOUND_ID, BOUND_UPDATED_AT}
  {
    map[BOUND_ID := IdValue(row.id), BOUND_UPDATED_AT := TimeValue(row.updatedAt)]
  }

  /**
   * The page of a non-empty window, once the offset probe has answered: the
   * displayed rows, the total, a previous pager bound at the first displayed
   * row and a next pager bound at the last one, each present exactly when the
   * source allows it.
   */
  function PageOf(window: seq<DocumentRecord>, total: int, limit: int, direction: Direction, hasOffset: bool): (p: Page)
    requires limit >= 1 && |window| >= 1
    ensures Keyable(p.prev) && Keyable(p.next)
  {
    var d := Displayed(window, limit, direction);
    var hasPrev := if direction == Next then hasOffset else !IsLastPage(|window|, limit);
    var hasNext := if direction == Prev then hasOffset else !IsLastPage(|window|, limit);
    Page(d, total,
         if hasPrev then Some(Shape(limit, Prev, RowBoundaries(d[0]))) else None,
         if hasNext then Some(Shape(limit, Next, RowBoundaries(d[|d| - 1]))) else None)
  }

  /** The pagers of a paged collection built with the listing's delimiters are those of the page, and can be written as keys. */
  lemma CollectionPagers(window: seq<DocumentRecord>, total: int, limit: int, direction: Direction, hasOffset: bool)
    requires limit >= 1 && |window| >= 1
    ensures var p := PageOf(window, total, limit, direction, hasOffset);
      PrevPager(window, limit, direction, hasOffset, StandardDelimiters()) == p.prev
      && NextPager(window, limit, direction, hasOffset, StandardDelimiters()) == p.next
      && Keyable(p.prev) && Keyable(p.next)
  {
    PagerEdges(window, limit, direction, hasOffset, StandardDelimiters());
    var d := Displayed(window, limit, direction);
    StandardBoundaries(d[0]);
    StandardBoundaries(d[|d| - 1]);
  }

  /** The offset probe of a non-empty window: one row beyond its first row going forward, beyond its last going back. */
  function ProbeShape(window: seq<DocumentRecord>, direction: Direction): (o: Shape)
    requires |window| >= 1
    ensures o.limit == 1 && o.direction != direction
  {
    if direction == Next then Shape(1, Prev, RowBoundaries(window[0]))
    else Shape(1, Next, RowBoundaries(window[|window| - 1]))
  }

  /** The collection's offset criteria, built with the listing's delimiters, are the probe of the window. */
  lemma CollectionProbe(window: seq<DocumentRecord>, direction: Direction)
    requires |window| >= 1
    ensures OffsetShape(window, direction, StandardDelimiters()) == ProbeShape(window, direction)
  {
    OffsetEdges(window, direction, StandardDelimiters());
    StandardBoundaries(if direction == Next then window[0] else window[|window| - 1]);
  }

  /**
   * The page of a request over the rows `e` the viewer may list: nothing at
   * all for an empty window (not even the total), else the window's page
   * once the probe on the far side of its first row has answered.
   */
  function PageFor(e: seq<DocumentRecord>, shape: Shape): (p: Page)
    requires shape.limit >= 1
    ensures Keyable(p.prev) && Keyable(p.next)
  {
    var w := Window(e, shape);
    if |w| == 0 then Page([], 0, None, None)
    else PageOf(w, |e|, shape.limit, shape.direction, |StatementRows(e, ProbeShape(w, shape.direction))| > 0)
  }

  /** The page a request stands for, over the table as the viewer may list it. */
  function PageSpec(table: seq<DocumentRecord>, shape: Shape, viewer: Option<RoleRecord>): (p: Page)
    requires shape.limit >= 1
    ensures Keyable(p.prev) && Keyable(p.next)
  {
    PageFor(Eligibles(table, viewer), shape)
  }

  /** The response: each pager written as a key, each flag set iff that pager exists. */
  function Render(p: Page): (r: ListResult)
    requires Keyable(p.prev) && Keyable(p.next)
    ensures r.hasPrev <==> r.prevKey != ""
    ensures r.hasNext <==> r.nextKey != ""
  {
    ListResult(p.items, p.total, CreatePageKey(p.prev), CreatePageKey(p.next), p.prev.Some?, p.next.Some?)
  }

  /** What `getList` returns for a request, as a value. */
  function ListSpec(table: seq<DocumentRecord>, shape: Shape, viewer: Option<RoleRecord>): ListResult
    requires shape.limit >= 1
  {
    Render(PageSpec(table, shape, viewer))
  }

  function ShapeOf(c: PageCriteria?): Option<Shape>
    reads c
  {
    if c == null then None else Some(c.ToShape())
  }

  /** The offset probe of `getList`: the collection's offset criteria, given the page's viewer, run as a query. */
  method ProbeOffset(table: seq<DocumentRecord>, col: PagedCollection) returns (hasOffset: bool)
    requires |col.items| >= 1 && col.delimiters == StandardDelimiters()
    ensures hasOffset == CheckForOffset(table, ProbeShape(col.items, col.criteria.direction), col.criteria.ViewerRecord())
  {
    CollectionProbe(col.items, col.criteria.direction);
    var offsetCriteria := col.GetOffsetCriteria();
    offsetCriteria.SetViewer(col.criteria.GetViewer());
    hasOffset := CheckForOffset(table, offsetCriteria.ToShape(), offsetCriteria.ViewerRecord());
  }

  /** The report of `getList`, read off the collection once its offset is known. */
  method Report(col: PagedCollection) returns (r: ListResult)
    requires col.criteria.limit >= 1 && |col.items| >= 1 && col.delimiters == StandardDelimiters()
    ensures r == Render(PageOf(col.items, col.totalCount, col.criteria.limit, col.criteria.direction, col.hasOffset))
  {
    var shown := col.GetItems();
    var prev := col.GetPrevPager();
    var next := col.GetNextPager();
    CollectionPagers(col.items, col.totalCount, col.criteria.limit, col.criteria.direction, col.hasOffset);
    var prevKey := CreatePageKey(ShapeOf(prev));
    var nextKey := CreatePageKey(ShapeOf(next));
    var prevAgain := col.GetPrevPager();
    var nextAgain := col.GetNextPager();
    r := ListResult(shown, col.GetTotalCount(), prevKey, nextKey, prevAgain != null, nextAgain != null);
  }

  /** The non-empty branch of `getList`: build the collection, probe, and report. */
  method ReportWindow(table: seq<DocumentRecord>, criteria: PageCriteria, items: seq<DocumentRecord>, total: int)
    returns (r: ListResult)
    requires criteria.limit >= 1 && |items| >= 1
    ensures r == Render(PageOf(items, total, criteria.limit, criteria.direction,
                               CheckForOffset(table, ProbeShape(items, criteria.direction),
                                              criteria.ViewerRecord())))
  {
    ghost var viewer := criteria.ViewerRecord();
    var col := new PagedCollection(items, total, criteria, StandardDelimiters());
    var hasOffset := ProbeOffset(table, col);
    assert hasOffset == CheckForOffset(table, ProbeShape(items, criteria.direction), viewer);
    col.SetHasOffset(hasOffset);
    r := Report(col);
    assert criteria.ViewerRecord() == viewer;
  }

  /**
   * `getList`: fetch the window and the total; for a non-empty window build
   * the paged collection, probe the other side with the viewer's rights,
   * then report the displayed rows, the total, the two keys and the two flags.
   */
  method GetList(table: seq<DocumentRecord>, criteria: PageCriteria) returns (r: ListResult)
    requires criteria.limit >= 1
    ensures r == ListSpec(table, criteria.ToShape(), criteria.ViewerRecord())
  {
    var shape, viewer := criteria.ToShape(), criteria.ViewerRecord();
    var items := ExecuteQuery(table, shape, viewer);
    var total := TotalCount(table, viewer);
    if |items| > 0 {
      r := ReportWindow(table, criteria, items, total);
    } else {
      r := EmptyList();
    }
  }
}
