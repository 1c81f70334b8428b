/**
 * A page request: how many rows to show, in which direction to page, the
 * named boundary values the page starts after, and the role viewing it.
 */
module Criteria {
  import opened Common
  import opened Text
  import opened Timestamps
  import opened Roles

  datatype Direction = Next | Prev

  const DEFAULT_LIMIT: int := 15

  /** The boundary names the listing uses. */
  const BOUND_ID: string := "id"
  const BOUND_UPDATED_AT: string := "updated_at"

  /**
   * A boundary value as the code stores it: an integer id or a DateTime when
   * taken from a row, a string when decoded from a page key.
   */
  datatype BoundaryValue = IdValue(id: nat) | TimeValue(time: DateTime) | TextValue(text: string)

  /** The value of a page request, without its viewer. */
  datatype Shape = Shape(limit: int, direction: Direction, boundaries: map<string, BoundaryValue>)

  /**
   * The constructor's direction check: upper-case the argument, then accept
   * only `NEXT` and `PREV`.
   */
  function ParseDirection(direction: string): Option<Direction> {
    var upper := ToUpper(direction);
    if upper == "NEXT" then Some(Next)
    else if upper == "PREV" then Some(Prev)
    else None
  }

  /** Upper-casing each character of `s` gives `target`. */
  predicate UpperEquals(s: string, target: string) {
    |s| == |target| && forall i :: 0 <= i < |s| ==> UpperChar(s[i]) == target[i]
  }

  /** A direction is accepted iff it spells `NEXT` or `PREV` in any mix of cases. */
  lemma ParseDirectionMeaning(direction: string)
    ensures ParseDirection(direction) == Some(Next) <==> UpperEquals(direction, "NEXT")
    ensures ParseDirection(direction) == Some(Prev) <==> UpperEquals(direction, "PREV")
    ensures ParseDirection(direction).None? <==> !UpperEquals(direction, "NEXT") && !UpperEquals(direction, "PREV")
  {
    var upper := ToUpper(direction);
    if UpperEquals(direction, "NEXT") {
      assert upper == "NEXT";
    }
    if UpperEquals(direction, "PREV") {
      assert upper == "PREV";
    }
  }

  /** `"next"` and `"Prev"` are accepted; `"up"` is rejected. */
  lemma DirectionExamples()
    ensures ParseDirection("next") == Some(Next)
    ensures ParseDirection("Prev") == Some(Prev)
    ensures ParseDirection("up").None?
  {
    ParseDirectionMeaning("next");
    ParseDirectionMeaning("Prev");
    ParseDirectionMeaning("up");
    assert !UpperEquals("up", "NEXT") && !UpperEquals("up", "PREV");
  }

  class PageCriteria {
    const limit: int
    const direction: Direction
    var boundaries: map<string, BoundaryValue>
    var viewer: Role?

    /** A criteria with no boundaries and no viewer. */
    constructor(limit: int, direction: Direction)
      ensures this.limit == limit && this.direction == direction
      ensures boundaries == map[] && viewer == null
    {
      this.limit := limit;
      this.direction := direction;
      boundaries := map[];
      viewer := null;
    }

    /**
     * `new PageCriteria(limit, direction)`: fails (the assertion's exception,
     * reported here with the rejected upper-cased direction) unless the
     * upper-cased direction is `NEXT` or `PREV`.
     */
    static method Create(limit: int, direction: string) returns (r: Result<PageCriteria, string>)
      ensures r.Failure? <==> ParseDirection(direction).None?
      ensures r.Failure? ==> r.error == ToUpper(direction)
      ensures r.Success? ==> fresh(r.value)
      ensures r.Success? ==> r.value.limit == limit && Some(r.value.direction) == ParseDirection(direction)
      ensures r.Success? ==> r.value.boundaries == map[] && r.value.viewer == null
    {
      var parsed := ParseDirection(direction);
      if parsed.None? {
        return Failure(ToUpper(direction));
      }
      var c := new PageCriteria(limit, parsed.value);
      return Success(c);
    }

    function GetViewer(): Role?
      reads this
    {
      viewer
    }

    method SetViewer(viewer: Role?)
      modifies this`viewer
      ensures GetViewer() == viewer
    {
      this.viewer := viewer;
    }

    /** `setBoundary`: set or overwrite one named boundary; the others keep their values. */
    method SetBoundary(name: string, value: BoundaryValue)
      modifies this`boundaries
      ensures GetBoundary(name) == Some(value)
      ensures forall n :: n != name ==> GetBoundary(n) == old(GetBoundary(n))
      ensures HasBoundaries()
      ensures boundaries == old(boundaries)[name := value]
    {
      boundaries := boundaries[name := value];
    }

    function GetLimit(): int
    {
      limit
    }

    /** The number of rows fetched: one more than shown. */
    function GetMaxResults(): (m: int)
      ensures m == GetLimit() + 1
    {
      limit + 1
    }

    /** `getBoundary`: the value set under `name`; `None` for the collection's `null`. */
    function GetBoundary(name: string): (v: Option<BoundaryValue>)
      reads this
      ensures v.Some? <==> name in boundaries
    {
      if name in boundaries then Some(boundaries[name]) else None
    }

    predicate IsPrev() {
      direction == Prev
    }

    /** Exactly one of `isNext` and `isPrev` holds. */
    predicate IsNext()
      ensures IsNext() <==> !IsPrev()
    {
      direction == Next
    }

    /** At least one named boundary has been set. */
    predicate HasBoundaries()
      reads this
      ensures HasBoundaries() <==> exists n :: n in boundaries
    {
      assert forall n :: n in boundaries ==> |boundaries| > 0;
      |boundaries| > 0
    }

    /** The request as a value. */
    function ToShape(): Shape
      reads this
    {
      Shape(limit, direction, boundaries)
    }

    /** The viewer as the listing query sees it. */
    function ViewerRecord(): Option<RoleRecord>
      reads this, viewer
    {
      if viewer == null then None else Some(viewer.Record())
    }
  }
}
