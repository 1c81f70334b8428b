/**
 * The set-like operations the entities perform on Doctrine's ArrayCollection
 * and PHP arrays: append-if-absent, remove the first occurrence, and
 * `array_unique` (keep the first occurrence of each value, in order).
 */
module Collections {

  /** No value occurs twice. */
  predicate NoDuplicates<T(==)>(s: seq<T>) {
    forall i, j :: 0 <= i < j < |s| ==> s[i] != s[j]
  }

  /** `if (!contains(x)) { c[] = x; }`: append `x` unless it is already there. */
  function Added<T(==)>(s: seq<T>, x: T): (r: seq<T>)
    ensures x in r
  {
    if x in s then s else s + [x]
  }

  /** Adding keeps the old values, brings in `x` and nothing else, and never creates a duplicate. */
  lemma AddedElements<T>(s: seq<T>, x: T)
    ensures forall y :: y in Added(s, x) <==> y in s || y == x
    ensures NoDuplicates(s) ==> NoDuplicates(Added(s, x))
  {
    if x !in s && NoDuplicates(s) {
      var r := s + [x];
      forall i, j | 0 <= i < j < |r| ensures r[i] != r[j] {
        if j == |s| {
          assert r[i] == s[i];
        }
      }
    }
  }

  /** `removeElement(x)`: drop the first occurrence of `x`, if any. */
  function RemoveFirst<T(==)>(s: seq<T>, x: T): (r: seq<T>)
    ensures x !in s ==> r == s
    ensures x in s ==> |r| == |s| - 1
    ensures forall i :: 0 <= i < |r| ==> r[i] in s
  {
    if |s| == 0 then []
    else if s[0] == x then s[1..]
    else [s[0]] + RemoveFirst(s[1..], x)
  }

  /**
   * `array_unique`, and equally "clear, then add each element if absent":
   * the distinct values of `s` in order of first occurrence.
   */
  function Dedup<T(==)>(s: seq<T>): seq<T> {
    if |s| == 0 then [] else Added(Dedup(s[..|s| - 1]), s[|s| - 1])
  }

  /** Index of the first occurrence of `x` in `s`. */
  function FirstIndex<T(==)>(s: seq<T>, x: T): (k: nat)
    requires x in s
    ensures k < |s| && s[k] == x && x !in s[..k]
  {
    if s[0] == x then 0 else 1 + FirstIndex(s[1..], x)
  }

  /** Adding a value that is already present changes nothing, so adding twice is adding once. */
  lemma AddedIdempotent<T>(s: seq<T>, x: T)
    ensures Added(Added(s, x), x) == Added(s, x)
  {
  }

  /** Adding an absent value and then removing it restores the original sequence. */
  lemma {:induction false} RemoveUndoesAdd<T>(s: seq<T>, x: T)
    requires x !in s
    ensures RemoveFirst(Added(s, x), x) == s
  {
    if |s| > 0 {
      assert (s + [x])[1..] == s[1..] + [x];
      RemoveUndoesAdd(s[1..], x);
    }
  }

  /** Removing from a duplicate-free sequence removes exactly that value and keeps it duplicate-free. */
  lemma {:induction false} RemoveFirstElements<T>(s: seq<T>, x: T)
    requires NoDuplicates(s)
    ensures NoDuplicates(RemoveFirst(s, x))
    ensures forall y :: y in RemoveFirst(s, x) <==> y in s && y != x
  {
    if |s| > 0 && s[0] != x {
      assert NoDuplicates(s[1..]) by {
        forall i, j | 0 <= i < j < |s[1..]| ensures s[1..][i] != s[1..][j] {
          assert s[1..][i] == s[i + 1] && s[1..][j] == s[j + 1];
        }
      }
      RemoveFirstElements(s[1..], x);
      forall k | 0 <= k < |s[1..]| ensures s[1..][k] != s[0] {
        assert s[1..][k] == s[k + 1];
      }
    } else if |s| > 0 {
      forall y ensures y in s[1..] ==> y != x {
        if y in s[1..] {
          var k :| 0 <= k < |s[1..]| && s[1..][k] == y;
          assert s[k + 1] == y;
        }
      }
    }
  }

  /** `Dedup` keeps exactly the values of its input. */
  lemma {:induction false} DedupElements<T>(s: seq<T>)
    ensures forall y :: y in Dedup(s) <==> y in s
  {
    if |s| > 0 {
      DedupElements(s[..|s| - 1]);
      assert s == s[..|s| - 1] + [s[|s| - 1]];
    }
  }

  /** `Dedup` never yields a value twice. */
  lemma {:induction false} DedupNoDuplicates<T>(s: seq<T>)
    ensures NoDuplicates(Dedup(s))
  {
    if |s| > 0 {
      DedupNoDuplicates(s[..|s| - 1]);
    }
  }

  /** Dropping the last value keeps a sequence free of duplicates, and that value does not occur before it. */
  lemma DistinctLast<T>(s: seq<T>)
    requires NoDuplicates(s) && |s| > 0
    ensures NoDuplicates(s[..|s| - 1]) && s[|s| - 1] !in s[..|s| - 1]
  {
    var p := s[..|s| - 1];
    forall i, j | 0 <= i < j < |p| ensures p[i] != p[j] {
      assert p[i] == s[i] && p[j] == s[j];
    }
    forall k | 0 <= k < |p| ensures p[k] != s[|s| - 1] {
      assert p[k] == s[k];
    }
  }

  /** A sequence without duplicates is its own `Dedup`. */
  lemma {:induction false} DedupOfDistinct<T>(s: seq<T>)
    requires NoDuplicates(s)
    ensures Dedup(s) == s
  {
    if |s| > 0 {
      DistinctLast(s);
      DedupOfDistinct(s[..|s| - 1]);
      DedupNewLast(s);
    }
  }

  /** A new last value is appended to the `Dedup` of what precedes it. */
  lemma DedupNewLast<T>(s: seq<T>)
    requires |s| > 0 && s[|s| - 1] !in s[..|s| - 1] && Dedup(s[..|s| - 1]) == s[..|s| - 1]
    ensures Dedup(s) == s
  {
    assert s[..|s| - 1] + [s[|s| - 1]] == s;
  }

  /** The first occurrence of a value of the prefix does not move when more values follow. */
  lemma {:induction false} FirstIndexInPrefix<T>(p: seq<T>, q: seq<T>, x: T)
    requires x in p
    ensures FirstIndex(p + q, x) == FirstIndex(p, x)
  {
    if p[0] != x {
      assert (p + q)[1..] == p[1..] + q;
      FirstIndexInPrefix(p[1..], q, x);
    }
  }

  /** Every value of `d` occurs in `s`, and `d` lists them in the order they first occur in `s`. */
  predicate InFirstOccurrenceOrder<T(==)>(d: seq<T>, s: seq<T>) {
    forall i, j :: 0 <= i < j < |d| ==>
      d[i] in s && d[j] in s && FirstIndex(s, d[i]) < FirstIndex(s, d[j])
  }

  /** `Dedup` lists the values in the order of their first occurrence in the input. */
  lemma {:induction false} DedupFirstOccurrenceOrder<T>(s: seq<T>)
    ensures InFirstOccurrenceOrder(Dedup(s), s)
  {
    if |s| > 0 {
      var p, y := s[..|s| - 1], s[|s| - 1];
      assert s == p + [y];
      DedupFirstOccurrenceOrder(p);
      DedupElements(p);
      var d, r := Dedup(p), Dedup(s);
      forall i, j | 0 <= i < j < |r|
        ensures r[i] in s && r[j] in s && FirstIndex(s, r[i]) < FirstIndex(s, r[j])
      {
        assert r[i] == d[i] && d[i] in p;
        FirstIndexInPrefix(p, [y], d[i]);
        if j < |d| {
          assert r[j] == d[j];
          FirstIndexInPrefix(p, [y], d[j]);
        } else {
          assert r == d + [y] && y !in d;
          assert r[j] == y && y !in p;
          assert FirstIndex(s, y) == |p| by {
            assert s[..|p|] == p;
            forall k | 0 <= k < |p| ensures s[k] != y {
              assert s[k] == p[k];
            }
          }
        }
      }
    }
  }
}
