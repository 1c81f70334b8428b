/**
 * The tag-name uniqueness validator: the value to check (an array of names,
 * or a comma-separated string) is compared with the names already stored,
 * and each clashing name raises one violation carrying that name.
 */
module TagValidation {
  import opened Text

  /** The validated value: a PHP array of names, or any other value, which PHP handles as a string. */
  datatype Checked = Names(names: seq<string>) | Raw(value: string)

  /** `strtolower(trim(piece))` for every piece. */
  function NormalizeAll(pieces: seq<string>): (r: seq<string>)
    ensures |r| == |pieces|
    ensures forall k :: 0 <= k < |r| ==> r[k] == ToLower(Trim(pieces[k]))
  {
    seq(|pieces|, k requires 0 <= k < |pieces| => ToLower(Trim(pieces[k])))
  }

  /**
   * The names the validator checks: an array as given; otherwise the value
   * split on `,`, each piece trimmed and lower-cased, which always gives at
   * least one name.
   */
  function CheckedNames(check: Checked): (names: seq<string>)
    ensures check.Names? ==> names == check.names
    ensures check.Raw? ==> |names| == Count(check.value, ',') + 1
    ensures check.Raw? ==> forall k :: 0 <= k < |names| ==>
      names[k] == ToLower(Trim(Split(check.value, ',')[k]))
  {
    match check
    case Names(ns) => ns
    case Raw(v) => NormalizeAll(Split(v, ','))
  }

  /** The checked names that are already taken, in input order, repeats included. */
  function Clashing(names: seq<string>, existing: seq<string>): seq<string> {
    if |names| == 0 then []
    else
      var last := names[|names| - 1];
      Clashing(names[..|names| - 1], existing) + (if last in existing then [last] else [])
  }

  /** Number of positions of `names` whose name is taken. */
  function ClashCount(names: seq<string>, existing: seq<string>): nat {
    if |names| == 0 then 0
    else ClashCount(names[..|names| - 1], existing) + (if names[|names| - 1] in existing then 1 else 0)
  }

  /**
   * One violation per checked name that is already taken: every violation is
   * a taken checked name, every taken checked name raises one, their number
   * is the number of clashing positions, and names not taken raise nothing.
   */
  lemma {:induction false} ClashingMeaning(names: seq<string>, existing: seq<string>)
    ensures |Clashing(names, existing)| == ClashCount(names, existing)
    ensures forall v :: v in Clashing(names, existing) <==> v in names && v in existing
  {
    if |names| > 0 {
      var p := names[..|names| - 1];
      ClashingMeaning(p, existing);
      assert names == p + [names[|names| - 1]];
    }
  }

  /** A name checked twice that is taken raises two violations. */
  lemma RepeatedClash(n: string, existing: seq<string>)
    requires n in existing
    ensures Clashing([n, n], existing) == [n, n]
  {
    assert [n, n][..1] == [n];
    assert [n][..0] == [];
    assert Clashing([n], existing) == [n];
  }

  /** One more name checked: `Clashing` grows by that name exactly when it is taken. */
  lemma ClashingStep(names: seq<string>, i: nat, existing: seq<string>)
    requires i < |names|
    ensures Clashing(names[..i + 1], existing) == Clashing(names[..i], existing) + (if names[i] in existing then [names[i]] else [])
  {
    assert names[..i + 1][..i] == names[..i];
  }

  /**
   * `validate`: an empty array returns before anything is checked; otherwise
   * each checked name found among the existing names adds one violation
   * whose `{{ value }}` is that name.
   */
  method Validate(check: Checked, existing: seq<string>) returns (violations: seq<string>)
    ensures check.Names? && check.names == [] ==> violations == []
    ensures violations == Clashing(CheckedNames(check), existing)
  {
    var names := CheckedNames(check);
    violations := [];
    if |names| == 0 {
      return;
    }
    for i := 0 to |names|
      invariant violations == Clashing(names[..i], existing)
    {
      ClashingStep(names, i, existing);
      if names[i] in existing {
        violations := violations + [names[i]];
      }
    }
    assert names[..|names|] == names;
  }
}
