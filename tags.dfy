/**
 * The Tag entity: its name rule (`NAME_REGEX`, shared with role user names),
 * its declared constraints, and the id-to-name pairs that roles and documents
 * build from their tag collections.
 */
module Tags {
  import opened Common
  import TagValidation

  const NAME_MIN_LENGTH: nat := 1
  const NAME_MAX_LENGTH: nat := 72
  const TITLE_MAX_LENGTH: nat := 200

  predicate IsAlnum(c: char) {
    'a' <= c <= 'z' || '0' <= c <= '9'
  }

  predicate IsSeparator(c: char) {
    c == '_' || c == '.'
  }

  /**
   * The pattern `(([a-z0-9][_.]?)*([a-z0-9]))` matched against all of `s`:
   * a letter or digit that either ends the name, or starts a unit that the
   * rest continues, possibly with one separator in between.
   */
  predicate MatchesPattern(s: string)
    decreases |s|
  {
    |s| > 0 && IsAlnum(s[0]) &&
    (|s| == 1 || MatchesPattern(s[1..]) || (|s| > 2 && IsSeparator(s[1]) && MatchesPattern(s[2..])))
  }

  /**
   * `preg_match(NAME_REGEX, s)` as written: `^...$` without the `D`
   * modifier, so `$` also matches just before one final line feed.
   */
  predicate MatchesNameRegex(s: string) {
    MatchesPattern(s) || (|s| > 0 && s[|s| - 1] == '\n' && MatchesPattern(s[..|s| - 1]))
  }

  /**
   * The evidently intended rule, with the pattern anchored at the real end:
   * the whole name must match.
   */
  predicate IsValidName(s: string) {
    MatchesPattern(s)
  }

  /** The shape a name must have: described character by character. */
  predicate WellFormedName(s: string) {
    && |s| > 0
    && (forall i :: 0 <= i < |s| ==> IsAlnum(s[i]) || IsSeparator(s[i]))
    && IsAlnum(s[0]) && IsAlnum(s[|s| - 1])
    && (forall i :: 0 <= i < |s| - 1 ==> !(IsSeparator(s[i]) && IsSeparator(s[i + 1])))
  }

  /**
   * A name is valid iff it is non-empty, uses only `[a-z0-9_.]`, starts and
   * ends with a letter or digit, and never has two separators in a row.
   */
  lemma {:induction false} ValidNameCharacterization(s: string)
    ensures IsValidName(s) <==> WellFormedName(s)
    decreases |s|
  {
    if |s| > 1 {
      ValidNameCharacterization(s[1..]);
      if |s| > 2 {
        ValidNameCharacterization(s[2..]);
      }
      if WellFormedName(s) {
        if IsSeparator(s[1]) {
          assert |s| > 2 && IsAlnum(s[2]);
          assert WellFormedName(s[2..]) by {
            forall i | 0 <= i < |s[2..]| - 1
              ensures !(IsSeparator(s[2..][i]) && IsSeparator(s[2..][i + 1]))
            {
              assert s[2..][i] == s[i + 2] && s[2..][i + 1] == s[i + 3];
            }
          }
        } else {
          assert WellFormedName(s[1..]) by {
            forall i | 0 <= i < |s[1..]| - 1
              ensures !(IsSeparator(s[1..][i]) && IsSeparator(s[1..][i + 1]))
            {
              assert s[1..][i] == s[i + 1] && s[1..][i + 1] == s[i + 2];
            }
          }
        }
      }
      if IsValidName(s) {
        if MatchesPattern(s[1..]) {
          forall i | 0 <= i < |s| - 1 ensures !(IsSeparator(s[i]) && IsSeparator(s[i + 1])) {
            if i > 0 { assert s[i] == s[1..][i - 1] && s[i + 1] == s[1..][i]; }
          }
        } else {
          assert IsSeparator(s[1]) && MatchesPattern(s[2..]);
          forall i | 0 <= i < |s| - 1 ensures !(IsSeparator(s[i]) && IsSeparator(s[i + 1])) {
            if i > 1 { assert s[i] == s[2..][i - 2] && s[i + 1] == s[2..][i - 1]; }
            if i == 1 { assert s[2] == s[2..][0]; }
          }
        }
      }
    }
  }

  /** Upper-case letters are outside the rule, as written and as intended. */
  lemma UpperCaseRejected(s: string)
    requires exists i :: 0 <= i < |s| && 'A' <= s[i] <= 'Z'
    ensures !IsValidName(s) && !MatchesNameRegex(s)
  {
    ValidNameCharacterization(s);
    if |s| > 0 {
      ValidNameCharacterization(s[..|s| - 1]);
      var i :| 0 <= i < |s| && 'A' <= s[i] <= 'Z';
      if i < |s| - 1 { assert s[..|s| - 1][i] == s[i]; }
    }
  }

  /** As written, the rule lets a name through with a line feed at its end. */
  lemma TrailingLineFeedAccepted()
    ensures MatchesNameRegex("abc\n") && !IsValidName("abc\n")
  {
    assert "abc\n"[..3] == "abc";
    assert "abc"[1..] == "bc" && "bc"[1..] == "c";
    ValidNameCharacterization("abc\n");
  }

  /**
   * Under the pattern as `preg_match` applies it, a matching name is well
   * formed once one final line feed, if it has one, is dropped.
   */
  lemma MatchedNameWellFormed(s: string)
    requires MatchesNameRegex(s)
    ensures WellFormedName(s) || (|s| > 0 && s[|s| - 1] == '\n' && WellFormedName(s[..|s| - 1]))
  {
    ValidNameCharacterization(s);
    if |s| > 0 {
      ValidNameCharacterization(s[..|s| - 1]);
    }
  }

  /**
   * The `Regex` and `Length(min=1, max=72)` constraints on a name, with the
   * corrected name pattern `IsValidName` (as written, `MatchesNameRegex`
   * also admits one final line feed; see `MatchedNameWellFormed`). The
   * `Regex` constraint lets the empty string through; `Length` does not.
   */
  predicate NameConstraintsHold(name: string) {
    NAME_MIN_LENGTH <= |name| <= NAME_MAX_LENGTH && (name == "" || IsValidName(name))
  }

  /** The nullable title with `Length(max=200)`. */
  predicate TitleConstraintsHold(title: Option<string>) {
    title.None? || |title.value| <= TITLE_MAX_LENGTH
  }

  /**
   * Every declared constraint of a tag: the name rule and lengths, the title
   * length and, only in the `NewOrUpdated` group, the uniqueness check of the
   * name against the existing names.
   */
  predicate ConstraintsHold(name: string, title: Option<string>, newOrUpdated: bool, existing: seq<string>) {
    && NameConstraintsHold(name)
    && TitleConstraintsHold(title)
    && (newOrUpdated ==> TagValidation.Clashing(TagValidation.CheckedNames(TagValidation.Raw(name)), existing) == [])
  }

  /** Outside the `NewOrUpdated` group a taken name is still acceptable. */
  lemma UniquenessOnlyWhenNewOrUpdated(name: string, title: Option<string>, existing: seq<string>)
    requires NameConstraintsHold(name) && TitleConstraintsHold(title)
    ensures ConstraintsHold(name, title, false, existing)
  {
  }

  /** A persisted tag (the model does not represent a tag before its first flush). */
  class Tag {
    const id: nat
    var name: string
    var title: Option<string>

    constructor(id: nat, name: string)
      ensures this.id == id && this.name == name && title == None
    {
      this.id := id;
      this.name := name;
      title := None;
    }

    function GetName(): string
      reads this
    {
      name
    }

    method SetName(name: string)
      modifies this`name
      ensures GetName() == name
    {
      this.name := name;
    }

    function GetTitle(): Option<string>
      reads this
    {
      title
    }

    method SetTitle(title: Option<string>)
      modifies this`title
      ensures GetTitle() == title
    {
      this.title := title;
    }
  }

  /** The ids of a tag collection. */
  function Ids(tags: seq<Tag>): set<nat> {
    set i | 0 <= i < |tags| :: tags[i].id
  }

  /**
   * `$pairs[$tag->getId()] = $tag->getName()` over the collection, in order:
   * one key per id, a later tag with the same id overwriting an earlier one.
   */
  function TagPairs(tags: seq<Tag>): (m: map<nat, string>)
    reads tags
    ensures m.Keys == Ids(tags)
  {
    if |tags| == 0 then map[]
    else
      var last := tags[|tags| - 1];
      var p := TagPairs(tags[..|tags| - 1]);
      assert Ids(tags) == Ids(tags[..|tags| - 1]) + {last.id} by {
        forall x | x in Ids(tags) ensures x in Ids(tags[..|tags| - 1]) + {last.id} {
          var i :| 0 <= i < |tags| && tags[i].id == x;
          if i < |tags| - 1 { assert tags[..|tags| - 1][i] == tags[i]; }
        }
      }
      p[last.id := last.name]
  }

  /** Each id maps to the name of the last tag in the collection that has it. */
  lemma {:induction false} TagPairsNames(tags: seq<Tag>, i: nat)
    requires i < |tags|
    requires forall j :: i < j < |tags| ==> tags[j].id != tags[i].id
    ensures tags[i].id in TagPairs(tags) && TagPairs(tags)[tags[i].id] == tags[i].name
  {
    if i < |tags| - 1 {
      TagPairsNames(tags[..|tags| - 1], i);
    }
  }

  /** `getTagsAsArray` / `getTagsReadAsArray` / `getTagsWriteAsArray`: the foreach loop building the pairs. */
  method PairsOf(tags: seq<Tag>) returns (pairs: map<nat, string>)
    ensures pairs == TagPairs(tags)
    ensures pairs.Keys == Ids(tags)
  {
    pairs := map[];
    for i := 0 to |tags|
      invariant pairs == TagPairs(tags[..i])
    {
      assert tags[..i + 1][..i] == tags[..i];
      pairs := pairs[tags[i].id := tags[i].name];
    }
    assert tags[..|tags|] == tags;
  }
}
