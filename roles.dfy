/**
 * The Role entity (the authenticated user): its stored roles and the
 * effective roles it reports, the super flag, and its two tag containers,
 * `tags_read` and `tags_write`, with the add / sync / remove operations that
 * keep each container free of duplicates and never touch the other one.
 */
module Roles {
  import opened Common
  import opened Collections
  import opened Tags

  const ROLE_USER: string := "ROLE_USER"
  const ROLE_SUPER: string := "ROLE_SUPER"

  /** The two containers a tag operation can name. */
  datatype TagContainer = TagsRead | TagsWrite

  function Other(c: TagContainer): TagContainer {
    if c == TagsRead then TagsWrite else TagsRead
  }

  /**
   * What the listing and the voter need of a role: its id, whether it is
   * super, and the ids of its read and write tags.
   */
  datatype RoleRecord = RoleRecord(id: Option<nat>, isSuper: bool, readTags: set<nat>, writeTags: set<nat>)

  /**
   * `getRoles`: the stored roles with `ROLE_USER` appended, then
   * `array_unique`: every user has `ROLE_USER`, no role is listed twice, and
   * nothing else is added.
   */
  function EffectiveRoles(stored: seq<string>): (r: seq<string>)
    ensures ROLE_USER in r && NoDuplicates(r)
    ensures forall x :: x in r <==> x in stored || x == ROLE_USER
  {
    DedupElements(stored + [ROLE_USER]);
    DedupNoDuplicates(stored + [ROLE_USER]);
    Dedup(stored + [ROLE_USER])
  }

  /** Distinct stored roles without `ROLE_USER` come back in order, followed by `ROLE_USER`. */
  lemma EffectiveRolesOfDistinct(stored: seq<string>)
    requires NoDuplicates(stored) && ROLE_USER !in stored
    ensures EffectiveRoles(stored) == stored + [ROLE_USER]
  {
    DedupOfDistinct(stored + [ROLE_USER]);
  }

  /** A role whose stored roles are empty is a plain user. */
  lemma PlainUserRoles()
    ensures EffectiveRoles([]) == [ROLE_USER]
  {
    EffectiveRolesOfDistinct([]);
  }

  class Role {
    const id: Option<nat>
    var username: string
    var roles: seq<string>
    var password: string
    var tagsRead: seq<Tag>
    var tagsWrite: seq<Tag>

    /** A new role: no user name or password yet, no stored roles, both tag containers empty. */
    constructor(id: Option<nat>)
      ensures this.id == id && username == "" && roles == [] && password == ""
      ensures tagsRead == [] && tagsWrite == []
    {
      this.id := id;
      username := "";
      roles := [];
      password := "";
      tagsRead := [];
      tagsWrite := [];
    }

    function GetUsername(): string
      reads this
    {
      username
    }

    method SetUsername(username: string)
      modifies this`username
      ensures GetUsername() == username
    {
      this.username := username;
    }

    /** The effective roles: `ROLE_USER` always, each stored role once. */
    function GetRoles(): (r: seq<string>)
      reads this
      ensures ROLE_USER in r && NoDuplicates(r)
      ensures forall x :: x in r <==> x in roles || x == ROLE_USER
    {
      EffectiveRoles(roles)
    }

    method SetRoles(roles: seq<string>)
      modifies this`roles
      ensures this.roles == roles
    {
      this.roles := roles;
    }

    function GetPassword(): string
      reads this
    {
      password
    }

    method SetPassword(password: string)
      modifies this`password
      ensures GetPassword() == password
    {
      this.password := password;
    }

    /** `getIsSuper`: `ROLE_SUPER` is among the effective roles, which holds iff it is stored. */
    predicate GetIsSuper()
      reads this
      ensures GetIsSuper() <==> ROLE_SUPER in roles
    {
      ROLE_SUPER in GetRoles()
    }

    /** The container a tag operation names. */
    function TagsIn(c: TagContainer): seq<Tag>
      reads this
    {
      if c == TagsRead then tagsRead else tagsWrite
    }

    /** Neither container holds the same tag twice. */
    predicate Valid()
      reads this
    {
      NoDuplicates(tagsRead) && NoDuplicates(tagsWrite)
    }

    /** `addTag`: append the tag unless the container already holds it; the other container is untouched. */
    method AddTag(tag: Tag, c: TagContainer)
      modifies this`tagsRead, this`tagsWrite
      ensures TagsIn(c) == Added(old(TagsIn(c)), tag)
      ensures TagsIn(Other(c)) == old(TagsIn(Other(c)))
      ensures old(Valid()) ==> Valid()
    {
      if tag !in TagsIn(c) {
        if c == TagsRead {
          tagsRead := tagsRead + [tag];
        } else {
          tagsWrite := tagsWrite + [tag];
        }
      }
    }

    /**
     * `syncTags`: clear the container, then add each given tag. The container
     * ends up holding the distinct given tags in order of first occurrence;
     * the other container is untouched.
     */
    method SyncTags(tags: seq<Tag>, c: TagContainer)
      modifies this`tagsRead, this`tagsWrite
      ensures TagsIn(c) == Dedup(tags)
      ensures NoDuplicates(TagsIn(c)) && InFirstOccurrenceOrder(TagsIn(c), tags)
      ensures forall t :: t in TagsIn(c) <==> t in tags
      ensures TagsIn(Other(c)) == old(TagsIn(Other(c)))
      ensures old(Valid()) ==> Valid()
    {
      if c == TagsRead {
        tagsRead := [];
      } else {
        tagsWrite := [];
      }
      for i := 0 to |tags|
        invariant TagsIn(c) == Dedup(tags[..i])
        invariant TagsIn(Other(c)) == old(TagsIn(Other(c)))
      {
        assert tags[..i + 1][..i] == tags[..i];
        AddTag(tags[i], c);
      }
      assert tags[..|tags|] == tags;
      DedupNoDuplicates(tags);
      DedupElements(tags);
      DedupFirstOccurrenceOrder(tags);
    }

    /** `removeTag`: drop the tag if the container holds it, otherwise change nothing; the other container is untouched. */
    method RemoveTag(tag: Tag, c: TagContainer)
      modifies this`tagsRead, this`tagsWrite
      ensures TagsIn(c) == RemoveFirst(old(TagsIn(c)), tag)
      ensures tag !in old(TagsIn(c)) ==> TagsIn(c) == old(TagsIn(c))
      ensures old(Valid()) ==> Valid() && tag !in TagsIn(c)
      ensures old(Valid()) ==> forall t :: t in TagsIn(c) <==> t in old(TagsIn(c)) && t != tag
      ensures TagsIn(Other(c)) == old(TagsIn(Other(c)))
    {
      if tag in TagsIn(c) {
        if c == TagsRead {
          if NoDuplicates(tagsRead) { RemoveFirstElements(tagsRead, tag); }
          tagsRead := RemoveFirst(tagsRead, tag);
        } else {
          if NoDuplicates(tagsWrite) { RemoveFirstElements(tagsWrite, tag); }
          tagsWrite := RemoveFirst(tagsWrite, tag);
        }
      }
    }

    /** `getTagsReadAsArray`: the read tags' ids, each mapped to its tag's name. */
    method GetTagsReadAsArray() returns (pairs: map<nat, string>)
      ensures pairs == TagPairs(tagsRead) && pairs.Keys == Ids(tagsRead)
    {
      pairs := PairsOf(tagsRead);
    }

    /** `getTagsWriteAsArray`: the write tags' ids, each mapped to its tag's name. */
    method GetTagsWriteAsArray() returns (pairs: map<nat, string>)
      ensures pairs == TagPairs(tagsWrite) && pairs.Keys == Ids(tagsWrite)
    {
      pairs := PairsOf(tagsWrite);
    }

    /** The role as the voter and the listing see it. */
    function Record(): (r: RoleRecord)
      reads this
      ensures r.id == id && (r.isSuper <==> ROLE_SUPER in roles)
      ensures r.readTags == Ids(tagsRead) && r.writeTags == Ids(tagsWrite)
    {
      RoleRecord(id, GetIsSuper(), Ids(tagsRead), Ids(tagsWrite))
    }
  }

  /** Adding an absent tag and then removing it restores the container. */
  method AddThenRemove(role: Role, tag: Tag, c: TagContainer)
    requires tag !in role.TagsIn(c)
    modifies role`tagsRead, role`tagsWrite
    ensures role.TagsIn(c) == old(role.TagsIn(c))
    ensures role.TagsIn(Other(c)) == old(role.TagsIn(Other(c)))
  {
    role.AddTag(tag, c);
    role.RemoveTag(tag, c);
    RemoveUndoesAdd(old(role.TagsIn(c)), tag);
  }
}
