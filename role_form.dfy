/**
 * The role form model: the request values a role is created or updated
 * from, their defaults, the constraints declared on them, and the mapping
 * of a form onto a new Role entity (user name, optionally encoded password,
 * super flag or the looked-up tag containers).
 */
module RoleForms {
  import opened Common
  import opened Collections
  import opened Tags
  import opened Roles

  /** The form's Length bounds. */
  const USERNAME_MIN_LENGTH: nat := 4
  const USERNAME_MAX_LENGTH: nat := 32
  const PASSWORD_MIN_LENGTH: nat := 6
  const PASSWORD_MAX_LENGTH: nat := 120

  /**
   * The input array, one entry per form property: `None` when the key is
   * absent or holds null (the `??` operator treats both alike).
   */
  datatype RoleInput = RoleInput(
    username: Option<string>,
    password: Option<string>,
    confirmPassword: Option<string>,
    changePassword: Option<bool>,
    isSuper: Option<bool>,
    tagsRead: Option<seq<nat>>,
    tagsWrite: Option<seq<nat>>)

  /** `$input[$prop] ?? $default`. */
  function OrDefault<T>(given: Option<T>, default: T): (v: T)
    ensures given.Some? ==> v == given.value
    ensures given.None? ==> v == default
  {
    if given.Some? then given.value else default
  }

  /** The ids an id list mentions. */
  function Requested(ids: seq<nat>): set<nat> {
    set x | x in ids
  }

  /**
   * `TagRepository::findAllById`: the stored tags whose id is in the list,
   * in table order. The table is a parameter: the query itself is not part
   * of this model.
   */
  function FindAllById(catalog: seq<Tag>, ids: seq<nat>): (r: seq<Tag>)
    ensures |r| <= |catalog|
    ensures forall i :: 0 <= i < |r| ==> r[i] in catalog && r[i].id in ids
    ensures forall i :: 0 <= i < |catalog| && catalog[i].id in ids ==> catalog[i] in r
  {
    if |catalog| == 0 then []
    else (if catalog[0].id in ids then [catalog[0]] else []) + FindAllById(catalog[1..], ids)
  }

  /** The lookup finds exactly the requested ids that exist in the table. */
  lemma FindAllByIdIds(catalog: seq<Tag>, ids: seq<nat>)
    ensures Ids(FindAllById(catalog, ids)) == Ids(catalog) * Requested(ids)
  {
    var r := FindAllById(catalog, ids);
    forall x | x in Ids(catalog) * Requested(ids) ensures x in Ids(r) {
      var i :| 0 <= i < |catalog| && catalog[i].id == x;
      var j :| 0 <= j < |r| && r[j] == catalog[i];
    }
    forall x | x in Ids(r) ensures x in Ids(catalog) * Requested(ids) {
      var j :| 0 <= j < |r| && r[j].id == x;
      var i :| 0 <= i < |catalog| && catalog[i] == r[j];
    }
  }

  /**
   * The lookup depends only on which ids are listed, not on their order or
   * repetition: the `array_unique` before it changes no result.
   */
  lemma {:induction false} FindAllByIdSameIds(catalog: seq<Tag>, a: seq<nat>, b: seq<nat>)
    requires forall x :: x in a <==> x in b
    ensures FindAllById(catalog, a) == FindAllById(catalog, b)
  {
    if |catalog| > 0 {
      FindAllByIdSameIds(catalog[1..], a, b);
    }
  }

  /** Two collections with the same tags have the same ids. */
  lemma SameTagsSameIds(a: seq<Tag>, b: seq<Tag>)
    requires forall t :: t in a <==> t in b
    ensures Ids(a) == Ids(b)
  {
    forall x | x in Ids(a) ensures x in Ids(b) {
      var i :| 0 <= i < |a| && a[i].id == x;
      assert a[i] in b;
      var j :| 0 <= j < |b| && b[j] == a[i];
    }
    forall x | x in Ids(b) ensures x in Ids(a) {
      var j :| 0 <= j < |b| && b[j].id == x;
      assert b[j] in a;
      var i :| 0 <= i < |a| && a[i] == b[j];
    }
  }

  class RoleFormModel {
    var username: string
    var password: string
    var confirmPassword: string
    var changePassword: bool
    var isSuper: bool
    var tagsRead: seq<nat>
    var tagsWrite: seq<nat>

    /**
     * Each of the seven properties takes the input value when it is present
     * and non-null, and the default of `FORM_PROPERTIES` otherwise: empty
     * strings, `change_password` true (overriding the property's own
     * initial false), `is_super` false, no tag ids.
     */
    constructor(input: RoleInput)
      ensures username == OrDefault(input.username, "")
      ensures password == OrDefault(input.password, "")
      ensures confirmPassword == OrDefault(input.confirmPassword, "")
      ensures changePassword == OrDefault(input.changePassword, true)
      ensures isSuper == OrDefault(input.isSuper, false)
      ensures tagsRead == OrDefault(input.tagsRead, [])
      ensures tagsWrite == OrDefault(input.tagsWrite, [])
    {
      username := OrDefault(input.username, "");
      password := OrDefault(input.password, "");
      confirmPassword := OrDefault(input.confirmPassword, "");
      changePassword := OrDefault(input.changePassword, true);
      isSuper := OrDefault(input.isSuper, false);
      tagsRead := OrDefault(input.tagsRead, []);
      tagsWrite := OrDefault(input.tagsWrite, []);
    }

    /** `getTagsRead`: each requested read-tag id once, in order of first mention. */
    function GetTagsRead(): (r: seq<nat>)
      reads this
      ensures NoDuplicates(r) && InFirstOccurrenceOrder(r, tagsRead)
      ensures forall x :: x in r <==> x in tagsRead
    {
      DedupNoDuplicates(tagsRead);
      DedupElements(tagsRead);
      DedupFirstOccurrenceOrder(tagsRead);
      Dedup(tagsRead)
    }

    /** `getTagsWrite`: each requested write-tag id once, in order of first mention. */
    function GetTagsWrite(): (r: seq<nat>)
      reads this
      ensures NoDuplicates(r) && InFirstOccurrenceOrder(r, tagsWrite)
      ensures forall x :: x in r <==> x in tagsWrite
    {
      DedupNoDuplicates(tagsWrite);
      DedupElements(tagsWrite);
      DedupFirstOccurrenceOrder(tagsWrite);
      Dedup(tagsWrite)
    }

    /**
     * The declared constraints, with the corrected name pattern
     * `IsValidName` (as written the pattern also admits one final line
     * feed; see `AsWrittenUsernameWellFormed`): the user name follows the
     * name rule with 4 to 32 characters; in the `NewOrUpdated` group the password has 6 to
     * 120 characters and the confirmation is identical to it.
     */
    predicate ConstraintsHold(newOrUpdated: bool)
      reads this
    {
      && USERNAME_MIN_LENGTH <= |username| <= USERNAME_MAX_LENGTH
      && IsValidName(username)
      && (newOrUpdated ==>
            PASSWORD_MIN_LENGTH <= |password| <= PASSWORD_MAX_LENGTH && confirmPassword == password)
    }

    /**
     * `transformToEntity`: a new role with the form's user name; the
     * password encoded and set only when it is to be changed; a super role
     * gets the stored roles `[ROLE_SUPER]` and two empty containers, any
     * other role keeps no stored roles and gets the looked-up tags.
     */
    method TransformToEntity(encode: string -> string, catalog: seq<Tag>) returns (entity: Role)
      ensures fresh(entity) && entity.id == None && entity.Valid()
      ensures entity.username == username
      ensures entity.password == (if changePassword then encode(password) else "")
      ensures entity.roles == (if isSuper then [ROLE_SUPER] else [])
      ensures entity.tagsRead == (if isSuper then [] else Dedup(FindAllById(catalog, GetTagsRead())))
      ensures entity.tagsWrite == (if isSuper then [] else Dedup(FindAllById(catalog, GetTagsWrite())))
      ensures entity.GetIsSuper() <==> isSuper
      ensures !isSuper ==> entity.GetRoles() == [ROLE_USER]
      ensures !isSuper ==> entity.Record().readTags == Ids(catalog) * Requested(tagsRead)
      ensures !isSuper ==> entity.Record().writeTags == Ids(catalog) * Requested(tagsWrite)
    {
      entity := new Role(None);
      entity.SetUsername(username);
      if changePassword {
        entity.SetPassword(encode(password));
      }
      if isSuper {
        entity.SetRoles([ROLE_SUPER]);
        entity.SyncTags([], TagsRead);
        entity.SyncTags([], TagsWrite);
      } else {
        var read := FindAllById(catalog, GetTagsRead());
        var write := FindAllById(catalog, GetTagsWrite());
        entity.SyncTags(read, TagsRead);
        entity.SyncTags(write, TagsWrite);
        PlainUserRoles();
        FindAllByIdSameIds(catalog, GetTagsRead(), tagsRead);
        FindAllByIdSameIds(catalog, GetTagsWrite(), tagsWrite);
        FindAllByIdIds(catalog, tagsRead);
        FindAllByIdIds(catalog, tagsWrite);
        SameTagsSameIds(entity.tagsRead, read);
        SameTagsSameIds(entity.tagsWrite, write);
      }
    }
  }

  /**
   * Under the name pattern as written, a user name of 4 to 32 characters
   * that matches is well formed, or is a well-formed name of 3 to 31
   * characters followed by one line feed.
   */
  lemma AsWrittenUsernameWellFormed(username: string)
    requires USERNAME_MIN_LENGTH <= |username| <= USERNAME_MAX_LENGTH && MatchesNameRegex(username)
    ensures || WellFormedName(username)
            || (username[|username| - 1] == '\n' && WellFormedName(username[..|username| - 1])
                && USERNAME_MIN_LENGTH - 1 <= |username[..|username| - 1]| <= USERNAME_MAX_LENGTH - 1)
  {
    MatchedNameWellFormed(username);
  }

  /**
   * A form that passes its constraints, with the corrected name pattern,
   * carries a well-formed user name:
   * lower-case letters, digits and single separators, a letter or digit at
   * both ends.
   */
  lemma AcceptedUsernameWellFormed(form: RoleFormModel, newOrUpdated: bool)
    requires form.ConstraintsHold(newOrUpdated)
    ensures WellFormedName(form.username)
    ensures USERNAME_MIN_LENGTH <= |form.username| <= USERNAME_MAX_LENGTH
  {
    ValidNameCharacterization(form.username);
  }
}
