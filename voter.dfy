/**
 * The document access voter: which attributes it decides on, and the
 * READ / WRITE / DELETE decision over the document's tags, the role's read
 * and write tags, and authorship.
 */
module AccessVoter {
  import opened Common
  import opened Tags
  import opened Roles
  import opened Documents

  const READ: string := "READ"
  const WRITE: string := "WRITE"
  const DELETE: string := "DELETE"

  /** The subject of a vote: a document, or anything else. */
  datatype Subject = DocumentSubject(view: AccessView) | OtherSubject

  /** The token's user: a role, or a value that is not a user at all. */
  datatype TokenUser = Anonymous | User(role: RoleRecord)

  /** `supports`: one of the three attributes (compared exactly), on a document. */
  predicate Supports(attribute: string, subject: Subject) {
    attribute in [READ, WRITE, DELETE] && subject.DocumentSubject?
  }

  /** Lower-case attribute names are not supported, whatever the subject. */
  lemma SupportsIsCaseSensitive(subject: Subject)
    ensures !Supports("read", subject) && !Supports("write", subject) && !Supports("delete", subject)
  {
  }

  /** READ access: the document has a tag the tags allow and none they do not. */
  predicate TagsAllow(docTags: set<nat>, allowed: set<nat>) {
    docTags * allowed != {} && docTags <= allowed
  }

  /**
   * `voteOnAttribute`. A non-user is denied; a super role is granted; the
   * author may DELETE; READ needs the read tags to allow the document's tags;
   * WRITE needs authorship and the write tags to allow them; everything else
   * is denied.
   */
  predicate VoteOnAttribute(attribute: string, doc: AccessView, user: TokenUser) {
    match user
    case Anonymous => false
    case User(role) =>
      if role.isSuper then true
      else if attribute == DELETE && doc.authorId == role.id then true
      else if attribute == READ && TagsAllow(doc.tagIds, role.readTags) then true
      else if attribute == WRITE && doc.authorId == role.id && TagsAllow(doc.tagIds, role.writeTags) then true
      else false
  }

  /** A value that is not a user is denied every attribute. */
  lemma NonUserDenied(attribute: string, doc: AccessView)
    ensures !VoteOnAttribute(attribute, doc, Anonymous)
  {
  }

  /** A super role is granted every attribute, whatever the tags or the author. */
  lemma SuperGranted(attribute: string, doc: AccessView, role: RoleRecord)
    requires role.isSuper
    ensures VoteOnAttribute(attribute, doc, User(role))
  {
  }

  /** For other roles, DELETE is exactly authorship. */
  lemma DeleteIsAuthorship(doc: AccessView, role: RoleRecord)
    requires !role.isSuper
    ensures VoteOnAttribute(DELETE, doc, User(role)) <==> doc.authorId == role.id
  {
  }

  /** For other roles, READ is exactly: some document tag is readable and none is not. */
  lemma ReadRule(doc: AccessView, role: RoleRecord)
    requires !role.isSuper
    ensures VoteOnAttribute(READ, doc, User(role)) <==>
      (exists t :: t in doc.tagIds && t in role.readTags) && forall t :: t in doc.tagIds ==> t in role.readTags
  {
    if exists t :: t in doc.tagIds && t in role.readTags {
      var t :| t in doc.tagIds && t in role.readTags;
      assert t in doc.tagIds * role.readTags;
    }
  }

  /** For other roles, WRITE is exactly authorship plus the write tags allowing the document's tags. */
  lemma WriteRule(doc: AccessView, role: RoleRecord)
    requires !role.isSuper
    ensures VoteOnAttribute(WRITE, doc, User(role)) <==>
      doc.authorId == role.id && (exists t :: t in doc.tagIds && t in role.writeTags)
      && forall t :: t in doc.tagIds ==> t in role.writeTags
  {
    if exists t :: t in doc.tagIds && t in role.writeTags {
      var t :| t in doc.tagIds && t in role.writeTags;
      assert t in doc.tagIds * role.writeTags;
    }
  }

  /** The read tags play no part in WRITE, nor the write tags in READ. */
  lemma ContainersIndependent(doc: AccessView, role: RoleRecord, other: set<nat>)
    ensures VoteOnAttribute(WRITE, doc, User(role)) == VoteOnAttribute(WRITE, doc, User(role.(readTags := other)))
    ensures VoteOnAttribute(READ, doc, User(role)) == VoteOnAttribute(READ, doc, User(role.(writeTags := other)))
  {
  }

  /** An untagged document can be neither read nor written by a role that is not super. */
  lemma UntaggedDenied(doc: AccessView, role: RoleRecord)
    requires !role.isSuper && doc.tagIds == {}
    ensures !VoteOnAttribute(READ, doc, User(role)) && !VoteOnAttribute(WRITE, doc, User(role))
  {
  }

  /** Any other attribute is denied to a role that is not super. */
  lemma OtherAttributesDenied(attribute: string, doc: AccessView, role: RoleRecord)
    requires !role.isSuper && attribute !in [READ, WRITE, DELETE]
    ensures !VoteOnAttribute(attribute, doc, User(role))
  {
  }

  /** Whoever may write a document may also delete it. */
  lemma WriteImpliesDelete(doc: AccessView, user: TokenUser)
    requires VoteOnAttribute(WRITE, doc, user)
    ensures VoteOnAttribute(DELETE, doc, user)
  {
  }

  /** Granting more read tags never takes READ away. */
  lemma ReadMonotone(doc: AccessView, role: RoleRecord, more: set<nat>)
    requires VoteOnAttribute(READ, doc, User(role)) && role.readTags <= more
    ensures VoteOnAttribute(READ, doc, User(role.(readTags := more)))
  {
    assert doc.tagIds * role.readTags <= doc.tagIds * more;
  }

  /**
   * The voter as the source runs it on entities: the tag ids are the keys of
   * the pairs built by `getTagsAsArray` / `getTagsWriteAsArray` /
   * `getTagsReadAsArray`, and a null user stands for a token whose user is
   * not a role.
   */
  method Vote(attribute: string, document: Document, user: Role?) returns (granted: bool)
    requires document.author != null
    ensures granted == VoteOnAttribute(attribute, document.View(), if user == null then Anonymous else User(user.Record()))
  {
    if user == null {
      return false;
    }
    if user.GetIsSuper() {
      return true;
    }
    var docPairs := document.GetTagsAsArray();
    var writePairs := user.GetTagsWriteAsArray();
    var readPairs := user.GetTagsReadAsArray();
    var docTags, writeTags, readTags := docPairs.Keys, writePairs.Keys, readPairs.Keys;
    var isSameAuthor := document.GetAuthor().id == user.id;
    if attribute == DELETE && isSameAuthor {
      return true;
    }
    if attribute == READ {
      if docTags * readTags != {} && docTags - readTags == {} {
        assert docTags <= readTags by {
          forall t | t in docTags ensures t in readTags {
            assert t !in docTags - readTags;
          }
        }
        return true;
      }
    }
    if attribute == WRITE {
      if isSameAuthor && docTags * writeTags != {} && docTags - writeTags == {} {
        assert docTags <= writeTags by {
          forall t | t in docTags ensures t in writeTags {
            assert t !in docTags - writeTags;
          }
        }
        return true;
      }
    }
    return false;
  }
}
