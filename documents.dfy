/**
 * The Document entity and its format enum: the fields the listing, the voter
 * and the revision snapshot read, the tag container it shares with the
 * `Taggable` behaviour, its id-to-name tag pairs and its cache key.
 */
module Documents {
  import opened Common
  import opened Collections
  import opened Text
  import opened Timestamps
  import opened Tags
  import opened Roles

  /** `DocumentFormat`: the four stored formats. */
  datatype Format = Plaintext | Markdown | Html | Json

  /** The value each format is stored and sent as. */
  function FormatValue(f: Format): string {
    match f
    case Plaintext => "plaintext"
    case Markdown => "markdown"
    case Html => "html"
    case Json => "json"
  }

  /** `DocumentFormat::get(value)`: the format with that value; `None` where the enum throws. */
  function FormatFromValue(v: string): (r: Option<Format>)
    ensures r.Some? ==> FormatValue(r.value) == v
  {
    if v == "plaintext" then Some(Plaintext)
    else if v == "markdown" then Some(Markdown)
    else if v == "html" then Some(Html)
    else if v == "json" then Some(Json)
    else None
  }

  /** Every format is found again from its value, so a value names at most one format. */
  lemma FormatValueRoundTrip(f: Format)
    ensures FormatFromValue(FormatValue(f)) == Some(f)
  {
  }

  /** A string is a format value iff it is the value of some format. */
  lemma FormatFromValueExact(v: string)
    ensures FormatFromValue(v).Some? <==> exists f :: FormatValue(f) == v
  {
    if exists f :: FormatValue(f) == v {
      var f :| FormatValue(f) == v;
      FormatValueRoundTrip(f);
    }
  }

  const CACHE_KEY_PREFIX: string := "notes.document_"

  /** `'notes.document_'.$id`: a null id concatenates as the empty string. */
  function CacheKey(id: Option<nat>): (k: string)
    ensures |k| >= |CACHE_KEY_PREFIX| && k[..|CACHE_KEY_PREFIX|] == CACHE_KEY_PREFIX
    ensures |k| > |CACHE_KEY_PREFIX| <==> id.Some?
  {
    CACHE_KEY_PREFIX + (if id.Some? then NatToDecimal(id.value) else "")
  }

  /** Distinct ids (a null id included) never share a cache key. */
  lemma CacheKeyInjective(a: Option<nat>, b: Option<nat>)
    requires a != b
    ensures CacheKey(a) != CacheKey(b)
  {
    if a.Some? && b.Some? {
      DecimalInjective(a.value, b.value);
      var n := |CACHE_KEY_PREFIX|;
      assert CacheKey(a)[n..] == NatToDecimal(a.value);
      assert CacheKey(b)[n..] == NatToDecimal(b.value);
    }
  }

  /**
   * What the listing sees of a stored document row: its id, `updated_at`,
   * tag ids and the removal flag.
   */
  datatype DocumentRecord = DocumentRecord(id: nat, updatedAt: DateTime, tagIds: set<nat>, isRemoved: bool)

  /** What the access voter reads of a document: its tag ids and its author's id. */
  datatype AccessView = AccessView(tagIds: set<nat>, authorId: Option<nat>)

  class Document {
    const id: Option<nat>
    var title: Option<string>
    var content: Option<string>
    var format: Option<Format>
    var createdAt: Option<DateTime>
    var updatedAt: Option<DateTime>
    var tags: seq<Tag>
    var isRemoved: bool
    var author: Role?

    /** A new document: no tags, not removed, no author, every nullable field unset. */
    constructor(id: Option<nat>)
      ensures this.id == id && tags == [] && !isRemoved && author == null
      ensures title == None && content == None && format == None
      ensures createdAt == None && updatedAt == None
    {
      this.id := id;
      title := None;
      content := None;
      format := None;
      createdAt := None;
      updatedAt := None;
      tags := [];
      isRemoved := false;
      author := null;
    }

    function GetTitle(): Option<string>
      reads this
    {
      title
    }

    method SetTitle(title: string)
      modifies this`title
      ensures GetTitle() == Some(title)
    {
      this.title := Some(title);
    }

    function GetContent(): Option<string>
      reads this
    {
      content
    }

    method SetContent(content: Option<string>)
      modifies this`content
      ensures GetContent() == content
    {
      this.content := content;
    }

    function GetFormat(): Option<Format>
      reads this
    {
      format
    }

    method SetFormat(format: Format)
      modifies this`format
      ensures GetFormat() == Some(format)
    {
      this.format := Some(format);
    }

    function GetUpdatedAt(): Option<DateTime>
      reads this
    {
      updatedAt
    }

    method SetUpdatedAt(updatedAt: DateTime)
      modifies this`updatedAt
      ensures GetUpdatedAt() == Some(updatedAt)
    {
      this.updatedAt := Some(updatedAt);
    }

    function GetCreatedAt(): Option<DateTime>
      reads this
    {
      createdAt
    }

    method SetCreatedAt(createdAt: DateTime)
      modifies this`createdAt
      ensures GetCreatedAt() == Some(createdAt)
    {
      this.createdAt := Some(createdAt);
    }

    function GetIsRemoved(): bool
      reads this
    {
      isRemoved
    }

    method SetIsRemoved(isRemoved: bool)
      modifies this`isRemoved
      ensures GetIsRemoved() == isRemoved
    {
      this.isRemoved := isRemoved;
    }

    function GetAuthor(): Role?
      reads this
    {
      author
    }

    method SetAuthor(author: Role?)
      modifies this`author
      ensures GetAuthor() == author
    {
      this.author := author;
    }

    /** `getTags`: the tag container. */
    function GetTags(): seq<Tag>
      reads this
    {
      tags
    }

    /** `addTag`: append the tag unless the document already holds it. */
    method AddTag(tag: Tag)
      modifies this`tags
      ensures GetTags() == Added(old(GetTags()), tag)
      ensures NoDuplicates(old(GetTags())) ==> NoDuplicates(GetTags())
    {
      if tag !in tags {
        tags := tags + [tag];
      }
    }

    /** `syncTags`: clear, then add each given tag: the distinct given tags, in order of first occurrence. */
    method SyncTags(given: seq<Tag>)
      modifies this`tags
      ensures GetTags() == Dedup(given)
      ensures NoDuplicates(GetTags()) && InFirstOccurrenceOrder(GetTags(), given)
      ensures forall t :: t in GetTags() <==> t in given
    {
      tags := [];
      for i := 0 to |given|
        invariant tags == Dedup(given[..i])
      {
        assert given[..i + 1][..i] == given[..i];
        AddTag(given[i]);
      }
      assert given[..|given|] == given;
      DedupNoDuplicates(given);
      DedupElements(given);
      DedupFirstOccurrenceOrder(given);
    }

    /** `removeTag`: drop the tag if the document holds it, otherwise change nothing. */
    method RemoveTag(tag: Tag)
      modifies this`tags
      ensures GetTags() == RemoveFirst(old(GetTags()), tag)
      ensures tag !in old(GetTags()) ==> GetTags() == old(GetTags())
      ensures NoDuplicates(old(GetTags())) ==>
        NoDuplicates(GetTags()) && forall t :: t in GetTags() <==> t in old(GetTags()) && t != tag
    {
      if tag in tags {
        if NoDuplicates(tags) { RemoveFirstElements(tags, tag); }
        tags := RemoveFirst(tags, tag);
      }
    }

    /** `getTagsAsArray`: the document's tag ids, each mapped to its tag's name. */
    method GetTagsAsArray() returns (pairs: map<nat, string>)
      ensures pairs == TagPairs(tags) && pairs.Keys == Ids(tags)
    {
      pairs := PairsOf(tags);
    }

    /** `getCacheKey`: the prefix followed by the id in decimal, or by nothing when the id is null. */
    function GetCacheKey(): (k: string)
      ensures |k| >= |CACHE_KEY_PREFIX| && k[..|CACHE_KEY_PREFIX|] == CACHE_KEY_PREFIX
      ensures k[|CACHE_KEY_PREFIX|..] == if id.Some? then NatToDecimal(id.value) else ""
    {
      CacheKey(id)
    }

    /** The stored row the listing reads (a persisted document has an id and an update time). */
    function Record(): (r: DocumentRecord)
      requires id.Some? && updatedAt.Some?
      reads this
      ensures r.id == id.value && r.updatedAt == updatedAt.value
      ensures r.tagIds == Ids(tags) && r.isRemoved == isRemoved
    {
      DocumentRecord(id.value, updatedAt.value, Ids(tags), isRemoved)
    }

    /** What the voter reads: the tag ids and the author's id. */
    function View(): (v: AccessView)
      requires author != null
      reads this
      ensures v.tagIds == Ids(tags) && v.authorId == author.id
    {
      AccessView(Ids(tags), author.id)
    }
  }

  /** Adding an absent tag to a document and then removing it restores its tags. */
  method AddThenRemove(document: Document, tag: Tag)
    requires tag !in document.tags
    modifies document`tags
    ensures document.tags == old(document.tags)
  {
    document.AddTag(tag);
    document.RemoveTag(tag);
    RemoveUndoesAdd(old(document.tags), tag);
  }
}
