/**
 * Revisions: the snapshot of a document's title, format and content that
 * the revision builder stores as a JSON object, the rebuilding of that
 * snapshot as revision data, and the restore that writes it back.
 */
module Revisions {
  import opened Common
  import opened Documents

  const LABEL_MAX_LENGTH: nat := 120

  /** `RevisionData`: the document fields a revision restores. */
  datatype RevisionData = RevisionData(title: string, format: Format, content: string)

  /** The stored JSON object: string values, `None` standing for JSON null. */
  type Data = map<string, Option<string>>

  /** The object the builder stores: the title, the format's value and the content. */
  function Snapshot(title: Option<string>, format: Format, content: Option<string>): Data {
    map["title" := title, "format" := Some(FormatValue(format)), "content" := content]
  }

  /**
   * Why the data cannot be rebuilt: the format entry is missing, null or
   * not a format value (the enum lookup throws), or the title or content is
   * missing or null (the typed `RevisionData` properties refuse null).
   */
  datatype DataError = InvalidFormat | NullField

  /**
   * `getDocumentData`: the title, format and content rebuilt from the
   * stored object. The format argument is evaluated, and can throw, before
   * the constructor checks the title and the content.
   */
  function DocumentDataOf(data: Data): (r: Result<RevisionData, DataError>)
    ensures r.Success? ==>
      && "title" in data && data["title"] == Some(r.value.title)
      && "format" in data && data["format"] == Some(FormatValue(r.value.format))
      && "content" in data && data["content"] == Some(r.value.content)
    ensures r == Failure(InvalidFormat) <==>
      "format" !in data || data["format"].None? || FormatFromValue(data["format"].value).None?
  {
    if "format" !in data || data["format"].None? then Failure(InvalidFormat)
    else
      match FormatFromValue(data["format"].value)
      case None => Failure(InvalidFormat)
      case Some(f) =>
        if "title" !in data || data["title"].None? || "content" !in data || data["content"].None? then
          Failure(NullField)
        else
          Success(RevisionData(data["title"].value, f, data["content"].value))
  }

  /**
   * The snapshot round trip: rebuilding a snapshot gives back the title,
   * format and content it was taken from, and fails only when the title or
   * the content was null.
   */
  lemma SnapshotRoundTrip(title: Option<string>, format: Format, content: Option<string>)
    ensures DocumentDataOf(Snapshot(title, format, content)) ==
      if title.Some? && content.Some? then Success(RevisionData(title.value, format, content.value))
      else Failure(NullField)
  {
    FormatValueRoundTrip(format);
  }

  class Revision {
    const id: Option<nat>
    var labelText: Option<string>
    var data: Data
    var document: Document?

    /** A new revision: no label, an empty object, no document. */
    constructor()
      ensures id == None && labelText == None && data == map[] && document == null
    {
      id := None;
      labelText := None;
      data := map[];
      document := null;
    }

    function GetLabel(): Option<string>
      reads this
    {
      labelText
    }

    method SetLabel(text: Option<string>)
      modifies this`labelText
      ensures GetLabel() == text
    {
      this.labelText := text;
    }

    function GetData(): Data
      reads this
    {
      data
    }

    method SetData(data: Data)
      modifies this`data
      ensures GetData() == data
    {
      this.data := data;
    }

    function GetDocument(): Document?
      reads this
    {
      document
    }

    method SetDocument(document: Document?)
      modifies this`document
      ensures GetDocument() == document
    {
      this.document := document;
    }

    /**
     * `getDocumentData`: the stored object rebuilt; a success carries the
     * stored title, format value and content, and the format is refused
     * exactly when its entry is missing, null or no format value.
     */
    function GetDocumentData(): (r: Result<RevisionData, DataError>)
      reads this
      ensures r.Success? ==>
        data.Keys >= {"title", "format", "content"}
        && data["title"] == Some(r.value.title) && data["content"] == Some(r.value.content)
        && data["format"] == Some(FormatValue(r.value.format))
      ensures r == Failure(InvalidFormat) <==>
        "format" !in data || data["format"].None? || FormatFromValue(data["format"].value).None?
    {
      DocumentDataOf(data)
    }
  }

  /**
   * Why `build` refuses: no transaction is active, the label is longer than
   * 120 characters, or the document has no format (its value is read from
   * null).
   */
  datatype BuildError = NoTransaction | LabelTooLong | MissingFormat

  /**
   * `RevisionBuilder::build`: checked in this order, a transaction must be
   * active and the label at most 120 characters long; the new revision
   * stores the document's title, format value and content, references the
   * document and carries the label. The document is only read.
   */
  method Build(transactionActive: bool, document: Document, labelText: string := "") returns (r: Result<Revision, BuildError>)
    ensures !transactionActive ==> r == Failure(NoTransaction)
    ensures transactionActive && |labelText| > LABEL_MAX_LENGTH ==> r == Failure(LabelTooLong)
    ensures transactionActive && |labelText| <= LABEL_MAX_LENGTH && document.format.None? ==> r == Failure(MissingFormat)
    ensures r.Success? <==> transactionActive && |labelText| <= LABEL_MAX_LENGTH && document.format.Some?
    ensures r.Success? ==> fresh(r.value)
    ensures r.Success? ==> r.value.data == Snapshot(document.title, document.format.value, document.content)
    ensures r.Success? ==> r.value.document == document && r.value.labelText == Some(labelText)
    ensures r.Success? && document.title.Some? && document.content.Some? ==>
      r.value.GetDocumentData() == Success(RevisionData(document.title.value, document.format.value, document.content.value))
  {
    if !transactionActive {
      return Failure(NoTransaction);
    }
    if |labelText| > LABEL_MAX_LENGTH {
      return Failure(LabelTooLong);
    }
    if document.format.None? {
      return Failure(MissingFormat);
    }
    var data := Snapshot(document.GetTitle(), document.GetFormat().value, document.GetContent());
    var revision := new Revision();
    revision.SetData(data);
    revision.SetDocument(document);
    revision.SetLabel(Some(labelText));
    SnapshotRoundTrip(document.title, document.format.value, document.content);
    r := Success(revision);
  }

  /** The restore step: the document takes the revision's title, content and format. */
  method Restore(document: Document, data: RevisionData)
    modifies document`title, document`content, document`format
    ensures document.title == Some(data.title) && document.content == Some(data.content)
    ensures document.format == Some(data.format)
  {
    document.SetTitle(data.title);
    document.SetContent(Some(data.content));
    document.SetFormat(data.format);
  }

  /**
   * Snapshot, edit, restore: whatever the document was changed to after a
   * revision was built, restoring that revision brings back the title,
   * content and format it had when the snapshot was taken.
   */
  method SnapshotEditRestore(document: Document, labelText: string, title: string, content: Option<string>, format: Format)
    requires |labelText| <= LABEL_MAX_LENGTH
    requires document.title.Some? && document.content.Some? && document.format.Some?
    modifies document`title, document`content, document`format
    ensures document.title == old(document.title) && document.content == old(document.content)
    ensures document.format == old(document.format)
  {
    var r := Build(true, document, labelText);
    var revision := r.value;
    document.SetTitle(title);
    document.SetContent(content);
    document.SetFormat(format);
    var restored := revision.GetDocumentData();
    Restore(document, restored.value);
  }
}
