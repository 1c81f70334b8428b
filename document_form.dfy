/**
 * The document form model: the title, content and format a document is
 * created or updated from, the constraints declared on them, the format
 * looked up as an enum value, and the mapping onto a new Document entity.
 */
module DocumentForms {
  import opened Common
  import opened Documents

  const TITLE_MAX_LENGTH: nat := 120

  /** The input array; the three keys are read without a default. */
  type DocumentInput = map<string, string>

  /** Why `transformToEntity` can fail: the format string names no enum value. */
  datatype FormError = InvalidFormatValue(value: string)

  /**
   * `NotBlank` on a string: the empty string is blank, anything else
   * (a lone space, `"0"`) is not, since no normaliser is configured.
   */
  predicate NotBlank(s: string) {
    s != ""
  }

  class DocumentFormModel {
    var title: string
    var content: string
    var format: string

    /** The three properties are copied verbatim from the input. */
    constructor(input: DocumentInput)
      requires "title" in input && "content" in input && "format" in input
      ensures title == input["title"] && content == input["content"] && format == input["format"]
    {
      title := input["title"];
      content := input["content"];
      format := input["format"];
    }

    /**
     * `getFormatAsEnum`: the format whose value is the stored string, or
     * nothing when the string is not one of the four values (the enum
     * lookup throws there).
     */
    function GetFormatAsEnum(): (r: Option<Format>)
      reads this
      ensures r.Some? ==> FormatValue(r.value) == format
      ensures r.None? ==> forall f: Format :: FormatValue(f) != format
    {
      FormatFromValueExact(format);
      FormatFromValue(format)
    }

    /**
     * The declared constraints: a non-blank title of at most 120
     * characters, and a format that is one of the enum's values.
     */
    predicate ConstraintsHold()
      reads this
    {
      && NotBlank(title)
      && |title| <= TITLE_MAX_LENGTH
      && exists f: Format :: FormatValue(f) == format
    }

    /**
     * `transformToEntity`: a new document with the form's title and content
     * and the format looked up by its value; when the lookup fails the
     * entity is never returned.
     */
    method TransformToEntity() returns (r: Result<Document, FormError>)
      ensures r.Failure? <==> GetFormatAsEnum().None?
      ensures r.Failure? ==> r.error == InvalidFormatValue(format)
      ensures r.Success? ==> fresh(r.value) && r.value.id == None
      ensures r.Success? ==> r.value.title == Some(title) && r.value.content == Some(content)
      ensures r.Success? ==> r.value.format == GetFormatAsEnum() && FormatValue(r.value.format.value) == format
      ensures r.Success? ==> r.value.tags == [] && !r.value.isRemoved && r.value.author == null
    {
      var entity := new Document(None);
      entity.SetTitle(title);
      entity.SetContent(Some(content));
      var f := GetFormatAsEnum();
      if f.None? {
        return Failure(InvalidFormatValue(format));
      }
      entity.SetFormat(f.value);
      r := Success(entity);
    }
  }

  /** A form that passes its constraints always maps onto an entity: the format lookup succeeds. */
  lemma AcceptedFormHasFormat(form: DocumentFormModel)
    requires form.ConstraintsHold()
    ensures form.GetFormatAsEnum().Some?
    ensures FormatValue(form.GetFormatAsEnum().value) == form.format
  {
    var f: Format :| FormatValue(f) == form.format;
    FormatValueRoundTrip(f);
  }
}
