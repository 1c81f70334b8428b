/**
 * The content parser: it normalises the requested format (trimmed, then
 * lower-cased), appends `Parser`, and hands the content to the parser held
 * under that name, or refuses the format. The three renderers (HTML
 * purifier, CommonMark, `htmlentities` with `nl2br`) are functions this
 * model takes as given.
 */
module ContentParsing {
  import opened Common
  import opened Text
  import opened Documents

  /** The parsers the content parser is constructed with. */
  datatype Parsers = Parsers(html: string -> string, markdown: string -> string, plaintext: string -> string)

  const PARSER_SUFFIX: string := "Parser"
  const UNKNOWN_FORMAT_MESSAGE: string := "Parser format does not exists, provided: "

  /** The normalised format: `strtolower(trim($format))`. */
  function Normalised(format: string): string {
    ToLower(Trim(format))
  }

  /** The property name looked up: the normalised format followed by `Parser`. */
  function ParserName(format: string): string {
    Normalised(format) + PARSER_SUFFIX
  }

  /**
   * `isset($this->$name)`: the parser held in the property of that name, if
   * any; the content parser has exactly three such properties.
   */
  function Property(parsers: Parsers, name: string): Option<string -> string> {
    if name == "htmlParser" then Some(parsers.html)
    else if name == "markdownParser" then Some(parsers.markdown)
    else if name == "plaintextParser" then Some(parsers.plaintext)
    else None
  }

  /** `parse`: look up the property named after the normalised format, or refuse the format. */
  function Parse(parsers: Parsers, content: string, format: string): Result<string, string> {
    var name := ParserName(format);
    match Property(parsers, name)
    case Some(parser) => Success(parser(content))
    case None => Failure(UNKNOWN_FORMAT_MESSAGE + name)
  }

  /** A name followed by `Parser` is the same property name only for the same name. */
  lemma SuffixedNames(n: string, m: string)
    ensures n + PARSER_SUFFIX == m + PARSER_SUFFIX <==> n == m
  {
    if n + PARSER_SUFFIX == m + PARSER_SUFFIX {
      assert n == (n + PARSER_SUFFIX)[..|n|];
      assert m == (m + PARSER_SUFFIX)[..|m|];
    }
  }

  /** The three property names are the three format values followed by `Parser`. */
  lemma PropertyNames()
    ensures "html" + PARSER_SUFFIX == "htmlParser"
    ensures "markdown" + PARSER_SUFFIX == "markdownParser"
    ensures "plaintext" + PARSER_SUFFIX == "plaintextParser"
  {
  }

  /** The name looked up for a JSON document. */
  lemma JsonName()
    ensures "json" + PARSER_SUFFIX == "jsonParser"
  {
  }

  /**
   * What `parse` does, stated on the normalised format: `html`, `markdown`
   * and `plaintext` hand the content, unchanged, to the parser of that
   * name; every other format (the enum's `json` among them) is refused with
   * a message naming the property looked up.
   */
  lemma ParseDispatch(parsers: Parsers, content: string, format: string)
    ensures var n := Normalised(format);
      Parse(parsers, content, format) ==
        if n == "html" then Success(parsers.html(content))
        else if n == "markdown" then Success(parsers.markdown(content))
        else if n == "plaintext" then Success(parsers.plaintext(content))
        else Failure(UNKNOWN_FORMAT_MESSAGE + n + PARSER_SUFFIX)
  {
    var n := Normalised(format);
    PropertyNames();
    SuffixedNames(n, "html");
    SuffixedNames(n, "markdown");
    SuffixedNames(n, "plaintext");
    assert UNKNOWN_FORMAT_MESSAGE + (n + PARSER_SUFFIX) == UNKNOWN_FORMAT_MESSAGE + n + PARSER_SUFFIX;
  }

  /** A plaintext document is rendered by the plaintext parser. */
  lemma PlaintextDispatch(parsers: Parsers, content: string)
    ensures Parse(parsers, content, "plaintext") == Success(parsers.plaintext(content))
  {
    LowerWordTrimmed("plaintext");
    ParseDispatch(parsers, content, "plaintext");
  }

  /** A markdown document is rendered by the markdown parser. */
  lemma MarkdownDispatch(parsers: Parsers, content: string)
    ensures Parse(parsers, content, "markdown") == Success(parsers.markdown(content))
  {
    LowerWordTrimmed("markdown");
    ParseDispatch(parsers, content, "markdown");
  }

  /** An HTML document is rendered by the HTML parser. */
  lemma HtmlDispatch(parsers: Parsers, content: string)
    ensures Parse(parsers, content, "html") == Success(parsers.html(content))
  {
    LowerWordTrimmed("html");
    ParseDispatch(parsers, content, "html");
  }

  /** A JSON document has no parser: `jsonParser` is refused. */
  lemma JsonRefused(parsers: Parsers, content: string)
    ensures Parse(parsers, content, "json") == Failure(UNKNOWN_FORMAT_MESSAGE + "jsonParser")
  {
    LowerWordTrimmed("json");
    ParseDispatch(parsers, content, "json");
    JsonName();
  }

  /**
   * The stored document formats: plaintext, markdown and HTML documents are
   * rendered by their own parser, and a JSON document has no parser.
   */
  lemma FormatDispatch(parsers: Parsers, content: string, f: Format)
    ensures f == Plaintext ==> Parse(parsers, content, FormatValue(f)) == Success(parsers.plaintext(content))
    ensures f == Markdown ==> Parse(parsers, content, FormatValue(f)) == Success(parsers.markdown(content))
    ensures f == Html ==> Parse(parsers, content, FormatValue(f)) == Success(parsers.html(content))
    ensures f == Json ==> Parse(parsers, content, FormatValue(f)) == Failure(UNKNOWN_FORMAT_MESSAGE + "jsonParser")
  {
    match f
    case Plaintext => PlaintextDispatch(parsers, content);
    case Markdown => MarkdownDispatch(parsers, content);
    case Html => HtmlDispatch(parsers, content);
    case Json => JsonRefused(parsers, content);
  }

  /** A lower-case word is its own normalised form. */
  lemma LowerWordTrimmed(v: string)
    requires |v| > 0 && forall i :: 0 <= i < |v| ==> 'a' <= v[i] <= 'z'
    ensures Normalised(v) == v
  {
    assert !IsTrimmable(v[0]) && TrimLeft(v) == v;
    assert !IsTrimmable(v[|v| - 1]) && TrimRight(v) == v;
    assert forall i :: 0 <= i < |v| ==> LowerChar(v[i]) == v[i];
    assert ToLower(v) == v;
  }

  /** Letter case in the requested format does not matter. */
  lemma CaseIgnored(parsers: Parsers, content: string, a: string, b: string)
    requires SameUpToCase(a, b)
    ensures Parse(parsers, content, a) == Parse(parsers, content, b)
  {
    LowerTrimUpToCase(a, b);
  }

  /** Upper-casing the requested format selects the same parser. */
  lemma UpperCaseFormat(parsers: Parsers, content: string, format: string)
    ensures Parse(parsers, content, ToUpper(format)) == Parse(parsers, content, format)
  {
    UpperIsSameUpToCase(format);
    CaseIgnored(parsers, content, ToUpper(format), format);
  }

  /** Spaces, tabs and line breaks around the requested format do not matter. */
  lemma PaddingIgnored(parsers: Parsers, content: string, pre: string, format: string, post: string)
    requires AllTrimmable(pre) && AllTrimmable(post)
    ensures Parse(parsers, content, pre + format + post) == Parse(parsers, content, format)
  {
    TrimPadding(pre, format, post);
  }
}
