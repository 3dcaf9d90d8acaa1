/**
 * The `fetch-url` tool handler: fills in the defaults of its parameters, hands the URL
 * and the extraction options to the page fetcher, cuts the returned text down to the
 * requested length and appends a block describing the extraction. A failed fetch is
 * reported as an error result, never thrown.
 */
module FetchUrlTool {
  import opened Wrappers
  import opened JsText
  import opened Json

  const DEFAULT_MAX_LENGTH: int := 10000

  const DEFAULT_EXCLUDE_TAGS: seq<string> :=
    ["script", "style", "noscript", "iframe", "svg", "nav", "footer", "header", "aside"]

  const TRUNCATION_NOTICE: string := "... [Content truncated due to length]"

  const ERROR_PREFIX: string := "Error fetching URL: "

  /** The tool's arguments as they arrive; `None` is an argument that was not given.
      The flags are whatever JSON the caller sent, since the handler only tests their
      truthiness. */
  datatype Params = Params(
    url: string,
    maxLength: Option<int>,
    extractMainContent: Option<Json>,
    includeLinks: Option<Json>,
    includeImages: Option<Json>,
    excludeTags: Option<seq<string>>)

  /** The options handed to the page fetcher. */
  datatype FetchOptions = FetchOptions(
    extractMainContent: Json,
    includeLinks: Json,
    includeImages: Json,
    excludeTags: seq<string>)

  /** The arguments after the destructuring defaults. */
  datatype Settings = Settings(url: string, maxLength: int, options: FetchOptions)

  /** One text part of a tool result. */
  datatype Part = TextPart(text: string)

  /** `{content: [...]}`, with `isError: true` for a failed fetch. */
  datatype ToolResult = ToolResult(isError: bool, content: seq<Part>)

  /** A default that applies only when the argument is absent: a `null` flag is kept,
      and is falsy. */
  function OrElse<T>(v: Option<T>, default: T): (r: T)
    ensures v.None? ==> r == default
    ensures v.Some? ==> r == v.value
  {
    match v
    case None => default
    case Some(x) => x
  }

  /** The destructuring defaults: length 10000, every flag `true`, and the fixed list of
      tags to drop. */
  function Resolve(p: Params): (s: Settings)
    ensures s.url == p.url
    ensures p.maxLength.None? ==> s.maxLength == DEFAULT_MAX_LENGTH
    ensures p.extractMainContent.None? ==> s.options.extractMainContent == JBool(true)
    ensures p.includeLinks.None? ==> s.options.includeLinks == JBool(true)
    ensures p.includeImages.None? ==> s.options.includeImages == JBool(true)
    ensures p.excludeTags.None? ==> s.options.excludeTags == DEFAULT_EXCLUDE_TAGS
    ensures p.maxLength.Some? ==> s.maxLength == p.maxLength.value
    ensures p.excludeTags.Some? ==> s.options.excludeTags == p.excludeTags.value
  {
    Settings(
      p.url,
      OrElse(p.maxLength, DEFAULT_MAX_LENGTH),
      FetchOptions(
        OrElse(p.extractMainContent, JBool(true)),
        OrElse(p.includeLinks, JBool(true)),
        OrElse(p.includeImages, JBool(true)),
        OrElse(p.excludeTags, DEFAULT_EXCLUDE_TAGS)))
  }

  /** Whether the content is cut: only when it is longer than the limit. */
  predicate Truncated(content: string, maxLength: int) {
    |content| > maxLength
  }

  /** The text returned in place of the content: the content itself when it fits,
      otherwise its first `maxLength` characters and the notice. `substring` clamps a
      negative limit to 0. */
  function Truncate(content: string, maxLength: int): (r: string)
    ensures !Truncated(content, maxLength) ==> r == content
    ensures Truncated(content, maxLength) ==>
      var kept := if maxLength < 0 then 0 else maxLength;
      |r| == kept + |TRUNCATION_NOTICE| && r[..kept] == content[..kept] && r[kept..] == TRUNCATION_NOTICE
  {
    if |content| > maxLength then
      content[..if maxLength < 0 then 0 else maxLength] + TRUNCATION_NOTICE
    else content
  }

  /** How each flag is shown. */
  function ExtractionText(flag: Json): (r: string)
    ensures r == "Enabled" <==> Truthy(flag)
    ensures r == "Disabled" <==> !Truthy(flag)
  {
    if Truthy(flag) then "Enabled" else "Disabled"
  }

  function LinksText(flag: Json): (r: string)
    ensures r == "Yes" <==> Truthy(flag)
    ensures r == "No" <==> !Truthy(flag)
  {
    if Truthy(flag) then "Yes" else "No"
  }

  function ImagesText(flag: Json): (r: string)
    ensures r == "Yes (as alt text)" <==> Truthy(flag)
    ensures r == "No" <==> !Truthy(flag)
  {
    if Truthy(flag) then "Yes (as alt text)" else "No"
  }

  const LENGTH_LABEL: string := "- Content length: "

  /** The length line: the ORIGINAL content length, with the limit named only when the
      content was cut. */
  function LengthLine(length: nat, maxLength: int): (r: string)
    ensures StartsWith(r, LENGTH_LABEL + IntToString(length) + " characters")
    ensures |r| > |LENGTH_LABEL + IntToString(length) + " characters"| <==> length > maxLength
    ensures length > maxLength ==>
      r == LENGTH_LABEL + IntToString(length) + " characters" + " (truncated to " + IntToString(maxLength) + ")"
  {
    var head := LENGTH_LABEL + IntToString(length) + " characters";
    var r := head + (if length > maxLength then " (truncated to " + IntToString(maxLength) + ")" else "");
    assert r[..|head|] == head;
    r
  }

  /** The lines of the extraction block, between the newlines of its template. */
  function MetadataLines(s: Settings, length: nat): (r: seq<string>)
    ensures |r| == 10 && r[0] == "" && r[1] == "---" && r[8] == "---" && r[9] == ""
    ensures r[3] == "- URL: " + s.url
    ensures r[7] == LengthLine(length, s.maxLength)
  {
    ["", "---", "Extraction settings:",
     "- URL: " + s.url,
     "- Main content extraction: " + ExtractionText(s.options.extractMainContent),
     "- Links included: " + LinksText(s.options.includeLinks),
     "- Images included: " + ImagesText(s.options.includeImages),
     LengthLine(length, s.maxLength),
     "---", ""]
  }

  /** The extraction block appended to the content. */
  function Metadata(s: Settings, length: nat): string {
    JoinWith(MetadataLines(s, length), "\n")
  }

  lemma NoNewlineIn(s: string, c: string)
    requires '\n' !in s && '\n' !in c
    ensures '\n' !in s + c
  {
  }

  lemma DigitsHaveNoNewline(i: int)
    ensures '\n' !in IntToString(i)
  {
    var d := NatToString(if i < 0 then -i else i);
    assert forall k :: 0 <= k < |d| ==> d[k] != '\n';
  }

  lemma LengthLineHasNoNewline(length: nat, maxLength: int)
    ensures '\n' !in LengthLine(length, maxLength)
  {
    DigitsHaveNoNewline(length);
    DigitsHaveNoNewline(maxLength);
    NoNewlineIn(LENGTH_LABEL, IntToString(length));
    NoNewlineIn(LENGTH_LABEL + IntToString(length), " characters");
    if length > maxLength {
      NoNewlineIn(LENGTH_LABEL + IntToString(length) + " characters", " (truncated to ");
      NoNewlineIn(LENGTH_LABEL + IntToString(length) + " characters" + " (truncated to ", IntToString(maxLength));
      NoNewlineIn(LENGTH_LABEL + IntToString(length) + " characters" + " (truncated to " + IntToString(maxLength), ")");
    } else {
      assert LengthLine(length, maxLength) == LENGTH_LABEL + IntToString(length) + " characters" + "";
    }
  }

  /** For a URL without a newline the block reads back line by line: its lines are the
      ones the template lays out, so the length reported is the original one and the
      limit appears exactly when the content was cut. */
  lemma MetadataReadsBack(s: Settings, length: nat)
    requires '\n' !in s.url
    ensures var lines := Split(Metadata(s, length));
      |lines| == 10 && lines[3] == "- URL: " + s.url &&
      StartsWith(lines[7], LENGTH_LABEL + IntToString(length) + " characters") &&
      (|lines[7]| > |LENGTH_LABEL + IntToString(length) + " characters"| <==> length > s.maxLength)
  {
    var lines := MetadataLines(s, length);
    assert forall k :: 0 <= k < |lines| ==> '\n' !in lines[k] by { LinesHaveNoNewline(s, length); }
    SplitOfJoin(lines);
  }

  lemma LinesHaveNoNewline(s: Settings, length: nat)
    requires '\n' !in s.url
    ensures var lines := MetadataLines(s, length);
      forall k :: 0 <= k < |lines| ==> '\n' !in lines[k]
  {
    var lines := MetadataLines(s, length);
    LengthLineHasNoNewline(length, s.maxLength);
    UrlLineHasNoNewline(s.url);
    FlagLinesHaveNoNewline(s.options);
    assert lines[2] == "Extraction settings:";
  }

  lemma UrlLineHasNoNewline(url: string)
    requires '\n' !in url
    ensures '\n' !in "- URL: " + url
  {
    NoNewlineIn("- URL: ", url);
  }

  lemma FlagLinesHaveNoNewline(o: FetchOptions)
    ensures '\n' !in "- Main content extraction: " + ExtractionText(o.extractMainContent)
    ensures '\n' !in "- Links included: " + LinksText(o.includeLinks)
    ensures '\n' !in "- Images included: " + ImagesText(o.includeImages)
  {
    ExtractionLineHasNoNewline(o.extractMainContent);
    LinksLineHasNoNewline(o.includeLinks);
    ImagesLineHasNoNewline(o.includeImages);
  }

  lemma ExtractionLineHasNoNewline(flag: Json)
    ensures '\n' !in "- Main content extraction: " + ExtractionText(flag)
  {
    NoNewlineIn("- Main content extraction: ", ExtractionText(flag));
  }

  lemma LinksLineHasNoNewline(flag: Json)
    ensures '\n' !in "- Links included: " + LinksText(flag)
  {
    NoNewlineIn("- Links included: ", LinksText(flag));
  }

  lemma ImagesLineHasNoNewline(flag: Json)
    ensures '\n' !in "- Images included: " + ImagesText(flag)
  {
    NoNewlineIn("- Images included: ", ImagesText(flag));
  }

  /** What the page fetcher gives back: the extracted text, or the message of the error
      it threw. */
  type Fetcher = (string, FetchOptions) -> Result<string, string>

  /** `fetchUrlToolHandler(params)`. The result is an error exactly when the fetch
      failed, and a failure is caught and reported by its message. */
  function Handle(p: Params, fetch: Fetcher): (r: ToolResult)
    ensures |r.content| == 1
    ensures r.isError <==> fetch(p.url, Resolve(p).options).Err?
    ensures fetch(p.url, Resolve(p).options).Err? ==>
      r.content[0].text == ERROR_PREFIX + fetch(p.url, Resolve(p).options).error
  {
    var s := Resolve(p);
    match fetch(s.url, s.options)
    case Err(message) => ToolResult(true, [TextPart(ERROR_PREFIX + message)])
    case Ok(content) => ToolResult(false, [TextPart(Truncate(content, s.maxLength) + Metadata(s, |content|))])
  }

  /** A fetch that succeeds gives a non-error result whose text is the content, cut to
      the limit when longer, followed by the extraction block; the fetcher sees the URL
      and the options with their defaults. */
  lemma HandleSucceeds(p: Params, fetch: Fetcher, content: string)
    requires fetch(p.url, Resolve(p).options) == Ok(content)
    ensures var r := Handle(p, fetch);
      var s := Resolve(p);
      var text := r.content[0].text;
      && !r.isError
      && text == Truncate(content, s.maxLength) + Metadata(s, |content|)
      && (!Truncated(content, s.maxLength) ==> StartsWith(text, content))
      && (Truncated(content, s.maxLength) && s.maxLength >= 0 ==>
            text[..s.maxLength] == content[..s.maxLength] &&
            text[s.maxLength..s.maxLength + |TRUNCATION_NOTICE|] == TRUNCATION_NOTICE)
  {
    var s := Resolve(p);
    var t := Truncate(content, s.maxLength);
    var text := t + Metadata(s, |content|);
    if !Truncated(content, s.maxLength) {
      assert text[..|content|] == content;
    } else if s.maxLength >= 0 {
      assert text[..s.maxLength] == t[..s.maxLength];
      assert text[s.maxLength..s.maxLength + |TRUNCATION_NOTICE|] == t[s.maxLength..];
    }
  }
}
