/**
 * The Brave AI search: validate the prompt, open a conversation with a `/new`
 * request, stream its answer with a `/stream` request, and read the stream as
 * newline-delimited JSON events whose `text_delta` events carry the text. Errors
 * inside the exchange are classified as a rate limit, a timeout, or a failure that
 * names the prompt.
 */
module BraveAI {
  import opened Wrappers
  import opened JsText
  import opened Json
  import opened Http

  const MAX_PROMPT_LENGTH: nat := 5000

  const BASE_URL: string := "https://search.brave.com/api/tap/v1"

  /** The error messages thrown before the exchange, split where a reader expects
      the prefix to be shared. */
  const NOT_A_PROMPT: string := "Invalid prompt: " + "must be a non-empty string"
  const PROMPT_TOO_LONG: string := "Invalid prompt: " + "too long (maximum 5000 characters)"

  /** The messages of the classified errors. */
  const RATE_LIMITED: string := "Brave AI " + "rate limit: too many requests"
  const TIMED_OUT: string := "Brave AI " + "request timeout: took too long"
  const MISSING_ID: string := "Brave AI failed to initialize chat: " + "missing conversation id"

  /** The prompt checks, in order: a falsy or non-string prompt, then one longer than
      5000 characters. The prompt is any JavaScript value; `undefined` behaves as
      `null` here. */
  function Validate(prompt: Json): (r: Option<string>)
    ensures r.None? <==> prompt.JStr? && 1 <= |prompt.s| <= MAX_PROMPT_LENGTH
    ensures !prompt.JStr? || prompt.s == "" ==> r == Some(NOT_A_PROMPT)
    ensures prompt.JStr? && |prompt.s| > MAX_PROMPT_LENGTH ==> r == Some(PROMPT_TOO_LONG)
  {
    if !Truthy(prompt) || !prompt.JStr? then Some(NOT_A_PROMPT)
    else if |prompt.s| > MAX_PROMPT_LENGTH then Some(PROMPT_TOO_LONG)
    else None
  }

  /** The options and their defaults. `enableResearch` is taken as a boolean. */
  datatype Options = Options(enableResearch: bool, timeout: int, language: string, country: string,
                             uiLang: string, geoloc: Option<string>)

  const DEFAULT_OPTIONS: Options := Options(false, 30000, "en", "US", "en-us", None)

  function Flag(b: bool): (r: string)
    ensures b <==> r == "true"
    ensures !b <==> r == "false"
  {
    if b then "true" else "false"
  }

  /** The query parameters of `/new`, in the order they are set; `geoloc` is added only
      when it is truthy. */
  function NewParams(prompt: string, opts: Options, symmetricKey: string): (r: seq<(string, string)>)
    ensures |r| >= 7 && r[..3] == [("language", opts.language), ("country", opts.country), ("ui_lang", opts.uiLang)]
    ensures r[3] == ("symmetric_key", symmetricKey) && r[5] == ("query", prompt)
    ensures r[4] == ("source", if opts.enableResearch then "home" else "llmSuggest")
    ensures r[6] == ("enable_research", Flag(opts.enableResearch))
    ensures Given(opts.geoloc) <==> |r| == 8
    ensures Given(opts.geoloc) ==> r[7] == ("geoloc", opts.geoloc.value)
  {
    [("language", opts.language), ("country", opts.country), ("ui_lang", opts.uiLang),
     ("symmetric_key", symmetricKey), ("source", if opts.enableResearch then "home" else "llmSuggest"),
     ("query", prompt), ("enable_research", Flag(opts.enableResearch))]
    + (if Given(opts.geoloc) then [("geoloc", opts.geoloc.value)] else [])
  }

  /** The query parameters of `/stream`: the conversation id and the same prompt, key
      and locale as `/new`; research mode switches both flags together. */
  function StreamParams(prompt: string, opts: Options, symmetricKey: string, chatId: string): (r: seq<(string, string)>)
    ensures |r| == 8 && r[0] == ("id", chatId) && r[1] == ("query", prompt) && r[2] == ("symmetric_key", symmetricKey)
    ensures r[3..6] == [("language", opts.language), ("country", opts.country), ("ui_lang", opts.uiLang)]
    ensures r[6] == ("enable_research", Flag(opts.enableResearch))
    ensures r[7] == ("enable_followups", Flag(opts.enableResearch))
  {
    [("id", chatId), ("query", prompt), ("symmetric_key", symmetricKey),
     ("language", opts.language), ("country", opts.country), ("ui_lang", opts.uiLang),
     ("enable_research", Flag(opts.enableResearch)), ("enable_followups", Flag(opts.enableResearch))]
  }

  /** Both requests carry the same prompt, key, locale and research flag. */
  lemma ParamsAgree(prompt: string, opts: Options, symmetricKey: string, chatId: string)
    ensures var n := NewParams(prompt, opts, symmetricKey);
      var s := StreamParams(prompt, opts, symmetricKey, chatId);
      n[..3] == s[3..6] && n[3] == s[2] && n[5] == s[1] && n[6] == s[6]
  {
  }

  /** The `referer` header of the stream request. */
  function Referer(prompt: string, chatId: string, encode: string -> string): (r: string)
    ensures StartsWith(r, "https://search.brave.com/ask?q=")
  {
    "https://search.brave.com/ask?q=" + encode(prompt) + "&conversation=" + chatId
  }

  /** The `validateStatus` of the client: every status below 500 from 200 up. */
  predicate ClientAccepts(status: int) {
    200 <= status < 500
  }

  /** The text a line contributes: nothing for a line blank after trimming, for JSON
      that does not parse, or for an event whose `type` is not `'text_delta'`;
      otherwise `String(payload.delta ?? '')`. */
  function DeltaOf(line: string, parse: Parser): string {
    var trimmed := Trim(line);
    if trimmed == "" then ""
    else
      match parse(trimmed)
      case Malformed(_) => ""
      case Parsed(payload) =>
        if Prop(payload, "type") != Some(JStr("text_delta")) then ""
        else
          match Prop(payload, "delta")
          case None => ""
          case Some(JNull) => ""
          case Some(d) => ToJsString(d)
  }

  /** Only a non-blank line that parses to a `text_delta` event contributes text: blank
      lines, malformed JSON and other events add nothing. */
  lemma OnlyTextDeltasCount(line: string, parse: Parser)
    ensures DeltaOf(line, parse) != "" ==>
      (Trim(line) != "" && parse(Trim(line)).Parsed? && Prop(parse(Trim(line)).value, "type") == Some(JStr("text_delta")))
  {
  }

  /** `DeltaOf` as the function the `data` handler applies to each line. */
  function DeltaFn(parse: Parser): (f: string -> string)
    ensures forall line :: f(line) == DeltaOf(line, parse)
  {
    line => DeltaOf(line, parse)
  }

  /** `text` after the lines: their deltas concatenated in order. */
  function StreamText(lines: seq<string>, parse: Parser): string {
    Concat(Each(lines, DeltaFn(parse)))
  }

  /** The text of a sequence of lines is the text of its parts one after the other, so
      the text read so far is never taken back. */
  lemma StreamTextAppend(a: seq<string>, b: seq<string>, parse: Parser)
    ensures StreamText(a + b, parse) == StreamText(a, parse) + StreamText(b, parse)
  {
    ConcatEachAppend(a, b, DeltaFn(parse));
  }

  lemma StreamTextNext(a: seq<string>, line: string, parse: Parser)
    ensures StreamText(a + [line], parse) == StreamText(a, parse) + DeltaOf(line, parse)
  {
    ConcatEachNext(a, line, DeltaFn(parse));
  }

  /** The two events `{"type":"text_delta","delta":"Hello"}` and
      `{"type":"text_delta","delta":" world"}` read as `"Hello world"`. */
  lemma HelloWorld(l1: string, l2: string, parse: Parser)
    requires Trim(l1) != "" && Trim(l2) != ""
    requires parse(Trim(l1)) == Parsed(JObj([Member("type", JStr("text_delta")), Member("delta", JStr("Hello"))]))
    requires parse(Trim(l2)) == Parsed(JObj([Member("type", JStr("text_delta")), Member("delta", JStr(" world"))]))
    ensures StreamText([l1, l2], parse) == "Hello" + " world"
  {
    var f := DeltaFn(parse);
    assert f(l1) == "Hello" by {
      TextDelta(l1, parse, "Hello");
    }
    assert f(l2) == " world" by {
      TextDelta(l2, parse, " world");
    }
    ConcatEachTwo(l1, l2, f);
    assert StreamText([l1, l2], parse) == Concat(Each([l1, l2], f));
  }

  /** A `text_delta` event with a string `delta` contributes that string. */
  lemma TextDelta(line: string, parse: Parser, delta: string)
    requires Trim(line) != ""
    requires parse(Trim(line)) == Parsed(JObj([Member("type", JStr("text_delta")), Member("delta", JStr(delta))]))
    ensures DeltaOf(line, parse) == delta
  {
    var payload := JObj([Member("type", JStr("text_delta")), Member("delta", JStr(delta))]);
    assert Prop(payload, "type") == Some(JStr("text_delta"));
    assert "type" != "delta" by { assert "type"[0] != "delta"[0]; }
    assert payload.members[1..] == [Member("delta", JStr(delta))];
    assert Lookup(payload.members[1..], "delta") == Some(JStr(delta));
    assert Prop(payload, "delta") == Some(JStr(delta));
  }

  /** `parseStream` settled: the text of the complete lines at `end`, or the stream's
      error. */
  function StreamOutcome(body: Stream, parse: Parser): Result<string, JsError> {
    if body.failure.Some? then Err(body.failure.value)
    else Ok(StreamText(CompleteLines(Concat(body.chunks)), parse))
  }

  /** A fragment after the last newline is dropped at `end`. */
  lemma TrailingFragmentDropped(chunks: seq<string>, tail: string, parse: Parser)
    requires '\n' !in tail
    ensures StreamOutcome(Stream(chunks + [tail], None), parse) == StreamOutcome(Stream(chunks, None), parse)
  {
    ConcatAppend(chunks, [tail]);
    assert Concat([tail]) == tail;
    UnterminatedTail(Concat(chunks), tail);
  }

  /** The state `parseStream`'s handlers share: the held-back fragment and the text so
      far, with the text of all chunks received as a ghost. `delta` is what a complete
      line adds to the text. */
  class LineReader {
    var buffer: string
    var text: string
    ghost var received: string
    const delta: string -> string

    ghost predicate Valid()
      reads this
    {
      buffer == Remainder(received) && text == Concat(Each(CompleteLines(received), delta))
    }

    constructor (delta: string -> string)
      ensures Valid() && received == "" && this.delta == delta
    {
      buffer, text, received := "", "", "";
      this.delta := delta;
      assert Split("") == [""];
    }

    /** The `data` handler: append the chunk to `buffer`, keep the last fragment, and
        add the delta of each complete line to `text`. */
    method OnData(chunk: string)
      requires Valid()
      modifies this
      ensures Valid() && received == old(received) + chunk
    {
      var pieces := Split(buffer + chunk);
      var added := Deltas(pieces[..|pieces| - 1], delta);
      ReaderStep(received, chunk, delta);
      buffer, text, received := pieces[|pieces| - 1], text + added, received + chunk;
    }
  }

  /** The deltas of the complete lines of one chunk, in order. */
  method Deltas(lines: seq<string>, delta: string -> string) returns (added: string)
    ensures added == Concat(Each(lines, delta))
  {
    added := "";
    for j := 0 to |lines|
      invariant added == Concat(Each(lines[..j], delta))
    {
      assert lines[..j + 1] == lines[..j] + [lines[j]];
      ConcatEachNext(lines[..j], lines[j], delta);
      added := added + delta(lines[j]);
    }
    assert lines[..|lines|] == lines;
  }

  /** The lines an added chunk completes, and the fragment it leaves, in the terms of
      the `data` handler: the split of the old fragment followed by the chunk; the text
      grows by the deltas of those lines. */
  lemma ReaderStep(received: string, chunk: string, delta: string -> string)
    ensures var pieces := Split(Remainder(received) + chunk);
      && CompleteLines(received + chunk) == CompleteLines(received) + pieces[..|pieces| - 1]
      && Remainder(received + chunk) == pieces[|pieces| - 1]
      && Concat(Each(CompleteLines(received + chunk), delta)) ==
           Concat(Each(CompleteLines(received), delta)) + Concat(Each(pieces[..|pieces| - 1], delta))
  {
    CompleteLinesAppend(received, chunk);
    var pieces := Split(Remainder(received) + chunk);
    ConcatEachAppend(CompleteLines(received), pieces[..|pieces| - 1], delta);
  }

  /** `parseStream`: each chunk through the `data` handler; `end` resolves with `text`,
      `error` rejects. The result depends only on the concatenated chunks. */
  method ParseStream(body: Stream, parse: Parser) returns (r: Result<string, JsError>)
    ensures r == StreamOutcome(body, parse)
  {
    var reader := new LineReader(DeltaFn(parse));
    var chunks := body.chunks;
    for i := 0 to |chunks|
      invariant reader.Valid() && reader.delta == DeltaFn(parse)
      invariant reader.received == Concat(chunks[..i])
    {
      ConcatNext(chunks, i);
      reader.OnData(chunks[i]);
    }
    assert chunks[..|chunks|] == chunks;
    if body.failure.Some? {
      return Err(body.failure.value);
    }
    r := Ok(reader.text);
  }

  /** The message of the error that names the prompt. */
  function Wrapped(prompt: string, message: string): string {
    "Brave AI " + "search failed for \"" + prompt + "\": " + message
  }

  /** The `catch` block: a response status of 429 is a rate limit, the code
      `ECONNABORTED` a timeout, and anything else is wrapped with the prompt. */
  function Classify(prompt: string, e: JsError): (r: JsError)
    ensures e.responseStatus == Some(429) ==> r.message == RATE_LIMITED
    ensures e.responseStatus != Some(429) && e.code == Some("ECONNABORTED") ==> r.message == TIMED_OUT
    ensures e.responseStatus != Some(429) && e.code != Some("ECONNABORTED") ==> r.message == Wrapped(prompt, e.message)
  {
    if e.responseStatus == Some(429) then JsError(RATE_LIMITED, None, None)
    else if e.code == Some("ECONNABORTED") then JsError(TIMED_OUT, None, None)
    else JsError(Wrapped(prompt, e.message), None, None)
  }

  /** The error thrown for a reply that passed `validateStatus` but is not 200. In the
      code as written it carries no response; `statusCarried` chooses the intended
      variant that does. */
  function StatusError(message: string, status: int, statusCarried: bool): (e: JsError)
    ensures e.message == message + IntToString(status)
    ensures statusCarried <==> e.responseStatus == Some(status)
  {
    JsError(message + IntToString(status), None, if statusCarried then Some(status) else None)
  }

  /** The two requests, given as functions of their parameters (and, for the stream,
      of its `referer`). */
  datatype Net = Net(getNew: seq<(string, string)> -> Raw<Json>,
                     getStream: (seq<(string, string)>, string) -> Raw<Stream>,
                     encode: string -> string)

  /** The exchange inside the `try`, before classification. */
  function Exchange(prompt: string, opts: Options, symmetricKey: string, net: Net, parse: Parser,
                    statusCarried: bool): (r: Result<string, JsError>)
  {
    match Axios(net.getNew(NewParams(prompt, opts, symmetricKey)), ClientAccepts)
    case Err(e) => Err(e)
    case Ok((status, data)) =>
      if status != 200 then Err(StatusError("Brave AI failed to initialize chat: HTTP ", status, statusCarried))
      else if !TruthyOpt(Prop(data, "id")) then Err(JsError(MISSING_ID, None, None))
      else
        var chatId := ToJsString(Prop(data, "id").value);
        match Axios(net.getStream(StreamParams(prompt, opts, symmetricKey, chatId), Referer(prompt, chatId, net.encode)),
                    ClientAccepts)
        case Err(e) => Err(e)
        case Ok((status2, body)) =>
          if status2 != 200 then Err(StatusError("Brave AI stream failed: HTTP ", status2, statusCarried))
          else StreamOutcome(body, parse)
  }

  function Run(prompt: Json, opts: Options, symmetricKey: string, net: Net, parse: Parser,
               statusCarried: bool): (r: Result<string, JsError>)
    ensures Validate(prompt).Some? ==> r == Err(JsError(Validate(prompt).value, None, None))
  {
    match Validate(prompt)
    case Some(message) => Err(JsError(message, None, None))
    case None =>
      match Exchange(prompt.s, opts, symmetricKey, net, parse, statusCarried)
      case Ok(text) => Ok(text)
      case Err(e) => Err(Classify(prompt.s, e))
  }

  /** `searchBraveAI` as written. The symmetric key is random and therefore a
      parameter. */
  function SearchBraveAI(prompt: Json, opts: Options, symmetricKey: string, net: Net, parse: Parser): (r: Result<string, JsError>)
    ensures Validate(prompt).Some? ==> r == Err(JsError(Validate(prompt).value, None, None))
  {
    Run(prompt, opts, symmetricKey, net, parse, false)
  }

  /** `searchBraveAI` as its error classification intends it: a reply of status 429 is
      reported as a rate limit. */
  function SearchBraveAIIntended(prompt: Json, opts: Options, symmetricKey: string, net: Net, parse: Parser): (r: Result<string, JsError>)
    ensures Validate(prompt).Some? ==> r == Err(JsError(Validate(prompt).value, None, None))
  {
    Run(prompt, opts, symmetricKey, net, parse, true)
  }

  /** A search that succeeds returns the text of the complete stream: both replies were
      200, the conversation id was truthy, and the stream ended without error. */
  lemma SuccessReadsStream(prompt: Json, opts: Options, symmetricKey: string, net: Net, parse: Parser,
                           statusCarried: bool)
    ensures var r := Run(prompt, opts, symmetricKey, net, parse, statusCarried);
      r.Ok? ==>
        Validate(prompt).None? &&
        var newReply := net.getNew(NewParams(prompt.s, opts, symmetricKey));
        newReply == Answered(200, newReply.body) && TruthyOpt(Prop(newReply.body, "id")) &&
        var chatId := ToJsString(Prop(newReply.body, "id").value);
        var streamReply := net.getStream(StreamParams(prompt.s, opts, symmetricKey, chatId),
                                         Referer(prompt.s, chatId, net.encode));
        streamReply.Answered? && streamReply.status == 200 && streamReply.body.failure.None? &&
        r.value == StreamText(CompleteLines(Concat(streamReply.body.chunks)), parse)
  {
  }

  /** Every failure inside the exchange is classified: a timeout keeps its message, and
      any other error (a 429 aside) names the prompt. */
  lemma FailuresClassified(prompt: Json, opts: Options, symmetricKey: string, net: Net, parse: Parser,
                           statusCarried: bool)
    requires Validate(prompt).None?
    ensures var r := Run(prompt, opts, symmetricKey, net, parse, statusCarried);
      r.Err? ==>
        var e := Exchange(prompt.s, opts, symmetricKey, net, parse, statusCarried);
        e.Err? && r.error == Classify(prompt.s, e.error)
  {
  }

  /** As written, a `/new` reply of status 429 passes `validateStatus`, is thrown as an
      error without a response, and is reported as a failure naming the prompt, not
      as a rate limit. */
  lemma RateLimitUnreachable(prompt: string, opts: Options, symmetricKey: string, net: Net, parse: Parser, body: Json)
    requires 1 <= |prompt| <= MAX_PROMPT_LENGTH
    requires net.getNew(NewParams(prompt, opts, symmetricKey)) == Answered(429, body)
    ensures var r := SearchBraveAI(JStr(prompt), opts, symmetricKey, net, parse);
      r.Err? && r.error.message == Wrapped(prompt, "Brave AI failed to initialize chat: HTTP " + IntToString(429))
    ensures SearchBraveAI(JStr(prompt), opts, symmetricKey, net, parse).error.message != RATE_LIMITED
  {
    var m := Wrapped(prompt, "Brave AI failed to initialize chat: HTTP " + IntToString(429));
    assert m[9] == 's';
    assert RATE_LIMITED[9] == 'r';
  }

  /** With the status carried, the same reply is reported as a rate limit. */
  lemma RateLimitIntended(prompt: string, opts: Options, symmetricKey: string, net: Net, parse: Parser, body: Json)
    requires 1 <= |prompt| <= MAX_PROMPT_LENGTH
    requires net.getNew(NewParams(prompt, opts, symmetricKey)) == Answered(429, body)
    ensures SearchBraveAIIntended(JStr(prompt), opts, symmetricKey, net, parse) == Err(JsError(RATE_LIMITED, None, None))
  {
  }
}
