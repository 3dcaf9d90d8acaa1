/**
 * The Monica search: a client that posts the prompt with its current session id,
 * reads the reply stream chunk by chunk, splitting each chunk into lines on its own,
 * takes the `data: ` lines as JSON events, keeps the last truthy `session_id` and
 * concatenates the truthy `text` fields, and sanitises the result.
 */
module Monica {
  import opened Wrappers
  import opened JsText
  import opened Json
  import opened Http

  const API_ENDPOINT: string := "https://monica.so/api/search_v1/search"

  const DEFAULT_TIMEOUT: int := 60000

  /** Whether `s` holds two asterisks in a row. */
  predicate HasDoubleStar(s: string) {
    exists i | 0 <= i < |s| - 1 :: s[i] == '*' && s[i + 1] == '*'
  }

  /** Global removal of `**` from the text: every pair of asterisks found scanning left to right is
      deleted, so a run of asterisks keeps at most one. */
  function RemoveDoubleStars(s: string): (r: string)
    ensures !HasDoubleStar(r)
    ensures s == [] ==> r == []
    ensures s != [] && s[0] != '*' ==> r != [] && r[0] == s[0]
    ensures '*' !in s ==> r == s
    decreases |s|
  {
    if |s| >= 2 && s[0] == '*' && s[1] == '*' then RemoveDoubleStars(s[2..])
    else if s == [] then []
    else
      var rest := RemoveDoubleStars(s[1..]);
      var r := [s[0]] + rest;
      assert forall i | 1 <= i < |r| - 1 :: r[i] == rest[i - 1] && r[i + 1] == rest[i];
      assert |r| >= 2 && r[0] == '*' ==> s[1] != '*' && r[1] == s[1];
      r
  }

  /** Collapsing blank lines does not put two asterisks together: it only replaces
      runs of whitespace that begin and end with a newline. */
  lemma {:induction false} CollapseKeepsStarsApart(s: string)
    requires !HasDoubleStar(s)
    ensures !HasDoubleStar(CollapseBlankLines(s))
    decreases |s|
  {
    if s != [] {
      var n := BlankRunAt(s);
      if n > 0 {
        DropKeepsStarsApart(s, n);
        CollapseKeepsStarsApart(s[n..]);
        JoinKeepsStarsApart("\n\n", CollapseBlankLines(s[n..]));
      } else {
        DropKeepsStarsApart(s, 1);
        CollapseKeepsStarsApart(s[1..]);
        assert |s| > 1 && s[0] == '*' ==> s[1] != '*';
        JoinKeepsStarsApart([s[0]], CollapseBlankLines(s[1..]));
      }
    }
  }

  lemma DropKeepsStarsApart(s: string, n: nat)
    requires n <= |s| && !HasDoubleStar(s)
    ensures !HasDoubleStar(s[n..])
  {
    var rest := s[n..];
    forall i | 0 <= i < |rest| - 1 ensures !(rest[i] == '*' && rest[i + 1] == '*') {
      assert rest[i] == s[n + i] && rest[i + 1] == s[n + i + 1];
    }
  }

  lemma JoinKeepsStarsApart(a: string, c: string)
    requires !HasDoubleStar(a) && !HasDoubleStar(c)
    requires a == [] || c == [] || a[|a| - 1] != '*' || c[0] != '*'
    ensures !HasDoubleStar(a + c)
  {
    var r := a + c;
    forall i | 0 <= i < |r| - 1 ensures !(r[i] == '*' && r[i + 1] == '*') {
      if i + 1 < |a| {
        assert r[i] == a[i] && r[i + 1] == a[i + 1];
      } else if i >= |a| {
        assert r[i] == c[i - |a|] && r[i + 1] == c[i + 1 - |a|];
      } else {
        assert r[i] == a[|a| - 1] && r[i + 1] == c[0];
      }
    }
  }

  /** Trimming keeps a contiguous part of the text, so it cannot join two asterisks. */
  lemma TrimKeepsStarsApart(s: string)
    requires !HasDoubleStar(s)
    ensures !HasDoubleStar(Trim(s))
  {
    var t := TrimStart(s);
    var a := |s| - |t|;
    var r := Trim(s);
    assert r == TrimEnd(t) && r == t[..|r|];
    forall i | 0 <= i < |r| - 1 ensures !(r[i] == '*' && r[i + 1] == '*') {
      assert r[i] == s[a + i] && r[i + 1] == s[a + i + 1];
    }
  }

  /** `formatResponse`: drop `**`, collapse blank lines to one empty line, trim. */
  function FormatResponse(text: string): (r: string)
    ensures Trimmed(r)
  {
    TrimIdempotent(CollapseBlankLines(RemoveDoubleStars(text)));
    Trim(CollapseBlankLines(RemoveDoubleStars(text)))
  }

  /** The formatted text never holds `**`, whatever the reply. */
  lemma FormatRemovesBold(text: string)
    ensures !HasDoubleStar(FormatResponse(text))
  {
    var plain := RemoveDoubleStars(text);
    CollapseKeepsStarsApart(plain);
    TrimKeepsStarsApart(CollapseBlankLines(plain));
  }

  /** The event a line carries: a line starting with `data: ` whose rest parses. A line
      that does not parse is skipped by the `catch`. */
  function Event(line: string, parse: Parser): (r: Option<Json>)
    ensures r.Some? ==> StartsWith(line, "data: ") && parse(line[6..]) == Parsed(r.value)
  {
    if !StartsWith(line, "data: ") then None
    else
      match parse(line[6..])
      case Parsed(d) => Some(d)
      case Malformed(_) => None
  }

  /** The session id a line sets: a truthy `session_id` of its event. Reading it from a
      `null` event throws and skips the line, which comes to the same. */
  function SessionOf(line: string, parse: Parser): (r: Option<Json>)
    ensures r.Some? ==> Truthy(r.value)
  {
    match Event(line, parse)
    case None => None
    case Some(d) => if TruthyOpt(Prop(d, "session_id")) then Prop(d, "session_id") else None
  }

  /** The text a line adds to `fullText`: `String(data.text)` when it is truthy. */
  function TextOf(line: string, parse: Parser): string {
    match Event(line, parse)
    case None => ""
    case Some(d) => if TruthyOpt(Prop(d, "text")) then ToJsString(Prop(d, "text").value) else ""
  }

  /** The lines the `data` handler walks: each chunk split on `\n` by itself, the
      piece after its last newline included. */
  function AllLines(chunks: seq<string>): seq<string> {
    if chunks == [] then [] else AllLines(chunks[..|chunks| - 1]) + Split(chunks[|chunks| - 1])
  }

  /** `TextOf` as the function the `data` handler applies to each line. */
  function TextFn(parse: Parser): (f: string -> string)
    ensures forall line :: f(line) == TextOf(line, parse)
  {
    line => TextOf(line, parse)
  }

  /** `fullText` after the lines. */
  function FullText(lines: seq<string>, parse: Parser): string {
    Concat(Each(lines, TextFn(parse)))
  }

  /** What `g` finds in each line, in order. */
  function Found(lines: seq<string>, g: string -> Option<Json>): (r: seq<Option<Json>>)
    ensures |r| == |lines|
    ensures forall k :: 0 <= k < |lines| ==> r[k] == g(lines[k])
  {
    if lines == [] then [] else Found(lines[..|lines| - 1], g) + [g(lines[|lines| - 1])]
  }

  lemma {:induction false} FoundAppend(a: seq<string>, b: seq<string>, g: string -> Option<Json>)
    ensures Found(a + b, g) == Found(a, g) + Found(b, g)
    decreases |b|
  {
    if b != [] {
      var c := b[..|b| - 1];
      assert (a + b)[..|a + b| - 1] == a + c;
      FoundAppend(a, c, g);
    } else {
      assert a + b == a;
    }
  }

  /** `SessionOf` as the function the `data` handler applies to each line. */
  function SessionFn(parse: Parser): (g: string -> Option<Json>)
    ensures forall line :: g(line) == SessionOf(line, parse)
  {
    line => SessionOf(line, parse)
  }

  /** The session ids the lines set, in order. */
  function Sessions(lines: seq<string>, parse: Parser): seq<Option<Json>> {
    Found(lines, SessionFn(parse))
  }

  /** `this.sessionId` after the given updates, starting from `init`. */
  function Latest(found: seq<Option<Json>>, init: Json): Json {
    if found == [] then init
    else if found[|found| - 1].Some? then found[|found| - 1].value
    else Latest(found[..|found| - 1], init)
  }

  /** Later updates start from where earlier ones left the session id. */
  lemma {:induction false} LatestAppend(a: seq<Option<Json>>, b: seq<Option<Json>>, init: Json)
    ensures Latest(a + b, init) == Latest(b, Latest(a, init))
    decreases |b|
  {
    if b == [] {
      assert a + b == a;
    } else {
      var c := b[..|b| - 1];
      assert (a + b)[..|a + b| - 1] == a + c;
      assert (a + b)[|a + b| - 1] == b[|b| - 1];
      LatestAppend(a, c, init);
    }
  }

  /** With no update the session id stays the initial one. */
  lemma {:induction false} NoSessionKeepsInit(found: seq<Option<Json>>, init: Json)
    requires forall k :: 0 <= k < |found| ==> found[k].None?
    ensures Latest(found, init) == init
  {
    if found != [] {
      var before := found[..|found| - 1];
      assert forall k :: 0 <= k < |before| ==> before[k] == found[k];
      NoSessionKeepsInit(before, init);
    }
  }

  /** The last update wins: the session id is the value of the last line that set
      one. */
  lemma {:induction false} LastSessionWins(found: seq<Option<Json>>, init: Json, k: nat)
    requires k < |found| && found[k].Some?
    requires forall m :: k < m < |found| ==> found[m].None?
    ensures Latest(found, init) == found[k].value
  {
    if k < |found| - 1 {
      var before := found[..|found| - 1];
      assert forall m :: k < m < |before| ==> before[m] == found[m];
      LastSessionWins(before, init, k);
    }
  }

  /** The payload of the POST. */
  function RequestBody(prompt: string, sessionId: Json, taskId: string): (r: Json)
    ensures Prop(r, "query") == Some(JStr(prompt))
    ensures Prop(r, "session_id") == Some(sessionId)
  {
    var members := [Member("pro", JBool(false)), Member("query", JStr(prompt)), Member("round", JNum(1)),
                    Member("session_id", sessionId), Member("language", JStr("auto")), Member("task_id", JStr(taskId))];
    assert members[1].key == "query" && members[3].key == "session_id";
    JObj(members)
  }

  /** `client.search(prompt)` with the client's session id before and after. A failed
      POST is wrapped; an `error` event of the stream rejects with its error as it is,
      since the promise is returned from the `try` without being awaited. */
  function Answer(sessionId: Json, prompt: string, taskId: string, post: Json -> Raw<Stream>, parse: Parser)
    : (r: (Result<string, JsError>, Json))
  {
    match Axios(post(RequestBody(prompt, sessionId, taskId)), DefaultAccepts)
    case Err(e) => (Err(JsError("Monica API request failed: " + e.message, None, None)), sessionId)
    case Ok((_, body)) =>
      var lines := AllLines(body.chunks);
      var after := Latest(Sessions(lines, parse), sessionId);
      if body.failure.Some? then (Err(body.failure.value), after)
      else (Ok(FormatResponse(FullText(lines, parse))), after)
  }

  /** What a search settles to: text only when the POST was answered with a 2xx status
      and the stream ended without an error, and then the text is free of `**` and
      trimmed; a failed POST leaves the session id alone and is reported with the
      message prefix. */
  lemma AnswerOutcomes(sessionId: Json, prompt: string, taskId: string, post: Json -> Raw<Stream>, parse: Parser)
    ensures var reply := post(RequestBody(prompt, sessionId, taskId));
      var r := Answer(sessionId, prompt, taskId, post, parse);
      && (r.0.Ok? <==> reply.Answered? && DefaultAccepts(reply.status) && reply.body.failure.None?)
      && (r.0.Ok? ==> !HasDoubleStar(r.0.value) && Trimmed(r.0.value))
      && (reply.Answered? && DefaultAccepts(reply.status) && reply.body.failure.Some? ==>
            r.0 == Err(reply.body.failure.value))
      && (!(reply.Answered? && DefaultAccepts(reply.status)) ==>
            r.1 == sessionId && r.0.Err? && StartsWith(r.0.error.message, "Monica API request failed: "))
  {
    var r := Answer(sessionId, prompt, taskId, post, parse);
    if r.0.Ok? {
      FormatRemovesBold(FullText(AllLines(post(RequestBody(prompt, sessionId, taskId)).body.chunks), parse));
    }
  }

  /** A chunk without a newline is one line. */
  lemma OneLine(c: string)
    requires '\n' !in c
    ensures Split(c) == [c]
  {
    SplitOfJoin([c]);
  }

  /** A data line cut in two by a chunk boundary is lost: its halves are separate lines,
      neither of which parses. */
  lemma BoundaryLosesLine(u: string, v: string, t: string, parse: Parser)
    requires '\n' !in u && '\n' !in v && t != ""
    requires parse(u + v) == Parsed(JObj([Member("text", JStr(t))]))
    requires parse(u).Malformed? && !StartsWith(v, "data: ")
    ensures FullText(AllLines(["data: " + u + v]), parse) == t
    ensures FullText(AllLines(["data: " + u, v]), parse) == ""
  {
    var whole := "data: " + u + v;
    var head := "data: " + u;
    var f := TextFn(parse);
    AllLinesOne(whole);
    AllLinesTwo(head, v);
    DataLineText(u, v, t, parse);
    MalformedLineText(u, parse);
    ConcatEachOne(whole, f);
    ConcatEachTwo(head, v, f);
  }

  lemma AllLinesOne(c: string)
    requires '\n' !in c
    ensures AllLines([c]) == [c]
  {
    var one: seq<string> := [c];
    OneLine(c);
    assert one[..0] == [];
  }

  lemma AllLinesTwo(c: string, d: string)
    requires '\n' !in c && '\n' !in d
    ensures AllLines([c, d]) == [c, d]
  {
    var two: seq<string> := [c, d];
    AllLinesOne(c);
    OneLine(d);
    assert two[..1] == [c];
  }

  lemma DataLineText(u: string, v: string, t: string, parse: Parser)
    requires t != "" && parse(u + v) == Parsed(JObj([Member("text", JStr(t))]))
    ensures TextOf("data: " + u + v, parse) == t
  {
    var line := "data: " + u + v;
    assert line[6..] == u + v;
    assert Prop(JObj([Member("text", JStr(t))]), "text") == Some(JStr(t));
  }

  lemma MalformedLineText(w: string, parse: Parser)
    requires parse(w).Malformed?
    ensures TextOf("data: " + w, parse) == ""
  {
    var line := "data: " + w;
    assert line[6..] == w;
  }

  /** One more line through the `data` handler's loop. */
  lemma LineStep(lines: seq<string>, j: nat, g: string -> Option<Json>, f: string -> string, init: Json)
    requires j < |lines|
    ensures Latest(Found(lines[..j + 1], g), init) ==
      if g(lines[j]).Some? then g(lines[j]).value else Latest(Found(lines[..j], g), init)
    ensures Concat(Each(lines[..j + 1], f)) == Concat(Each(lines[..j], f)) + f(lines[j])
  {
    assert lines[..j + 1][..j] == lines[..j];
    assert lines[..j + 1] == lines[..j] + [lines[j]];
    ConcatEachNext(lines[..j], lines[j], f);
  }

  /** One more chunk through the `data` handler. */
  lemma ChunkRead(done: seq<string>, chunk: string, g: string -> Option<Json>, f: string -> string, init: Json)
    ensures Latest(Found(done + Split(chunk), g), init) == Latest(Found(Split(chunk), g), Latest(Found(done, g), init))
    ensures Concat(Each(done + Split(chunk), f)) == Concat(Each(done, f)) + Concat(Each(Split(chunk), f))
  {
    FoundAppend(done, Split(chunk), g);
    LatestAppend(Found(done, g), Found(Split(chunk), g), init);
    ConcatEachAppend(done, Split(chunk), f);
  }

  lemma ChunkStep(chunks: seq<string>, i: nat)
    requires i < |chunks|
    ensures AllLines(chunks[..i + 1]) == AllLines(chunks[..i]) + Split(chunks[i])
  {
    assert chunks[..i + 1][..i] == chunks[..i];
  }

  /** The client: its session id is the only state a search changes. */
  class MonicaClient {
    const timeout: int
    const clientId: string
    var sessionId: Json

    /** `new MonicaClient(timeout)`; the client id is random and therefore a
        parameter. */
    constructor (timeout: int, clientId: string)
      ensures this.timeout == timeout && this.clientId == clientId && sessionId == JStr("")
    {
      this.timeout := timeout;
      this.clientId := clientId;
      sessionId := JStr("");
    }

    /** The `data` handler: each line of the chunk, the piece after its last newline
        included, with `sessionOf` and `textOf` reading a line's event. Returns what the
        chunk adds to `fullText`. */
    method OnData(chunk: string, sessionOf: string -> Option<Json>, textOf: string -> string)
      returns (text: string)
      modifies this
      ensures sessionId == Latest(Found(Split(chunk), sessionOf), old(sessionId))
      ensures text == Concat(Each(Split(chunk), textOf))
    {
      var lines := Split(chunk);
      text := "";
      for j := 0 to |lines|
        invariant sessionId == Latest(Found(lines[..j], sessionOf), old(sessionId))
        invariant text == Concat(Each(lines[..j], textOf))
      {
        LineStep(lines, j, sessionOf, textOf, old(sessionId));
        var session := sessionOf(lines[j]);
        if session.Some? {
          sessionId := session.value;
        }
        text := text + textOf(lines[j]);
      }
      assert lines[..|lines|] == lines;
    }

    /** The stream's chunks in order through the `data` handler; the text they add
        up to. */
    method Receive(chunks: seq<string>, sessionOf: string -> Option<Json>, textOf: string -> string)
      returns (fullText: string)
      modifies this
      ensures sessionId == Latest(Found(AllLines(chunks), sessionOf), old(sessionId))
      ensures fullText == Concat(Each(AllLines(chunks), textOf))
    {
      fullText := "";
      for i := 0 to |chunks|
        invariant sessionId == Latest(Found(AllLines(chunks[..i]), sessionOf), old(sessionId))
        invariant fullText == Concat(Each(AllLines(chunks[..i]), textOf))
      {
        ChunkStep(chunks, i);
        ChunkRead(AllLines(chunks[..i]), chunks[i], sessionOf, textOf, old(sessionId));
        var added := OnData(chunks[i], sessionOf, textOf);
        fullText := fullText + added;
      }
      assert chunks[..|chunks|] == chunks;
    }

    /** `search(prompt)`: the POST, then the `data` handler over each chunk, then `end`
        or `error`. */
    method Search(prompt: string, taskId: string, post: Json -> Raw<Stream>, parse: Parser)
      returns (r: Result<string, JsError>)
      modifies this
      ensures (r, sessionId) == Answer(old(sessionId), prompt, taskId, post, parse)
    {
      var response := Axios(post(RequestBody(prompt, sessionId, taskId)), DefaultAccepts);
      if response.Err? {
        return Err(JsError("Monica API request failed: " + response.error.message, None, None));
      }
      var body := response.value.1;
      var fullText := Receive(body.chunks, SessionFn(parse), TextFn(parse));
      if body.failure.Some? {
        return Err(body.failure.value);
      }
      r := Ok(FormatResponse(fullText));
    }
  }

  /** `searchMonica`: a fresh client for every call, so every request carries the empty
      session id, and no session survives between calls. */
  method SearchMonica(query: string, clientId: string, taskId: string, post: Json -> Raw<Stream>, parse: Parser)
    returns (r: Result<string, JsError>)
    ensures r == Answer(JStr(""), query, taskId, post, parse).0
  {
    var client := new MonicaClient(DEFAULT_TIMEOUT, clientId);
    r := client.Search(query, taskId, post, parse);
  }
}
