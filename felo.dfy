/**
 * The Felo search: a POST whose reply is a stream of `data:` lines, each carrying the
 * answer written so far as a cumulative `text`. The reader keeps a line buffer across
 * chunks, emits only the part of each new text beyond the length already seen, and
 * caches the final text under `felo-<query>`. Without streaming the deltas are
 * concatenated into one string, and a fresh cached answer is served instead.
 */
module Felo {
  import opened Wrappers
  import opened JsText
  import opened Json
  import opened Http
  import opened TtlCache

  /** `getCacheKey`. */
  function CacheKey(query: string): (r: string)
    ensures StartsWith(r, "felo-") && r[5..] == query
  {
    "felo-" + query
  }

  lemma CacheKeyInjective(q1: string, q2: string)
    requires CacheKey(q1) == CacheKey(q2)
    ensures q1 == q2
  {
    assert q1 == CacheKey(q1)[5..];
  }

  /** The cumulative answer text a line carries, if any: a `data:` line whose payload,
      after `substring(5).trim()`, parses to an object of `type` `'answer'` whose
      `data` holds a `text` key with a string value. A payload that does not parse,
      that is `null`, or whose `data` is missing or not an object throws inside the
      inner `try` and the line is skipped; a `text` that is not a string has no
      `substring`, so it is skipped as well. */
  function AnswerText(line: string, parse: Parser): (r: Option<string>)
    ensures r.Some? ==> StartsWith(line, "data:")
  {
    if !StartsWith(line, "data:") then None
    else
      match parse(Trim(line[5..]))
      case Malformed(_) => None
      case Parsed(d) =>
        if d.JNull? || Prop(d, "type") != Some(JStr("answer")) then None
        else
          match PropOf(Prop(d, "data"), "text")
          case Err(_) => None
          case Ok(_) =>
            var holder := Prop(d, "data").value;
            if HasKey(holder, "text") != Ok(true) then None
            else
              match Prop(holder, "text")
              case Some(JStr(t)) => Some(t)
              case _ => None
  }

  /** What each line carries, in order. */
  function Answers(lines: seq<string>, parse: Parser): (r: seq<Option<string>>)
    ensures |r| == |lines|
    ensures forall k :: 0 <= k < |lines| ==> r[k] == AnswerText(lines[k], parse)
  {
    if lines == [] then [] else Answers(lines[..|lines| - 1], parse) + [AnswerText(lines[|lines| - 1], parse)]
  }

  /** `streamingText` and the deltas yielded so far. */
  datatype Progress = Progress(text: string, deltas: seq<string>)

  /** One line through the reader: a text longer than `streamingText` yields its part
      beyond the old length and replaces `streamingText`. */
  function Update(p: Progress, answer: Option<string>): (r: Progress)
    ensures |r.text| >= |p.text|
    ensures r.deltas == p.deltas || (|r.deltas| == |p.deltas| + 1 && r.deltas[..|p.deltas|] == p.deltas)
  {
    match answer
    case Some(t) => if |t| > |p.text| then Progress(t, p.deltas + [t[|p.text|..]]) else p
    case None => p
  }

  /** The lines' answers in order, from an empty `streamingText`. */
  function Track(answers: seq<Option<string>>): Progress {
    if answers == [] then Progress("", [])
    else Update(Track(answers[..|answers| - 1]), answers[|answers| - 1])
  }

  /** The reader over lines. */
  function Run(lines: seq<string>, parse: Parser): Progress {
    Track(Answers(lines, parse))
  }

  /** The answer texts present, in order. */
  function Texts(answers: seq<Option<string>>): seq<string> {
    if answers == [] then []
    else
      var t := answers[|answers| - 1];
      Texts(answers[..|answers| - 1]) + (if t.Some? then [t.value] else [])
  }

  /** Each answer text that is longer than an earlier one extends it: the texts grow
      by appending, as a cumulative answer does. */
  predicate Cumulative(texts: seq<string>) {
    forall i, j :: 0 <= i < j < |texts| && |texts[i]| < |texts[j]| ==> StartsWith(texts[j], texts[i])
  }

  /** Every delta is non-empty, and their lengths add up to the length of
      `streamingText`. */
  lemma {:induction false} DeltasMeasureText(answers: seq<Option<string>>)
    ensures |Concat(Track(answers).deltas)| == |Track(answers).text|
    ensures forall k :: 0 <= k < |Track(answers).deltas| ==> Track(answers).deltas[k] != ""
  {
    if answers != [] {
      var before := answers[..|answers| - 1];
      DeltasMeasureText(before);
      var p := Track(before);
      var r := Track(answers);
      if r.deltas != p.deltas {
        var t := answers[|answers| - 1].value;
        assert r.deltas == p.deltas + [t[|p.text|..]];
        ConcatAppend(p.deltas, [t[|p.text|..]]);
        assert Concat([t[|p.text|..]]) == t[|p.text|..];
      }
    }
  }

  /** `streamingText` is empty or one of the answer texts. */
  lemma {:induction false} TextIsSeen(answers: seq<Option<string>>)
    ensures Track(answers).text == "" || Track(answers).text in Texts(answers)
  {
    if answers != [] {
      var before := answers[..|answers| - 1];
      TextIsSeen(before);
      TextsStep(answers);
    }
  }

  lemma TextsStep(answers: seq<Option<string>>)
    requires answers != []
    requires var before := answers[..|answers| - 1];
      Track(before).text == "" || Track(before).text in Texts(before)
    ensures Track(answers).text == "" || Track(answers).text in Texts(answers)
  {
    var before := answers[..|answers| - 1];
    var p := Track(before);
    var a := answers[|answers| - 1];
    assert Track(answers) == Update(p, a);
    var texts := Texts(answers);
    var earlier := Texts(before);
    assert texts == earlier + (if a.Some? then [a.value] else []);
    if Track(answers).text != p.text {
      assert texts[|texts| - 1] == Track(answers).text;
    } else if p.text != "" {
      var i :| 0 <= i < |earlier| && earlier[i] == p.text;
      assert texts[i] == p.text;
    }
  }

  lemma CumulativePrefix(texts: seq<string>, n: nat)
    requires Cumulative(texts) && n <= |texts|
    ensures Cumulative(texts[..n])
  {
    forall a, b | 0 <= a < b < n && |texts[..n][a]| < |texts[..n][b]|
      ensures StartsWith(texts[..n][b], texts[..n][a])
    {
      assert texts[..n][a] == texts[a] && texts[..n][b] == texts[b];
    }
  }

  /** When the answer texts are cumulative, the deltas rebuild `streamingText` exactly:
      the concatenated result equals the final text. */
  lemma {:induction false} DeltasRebuildText(answers: seq<Option<string>>)
    requires Cumulative(Texts(answers))
    ensures Concat(Track(answers).deltas) == Track(answers).text
  {
    if answers != [] {
      var before := answers[..|answers| - 1];
      var texts := Texts(answers);
      var earlier := Texts(before);
      assert texts[..|earlier|] == earlier;
      CumulativePrefix(texts, |earlier|);
      DeltasRebuildText(before);
      RebuildStep(answers);
    }
  }

  /** The step of `DeltasRebuildText`: a longer cumulative text extends the old one, so
      its delta continues the concatenation. */
  lemma RebuildStep(answers: seq<Option<string>>)
    requires answers != []
    requires Cumulative(Texts(answers))
    requires Concat(Track(answers[..|answers| - 1]).deltas) == Track(answers[..|answers| - 1]).text
    ensures Concat(Track(answers).deltas) == Track(answers).text
  {
    var p := Track(answers[..|answers| - 1]);
    var a := answers[|answers| - 1];
    assert Track(answers) == Update(p, a);
    if a.Some? && |a.value| > |p.text| {
      NewTextExtends(answers);
      ConcatExtends(p.deltas, p.text, a.value);
    }
  }

  /** A text longer than `streamingText` in a cumulative stream starts with it. */
  lemma NewTextExtends(answers: seq<Option<string>>)
    requires answers != []
    requires Cumulative(Texts(answers))
    requires var a := answers[|answers| - 1];
      a.Some? && |a.value| > |Track(answers[..|answers| - 1]).text|
    ensures StartsWith(answers[|answers| - 1].value, Track(answers[..|answers| - 1]).text)
  {
    var before := answers[..|answers| - 1];
    var t := answers[|answers| - 1].value;
    var p := Track(before);
    var texts := Texts(answers);
    var earlier := Texts(before);
    assert texts == earlier + [t];
    TextIsSeen(before);
    if p.text != "" {
      var i :| 0 <= i < |earlier| && earlier[i] == p.text;
      assert texts[i] == p.text && texts[|earlier|] == t && |texts[i]| < |texts[|earlier|]|;
    }
  }

  lemma ConcatExtends(deltas: seq<string>, text: string, t: string)
    requires Concat(deltas) == text && StartsWith(t, text)
    ensures Concat(deltas + [t[|text|..]]) == t
  {
    assert t == text + t[|text|..];
    ConcatAppend(deltas, [t[|text|..]]);
    assert Concat([t[|text|..]]) == t[|text|..];
  }

  lemma RunNext(a: seq<string>, b: seq<string>, j: nat, parse: Parser)
    requires j < |b|
    ensures Run(a + b[..j + 1], parse) == Update(Run(a + b[..j], parse), AnswerText(b[j], parse))
  {
    var xs := Answers(a + b[..j + 1], parse);
    assert (a + b[..j + 1])[..|a + b[..j + 1]| - 1] == a + b[..j];
    assert xs[..|xs| - 1] == Answers(a + b[..j], parse);
  }

  /** A fragment after the last newline is never processed. */
  lemma TrailingFragmentIgnored(chunks: seq<string>, tail: string, parse: Parser)
    requires '\n' !in tail
    ensures Run(CompleteLines(Concat(chunks + [tail])), parse) == Run(CompleteLines(Concat(chunks)), parse)
  {
    ConcatAppend(chunks, [tail]);
    assert Concat([tail]) == tail;
    UnterminatedTail(Concat(chunks), tail);
  }

  /** What the generator yields for a delta: `{text: delta}` in raw mode, the string
      `new Response(delta).toString()` otherwise. */
  function Yielded(delta: string, raw: bool): (r: Json)
    ensures raw ==> Prop(r, "text") == Some(JStr(delta))
    ensures !raw ==> r == JStr(delta)
  {
    if raw then JObj([Member("text", JStr(delta))]) else JStr(delta)
  }

  function Items(deltas: seq<string>, raw: bool): (r: seq<Json>)
    ensures |r| == |deltas|
    ensures forall k :: 0 <= k < |deltas| ==> r[k] == Yielded(deltas[k], raw)
  {
    if deltas == [] then [] else Items(deltas[..|deltas| - 1], raw) + [Yielded(deltas[|deltas| - 1], raw)]
  }

  lemma ItemsAppend(deltas: seq<string>, delta: string, raw: bool)
    ensures Items(deltas + [delta], raw) == Items(deltas, raw) + [Yielded(delta, raw)]
  {
    assert (deltas + [delta])[..|deltas|] == deltas;
  }

  /** What the non-streaming path appends for an item: `chunk.text` in raw mode,
      `chunk` otherwise. */
  function ChunkText(item: Json, raw: bool): string {
    if raw then OptToJsString(Prop(item, "text")) else ToJsString(item)
  }

  function Collected(items: seq<Json>, raw: bool): string {
    if items == [] then "" else Collected(items[..|items| - 1], raw) + ChunkText(items[|items| - 1], raw)
  }

  /** Collecting the yielded items gives the concatenated deltas in both modes. */
  lemma {:induction false} CollectedItems(deltas: seq<string>, raw: bool)
    ensures Collected(Items(deltas, raw), raw) == Concat(deltas)
  {
    if deltas != [] {
      var before := deltas[..|deltas| - 1];
      var items := Items(deltas, raw);
      assert items[..|items| - 1] == Items(before, raw);
      CollectedItems(before, raw);
      assert deltas == before + [deltas[|deltas| - 1]];
      ConcatAppend(before, [deltas[|deltas| - 1]]);
      assert Concat([deltas[|deltas| - 1]]) == deltas[|deltas| - 1];
    }
  }

  /** The error the generator throws: `Failed to search Felo: <message>`. */
  function Failure(message: string): (e: JsError)
    ensures StartsWith(e.message, "Failed to search Felo: ")
    ensures e.message[|"Failed to search Felo: "|..] == message
  {
    JsError("Failed to search Felo: " + message, None, None)
  }

  /** What a drained generator produced: its items, the error it threw, and the cache
      after its final write. */
  datatype Generation = Generation(items: seq<Json>, failure: Option<JsError>, slots: seq<Slot<string>>)

  /** `streamFunction` run to its end over the reply to the POST. */
  function Generate(slots: seq<Slot<string>>, prompt: string, post: Raw<Stream>, raw: bool, storeAt: int,
                    parse: Parser): (g: Generation)
  {
    match Axios(post, DefaultAccepts)
    case Err(e) => Generation([], Some(Failure(e.message)), slots)
    case Ok((_, body)) =>
      var p := Run(CompleteLines(Concat(body.chunks)), parse);
      var items := Items(p.deltas, raw);
      if body.failure.Some? then Generation(items, Some(Failure(body.failure.value.message)), slots)
      else Generation(items, None, if p.text != "" then Insert(slots, CacheKey(prompt), Entry(p.text, storeAt)) else slots)
  }

  /** The times at which a search reads the clock: the purge, the cache check and the
      final write. */
  datatype Clock = Clock(purgeAt: int, lookupAt: int, storeAt: int)

  /** What `searchFelo` gives back: one string, or a generator, here drained. */
  datatype Reply = Full(text: string) | Streamed(items: seq<Json>, failure: Option<JsError>)

  /** `searchFelo`, with the cache before and after. */
  function Search(slots: seq<Slot<string>>, prompt: string, stream: bool, raw: bool, clock: Clock,
                  post: Raw<Stream>, parse: Parser): (r: (Result<Reply, JsError>, seq<Slot<string>>))
  {
    var purged := Purge(slots, clock.purgeAt);
    var cached := Find(purged, CacheKey(prompt));
    if !stream && cached.Some? && Servable(cached.value, clock.lookupAt) then (Ok(Full(cached.value.results)), purged)
    else
      var g := Generate(purged, prompt, post, raw, clock.storeAt, parse);
      if stream then (Ok(Streamed(g.items, g.failure)), g.slots)
      else if g.failure.Some? then (Err(g.failure.value), g.slots)
      else (Ok(Full(Collected(g.items, raw))), g.slots)
  }

  /** The stream never reads the cache: what it yields is the same whatever the cache
      holds. */
  lemma StreamingIgnoresCache(s1: seq<Slot<string>>, s2: seq<Slot<string>>, prompt: string, raw: bool,
                              clock: Clock, post: Raw<Stream>, parse: Parser)
    ensures Search(s1, prompt, true, raw, clock, post, parse).0 == Search(s2, prompt, true, raw, clock, post, parse).0
  {
    var g1 := Generate(Purge(s1, clock.purgeAt), prompt, post, raw, clock.storeAt, parse);
    var g2 := Generate(Purge(s2, clock.purgeAt), prompt, post, raw, clock.storeAt, parse);
    assert g1.items == g2.items && g1.failure == g2.failure;
  }

  /** The cache changes beyond the purge only by one write under `felo-<prompt>` of a
      non-empty final text, after a stream that ended without error. */
  lemma CacheWrittenOnlyWithText(slots: seq<Slot<string>>, prompt: string, stream: bool, raw: bool, clock: Clock,
                                 post: Raw<Stream>, parse: Parser)
    ensures var (r, after) := Search(slots, prompt, stream, raw, clock, post, parse);
      var purged := Purge(slots, clock.purgeAt);
      after == purged ||
      (post.Answered? && DefaultAccepts(post.status) && post.body.failure.None? &&
       exists t :: t != "" && t == Run(CompleteLines(Concat(post.body.chunks)), parse).text &&
         after == Insert(purged, CacheKey(prompt), Entry(t, clock.storeAt)))
  {
    var purged := Purge(slots, clock.purgeAt);
    var cached := Find(purged, CacheKey(prompt));
    if stream || cached.None? || !Servable(cached.value, clock.lookupAt) {
      GenerateWrites(purged, prompt, post, raw, clock.storeAt, parse);
    }
  }

  /** The generator's only write: the non-empty final text of a complete stream. */
  lemma GenerateWrites(slots: seq<Slot<string>>, prompt: string, post: Raw<Stream>, raw: bool, storeAt: int,
                       parse: Parser)
    ensures var g := Generate(slots, prompt, post, raw, storeAt, parse);
      g.slots == slots ||
      (post.Answered? && DefaultAccepts(post.status) && post.body.failure.None? &&
       exists t :: t != "" && t == Run(CompleteLines(Concat(post.body.chunks)), parse).text &&
         g.slots == Insert(slots, CacheKey(prompt), Entry(t, storeAt)))
  {
    if post.Answered? && DefaultAccepts(post.status) && post.body.failure.None? {
      var t := Run(CompleteLines(Concat(post.body.chunks)), parse).text;
      assert Axios(post, DefaultAccepts) == Ok((post.status, post.body));
      if t != "" {
        assert Generate(slots, prompt, post, raw, storeAt, parse).slots == Insert(slots, CacheKey(prompt), Entry(t, storeAt));
      }
    }
  }

  /** Without streaming, on a cache miss and a complete stream of cumulative texts, the
      search returns the final text, and caches it when it is not empty. */
  lemma FullTextReturned(slots: seq<Slot<string>>, prompt: string, raw: bool, clock: Clock,
                         status: int, chunks: seq<string>, parse: Parser)
    requires DefaultAccepts(status)
    requires Find(Purge(slots, clock.purgeAt), CacheKey(prompt)).None?
    requires Cumulative(Texts(Answers(CompleteLines(Concat(chunks)), parse)))
    ensures var t := Run(CompleteLines(Concat(chunks)), parse).text;
      var (r, after) := Search(slots, prompt, false, raw, clock, Answered(status, Stream(chunks, None)), parse);
      r == Ok(Full(t)) &&
      after == if t != "" then Insert(Purge(slots, clock.purgeAt), CacheKey(prompt), Entry(t, clock.storeAt))
               else Purge(slots, clock.purgeAt)
  {
    var lines := CompleteLines(Concat(chunks));
    var p := Run(lines, parse);
    DeltasRebuildText(Answers(lines, parse));
    CollectedItems(p.deltas, raw);
  }

  /** The body of `streamFunction` after the POST: append each chunk to `buffer`, take
      the complete lines, keep the fragment, and run each line through the reader. The
      result depends only on the concatenated text of the chunks. */
  method ReadStream(chunks: seq<string>, raw: bool, parse: Parser) returns (items: seq<Json>, streamingText: string)
    ensures var p := Run(CompleteLines(Concat(chunks)), parse);
      items == Items(p.deltas, raw) && streamingText == p.text
  {
    streamingText := "";
    items := [];
    var buffer := "";
    ghost var deltas: seq<string> := [];
    for i := 0 to |chunks|
      invariant buffer == Remainder(Concat(chunks[..i]))
      invariant Progress(streamingText, deltas) == Run(CompleteLines(Concat(chunks[..i])), parse)
      invariant items == Items(deltas, raw)
    {
      ghost var done := CompleteLines(Concat(chunks[..i]));
      ChunkLinesNext(chunks, i);
      var pieces := Split(buffer + chunks[i]);
      var lines := pieces[..|pieces| - 1];
      buffer := pieces[|pieces| - 1];
      streamingText, items, deltas := ReadLines(done, lines, streamingText, items, deltas, raw, parse);
    }
    assert chunks[..|chunks|] == chunks;
  }

  /** The inner `for (const line of lines)` loop over the lines one chunk completes. */
  method ReadLines(ghost done: seq<string>, lines: seq<string>, text: string, items: seq<Json>,
                   ghost deltas: seq<string>, raw: bool, parse: Parser)
    returns (text': string, items': seq<Json>, ghost deltas': seq<string>)
    requires Progress(text, deltas) == Run(done, parse) && items == Items(deltas, raw)
    ensures Progress(text', deltas') == Run(done + lines, parse) && items' == Items(deltas', raw)
  {
    text', items', deltas' := text, items, deltas;
    assert done + lines[..0] == done;
    for j := 0 to |lines|
      invariant Progress(text', deltas') == Run(done + lines[..j], parse)
      invariant items' == Items(deltas', raw)
    {
      RunNext(done, lines, j, parse);
      var newText := AnswerText(lines[j], parse);
      if newText.Some? && |newText.value| > |text'| {
        var delta := newText.value[|text'|..];
        text' := newText.value;
        ItemsAppend(deltas', delta, raw);
        deltas' := deltas' + [delta];
        items' := items' + [Yielded(delta, raw)];
      }
    }
    assert lines[..|lines|] == lines;
  }

  /** `streamFunction`, drained: the POST, the reader, and the final cache write. */
  method StreamFunction(cache: ResultsCache<string>, prompt: string, post: Raw<Stream>, raw: bool, storeAt: int,
                        parse: Parser)
    returns (items: seq<Json>, failure: Option<JsError>)
    requires cache.Valid()
    modifies cache
    ensures cache.Valid()
    ensures Generation(items, failure, cache.slots) == Generate(old(cache.slots), prompt, post, raw, storeAt, parse)
  {
    var response := Axios(post, DefaultAccepts);
    if response.Err? {
      return [], Some(Failure(response.error.message));
    }
    var body := response.value.1;
    var streamingText;
    items, streamingText := ReadStream(body.chunks, raw, parse);
    if body.failure.Some? {
      return items, Some(Failure(body.failure.value.message));
    }
    if streamingText != "" {
      cache.Set(CacheKey(prompt), Entry(streamingText, storeAt));
    }
    failure := None;
  }

  /** The non-streaming loop: `fullResponse += chunk.text` or `+= chunk`. */
  method Collect(items: seq<Json>, raw: bool) returns (fullResponse: string)
    ensures fullResponse == Collected(items, raw)
  {
    fullResponse := "";
    for i := 0 to |items|
      invariant fullResponse == Collected(items[..i], raw)
    {
      assert items[..i + 1][..i] == items[..i];
      fullResponse := fullResponse + ChunkText(items[i], raw);
    }
    assert items[..|items|] == items;
  }

  /** `searchFelo` over the module's cache. */
  method SearchFelo(cache: ResultsCache<string>, prompt: string, stream: bool, raw: bool, clock: Clock,
                    post: Raw<Stream>, parse: Parser)
    returns (r: Result<Reply, JsError>)
    requires cache.Valid()
    modifies cache
    ensures cache.Valid()
    ensures (r, cache.slots) == Search(old(cache.slots), prompt, stream, raw, clock, post, parse)
  {
    cache.ClearOldCache(clock.purgeAt);
    if !stream {
      var cachedResults := cache.Get(CacheKey(prompt));
      if cachedResults.Some? && Servable(cachedResults.value, clock.lookupAt) {
        return Ok(Full(cachedResults.value.results));
      }
    }
    var items, failure := StreamFunction(cache, prompt, post, raw, clock.storeAt, parse);
    if stream {
      return Ok(Streamed(items, failure));
    }
    if failure.Some? {
      return Err(failure.value);
    }
    var fullResponse := Collect(items, raw);
    r := Ok(Full(fullResponse));
  }
}
