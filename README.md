# ddg_search core in Dafny

A model of the text and state handling behind the search tools of `ddg_search`, an
MCP server whose tools query DuckDuckGo, IAsk, Felo, Brave AI and Monica and fetch web
pages. The model covers:

- **DuckDuckGo (`search.js`).** How a scraped result link is resolved to its
  destination (`extractDirectUrl`), the favicon address, the whitespace sanitiser
  `cleanText`, the cache key, the turning of result rows into results, and the cached
  search with its five-minute time to live and its bound of five pages.
- **The module-level results cache** that the DuckDuckGo, IAsk and Felo searches each
  keep: an insertion-ordered `Map` purged of stale entries, as a class over a
  sequence of slots (`TtlCache`).
- **IAsk (`search_iask.js`).** Argument validation, the cache key, `cacheFind` over a
  LiveView diff, `formatHtml`, and the socket handlers (`message`, the timer,
  `error`, `close`) that grow `buffer` and settle the search.
- **Felo (`search_felo.js`).** The line-buffered reader of the `data:` stream that
  yields the growth of a cumulative answer text, the final cache write, and the
  non-streaming concatenation.
- **Brave AI (`search_brave_ai.js`).** Prompt validation, the parameters of the
  `/new` and `/stream` requests, the newline-delimited JSON reader `parseStream`,
  and the classification of errors.
- **Monica (`search_monica.js`).** The client whose session id the data handler
  overwrites, the per-chunk `data: ` line handling that builds `fullText`, and the
  sanitiser `formatResponse`.
- **The `fetch-url` tool handler (`fetchUrlTool.js`).** Its defaults, the truncation
  of the content and the metadata block it appends.

Supporting modules give the JavaScript built-ins the core relies on a meaning over
sequences: `JsText` (the `\s` class, `trim`, `split('\n')`, `substring`, `slice`,
integer-to-string, the blank-line collapse), `Json` (parsed values, truthiness,
property access and its TypeError, `String(v)`), `Http` (axios replies and its
`validateStatus`) and `Wrappers` (`Option`, `Result`).

Everything the core calls but does not define is a parameter: `new URL`,
`decodeURIComponent`, `encodeURIComponent`, `JSON.parse`, cheerio's selections,
turndown, the network replies (a reply, or none, per request), and the clock (each
`Date.now()` read is an explicit time). Stream bodies are the ordered list of chunks
they deliver, and a socket is the ordered list of events it delivers.

Points where the code's behaviour is easy to misread; the model follows the code:

- `extractDirectUrl` reassigns its argument when it normalises a relative link. The
  regular-expression fallback and the "unchanged" answer of the `catch` therefore see
  the normalised link, not the original one.
- A `uddg` that `decodeURIComponent` rejects throws into the outer `catch`, so the
  link goes to the regular-expression fallback.
- In IAsk a message that `JSON.parse` rejects is not skipped: the outer `catch`
  rejects the search with `IAsk API error: …` and closes the socket.
- In Brave AI the client accepts every status from 200 to 499. A 429 reply therefore
  never reaches the rate-limit branch (see Findings).

## Model

| member | source | states |
|---|---|---|
| `TtlCache.Find` | src/utils/search.js:145 | `get` finds an entry exactly when the key is stored, and the entry it finds is stored under that key |
| `TtlCache.FindAt` | src/utils/search.js:145 | with distinct keys, every stored key finds its own entry |
| `TtlCache.Purge` | src/utils/search.js:52-59 | the survivors of a purge are old slots, none of them expired, and every slot that had not expired survives |
| `TtlCache.PurgeAppend` | src/utils/search.js:54-58 | each entry is kept or dropped on its own: purging a concatenation purges each part |
| `TtlCache.PurgeDistinct` | src/utils/search.js:52-59 | the purge keeps the keys distinct |
| `TtlCache.PurgeFind` | src/utils/search.js:52-59 | after the purge a key finds its old entry exactly when that entry had not expired, so only expired entries go |
| `TtlCache.PurgedAreFresh` | src/utils/search.js:55 | every survivor is at most `CACHE_DURATION` old |
| `TtlCache.BoundaryAge` | src/utils/search.js:147 | an entry exactly five minutes old survives the purge (`>`) but is not served (`<`) |
| `TtlCache.Insert` | src/utils/search.js:204-207 | `set` of a present key keeps the key order, a new key goes last, and other slots keep their positions |
| `TtlCache.InsertOnlyAdds` | src/utils/search.js:204-207 | after `set` every slot is an old one or the new one |
| `TtlCache.InsertDistinct` | src/utils/search.js:204-207 | `set` keeps the keys distinct |
| `TtlCache.InsertFind` | src/utils/search.js:204-207 | after `set` the key finds the new entry and every other key finds what it found before |
| `TtlCache.EvictOldest` | src/utils/search.js:210-213 | over the bound, the first slot goes; otherwise nothing changes |
| `TtlCache.InsertThenEvict` | src/utils/search.js:204-213 | store then evict keeps a cache of at most `max` entries at most `max`, with distinct keys, and the stored key still finds its entry |
| `TtlCache.OverflowEvictsFirst` | src/utils/search.js:210-213 | on overflow exactly the first-inserted key is removed, and it is not the key just stored |
| `TtlCache.ResultsCache.constructor` | src/utils/search.js:19 | a new cache is empty |
| `TtlCache.ResultsCache.Size` | src/utils/search.js:210 | `size` is the number of slots |
| `TtlCache.ResultsCache.Get` | src/utils/search.js:145 | `get` finds an entry exactly when the key is stored |
| `TtlCache.ResultsCache.ClearOldCache` | src/utils/search.js:52-59 | `clearOldCache`'s loop, deleting while it iterates, leaves exactly `Purge` of the old slots |
| `TtlCache.ResultsCache.Set` | src/utils/search.js:204-207 | `set` leaves exactly `Insert` of the old slots |
| `TtlCache.ResultsCache.RemoveOldestIfOver` | src/utils/search.js:210-213 | the eviction leaves exactly `EvictOldest` of the old slots |
| `JsText.TrimStart` | src/utils/search_felo.js:156 | the result is a suffix, everything cut is whitespace, and it does not open with whitespace |
| `JsText.TrimEnd` | src/utils/search_felo.js:156 | the result is a prefix, everything cut is whitespace, and it does not end with whitespace |
| `JsText.Trim` | src/utils/search_brave_ai.js:47 | `trim` never lengthens, is empty exactly for all-whitespace text, leaves a trimmed text, and leaves a trimmed text alone |
| `JsText.TrimIdempotent` | src/utils/search.js:343-344 | trimming twice is trimming once |
| `JsText.Split` | src/utils/search_felo.js:150 | `split('\n')` yields at least one piece, no piece holds a newline, and joining the pieces with newlines gives the text back |
| `JsText.SplitOfJoin` | src/utils/search_felo.js:150 | the other direction: splitting newline-free pieces joined with newlines gives the pieces back |
| `JsText.LinesRoundTrip` | src/utils/search_felo.js:150-151 | a text is its complete lines, each with its newline, then the held-back fragment, which holds no newline |
| `JsText.SplitAppend` | src/utils/search_felo.js:148-151 | splitting a concatenation gives the complete lines of the first part, then the split of its fragment continued by the second part |
| `JsText.CompleteLinesAppend` | src/utils/search_brave_ai.js:42-44 | the complete lines of a concatenation are those of the first part, then those the fragment completes with the second part; the new fragment depends only on the old fragment and the second part |
| `JsText.ChunkLinesNext` | src/utils/search_felo.js:147-151 | one more chunk completes exactly the lines of the held-back fragment followed by that chunk, and leaves that text's fragment |
| `JsText.UnterminatedTail` | src/utils/search_brave_ai.js:63 | a final piece without a newline completes no line and only extends the fragment |
| `JsText.ConcatEachAppend` | src/utils/search_brave_ai.js:46-60 | applying a per-line function and concatenating distributes over concatenating the lines |
| `JsText.IntToString` | src/utils/search.js:46 | `${page}` is the decimal digits, with a `-` for a negative page |
| `JsText.NatToString` | src/utils/search.js:46 | the decimal form is one or more digits, two or more from 10 up |
| `JsText.NatToStringInjective` | src/utils/search.js:46 | distinct natural numbers have distinct decimal forms |
| `JsText.IntToStringInjective` | src/utils/search.js:46 | distinct integers have distinct decimal forms |
| `JsText.SubstringTo` | src/tools/fetchUrlTool.js:79 | `substring(0, n)` is the first `n` characters, clamped to the text and to 0 |
| `JsText.SliceTo` | src/utils/search.js:148 | `slice(0, n)` is a prefix of at most `n` elements for `n >= 0`, the whole sequence once `n` reaches its length |
| `JsText.CollapseBlankLines` | src/utils/search_monica.js:50 | `replace(/\n\s*\n/g, '\n\n')` leaves a text without newlines alone and keeps the first character |
| `JsText.BlankRunAtMatches` | src/utils/search_monica.js:50 | the run the replacement takes is whitespace between two newlines, and it is the greedy one: no newline follows inside the whitespace after it |
| `Json.Lookup` | src/utils/search_brave_ai.js:126 | a property is found exactly when a member has that key, and then it is that member's value |
| `Json.Prop` | src/utils/search_brave_ai.js:54 | only an object has a named property |
| `Json.Elem` | src/utils/search_iask.js:214 | `msg[4]` of an array exists exactly within its length, of a string is its character, and of a scalar is `undefined` |
| `Json.PropOf` | src/utils/search_iask.js:223 | reading a property throws exactly on `undefined` and `null` |
| `Json.ElemOf` | src/utils/search_iask.js:223 | indexing throws exactly on `undefined` and `null` |
| `Json.HasKey` | src/utils/search_felo.js:157 | `'text' in x` is true exactly for an object holding that key |
| `Json.ToJsString` | src/utils/search_monica.js:99 | `String(v)` of a string is the string itself |
| `Json.OptToJsString` | src/utils/search_felo.js:202 | `String(undefined)` is `'undefined'` |
| `Json.ValueAt` | src/utils/search_iask.js:51 | `Object.values` of a container yields parts of it, so the recursion terminates |
| `Http.Axios` | src/utils/search.js:155-163 | an accepted status gives the reply; a refused status throws an error that carries the status; no reply throws an error without one |
| `DuckDuckGo.FirstValue` | src/utils/search.js:79 | `searchParams.get` gives a value exactly when the name is present, and it is the value of the first parameter of that name |
| `DuckDuckGo.Normalise` | src/utils/search.js:69-73 | `//` links get `https:`, other `/` links get the DuckDuckGo origin, anything else is unchanged |
| `DuckDuckGo.ExtractDirectUrl` | src/utils/search.js:66-112 | has no contract of its own; `RedirectRule`, `RedirectUndecodable`, `AdRule`, `PassThrough`, `Unparseable` and `ResultOrigin` state its answer for each kind of link |
| `DuckDuckGo.RedirectRule` | src/utils/search.js:78-83 | a `/l/` link with a non-empty `uddg` resolves to the decoded `uddg`, whatever else it carries |
| `DuckDuckGo.RedirectUndecodable` | src/utils/search.js:80-111 | an undecodable `uddg` throws into the outer `catch`, which scrapes the normalised link |
| `DuckDuckGo.AdRule` | src/utils/search.js:86-99 | a `/y.js` link with a non-empty `u3` resolves to the decoded `ld` of the decoded `u3`, else to the decoded `u3`, and any failure inside gives the normalised link |
| `DuckDuckGo.PassThrough` | src/utils/search.js:103 | a parseable link matching neither rule comes back normalised |
| `DuckDuckGo.Unparseable` | src/utils/search.js:104-111 | an unparseable link gives the first URL inside the normalised link, or the normalised link itself |
| `DuckDuckGo.ResultOrigin` | src/utils/search.js:66-112 | every resolved link is the normalised link, something `decodeURIComponent` produced, or the first URL inside the normalised link |
| `DuckDuckGo.NotAUrl` | src/__tests__/utils/search.test.js:72-76 | `'not-a-url'` resolves to itself when it does not parse |
| `DuckDuckGo.EmbeddedScrape` | src/__tests__/utils/search.test.js:78-82 | a string whose only scheme is an `http://` after an `h`-free prefix scrapes to that URL up to the first character a URL cannot hold (the `'Visit http://example.com for info'` case) |
| `DuckDuckGo.NoSchemeNoUrl` | src/utils/search.js:106-110 | a string without an `h` holds no URL and comes back unchanged |
| `DuckDuckGo.FirstHttpUrl` | src/utils/search.js:106-108 | has no contract of its own; `FirstHttpUrlLeftmost` states that it finds the leftmost match, and nothing exactly when no position starts one |
| `DuckDuckGo.FirstHttpUrlLeftmost` | src/utils/search.js:106-108 | the scraped URL is the match at the leftmost position where one starts, and there is none exactly when no position starts a match |
| `DuckDuckGo.Scrape` | src/utils/search.js:104-111 | has no contract of its own; `Unparseable`, `RedirectUndecodable`, `EmbeddedScrape` and `NoSchemeNoUrl` state which link the `catch` gives back |
| `DuckDuckGo.RunLen` | src/utils/search.js:106 | `[^\s<>"]+` takes the greedy run: URL characters up to a character that is not one, or the end |
| `DuckDuckGo.SchemeLen` | src/utils/search.js:106 | `https?:\/\/` matches 8 characters exactly at `https://` and 7 exactly at `http://` |
| `DuckDuckGo.MatchLen` | src/utils/search.js:106 | a match, when there is one, is a scheme followed by the greedy run of URL characters, and it lies inside the text |
| `DuckDuckGo.FirstMatchFrom` | src/utils/search.js:106 | the first position from `i` where a match starts, with no match before it; none when no position matches |
| `DuckDuckGo.GetFaviconUrl` | src/utils/search.js:119-126 | Google's favicon address for the host of a parseable URL, and `''` exactly when the URL does not parse |
| `DuckDuckGo.CollapseSpaceRunsSpec` | src/utils/search.js:341 | `replace(/\s+/g, ' ')` leaves single spaces only, never two whitespace characters in a row; it opens with whitespace exactly when the text does; a single-spaced text is unchanged |
| `DuckDuckGo.CollapseSingleSpaced` | src/utils/search.js:341 | the replacement has nothing to do on a single-spaced text |
| `DuckDuckGo.CleanText` | src/utils/search.js:339-345 | the cleaned text has no whitespace at either end, no newline, and no two whitespace characters in a row |
| `DuckDuckGo.CleanTextIdempotent` | src/utils/search.js:339-345 | cleaning twice is cleaning once |
| `DuckDuckGo.GetCacheKey` | src/utils/search.js:45-47 | the key starts with the query and a `-` |
| `DuckDuckGo.CacheKeyInjective` | src/utils/search.js:45-47 | for page numbers that are not negative, the key determines the query and the page |
| `DuckDuckGo.NegativePageCollides` | src/utils/search.js:45-47 | with a negative page two searches share a key: `("a", -1)` and `("a-", 1)` |
| `DuckDuckGo.RowResult` | src/utils/search.js:176-197 | a row yields a result exactly when its trimmed title and its resolved link are non-empty; the result holds the resolved link, the trimmed texts and the link's favicon |
| `DuckDuckGo.Results` | src/utils/search.js:174-198 | at most one result per row, each with a title and a link |
| `DuckDuckGo.BuildResults` | src/utils/search.js:174-198 | the `each` loop pushes exactly `Results` of the rows |
| `DuckDuckGo.RequestUrl` | src/utils/search.js:141-156 | the page address is the results page with the encoded query, and the offset `(page - 1) * 10` written in decimal |
| `DuckDuckGo.Search` | src/utils/search.js:135-220 | has no contract of its own; `SearchKeepsCacheBounded` and `CachedPageServed` state what it returns and leaves in the cache, and `SearchDuckDuckGo` is the method it specifies |
| `DuckDuckGo.SearchKeepsCacheBounded` | src/utils/search.js:138-213 | a search keeps a cache of at most five pages at most five, with distinct keys; it returns at most `numResults` results; a fetched page is stored under its key with the store time |
| `DuckDuckGo.CachedPageServed` | src/utils/search.js:144-149 | a cached page younger than five minutes is served, sliced to `numResults`, and the cache changes only by the purge |
| `DuckDuckGo.SearchDuckDuckGo` | src/utils/search.js:135-220 | the method over the shared cache returns and leaves exactly what `Search` describes |
| `IAsk.Validate` | src/utils/search_iask.js:118-126 | arguments pass exactly when the mode is in the list and the level is absent, `null`, `''` or in the list; a bad mode is reported first, with the list of valid modes, then a bad level with the list of valid levels |
| `IAsk.DefaultLevelRejected` | src/utils/search_iask.js:124-126 | a level of `'default'` spelt out is not in the list and is rejected, although the cache key writes an absent level as `default` |
| `IAsk.ValidHasNoDash` | src/utils/search_iask.js:12-13 | for arguments that pass validation, neither the mode nor the level (or `default`) holds a `-` |
| `IAsk.CacheKey` | src/utils/search_iask.js:29-31 | the key is `iask-`, the mode, the level or `default`, then the query |
| `IAsk.CacheKeyInjective` | src/utils/search_iask.js:29-31 | for valid arguments the key determines the query, the mode and the level (`null` and `''` both stand for `default`) |
| `IAsk.ShortHasNoParagraph` | src/utils/search_iask.js:59 | a string shorter than `<p>x</p>` holds no paragraph |
| `IAsk.CacheFind` | src/utils/search_iask.js:50-66 | has no contract of its own; `CacheFindFirst` states that it answers with the first paragraph string in visiting order, and `CacheFindSound` and `CacheFindNone` hold without any assumption about turndown |
| `IAsk.CacheFindFirst` | src/utils/search_iask.js:50-66 | when no paragraph string converts to blank text, `cacheFind` answers with the trimmed turndown of the first paragraph string in the order it visits the tree (nested containers first, then the entry itself), and `null` when there is none |
| `IAsk.FindFromFirst` | src/utils/search_iask.js:53-65 | the same for the loop from entry `i`: the first paragraph string among entries `i` onwards |
| `IAsk.CacheFindSound` | src/utils/search_iask.js:50-66 | whatever `cacheFind` returns is the trimmed turndown of a string of the tree that holds a paragraph |
| `IAsk.FindFromSound` | src/utils/search_iask.js:53-63 | the same for the loop from entry `i` on |
| `IAsk.FindFromStep` | src/utils/search_iask.js:53-63 | one iteration's answer comes from that entry's own strings or from the entries after it |
| `IAsk.CacheFindNone` | src/utils/search_iask.js:50-66 | a tree none of whose strings holds a paragraph yields `null` |
| `IAsk.FindFromNone` | src/utils/search_iask.js:53-65 | the same for the loop from entry `i` on |
| `IAsk.FirstParagraphWins` | src/utils/search_iask.js:53-62 | a first entry that is a string holding a paragraph decides the answer, whatever turndown makes of it (the general first-match rule is `CacheFindFirst`) |
| `IAsk.ReplaceBr` | src/utils/search_iask.js:227-231 | replacing `<br/>` changes only a text that holds a tag |
| `IAsk.UntaggedChunkUnchanged` | src/utils/search_iask.js:227-231 | on the primary path a chunk without a tag is appended as it is |
| `IAsk.StripAttribution` | src/utils/search_iask.js:88 | a text that does not open with the attribution (in any letter case) is unchanged; otherwise the result is shorter by at least the attribution and does not open with whitespace |
| `IAsk.MarkerLen` | src/utils/search_iask.js:90 | a footnote marker opens with `[` and is at least 25 characters long |
| `IAsk.RemoveMarkers` | src/utils/search_iask.js:90 | removing markers never lengthens a text and leaves a text without `[` alone |
| `IAsk.MarkerDeleted` | src/utils/search_iask.js:90 | a marker `[n](#fn:m 'see footnote')` at the front is deleted |
| `IAsk.PlainPrefixKept` | src/utils/search_iask.js:90 | text without a `[` is kept as it is and the removal goes on after it |
| `IAsk.MarkerAfterPlain` | src/utils/search_iask.js:90 | a marker after ordinary text is deleted and the text before it kept |
| `IAsk.AllMarkersRemoved` | src/utils/search_iask.js:90 | in text made of stretches without `[`, each followed by a marker, every marker is deleted and all the stretches are kept in order |
| `IAsk.CleanParagraph` | src/utils/search_iask.js:86-90 | the cleaned paragraph is never longer than its text |
| `IAsk.PlainParagraph` | src/utils/search_iask.js:86-90 | a paragraph with neither the attribution nor a `[` is only trimmed |
| `IAsk.AttributionDropped` | src/utils/search_iask.js:86-90 | the attribution, in any letter case, and the whitespace after it are dropped from a paragraph whose remaining text is trimmed and holds no `[` |
| `IAsk.ItemLines` | src/utils/search_iask.js:93-95 | a list pushes one line per item |
| `IAsk.SourceLines` | src/utils/search_iask.js:98-103 | the footnotes push at most one line per entry, none for an entry without an anchor |
| `IAsk.AllLinesAppend` | src/utils/search_iask.js:79-105 | the lines of consecutive runs of elements are the lines of each run in turn |
| `IAsk.ItemLinesEnded` | src/utils/search_iask.js:93-95 | every list line has text and ends with a newline |
| `IAsk.SourceLinesEnded` | src/utils/search_iask.js:98-103 | every source line has text and ends with a newline |
| `IAsk.ElementLines` | src/utils/search_iask.js:79-104 | has no contract of its own; `PushElement` is the callback it specifies, and `ElementLinesEnded` states that every line it gives has text and ends with a newline |
| `IAsk.ElementLinesEnded` | src/utils/search_iask.js:83-104 | every line an element pushes has text and ends with a newline |
| `IAsk.LinesEndWithNewline` | src/utils/search_iask.js:79-107 | every pushed line has text and ends with a newline, so no empty paragraph line is pushed |
| `IAsk.FormattedText` | src/utils/search_iask.js:73-74 | `formatHtml('')` is `''` |
| `IAsk.FormatHtml` | src/utils/search_iask.js:73-108 | the method returns exactly the join of the lines of the selected elements |
| `IAsk.PushElement` | src/utils/search_iask.js:79-105 | one callback appends exactly the element's lines |
| `IAsk.PushItems` | src/utils/search_iask.js:93-95 | the item loop appends exactly the item lines |
| `IAsk.PushSources` | src/utils/search_iask.js:98-103 | the footnote loop appends exactly the source lines |
| `IAsk.Fallback` | src/utils/search_iask.js:238-253 | the `catch` path never rejects, and it closes the socket exactly when `cacheFind` found a non-empty answer |
| `IAsk.OnMessage` | src/utils/search_iask.js:209-258 | a message rejects the search exactly when it does not parse, and then it closes the socket and appends nothing; `PrimaryPath`, `FalsyDataIgnored`, `FallbackPath`, `NonStringChunkFallsBack` and `EmptyMessageIgnored` state each of its other branches |
| `IAsk.PrimaryPath` | src/utils/search_iask.js:222-234 | a non-empty string at `diff.e[0][1].data` is appended, formatted when it holds a tag and unchanged otherwise; the socket stays open |
| `IAsk.FalsyDataIgnored` | src/utils/search_iask.js:223-225 | a present `e` with falsy `data` appends nothing and does not fall back |
| `IAsk.FallbackPath` | src/utils/search_iask.js:235-253 | a missing `e`, or `e[0][1]` that cannot be read, sends the diff to `cacheFind` |
| `IAsk.NonStringChunkFallsBack` | src/utils/search_iask.js:227-238 | a truthy `diff.e[0][1].data` that is not a string throws inside the `try`, so the diff goes to `cacheFind` |
| `IAsk.EmptyMessageIgnored` | src/utils/search_iask.js:211-215 | a falsy message, or one without a truthy `msg[4]`, does nothing |
| `IAsk.Answer` | src/utils/search_iask.js:271 | the close handler resolves with the buffer when it is non-empty, never with `''` |
| `IAsk.Step` | src/utils/search_iask.js:209-281 | an event only appends to the buffer, never changes a settled outcome, and does nothing once the socket has closed |
| `IAsk.Replay` | src/utils/search_iask.js:209-283 | has no contract of its own; `ReplayGrows`, `CloseSettles`, `TimeoutReturnsPartial`, `StoredIsFinalBuffer` and `ResolvedNotEmpty` state how the events grow the buffer and settle the search, and `RunSession` is the method it specifies |
| `IAsk.ReplayGrows` | src/utils/search_iask.js:191-248 | over any events the buffer only grows and a settled outcome stays |
| `IAsk.CloseSettles` | src/utils/search_iask.js:260-272 | `close` resolves a pending search with the buffer or `'No results found.'`, and caches the buffer exactly when it is non-empty |
| `IAsk.TimeoutReturnsPartial` | src/utils/search_iask.js:279-281 | the timer closes the socket, and the `close` that follows resolves with the partial buffer |
| `IAsk.StoredIsFinalBuffer` | src/utils/search_iask.js:264-269 | an entry is stored only by `close`, and it holds the final, non-empty buffer |
| `IAsk.ResolvedNotEmpty` | src/utils/search_iask.js:271 | a session that resolves does so with non-empty text |
| `IAsk.RequestParams` | src/utils/search_iask.js:139-142 | the page request carries `mode` and `q`, and `options[detail_level]` exactly when a level is given |
| `IAsk.InvalidArgumentsFirst` | src/utils/search_iask.js:117-129 | invalid arguments, a level of `'default'` among them, reject with `Validate`'s message before the cache is purged or read |
| `IAsk.Search` | src/utils/search_iask.js:117-283 | has no contract of its own; `InvalidArgumentsFirst` and `SearchKeepsCache` state its outcomes and the cache it leaves, and `SearchIAsk` is the method it specifies |
| `IAsk.SearchKeepsCache` | src/utils/search_iask.js:128-272 | after a search the cache keeps distinct keys and holds no empty answer, and a resolved search gives non-empty text |
| `IAsk.Fetched` | src/utils/search_iask.js:149-283 | has no contract of its own; `FetchedKeepsCache` and `SessionKeepsCache` state what a cache miss leaves in the cache |
| `IAsk.FetchedKeepsCache` | src/utils/search_iask.js:149-272 | the same for the part of a search after a cache miss |
| `IAsk.SessionKeepsCache` | src/utils/search_iask.js:260-272 | writing what a session leaves keeps the keys distinct and the answers non-empty |
| `IAsk.SearchIAsk` | src/utils/search_iask.js:117-283 | the method over the shared cache settles and leaves the cache exactly as `Search` describes |
| `IAsk.Socket.constructor` | src/utils/search_iask.js:182-192 | a new socket starts with an empty buffer, a pending promise and the cache as it was |
| `IAsk.Socket.Message` | src/utils/search_iask.js:209-258 | the `message` handler moves the session by exactly one `Step` |
| `IAsk.Socket.TimerFired` | src/utils/search_iask.js:279-281 | the timer callback moves the session by exactly one `Step` |
| `IAsk.Socket.Error` | src/utils/search_iask.js:274-277 | the `error` handler moves the session by exactly one `Step` |
| `IAsk.Socket.Close` | src/utils/search_iask.js:260-272 | the `close` handler moves the session by exactly one `Step` and writes the cache as it stores |
| `IAsk.Socket.Deliver` | src/utils/search_iask.js:209-281 | any event moves the session by exactly one `Step` |
| `IAsk.RunSession` | src/utils/search_iask.js:182-282 | the socket's events in order settle as `Replay` does and leave the cache as `close` wrote it |
| `Felo.CacheKey` | src/utils/search_felo.js:61-63 | the key is `felo-` followed by the query |
| `Felo.CacheKeyInjective` | src/utils/search_felo.js:61-63 | distinct queries give distinct keys |
| `Felo.AnswerText` | src/utils/search_felo.js:154-172 | only a `data:` line carries an answer text |
| `Felo.Answers` | src/utils/search_felo.js:153-174 | what each line carries, in order |
| `Felo.Update` | src/utils/search_felo.js:157-168 | a line never shortens `streamingText` and adds at most one delta |
| `Felo.DeltasMeasureText` | src/utils/search_felo.js:157-168 | every delta is non-empty and their lengths add up to the length of `streamingText` |
| `Felo.TextIsSeen` | src/utils/search_felo.js:158-161 | `streamingText` is empty or one of the answer texts |
| `Felo.DeltasRebuildText` | src/utils/search_felo.js:197-208 | when every longer text extends the earlier ones, the deltas concatenate to the final text |
| `Felo.TrailingFragmentIgnored` | src/utils/search_felo.js:147-175 | a fragment after the last newline is never processed |
| `Felo.Yielded` | src/utils/search_felo.js:163-167 | raw mode yields `{text: delta}`, otherwise the delta itself |
| `Felo.Items` | src/utils/search_felo.js:163-167 | one yielded item per delta, in order |
| `Felo.CollectedItems` | src/utils/search_felo.js:200-206 | collecting the yielded items gives the concatenated deltas in both modes |
| `Felo.Failure` | src/utils/search_felo.js:185-188 | the thrown error is `Failed to search Felo: ` and the message |
| `Felo.StreamingIgnoresCache` | src/utils/search_felo.js:89-96 | a streaming search never reads the cache: what it yields does not depend on it |
| `Felo.CacheWrittenOnlyWithText` | src/utils/search_felo.js:177-183 | beyond the purge the cache changes only by one write under `felo-<prompt>` of the non-empty final text of a stream that ended without error |
| `Felo.Generate` | src/utils/search_felo.js:134-189 | has no contract of its own; `GenerateWrites` and `DeltasRebuildText` state what it writes and yields, and `StreamFunction` is the method it specifies |
| `Felo.GenerateWrites` | src/utils/search_felo.js:177-183 | the generator's only write is the non-empty final text of a complete stream |
| `Felo.FullTextReturned` | src/utils/search_felo.js:197-208 | without streaming, on a cache miss and a complete stream of cumulative texts, the search returns the final text and caches it when it is non-empty |
| `Felo.ReadStream` | src/utils/search_felo.js:143-175 | the chunk loop yields exactly the items of the reader over the complete lines of the concatenated chunks, so chunk boundaries do not matter |
| `Felo.ReadLines` | src/utils/search_felo.js:153-174 | the inner line loop advances the reader by exactly those lines |
| `Felo.StreamFunction` | src/utils/search_felo.js:134-189 | the drained generator yields, throws and writes the cache exactly as `Generate` describes |
| `Felo.Collect` | src/utils/search_felo.js:197-206 | the non-streaming loop builds exactly `Collected` of the items |
| `Felo.Search` | src/utils/search_felo.js:84-213 | has no contract of its own; `StreamingIgnoresCache`, `CacheWrittenOnlyWithText` and `FullTextReturned` state its replies and cache writes, and `SearchFelo` is the method it specifies |
| `Felo.SearchFelo` | src/utils/search_felo.js:84-213 | the method over the shared cache returns and leaves exactly what `Search` describes |
| `BraveAI.Validate` | src/utils/search_brave_ai.js:91-97 | a prompt passes exactly when it is a string of 1 to 5000 characters; a missing, non-string or empty prompt and a prompt that is too long get their own messages |
| `BraveAI.Flag` | src/utils/search_brave_ai.js:113 | the flag is `'true'` exactly for true and `'false'` exactly for false |
| `BraveAI.NewParams` | src/utils/search_brave_ai.js:106-118 | `/new` carries the locale, the key, `home` or `llmSuggest`, the prompt and the research flag, then `geoloc` exactly when it is truthy |
| `BraveAI.StreamParams` | src/utils/search_brave_ai.js:131-140 | `/stream` carries the conversation id, the prompt, the key, the locale, and the research flag twice |
| `BraveAI.ParamsAgree` | src/utils/search_brave_ai.js:106-140 | both requests carry the same prompt, key, locale and research flag |
| `BraveAI.Referer` | src/utils/search_brave_ai.js:142 | the referer is the Brave ask page |
| `BraveAI.OnlyTextDeltasCount` | src/utils/search_brave_ai.js:47-59 | only a non-blank line that parses to a `text_delta` event adds text |
| `BraveAI.DeltaFn` | src/utils/search_brave_ai.js:46-60 | the per-line contribution as the function the handler applies |
| `BraveAI.StreamText` | src/utils/search_brave_ai.js:41-60 | has no contract of its own; `StreamTextAppend`, `TextDelta`, `OnlyTextDeltasCount` and `HelloWorld` state what the lines add, and `LineReader.OnData` keeps it as its invariant |
| `BraveAI.StreamTextAppend` | src/utils/search_brave_ai.js:46-60 | the text of a sequence of lines is the text of its parts in turn |
| `BraveAI.TextDelta` | src/utils/search_brave_ai.js:53-56 | a `text_delta` event with a string `delta` adds that string |
| `BraveAI.HelloWorld` | src/__tests__/utils/search_brave_ai.test.js:20-42 | the two test events read as `"Hello world"` |
| `BraveAI.TrailingFragmentDropped` | src/utils/search_brave_ai.js:63 | a fragment after the last newline is dropped at `end` |
| `BraveAI.LineReader.constructor` | src/utils/search_brave_ai.js:38-39 | the reader starts with an empty buffer and empty text |
| `BraveAI.LineReader.OnData` | src/utils/search_brave_ai.js:41-61 | the `data` handler keeps the class invariant: the buffer is the fragment of everything received, and the text is the deltas of its complete lines |
| `BraveAI.Deltas` | src/utils/search_brave_ai.js:46-60 | the line loop adds exactly the concatenated deltas of the lines |
| `BraveAI.ReaderStep` | src/utils/search_brave_ai.js:42-44 | one chunk completes exactly the lines of the fragment and the chunk, and the text grows by their deltas |
| `BraveAI.ParseStream` | src/utils/search_brave_ai.js:36-66 | `parseStream` settles with the text of the complete lines of the concatenated chunks, or with the stream's error |
| `BraveAI.Classify` | src/utils/search_brave_ai.js:156-166 | a 429 status is the rate limit, `ECONNABORTED` the timeout, and anything else is wrapped with the prompt |
| `BraveAI.StatusError` | src/utils/search_brave_ai.js:122-124 | the error for a bad status names the status, and carries it only when asked to |
| `BraveAI.Run` | src/utils/search_brave_ai.js:91-97 | an invalid prompt is rejected before any request |
| `BraveAI.SearchBraveAI` | src/utils/search_brave_ai.js:80-167 | as written: an invalid prompt is rejected before any request |
| `BraveAI.Exchange` | src/utils/search_brave_ai.js:120-155 | has no contract of its own; `SuccessReadsStream`, `FailuresClassified` and `RateLimitUnreachable` state when it succeeds and how it fails |
| `BraveAI.SuccessReadsStream` | src/utils/search_brave_ai.js:120-155 | a search succeeds only after two 200 replies, a truthy conversation id and a stream without error, and then returns that stream's text |
| `BraveAI.FailuresClassified` | src/utils/search_brave_ai.js:156-166 | every failure inside the exchange comes out classified |
| `BraveAI.RateLimitUnreachable` | src/utils/search_brave_ai.js:103 | as written, a 429 reply to `/new` is reported as a failed initialisation that names the prompt, never as the rate limit |
| `BraveAI.SearchBraveAIIntended` | src/utils/search_brave_ai.js:157-159 | the corrected search, whose bad-status errors carry their status, also rejects an invalid prompt first |
| `BraveAI.RateLimitIntended` | src/utils/search_brave_ai.js:157-159 | in the corrected search a 429 reply is reported as the rate limit |
| `Monica.RemoveDoubleStars` | src/utils/search_monica.js:47 | the result never holds `**`; a text without `*` is unchanged |
| `Monica.CollapseKeepsStarsApart` | src/utils/search_monica.js:50 | collapsing blank lines does not bring two asterisks together |
| `Monica.TrimKeepsStarsApart` | src/utils/search_monica.js:53 | trimming does not bring two asterisks together |
| `Monica.FormatResponse` | src/utils/search_monica.js:45-54 | the formatted text is trimmed |
| `Monica.FormatRemovesBold` | src/utils/search_monica.js:45-54 | the formatted text never holds `**` |
| `Monica.Event` | src/utils/search_monica.js:89-92 | an event comes only from a `data: ` line whose rest, from character 6, parses |
| `Monica.SessionOf` | src/utils/search_monica.js:94-96 | only a truthy `session_id` updates the session |
| `Monica.LatestAppend` | src/utils/search_monica.js:94-96 | later updates start from where earlier ones left the session id |
| `Monica.NoSessionKeepsInit` | src/utils/search_monica.js:94-96 | without an update the session id stays as it was |
| `Monica.LastSessionWins` | src/utils/search_monica.js:94-96 | the session id is the value of the last line that set one |
| `Monica.RequestBody` | src/utils/search_monica.js:58-65 | the payload carries the prompt and the client's current session id |
| `Monica.DataLineText` | src/utils/search_monica.js:98-100 | a data line with a truthy string `text` adds it |
| `Monica.MalformedLineText` | src/utils/search_monica.js:101-103 | a data line that does not parse adds nothing |
| `Monica.BoundaryLosesLine` | src/utils/search_monica.js:86-92 | each chunk is split on its own, so a data line cut by a chunk boundary is lost |
| `Monica.Answer` | src/utils/search_monica.js:56-120 | has no contract of its own; `AnswerOutcomes` states its outcomes and the session id it leaves, and `MonicaClient.Search` is the method it specifies |
| `Monica.AnswerOutcomes` | src/utils/search_monica.js:74-119 | text comes only from a 2xx reply whose stream ended without error, and it is trimmed and free of `**`; a stream error rejects with that error; a failed POST keeps the session id and is reported as `Monica API request failed: …` |
| `Monica.MonicaClient.constructor` | src/utils/search_monica.js:6-10 | a new client has the given timeout and client id and the empty session id |
| `Monica.MonicaClient.OnData` | src/utils/search_monica.js:86-106 | one chunk sets the session id to the last truthy one among its lines and returns the text its lines add |
| `Monica.MonicaClient.Receive` | src/utils/search_monica.js:83-106 | the chunks in order leave the session id and `fullText` as the lines of all chunks describe |
| `Monica.MonicaClient.Search` | src/utils/search_monica.js:56-120 | `search` returns and leaves the session id exactly as `Answer` describes |
| `Monica.SearchMonica` | src/utils/search_monica.js:128-131 | a fresh client per call, so every request carries the empty session id |
| `FetchUrlTool.OrElse` | src/tools/fetchUrlTool.js:57-64 | a default applies only when the argument is absent |
| `FetchUrlTool.Resolve` | src/tools/fetchUrlTool.js:57-64 | the defaults are `maxLength` 10000, every flag `true` and the fixed list of excluded tags; given arguments are kept |
| `FetchUrlTool.Truncate` | src/tools/fetchUrlTool.js:77-80 | content that fits is unchanged; longer content becomes its first `maxLength` characters (none for a negative limit) followed by the truncation notice |
| `FetchUrlTool.ExtractionText` | src/tools/fetchUrlTool.js:87 | `Enabled` exactly for a truthy flag, `Disabled` otherwise |
| `FetchUrlTool.LinksText` | src/tools/fetchUrlTool.js:88 | `Yes` exactly for a truthy flag, `No` otherwise |
| `FetchUrlTool.ImagesText` | src/tools/fetchUrlTool.js:89 | `Yes (as alt text)` exactly for a truthy flag, `No` otherwise |
| `FetchUrlTool.LengthLine` | src/tools/fetchUrlTool.js:90 | the line reports the original length, and names the limit exactly when the content was cut |
| `FetchUrlTool.Metadata` | src/tools/fetchUrlTool.js:83-92 | has no contract of its own; `MetadataLines` and `MetadataReadsBack` state its lines |
| `FetchUrlTool.MetadataLines` | src/tools/fetchUrlTool.js:83-92 | the block is ten lines between its `---` rules, with the URL line and the length line in place |
| `FetchUrlTool.LengthLineHasNoNewline` | src/tools/fetchUrlTool.js:90 | the length line is one line |
| `FetchUrlTool.MetadataReadsBack` | src/tools/fetchUrlTool.js:83-92 | for a URL without a newline, splitting the block yields ten lines: the fourth is the URL line, the eighth opens with the original length, and the eighth goes on to name the limit exactly when the content was cut |
| `FetchUrlTool.Handle` | src/tools/fetchUrlTool.js:68-113 | the result is an error exactly when the fetch failed, and then its text is `Error fetching URL: ` and the message; one text part either way |
| `FetchUrlTool.HandleSucceeds` | src/tools/fetchUrlTool.js:68-101 | a successful fetch gives the truncated content and the block; content that fits opens the text, and cut content keeps its first `maxLength` characters before the notice |

## Left out

- The network, cookies, user agents, the HTTPS agent, request headers and timeouts.
  Replies, streams and socket events are inputs, and a timeout is an event.
- Randomness: the Brave symmetric key, Monica's `task_id` and client id, and every `uuidv4` value are parameters.
- The page fetch and token scraping of IAsk (`phxId`, the CSRF token, cookies, the
  `phx_join` frame) are reduced to a token reader over the page.
- `fetchUrlContent` and `extractUrlMetadata`: the fetch-url handler takes the fetcher
  as a parameter that returns text or an error message.
- Lengths count Dafny characters, while JavaScript counts UTF-16 code units. The two
  agree only on text within the Basic Multilingual Plane.
- Stream chunks are taken as already-decoded text; the byte-to-string decoding of
  `chunk.toString()` is not modelled.
- Event-loop ordering: handlers run one after another over an ordered list of events,
  and nothing is delivered to the IAsk socket after its `close` event.
- IAsk events after `close` are ignored.
- Brave AI options: `enableResearch` is taken as a boolean, so the truthiness of a
  non-boolean value is not modelled.
- `FetchUrlTool.Resolve`: `maxLength` is taken as an integer, so a non-numeric or
  fractional `maxLength` is not modelled; the URL is taken as a string.
- Console logging in every handler.
- Monica: a truthy non-string `text` is added through `String(v)` (`Json.ToJsString`).
- IAsk.OnMessage: a truthy chunk that is not a string is taken to throw into the
  `catch`. Without a tag in `String(chunk)` it has no `replace`, and with one
  `formatHtml` hands a non-string to `cheerio.load`, whose handling of such input (it
  links the entries as nodes) is not modelled beyond that throw.
- Json: numbers from `JSON.parse` are integers (`JNum(int)`) in every parser that
  uses the module (Brave AI, Felo, IAsk, Monica), so fractional and exponent numbers
  and their `String(v)` rendering are not modelled.
- Felo: the generator is modelled drained to its end. A caller that stops early, and
  the interleaving of yields with the caller, are not modelled.
- The thin tool wrappers (`searchTool.js`, `iaskTool.js`, `braveTool.js`,
  `monicaTool.js`, `feloTool.js`, `metadataTool.js`) and the server glue are not part
  of this model.

## Findings

| source | as written | input that shows it | evidently intended | confidence | as-written member | corrected member |
|---|---|---|---|---|---|---|
| src/utils/search_brave_ai.js:103 | `validateStatus` accepts statuses 200–499, so a 429 reply to `/new` or `/stream` is returned, not thrown. The status checks at lines 122-124 and 151-153 then throw a plain `Error` without `response`, and `error.response?.status === 429` at line 157 never holds | a `/new` request answered with status 429 | a 429 reply reported as `Brave AI rate limit: too many requests` | high, not executed | `BraveAI.RateLimitUnreachable` | `BraveAI.RateLimitIntended` |
