/**
 * The IAsk search: argument validation, the cache key, the depth-first `cacheFind`
 * over a LiveView diff, the Markdown-ish `formatHtml`, and the socket handlers that
 * grow `buffer` message by message and settle the search on `close`.
 *
 * `JSON.parse`, cheerio's selection of the block elements of a fragment and turndown
 * are parameters (`Env`); the socket is the ordered list of events it delivers.
 */
module IAsk {
  import opened Wrappers
  import opened JsText
  import opened Json
  import opened Http
  import opened TtlCache

  const VALID_MODES: seq<string> := ["question", "academic", "forums", "wiki", "thinking"]
  const VALID_DETAIL_LEVELS: seq<string> := ["concise", "detailed", "comprehensive"]

  /** `detailLevel || 'default'`: the level when one is given (`null` and `''` are not). */
  function LevelOrDefault(detailLevel: Option<string>): string {
    if Given(detailLevel) then detailLevel.value else "default"
  }

  /** The argument checks, in order: the mode, then a given detail level. `None` when
      both pass, else the message of the thrown error. */
  function Validate(mode: string, detailLevel: Option<string>): (r: Option<string>)
    ensures r.None? <==>
      (mode in VALID_MODES && (!Given(detailLevel) || detailLevel.value in VALID_DETAIL_LEVELS))
    ensures mode !in VALID_MODES ==>
      r == Some("Invalid mode: " + mode + ". Valid modes are: " + JoinWith(VALID_MODES, ", "))
    ensures mode in VALID_MODES && r.Some? ==>
      r == Some("Invalid detail level: " + detailLevel.value + ". Valid levels are: " + JoinWith(VALID_DETAIL_LEVELS, ", "))
  {
    if mode !in VALID_MODES then
      Some("Invalid mode: " + mode + ". Valid modes are: " + JoinWith(VALID_MODES, ", "))
    else if Given(detailLevel) && detailLevel.value !in VALID_DETAIL_LEVELS then
      Some("Invalid detail level: " + detailLevel.value + ". Valid levels are: " + JoinWith(VALID_DETAIL_LEVELS, ", "))
    else None
  }

  /** `getCacheKey`. */
  function CacheKey(query: string, mode: string, detailLevel: Option<string>): (r: string)
    ensures StartsWith(r, "iask-" + mode + "-" + LevelOrDefault(detailLevel) + "-")
    ensures |r| == 7 + |mode| + |LevelOrDefault(detailLevel)| + |query|
  {
    var head := "iask-" + mode + "-" + LevelOrDefault(detailLevel) + "-";
    var r := head + query;
    assert r[..|head|] == head;
    r
  }

  /** The index of the first `-` in `s`, or `|s|`. */
  function FirstDash(s: string): (i: nat)
    ensures i <= |s|
  {
    if s == [] || s[0] == '-' then 0 else 1 + FirstDash(s[1..])
  }

  lemma {:induction false} FirstDashAfter(a: string, rest: string)
    requires '-' !in a
    ensures FirstDash(a + "-" + rest) == |a|
  {
    if a != [] {
      assert (a + "-" + rest)[1..] == a[1..] + "-" + rest;
      FirstDashAfter(a[1..], rest);
    }
  }

  /** A dash-free head followed by `-` splits off uniquely. */
  lemma DashSplit(a: string, r: string, b: string, t: string)
    requires '-' !in a && '-' !in b && a + "-" + r == b + "-" + t
    ensures a == b && r == t
  {
    FirstDashAfter(a, r);
    FirstDashAfter(b, t);
    var k := a + "-" + r;
    assert a == k[..|a|] == b;
    assert r == k[|a| + 1..] == t;
  }

  /** A given level is checked against the list itself, so `'default'` spelt out is
      rejected like any other unknown level. */
  lemma DefaultLevelRejected(mode: string)
    requires mode in VALID_MODES
    ensures Validate(mode, Some("default")) ==
      Some("Invalid detail level: " + "default" + ". Valid levels are: " + JoinWith(VALID_DETAIL_LEVELS, ", "))
  {
    assert "default"[1] != "concise"[1] && "default"[1] != "comprehensive"[1];
    assert "default"[2] != "detailed"[2];
    assert "default" !in VALID_DETAIL_LEVELS;
  }

  /** No valid mode or level, and not `default`, holds a `-`. */
  lemma ValidHasNoDash(mode: string, detailLevel: Option<string>)
    requires Validate(mode, detailLevel).None?
    ensures '-' !in mode && '-' !in LevelOrDefault(detailLevel)
  {
    assert mode in VALID_MODES;
    assert mode == "question" || mode == "academic" || mode == "forums" || mode == "wiki" || mode == "thinking";
    var d := LevelOrDefault(detailLevel);
    assert d == "default" || d == "concise" || d == "detailed" || d == "comprehensive";
  }

  /** For a valid mode and level none of which holds a `-`, the key determines the
      query, the mode and the level (`null` and `''` both stand for `default`). */
  lemma CacheKeyInjective(q1: string, m1: string, l1: Option<string>, q2: string, m2: string, l2: Option<string>)
    requires Validate(m1, l1).None? && Validate(m2, l2).None?
    requires CacheKey(q1, m1, l1) == CacheKey(q2, m2, l2)
    ensures q1 == q2 && m1 == m2 && LevelOrDefault(l1) == LevelOrDefault(l2)
  {
    ValidHasNoDash(m1, l1);
    ValidHasNoDash(m2, l2);
    KeyAfterPrefix(q1, m1, l1);
    KeyAfterPrefix(q2, m2, l2);
    var d1, d2 := LevelOrDefault(l1), LevelOrDefault(l2);
    DashSplit(m1, d1 + "-" + q1, m2, d2 + "-" + q2);
    DashSplit(d1, q1, d2, q2);
  }

  lemma KeyAfterPrefix(q: string, m: string, l: Option<string>)
    ensures CacheKey(q, m, l)[5..] == m + "-" + (LevelOrDefault(l) + "-" + q)
  {
    var d := LevelOrDefault(l);
    assert CacheKey(q, m, l) == "iask-" + (m + "-" + (d + "-" + q));
  }

  /** `<p>` at `i`, one or more characters other than line terminators, then `</p>`
      at `j`. */
  predicate ParagraphSpan(s: string, i: int, j: int) {
    0 <= i && i + 3 < j && j + 4 <= |s| && s[i..i + 3] == "<p>" && s[j..j + 4] == "</p>" &&
    forall k :: i + 3 <= k < j ==> !IsLineTerminator(s[k])
  }

  /** `/<p>.+?<\/p>/.test(s)`. */
  predicate HasParagraph(s: string) {
    exists i, j | 0 <= i < |s| && 0 <= j < |s| :: ParagraphSpan(s, i, j)
  }

  /** A single character holds no paragraph, so a string diff never yields one. */
  lemma ShortHasNoParagraph(s: string)
    requires |s| < 8
    ensures !HasParagraph(s)
  {
  }

  /** The strings of a tree in the order `cacheFind` visits them: in each entry the
      nested containers first, then the entry itself when it is a string. */
  ghost function Strings(j: Json): seq<string>
    decreases j, 1
  {
    StringsFrom(j, 0)
  }

  ghost function StringsFrom(j: Json, i: nat): seq<string>
    decreases j, 0, Count(j) - i
  {
    if i >= Count(j) then []
    else
      var v := ValueAt(j, i);
      (if IsContainer(v) then Strings(v) else []) + (if v.JStr? then [v.s] else []) + StringsFrom(j, i + 1)
  }

  /** `cacheFind(diff)`: the trimmed turndown conversion of the first string holding a
      paragraph, where a nested search whose answer is empty counts as no answer. */
  function CacheFind(j: Json, turndown: string -> string): (r: Option<string>)
    decreases j, 1
  {
    FindFrom(j, 0, turndown)
  }

  function FindFrom(j: Json, i: nat, turndown: string -> string): (r: Option<string>)
    decreases j, 0, Count(j) - i
  {
    if i >= Count(j) then None
    else
      var v := ValueAt(j, i);
      var nested := if IsContainer(v) then CacheFind(v, turndown) else None;
      if nested.Some? && nested.value != "" then nested
      else if v.JStr? && HasParagraph(v.s) then Some(Trim(turndown(v.s)))
      else FindFrom(j, i + 1, turndown)
  }

  /** `value` is the trimmed conversion of one of `strs` that holds a paragraph. */
  ghost predicate Explained(value: string, strs: seq<string>, turndown: string -> string) {
    exists s :: s in strs && HasParagraph(s) && value == Trim(turndown(s))
  }

  /** Whatever `cacheFind` returns is the trimmed conversion of a string of the tree
      that holds a paragraph. */
  lemma {:induction false} CacheFindSound(j: Json, turndown: string -> string)
    ensures var r := CacheFind(j, turndown);
      r.Some? ==> exists s :: s in Strings(j) && HasParagraph(s) && r.value == Trim(turndown(s))
    decreases j, 1
  {
    FindFromSound(j, 0, turndown);
  }

  lemma {:induction false} FindFromSound(j: Json, i: nat, turndown: string -> string)
    ensures var r := FindFrom(j, i, turndown); r.Some? ==> Explained(r.value, StringsFrom(j, i), turndown)
    decreases j, 0, Count(j) - i
  {
    if i < Count(j) {
      var v := ValueAt(j, i);
      if IsContainer(v) {
        CacheFindSound(v, turndown);
      }
      FindFromSound(j, i + 1, turndown);
      FindFromStep(j, i, turndown);
    }
  }

  /** One step of the search: the answer comes from the entry's own strings or from
      the entries after it. */
  lemma FindFromStep(j: Json, i: nat, turndown: string -> string)
    requires i < Count(j)
    requires var v := ValueAt(j, i); var nested := CacheFind(v, turndown);
      IsContainer(v) && nested.Some? ==> Explained(nested.value, Strings(v), turndown)
    requires var r := FindFrom(j, i + 1, turndown);
      r.Some? ==> Explained(r.value, StringsFrom(j, i + 1), turndown)
    ensures var r := FindFrom(j, i, turndown); r.Some? ==> Explained(r.value, StringsFrom(j, i), turndown)
  {
    var v := ValueAt(j, i);
    var mine := if IsContainer(v) then Strings(v) else [];
    var own := if v.JStr? then [v.s] else [];
    var later := StringsFrom(j, i + 1);
    var all := StringsFrom(j, i);
    assert all == mine + own + later;
    var r := FindFrom(j, i, turndown);
    if r.Some? {
      var nested := if IsContainer(v) then CacheFind(v, turndown) else None;
      if nested.Some? && nested.value != "" {
        ExplainedLeft(r.value, mine, own, turndown);
        ExplainedLeft(r.value, mine + own, later, turndown);
      } else if v.JStr? && HasParagraph(v.s) {
        assert v.s in all;
      } else {
        ExplainedRight(r.value, mine + own, later, turndown);
      }
    }
  }

  lemma ExplainedLeft(value: string, a: seq<string>, b: seq<string>, turndown: string -> string)
    requires Explained(value, a, turndown)
    ensures Explained(value, a + b, turndown)
  {
    var s :| s in a && HasParagraph(s) && value == Trim(turndown(s));
    assert s in a + b;
  }

  lemma ExplainedRight(value: string, a: seq<string>, b: seq<string>, turndown: string -> string)
    requires Explained(value, b, turndown)
    ensures Explained(value, a + b, turndown)
  {
    var s :| s in b && HasParagraph(s) && value == Trim(turndown(s));
    assert s in a + b;
  }

  /** A tree none of whose strings holds a paragraph yields `null`. */
  lemma {:induction false} CacheFindNone(j: Json, turndown: string -> string)
    requires forall s :: s in Strings(j) ==> !HasParagraph(s)
    ensures CacheFind(j, turndown) == None
    decreases j, 1
  {
    FindFromNone(j, 0, turndown);
  }

  lemma {:induction false} FindFromNone(j: Json, i: nat, turndown: string -> string)
    requires forall s :: s in StringsFrom(j, i) ==> !HasParagraph(s)
    ensures FindFrom(j, i, turndown) == None
    decreases j, 0, Count(j) - i
  {
    if i < Count(j) {
      var v := ValueAt(j, i);
      var here := (if IsContainer(v) then Strings(v) else []) + (if v.JStr? then [v.s] else []);
      assert StringsFrom(j, i) == here + StringsFrom(j, i + 1);
      if IsContainer(v) {
        CacheFindNone(v, turndown);
      }
      FindFromNone(j, i + 1, turndown);
    }
  }

  /** The first string of `ss` that holds a paragraph. */
  ghost function FirstPara(ss: seq<string>): Option<string> {
    if ss == [] then None
    else if HasParagraph(ss[0]) then Some(ss[0])
    else FirstPara(ss[1..])
  }

  /** What `FirstPara` finds is a paragraph string of `ss`. */
  lemma {:induction false} FirstParaIn(ss: seq<string>)
    ensures var r := FirstPara(ss); r.Some? ==> r.value in ss && HasParagraph(r.value)
  {
    if ss != [] && !HasParagraph(ss[0]) {
      FirstParaIn(ss[1..]);
      var r := FirstPara(ss);
      if r.Some? {
        assert r.value in ss[1..];
      }
    }
  }

  /** Every paragraph string of `ss` converts to non-blank text, so no nested
      search answers `''` and is passed over. */
  ghost predicate NonBlank(ss: seq<string>, turndown: string -> string) {
    forall s :: s in ss && HasParagraph(s) ==> Trim(turndown(s)) != ""
  }

  ghost function Converted(p: Option<string>, turndown: string -> string): Option<string> {
    if p.Some? then Some(Trim(turndown(p.value))) else None
  }

  lemma {:induction false} FirstParaAppend(a: seq<string>, b: seq<string>)
    ensures FirstPara(a + b) == if FirstPara(a).Some? then FirstPara(a) else FirstPara(b)
  {
    if a == [] {
      assert a + b == b;
    } else {
      assert (a + b)[0] == a[0] && (a + b)[1..] == a[1..] + b;
      FirstParaAppend(a[1..], b);
    }
  }

  /** `cacheFind` answers with the trimmed conversion of the first paragraph string in
      the order it visits the tree, and `null` when there is none. */
  lemma {:induction false} CacheFindFirst(j: Json, turndown: string -> string)
    requires NonBlank(Strings(j), turndown)
    ensures CacheFind(j, turndown) == Converted(FirstPara(Strings(j)), turndown)
    decreases j, 1
  {
    FindFromFirst(j, 0, turndown);
  }

  lemma {:induction false} FindFromFirst(j: Json, i: nat, turndown: string -> string)
    requires NonBlank(StringsFrom(j, i), turndown)
    ensures FindFrom(j, i, turndown) == Converted(FirstPara(StringsFrom(j, i)), turndown)
    decreases j, 0, Count(j) - i
  {
    if i < Count(j) {
      var v := ValueAt(j, i);
      var mine := if IsContainer(v) then Strings(v) else [];
      var own := if v.JStr? then [v.s] else [];
      var later := StringsFrom(j, i + 1);
      assert StringsFrom(j, i) == mine + own + later;
      NonBlankSplit(mine + own, later, turndown);
      NonBlankSplit(mine, own, turndown);
      if IsContainer(v) {
        CacheFindFirst(v, turndown);
      }
      FindFromFirst(j, i + 1, turndown);
      FindFromFirstStep(j, i, turndown);
    }
  }

  lemma NonBlankSplit(a: seq<string>, b: seq<string>, turndown: string -> string)
    requires NonBlank(a + b, turndown)
    ensures NonBlank(a, turndown) && NonBlank(b, turndown)
  {
    forall s | s in a ensures s in a + b { }
    forall s | s in b ensures s in a + b { }
  }

  /** One step of the search: the first paragraph string of the entry's own strings,
      when there is one, otherwise that of the entries after it. */
  lemma FindFromFirstStep(j: Json, i: nat, turndown: string -> string)
    requires i < Count(j)
    requires var v := ValueAt(j, i);
      IsContainer(v) ==>
        NonBlank(Strings(v), turndown) && CacheFind(v, turndown) == Converted(FirstPara(Strings(v)), turndown)
    requires FindFrom(j, i + 1, turndown) == Converted(FirstPara(StringsFrom(j, i + 1)), turndown)
    ensures FindFrom(j, i, turndown) == Converted(FirstPara(StringsFrom(j, i)), turndown)
  {
    var v := ValueAt(j, i);
    if IsContainer(v) {
      ContainerStep(j, i, turndown);
    } else {
      var s := if v.JStr? then v.s else "";
      StringsFromEntry(j, i);
      FindFromEntry(j, i, turndown);
      EntryFirst(v.JStr?, s, StringsFrom(j, i + 1), FindFrom(j, i + 1, turndown), turndown);
    }
  }

  lemma StringsFromEntry(j: Json, i: nat)
    requires i < Count(j) && !IsContainer(ValueAt(j, i))
    ensures var v := ValueAt(j, i);
      StringsFrom(j, i) == (if v.JStr? then [v.s] else []) + StringsFrom(j, i + 1)
  {
  }

  lemma FindFromEntry(j: Json, i: nat, turndown: string -> string)
    requires i < Count(j) && !IsContainer(ValueAt(j, i))
    ensures var v := ValueAt(j, i);
      FindFrom(j, i, turndown) ==
        if v.JStr? && HasParagraph(v.s) then Some(Trim(turndown(v.s))) else FindFrom(j, i + 1, turndown)
  {
  }

  /** An entry that is a string holding a paragraph answers; any other plain entry
      passes the search on. */
  lemma EntryFirst(isString: bool, s: string, later: seq<string>, rest: Option<string>, turndown: string -> string)
    requires rest == Converted(FirstPara(later), turndown)
    ensures (if isString && HasParagraph(s) then Some(Trim(turndown(s))) else rest) ==
      Converted(FirstPara((if isString then [s] else []) + later), turndown)
  {
    if isString {
      FirstParaCons(s, later);
    } else {
      assert [] + later == later;
    }
  }

  lemma FirstParaCons(s: string, later: seq<string>)
    ensures FirstPara([s] + later) == if HasParagraph(s) then Some(s) else FirstPara(later)
  {
    assert ([s] + later)[0] == s && ([s] + later)[1..] == later;
  }

  lemma ContainerStep(j: Json, i: nat, turndown: string -> string)
    requires i < Count(j) && IsContainer(ValueAt(j, i))
    requires var v := ValueAt(j, i);
      NonBlank(Strings(v), turndown) && CacheFind(v, turndown) == Converted(FirstPara(Strings(v)), turndown)
    requires FindFrom(j, i + 1, turndown) == Converted(FirstPara(StringsFrom(j, i + 1)), turndown)
    ensures FindFrom(j, i, turndown) == Converted(FirstPara(StringsFrom(j, i)), turndown)
  {
    var v := ValueAt(j, i);
    StringsFromContainer(j, i);
    FindFromContainer(j, i, turndown);
    NestedFirst(Strings(v), StringsFrom(j, i + 1), CacheFind(v, turndown), FindFrom(j, i + 1, turndown), turndown);
  }

  lemma StringsFromContainer(j: Json, i: nat)
    requires i < Count(j) && IsContainer(ValueAt(j, i))
    ensures StringsFrom(j, i) == Strings(ValueAt(j, i)) + StringsFrom(j, i + 1)
  {
    var v := ValueAt(j, i);
    assert !v.JStr?;
  }

  lemma FindFromContainer(j: Json, i: nat, turndown: string -> string)
    requires i < Count(j) && IsContainer(ValueAt(j, i))
    ensures var nested := CacheFind(ValueAt(j, i), turndown);
      FindFrom(j, i, turndown) == if nested.Some? && nested.value != "" then nested else FindFrom(j, i + 1, turndown)
  {
  }

  /** A nested answer that is the first paragraph of `mine` is never blank, so it wins
      exactly when `mine` has a paragraph string. */
  lemma NestedFirst(mine: seq<string>, later: seq<string>, nested: Option<string>, rest: Option<string>,
                    turndown: string -> string)
    requires NonBlank(mine, turndown)
    requires nested == Converted(FirstPara(mine), turndown)
    requires rest == Converted(FirstPara(later), turndown)
    ensures (if nested.Some? && nested.value != "" then nested else rest) == Converted(FirstPara(mine + later), turndown)
  {
    FirstParaAppend(mine, later);
    FirstParaIn(mine);
  }

  /** The first entry, when it is a string holding a paragraph and no nested search
      came before it, decides the answer. */
  lemma FirstParagraphWins(j: Json, turndown: string -> string)
    requires Count(j) > 0 && ValueAt(j, 0).JStr? && HasParagraph(ValueAt(j, 0).s)
    ensures CacheFind(j, turndown) == Some(Trim(turndown(ValueAt(j, 0).s)))
  {
  }

  /** `/<[^>]+>/`: a `<`, one or more characters other than `>`, then `>`. */
  predicate TagSpan(s: string, i: int, j: int) {
    0 <= i && i + 1 < j < |s| && s[i] == '<' && s[j] == '>' && forall k :: i < k < j ==> s[k] != '>'
  }

  predicate HasTag(s: string) {
    exists i, j | 0 <= i < |s| && 0 <= j < |s| :: TagSpan(s, i, j)
  }

  lemma TagShifts(s: string, i: int, j: int)
    requires |s| > 0 && TagSpan(s[1..], i, j)
    ensures TagSpan(s, i + 1, j + 1)
  {
    assert forall k :: i + 1 < k < j + 1 ==> s[k] == s[1..][k - 1];
  }

  /** `s.replace(/<br\/>/g, '\n')`. Since `<br/>` is itself a tag, the replacement
      changes only text that holds a tag. */
  function ReplaceBr(s: string): (r: string)
    ensures r != s ==> HasTag(s)
  {
    if |s| >= 5 && s[..5] == "<br/>" then
      assert TagSpan(s, 0, 4);
      "\n" + ReplaceBr(s[5..])
    else if s == [] then []
    else
      var rest := ReplaceBr(s[1..]);
      assert rest != s[1..] ==> HasTag(s) by {
        if rest != s[1..] {
          var i, j :| TagSpan(s[1..], i, j);
          TagShifts(s, i, j);
        }
      }
      assert s == [s[0]] + s[1..];
      [s[0]] + rest
  }

  /** On the primary path a chunk without a tag is appended as it is. */
  lemma UntaggedChunkUnchanged(s: string)
    requires !HasTag(s)
    ensures ReplaceBr(s) == s
  {
  }

  /** The attribution a paragraph may open with. */
  const ATTRIBUTION: string := "According to " + "Ask AI & Question AI www.iAsk.ai:"

  function AsciiLower(c: char): char {
    if 'A' <= c <= 'Z' then (c as int + 32) as char else c
  }

  /** `s` starts with `p` under the `i` flag (only ASCII letters fold here). */
  predicate StartsCaseless(s: string, p: string) {
    |p| <= |s| && forall k :: 0 <= k < |p| ==> AsciiLower(s[k]) == AsciiLower(p[k])
  }

  /** `t.replace(/^According to Ask AI & Question AI www\.iAsk\.ai:\s*\/i, '')`. */
  function StripAttribution(t: string): (r: string)
    ensures !StartsCaseless(t, ATTRIBUTION) ==> r == t
    ensures StartsCaseless(t, ATTRIBUTION) ==> |r| <= |t| - |ATTRIBUTION| && (r != [] ==> !IsSpace(r[0]))
  {
    if StartsCaseless(t, ATTRIBUTION) then TrimStart(t[|ATTRIBUTION|..]) else t
  }

  /** The length of the run of ASCII digits (`\d`) at the start of `s`. */
  function DigitRun(s: string): (n: nat)
    ensures n <= |s|
    ensures forall k :: 0 <= k < n ==> '0' <= s[k] <= '9'
    ensures n == |s| || !('0' <= s[n] <= '9')
  {
    if s != [] && '0' <= s[0] <= '9' then 1 + DigitRun(s[1..]) else 0
  }

  lemma DigitRunIs(s: string, n: nat)
    requires n <= |s| && (n == |s| || !('0' <= s[n] <= '9'))
    requires forall k :: 0 <= k < n ==> '0' <= s[k] <= '9'
    ensures DigitRun(s) == n
  {
  }

  /** The length of a footnote marker `[n](#fn:n 'see footnote')` at the start of `s`,
      or 0. */
  function MarkerLen(s: string): (n: nat)
    ensures n <= |s|
    ensures n > 0 ==> n >= 25 && s[0] == '['
  {
    if s == [] || s[0] != '[' then 0
    else
      var d1 := DigitRun(s[1..]);
      var j := 1 + d1;
      if d1 == 0 || j + 6 > |s| || s[j..j + 6] != "](#fn:" then 0
      else
        var d2 := DigitRun(s[j + 6..]);
        var k := j + 6 + d2;
        if d2 == 0 || k + 16 > |s| || s[k..k + 16] != " 'see footnote')" then 0
        else k + 16
  }

  /** `s.replace(/\[\d+\]\(#fn:\d+ 'see footnote'\)/g, '')`: one pass from the left,
      deleting each marker where it starts. */
  function RemoveMarkers(s: string): (r: string)
    ensures |r| <= |s|
    ensures '[' !in s ==> r == s
    decreases |s|
  {
    if s == [] then []
    else
      var n := MarkerLen(s);
      if n > 0 then RemoveMarkers(s[n..])
      else
        assert '[' !in s ==> '[' !in s[1..] by {
          assert forall k :: 0 <= k < |s| - 1 ==> s[1..][k] == s[k + 1];
        }
        assert s == [s[0]] + s[1..];
        [s[0]] + RemoveMarkers(s[1..])
  }

  /** A marker at the front is deleted and the text after it is processed alone. */
  lemma MarkerDeleted(d1: string, d2: string, t: string)
    requires |d1| > 0 && |d2| > 0
    requires forall k :: 0 <= k < |d1| ==> '0' <= d1[k] <= '9'
    requires forall k :: 0 <= k < |d2| ==> '0' <= d2[k] <= '9'
    ensures RemoveMarkers("[" + d1 + "](#fn:" + d2 + " 'see footnote')" + t) == RemoveMarkers(t)
  {
    var s := "[" + d1 + "](#fn:" + d2 + " 'see footnote')" + t;
    MarkerLenIs(d1, d2, t, s);
  }

  /** The marker at the front of `s` is recognised with its full length. */
  lemma MarkerLenIs(d1: string, d2: string, t: string, s: string)
    requires |d1| > 0 && |d2| > 0
    requires forall k :: 0 <= k < |d1| ==> '0' <= d1[k] <= '9'
    requires forall k :: 0 <= k < |d2| ==> '0' <= d2[k] <= '9'
    requires s == "[" + d1 + "](#fn:" + d2 + " 'see footnote')" + t
    ensures MarkerLen(s) == 23 + |d1| + |d2| && s[23 + |d1| + |d2|..] == t
  {
    var j := 1 + |d1|;
    var k := j + 6 + |d2|;
    Window("[", d1, s[j..], s);
    Window("[" + d1, "](#fn:", s[j + 6..], s);
    Window("[" + d1 + "](#fn:", d2, s[k..], s);
    Window("[" + d1 + "](#fn:" + d2, " 'see footnote')", t, s);
    DigitRunOf(d1, s[j..]);
    DigitRunOf(d2, s[k..]);
  }

  /** `s` is `pre`, then `w`, then `post`. */
  lemma Window(pre: string, w: string, post: string, s: string)
    requires s == pre + w + post
    ensures |s| == |pre| + |w| + |post|
    ensures s[|pre|..] == w + post && s[|pre|..|pre| + |w|] == w && s[|pre| + |w|..] == post
  {
  }

  lemma DigitRunOf(d: string, rest: string)
    requires forall k :: 0 <= k < |d| ==> '0' <= d[k] <= '9'
    requires rest == [] || !('0' <= rest[0] <= '9')
    ensures DigitRun(d + rest) == |d|
  {
    DigitRunIs(d + rest, |d|);
  }

  /** A text that does not open with `[` keeps its first character. */
  lemma KeepsFirst(s: string)
    requires s != [] && s[0] != '['
    ensures RemoveMarkers(s) == [s[0]] + RemoveMarkers(s[1..])
  {
    assert MarkerLen(s) == 0;
  }

  /** The first character of a `[`-free text and the text after it. */
  lemma PlainHead(p: string, t: string, u: string)
    requires '[' !in p && p != []
    ensures (p + t) != [] && (p + t)[0] == p[0] != '['
    ensures (p + t)[1..] == p[1..] + t && '[' !in p[1..]
    ensures p + u == [p[0]] + (p[1..] + u)
  {
    assert p[0] in p;
    forall c | c in p[1..] ensures c in p { }
  }

  /** Text without a `[` starts no marker, so it is kept and the scan goes on after it. */
  lemma {:induction false} PlainPrefixKept(p: string, t: string)
    requires '[' !in p
    ensures RemoveMarkers(p + t) == p + RemoveMarkers(t)
    decreases |p|
  {
    if p == [] {
      assert p + t == t;
    } else {
      PlainHead(p, t, RemoveMarkers(t));
      KeepsFirst(p + t);
      PlainPrefixKept(p[1..], t);
    }
  }

  /** The footnote marker `[d1](#fn:d2 'see footnote')`. */
  function Marker(d1: string, d2: string): string {
    "[" + d1 + "](#fn:" + d2 + " 'see footnote')"
  }

  /** One or more ASCII digits, as `\d+` matches them. */
  predicate IsDigits(d: string) {
    |d| > 0 && forall k :: 0 <= k < |d| ==> '0' <= d[k] <= '9'
  }

  /** A marker after ordinary text is deleted and the text before it kept. */
  lemma MarkerAfterPlain(p: string, d1: string, d2: string, t: string)
    requires '[' !in p && IsDigits(d1) && IsDigits(d2)
    ensures RemoveMarkers(p + Marker(d1, d2) + t) == p + RemoveMarkers(t)
  {
    assert p + Marker(d1, d2) + t == p + (Marker(d1, d2) + t);
    PlainPrefixKept(p, Marker(d1, d2) + t);
    MarkerDeleted(d1, d2, t);
  }

  /** A stretch of text followed by a footnote marker. */
  datatype Footnote = Footnote(before: string, d1: string, d2: string)

  /** The text of stretches each followed by its marker, then a tail. */
  function Footnoted(notes: seq<Footnote>, tail: string): string
    decreases |notes|
  {
    if notes == [] then tail
    else notes[0].before + Marker(notes[0].d1, notes[0].d2) + Footnoted(notes[1..], tail)
  }

  /** The same text with the markers left out. */
  function Unfootnoted(notes: seq<Footnote>, tail: string): string
    decreases |notes|
  {
    if notes == [] then tail else notes[0].before + Unfootnoted(notes[1..], tail)
  }

  /** The global replacement deletes every marker and keeps all the text around them. */
  lemma {:induction false} AllMarkersRemoved(notes: seq<Footnote>, tail: string)
    requires forall i :: 0 <= i < |notes| ==>
      '[' !in notes[i].before && IsDigits(notes[i].d1) && IsDigits(notes[i].d2)
    requires '[' !in tail
    ensures RemoveMarkers(Footnoted(notes, tail)) == Unfootnoted(notes, tail)
    decreases |notes|
  {
    if notes != [] {
      var n := notes[0];
      MarkerAfterPlain(n.before, n.d1, n.d2, Footnoted(notes[1..], tail));
      AllMarkersRemoved(notes[1..], tail);
    }
  }

  /** The paragraph rule: trim, drop the attribution and the whitespace after it, trim,
      then drop the footnote markers. */
  function CleanParagraph(text: string): (r: string)
    ensures |r| <= |text|
  {
    RemoveMarkers(Trim(StripAttribution(Trim(text))))
  }

  /** A paragraph with neither the attribution nor a `[` is only trimmed. */
  lemma PlainParagraph(text: string)
    requires !StartsCaseless(Trim(text), ATTRIBUTION) && '[' !in text
    ensures CleanParagraph(text) == Trim(text)
  {
    var t := Trim(text);
    TrimIdempotent(text);
    TrimWithin(text, '[');
    CleanedAs(text, t);
  }

  /** The cleaning chain on a paragraph every step of which leaves `t` alone. */
  lemma CleanedAs(text: string, t: string)
    requires t == Trim(text) && !StartsCaseless(t, ATTRIBUTION) && Trim(t) == t && '[' !in t
    ensures CleanParagraph(text) == t
  {
    assert StripAttribution(t) == t;
    assert RemoveMarkers(t) == t;
  }

  /** The attribution, in any letter case and followed by whitespace, is dropped from
      a paragraph whose remaining text holds no `[`. */
  lemma AttributionDropped(prefix: string, gap: string, body: string)
    requires |prefix| == |ATTRIBUTION| && StartsCaseless(prefix, ATTRIBUTION)
    requires forall k :: 0 <= k < |gap| ==> IsSpace(gap[k])
    requires body != [] && Trimmed(body) && '[' !in body
    ensures CleanParagraph(prefix + gap + body) == body
  {
    var rest := gap + body;
    var text := prefix + rest;
    assert text == prefix + gap + body;
    assert !IsSpace(prefix[0]) by { AttributionOpensWithLetter(prefix); }
    TrimOfOpened(prefix, gap, body);
    assert Trim(text) == text;
    CaselessExtends(prefix, rest, ATTRIBUTION);
    SpacesThen(gap, body);
    assert StripAttribution(text) == body;
    TrimIdempotent(body);
  }

  /** Whatever its case, the attribution opens with a letter. */
  lemma AttributionOpensWithLetter(prefix: string)
    requires |prefix| == |ATTRIBUTION| && StartsCaseless(prefix, ATTRIBUTION)
    ensures !IsSpace(prefix[0])
  {
    assert ATTRIBUTION[0] == 'A';
    assert AsciiLower(prefix[0]) == 'a';
  }

  /** A caseless prefix stays one when text follows it, and is what is cut off. */
  lemma CaselessExtends(prefix: string, rest: string, p: string)
    requires |prefix| == |p| && StartsCaseless(prefix, p)
    ensures StartsCaseless(prefix + rest, p) && (prefix + rest)[|p|..] == rest
  {
    var t := prefix + rest;
    forall k | 0 <= k < |p| ensures AsciiLower(t[k]) == AsciiLower(p[k]) {
      assert t[k] == prefix[k];
    }
  }

  lemma {:induction false} SpacesThen(gap: string, body: string)
    requires forall k :: 0 <= k < |gap| ==> IsSpace(gap[k])
    requires Trimmed(body)
    ensures TrimStart(gap + body) == body
    decreases |gap|
  {
    if gap == [] {
      assert gap + body == body;
      assert body != [] ==> !IsSpace(body[0]);
    } else {
      var rest := gap[1..] + body;
      assert gap + body == [gap[0]] + rest;
      SpacesThen(gap[1..], body);
      SpaceSkipped(gap[0], rest);
    }
  }

  lemma SpaceSkipped(c: char, rest: string)
    requires IsSpace(c)
    ensures TrimStart([c] + rest) == TrimStart(rest)
  {
    assert ([c] + rest)[1..] == rest;
  }

  /** A text that opens with a non-space and ends with a trimmed text is unchanged by
      `trim`. */
  lemma TrimOfOpened(prefix: string, gap: string, body: string)
    requires |prefix| > 0 && !IsSpace(prefix[0])
    requires body != [] && Trimmed(body)
    ensures Trim(prefix + gap + body) == prefix + gap + body
  {
    var s := prefix + gap + body;
    assert s[0] == prefix[0];
    assert s[|s| - 1] == body[|body| - 1];
    TrimmedEnds(s);
  }

  lemma TrimmedEnds(s: string)
    requires s != [] && !IsSpace(s[0]) && !IsSpace(s[|s| - 1])
    ensures Trim(s) == s
  {
    assert Trimmed(s);
  }

  /** An anchor of a footnote entry: its text and its `href` (`undefined` when the
      attribute is missing). */
  datatype Anchor = Anchor(text: string, href: Option<string>)

  /** The elements `$('h1, h2, h3, p, ol, ul, div')` selects, in document order, with
      what the handler reads from each. */
  datatype Element =
    | Heading(text: string)
    | Paragraph(text: string)
    | ListBlock(items: seq<string>)
    | Division(footnotes: bool, entries: seq<Option<Anchor>>)

  function ItemLine(text: string): string {
    "- " + Trim(text) + "\n"
  }

  function SourceLine(a: Anchor): string {
    "- " + Trim(a.text) + " (" + (if a.href.Some? then a.href.value else "undefined") + ")\n"
  }

  function ItemLines(items: seq<string>): (r: seq<string>)
    ensures |r| == |items|
  {
    if items == [] then [] else ItemLines(items[..|items| - 1]) + [ItemLine(items[|items| - 1])]
  }

  /** The lines of the linked footnote entries; an entry without an anchor gives none. */
  function SourceLines(entries: seq<Option<Anchor>>): (r: seq<string>)
    ensures |r| <= |entries|
  {
    if entries == [] then []
    else
      var last := entries[|entries| - 1];
      SourceLines(entries[..|entries| - 1]) + (if last.Some? then [SourceLine(last.value)] else [])
  }

  /** The line a heading pushes: its trimmed text in bold, on a line of its own. */
  function HeadingLine(text: string): string {
    "\n**" + Trim(text) + "**" + "\n"
  }

  /** The line that opens the footnote list. */
  const SOURCES_BANNER: string := "\n**Authoritative Sources**" + "\n"

  /** The line a paragraph pushes, when its cleaned text is not empty. */
  function ParagraphLines(t: string): seq<string> {
    if t != "" then [t + "\n"] else []
  }

  /** The lines one element pushes to `outputLines`. */
  function ElementLines(e: Element): seq<string> {
    match e
    case Heading(text) => [HeadingLine(text)]
    case Paragraph(text) => ParagraphLines(CleanParagraph(text))
    case ListBlock(items) => ItemLines(items)
    case Division(footnotes, entries) =>
      if footnotes then [SOURCES_BANNER] + SourceLines(entries) else []
  }

  function AllLines(elements: seq<Element>): seq<string> {
    if elements == [] then []
    else AllLines(elements[..|elements| - 1]) + ElementLines(elements[|elements| - 1])
  }

  /** The lines of consecutive element runs are the lines of each run in turn. */
  lemma {:induction false} AllLinesAppend(a: seq<Element>, b: seq<Element>)
    ensures AllLines(a + b) == AllLines(a) + AllLines(b)
    decreases |b|
  {
    if b != [] {
      assert (a + b)[..|a + b| - 1] == a + b[..|b| - 1];
      AllLinesAppend(a, b[..|b| - 1]);
    } else {
      assert a + b == a;
    }
  }

  /** A line that ends with a newline and has text before it. */
  predicate NewlineEnded(line: string) {
    |line| >= 2 && line[|line| - 1] == '\n'
  }

  predicate AllEnded(lines: seq<string>) {
    forall k :: 0 <= k < |lines| ==> NewlineEnded(lines[k])
  }

  lemma AllEndedAppend(a: seq<string>, b: seq<string>)
    requires AllEnded(a) && AllEnded(b)
    ensures AllEnded(a + b)
  {
    forall k | 0 <= k < |a + b| ensures NewlineEnded((a + b)[k]) {
      if k < |a| { assert (a + b)[k] == a[k]; } else { assert (a + b)[k] == b[k - |a|]; }
    }
  }

  lemma {:induction false} ItemLinesEnded(items: seq<string>)
    ensures AllEnded(ItemLines(items))
  {
    if items != [] {
      ItemLinesEnded(items[..|items| - 1]);
      AllEndedAppend(ItemLines(items[..|items| - 1]), [ItemLine(items[|items| - 1])]);
    }
  }

  lemma {:induction false} SourceLinesEnded(entries: seq<Option<Anchor>>)
    ensures AllEnded(SourceLines(entries))
  {
    if entries != [] {
      SourceLinesEnded(entries[..|entries| - 1]);
      var last := entries[|entries| - 1];
      AllEndedAppend(SourceLines(entries[..|entries| - 1]), if last.Some? then [SourceLine(last.value)] else []);
    }
  }

  lemma ElementLinesEnded(e: Element)
    ensures AllEnded(ElementLines(e))
  {
    match e
    case Heading(text) =>
      var line := "\n**" + Trim(text) + "**";
      OneEnded(line);
      assert ElementLines(e) == [line + "\n"];
    case Paragraph(text) =>
      var t := CleanParagraph(text);
      if t != "" {
        OneEnded(t);
        assert ElementLines(e) == [t + "\n"];
      } else {
        assert ElementLines(e) == [];
      }
    case ListBlock(items) => ItemLinesEnded(items);
    case Division(footnotes, entries) =>
      if footnotes {
        var banner := "\n**Authoritative Sources**";
        OneEnded(banner);
        SourceLinesEnded(entries);
        AllEndedAppend([banner + "\n"], SourceLines(entries));
        assert ElementLines(e) == [banner + "\n"] + SourceLines(entries);
      } else {
        assert ElementLines(e) == [];
      }
  }

  /** A non-empty text and its newline make one ended line. */
  lemma OneEnded(text: string)
    requires text != []
    ensures AllEnded([text + "\n"])
  {
    var line := text + "\n";
    assert line[|line| - 1] == '\n';
  }

  /** Every pushed line ends with a newline and has text before it; in particular no
      paragraph pushes an empty line. */
  lemma {:induction false} LinesEndWithNewline(elements: seq<Element>)
    ensures AllEnded(AllLines(elements))
  {
    if elements != [] {
      LinesEndWithNewline(elements[..|elements| - 1]);
      ElementLinesEnded(elements[|elements| - 1]);
      AllEndedAppend(AllLines(elements[..|elements| - 1]), ElementLines(elements[|elements| - 1]));
    }
  }

  /** What `formatHtml(html)` returns, with `select` playing cheerio. */
  function FormattedText(html: string, select: string -> seq<Element>): (r: string)
    ensures html == "" ==> r == ""
  {
    if html == "" then "" else Concat(AllLines(select(html)))
  }

  /** `formatHtml`: push the lines of each selected element, then join them. */
  method FormatHtml(html: string, select: string -> seq<Element>) returns (r: string)
    ensures r == FormattedText(html, select)
  {
    if html == "" {
      return "";
    }
    var elements := select(html);
    var outputLines: seq<string> := [];
    var i := 0;
    while i < |elements|
      invariant 0 <= i <= |elements|
      invariant outputLines == AllLines(elements[..i])
    {
      assert elements[..i + 1][..i] == elements[..i];
      outputLines := PushElement(outputLines, elements[i]);
      i := i + 1;
    }
    assert elements[..i] == elements;
    r := Concat(outputLines);
  }

  /** The body of the `each` callback for one element. */
  method PushElement(lines: seq<string>, e: Element) returns (out: seq<string>)
    ensures out == lines + ElementLines(e)
  {
    match e {
      case Heading(text) =>
        out := lines + [HeadingLine(text)];
      case Paragraph(text) =>
        var t := CleanParagraph(text);
        if t != "" {
          out := lines + [t + "\n"];
        } else {
          out := lines;
        }
      case ListBlock(items) =>
        out := PushItems(lines, items);
      case Division(footnotes, entries) =>
        if footnotes {
          out := PushSources(lines + [SOURCES_BANNER], entries);
          AppendAssoc(lines, [SOURCES_BANNER], SourceLines(entries));
        } else {
          out := lines;
        }
    }
  }

  lemma AppendAssoc(a: seq<string>, b: seq<string>, c: seq<string>)
    ensures (a + b) + c == a + (b + c)
  {
  }

  lemma ItemLinesNext(items: seq<string>, k: nat)
    requires k < |items|
    ensures ItemLines(items[..k + 1]) == ItemLines(items[..k]) + [ItemLine(items[k])]
  {
    assert items[..k + 1][..k] == items[..k];
  }

  lemma SourceLinesNext(entries: seq<Option<Anchor>>, k: nat)
    requires k < |entries|
    ensures SourceLines(entries[..k + 1]) ==
      SourceLines(entries[..k]) + (if entries[k].Some? then [SourceLine(entries[k].value)] else [])
  {
    assert entries[..k + 1][..k] == entries[..k];
  }

  method PushItems(lines: seq<string>, items: seq<string>) returns (out: seq<string>)
    ensures out == lines + ItemLines(items)
  {
    out := lines;
    var k := 0;
    while k < |items|
      invariant 0 <= k <= |items|
      invariant out == lines + ItemLines(items[..k])
    {
      ItemLinesNext(items, k);
      AppendAssoc(lines, ItemLines(items[..k]), [ItemLine(items[k])]);
      out := out + [ItemLine(items[k])];
      k := k + 1;
    }
    assert items[..k] == items;
  }

  method PushSources(lines: seq<string>, entries: seq<Option<Anchor>>) returns (out: seq<string>)
    ensures out == lines + SourceLines(entries)
  {
    out := lines;
    var k := 0;
    while k < |entries|
      invariant 0 <= k <= |entries|
      invariant out == lines + SourceLines(entries[..k])
    {
      SourceLinesNext(entries, k);
      if entries[k].Some? {
        AppendAssoc(lines, SourceLines(entries[..k]), [SourceLine(entries[k].value)]);
        out := out + [SourceLine(entries[k].value)];
      }
      k := k + 1;
    }
    assert entries[..k] == entries;
  }

  /** The calls the handlers make: `JSON.parse`, cheerio's selection and turndown. */
  datatype Env = Env(parse: Parser, select: string -> seq<Element>, turndown: string -> string)

  /** What one `message` event does: the text appended to `buffer`, whether it calls
      `ws.close()`, and the message of an error that rejects the search. */
  datatype Effect = Effect(append: string, close: bool, failure: Option<string>)

  const NO_EFFECT: Effect := Effect("", false, None)

  /** `diff.e[0][1].data` for a truthy `e`, or the TypeError it throws on the way. */
  function PrimaryChunk(e: Json): (r: Result<Option<Json>, TypeError>)
    requires Truthy(e)
  {
    var first := Elem(e, 0);
    match ElemOf(first, 1)
    case Err(t) => Err(t)
    case Ok(second) => PropOf(second, "data")
  }

  /** The `catch` branch: a non-empty `cacheFind` answer is appended, formatted when it
      holds a tag, and the socket is closed; anything else does nothing. */
  function Fallback(diff: Json, env: Env): (r: Effect)
    ensures r.failure == None
    ensures r.close <==> Given(CacheFind(diff, env.turndown))
  {
    var c := CacheFind(diff, env.turndown);
    if Given(c) then
      Effect(if HasTag(c.value) then FormattedText(c.value, env.select) else c.value, true, None)
    else NO_EFFECT
  }

  /** The `message` handler. */
  function OnMessage(data: string, env: Env): (r: Effect)
    ensures r.failure.Some? <==> env.parse(data).Malformed?
    ensures r.failure.Some? ==> r.close && r.append == ""
  {
    match env.parse(data)
    case Malformed(m) => Effect("", true, Some("IAsk API error: " + m))
    case Parsed(msg) =>
      var diff := Elem(msg, 4);
      if !Truthy(msg) || !TruthyOpt(diff) then NO_EFFECT
      else
        var d := diff.value;
        var e := Prop(d, "e");
        if !TruthyOpt(e) then Fallback(d, env)
        else
          match PrimaryChunk(e.value)
          case Err(_) => Fallback(d, env)
          case Ok(chunk) =>
            if !TruthyOpt(chunk) then NO_EFFECT
            else if chunk.value.JStr? then
              var c := chunk.value.s;
              Effect(if HasTag(c) then FormattedText(c, env.select) else ReplaceBr(c), false, None)
            // A non-string chunk throws into the `catch`: without a tag in `String(chunk)`
            // it has no `replace`, and with one `cheerio.load` is handed a non-string.
            else Fallback(d, env)
  }

  /** The diff `msg[4]` of a message that parses to a truthy value, when it is truthy. */
  predicate DiffOf(data: string, env: Env, d: Json) {
    env.parse(data).Parsed? && Truthy(env.parse(data).value) &&
    Elem(env.parse(data).value, 4) == Some(d) && Truthy(d)
  }

  /** The primary path: a non-empty string at `diff.e[0][1].data` is appended, through
      `formatHtml` when it holds a tag and unchanged otherwise; the socket stays open. */
  lemma PrimaryPath(data: string, env: Env, d: Json, c: string)
    requires DiffOf(data, env, d) && TruthyOpt(Prop(d, "e"))
    requires PrimaryChunk(Prop(d, "e").value) == Ok(Some(JStr(c))) && c != ""
    ensures OnMessage(data, env) == Effect(if HasTag(c) then FormattedText(c, env.select) else c, false, None)
  {
    if !HasTag(c) { UntaggedChunkUnchanged(c); }
  }

  /** A present `e` whose `data` is falsy appends nothing and does not fall back. */
  lemma FalsyDataIgnored(data: string, env: Env, d: Json, chunk: Option<Json>)
    requires DiffOf(data, env, d) && TruthyOpt(Prop(d, "e"))
    requires PrimaryChunk(Prop(d, "e").value) == Ok(chunk) && !TruthyOpt(chunk)
    ensures OnMessage(data, env) == NO_EFFECT
  {
  }

  /** A missing `e`, or `e[0][1]` that cannot be read, sends the diff to `cacheFind`. */
  lemma FallbackPath(data: string, env: Env, d: Json)
    requires DiffOf(data, env, d)
    requires !TruthyOpt(Prop(d, "e")) || PrimaryChunk(Prop(d, "e").value).Err?
    ensures OnMessage(data, env) == Fallback(d, env)
  {
  }

  /** A truthy chunk that is not a string sends the diff to `cacheFind`. */
  lemma NonStringChunkFallsBack(data: string, env: Env, d: Json, chunk: Json)
    requires DiffOf(data, env, d) && TruthyOpt(Prop(d, "e"))
    requires PrimaryChunk(Prop(d, "e").value) == Ok(Some(chunk)) && Truthy(chunk) && !chunk.JStr?
    ensures OnMessage(data, env) == Fallback(d, env)
  {
  }

  /** A message that parses to a falsy value, or without a truthy `msg[4]`, is ignored. */
  lemma EmptyMessageIgnored(data: string, env: Env)
    requires env.parse(data).Parsed?
    requires !Truthy(env.parse(data).value) || !TruthyOpt(Elem(env.parse(data).value, 4))
    ensures OnMessage(data, env) == NO_EFFECT
  {
  }

  /** How the search promise stands: the first settlement wins. */
  datatype Outcome = Pending | Resolved(value: string) | Rejected(message: string)

  function Settle(o: Outcome, v: Outcome): (r: Outcome)
    ensures o.Pending? ==> r == v
    ensures !o.Pending? ==> r == o
  {
    if o.Pending? then v else o
  }

  /** The `message` handler as the socket holds it. */
  type Handler = string -> Effect

  function HandlerOf(env: Env): (h: Handler)
    ensures forall data :: h(data) == OnMessage(data, env)
  {
    data => OnMessage(data, env)
  }

  /** What the socket delivers, in order: a frame, the 30-second timer firing, an
      `error` event, or the `close` event read at time `at`. */
  datatype Event = Message(data: string) | TimerFired | SocketError(message: string) | Closed(at: int)

  /** The state the handlers share: `buffer`, the promise, whether `ws.close()` was
      called, whether the timer was cleared, whether `close` arrived, and the entry
      that the `close` handler stored in the cache. */
  datatype Session = Session(buffer: string, outcome: Outcome, closeRequested: bool, timerCleared: bool,
                             closed: bool, stored: Option<Entry<string>>)

  const START: Session := Session("", Pending, false, false, false, None)

  /** The close handler's answer: the buffer, or `'No results found.'` when it is empty. */
  function Answer(buffer: string): (r: string)
    ensures r != ""
    ensures buffer != "" ==> r == buffer
  {
    if buffer != "" then buffer else "No results found."
  }

  /** One event through its handler; nothing is delivered after `close`. */
  function Step(s: Session, ev: Event, handle: Handler): (r: Session)
    ensures StartsWith(r.buffer, s.buffer)
    ensures !s.outcome.Pending? ==> r.outcome == s.outcome
    ensures s.closed ==> r == s
  {
    if s.closed then s
    else
      match ev
      case Message(data) =>
        var eff := handle(data);
        var r := s.(buffer := s.buffer + eff.append,
                    outcome := if eff.failure.Some? then Settle(s.outcome, Rejected(eff.failure.value)) else s.outcome,
                    closeRequested := s.closeRequested || eff.close);
        assert r.buffer[..|s.buffer|] == s.buffer;
        r
      case TimerFired =>
        if s.timerCleared then s else s.(closeRequested := true)
      case SocketError(m) =>
        s.(timerCleared := true, outcome := Settle(s.outcome, Rejected("WebSocket error: " + m)))
      case Closed(at) =>
        s.(timerCleared := true, closed := true,
           stored := if s.buffer != "" then Some(Entry(s.buffer, at)) else s.stored,
           outcome := Settle(s.outcome, Resolved(Answer(s.buffer))))
  }

  /** The events in order. */
  function Replay(s: Session, events: seq<Event>, handle: Handler): Session {
    if events == [] then s else Step(Replay(s, events[..|events| - 1], handle), events[|events| - 1], handle)
  }

  /** `buffer` only ever grows, and a settled promise stays as it is. */
  lemma {:induction false} ReplayGrows(s: Session, events: seq<Event>, handle: Handler)
    ensures StartsWith(Replay(s, events, handle).buffer, s.buffer)
    ensures !s.outcome.Pending? ==> Replay(s, events, handle).outcome == s.outcome
  {
    if events != [] {
      var mid := Replay(s, events[..|events| - 1], handle);
      ReplayGrows(s, events[..|events| - 1], handle);
      assert mid.buffer[..|s.buffer|] == s.buffer;
      var r := Replay(s, events, handle);
      assert r.buffer[..|mid.buffer|] == mid.buffer;
      assert r.buffer[..|s.buffer|] == mid.buffer[..|s.buffer|];
    }
  }

  /** The `close` event resolves a pending search with the buffer or the sentinel, and
      stores the buffer under the search's key exactly when it is not empty. */
  lemma CloseSettles(s: Session, at: int, handle: Handler)
    requires !s.closed && s.outcome.Pending?
    ensures var r := Step(s, Closed(at), handle);
      r.outcome == Resolved(Answer(s.buffer)) && r.closed && r.buffer == s.buffer &&
      (s.buffer != "" ==> r.stored == Some(Entry(s.buffer, at))) &&
      (s.buffer == "" ==> r.stored == s.stored)
  {
  }

  /** A timeout closes the socket, and the `close` that follows resolves with the
      partial buffer: a timeout is a success. */
  lemma TimeoutReturnsPartial(s: Session, at: int, handle: Handler)
    requires !s.closed && !s.timerCleared && s.outcome.Pending?
    ensures var r := Replay(s, [TimerFired, Closed(at)], handle);
      r.outcome == Resolved(Answer(s.buffer)) && r.closeRequested
  {
    var evs := [TimerFired, Closed(at)];
    assert evs[..1] == [TimerFired];
    assert evs[..1][..0] == [];
    assert Replay(s, evs[..1], handle) == Step(Replay(s, [], handle), TimerFired, handle);
    var mid := Step(s, TimerFired, handle);
    assert Replay(s, evs, handle) == Step(mid, Closed(at), handle);
  }

  /** From the start, an entry is stored only by the `close` handler, and it holds the
      final, non-empty buffer. */
  lemma {:induction false} StoredIsFinalBuffer(events: seq<Event>, handle: Handler)
    ensures var r := Replay(START, events, handle);
      r.stored.Some? ==> r.closed && r.buffer != "" && r.stored.value.results == r.buffer
  {
    if events != [] {
      StoredIsFinalBuffer(events[..|events| - 1], handle);
    }
  }

  /** The fields of the page that the socket needs: the LiveView node id and the CSRF
      token (`undefined` when missing). */
  datatype Tokens = Tokens(phxId: Option<string>, csrfToken: Option<string>)

  /** The times at which a search reads the clock: the purge and the cache check. */
  datatype Clock = Clock(purgeAt: int, lookupAt: int)

  /** The query string of the page request: `mode` and `q`, and the detail level when
      one is given. */
  function RequestParams(prompt: string, mode: string, detailLevel: Option<string>): (r: seq<(string, string)>)
    ensures |r| >= 2 && r[0] == ("mode", mode) && r[1] == ("q", prompt)
    ensures Given(detailLevel) <==> |r| == 3
    ensures Given(detailLevel) ==> r[2] == ("options[detail_level]", detailLevel.value)
  {
    [("mode", mode), ("q", prompt)] + (if Given(detailLevel) then [("options[detail_level]", detailLevel.value)] else [])
  }

  /** What one search does to the cache and how its promise settles, given the page
      reply and the events of its socket. */
  function Search(slots: seq<Slot<string>>, prompt: string, mode: string, detailLevel: Option<string>,
                  clock: Clock, fetch: seq<(string, string)> -> Raw<string>, tokensOf: string -> Tokens,
                  events: seq<Event>, env: Env): (r: (Outcome, seq<Slot<string>>))
  {
    match Validate(mode, detailLevel)
    case Some(message) => (Rejected(message), slots)
    case None =>
      var purged := Purge(slots, clock.purgeAt);
      var key := CacheKey(prompt, mode, detailLevel);
      var cached := Find(purged, key);
      if cached.Some? && Servable(cached.value, clock.lookupAt) then (Resolved(cached.value.results), purged)
      else
        Fetched(purged, key, Axios(fetch(RequestParams(prompt, mode, detailLevel)), DefaultAccepts), tokensOf, events, env)
  }

  /** The part of a search after a cache miss: the page request's outcome, the tokens
      read from the page, the socket session and what it leaves in the cache. */
  function Fetched(purged: seq<Slot<string>>, key: string, reply: Result<(int, string), JsError>,
                   tokensOf: string -> Tokens, events: seq<Event>, env: Env): (r: (Outcome, seq<Slot<string>>))
  {
    match reply
    case Err(e) => (Rejected(e.message), purged)
    case Ok((_, page)) =>
      var t := tokensOf(page);
      if !Given(t.phxId) || !Given(t.csrfToken) then
        (Rejected("Failed to extract required tokens from page"), purged)
      else
        var s := Replay(START, events, HandlerOf(env));
        (s.outcome, if s.stored.Some? then Insert(purged, key, s.stored.value) else purged)
  }

  /** Invalid arguments reject the search before the cache is touched. */
  lemma InvalidArgumentsFirst(slots: seq<Slot<string>>, prompt: string, mode: string, detailLevel: Option<string>,
                              clock: Clock, fetch: seq<(string, string)> -> Raw<string>, tokensOf: string -> Tokens,
                              events: seq<Event>, env: Env)
    requires Validate(mode, detailLevel).Some?
    ensures Search(slots, prompt, mode, detailLevel, clock, fetch, tokensOf, events, env) ==
      (Rejected(Validate(mode, detailLevel).value), slots)
  {
  }

  /** Every cached answer is a non-empty text. */
  predicate Filled(slots: seq<Slot<string>>) {
    forall k :: 0 <= k < |slots| ==> slots[k].entry.results != ""
  }

  /** After a search the cache keeps distinct keys and holds no empty answer, and a
      search that resolves does so with a non-empty text. */
  lemma SearchKeepsCache(slots: seq<Slot<string>>, prompt: string, mode: string, detailLevel: Option<string>,
                         clock: Clock, fetch: seq<(string, string)> -> Raw<string>, tokensOf: string -> Tokens,
                         events: seq<Event>, env: Env)
    requires DistinctKeys(slots) && Filled(slots)
    ensures var (r, after) := Search(slots, prompt, mode, detailLevel, clock, fetch, tokensOf, events, env);
      DistinctKeys(after) && Filled(after) && (r.Resolved? ==> r.value != "")
  {
    if Validate(mode, detailLevel).None? {
      var purged := Purge(slots, clock.purgeAt);
      var key := CacheKey(prompt, mode, detailLevel);
      PurgeDistinct(slots, clock.purgeAt);
      assert Filled(purged);
      var cached := Find(purged, key);
      if cached.Some? && Servable(cached.value, clock.lookupAt) {
        var m :| 0 <= m < |purged| && purged[m] == Slot(key, cached.value);
      } else {
        FetchedKeepsCache(purged, key, Axios(fetch(RequestParams(prompt, mode, detailLevel)), DefaultAccepts),
                          tokensOf, events, env);
      }
    }
  }

  lemma FetchedKeepsCache(purged: seq<Slot<string>>, key: string, reply: Result<(int, string), JsError>,
                          tokensOf: string -> Tokens, events: seq<Event>, env: Env)
    requires DistinctKeys(purged) && Filled(purged)
    ensures var (r, after) := Fetched(purged, key, reply, tokensOf, events, env);
      DistinctKeys(after) && Filled(after) && (r.Resolved? ==> r.value != "")
  {
    SessionKeepsCache(purged, key, events, HandlerOf(env));
    ResolvedNotEmpty(events, HandlerOf(env));
  }

  /** Storing what a session leaves behind keeps the cache's keys distinct and its
      answers non-empty. */
  lemma SessionKeepsCache(purged: seq<Slot<string>>, key: string, events: seq<Event>, handle: Handler)
    requires DistinctKeys(purged) && Filled(purged)
    ensures var s := Replay(START, events, handle);
      var after := if s.stored.Some? then Insert(purged, key, s.stored.value) else purged;
      DistinctKeys(after) && Filled(after)
  {
    StoredIsFinalBuffer(events, handle);
    var s := Replay(START, events, handle);
    if s.stored.Some? {
      InsertDistinct(purged, key, s.stored.value);
      InsertOnlyAdds(purged, key, s.stored.value);
    }
  }

  /** A search that the session settles resolves with something non-empty. */
  lemma {:induction false} ResolvedNotEmpty(events: seq<Event>, handle: Handler)
    ensures Replay(START, events, handle).outcome.Resolved? ==> Replay(START, events, handle).outcome.value != ""
  {
    if events != [] {
      ResolvedNotEmpty(events[..|events| - 1], handle);
    }
  }

  /** `searchIAsk` over the module's cache: validation, the cache check, the page
      request, then the socket's events in order. The `message` handler appends to
      `buffer`, `close` writes the cache, and the promise settles once. */
  method SearchIAsk(cache: ResultsCache<string>, prompt: string, mode: string, detailLevel: Option<string>,
                    clock: Clock, fetch: seq<(string, string)> -> Raw<string>, tokensOf: string -> Tokens,
                    events: seq<Event>, env: Env)
    returns (r: Outcome)
    requires cache.Valid()
    modifies cache
    ensures cache.Valid()
    ensures (r, cache.slots) == Search(old(cache.slots), prompt, mode, detailLevel, clock, fetch, tokensOf, events, env)
  {
    var invalid := Validate(mode, detailLevel);
    if invalid.Some? {
      return Rejected(invalid.value);
    }
    cache.ClearOldCache(clock.purgeAt);
    var cacheKey := CacheKey(prompt, mode, detailLevel);
    var cached := cache.Get(cacheKey);
    if cached.Some? && Servable(cached.value, clock.lookupAt) {
      return Resolved(cached.value.results);
    }
    var response := Axios(fetch(RequestParams(prompt, mode, detailLevel)), DefaultAccepts);
    if response.Err? {
      return Rejected(response.error.message);
    }
    var tokens := tokensOf(response.value.1);
    if !Given(tokens.phxId) || !Given(tokens.csrfToken) {
      return Rejected("Failed to extract required tokens from page");
    }
    r := RunSession(cache, cacheKey, events, HandlerOf(env));
  }

  /** The state the handlers of one `searchIAsk` call share: `buffer`, the promise,
      whether `ws.close()` was called, whether the timeout was cleared, whether the
      socket closed, and the cache the `close` handler writes under `cacheKey`. */
  class Socket {
    var buffer: string
    var outcome: Outcome
    var closeRequested: bool
    var timerCleared: bool
    var closed: bool
    /** The entry the `close` handler wrote, if any. */
    ghost var stored: Option<Entry<string>>
    const cache: ResultsCache<string>
    const cacheKey: string
    const handle: Handler
    /** The cache as it was when the socket opened. */
    ghost const before: seq<Slot<string>>

    ghost function State(): Session
      reads this
    {
      Session(buffer, outcome, closeRequested, timerCleared, closed, stored)
    }

    /** The cache holds what it held before, with the stored entry written over it. */
    ghost predicate Valid()
      reads this, cache
    {
      cache.Valid() && (stored.Some? ==> closed) &&
      cache.slots == if stored.Some? then Insert(before, cacheKey, stored.value) else before
    }

    constructor (cache: ResultsCache<string>, cacheKey: string, handle: Handler)
      requires cache.Valid()
      ensures this.cache == cache && this.cacheKey == cacheKey && this.handle == handle && before == cache.slots
      ensures State() == START && Valid()
    {
      buffer, outcome := "", Pending;
      closeRequested, timerCleared, closed := false, false, false;
      stored := None;
      this.cache, this.cacheKey, this.handle := cache, cacheKey, handle;
      before := cache.slots;
    }

    /** The `message` handler. */
    method Message(data: string)
      requires Valid() && !closed
      modifies this
      ensures Valid() && State() == Step(old(State()), Event.Message(data), handle)
    {
      var eff := handle(data);
      buffer := buffer + eff.append;
      if eff.failure.Some? {
        outcome := Settle(outcome, Rejected(eff.failure.value));
      }
      closeRequested := closeRequested || eff.close;
    }

    /** The timeout's callback, which calls `ws.close()` unless it was cleared. */
    method TimerFired()
      requires Valid() && !closed
      modifies this
      ensures Valid() && State() == Step(old(State()), Event.TimerFired, handle)
    {
      if !timerCleared {
        closeRequested := true;
      }
    }

    /** The `error` handler. */
    method Error(message: string)
      requires Valid() && !closed
      modifies this
      ensures Valid() && State() == Step(old(State()), SocketError(message), handle)
    {
      timerCleared := true;
      outcome := Settle(outcome, Rejected("WebSocket error: " + message));
    }

    /** The `close` handler: clear the timeout, cache a non-empty buffer, resolve. */
    method Close(at: int)
      requires Valid() && !closed
      modifies this, cache
      ensures Valid() && State() == Step(old(State()), Closed(at), handle)
    {
      timerCleared := true;
      closed := true;
      if buffer != "" {
        cache.Set(cacheKey, Entry(buffer, at));
        stored := Some(Entry(buffer, at));
      }
      outcome := Settle(outcome, Resolved(Answer(buffer)));
    }

    /** An event delivered to its handler; a closed socket delivers nothing more. */
    method Deliver(ev: Event)
      requires Valid()
      modifies this, cache
      ensures Valid() && State() == Step(old(State()), ev, handle)
    {
      if !closed {
        match ev
        case Message(data) => Message(data);
        case TimerFired => TimerFired();
        case SocketError(m) => Error(m);
        case Closed(at) => Close(at);
      }
    }
  }

  /** The socket's events in order: each goes to its handler until the socket has
      closed. Settles as the session does and leaves the cache as its `close` wrote it. */
  method RunSession(cache: ResultsCache<string>, cacheKey: string, events: seq<Event>, handle: Handler)
    returns (r: Outcome)
    requires cache.Valid()
    modifies cache
    ensures cache.Valid()
    ensures var s := Replay(START, events, handle);
      r == s.outcome && cache.slots == if s.stored.Some? then Insert(old(cache.slots), cacheKey, s.stored.value) else old(cache.slots)
  {
    var ws := new Socket(cache, cacheKey, handle);
    var i := 0;
    while i < |events|
      invariant 0 <= i <= |events|
      invariant ws.cache == cache && ws.cacheKey == cacheKey && ws.handle == handle && ws.before == old(cache.slots)
      invariant ws.Valid() && ws.State() == Replay(START, events[..i], handle)
      modifies ws, cache
    {
      ReplayNext(events, i, handle);
      ws.Deliver(events[i]);
      i := i + 1;
    }
    assert events[..i] == events;
    r := ws.outcome;
  }

  lemma ReplayNext(events: seq<Event>, i: nat, handle: Handler)
    requires i < |events|
    ensures Replay(START, events[..i + 1], handle) == Step(Replay(START, events[..i], handle), events[i], handle)
  {
    assert events[..i + 1][..i] == events[..i];
  }
}
