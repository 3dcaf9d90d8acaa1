/**
 * The string built-ins of ECMAScript that the search core relies on, with their
 * semantics written out over sequences of characters: the `\s` class, `trim`,
 * `split('\n')`, the clamping of `substring` and `slice`, the conversion of an
 * integer to its decimal string, and the global replacement
 * `replace(/\n\s*\n/g, '\n\n')` that two of the sanitisers share.
 */
module JsText {

  /** The characters `\s` matches in a regular expression; `String.prototype.trim`
      strips exactly this set (WhiteSpace and LineTerminator). */
  predicate IsSpace(c: char) {
    || c == '\t' || c == '\n' || c == '\U{000B}' || c == '\U{000C}' || c == '\r' || c == ' '
    || c == '\U{00A0}' || c == '\U{1680}' || ('\U{2000}' <= c <= '\U{200A}')
    || c == '\U{2028}' || c == '\U{2029}' || c == '\U{202F}' || c == '\U{205F}'
    || c == '\U{3000}' || c == '\U{FEFF}'
  }

  /** The line terminators, which `.` does not match without the `s` flag. */
  predicate IsLineTerminator(c: char) {
    c == '\n' || c == '\r' || c == '\U{2028}' || c == '\U{2029}'
  }

  /** `s.startsWith(prefix)`. */
  predicate StartsWith(s: string, prefix: string) {
    |prefix| <= |s| && s[..|prefix|] == prefix
  }

  /** `s.trimStart()`: the suffix left after the leading whitespace. */
  function TrimStart(s: string): (r: string)
    ensures |r| <= |s| && r == s[|s| - |r|..]
    ensures forall k :: 0 <= k < |s| - |r| ==> IsSpace(s[k])
    ensures r != [] ==> !IsSpace(r[0])
  {
    if s != [] && IsSpace(s[0]) then TrimStart(s[1..]) else s
  }

  /** `s.trimEnd()`: the prefix left before the trailing whitespace. */
  function TrimEnd(s: string): (r: string)
    ensures |r| <= |s| && r == s[..|r|]
    ensures forall k :: |r| <= k < |s| ==> IsSpace(s[k])
    ensures r != [] ==> !IsSpace(r[|r| - 1])
  {
    if s != [] && IsSpace(s[|s| - 1]) then TrimEnd(s[..|s| - 1]) else s
  }

  /** Whether `Trim` would leave `s` as it is. */
  predicate Trimmed(s: string) {
    s == [] || (!IsSpace(s[0]) && !IsSpace(s[|s| - 1]))
  }

  /** `s.trim()`. */
  function Trim(s: string): (r: string)
    ensures |r| <= |s|
    ensures r == [] <==> forall k :: 0 <= k < |s| ==> IsSpace(s[k])
    ensures Trimmed(r)
    ensures Trimmed(s) ==> r == s
  {
    TrimBothEnds(s);
    TrimEnd(TrimStart(s))
  }

  lemma TrimBothEnds(s: string)
    ensures |TrimEnd(TrimStart(s))| <= |s|
    ensures TrimEnd(TrimStart(s)) == [] <==> forall k :: 0 <= k < |s| ==> IsSpace(s[k])
    ensures Trimmed(TrimEnd(TrimStart(s)))
    ensures Trimmed(s) ==> TrimEnd(TrimStart(s)) == s
  {
    var t := TrimStart(s);
    var r := TrimEnd(t);
    if t == [] {
      assert forall k :: 0 <= k < |s| ==> IsSpace(s[k]);
    } else {
      assert t[0] == s[|s| - |t|];
      assert !IsSpace(t[0]);
      assert r[0] == t[0];
    }
  }

  lemma TrimIdempotent(s: string)
    ensures Trimmed(Trim(s)) && Trim(Trim(s)) == Trim(s)
  {
  }

  /** Trimming only removes characters. */
  lemma TrimWithin(s: string, c: char)
    requires c !in s
    ensures c !in Trim(s)
  {
    var t := TrimStart(s);
    var r := TrimEnd(t);
    forall k | 0 <= k < |r| ensures r[k] != c {
      assert r[k] == t[k] == s[|s| - |t| + k];
    }
  }

  /** The concatenation of a sequence of strings, `parts.join('')`. */
  function Concat(parts: seq<string>): string {
    if parts == [] then "" else parts[0] + Concat(parts[1..])
  }

  lemma {:induction false} ConcatAppend(a: seq<string>, b: seq<string>)
    ensures Concat(a + b) == Concat(a) + Concat(b)
  {
    if a == [] {
      assert a + b == b;
    } else {
      assert (a + b)[1..] == a[1..] + b;
      ConcatAppend(a[1..], b);
    }
  }

  /** `parts.join(sep)`. */
  function JoinWith(parts: seq<string>, sep: string): string {
    if parts == [] then ""
    else if |parts| == 1 then parts[0]
    else parts[0] + sep + JoinWith(parts[1..], sep)
  }

  /** `s.split('\n')`: the pieces between the newlines, always at least one. */
  function Split(s: string): (r: seq<string>)
    ensures |r| >= 1
    ensures forall i :: 0 <= i < |r| ==> '\n' !in r[i]
    ensures JoinWith(r, "\n") == s
    decreases |s|
  {
    if s == [] then [""]
    else
      var rest := Split(s[1..]);
      if s[0] == '\n' then
        assert s == "\n" + s[1..];
        [""] + rest
      else
        var r := [[s[0]] + rest[0]] + rest[1..];
        assert JoinWith(r, "\n") == [s[0]] + JoinWith(rest, "\n");
        assert s == [s[0]] + s[1..];
        r
  }

  /** Splitting undoes joining with newlines when no piece holds a newline, so `Split`
      is the inverse of `JoinWith(_, "\n")` in both directions. */
  lemma {:induction false} SplitOfJoin(parts: seq<string>)
    requires |parts| >= 1
    requires forall i :: 0 <= i < |parts| ==> '\n' !in parts[i]
    ensures Split(JoinWith(parts, "\n")) == parts
    decreases |parts|
  {
    if |parts| == 1 {
      SplitPlain(parts[0]);
    } else {
      SplitOfJoin(parts[1..]);
      SplitAfterPlain(parts[0], JoinWith(parts[1..], "\n"));
      assert [parts[0]] + parts[1..] == parts;
    }
  }

  lemma SplitNewline(x: string)
    ensures Split("\n" + x) == [""] + Split(x)
  {
    var s := "\n" + x;
    assert s[0] == '\n' && s[1..] == x;
  }

  lemma SplitChar(c: char, x: string)
    requires c != '\n'
    ensures var r := Split(x); Split([c] + x) == [[c] + r[0]] + r[1..]
  {
    var s := [c] + x;
    assert s[0] == c && s[1..] == x;
  }

  /** A text without a newline is one piece. */
  lemma {:induction false} SplitPlain(p: string)
    requires '\n' !in p
    ensures Split(p) == [p]
    decreases |p|
  {
    if p != [] {
      SplitPlain(p[1..]);
      SplitChar(p[0], p[1..]);
      assert [p[0]] + p[1..] == p;
    }
  }

  /** A piece without a newline, then a newline, then the rest. */
  lemma {:induction false} SplitAfterPlain(p: string, rest: string)
    requires '\n' !in p
    ensures Split(p + "\n" + rest) == [p] + Split(rest)
    decreases |p|
  {
    if p == [] {
      assert p + "\n" + rest == "\n" + rest;
      SplitNewline(rest);
    } else {
      var q := p[1..];
      SplitAfterPlain(q, rest);
      assert p + "\n" + rest == [p[0]] + (q + "\n" + rest);
      SplitChar(p[0], q + "\n" + rest);
      assert [p[0]] + q == p;
    }
  }

  /** The lines of `s` that a newline terminates, in order. */
  function CompleteLines(s: string): seq<string> {
    var p := Split(s);
    p[..|p| - 1]
  }

  /** What follows the last newline of `s`: the fragment a line reader holds back. */
  function Remainder(s: string): string {
    var p := Split(s);
    p[|p| - 1]
  }

  /** The text of a sequence of lines, each followed by a newline. */
  function Terminated(lines: seq<string>): string {
    if lines == [] then "" else lines[0] + "\n" + Terminated(lines[1..])
  }

  lemma {:induction false} JoinAsTerminated(p: seq<string>)
    requires |p| >= 1
    ensures JoinWith(p, "\n") == Terminated(p[..|p| - 1]) + p[|p| - 1]
  {
    if |p| > 1 {
      JoinAsTerminated(p[1..]);
      assert p[1..][..|p| - 2] == p[..|p| - 1][1..];
    }
  }

  /** A text is its complete lines, each with its newline, followed by the held-back
      fragment, which holds no newline. */
  lemma LinesRoundTrip(s: string)
    ensures Terminated(CompleteLines(s)) + Remainder(s) == s
    ensures '\n' !in Remainder(s)
    ensures forall i :: 0 <= i < |CompleteLines(s)| ==> '\n' !in CompleteLines(s)[i]
  {
    JoinAsTerminated(Split(s));
  }

  lemma {:induction false} JoinAfterTerminated(a: seq<string>, b: seq<string>)
    requires |b| >= 1
    ensures JoinWith(a + b, "\n") == Terminated(a) + JoinWith(b, "\n")
  {
    if a != [] {
      assert (a + b)[1..] == a[1..] + b;
      JoinAfterTerminated(a[1..], b);
    } else {
      assert a + b == b;
    }
  }

  /** Splitting a concatenation: the complete lines of the first part, then the split of
      its held-back fragment continued by the second part. */
  lemma SplitAppend(u: string, v: string)
    ensures Split(u + v) == CompleteLines(u) + Split(Remainder(u) + v)
  {
    var a := CompleteLines(u);
    var b := Split(Remainder(u) + v);
    LinesRoundTrip(u);
    JoinAfterTerminated(a, b);
    Associative(Terminated(a), Remainder(u), v);
    assert JoinWith(a + b, "\n") == u + v;
    PlainPiecesAppend(a, b);
    SplitOfJoin(a + b);
  }

  lemma Associative(x: string, y: string, z: string)
    ensures (x + y) + z == x + (y + z)
  {
  }

  lemma PlainPiecesAppend(a: seq<string>, b: seq<string>)
    requires forall i :: 0 <= i < |a| ==> '\n' !in a[i]
    requires forall i :: 0 <= i < |b| ==> '\n' !in b[i]
    ensures forall i :: 0 <= i < |a + b| ==> '\n' !in (a + b)[i]
  {
    forall i | 0 <= i < |a + b| ensures '\n' !in (a + b)[i] {
      if i >= |a| { assert (a + b)[i] == b[i - |a|]; }
    }
  }

  /** What a line reader does with one more chunk: the lines of the whole text are the
      lines seen so far followed by the lines completed by the held-back fragment and
      the chunk, and the new fragment is determined by the old fragment and the chunk. */
  lemma CompleteLinesAppend(u: string, v: string)
    ensures CompleteLines(u + v) == CompleteLines(u) + CompleteLines(Remainder(u) + v)
    ensures Remainder(u + v) == Remainder(Remainder(u) + v)
  {
    SplitAppend(u, v);
    LastOfAppend(CompleteLines(u), Split(Remainder(u) + v));
  }

  lemma LastOfAppend(a: seq<string>, b: seq<string>)
    requires |b| >= 1
    ensures (a + b)[..|a + b| - 1] == a + b[..|b| - 1] && (a + b)[|a + b| - 1] == b[|b| - 1]
  {
  }

  /** `f` applied to each string of `xs`, in order. */
  function Each(xs: seq<string>, f: string -> string): (r: seq<string>)
    ensures |r| == |xs|
    ensures forall k :: 0 <= k < |xs| ==> r[k] == f(xs[k])
  {
    if xs == [] then [] else Each(xs[..|xs| - 1], f) + [f(xs[|xs| - 1])]
  }

  /** Applying `f` to each line and concatenating the results distributes over
      concatenating the lines. */
  lemma ConcatEachAppend(a: seq<string>, b: seq<string>, f: string -> string)
    ensures Concat(Each(a + b, f)) == Concat(Each(a, f)) + Concat(Each(b, f))
  {
    assert Each(a + b, f) == Each(a, f) + Each(b, f);
    ConcatAppend(Each(a, f), Each(b, f));
  }

  lemma ConcatEachNext(a: seq<string>, x: string, f: string -> string)
    ensures Concat(Each(a + [x], f)) == Concat(Each(a, f)) + f(x)
  {
    ConcatEachAppend(a, [x], f);
    assert Concat([f(x)]) == f(x);
  }

  lemma ConcatEachOne(x: string, f: string -> string)
    ensures Concat(Each([x], f)) == f(x)
  {
    ConcatEachNext([], x, f);
    assert [] + [x] == [x];
  }

  lemma ConcatEachTwo(x: string, y: string, f: string -> string)
    ensures Concat(Each([x, y], f)) == f(x) + f(y)
  {
    ConcatEachOne(x, f);
    ConcatEachNext([x], y, f);
    assert [x] + [y] == [x, y];
  }

  /** One more line of a chunk's lines, after the lines of earlier chunks. */
  lemma ConcatEachStep(done: seq<string>, lines: seq<string>, j: nat, f: string -> string)
    requires j < |lines|
    ensures Concat(Each(done + lines[..j + 1], f)) == Concat(Each(done + lines[..j], f)) + f(lines[j])
  {
    assert done + lines[..j + 1] == (done + lines[..j]) + [lines[j]];
    ConcatEachNext(done + lines[..j], lines[j], f);
  }

  lemma ConcatNext(chunks: seq<string>, i: nat)
    requires i < |chunks|
    ensures Concat(chunks[..i + 1]) == Concat(chunks[..i]) + chunks[i]
  {
    assert chunks[..i + 1] == chunks[..i] + [chunks[i]];
    ConcatAppend(chunks[..i], [chunks[i]]);
    assert Concat([chunks[i]]) == chunks[i];
  }

  /** A line reader fed chunk by chunk: one more chunk completes the lines of the held-back
      fragment followed by that chunk, and leaves that text's fragment. */
  lemma ChunkLinesNext(chunks: seq<string>, i: nat)
    requires i < |chunks|
    ensures CompleteLines(Concat(chunks[..i + 1])) ==
      CompleteLines(Concat(chunks[..i])) + CompleteLines(Remainder(Concat(chunks[..i])) + chunks[i])
    ensures Remainder(Concat(chunks[..i + 1])) == Remainder(Remainder(Concat(chunks[..i])) + chunks[i])
  {
    assert chunks[..i + 1] == chunks[..i] + [chunks[i]];
    ConcatAppend(chunks[..i], [chunks[i]]);
    assert Concat([chunks[i]]) == chunks[i];
    CompleteLinesAppend(Concat(chunks[..i]), chunks[i]);
  }

  /** A trailing fragment without a newline never completes a line. */
  lemma UnterminatedTail(s: string, tail: string)
    requires '\n' !in tail
    ensures CompleteLines(s + tail) == CompleteLines(s)
    ensures Remainder(s + tail) == Remainder(s) + tail
  {
    SplitAppend(s, tail);
    LinesRoundTrip(s);
    var t := Remainder(s) + tail;
    assert '\n' !in t;
    SplitOfJoin([t]);
  }

  /** The decimal digit for `d`. */
  function DigitChar(d: nat): (c: char)
    requires d < 10
    ensures '0' <= c <= '9' && c as int - '0' as int == d
  {
    (d + '0' as int) as char
  }

  /** The decimal representation of a natural number, without leading zeros. */
  function NatToString(n: nat): (r: string)
    ensures |r| >= 1 && (n >= 10 ==> |r| >= 2)
    ensures forall i :: 0 <= i < |r| ==> '0' <= r[i] <= '9'
    decreases n
  {
    if n < 10 then [DigitChar(n)] else NatToString(n / 10) + [DigitChar(n % 10)]
  }

  /** `${i}` for an integer-valued Number. */
  function IntToString(i: int): (r: string)
    ensures i >= 0 ==> r == NatToString(i)
    ensures i < 0 ==> r == "-" + NatToString(-i)
  {
    if i < 0 then "-" + NatToString(-i) else NatToString(i)
  }

  lemma {:induction false} NatToStringInjective(a: nat, b: nat)
    requires NatToString(a) == NatToString(b)
    ensures a == b
    decreases a
  {
    var sa, sb := NatToString(a), NatToString(b);
    if a >= 10 && b >= 10 {
      assert sa[|sa| - 1] == DigitChar(a % 10);
      assert sb[|sb| - 1] == DigitChar(b % 10);
      assert sa[..|sa| - 1] == NatToString(a / 10);
      assert sb[..|sb| - 1] == NatToString(b / 10);
      NatToStringInjective(a / 10, b / 10);
    } else if a < 10 && b < 10 {
      assert sa[0] == DigitChar(a);
      assert sb[0] == DigitChar(b);
    }
  }

  lemma IntToStringInjective(a: int, b: int)
    requires IntToString(a) == IntToString(b)
    ensures a == b
  {
    var sa, sb := IntToString(a), IntToString(b);
    assert sa[0] == '-' <==> a < 0;
    assert sb[0] == '-' <==> b < 0;
    if a < 0 {
      assert sa[1..] == NatToString(-a) && sb[1..] == NatToString(-b);
      NatToStringInjective(-a, -b);
    } else {
      NatToStringInjective(a, b);
    }
  }

  /** `s.substring(0, n)` for an integer `n`: the end is clamped to the string. */
  function SubstringTo(s: string, n: int): (r: string)
    ensures 0 <= n <= |s| ==> r == s[..n]
    ensures n > |s| ==> r == s
    ensures n < 0 ==> r == ""
  {
    if n <= 0 then "" else if n >= |s| then s else s[..n]
  }

  /** `a.slice(0, n)` for an integer `n`: a negative end counts from the back. */
  function SliceTo<T>(a: seq<T>, n: int): (r: seq<T>)
    ensures |r| <= |a|
    ensures n >= 0 ==> |r| <= n && (n >= |a| ==> r == a)
    ensures r == a[..|r|]
  {
    if n >= 0 then (if n >= |a| then a else a[..n])
    else if |a| + n <= 0 then []
    else a[..|a| + n]
  }

  /** The largest index `k` in `[1, hi)` with `s[k] == '\n'`, or 0 when there is none. */
  function LastNewline(s: string, hi: nat): (k: nat)
    requires hi <= |s|
    ensures k == 0 || (1 <= k < hi && s[k] == '\n')
    ensures forall m :: k < m < hi && m >= 1 ==> s[m] != '\n'
    decreases hi
  {
    if hi <= 1 then 0 else if s[hi - 1] == '\n' then hi - 1 else LastNewline(s, hi - 1)
  }

  /** After a leading character, the run up to what `TrimStart` keeps is whitespace. */
  lemma SpacesAfterFirst(s: string)
    requires s != []
    ensures forall m :: 1 <= m < |s| - |TrimStart(s[1..])| ==> IsSpace(s[m])
  {
    forall m | 1 <= m < |s| - |TrimStart(s[1..])| ensures IsSpace(s[m]) {
      assert s[m] == s[1..][m - 1];
    }
  }

  /** The length of the match of `/\n\s*\n/` at the start of `s`, or 0 when there is
      none: a newline, the greedy whitespace run after it, backed off to its last
      newline. */
  function BlankRunAt(s: string): (n: nat)
    ensures n <= |s|
    ensures n > 0 ==> n >= 2 && s[0] == '\n' && s[n - 1] == '\n'
    ensures n == 0 && s != [] && s[0] == '\n' ==>
      forall m :: 1 <= m < |s| - |TrimStart(s[1..])| ==> s[m] != '\n'
  {
    if s == [] || s[0] != '\n' then 0
    else
      var k := LastNewline(s, |s| - |TrimStart(s[1..])|);
      if k == 0 then 0 else k + 1
  }

  /** `BlankRunAt` is the regular expression's match: newline, whitespace, newline; and
      the whitespace that follows the match holds no further newline (the quantifier is
      greedy). */
  lemma BlankRunAtMatches(s: string)
    ensures var n := BlankRunAt(s);
      n > 0 ==> forall m :: 1 <= m < n ==> IsSpace(s[m])
    ensures var n := BlankRunAt(s);
      n > 0 ==> forall m :: n <= m < |s| - |TrimStart(s[n..])| ==> s[m] != '\n'
  {
    if s != [] && s[0] == '\n' {
      var hi := |s| - |TrimStart(s[1..])|;
      var k := LastNewline(s, hi);
      if k > 0 {
        assert BlankRunAt(s) == k + 1;
        SpacesAfterFirst(s);
        BlankRunGreedy(s, k);
      }
    }
  }

  lemma BlankRunGreedy(s: string, k: nat)
    requires s != [] && 0 < k < |s| - |TrimStart(s[1..])|
    requires forall m :: k < m < |s| - |TrimStart(s[1..])| ==> s[m] != '\n'
    ensures forall m :: k + 1 <= m < |s| - |TrimStart(s[k + 1..])| ==> s[m] != '\n'
  {
    TrimStartOfSpaces(s[1..], k);
    assert s[1..][k..] == s[k + 1..];
  }

  /** Dropping part of a leading whitespace run does not change what `TrimStart` keeps. */
  lemma {:induction false} TrimStartOfSpaces(s: string, k: nat)
    requires k <= |s| - |TrimStart(s)|
    ensures TrimStart(s[k..]) == TrimStart(s)
    decreases k
  {
    if k > 0 {
      assert IsSpace(s[0]);
      assert s[1..][k - 1..] == s[k..];
      TrimStartOfSpaces(s[1..], k - 1);
    }
  }

  /** `s.replace(/\n\s*\n/g, '\n\n')`: every newline, whitespace, newline run becomes
      exactly two newlines, scanning left to right. */
  function CollapseBlankLines(s: string): (r: string)
    ensures '\n' !in s ==> r == s
    ensures |s| > 0 ==> |r| > 0 && r[0] == s[0]
    decreases |s|
  {
    if s == [] then []
    else
      var n := BlankRunAt(s);
      if n > 0 then "\n\n" + CollapseBlankLines(s[n..])
      else
        assert '\n' !in s ==> '\n' !in s[1..];
        [s[0]] + CollapseBlankLines(s[1..])
  }
}
