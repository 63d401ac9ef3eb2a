/** Removal of the detected macros in bot/continuous_macro.py: enclosing fences, span merging and
    reverse-order slicing, against a plain filter of the characters outside every recorded span. */
module MacroDeletion {
  import opened Common
  import opened MacroTokens
  import opened Text

  // ---- Merging spans ----

  predicate Covered(spans: seq<Span>, x: nat) {
    exists i :: 0 <= i < |spans| && spans[i].start <= x < spans[i].end
  }

  predicate Before(a: Span, b: Span) {
    a.start < b.start || (a.start == b.start && a.end <= b.end)
  }

  function InsertSpan(x: Span, s: seq<Span>): (r: seq<Span>)
    ensures |r| == |s| + 1 && forall y :: y in r <==> y == x || y in s
  {
    if s == [] then [x] else if Before(x, s[0]) then [x] + s else [s[0]] + InsertSpan(x, s[1..])
  }

  /** sorted() on spans: by start, then by end. */
  function SortSpans(s: seq<Span>): (r: seq<Span>)
    ensures |r| == |s| && forall y :: y in r <==> y in s
  {
    if s == [] then [] else InsertSpan(s[0], SortSpans(s[1..]))
  }

  ghost predicate Sorted(s: seq<Span>) {
    forall i, j :: 0 <= i < j < |s| ==> s[i].start <= s[j].start
  }

  lemma {:induction false} InsertSpanSorts(x: Span, s: seq<Span>)
    requires Sorted(s)
    ensures Sorted(InsertSpan(x, s))
  {
    if s != [] && !Before(x, s[0]) {
      InsertSpanSorts(x, s[1..]);
      var r := InsertSpan(x, s[1..]);
      forall k | 0 <= k < |r| ensures s[0].start <= r[k].start {
        assert r[k] in r;
      }
    }
  }

  lemma {:induction false} SortSpansSorts(s: seq<Span>)
    ensures Sorted(SortSpans(s))
  {
    if s != [] {
      SortSpansSorts(s[1..]);
      InsertSpanSorts(s[0], SortSpans(s[1..]));
    }
  }

  lemma SameCoverage(a: seq<Span>, b: seq<Span>, x: nat)
    requires forall y :: y in a <==> y in b
    ensures Covered(a, x) == Covered(b, x)
  {
    if i :| 0 <= i < |a| && a[i].start <= x < a[i].end {
      assert a[i] in b;
    }
    if i :| 0 <= i < |b| && b[i].start <= x < b[i].end {
      assert b[i] in a;
    }
  }

  /** Sorted, with at least one character between any two. */
  ghost predicate Separated(s: seq<Span>) {
    forall i, j :: 0 <= i < j < |s| ==> s[i].end < s[j].start
  }

  ghost predicate WithinText(s: seq<Span>, length: nat) {
    forall i :: 0 <= i < |s| ==> s[i].start <= s[i].end <= length
  }

  lemma CoverageOfAppend(spans: seq<Span>, s: Span, x: nat)
    ensures Covered(spans + [s], x) <==> Covered(spans, x) || s.start <= x < s.end
  {
    var t := spans + [s];
    if i :| 0 <= i < |spans| && spans[i].start <= x < spans[i].end {
      assert t[i] == spans[i];
    }
    if s.start <= x < s.end {
      assert t[|spans|] == s;
    }
  }

  lemma CoverageOfWidened(spans: seq<Span>, wide: Span, s: Span, x: nat)
    requires spans != []
    requires var last := spans[|spans| - 1];
             && wide.start == last.start <= s.start <= last.end
             && wide.end == (if s.end > last.end then s.end else last.end)
    ensures Covered(spans[|spans| - 1 := wide], x) <==> Covered(spans, x) || s.start <= x < s.end
  {
    var n := |spans| - 1;
    assert spans == spans[..n] + [spans[n]] && spans[n := wide] == spans[..n] + [wide];
    CoverageOfAppend(spans[..n], spans[n], x);
    CoverageOfAppend(spans[..n], wide, x);
  }

  /** What the loop knows after merging the spans of `seen`. */
  ghost predicate Merged(merged: seq<Span>, seen: seq<Span>, length: nat) {
    && WithinText(merged, length) && Separated(merged)
    && forall x :: Covered(merged, x) == Covered(seen, x)
  }

  lemma MergeWidens(merged: seq<Span>, seen: seq<Span>, length: nat, s: Span, wide: Span)
    requires Merged(merged, seen, length) && merged != [] && s.start <= s.end <= length
    requires var last := merged[|merged| - 1];
             && wide.start == last.start <= s.start <= last.end
             && wide.end == (if s.end > last.end then s.end else last.end)
    ensures Merged(merged[|merged| - 1 := wide], seen + [s], length)
  {
    forall x: nat ensures Covered(merged[|merged| - 1 := wide], x) == Covered(seen + [s], x) {
      CoverageOfWidened(merged, wide, s, x);
      CoverageOfAppend(seen, s, x);
    }
  }

  lemma MergeAppends(merged: seq<Span>, seen: seq<Span>, length: nat, s: Span)
    requires Merged(merged, seen, length) && s.start <= s.end <= length
    requires merged != [] ==> merged[|merged| - 1].end < s.start
    ensures Merged(merged + [s], seen + [s], length)
  {
    forall x: nat ensures Covered(merged + [s], x) == Covered(seen + [s], x) {
      CoverageOfAppend(merged, s, x);
      CoverageOfAppend(seen, s, x);
    }
  }

  method MergeSorted(spans: seq<Span>, ghost length: nat) returns (merged: seq<Span>)
    requires WithinText(spans, length) && Sorted(spans) && spans != []
    ensures Merged(merged, spans, length)
  {
    merged := [spans[0]];
    assert spans[..1] == [spans[0]];
    for i := 1 to |spans|
      invariant Merged(merged, spans[..i], length) && merged != []
      invariant merged[|merged| - 1].start <= spans[i - 1].start
    {
      var s, last := spans[i], merged[|merged| - 1];
      assert spans[..i + 1] == spans[..i] + [s];
      if s.start <= last.end {
        var wide := Span(last.start, if s.end > last.end then s.end else last.end);
        MergeWidens(merged, spans[..i], length, s, wide);
        merged := merged[|merged| - 1 := wide];
      } else {
        MergeAppends(merged, spans[..i], length, s);
        merged := merged + [s];
      }
    }
    assert spans[..|spans|] == spans;
  }

  method MergeSpans(spans: seq<Span>, ghost length: nat) returns (merged: seq<Span>)
    requires WithinText(spans, length)
    ensures WithinText(merged, length) && Separated(merged)
    ensures forall x :: Covered(merged, x) == Covered(spans, x)
  {
    if spans == [] {
      return [];
    }
    var sorted := SortSpans(spans);
    SortSpansSorts(spans);
    assert forall i :: 0 <= i < |sorted| ==> sorted[i] in sorted;
    merged := MergeSorted(sorted, length);
    forall x: nat ensures Covered(merged, x) == Covered(spans, x) {
      SameCoverage(sorted, spans, x);
    }
  }

  // ---- Deleting ----

  /** The characters from `lo` on that no span covers, in order. */
  function Outside(text: string, spans: seq<Span>, lo: nat): string
    requires lo <= |text|
    decreases |text| - lo
  {
    if lo == |text| then ""
    else (if Covered(spans, lo) then "" else [text[lo]]) + Outside(text, spans, lo + 1)
  }

  lemma {:induction false} OutsideUncovered(text: string, spans: seq<Span>, lo: nat, hi: nat)
    requires lo <= hi <= |text| && forall x :: lo <= x < hi ==> !Covered(spans, x)
    ensures Outside(text, spans, lo) == text[lo..hi] + Outside(text, spans, hi)
    decreases hi - lo
  {
    if lo < hi {
      OutsideUncovered(text, spans, lo + 1, hi);
      assert text[lo..hi] == [text[lo]] + text[lo + 1..hi];
      ConcatAssoc([text[lo]], text[lo + 1..hi], Outside(text, spans, hi));
    }
  }

  lemma {:induction false} OutsideCovered(text: string, spans: seq<Span>, lo: nat, hi: nat)
    requires lo <= hi <= |text| && forall x :: lo <= x < hi ==> Covered(spans, x)
    ensures Outside(text, spans, lo) == Outside(text, spans, hi)
    decreases hi - lo
  {
    if lo < hi {
      OutsideCovered(text, spans, lo + 1, hi);
    }
  }

  lemma {:induction false} OutsideSameCoverage(text: string, a: seq<Span>, b: seq<Span>, lo: nat)
    requires lo <= |text| && forall x :: Covered(a, x) == Covered(b, x)
    ensures Outside(text, a, lo) == Outside(text, b, lo)
    decreases |text| - lo
  {
    if lo < |text| {
      OutsideSameCoverage(text, a, b, lo + 1);
      assert Covered(a, lo) == Covered(b, lo);
    }
  }

  /** Where the text before merged span i ends: at the next span, or at the end. */
  function Bound(text: string, merged: seq<Span>, i: nat): nat {
    if i < |merged| then merged[i].start else |text|
  }

  lemma SpanGaps(text: string, merged: seq<Span>, i: nat)
    requires WithinText(merged, |text|) && Separated(merged) && i <= |merged|
    ensures Bound(text, merged, i) <= |text|
    ensures i > 0 ==> merged[i - 1].end <= Bound(text, merged, i)
    ensures forall x :: (if i > 0 then merged[i - 1].end else 0) <= x < Bound(text, merged, i) ==> !Covered(merged, x)
  {
  }

  /** One slice: from the filter after span i to the filter from it on. */
  lemma SliceOut(text: string, merged: seq<Span>, i: nat, stripped: string)
    requires WithinText(merged, |text|) && Separated(merged) && i < |merged|
    requires var b := Bound(text, merged, i + 1); b <= |text| && stripped == text[..b] + Outside(text, merged, b)
    ensures var start, end := merged[i].start, merged[i].end;
            start <= end <= |stripped|
            && stripped[..start] + stripped[end..] == text[..start] + Outside(text, merged, start)
  {
    var start, end, b := merged[i].start, merged[i].end, Bound(text, merged, i + 1);
    SpanGaps(text, merged, i + 1);
    OutsideUncovered(text, merged, end, b);
    InsideSpan(text, merged, i);
    CutSlices(text, b, Outside(text, merged, b), start, end);
  }

  lemma InsideSpan(text: string, merged: seq<Span>, i: nat)
    requires i < |merged| && merged[i].start <= merged[i].end <= |text|
    ensures Outside(text, merged, merged[i].start) == Outside(text, merged, merged[i].end)
  {
    forall x | merged[i].start <= x < merged[i].end ensures Covered(merged, x) {
    }
    OutsideCovered(text, merged, merged[i].start, merged[i].end);
  }

  lemma CutSlices(text: string, b: nat, kept: string, start: nat, end: nat)
    requires start <= end <= b <= |text|
    ensures (text[..b] + kept)[..start] == text[..start] && (text[..b] + kept)[end..] == text[end..b] + kept
  {
  }

  /** Slicing merged spans out from the last to the first is the filter. */
  method DeleteSpans(text: string, merged: seq<Span>) returns (stripped: string)
    requires WithinText(merged, |text|) && Separated(merged)
    ensures stripped == Outside(text, merged, 0)
  {
    stripped := text;
    assert text[..|text|] + Outside(text, merged, |text|) == text;
    var i := |merged|;
    while i > 0
      invariant 0 <= i <= |merged| && Bound(text, merged, i) <= |text|
      invariant stripped == text[..Bound(text, merged, i)] + Outside(text, merged, Bound(text, merged, i))
    {
      i := i - 1;
      SliceOut(text, merged, i, stripped);
      stripped := stripped[..merged[i].start] + stripped[merged[i].end..];
    }
    SpanGaps(text, merged, 0);
    OutsideUncovered(text, merged, 0, Bound(text, merged, 0));
    assert text[0..Bound(text, merged, 0)] == text[..Bound(text, merged, 0)];
  }

  // ---- Enclosing fences ----

  /** A fence match and its named group `body`. */
  datatype Fence = Fence(span: Span, body: Span)

  predicate FenceWithin(f: Fence, length: nat) {
    f.span.start <= f.body.start <= f.body.end <= f.span.end <= length
  }

  /** The fence's body is the inner span and whitespace. */
  predicate Encloses(text: string, f: Fence, inner: Span)
    requires FenceWithin(f, |text|)
  {
    && f.body.start <= inner.start <= inner.end <= f.body.end
    && AllSpace(text[f.body.start..inner.start]) && AllSpace(text[inner.end..f.body.end])
  }

  function FirstFence(text: string, fences: seq<Fence>, inner: Span): (r: Option<Span>)
    requires forall f :: f in fences ==> FenceWithin(f, |text|)
    ensures r.Some? ==> exists f :: f in fences && Encloses(text, f, inner) && r.value == f.span
  {
    if fences == [] then None
    else if Encloses(text, fences[0], inner) then Some(fences[0].span)
    else FirstFence(text, fences[1..], inner)
  }

  method EnclosingFence(text: string, fences: seq<Fence>, inner: Span) returns (r: Option<Span>)
    requires forall f :: f in fences ==> FenceWithin(f, |text|)
    requires inner.start <= inner.end
    ensures r == FirstFence(text, fences, inner)
  {
    for i := 0 to |fences|
      invariant FirstFence(text, fences, inner) == FirstFence(text, fences[i..], inner)
    {
      var m := fences[i];
      assert m in fences;
      assert fences[i..][1..] == fences[i + 1..];
      if m.body.start > inner.start || m.body.end < inner.end {
        continue;
      }
      var before, after := text[m.body.start..inner.start], text[inner.end..m.body.end];
      BlankIff(before);
      BlankIff(after);
      if Strip(before) != "" || Strip(after) != "" {
        continue;
      }
      return Some(m.span);
    }
    return None;
  }

  // ---- From tokens to the spans to remove ----

  function PrimarySpan(t: Token): Option<Span> {
    if t.openSpan.Some? && t.programSpan.Some? then
      var o, p := t.openSpan.value, t.programSpan.value;
      Some(Span(if o.start <= p.start then o.start else p.start, if o.end >= p.end then o.end else p.end))
    else if t.openSpan.Some? then t.openSpan
    else t.programSpan
  }

  function Fenced(text: string, fences: seq<Fence>, t: Token): Token
    requires forall f :: f in fences ==> FenceWithin(f, |text|)
  {
    var inner := PrimarySpan(t);
    if inner.None? then t
    else
      var fence := FirstFence(text, fences, inner.value);
      if fence.Some? then t.(fence := fence) else t
  }

  function FencedAll(text: string, fences: seq<Fence>, tokens: seq<Token>): (r: seq<Token>)
    requires forall f :: f in fences ==> FenceWithin(f, |text|)
    ensures |r| == |tokens| && forall i :: 0 <= i < |r| ==> r[i] == Fenced(text, fences, tokens[i])
  {
    seq(|tokens|, i requires 0 <= i < |tokens| => Fenced(text, fences, tokens[i]))
  }

  function Key(t: Token): nat {
    if PrimarySpan(t).Some? then PrimarySpan(t).value.start else 0
  }

  function InsertToken(x: Token, s: seq<Token>): (r: seq<Token>)
    ensures |r| == |s| + 1 && forall y :: y in r <==> y == x || y in s
  {
    if s == [] then [x] else if Key(x) <= Key(s[0]) then [x] + s else [s[0]] + InsertToken(x, s[1..])
  }

  /** The stable sort by primary start. */
  function SortTokens(s: seq<Token>): (r: seq<Token>)
    ensures |r| == |s| && forall y :: y in r <==> y in s
  {
    if s == [] then [] else InsertToken(s[0], SortTokens(s[1..]))
  }

  /** The tokens with one key, in their order. */
  function WithKey(s: seq<Token>, k: nat): seq<Token> {
    if s == [] then [] else (if Key(s[0]) == k then [s[0]] else []) + WithKey(s[1..], k)
  }

  ghost predicate InSourceOrder(s: seq<Token>) {
    forall i, j :: 0 <= i < j < |s| ==> Key(s[i]) <= Key(s[j])
  }

  lemma {:induction false} InsertTokenOrders(x: Token, s: seq<Token>)
    requires InSourceOrder(s)
    ensures InSourceOrder(InsertToken(x, s))
  {
    if s != [] && Key(x) > Key(s[0]) {
      InsertTokenOrders(x, s[1..]);
      var r := InsertToken(x, s[1..]);
      forall j | 0 <= j < |r| ensures Key(s[0]) <= Key(r[j]) {
        assert r[j] in r;
      }
    }
  }

  lemma {:induction false} InsertTokenStable(x: Token, s: seq<Token>, k: nat)
    ensures WithKey(InsertToken(x, s), k) == (if Key(x) == k then [x] else []) + WithKey(s, k)
  {
    if s != [] && Key(x) > Key(s[0]) {
      InsertTokenStable(x, s[1..], k);
    } else {
      assert ([x] + s)[1..] == s;
    }
  }

  /** Tokens come out in source order, and ties keep the order in which they were made. */
  lemma {:induction false} TokensSorted(s: seq<Token>, k: nat)
    ensures InSourceOrder(SortTokens(s))
    ensures WithKey(SortTokens(s), k) == WithKey(s, k)
  {
    if s != [] {
      TokensSorted(s[1..], k);
      InsertTokenOrders(s[0], SortTokens(s[1..]));
      InsertTokenStable(s[0], SortTokens(s[1..]), k);
    }
  }

  function SpansOf(t: Token): seq<Span> {
    if t.fence.Some? then [t.fence.value]
    else
      (if t.openSpan.Some? then [t.openSpan.value] else []) + if t.programSpan.Some? then [t.programSpan.value] else []
  }

  function Removal(tokens: seq<Token>): seq<Span> {
    if tokens == [] then [] else Removal(tokens[..|tokens| - 1]) + SpansOf(tokens[|tokens| - 1])
  }

  /** re.sub on runs of three or more newlines. */
  function CollapseNewlines(s: string): string
    decreases |s|
  {
    if s == "" then ""
    else if s[0] != '\n' then [s[0]] + CollapseNewlines(s[1..])
    else
      var n := Run(s);
      (if n >= 3 then "\n\n" else s[..n]) + CollapseNewlines(s[n..])
  }

  function Run(s: string): (n: nat)
    ensures n <= |s| && (s != "" && s[0] == '\n' ==> n > 0) && (n < |s| ==> s[n] != '\n')
    ensures forall i :: 0 <= i < n ==> s[i] == '\n'
  {
    if s == "" || s[0] != '\n' then 0 else 1 + Run(s[1..])
  }

  predicate TripleAt(s: string, i: nat) {
    i + 2 < |s| && s[i] == '\n' && s[i + 1] == '\n' && s[i + 2] == '\n'
  }

  lemma CollapseStarts(s: string)
    requires s != ""
    ensures CollapseNewlines(s) != "" && CollapseNewlines(s)[0] == s[0]
  {
  }

  /** Collapsing leaves no three newlines in a row. */
  lemma {:induction false} NoTripleNewlines(s: string, i: nat)
    ensures !TripleAt(CollapseNewlines(s), i)
    decreases |s|
  {
    if s != "" && s[0] != '\n' {
      NoTripleNewlines(s[1..], if i > 0 then i - 1 else 0);
    } else if s != "" {
      var n := Run(s);
      var kept := if n >= 3 then 2 else n;
      NoTripleNewlines(s[n..], if i >= kept then i - kept else 0);
      if n < |s| {
        CollapseStarts(s[n..]);
      }
    }
  }

  /** A text without three newlines in a row is left alone, so collapsing twice is collapsing once. */
  lemma {:induction false} CollapsedStays(s: string)
    requires forall i :: 0 <= i < |s| ==> !TripleAt(s, i)
    ensures CollapseNewlines(s) == s
    decreases |s|
  {
    if s != "" && s[0] != '\n' {
      forall i | 0 <= i < |s[1..]| ensures !TripleAt(s[1..], i) {
        assert !TripleAt(s, i + 1);
      }
      CollapsedStays(s[1..]);
    } else if s != "" {
      var n := Run(s);
      assert !TripleAt(s, 0);
      forall i | 0 <= i < |s[n..]| ensures !TripleAt(s[n..], i) {
        assert !TripleAt(s, i + n);
      }
      CollapsedStays(s[n..]);
    }
  }

  ghost predicate NewlineRun(r: string) {
    r != "" && forall i :: 0 <= i < |r| ==> r[i] == '\n'
  }

  lemma {:induction false} RunLength(r: string, b: string)
    requires (forall i :: 0 <= i < |r| ==> r[i] == '\n') && (b != "" ==> b[0] != '\n')
    ensures Run(r + b) == |r|
  {
    if r != "" {
      RunLength(r[1..], b);
      ConcatFirstOff(r, b);
    } else {
      assert r + b == b;
    }
  }

  lemma RunInside(a: string, b: string)
    requires a != "" && a[0] == '\n' && a[|a| - 1] != '\n'
    ensures Run(a + b) == Run(a) < |a| && (a + b)[Run(a)..] == a[Run(a)..] + b && (a + b)[..Run(a)] == a[..Run(a)]
  {
    var n := Run(a);
    assert a + b == a[..n] + (a[n..] + b);
    RunLength(a[..n], a[n..] + b);
  }

  /** Collapsing works run by run: a whole run of newlines becomes two if it is longer, and nothing else of the
      text around it moves. */
  lemma {:induction false} CollapseRun(a: string, run: string, b: string)
    requires NewlineRun(run) && (a != "" ==> a[|a| - 1] != '\n') && (b != "" ==> b[0] != '\n')
    ensures CollapseNewlines(a + run + b) ==
            CollapseNewlines(a) + (if |run| > 2 then "\n\n" else run) + CollapseNewlines(b)
    decreases |a|
  {
    ConcatAssoc(a, run, b);
    var kept := if |run| > 2 then "\n\n" else run;
    if a == "" {
      RunLength(run, b);
      assert a + run + b == run + b && (run + b)[|run|..] == b && (run + b)[..|run|] == run;
      assert CollapseNewlines(a) + kept == kept;
    } else if a[0] != '\n' {
      CollapseRun(a[1..], run, b);
      ConcatFirstOff(a, run + b);
      ConcatAssoc(a[1..], run, b);
      PrependRegroup([a[0]], CollapseNewlines(a[1..]), kept, CollapseNewlines(b));
    } else {
      var n := Run(a);
      RunInside(a, run + b);
      CollapseRun(a[n..], run, b);
      ConcatAssoc(a[n..], run, b);
      PrependRegroup(if n >= 3 then "\n\n" else a[..n], CollapseNewlines(a[n..]), kept, CollapseNewlines(b));
    }
  }

  lemma PrependRegroup(h: string, x: string, y: string, z: string)
    ensures h + (x + y + z) == h + x + y + z
  {
  }

  // ---- The whole extraction ----

  /** The match lists of the four patterns on one text. */
  datatype Scans = Scans(opens: seq<Opener>, blocks: seq<Block>, tags: seq<Span>, fences: seq<Fence>)

  ghost predicate ValidScans(text: string, m: Scans) {
    && Scan(OpenerSpans(m.opens), |text|) && Scan(BlockSpans(m.blocks), |text|) && Scan(m.tags, |text|)
    && forall f :: f in m.fences ==> FenceWithin(f, |text|)
  }

  function Strays(text: string, m: Scans): (strays: seq<Span>)
    requires forall i :: 0 <= i < |m.tags| ==> m.tags[i].start < m.tags[i].end <= |text|
    ensures forall k :: 0 <= k < |strays| ==> strays[k].end <= |text|
  {
    var strays := StraysOf(m.tags, BlockSpans(m.blocks));
    assert forall k :: 0 <= k < |strays| ==> strays[k] in strays;
    strays
  }

  function Detected(text: string, m: Scans): seq<Token>
    requires forall i :: 0 <= i < |m.tags| ==> m.tags[i].start < m.tags[i].end <= |text|
    requires forall f :: f in m.fences ==> FenceWithin(f, |text|)
  {
    SortTokens(FencedAll(text, m.fences, Tokens(text, m.opens, m.blocks, Strays(text, m))))
  }

  method AttachFences(text: string, fences: seq<Fence>, tokens: seq<Token>) returns (r: seq<Token>)
    requires forall f :: f in fences ==> FenceWithin(f, |text|)
    requires forall t :: t in tokens ==> PrimarySpan(t).None? || PrimarySpan(t).value.start <= PrimarySpan(t).value.end
    ensures r == FencedAll(text, fences, tokens)
  {
    r := [];
    for i := 0 to |tokens|
      invariant |r| == i && forall k :: 0 <= k < i ==> r[k] == Fenced(text, fences, tokens[k])
    {
      var tok := tokens[i];
      assert tok in tokens;
      var span := PrimarySpan(tok);
      if span.Some? {
        var fence := EnclosingFence(text, fences, span.value);
        if fence.Some? {
          tok := tok.(fence := fence);
        }
      }
      r := r + [tok];
    }
  }

  method SpansToRemove(tokens: seq<Token>) returns (spans: seq<Span>)
    ensures spans == Removal(tokens)
  {
    spans := [];
    for i := 0 to |tokens|
      invariant spans == Removal(tokens[..i])
    {
      assert tokens[..i + 1][..i] == tokens[..i];
      spans := spans + SpansOf(tokens[i]);
    }
    assert tokens[..|tokens|] == tokens;
  }

  lemma SpanWithin(spans: seq<Span>, length: nat, s: Span)
    requires Scan(spans, length) && s in spans
    ensures s.start < s.end <= length
  {
  }

  lemma PrimaryWithin(text: string, m: Scans, t: Token)
    requires ValidScans(text, m) && t in Tokens(text, m.opens, m.blocks, Strays(text, m))
    ensures PrimarySpan(t).Some? && PrimarySpan(t).value.start < PrimarySpan(t).value.end <= |text|
    ensures t.openSpan.Some? ==> t.openSpan.value.start < t.openSpan.value.end <= |text|
    ensures t.programSpan.Some? ==> t.programSpan.value.start < t.programSpan.value.end <= |text|
  {
    var strays := Strays(text, m);
    TokensComeFromMatches(text, m.opens, m.blocks, strays, t);
    StraysScan(m.tags, BlockSpans(m.blocks), |text|);
    if t.openSpan.Some? {
      SpanWithin(OpenerSpans(m.opens), |text|, t.openSpan.value);
    }
    if t.programSpan.Some? && !t.unclosed {
      SpanWithin(BlockSpans(m.blocks), |text|, t.programSpan.value);
    }
  }

  /** Every span to be removed lies in the text. */
  lemma {:induction false} RemovalWithin(tokens: seq<Token>, length: nat)
    requires forall t :: t in tokens ==> WithinText(SpansOf(t), length)
    ensures WithinText(Removal(tokens), length)
  {
    if tokens != [] {
      RemovalWithin(tokens[..|tokens| - 1], length);
      assert tokens[|tokens| - 1] in tokens;
    }
  }

  /** A fence lies in the text and covers the macro it was found for. */
  lemma FencedCovers(text: string, fences: seq<Fence>, t: Token)
    requires (forall f :: f in fences ==> FenceWithin(f, |text|)) && t.fence.None?
    ensures var u := Fenced(text, fences, t);
            && u.openSpan == t.openSpan && u.programSpan == t.programSpan
            && (u.fence.Some? ==>
                  && u.fence.value.start <= u.fence.value.end <= |text|
                  && PrimarySpan(t).Some?
                  && u.fence.value.start <= PrimarySpan(t).value.start
                  && PrimarySpan(t).value.end <= u.fence.value.end)
  {
  }

  ghost predicate TokenWithin(t: Token, length: nat) {
    && (t.openSpan.Some? ==> t.openSpan.value.start <= t.openSpan.value.end <= length)
    && (t.programSpan.Some? ==> t.programSpan.value.start <= t.programSpan.value.end <= length)
    && (t.fence.Some? ==> t.fence.value.start <= t.fence.value.end <= length)
  }

  lemma SpansOfWithin(t: Token, length: nat)
    requires TokenWithin(t, length)
    ensures WithinText(SpansOf(t), length)
  {
  }

  lemma FencedWithin(text: string, m: Scans, t: Token)
    requires ValidScans(text, m) && t in Tokens(text, m.opens, m.blocks, Strays(text, m))
    ensures TokenWithin(Fenced(text, m.fences, t), |text|)
  {
    PrimaryWithin(text, m, t);
    TokensComeFromMatches(text, m.opens, m.blocks, Strays(text, m), t);
    FencedCovers(text, m.fences, t);
  }

  lemma DetectedWithin(text: string, m: Scans, u: Token)
    requires ValidScans(text, m) && u in Detected(text, m)
    ensures WithinText(SpansOf(u), |text|)
  {
    var paired := Tokens(text, m.opens, m.blocks, Strays(text, m));
    var fenced := FencedAll(text, m.fences, paired);
    assert u in fenced;
    var i :| 0 <= i < |fenced| && u == fenced[i];
    FencedWithin(text, m, paired[i]);
    SpansOfWithin(u, |text|);
  }

  method ExtractContinuousMacros(text: string, m: Scans) returns (stripped: string, tokens: seq<Token>)
    requires ValidScans(text, m)
    ensures tokens == Detected(text, m)
    ensures stripped == if tokens == [] then text else Strip(CollapseNewlines(Outside(text, Removal(tokens), 0)))
  {
    var strays := StrayOpeners(m.tags, BlockSpans(m.blocks));
    assert strays == Strays(text, m);
    tokens := PairTokens(text, m.opens, m.blocks, strays);
    forall t | t in tokens ensures PrimarySpan(t).Some? && PrimarySpan(t).value.start <= PrimarySpan(t).value.end {
      PrimaryWithin(text, m, t);
    }
    tokens := AttachFences(text, m.fences, tokens);
    tokens := SortTokens(tokens);
    if tokens == [] {
      return text, [];
    }
    forall t | t in tokens ensures WithinText(SpansOf(t), |text|) {
      DetectedWithin(text, m, t);
    }
    RemovalWithin(tokens, |text|);
    var spans := SpansToRemove(tokens);
    var merged := MergeSpans(spans, |text|);
    stripped := DeleteSpans(text, merged);
    OutsideSameCoverage(text, merged, spans, 0);
    stripped := Strip(CollapseNewlines(stripped));
  }

  // ---- What the tokens carry ----

  /** Every detected token carries exactly the values of the opener, the closed block or the unclosed tag whose
      span it has. */
  lemma DetectedCarry(text: string, m: Scans, t: Token)
    requires ValidScans(text, m) && t in Detected(text, m)
    ensures forall o :: o in m.opens && t.openSpan == Some(o.span) ==>
              t.name == Some(o.name) && t.workDir == Some(o.workDir) && t.drainTimeout == o.drainTimeout
    ensures forall b :: b in m.blocks && t.programSpan == Some(b.span) && !t.unclosed ==> t.program == Some(b.body)
    ensures forall s :: s in Strays(text, m) && t.unclosed && t.programSpan == Some(Span(s.start, |text|)) ==>
              t.program == Some(text[s.end..])
    ensures t.openSpan.None? ==> t.name.None? && t.workDir.None? && t.drainTimeout.None?
    ensures t.programSpan.None? ==> t.program.None? && !t.unclosed
  {
    var strays := Strays(text, m);
    var u := DetectedFrom(text, m, t);
    TokensCarryMatches(text, m.opens, m.blocks, strays, u);
    forall o | o in m.opens && t.openSpan == Some(o.span)
      ensures t.name == Some(o.name) && t.workDir == Some(o.workDir) && t.drainTimeout == o.drainTimeout
    {
      OpenerCarried(text, m, u, o);
    }
    forall b | b in m.blocks && t.programSpan == Some(b.span) && !t.unclosed ensures t.program == Some(b.body) {
      BlockCarried(text, m, u, b);
    }
    forall s | s in strays && t.unclosed && t.programSpan == Some(Span(s.start, |text|))
      ensures t.program == Some(text[s.end..])
    {
      StrayCarried(text, m, u, s);
    }
  }

  /** Sorting and fences change nothing else of a token. */
  lemma DetectedFrom(text: string, m: Scans, t: Token) returns (u: Token)
    requires ValidScans(text, m) && t in Detected(text, m)
    ensures u in Tokens(text, m.opens, m.blocks, Strays(text, m)) && t == u.(fence := t.fence)
  {
    var tokens := Tokens(text, m.opens, m.blocks, Strays(text, m));
    var i :| 0 <= i < |tokens| && t == FencedAll(text, m.fences, tokens)[i];
    u := tokens[i];
    TokensComeFromMatches(text, m.opens, m.blocks, Strays(text, m), u);
  }

  lemma OpenerCarried(text: string, m: Scans, u: Token, o: Opener)
    requires ValidScans(text, m) && o in m.opens && u.openSpan == Some(o.span)
    requires Carries(u, text, m.opens, m.blocks, Strays(text, m))
    ensures u.name == Some(o.name) && u.workDir == Some(o.workDir) && u.drainTimeout == o.drainTimeout
  {
    var i :| 0 <= i < |m.opens| && u.openSpan == Some(m.opens[i].span) && u.name == Some(m.opens[i].name)
             && u.workDir == Some(m.opens[i].workDir) && u.drainTimeout == m.opens[i].drainTimeout;
    var j :| 0 <= j < |m.opens| && m.opens[j] == o;
    SpansTellApart(OpenerSpans(m.opens), |text|, i, j);
  }

  lemma BlockCarried(text: string, m: Scans, u: Token, b: Block)
    requires ValidScans(text, m) && b in m.blocks && u.programSpan == Some(b.span) && !u.unclosed
    requires Carries(u, text, m.opens, m.blocks, Strays(text, m))
    ensures u.program == Some(b.body)
  {
    var i :| 0 <= i < |m.blocks| && u.programSpan == Some(m.blocks[i].span) && u.program == Some(m.blocks[i].body);
    var j :| 0 <= j < |m.blocks| && m.blocks[j] == b;
    SpansTellApart(BlockSpans(m.blocks), |text|, i, j);
  }

  lemma StrayCarried(text: string, m: Scans, u: Token, s: Span)
    requires ValidScans(text, m) && s in Strays(text, m) && u.unclosed
    requires u.programSpan == Some(Span(s.start, |text|)) && Carries(u, text, m.opens, m.blocks, Strays(text, m))
    ensures u.program == Some(text[s.end..])
  {
    var strays := Strays(text, m);
    StraysScan(m.tags, BlockSpans(m.blocks), |text|);
    var i :| 0 <= i < |strays| && u.programSpan == Some(Span(strays[i].start, |text|))
             && u.program == Some(text[strays[i].end..]);
    var j :| 0 <= j < |strays| && strays[j] == s;
    SpansTellApart(strays, |text|, i, j);
  }

  // ---- What is removed ----

  predicate Covers(s: Option<Span>, x: nat) {
    s.Some? && s.value.start <= x < s.value.end
  }

  lemma {:induction false} RemovalCovers(tokens: seq<Token>, x: nat)
    ensures Covered(Removal(tokens), x) <==> exists t :: t in tokens && Covered(SpansOf(t), x)
  {
    if tokens != [] {
      var rest, t := tokens[..|tokens| - 1], tokens[|tokens| - 1];
      RemovalCovers(rest, x);
      CoverageOfConcat(Removal(rest), SpansOf(t), x);
      assert t in tokens;
    }
  }

  lemma CoverageOfConcat(a: seq<Span>, b: seq<Span>, x: nat)
    ensures Covered(a + b, x) <==> Covered(a, x) || Covered(b, x)
  {
    var c := a + b;
    if i :| 0 <= i < |a| && a[i].start <= x < a[i].end {
      assert c[i] == a[i];
    }
    if i :| 0 <= i < |b| && b[i].start <= x < b[i].end {
      assert c[|a| + i] == b[i];
    }
  }

  lemma SpansOfCover(t: Token, x: nat)
    ensures Covered(SpansOf(t), x)
            <==> if t.fence.Some? then Covers(t.fence, x) else Covers(t.openSpan, x) || Covers(t.programSpan, x)
  {
    var s := SpansOf(t);
    if t.fence.None? && Covers(t.openSpan, x) {
      assert s[0] == t.openSpan.value;
    }
    if t.fence.None? && Covers(t.programSpan, x) {
      assert s[|s| - 1] == t.programSpan.value;
    }
    if t.fence.Some? {
      assert s[0] == t.fence.value;
    }
  }

  /** The fence holds the stretch of text and otherwise nothing but whitespace. */
  ghost predicate Alone(text: string, f: Fence, start: nat, end: nat)
    requires FenceWithin(f, |text|)
  {
    && f.body.start <= start <= end <= f.body.end
    && forall k :: f.body.start <= k < start || end <= k < f.body.end ==> IsSpace(text[k])
  }

  /** The first fence in which the stretch is alone. */
  ghost predicate FenceAt(text: string, fences: seq<Fence>, start: nat, end: nat, n: nat)
    requires forall f :: f in fences ==> FenceWithin(f, |text|)
  {
    && n < |fences| && Alone(text, fences[n], start, end)
    && forall j :: 0 <= j < n ==> !Alone(text, fences[j], start, end)
  }

  lemma EnclosesIff(text: string, f: Fence, inner: Span)
    requires FenceWithin(f, |text|)
    ensures Encloses(text, f, inner) <==> Alone(text, f, inner.start, inner.end)
  {
    if f.body.start <= inner.start <= inner.end <= f.body.end {
      var before, after := text[f.body.start..inner.start], text[inner.end..f.body.end];
      assert forall k :: f.body.start <= k < inner.start ==> before[k - f.body.start] == text[k];
      assert forall k :: inner.end <= k < f.body.end ==> after[k - inner.end] == text[k];
    }
  }

  /** The search finds the first such fence, and none only if there is none. */
  lemma {:induction false} FirstFenceAt(text: string, fences: seq<Fence>, inner: Span) returns (n: nat)
    requires forall f :: f in fences ==> FenceWithin(f, |text|)
    ensures match FirstFence(text, fences, inner)
            case Some(span) => FenceAt(text, fences, inner.start, inner.end, n) && span == fences[n].span
            case None => forall f :: f in fences ==> !Alone(text, f, inner.start, inner.end)
  {
    n := 0;
    if fences != [] {
      EnclosesIff(text, fences[0], inner);
      if !Encloses(text, fences[0], inner) {
        var rest := FirstFenceAt(text, fences[1..], inner);
        n := rest + 1;
        assert forall j :: 0 < j < |fences| ==> fences[j] == fences[1..][j - 1];
      }
    }
  }

  /** From where to where a macro reaches: from its opener, if it has one, to the end of its block, if it has one. */
  function MacroStart(t: Token): nat {
    if t.openSpan.Some? then t.openSpan.value.start else if t.programSpan.Some? then t.programSpan.value.start else 0
  }

  function MacroEnd(t: Token): nat {
    if t.programSpan.Some? then t.programSpan.value.end else if t.openSpan.Some? then t.openSpan.value.end else 0
  }

  lemma PrimaryIs(text: string, m: Scans, t: Token)
    requires ValidScans(text, m) && t in Tokens(text, m.opens, m.blocks, Strays(text, m))
    ensures PrimarySpan(t) == Some(Span(MacroStart(t), MacroEnd(t)))
  {
    PrimaryWithin(text, m, t);
    TokensComeFromMatches(text, m.opens, m.blocks, Strays(text, m), t);
  }

  /** Detected macros come in the order in which they start in the text. */
  lemma DetectedInOrder(text: string, m: Scans, i: nat, j: nat)
    requires ValidScans(text, m) && i < j < |Detected(text, m)|
    ensures MacroStart(Detected(text, m)[i]) <= MacroStart(Detected(text, m)[j])
  {
    var paired := FencedAll(text, m.fences, Tokens(text, m.opens, m.blocks, Strays(text, m)));
    TokensSorted(paired, 0);
    KeyIsStart(text, m, Detected(text, m)[i]);
    KeyIsStart(text, m, Detected(text, m)[j]);
  }

  lemma KeyIsStart(text: string, m: Scans, t: Token)
    requires ValidScans(text, m) && t in Detected(text, m)
    ensures Key(t) == MacroStart(t)
  {
    var u := DetectedFrom(text, m, t);
    PrimaryIs(text, m, u);
  }

  /** A detected macro's fence is the first one in which it is alone, if there is one. */
  lemma FenceIsFirst(text: string, m: Scans, t: Token) returns (n: nat)
    requires ValidScans(text, m) && t in Tokens(text, m.opens, m.blocks, Strays(text, m))
    ensures match Fenced(text, m.fences, t).fence
            case Some(span) => FenceAt(text, m.fences, MacroStart(t), MacroEnd(t), n) && span == m.fences[n].span
            case None => forall f :: f in m.fences ==> !Alone(text, f, MacroStart(t), MacroEnd(t))
  {
    PrimaryIs(text, m, t);
    TokensComeFromMatches(text, m.opens, m.blocks, Strays(text, m), t);
    n := FirstFenceAt(text, m.fences, Span(MacroStart(t), MacroEnd(t)));
  }

  /** The macro takes its opener and its block away; alone in a fence, the first such fence, whole. */
  ghost predicate Takes(text: string, fences: seq<Fence>, t: Token, x: nat)
    requires forall f :: f in fences ==> FenceWithin(f, |text|)
  {
    if exists n: nat :: FenceAt(text, fences, MacroStart(t), MacroEnd(t), n) then
      exists n: nat :: FenceAt(text, fences, MacroStart(t), MacroEnd(t), n) && Covers(Some(fences[n].span), x)
    else Covers(t.openSpan, x) || Covers(t.programSpan, x)
  }

  lemma OneFence(text: string, fences: seq<Fence>, start: nat, end: nat, k: nat, n: nat)
    requires forall f :: f in fences ==> FenceWithin(f, |text|)
    requires FenceAt(text, fences, start, end, k) && FenceAt(text, fences, start, end, n)
    ensures k == n
  {
  }

  lemma TakesFence(text: string, fences: seq<Fence>, t: Token, x: nat, n: nat)
    requires forall f :: f in fences ==> FenceWithin(f, |text|)
    requires FenceAt(text, fences, MacroStart(t), MacroEnd(t), n)
    ensures Takes(text, fences, t, x) <==> Covers(Some(fences[n].span), x)
  {
    forall k: nat | FenceAt(text, fences, MacroStart(t), MacroEnd(t), k) ensures k == n {
      OneFence(text, fences, MacroStart(t), MacroEnd(t), k, n);
    }
  }

  lemma TakesBare(text: string, fences: seq<Fence>, t: Token, x: nat)
    requires forall f :: f in fences ==> FenceWithin(f, |text|)
    requires forall f :: f in fences ==> !Alone(text, f, MacroStart(t), MacroEnd(t))
    ensures Takes(text, fences, t, x) <==> Covers(t.openSpan, x) || Covers(t.programSpan, x)
  {
  }

  lemma FencedTakes(text: string, m: Scans, t: Token, x: nat)
    requires ValidScans(text, m) && t in Tokens(text, m.opens, m.blocks, Strays(text, m))
    ensures Covered(SpansOf(Fenced(text, m.fences, t)), x) <==> Takes(text, m.fences, t, x)
  {
    var u := Fenced(text, m.fences, t);
    SpansOfCover(u, x);
    var n := FenceIsFirst(text, m, t);
    if u.fence.Some? {
      TakesFence(text, m.fences, t, x, n);
    } else {
      TakesBare(text, m.fences, t, x);
    }
  }

  /** The detected tokens are the paired ones with their fences. */
  lemma DetectedAre(text: string, m: Scans)
    requires ValidScans(text, m)
    ensures forall t :: t in Tokens(text, m.opens, m.blocks, Strays(text, m)) ==>
              t.fence.None? && Fenced(text, m.fences, t) in Detected(text, m)
    ensures forall u :: u in Detected(text, m) ==>
              exists t :: t in Tokens(text, m.opens, m.blocks, Strays(text, m)) && u == Fenced(text, m.fences, t)
  {
    var paired := Tokens(text, m.opens, m.blocks, Strays(text, m));
    var fenced := FencedAll(text, m.fences, paired);
    forall t | t in paired ensures t.fence.None? && Fenced(text, m.fences, t) in fenced {
      var i :| 0 <= i < |paired| && paired[i] == t;
      assert fenced[i] == Fenced(text, m.fences, t);
      TokensComeFromMatches(text, m.opens, m.blocks, Strays(text, m), t);
    }
    forall u | u in fenced ensures exists t :: t in paired && u == Fenced(text, m.fences, t) {
      var i :| 0 <= i < |fenced| && u == fenced[i];
      assert paired[i] in paired;
    }
  }

  /** A character goes exactly when some detected macro's opener or block covers it, or, for a macro alone
      in a code fence, the fence does. */
  lemma RemovedIff(text: string, m: Scans, x: nat)
    requires ValidScans(text, m)
    ensures Covered(Removal(Detected(text, m)), x)
            <==> exists t :: t in Tokens(text, m.opens, m.blocks, Strays(text, m)) && Takes(text, m.fences, t, x)
  {
    RemovalCovers(Detected(text, m), x);
    DetectedAre(text, m);
    forall t | t in Tokens(text, m.opens, m.blocks, Strays(text, m))
      ensures Covered(SpansOf(Fenced(text, m.fences, t)), x) <==> Takes(text, m.fences, t, x)
    {
      FencedTakes(text, m, t, x);
    }
  }

  lemma {:induction false} ProgramSpanToken(tokens: seq<Token>, s: Span) returns (t: Token)
    requires s in ProgramSpans(tokens)
    ensures t in tokens && t.programSpan == Some(s)
  {
    var rest := tokens[..|tokens| - 1];
    if s in ProgramSpans(rest) {
      t := ProgramSpanToken(rest, s);
    } else {
      t := tokens[|tokens| - 1];
    }
  }

  lemma {:induction false} OpenSpanToken(tokens: seq<Token>, s: Span) returns (t: Token)
    requires s in OpenSpans(tokens)
    ensures t in tokens && t.openSpan == Some(s)
  {
    var rest := tokens[..|tokens| - 1];
    if s in OpenSpans(rest) {
      t := OpenSpanToken(rest, s);
    } else {
      t := tokens[|tokens| - 1];
    }
  }

  lemma PrimaryCovers(t: Token, x: nat)
    requires Covers(t.openSpan, x) || Covers(t.programSpan, x)
    ensures Covers(PrimarySpan(t), x)
  {
  }

  lemma FencedStillCovers(text: string, fences: seq<Fence>, t: Token, x: nat)
    requires (forall f :: f in fences ==> FenceWithin(f, |text|)) && t.fence.None?
    requires Covers(t.openSpan, x) || Covers(t.programSpan, x)
    ensures Covered(SpansOf(Fenced(text, fences, t)), x)
  {
    PrimaryCovers(t, x);
    FencedCovers(text, fences, t);
    SpansOfCover(Fenced(text, fences, t), x);
  }

  lemma TokenRemoved(text: string, m: Scans, t: Token, x: nat)
    requires ValidScans(text, m) && t in Tokens(text, m.opens, m.blocks, Strays(text, m))
    requires Covers(t.openSpan, x) || Covers(t.programSpan, x)
    ensures Covered(Removal(Detected(text, m)), x)
  {
    DetectedAre(text, m);
    FencedStillCovers(text, m.fences, t, x);
    RemovalCovers(Detected(text, m), x);
  }

  /** The removed region covers every opener, every closed block, and everything after an unclosed program
      opener the filter let through. */
  lemma EverySpanRemoved(text: string, m: Scans, s: Span, x: nat)
    requires ValidScans(text, m) && s.start <= x < s.end
    requires s in OpenerSpans(m.opens) || s in BlockSpans(m.blocks) || s in ToEnd(Strays(text, m), |text|)
    ensures Covered(Removal(Detected(text, m)), x)
  {
    var strays := Strays(text, m);
    var tokens := Tokens(text, m.opens, m.blocks, strays);
    EverythingInOneToken(text, m.opens, m.blocks, strays);
    var t: Token;
    if s in OpenerSpans(m.opens) {
      t := OpenSpanToken(tokens, s);
    } else {
      assert s in multiset(ProgramSpans(tokens));
      t := ProgramSpanToken(tokens, s);
    }
    TokenRemoved(text, m, t, x);
  }

  /** Nothing of an unclosed block reaches the reply: what is kept are characters before its opener. */
  lemma {:induction false} KeptBeforeStray(text: string, spans: seq<Span>, stray: nat, lo: nat)
    requires lo <= stray <= |text| && forall x :: stray <= x < |text| ==> Covered(spans, x)
    ensures Outside(text, spans, lo) == Outside(text[..stray], spans, lo)
    decreases stray - lo
  {
    if lo < stray {
      KeptBeforeStray(text, spans, stray, lo + 1);
    } else {
      OutsideCovered(text, spans, stray, |text|);
    }
  }

  lemma StrayTailRemoved(text: string, m: Scans, stray: Span, x: nat)
    requires ValidScans(text, m) && stray in Strays(text, m) && stray.start <= x < |text|
    ensures Covered(Removal(Detected(text, m)), x)
  {
    var strays := Strays(text, m);
    var k :| 0 <= k < |strays| && strays[k] == stray;
    EverySpanRemoved(text, m, ToEnd(strays, |text|)[k], x);
  }

  lemma UnclosedPayloadGone(text: string, m: Scans, stray: Span)
    requires ValidScans(text, m) && stray in Strays(text, m)
    ensures var removal := Removal(Detected(text, m));
            stray.start <= |text| && Outside(text, removal, 0) == Outside(text[..stray.start], removal, 0)
  {
    StraysScan(m.tags, BlockSpans(m.blocks), |text|);
    SpanWithin(Strays(text, m), |text|, stray);
    var removal := Removal(Detected(text, m));
    forall x | stray.start <= x < |text| ensures Covered(removal, x) {
      StrayTailRemoved(text, m, stray, x);
    }
    KeptBeforeStray(text, removal, stray.start, 0);
  }

  lemma KeptIfUncovered(text: string, m: Scans, x: nat)
    requires ValidScans(text, m) && m.fences == [] && m.opens == [] && Strays(text, m) == []
    requires forall b :: b in BlockSpans(m.blocks) ==> !(b.start <= x < b.end)
    ensures !Covered(Removal(Detected(text, m)), x)
  {
    RemovedIff(text, m, x);
    forall t | t in Tokens(text, m.opens, m.blocks, Strays(text, m))
      ensures !Takes(text, m.fences, t, x)
    {
      TokensComeFromMatches(text, m.opens, m.blocks, Strays(text, m), t);
    }
  }

  const OPEN_TAG := "[CONTINUOUS_PROGRAM]"
  const CLOSE_TAG := "[/CONTINUOUS_PROGRAM]"
  const PADDED_TAG := "[                     CONTINUOUS_PROGRAM]"

  /** The scanner's view of an empty closed block, a padded opener, and a payload in which none of its
      patterns can start. */
  function PaddedScans(): Scans {
    Scans([], [Block(Span(0, 41), "")], [Span(0, 20), Span(41, 82)], [])
  }

  lemma PaddedLayout(payload: string)
    ensures var text := OPEN_TAG + CLOSE_TAG + PADDED_TAG + payload;
            && |text| == 82 + |payload|
            && text[0..20] == OPEN_TAG && text[20..41] == CLOSE_TAG && text[41..82] == PADDED_TAG
            && text[41..] == PADDED_TAG + payload && text[82..] == payload && text[0..41] == OPEN_TAG + CLOSE_TAG
  {
  }

  /** The filter's gap, end to end: after an empty closed block, the unclosed opener padded to 41 characters
      is dropped from the strays. No token is made for it, and its payload, whatever it is, stays. */
  lemma PaddedPayloadLeaks(payload: string)
    requires '[' !in payload && '`' !in payload
    ensures var text, m := OPEN_TAG + CLOSE_TAG + PADDED_TAG + payload, PaddedScans();
            && ValidScans(text, m)
            && m.tags == [Span(0, 20), Span(41, 82)] && text[0..20] == OPEN_TAG && text[41..82] == PADDED_TAG
            && BlockSpans(m.blocks) == [Span(0, 41)] && text[0..41] == OPEN_TAG + CLOSE_TAG
            && text[82..] == payload
            && Outside(text, Removal(Detected(text, m)), 0) == PADDED_TAG + payload
  {
    PaddedLayout(payload);
    PaddedKeepsTail(OPEN_TAG + CLOSE_TAG + PADDED_TAG + payload);
  }

  lemma PaddedCovers(text: string, x: nat)
    requires |text| >= 82 && x < |text|
    ensures ValidScans(text, PaddedScans())
    ensures Covered(Removal(Detected(text, PaddedScans())), x) <==> x < 41
  {
    var m := PaddedScans();
    PaddedIsNoStray(text);
    if x < 41 {
      EverySpanRemoved(text, m, BlockSpans(m.blocks)[0], x);
    } else {
      KeptIfUncovered(text, m, x);
    }
  }

  lemma PaddedKeepsTail(text: string)
    requires |text| >= 82
    ensures ValidScans(text, PaddedScans())
    ensures Outside(text, Removal(Detected(text, PaddedScans())), 0) == text[41..]
  {
    PaddedIsNoStray(text);
    var removal := Removal(Detected(text, PaddedScans()));
    forall x | 0 <= x < |text| ensures Covered(removal, x) <==> x < 41 {
      PaddedCovers(text, x);
    }
    TailOutside(text, removal, 41);
  }

  lemma TailOutside(text: string, spans: seq<Span>, from: nat)
    requires from <= |text| && forall x :: 0 <= x < |text| ==> (Covered(spans, x) <==> x < from)
    ensures Outside(text, spans, 0) == text[from..]
  {
    OutsideCovered(text, spans, 0, from);
    OutsideUncovered(text, spans, from, |text|);
    assert text[from..|text|] == text[from..];
  }

  lemma PaddedIsNoStray(text: string)
    requires |text| >= 82
    ensures ValidScans(text, PaddedScans()) && Strays(text, PaddedScans()) == []
  {
    var m := PaddedScans();
    var blocks := BlockSpans(m.blocks);
    assert InWindow(m.tags[0], blocks[0]) && InWindow(m.tags[1], blocks[0]);
    StraysOfTwo(m.tags, blocks);
  }

  lemma StraysOfTwo(tags: seq<Span>, blocks: seq<Span>)
    requires |tags| == 2 && forall i :: 0 <= i < 2 ==> tags[i].start < tags[i].end && Skipped(tags[i], blocks)
    ensures StraysOf(tags, blocks) == []
  {
    assert StraysOf(tags[..1], blocks) == StraysOf(tags[..1][..0], blocks);
  }
}
