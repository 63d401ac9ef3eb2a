/** Token detection of bot/continuous_macro.py: which unclosed program openers count as stray, and the
    greedy pairing of macro openers with program blocks. The regular expressions are given match lists. */
module MacroTokens {
  import opened Common

  datatype Span = Span(start: nat, end: nat)

  datatype Opener = Opener(span: Span, name: string, workDir: string, drainTimeout: Option<string>)

  /** A closed [CONTINUOUS_PROGRAM]...[/CONTINUOUS_PROGRAM] pair. */
  datatype Block = Block(span: Span, body: string)

  datatype Token = Token(
    openSpan: Option<Span>,
    programSpan: Option<Span>,
    name: Option<string>,
    workDir: Option<string>,
    drainTimeout: Option<string>,
    program: Option<string>,
    fence: Option<Span>,
    unclosed: bool)

  /** What a finditer scan yields: non-empty matches in source order, none overlapping the next. */
  ghost predicate Scan(spans: seq<Span>, length: nat) {
    && (forall i :: 0 <= i < |spans| ==> spans[i].start < spans[i].end <= length)
    && (forall i, j :: 0 <= i < j < |spans| ==> spans[i].end <= spans[j].start)
  }

  function OpenerSpans(opens: seq<Opener>): (r: seq<Span>)
    ensures |r| == |opens| && forall i :: 0 <= i < |r| ==> r[i] == opens[i].span
  {
    seq(|opens|, i requires 0 <= i < |opens| => opens[i].span)
  }

  function BlockSpans(blocks: seq<Block>): (r: seq<Span>)
    ensures |r| == |blocks| && forall i :: 0 <= i < |r| ==> r[i] == blocks[i].span
  {
    seq(|blocks|, i requires 0 <= i < |blocks| => blocks[i].span)
  }

  // ---- Stray program openers ----

  predicate Inside(tag: Span, block: Span) {
    block.start <= tag.start < block.end
  }

  /** The filter's first test: a window of the tag's own length after the block's start. */
  predicate InWindow(tag: Span, block: Span)
    requires tag.start <= tag.end
  {
    block.start <= tag.start < block.start + (tag.end - tag.start) + 1
  }

  predicate Skipped(tag: Span, blocks: seq<Span>)
    requires tag.start <= tag.end
  {
    || (exists i :: 0 <= i < |blocks| && InWindow(tag, blocks[i]))
    || (exists i :: 0 <= i < |blocks| && tag.start == blocks[i].start)
    || (exists i :: 0 <= i < |blocks| && Inside(tag, blocks[i]))
  }

  function StraysOf(tags: seq<Span>, blocks: seq<Span>): (strays: seq<Span>)
    requires forall i :: 0 <= i < |tags| ==> tags[i].start < tags[i].end
    ensures forall tag :: tag in strays <==> tag in tags && !Skipped(tag, blocks)
  {
    if tags == [] then []
    else
      var m := tags[|tags| - 1];
      var rest := StraysOf(tags[..|tags| - 1], blocks);
      assert forall tag :: tag in tags <==> tag in tags[..|tags| - 1] || tag == m;
      if Skipped(m, blocks) then rest else rest + [m]
  }

  lemma StrayIsTag(tags: seq<Span>, blocks: seq<Span>, length: nat, n: nat, k: nat)
    requires Scan(tags, length) && n < |tags| && k < |StraysOf(tags[..n], blocks)|
    ensures var s := StraysOf(tags[..n], blocks)[k]; s.start < s.end <= tags[n].start
  {
    var s := StraysOf(tags[..n], blocks)[k];
    assert s in tags[..n];
    var j :| 0 <= j < n && tags[..n][j] == s;
    assert tags[j].end <= tags[n].start;
  }

  lemma ScanAppend(spans: seq<Span>, s: Span, length: nat)
    requires Scan(spans, length) && s.start < s.end <= length
    requires forall k :: 0 <= k < |spans| ==> spans[k].end <= s.start
    ensures Scan(spans + [s], length)
  {
  }

  lemma ScanPrefix(spans: seq<Span>, length: nat, n: nat)
    requires Scan(spans, length) && n <= |spans|
    ensures Scan(spans[..n], length)
  {
  }

  lemma {:induction false} StraysScan(tags: seq<Span>, blocks: seq<Span>, length: nat)
    requires Scan(tags, length)
    ensures Scan(StraysOf(tags, blocks), length)
  {
    if tags != [] {
      var n := |tags| - 1;
      var rest := StraysOf(tags[..n], blocks);
      ScanPrefix(tags, length, n);
      StraysScan(tags[..n], blocks, length);
      forall k | 0 <= k < |rest| ensures rest[k].end <= tags[n].start {
        StrayIsTag(tags, blocks, length, n, k);
      }
      ScanAppend(rest, tags[n], length);
    }
  }

  method StrayOpeners(tags: seq<Span>, blocks: seq<Span>) returns (strays: seq<Span>)
    requires forall i :: 0 <= i < |tags| ==> tags[i].start < tags[i].end
    ensures strays == StraysOf(tags, blocks)
  {
    strays := [];
    for i := 0 to |tags|
      invariant strays == StraysOf(tags[..i], blocks)
    {
      var m := tags[i];
      assert tags[..i + 1][..i] == tags[..i];
      if exists k :: 0 <= k < |blocks| && InWindow(m, blocks[k]) {
        continue;
      }
      if exists k :: 0 <= k < |blocks| && m.start == blocks[k].start {
        continue;
      }
      if exists k :: 0 <= k < |blocks| && Inside(m, blocks[k]) {
        continue;
      }
      strays := strays + [m];
    }
    assert tags[..|tags|] == tags;
  }

  /** The filter is meant to drop the tags inside a closed block. It drops a tag that lies outside them all
      iff some block ends before the tag and is no longer, up to the gap between them, than the tag itself:
      a tag with enough whitespace between its brackets. That unclosed block is then never detected. */
  lemma MissedIff(tag: Span, blocks: seq<Span>)
    requires tag.start < tag.end && forall i :: 0 <= i < |blocks| ==> blocks[i].start < blocks[i].end
    requires forall i :: 0 <= i < |blocks| ==> !Inside(tag, blocks[i])
    ensures Skipped(tag, blocks)
            <==> exists i :: 0 <= i < |blocks| && blocks[i].end <= tag.start
                             && tag.start - blocks[i].start <= tag.end - tag.start
  {
    if Skipped(tag, blocks) {
      var i :| 0 <= i < |blocks| && InWindow(tag, blocks[i]);
      assert !Inside(tag, blocks[i]);
      assert blocks[i].end <= tag.start && tag.start - blocks[i].start <= tag.end - tag.start;
    }
    if i :| 0 <= i < |blocks| && blocks[i].end <= tag.start
            && tag.start - blocks[i].start <= tag.end - tag.start {
      assert InWindow(tag, blocks[i]);
    }
  }

  /** An empty closed block of 41 characters, then an unclosed opener padded to 41: not a stray. */
  lemma PaddedOpenerIsMissed()
    ensures Skipped(Span(41, 82), [Span(0, 41)])
    ensures !Inside(Span(41, 82), Span(0, 41))
  {
    assert InWindow(Span(41, 82), [Span(0, 41)][0]);
  }

  // ---- Greedy assignment of openers to blocks ----

  /** Least index from k on that is not used and whose block starts at or after `from`. */
  function FirstFree(starts: seq<nat>, from: nat, used: set<nat>, k: nat): (r: Option<nat>)
    requires k <= |starts|
    ensures r.Some? ==> k <= r.value < |starts| && r.value !in used && starts[r.value] >= from
    ensures forall j :: k <= j < |starts| && j !in used && starts[j] >= from ==> r.Some? && r.value <= j
    decreases |starts| - k
  {
    if k == |starts| then None
    else if k !in used && starts[k] >= from then Some(k)
    else FirstFree(starts, from, used, k + 1)
  }

  function Used(a: seq<Option<nat>>): set<nat> {
    set i | 0 <= i < |a| && a[i].Some? :: a[i].value
  }

  /** Opener i, if it is looking (`from[i]` is its end), takes the first free block after it. */
  function Assign(from: seq<Option<nat>>, starts: seq<nat>): (a: seq<Option<nat>>)
    ensures |a| == |from|
  {
    if from == [] then []
    else
      var a := Assign(from[..|from| - 1], starts);
      var last := from[|from| - 1];
      a + [if last.Some? then FirstFree(starts, last.value, Used(a), 0) else None]
  }

  lemma {:induction false} AssignPrefix(from: seq<Option<nat>>, starts: seq<nat>, i: nat)
    requires i <= |from|
    ensures Assign(from[..i], starts) == Assign(from, starts)[..i]
  {
    if i < |from| {
      AssignPrefix(from[..|from| - 1], starts, i);
      assert from[..|from| - 1][..i] == from[..i];
    } else {
      assert from[..i] == from;
    }
  }

  lemma {:induction false} AssignAt(from: seq<Option<nat>>, starts: seq<nat>, i: nat)
    requires i < |from|
    ensures var a := Assign(from, starts);
            a[i] == if from[i].Some? then FirstFree(starts, from[i].value, Used(a[..i]), 0) else None
  {
    AssignPrefix(from, starts, i + 1);
    AssignPrefix(from, starts, i);
    assert from[..i + 1][..i] == from[..i];
  }

  /** Any way of giving openers distinct blocks that start at or after them. */
  ghost predicate Matching(f: seq<Option<nat>>, from: seq<Option<nat>>, starts: seq<nat>) {
    && |f| == |from|
    && (forall i :: 0 <= i < |f| && f[i].Some? ==>
          from[i].Some? && f[i].value < |starts| && starts[f[i].value] >= from[i].value)
    && (forall i, j :: 0 <= i < j < |f| && f[i].Some? && f[j].Some? ==> f[i].value != f[j].value)
  }

  lemma AssignIsMatching(from: seq<Option<nat>>, starts: seq<nat>)
    ensures Matching(Assign(from, starts), from, starts)
  {
    var a := Assign(from, starts);
    forall i | 0 <= i < |a|
      ensures a[i].Some? ==> from[i].Some? && a[i].value < |starts| && starts[a[i].value] >= from[i].value
    {
      AssignAt(from, starts, i);
    }
    forall i, j | 0 <= i < j < |a| && a[i].Some? && a[j].Some? ensures a[i].value != a[j].value {
      AssignAt(from, starts, j);
      assert a[..j][i] == a[i];
    }
  }

  /** Every opener looks, and openers end in increasing order. */
  ghost predicate AllLooking(from: seq<Option<nat>>) {
    && (forall i :: 0 <= i < |from| ==> from[i].Some?)
    && (forall i, j :: 0 <= i < j < |from| ==> from[i].value <= from[j].value)
  }

  lemma UsedGrows(a: seq<Option<nat>>, i: nat, j: nat)
    requires i <= j <= |a|
    ensures Used(a[..i]) <= Used(a[..j])
  {
    var p, q := a[..i], a[..j];
    forall x | x in Used(p) ensures x in Used(q) {
      var k :| 0 <= k < |p| && p[k].Some? && p[k].value == x;
      assert q[k] == p[k];
    }
  }

  /** What the later of two openers could take, the earlier could have taken before it. */
  lemma EarlierTakesFirst(from: seq<Option<nat>>, starts: seq<nat>, i: nat, j: nat)
    requires AllLooking(from) && i < j < |from| && Assign(from, starts)[j].Some?
    ensures var a := Assign(from, starts); a[i].Some? && a[i].value < a[j].value
  {
    var a := Assign(from, starts);
    AssignAt(from, starts, i);
    AssignAt(from, starts, j);
    var x := a[j].value;
    assert a[..j][i] == a[i];
    UsedGrows(a, i, j);
    assert x !in Used(a[..i]) && starts[x] >= from[i].value;
  }

  // ---- No assignment matches more ----

  function MatchedCount(f: seq<Option<nat>>): nat {
    if f == [] then 0 else MatchedCount(f[..|f| - 1]) + if f[|f| - 1].Some? then 1 else 0
  }

  lemma {:induction false} MatchedAtMost(f: seq<Option<nat>>)
    ensures MatchedCount(f) <= |f|
  {
    if f != [] {
      MatchedAtMost(f[..|f| - 1]);
    }
  }

  lemma {:induction false} MatchedSplit(f: seq<Option<nat>>, b: nat)
    requires b <= |f|
    ensures MatchedCount(f) == MatchedCount(f[..b]) + MatchedCount(f[b..])
  {
    if b == |f| {
      assert f[..b] == f;
    } else {
      MatchedSplit(f[..|f| - 1], b);
      assert f[..|f| - 1][..b] == f[..b];
      assert f[b..][..|f[b..]| - 1] == f[..|f| - 1][b..];
    }
  }

  ghost function Range(lo: nat, hi: nat): (r: set<nat>)
    requires lo <= hi
    ensures |r| == hi - lo && forall x :: x in r <==> lo <= x < hi
    decreases hi
  {
    if lo == hi then {} else Range(lo, hi - 1) + {hi - 1}
  }

  lemma UsedAppend(f: seq<Option<nat>>, last: Option<nat>)
    ensures Used(f + [last]) == if last.Some? then Used(f) + {last.value} else Used(f)
  {
    var g := f + [last];
    forall x | x in Used(f) ensures x in Used(g) {
      var i :| 0 <= i < |f| && f[i].Some? && f[i].value == x;
      assert g[i] == f[i];
    }
    if last.Some? {
      assert g[|f|].value in Used(g);
    }
  }

  lemma {:induction false} UsedSize(f: seq<Option<nat>>)
    requires forall i, j :: 0 <= i < j < |f| && f[i].Some? && f[j].Some? ==> f[i].value != f[j].value
    ensures |Used(f)| == MatchedCount(f)
  {
    if f == [] {
      assert Used(f) == {};
    } else {
      var rest := f[..|f| - 1];
      UsedSize(rest);
      UsedAppend(rest, f[|f| - 1]);
      assert f == rest + [f[|f| - 1]];
    }
  }

  /** Distinct values from one range: at most as many as the range holds. */
  lemma FitsRange(f: seq<Option<nat>>, lo: nat, hi: nat)
    requires lo <= hi && forall i :: 0 <= i < |f| && f[i].Some? ==> lo <= f[i].value < hi
    requires forall i, j :: 0 <= i < j < |f| && f[i].Some? && f[j].Some? ==> f[i].value != f[j].value
    ensures MatchedCount(f) <= hi - lo
  {
    UsedSize(f);
    SubsetSize(Used(f), Range(lo, hi));
  }

  lemma {:induction false} SubsetSize(a: set<nat>, b: set<nat>)
    requires a <= b
    ensures |a| <= |b|
  {
    if a != {} {
      var x :| x in a;
      SubsetSize(a - {x}, b - {x});
    }
  }

  /** The matched openers of the greedy assignment are a prefix: `c` is the first unmatched one. */
  lemma {:induction false} MatchedPrefix(from: seq<Option<nat>>, starts: seq<nat>) returns (c: nat)
    requires AllLooking(from)
    ensures c <= |from| && MatchedCount(Assign(from, starts)) == c
    ensures forall i :: 0 <= i < |from| ==> (Assign(from, starts)[i].Some? <==> i < c)
  {
    var a := Assign(from, starts);
    if from == [] {
      c := 0;
    } else {
      c := MatchedPrefix(from[..|from| - 1], starts);
      AssignPrefix(from, starts, |from| - 1);
      if a[|from| - 1].Some? {
        forall i | 0 <= i < |from| - 1 ensures a[i].Some? {
          EarlierTakesFirst(from, starts, i, |from| - 1);
        }
        c := |from|;
      }
    }
  }

  /** Openers before c are matched, the rest are not; the blocks from n - (c - b) on went to openers b to c - 1. */
  ghost predicate TailTaken(a: seq<Option<nat>>, n: nat, c: nat, b: nat) {
    && b <= c < |a| && c - b <= n
    && (forall i :: 0 <= i < |a| ==> (a[i].Some? <==> i < c))
    && (forall i :: b <= i < c ==> a[i].value == n - (c - i))
  }

  /** A block nobody has taken and opener b passes over starts before the opener ends. */
  lemma PassedOver(from: seq<Option<nat>>, starts: seq<nat>, b: nat, x: nat)
    requires b < |from| && from[b].Some? && x < |starts|
    requires x !in Used(Assign(from, starts)[..b])
    requires Assign(from, starts)[b].Some? ==> x < Assign(from, starts)[b].value
    ensures starts[x] < from[b].value
  {
    AssignAt(from, starts, b);
  }

  lemma BelowGap(from: seq<Option<nat>>, starts: seq<nat>, c: nat, b: nat)
    requires AllLooking(from) && TailTaken(Assign(from, starts), |starts|, c, b) && b > 0
    ensures Assign(from, starts)[b - 1].value < |starts| - (c - b)
  {
    if b < c {
      EarlierTakesFirst(from, starts, b - 1, b);
    } else {
      AssignIsMatching(from, starts);
    }
  }

  lemma NotTakenBelow(from: seq<Option<nat>>, starts: seq<nat>, c: nat, b: nat, i: nat)
    requires AllLooking(from) && TailTaken(Assign(from, starts), |starts|, c, b) && c - b < |starts| && i < b
    requires Assign(from, starts)[b - 1].value != |starts| - (c - b) - 1
    ensures Assign(from, starts)[i].value != |starts| - (c - b) - 1
  {
    BelowGap(from, starts, c, b);
    if i < b - 1 {
      EarlierTakesFirst(from, starts, i, b - 1);
    }
  }

  lemma NotUsed(a: seq<Option<nat>>, b: nat, x: nat)
    requires b <= |a| && forall i :: 0 <= i < b && a[i].Some? ==> a[i].value != x
    ensures x !in Used(a[..b])
  {
  }

  /** Where the walk back stops, opener b passes over the block just below. */
  lemma GapIsFree(from: seq<Option<nat>>, starts: seq<nat>, c: nat, b: nat)
    requires AllLooking(from) && TailTaken(Assign(from, starts), |starts|, c, b) && c - b < |starts|
    requires b > 0 ==> Assign(from, starts)[b - 1].value != |starts| - (c - b) - 1
    ensures starts[|starts| - (c - b) - 1] < from[b].value
  {
    var a := Assign(from, starts);
    var x := |starts| - (c - b) - 1;
    forall i | 0 <= i < b && a[i].Some? ensures a[i].value != x {
      NotTakenBelow(from, starts, c, b, i);
    }
    NotUsed(a, b, x);
    PassedOver(from, starts, b, x);
  }

  /** Walking back from the first unmatched opener c: blocks from some k on are all taken, by openers b to
      c - 1, and every opener from b on ends after block k - 1 starts. */
  lemma {:induction false} TightBlock(from: seq<Option<nat>>, starts: seq<nat>, c: nat, b: nat) returns (b': nat)
    requires AllLooking(from) && TailTaken(Assign(from, starts), |starts|, c, b)
    requires forall i, j :: 0 <= i < j < |starts| ==> starts[i] <= starts[j]
    ensures b' <= c && c - b' <= |starts|
    ensures forall i, x :: b' <= i < |from| && 0 <= x < |starts| - (c - b') ==> starts[x] < from[i].value
    decreases b
  {
    var a := Assign(from, starts);
    var k := |starts| - (c - b);
    AssignIsMatching(from, starts);
    if b > 0 && a[b - 1].value == k - 1 {
      b' := TightBlock(from, starts, c, b - 1);
    } else {
      b' := b;
      if k > 0 {
        GapIsFree(from, starts, c, b);
        forall i, x | b <= i < |from| && 0 <= x < k ensures starts[x] < from[i].value {
          assert starts[x] <= starts[k - 1] && from[b].value <= from[i].value;
        }
      }
    }
  }

  /** From opener b on, any matching stays within the blocks from k on. */
  lemma TailFits(from: seq<Option<nat>>, starts: seq<nat>, f: seq<Option<nat>>, b: nat, k: nat)
    requires Matching(f, from, starts) && b <= |f| && k <= |starts|
    requires forall i, x :: b <= i < |from| && 0 <= x < k && from[i].Some? ==> starts[x] < from[i].value
    ensures MatchedCount(f[b..]) <= |starts| - k
  {
    var g := f[b..];
    forall i | 0 <= i < |g| && g[i].Some? ensures k <= g[i].value < |starts| {
      assert g[i] == f[b + i];
    }
    forall i, j | 0 <= i < j < |g| && g[i].Some? && g[j].Some? ensures g[i].value != g[j].value {
      assert g[i] == f[b + i] && g[j] == f[b + j];
    }
    FitsRange(g, k, |starts|);
  }

  /** The greedy scan is optimal: no assignment of distinct blocks to openers before them, order preserving
      or not, matches more openers. */
  lemma GreedyIsMaximal(from: seq<Option<nat>>, starts: seq<nat>, f: seq<Option<nat>>)
    requires AllLooking(from) && Matching(f, from, starts)
    requires forall i, j :: 0 <= i < j < |starts| ==> starts[i] <= starts[j]
    ensures MatchedCount(f) <= MatchedCount(Assign(from, starts))
  {
    var c := MatchedPrefix(from, starts);
    if c == |from| {
      MatchedAtMost(f);
    } else {
      var b := TightBlock(from, starts, c, c);
      MatchedSplit(f, b);
      MatchedAtMost(f[..b]);
      TailFits(from, starts, f, b, |starts| - (c - b));
    }
  }

  // ---- Tokens ----

  function Looking(opens: seq<Opener>): (r: seq<Option<nat>>)
    ensures |r| == |opens| && forall i :: 0 <= i < |r| ==> r[i] == Some(opens[i].span.end)
  {
    seq(|opens|, i requires 0 <= i < |opens| => Some(opens[i].span.end))
  }

  function Starts(spans: seq<Span>): (r: seq<nat>)
    ensures |r| == |spans| && forall i :: 0 <= i < |r| ==> r[i] == spans[i].start
  {
    seq(|spans|, i requires 0 <= i < |spans| => spans[i].start)
  }

  /** Which closed block each opener gets. */
  function BlockOf(opens: seq<Opener>, blocks: seq<Block>): (a: seq<Option<nat>>)
    ensures |a| == |opens|
  {
    Assign(Looking(opens), Starts(BlockSpans(blocks)))
  }

  function StillLooking(opens: seq<Opener>, a: seq<Option<nat>>): (r: seq<Option<nat>>)
    requires |a| == |opens|
    ensures |r| == |opens|
    ensures forall i :: 0 <= i < |r| ==> r[i] == if a[i].Some? then None else Some(opens[i].span.end)
  {
    seq(|opens|, i requires 0 <= i < |opens| => if a[i].Some? then None else Some(opens[i].span.end))
  }

  /** Which stray each opener left without a closed block gets. */
  function StrayOf(opens: seq<Opener>, blocks: seq<Block>, strays: seq<Span>): (b: seq<Option<nat>>)
    ensures |b| == |opens|
  {
    Assign(StillLooking(opens, BlockOf(opens, blocks)), Starts(strays))
  }

  function OpenerToken(o: Opener): Token {
    Token(Some(o.span), None, Some(o.name), Some(o.workDir), o.drainTimeout, None, None, false)
  }

  function WithBlock(t: Token, block: Block): Token {
    t.(programSpan := Some(block.span), program := Some(block.body))
  }

  /** An unclosed block reaches to the end of the text, so its payload cannot leak. */
  function WithStray(t: Token, stray: Span, text: string): Token
    requires stray.end <= |text|
  {
    t.(programSpan := Some(Span(stray.start, |text|)), program := Some(text[stray.end..]), unclosed := true)
  }

  const BARE := Token(None, None, None, None, None, None, None, false)

  function LeftBlocks(blocks: seq<Block>, used: set<nat>): seq<Token> {
    if blocks == [] then []
    else
      var n := |blocks| - 1;
      var rest := LeftBlocks(blocks[..n], used);
      if n in used then rest else rest + [WithBlock(BARE, blocks[n])]
  }

  function LeftStrays(strays: seq<Span>, used: set<nat>, text: string): seq<Token>
    requires forall i :: 0 <= i < |strays| ==> strays[i].end <= |text|
  {
    if strays == [] then []
    else
      var n := |strays| - 1;
      var rest := LeftStrays(strays[..n], used, text);
      if n in used then rest else rest + [WithStray(BARE, strays[n], text)]
  }

  ghost predicate Scanned(text: string, opens: seq<Opener>, blocks: seq<Block>, strays: seq<Span>) {
    Scan(OpenerSpans(opens), |text|) && Scan(BlockSpans(blocks), |text|) && Scan(strays, |text|)
  }

  method FindFree(spans: seq<Span>, from: nat, used: set<nat>) returns (r: Option<nat>)
    ensures r == FirstFree(Starts(spans), from, used, 0)
  {
    var idx := 0;
    while idx < |spans|
      invariant idx <= |spans|
      invariant FirstFree(Starts(spans), from, used, 0) == FirstFree(Starts(spans), from, used, idx)
    {
      if idx !in used && spans[idx].start >= from {
        return Some(idx);
      }
      idx := idx + 1;
    }
    return None;
  }

  function OpenerTokenAt(text: string, opens: seq<Opener>, blocks: seq<Block>, strays: seq<Span>, i: nat): (t: Token)
    requires i < |opens| && forall k :: 0 <= k < |strays| ==> strays[k].end <= |text|
    ensures t.openSpan == Some(opens[i].span)
  {
    AssignIsMatching(Looking(opens), Starts(BlockSpans(blocks)));
    AssignIsMatching(StillLooking(opens, BlockOf(opens, blocks)), Starts(strays));
    var a, b := BlockOf(opens, blocks)[i], StrayOf(opens, blocks, strays)[i];
    var o := OpenerToken(opens[i]);
    if a.Some? then WithBlock(o, blocks[a.value]) else if b.Some? then WithStray(o, strays[b.value], text) else o
  }

  /** The pairing passes: openers with what they get, then the blocks and the strays nobody got. */
  function Tokens(text: string, opens: seq<Opener>, blocks: seq<Block>, strays: seq<Span>): seq<Token>
    requires forall k :: 0 <= k < |strays| ==> strays[k].end <= |text|
  {
    seq(|opens|, i requires 0 <= i < |opens| => OpenerTokenAt(text, opens, blocks, strays, i))
    + LeftBlocks(blocks, Used(BlockOf(opens, blocks)))
    + LeftStrays(strays, Used(StrayOf(opens, blocks, strays)), text)
  }

  /** The openers, in order, each with the first free closed block after it, or else the first free stray. */
  method PairOpeners(text: string, opens: seq<Opener>, blocks: seq<Block>, strays: seq<Span>)
    returns (tokens: seq<Token>, usedBlocks: set<nat>, usedStrays: set<nat>)
    requires forall k :: 0 <= k < |strays| ==> strays[k].end <= |text|
    ensures |tokens| == |opens|
    ensures forall i :: 0 <= i < |opens| ==> tokens[i] == OpenerTokenAt(text, opens, blocks, strays, i)
    ensures usedBlocks == Used(BlockOf(opens, blocks)) && usedStrays == Used(StrayOf(opens, blocks, strays))
  {
    tokens, usedBlocks, usedStrays := [], {}, {};
    ghost var a, b := BlockOf(opens, blocks), StrayOf(opens, blocks, strays);
    for i := 0 to |opens|
      invariant |tokens| == i
      invariant forall k :: 0 <= k < i ==> tokens[k] == OpenerTokenAt(text, opens, blocks, strays, k)
      invariant usedBlocks == Used(a[..i]) && usedStrays == Used(b[..i])
    {
      AssignAt(Looking(opens), Starts(BlockSpans(blocks)), i);
      AssignAt(StillLooking(opens, a), Starts(strays), i);
      UsedNext(a, i);
      UsedNext(b, i);
      var token := OpenerToken(opens[i]);
      var paired := FindFree(BlockSpans(blocks), opens[i].span.end, usedBlocks);
      if paired.Some? {
        usedBlocks := usedBlocks + {paired.value};
        token := WithBlock(token, blocks[paired.value]);
      } else {
        var stray := FindFree(strays, opens[i].span.end, usedStrays);
        if stray.Some? {
          usedStrays := usedStrays + {stray.value};
          token := WithStray(token, strays[stray.value], text);
        }
      }
      tokens := tokens + [token];
    }
    assert a[..|opens|] == a && b[..|opens|] == b;
  }

  method PairTokens(text: string, opens: seq<Opener>, blocks: seq<Block>, strays: seq<Span>)
    returns (tokens: seq<Token>)
    requires forall k :: 0 <= k < |strays| ==> strays[k].end <= |text|
    ensures tokens == Tokens(text, opens, blocks, strays)
  {
    var openerTokens, usedBlocks, usedStrays := PairOpeners(text, opens, blocks, strays);
    var blockTokens := [];
    for k := 0 to |blocks|
      invariant blockTokens == LeftBlocks(blocks[..k], usedBlocks)
    {
      assert blocks[..k + 1][..k] == blocks[..k];
      if k !in usedBlocks {
        blockTokens := blockTokens + [WithBlock(BARE, blocks[k])];
      }
    }
    assert blocks[..|blocks|] == blocks;
    var strayTokens := [];
    for k := 0 to |strays|
      invariant strayTokens == LeftStrays(strays[..k], usedStrays, text)
    {
      assert strays[..k + 1][..k] == strays[..k];
      if k !in usedStrays {
        strayTokens := strayTokens + [WithStray(BARE, strays[k], text)];
      }
    }
    assert strays[..|strays|] == strays;
    tokens := openerTokens + blockTokens + strayTokens;
  }

  lemma UsedNext(a: seq<Option<nat>>, i: nat)
    requires i < |a|
    ensures Used(a[..i + 1]) == if a[i].Some? then Used(a[..i]) + {a[i].value} else Used(a[..i])
  {
    assert a[..i + 1] == a[..i] + [a[i]];
    UsedAppend(a[..i], a[i]);
  }

  // ---- Nothing is dropped, nothing is taken twice ----

  function ProgramSpans(tokens: seq<Token>): seq<Span> {
    if tokens == [] then []
    else
      var t := tokens[|tokens| - 1];
      var rest := ProgramSpans(tokens[..|tokens| - 1]);
      if t.programSpan.Some? then rest + [t.programSpan.value] else rest
  }

  function OpenSpans(tokens: seq<Token>): seq<Span> {
    if tokens == [] then []
    else
      var t := tokens[|tokens| - 1];
      var rest := OpenSpans(tokens[..|tokens| - 1]);
      if t.openSpan.Some? then rest + [t.openSpan.value] else rest
  }

  function ToEnd(strays: seq<Span>, length: nat): (r: seq<Span>)
    ensures |r| == |strays| && forall i :: 0 <= i < |r| ==> r[i] == Span(strays[i].start, length)
  {
    seq(|strays|, i requires 0 <= i < |strays| => Span(strays[i].start, length))
  }

  function Left(spans: seq<Span>, used: set<nat>): seq<Span> {
    if spans == [] then []
    else
      var n := |spans| - 1;
      var rest := Left(spans[..n], used);
      if n in used then rest else rest + [spans[n]]
  }

  lemma {:induction false} LeftAll(spans: seq<Span>)
    ensures Left(spans, {}) == spans
  {
    if spans != [] {
      LeftAll(spans[..|spans| - 1]);
    }
  }

  lemma {:induction false} LeftBeyond(spans: seq<Span>, used: set<nat>, x: nat)
    requires x >= |spans|
    ensures Left(spans, used + {x}) == Left(spans, used)
  {
    if spans != [] {
      LeftBeyond(spans[..|spans| - 1], used, x);
    }
  }

  lemma {:induction false} TakeOne(spans: seq<Span>, used: set<nat>, x: nat)
    requires x < |spans| && x !in used
    ensures multiset(Left(spans, used)) == multiset(Left(spans, used + {x})) + multiset{spans[x]}
  {
    var n := |spans| - 1;
    if x == n {
      LeftBeyond(spans[..n], used, x);
    } else {
      TakeOne(spans[..n], used, x);
    }
  }

  lemma {:induction false} ProgramSpansConcat(s: seq<Token>, t: seq<Token>)
    ensures ProgramSpans(s + t) == ProgramSpans(s) + ProgramSpans(t)
    ensures OpenSpans(s + t) == OpenSpans(s) + OpenSpans(t)
  {
    if t == [] {
      assert s + t == s;
    } else {
      var n := |t| - 1;
      ProgramSpansConcat(s, t[..n]);
      assert (s + t)[..|s + t| - 1] == s + t[..n];
    }
  }

  lemma {:induction false} LeftBlockSpans(blocks: seq<Block>, used: set<nat>)
    ensures ProgramSpans(LeftBlocks(blocks, used)) == Left(BlockSpans(blocks), used)
    ensures OpenSpans(LeftBlocks(blocks, used)) == []
  {
    if blocks != [] {
      var n := |blocks| - 1;
      LeftBlockSpans(blocks[..n], used);
      assert BlockSpans(blocks[..n]) == BlockSpans(blocks)[..n];
      if n !in used {
        ProgramSpansConcat(LeftBlocks(blocks[..n], used), [WithBlock(BARE, blocks[n])]);
      }
    }
  }

  lemma {:induction false} LeftStraySpans(strays: seq<Span>, used: set<nat>, text: string)
    requires forall i :: 0 <= i < |strays| ==> strays[i].end <= |text|
    ensures ProgramSpans(LeftStrays(strays, used, text)) == Left(ToEnd(strays, |text|), used)
    ensures OpenSpans(LeftStrays(strays, used, text)) == []
  {
    if strays != [] {
      var n := |strays| - 1;
      LeftStraySpans(strays[..n], used, text);
      assert ToEnd(strays[..n], |text|) == ToEnd(strays, |text|)[..n];
      if n !in used {
        ProgramSpansConcat(LeftStrays(strays[..n], used, text), [WithStray(BARE, strays[n], text)]);
      }
    }
  }

  function OpenerTokens(text: string, opens: seq<Opener>, blocks: seq<Block>, strays: seq<Span>, n: nat)
    : (r: seq<Token>)
    requires n <= |opens| && forall k :: 0 <= k < |strays| ==> strays[k].end <= |text|
    ensures |r| == n && forall i :: 0 <= i < n ==> r[i] == OpenerTokenAt(text, opens, blocks, strays, i)
  {
    seq(n, i requires 0 <= i < n => OpenerTokenAt(text, opens, blocks, strays, i))
  }

  predicate Within(spans: seq<Span>, x: Option<nat>) {
    x.Some? ==> x.value < |spans|
  }

  /** What an opener that got x of the spans takes. */
  ghost function Share(spans: seq<Span>, x: Option<nat>): multiset<Span>
    requires Within(spans, x)
  {
    if x.Some? then multiset{spans[x.value]} else multiset{}
  }

  /** An opener that got a closed block looks for no stray. */
  lemma NotBoth(opens: seq<Opener>, blocks: seq<Block>, strays: seq<Span>, i: nat)
    requires i < |opens| && BlockOf(opens, blocks)[i].Some?
    ensures StrayOf(opens, blocks, strays)[i].None?
  {
    AssignAt(StillLooking(opens, BlockOf(opens, blocks)), Starts(strays), i);
  }

  /** One more opener adds what it took to the program spans. */
  lemma NextTaken(text: string, opens: seq<Opener>, blocks: seq<Block>, strays: seq<Span>, i: nat)
    requires i < |opens| && forall k :: 0 <= k < |strays| ==> strays[k].end <= |text|
    ensures var a, b := BlockOf(opens, blocks)[i], StrayOf(opens, blocks, strays)[i];
            && Within(BlockSpans(blocks), a) && Within(ToEnd(strays, |text|), b)
            && multiset(ProgramSpans(OpenerTokens(text, opens, blocks, strays, i + 1)))
               == multiset(ProgramSpans(OpenerTokens(text, opens, blocks, strays, i)))
                  + Share(BlockSpans(blocks), a) + Share(ToEnd(strays, |text|), b)
  {
    AssignIsMatching(Looking(opens), Starts(BlockSpans(blocks)));
    AssignIsMatching(StillLooking(opens, BlockOf(opens, blocks)), Starts(strays));
    var tokens := OpenerTokens(text, opens, blocks, strays, i + 1);
    assert tokens[..i] == OpenerTokens(text, opens, blocks, strays, i);
    if BlockOf(opens, blocks)[i].Some? {
      NotBoth(opens, blocks, strays, i);
    }
  }

  /** What the openers up to i leave, they leave after opener i too, and what it takes. */
  lemma BlockTaken(opens: seq<Opener>, blocks: seq<Block>, i: nat)
    requires i < |opens|
    ensures var a, spans := BlockOf(opens, blocks), BlockSpans(blocks);
            && Within(spans, a[i])
            && multiset(Left(spans, Used(a[..i])))
               == multiset(Left(spans, Used(a[..i + 1]))) + Share(spans, a[i])
  {
    var a, from, starts := BlockOf(opens, blocks), Looking(opens), Starts(BlockSpans(blocks));
    AssignIsMatching(from, starts);
    UsedNext(a, i);
    if a[i].Some? {
      FreshlyUsed(from, starts, i);
      TakeOne(BlockSpans(blocks), Used(a[..i]), a[i].value);
    }
  }

  lemma StrayTaken(opens: seq<Opener>, blocks: seq<Block>, strays: seq<Span>, length: nat, i: nat)
    requires i < |opens|
    ensures var b, spans := StrayOf(opens, blocks, strays), ToEnd(strays, length);
            && Within(spans, b[i])
            && multiset(Left(spans, Used(b[..i])))
               == multiset(Left(spans, Used(b[..i + 1]))) + Share(spans, b[i])
  {
    var b, from, starts := StrayOf(opens, blocks, strays), StillLooking(opens, BlockOf(opens, blocks)), Starts(strays);
    AssignIsMatching(from, starts);
    UsedNext(b, i);
    if b[i].Some? {
      FreshlyUsed(from, starts, i);
      TakeOne(ToEnd(strays, length), Used(b[..i]), b[i].value);
    }
  }

  /** What the first n openers took, and what they left. */
  ghost function Ledger(text: string, opens: seq<Opener>, blocks: seq<Block>, strays: seq<Span>, n: nat): multiset<Span>
    requires n <= |opens| && forall k :: 0 <= k < |strays| ==> strays[k].end <= |text|
  {
    multiset(ProgramSpans(OpenerTokens(text, opens, blocks, strays, n)))
    + multiset(Left(BlockSpans(blocks), Used(BlockOf(opens, blocks)[..n])))
    + multiset(Left(ToEnd(strays, |text|), Used(StrayOf(opens, blocks, strays)[..n])))
  }

  lemma Shift(p: multiset<Span>, l: multiset<Span>, r: multiset<Span>, p': multiset<Span>, l': multiset<Span>,
              r': multiset<Span>, x: multiset<Span>, y: multiset<Span>)
    requires p' == p + x + y && l == l' + x && r == r' + y
    ensures p' + l' + r' == p + l + r
  {
  }

  lemma LedgerStep(text: string, opens: seq<Opener>, blocks: seq<Block>, strays: seq<Span>, i: nat)
    requires i < |opens| && forall k :: 0 <= k < |strays| ==> strays[k].end <= |text|
    ensures Ledger(text, opens, blocks, strays, i + 1) == Ledger(text, opens, blocks, strays, i)
  {
    NextTaken(text, opens, blocks, strays, i);
    BlockTaken(opens, blocks, i);
    StrayTaken(opens, blocks, strays, |text|, i);
    var a, b := BlockOf(opens, blocks), StrayOf(opens, blocks, strays);
    var spans, tails := BlockSpans(blocks), ToEnd(strays, |text|);
    Shift(multiset(ProgramSpans(OpenerTokens(text, opens, blocks, strays, i))),
          multiset(Left(spans, Used(a[..i]))), multiset(Left(tails, Used(b[..i]))),
          multiset(ProgramSpans(OpenerTokens(text, opens, blocks, strays, i + 1))),
          multiset(Left(spans, Used(a[..i + 1]))), multiset(Left(tails, Used(b[..i + 1]))),
          Share(spans, a[i]), Share(tails, b[i]));
  }

  /** After the first n openers: what they took and what is left make up every block and stray, once. */
  lemma {:induction false} Conserved(text: string, opens: seq<Opener>, blocks: seq<Block>, strays: seq<Span>, n: nat)
    requires n <= |opens| && forall k :: 0 <= k < |strays| ==> strays[k].end <= |text|
    ensures Ledger(text, opens, blocks, strays, n) == multiset(BlockSpans(blocks)) + multiset(ToEnd(strays, |text|))
  {
    if n == 0 {
      LeftAll(BlockSpans(blocks));
      LeftAll(ToEnd(strays, |text|));
      assert Used(BlockOf(opens, blocks)[..0]) == {} && Used(StrayOf(opens, blocks, strays)[..0]) == {};
    } else {
      Conserved(text, opens, blocks, strays, n - 1);
      LedgerStep(text, opens, blocks, strays, n - 1);
    }
  }

  lemma FreshlyUsed(from: seq<Option<nat>>, starts: seq<nat>, i: nat)
    requires i < |from| && Assign(from, starts)[i].Some?
    ensures Assign(from, starts)[i].value !in Used(Assign(from, starts)[..i])
  {
    AssignAt(from, starts, i);
  }

  lemma {:induction false} OpenSpansOfOpeners(
    text: string, opens: seq<Opener>, blocks: seq<Block>, strays: seq<Span>, n: nat)
    requires n <= |opens| && forall k :: 0 <= k < |strays| ==> strays[k].end <= |text|
    ensures OpenSpans(OpenerTokens(text, opens, blocks, strays, n)) == OpenerSpans(opens)[..n]
  {
    if n > 0 {
      OpenSpansOfOpeners(text, opens, blocks, strays, n - 1);
      assert OpenerTokens(text, opens, blocks, strays, n)[..n - 1] == OpenerTokens(text, opens, blocks, strays, n - 1);
    }
  }

  /** Every opener lands in exactly one token, in source order, and so does every closed block and every
      unclosed one, each with its own span (to the end of the text if unclosed). */
  lemma EverythingInOneToken(text: string, opens: seq<Opener>, blocks: seq<Block>, strays: seq<Span>)
    requires forall k :: 0 <= k < |strays| ==> strays[k].end <= |text|
    ensures var tokens := Tokens(text, opens, blocks, strays);
            && OpenSpans(tokens) == OpenerSpans(opens)
            && multiset(ProgramSpans(tokens)) == multiset(BlockSpans(blocks)) + multiset(ToEnd(strays, |text|))
  {
    var a, b := BlockOf(opens, blocks), StrayOf(opens, blocks, strays);
    var openers := OpenerTokens(text, opens, blocks, strays, |opens|);
    var left := LeftBlocks(blocks, Used(a));
    var leftStrays := LeftStrays(strays, Used(b), text);
    assert Tokens(text, opens, blocks, strays) == openers + left + leftStrays;
    ProgramSpansConcat(openers, left);
    ProgramSpansConcat(openers + left, leftStrays);
    LeftBlockSpans(blocks, Used(a));
    LeftStraySpans(strays, Used(b), text);
    Conserved(text, opens, blocks, strays, |opens|);
    OpenSpansOfOpeners(text, opens, blocks, strays, |opens|);
    assert a[..|opens|] == a && b[..|opens|] == b;
  }

  lemma {:induction false} LeftBlocksFrom(blocks: seq<Block>, used: set<nat>, t: Token) returns (k: nat)
    requires t in LeftBlocks(blocks, used)
    ensures k < |blocks| && t == WithBlock(BARE, blocks[k])
  {
    var n := |blocks| - 1;
    if t in LeftBlocks(blocks[..n], used) {
      k := LeftBlocksFrom(blocks[..n], used, t);
    } else {
      k := n;
    }
  }

  lemma {:induction false} LeftStraysFrom(strays: seq<Span>, used: set<nat>, text: string, t: Token) returns (k: nat)
    requires forall i :: 0 <= i < |strays| ==> strays[i].end <= |text|
    requires t in LeftStrays(strays, used, text)
    ensures k < |strays| && t == WithStray(BARE, strays[k], text)
  {
    var n := |strays| - 1;
    if t in LeftStrays(strays[..n], used, text) {
      k := LeftStraysFrom(strays[..n], used, text, t);
    } else {
      k := n;
    }
  }

  /** A token's spans are matched ones, at least one is there, and its block starts at or after its
      opener's end. */
  ghost predicate FromMatches(t: Token, length: nat, opens: seq<Opener>, blocks: seq<Block>, strays: seq<Span>) {
    && (t.openSpan.Some? || t.programSpan.Some?)
    && (t.openSpan.Some? ==> t.openSpan.value in OpenerSpans(opens))
    && (t.programSpan.Some? ==>
          t.programSpan.value in if t.unclosed then ToEnd(strays, length) else BlockSpans(blocks))
    && (t.openSpan.Some? && t.programSpan.Some? ==> t.openSpan.value.end <= t.programSpan.value.start)
    && t.fence.None?
  }

  lemma TokensComeFromMatches(text: string, opens: seq<Opener>, blocks: seq<Block>, strays: seq<Span>, t: Token)
    requires forall k :: 0 <= k < |strays| ==> strays[k].end <= |text|
    requires t in Tokens(text, opens, blocks, strays)
    ensures FromMatches(t, |text|, opens, blocks, strays)
  {
    var a, b := BlockOf(opens, blocks), StrayOf(opens, blocks, strays);
    AssignIsMatching(Looking(opens), Starts(BlockSpans(blocks)));
    AssignIsMatching(StillLooking(opens, a), Starts(strays));
    if t in LeftBlocks(blocks, Used(a)) {
      var k := LeftBlocksFrom(blocks, Used(a), t);
      assert t.programSpan.value == BlockSpans(blocks)[k];
    } else if t in LeftStrays(strays, Used(b), text) {
      var k := LeftStraysFrom(strays, Used(b), text, t);
      assert t.programSpan.value == ToEnd(strays, |text|)[k];
    } else {
      var i :| 0 <= i < |opens| && t == OpenerTokenAt(text, opens, blocks, strays, i);
      assert t.openSpan.value == OpenerSpans(opens)[i];
      if a[i].Some? {
        assert t.programSpan.value == BlockSpans(blocks)[a[i].value];
      } else if b[i].Some? {
        assert t.programSpan.value == ToEnd(strays, |text|)[b[i].value];
      }
    }
  }

  /** A token has an opener's attributes if it has its span, and none without; it has a closed block's body with
      its span; an unclosed one has exactly the text after the tag, to the end. */
  ghost predicate Carries(t: Token, text: string, opens: seq<Opener>, blocks: seq<Block>, strays: seq<Span>)
    requires forall k :: 0 <= k < |strays| ==> strays[k].end <= |text|
  {
    && (if t.openSpan.None? then t.name.None? && t.workDir.None? && t.drainTimeout.None?
        else exists i :: 0 <= i < |opens| && t.openSpan == Some(opens[i].span) && t.name == Some(opens[i].name)
                         && t.workDir == Some(opens[i].workDir) && t.drainTimeout == opens[i].drainTimeout)
    && (if t.programSpan.None? then t.program.None? && !t.unclosed
        else if t.unclosed then
          exists k :: 0 <= k < |strays| && t.programSpan == Some(Span(strays[k].start, |text|))
                      && t.program == Some(text[strays[k].end..])
        else
          exists k :: 0 <= k < |blocks| && t.programSpan == Some(blocks[k].span)
                      && t.program == Some(blocks[k].body))
  }

  lemma TokensCarryMatches(text: string, opens: seq<Opener>, blocks: seq<Block>, strays: seq<Span>, t: Token)
    requires forall k :: 0 <= k < |strays| ==> strays[k].end <= |text|
    requires t in Tokens(text, opens, blocks, strays)
    ensures Carries(t, text, opens, blocks, strays)
  {
    var a, b := BlockOf(opens, blocks), StrayOf(opens, blocks, strays);
    if t in LeftBlocks(blocks, Used(a)) {
      var k := LeftBlocksFrom(blocks, Used(a), t);
    } else if t in LeftStrays(strays, Used(b), text) {
      var k := LeftStraysFrom(strays, Used(b), text, t);
    } else {
      var i :| 0 <= i < |opens| && t == OpenerTokenAt(text, opens, blocks, strays, i);
      AssignIsMatching(Looking(opens), Starts(BlockSpans(blocks)));
      AssignIsMatching(StillLooking(opens, a), Starts(strays));
      if a[i].Some? {
        assert t.programSpan == Some(blocks[a[i].value].span);
      } else if b[i].Some? {
        assert t.programSpan == Some(Span(strays[b[i].value].start, |text|));
      }
    }
  }

  /** Matches of one scan are told apart by their spans, so a token carries the values of its own match. */
  lemma SpansTellApart(spans: seq<Span>, length: nat, i: nat, j: nat)
    requires Scan(spans, length) && i < |spans| && j < |spans| && spans[i].start == spans[j].start
    ensures i == j
  {
  }

  lemma LookingInOrder(text: string, opens: seq<Opener>, blocks: seq<Block>, strays: seq<Span>)
    requires Scanned(text, opens, blocks, strays)
    ensures AllLooking(Looking(opens))
    ensures var starts := Starts(BlockSpans(blocks)); forall i, j :: 0 <= i < j < |starts| ==> starts[i] < starts[j]
  {
    var spans := OpenerSpans(opens);
    forall i, j | 0 <= i < j < |opens| ensures opens[i].span.end <= opens[j].span.end {
      assert spans[i].end <= spans[j].start;
    }
    var b := BlockSpans(blocks);
    forall i, j | 0 <= i < j < |b| ensures b[i].start < b[j].start {
      assert b[i].end <= b[j].start;
    }
  }

  /** Openers get closed blocks in order: a later opener never gets an earlier block, and once an opener is
      left without one, so are all later ones. */
  lemma ClosedBlocksInOrder(text: string, opens: seq<Opener>, blocks: seq<Block>, strays: seq<Span>, i: nat, j: nat)
    requires Scanned(text, opens, blocks, strays) && i < j < |opens|
    requires BlockOf(opens, blocks)[j].Some?
    ensures var a := BlockOf(opens, blocks); a[i].Some? && a[i].value < a[j].value
  {
    LookingInOrder(text, opens, blocks, strays);
    EarlierTakesFirst(Looking(opens), Starts(BlockSpans(blocks)), i, j);
  }

  /** The tokens that join an opener to a closed block. */
  function ClosedMacros(tokens: seq<Token>): nat {
    if tokens == [] then 0
    else
      var t := tokens[|tokens| - 1];
      ClosedMacros(tokens[..|tokens| - 1])
      + if t.openSpan.Some? && t.programSpan.Some? && !t.unclosed then 1 else 0
  }

  lemma {:induction false} ClosedMacrosCount(
    text: string, opens: seq<Opener>, blocks: seq<Block>, strays: seq<Span>, n: nat)
    requires n <= |opens| && forall k :: 0 <= k < |strays| ==> strays[k].end <= |text|
    ensures ClosedMacros(OpenerTokens(text, opens, blocks, strays, n)) == MatchedCount(BlockOf(opens, blocks)[..n])
  {
    var a := BlockOf(opens, blocks);
    if n > 0 {
      ClosedMacrosCount(text, opens, blocks, strays, n - 1);
      assert OpenerTokens(text, opens, blocks, strays, n)[..n - 1] == OpenerTokens(text, opens, blocks, strays, n - 1);
      assert a[..n][..n - 1] == a[..n - 1];
    }
  }

  lemma ClosedMacrosOfOpeners(text: string, opens: seq<Opener>, blocks: seq<Block>, strays: seq<Span>)
    requires forall k :: 0 <= k < |strays| ==> strays[k].end <= |text|
    ensures |Tokens(text, opens, blocks, strays)| >= |opens|
    ensures ClosedMacros(Tokens(text, opens, blocks, strays)[..|opens|]) == MatchedCount(BlockOf(opens, blocks))
  {
    ClosedMacrosCount(text, opens, blocks, strays, |opens|);
    assert BlockOf(opens, blocks)[..|opens|] == BlockOf(opens, blocks);
    assert Tokens(text, opens, blocks, strays)[..|opens|] == OpenerTokens(text, opens, blocks, strays, |opens|);
  }

  /** No way of giving openers distinct closed blocks at or after their ends joins more of them. */
  lemma NoPairingJoinsMore(text: string, opens: seq<Opener>, blocks: seq<Block>, strays: seq<Span>, f: seq<Option<nat>>)
    requires Scanned(text, opens, blocks, strays)
    requires Matching(f, Looking(opens), Starts(BlockSpans(blocks)))
    ensures MatchedCount(f) <= ClosedMacros(Tokens(text, opens, blocks, strays)[..|opens|])
  {
    LookingInOrder(text, opens, blocks, strays);
    GreedyIsMaximal(Looking(opens), Starts(BlockSpans(blocks)), f);
    ClosedMacrosOfOpeners(text, opens, blocks, strays);
  }
}
