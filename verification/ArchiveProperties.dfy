/** When the memory archive reads back as it was written: exactly when every entry in it does, wherever it
    stands in the file. */
module ArchiveProperties {
  import opened Archive
  import opened Common
  import opened Text

  // ---- Reading the file as text ----

  /** Path.read_text(): a carriage return, alone or before a newline, becomes a newline. */
  function ReadText(s: string): (r: string)
    ensures '\r' !in r
    ensures '\r' !in s ==> r == s
  {
    if s == "" then ""
    else if s[0] != '\r' then [s[0]] + ReadText(s[1..])
    else "\n" + ReadText(if |s| > 1 && s[1] == '\n' then s[2..] else s[1..])
  }

  ghost predicate ReadsBack(items: seq<Item>) {
    ParseBlocks(Split(ReadText(Printed(Bodies(items))))) == ExpectedAll(items)
  }

  ghost predicate RoundTrips(item: Item) {
    && Stamp(item.stamp) && Strip(item.entry) != "" && Readable(item.reason, Strip(item.entry))
    && NoDivider(Body(item)) && '\r' !in Body(item)
  }

  // ---- Dividers in a body ----

  predicate InDivider(c: char) {
    c == '\n' || c == '-'
  }

  /** A character no divider has keeps the two sides apart. */
  lemma NoDividerJoin(a: string, c: char, b: string)
    requires NoDivider(a) && NoDivider(b) && !InDivider(c)
    ensures NoDivider(a + [c] + b)
  {
    var s := a + [c] + b;
    forall j | 0 <= j < |s| ensures !HasAt(s, j, DIVIDER) {
      DividerAt(s, j);
      assert s[|a|] == c;
      if j + 5 <= |a| {
        assert s[j..j + 5] == a[j..j + 5] && !HasAt(a, j, DIVIDER);
      } else if |a| < j && j + 5 <= |s| {
        assert s[j..j + 5] == b[j - |a| - 1..j - |a| + 4] && !HasAt(b, j - |a| - 1, DIVIDER);
      }
    }
  }

  /** The metadata line with its first newline. */
  function Header(ts: string, r: string): string {
    "_Archived: " + ts + " | Reason: " + r + "_\n"
  }

  lemma OneLineNoDivider(s: string)
    requires '\n' !in s || |s| < 5
    ensures NoDivider(s)
  {
    forall j | 0 <= j < |s| ensures !HasAt(s, j, DIVIDER) {
      DividerAt(s, j);
    }
  }

  lemma HeaderNoDivider(ts: string, r: string)
    requires NoDivider(ts) && NoDivider(r)
    ensures NoDivider(Header(ts, r))
  {
    var a, b := "_Archived:", "| Reason:";
    OneLineNoDivider(a);
    OneLineNoDivider(b);
    OneLineNoDivider("\n");
    NoDividerJoin(a, ' ', ts);
    NoDividerJoin(a + [' '] + ts, ' ', b);
    NoDividerJoin(a + [' '] + ts + [' '] + b, ' ', r);
    NoDividerJoin(a + [' '] + ts + [' '] + b + [' '] + r, '_', "\n");
    HeaderRegroup(ts, r);
  }

  lemma HeaderRegroup(ts: string, r: string)
    ensures Header(ts, r) == "_Archived:" + [' '] + ts + [' '] + "| Reason:" + [' '] + r + ['_'] + "\n"
  {
  }

  /** What follows the header in a body whose stripped entry is e. */
  function Wrapped(e: string): string {
    "\n" + e + "\n"
  }

  lemma BodyIsHeaderWrapped(item: Item)
    ensures Body(item) == Header(item.stamp, item.reason) + Wrapped(Strip(item.entry))
  {
    var h := "_Archived: " + item.stamp + " | Reason: " + item.reason;
    BodyRegroup(h, Strip(item.entry));
  }

  lemma BodyRegroup(h: string, e: string)
    ensures h + "_\n\n" + e + "\n" == h + "_\n" + ("\n" + e + "\n")
  {
  }

  lemma DividerPastPrefix(p: string, x: string, j: nat)
    requires NoDivider(p) && p != "" && p[|p| - 1] == '\n' && x != "" && x[0] == '\n'
    ensures j < |p| ==> !HasAt(p + x, j, DIVIDER)
    ensures HasAt(p + x, |p| + j, DIVIDER) <==> HasAt(x, j, DIVIDER)
  {
    var s := p + x;
    DividerAt(s, j);
    assert s[|p| - 1] == '\n' && s[|p|] == '\n';
    if j + 5 <= |p| {
      assert s[j..j + 5] == p[j..j + 5] && !HasAt(p, j, DIVIDER);
    }
    if j + 5 <= |x| {
      assert s[|p| + j..|p| + j + 5] == x[j..j + 5];
    }
  }

  /** Only the entry can hide a divider: at its start, inside, or at its end. */
  lemma NoDividerIff(item: Item)
    requires NoDivider(item.stamp) && NoDivider(item.reason)
    ensures NoDivider(Body(item)) <==> NoDivider("\n" + Strip(item.entry) + "\n")
  {
    var p, x := Header(item.stamp, item.reason), Wrapped(Strip(item.entry));
    HeaderNoDivider(item.stamp, item.reason);
    BodyIsHeaderWrapped(item);
    DividerInTail(p, x);
  }

  lemma DividerInTail(p: string, x: string)
    requires NoDivider(p) && p != "" && p[|p| - 1] == '\n' && x != "" && x[0] == '\n'
    ensures NoDivider(p + x) <==> NoDivider(x)
  {
    forall j | 0 <= j < |p + x| ensures HasAt(p + x, j, DIVIDER) ==> j >= |p| && HasAt(x, j - |p|, DIVIDER) {
      DividerPastPrefix(p, x, if j < |p| then j else j - |p|);
    }
    forall j | 0 <= j < |x| ensures HasAt(x, j, DIVIDER) ==> HasAt(p + x, |p| + j, DIVIDER) {
      DividerPastPrefix(p, x, j);
    }
  }

  // ---- Splitting the printed file ----

  predicate EndsLine(b: string) {
    b == "" || b[|b| - 1] == '\n'
  }

  lemma FoundAt(s: string, i: nat)
    requires HasAt(s, i, DIVIDER) && forall j :: 0 <= j < i ==> !HasAt(s, j, DIVIDER)
    ensures FindDivider(s, 0) == Some(i)
  {
  }

  /** Up to its end, a text that ends a line has the same dividers whatever divider follows it. */
  lemma DividerBefore(b: string, rest: string, j: nat)
    requires EndsLine(b) && j < |b|
    ensures HasAt(b + DIVIDER + rest, j, DIVIDER) <==> HasAt(b, j, DIVIDER)
  {
    var s := b + DIVIDER + rest;
    DividerAt(s, j);
    DividerAt(b, j);
    assert s[|b| - 1] == '\n' && s[|b|] == '\n';
    assert forall k :: 0 <= k < |b| ==> s[k] == b[k];
  }

  lemma FirstDivider(b: string, rest: string)
    requires EndsLine(b)
    ensures var i := FindDivider(b, 0);
            FindDivider(b + DIVIDER + rest, 0) == Some(if i.Some? then i.value else |b|)
  {
    var s := b + DIVIDER + rest;
    forall j | 0 <= j < |b| ensures HasAt(s, j, DIVIDER) <==> HasAt(b, j, DIVIDER) {
      DividerBefore(b, rest, j);
    }
    var i := FindDivider(b, 0);
    assert s[|b|..|b| + 5] == DIVIDER;
    FoundAt(s, if i.Some? then i.value else |b|);
  }

  lemma CutBefore(b: string, rest: string, i: nat)
    requires i + 5 <= |b|
    ensures (b + DIVIDER + rest)[..i] == b[..i] && (b + DIVIDER + rest)[i + 5..] == b[i + 5..] + DIVIDER + rest
  {
  }

  lemma CutAfter(b: string, rest: string)
    ensures (b + DIVIDER + rest)[..|b|] == b && (b + DIVIDER + rest)[|b| + 5..] == rest
  {
  }

  /** The splitter cuts a divided text into the blocks of its first part and those of the rest. */
  lemma {:induction false} SplitConcat(b: string, rest: string)
    requires EndsLine(b)
    ensures Split(b + DIVIDER + rest) == Split(b) + Split(rest)
    decreases |b|
  {
    FirstDivider(b, rest);
    var i := FindDivider(b, 0);
    if i.None? {
      CutAfter(b, rest);
    } else {
      var tail := b[i.value + 5..];
      CutBefore(b, rest, i.value);
      SplitConcat(tail, rest);
      ConcatAssoc([b[..i.value]], Split(tail), Split(rest));
    }
  }

  function SplitAll(bodies: seq<string>): seq<string> {
    if bodies == [] then [] else Split(bodies[0]) + SplitAll(bodies[1..])
  }

  lemma {:induction false} SplitBodies(bodies: seq<string>)
    requires bodies != [] && forall b :: b in bodies ==> EndsLine(b)
    ensures Split(bodies[0] + Printed(bodies[1..])) == SplitAll(bodies)
  {
    var b, rest := bodies[0], bodies[1..];
    if rest == [] {
      assert b + Printed([]) == b;
    } else {
      SplitBodies(rest);
      assert b in bodies;
      SplitConcat(b, rest[0] + Printed(rest[1..]));
      ConcatAssoc(DIVIDER, rest[0], Printed(rest[1..]));
      ConcatAssoc(b, DIVIDER, rest[0] + Printed(rest[1..]));
    }
  }

  lemma SplitPrinted(bodies: seq<string>)
    requires forall b :: b in bodies ==> EndsLine(b)
    ensures Split(Printed(bodies)) == [""] + SplitAll(bodies)
  {
    if bodies != [] {
      SplitBodies(bodies);
      var rest := bodies[0] + Printed(bodies[1..]);
      SplitConcat("", rest);
      ConcatAssoc(DIVIDER, bodies[0], Printed(bodies[1..]));
      assert "" + DIVIDER + rest == Printed(bodies);
    }
  }

  lemma {:induction false} ParseConcat(a: seq<string>, b: seq<string>)
    ensures ParseBlocks(a + b) == ParseBlocks(a) + ParseBlocks(b)
  {
    if b == [] {
      assert a + b == a;
    } else {
      ParseConcat(a, b[..|b| - 1]);
      ConcatLastOff(a, b);
      var e := ParseBlock(b[|b| - 1]);
      if e.Some? {
        ConcatAssoc(ParseBlocks(a), ParseBlocks(b[..|b| - 1]), [e.value]);
      }
    }
  }

  lemma ParseOne(b: string)
    ensures ParseBlocks([b]) == if ParseBlock(b).Some? then [ParseBlock(b).value] else []
  {
    assert [b][..0] == [];
    assert ParseBlocks([]) == [];
  }

  /** What the parser makes of the printed file is what it makes of each body, one after the other. */
  lemma ParsePrinted(bodies: seq<string>)
    requires forall b :: b in bodies ==> EndsLine(b)
    ensures ParseBlocks(Split(Printed(bodies))) == ParseBlocks(SplitAll(bodies))
  {
    SplitPrinted(bodies);
    ParseConcat([""], SplitAll(bodies));
    ParseOne("");
  }

  // ---- What the parser can give out ----

  ghost predicate Clean(s: string) {
    NoDivider(s) && '\r' !in s
  }

  lemma CleanPart(s: string, i: nat, j: nat)
    requires Clean(s) && i <= j <= |s|
    ensures Clean(s[i..j])
  {
    var t := s[i..j];
    forall k | 0 <= k < |t| ensures !HasAt(t, k, DIVIDER) {
      DividerAt(t, k);
      DividerAt(s, i + k);
      assert !HasAt(s, i + k, DIVIDER);
      assert forall c :: 0 <= c < |t| ==> t[c] == s[i + c];
    }
  }

  lemma CleanStrip(s: string)
    requires Clean(s)
    ensures Clean(Strip(s))
  {
    var l := LStrip(s);
    assert l == s[|s| - |l|..|s|];
    CleanPart(s, |s| - |l|, |s|);
    CleanPart(l, 0, |RStrip(l)|);
  }

  lemma ShorterHasLess(s: string, n: nat)
    requires n <= |s| && forall j :: 0 <= j < n ==> !HasAt(s, j, DIVIDER)
    ensures NoDivider(s[..n])
  {
    forall j | 0 <= j < n ensures !HasAt(s[..n], j, DIVIDER) {
      if j + 5 <= n {
        assert s[..n][j..j + 5] == s[j..j + 5];
      }
      assert !HasAt(s, j, DIVIDER);
    }
  }

  lemma {:induction false} SplitClean(s: string, b: string)
    requires '\r' !in s && b in Split(s)
    ensures Clean(b)
    decreases |s|
  {
    var i := FindDivider(s, 0);
    if i.None? {
      assert b == s;
    } else if b == s[..i.value] {
      ShorterHasLess(s, i.value);
    } else {
      SplitClean(s[i.value + 5..], b);
    }
  }

  lemma {:induction false} ParsedFrom(blocks: seq<string>, e: Entry) returns (b: string)
    requires e in ParseBlocks(blocks)
    ensures b in blocks && ParseBlock(b) == Some(e)
  {
    var n := |blocks| - 1;
    var last := ParseBlock(blocks[n]);
    if last == Some(e) {
      b := blocks[n];
    } else {
      var rest := ParseBlocks(blocks[..n]);
      assert ParseBlocks(blocks) == if last.Some? then rest + [last.value] else rest;
      b := ParsedFrom(blocks[..n], e);
    }
  }

  lemma {:induction false} ReasonSlices(s: string, lo: nat, hi: nat) returns (i: nat, j: nat, k: nat)
    requires lo <= hi <= |s| && ReasonFrom(s, lo, hi).Some?
    ensures i <= j <= |s| && k <= |s| && ReasonFrom(s, lo, hi) == Some(Tail(s[i..j], s[k..]))
    decreases hi
  {
    var end := FindUnderscore(s, hi + 1);
    if end.Some? {
      i, j, k := hi, end.value, Skip(s, end.value + 1);
    } else {
      i, j, k := ReasonSlices(s, lo, hi - 1);
    }
  }

  /** Once the group has to give back a space, it can only be the space before the last underscore. */
  lemma {:induction false} GivenBack(s: string, lo: nat, hi: nat, end: nat)
    requires lo <= hi < end <= |s| && (forall k :: lo <= k < end ==> IsSpace(s[k]))
    requires FindUnderscore(s, hi + 2).None? && ReasonFrom(s, lo, hi).Some?
    ensures var t := ReasonFrom(s, lo, hi).value; |t.reason| == 1 && IsSpace(t.reason[0]) && '_' !in t.rest
    decreases hi
  {
    var u := FindUnderscore(s, hi + 1);
    if u.Some? {
      assert u.value == hi + 1;
    } else {
      GivenBack(s, lo, hi - 1, end);
    }
  }

  lemma PrefixKeeps(s: string, t: string)
    requires t != "" && |t| <= |s| && t == s[..|t|] && '_' !in s[1..]
    ensures '_' !in t[1..]
  {
    assert t[1..] == s[1..][..|t| - 1];
  }

  lemma SliceKeepsOut(s: string, i: nat, j: nat)
    requires i <= j <= |s| && '_' !in s
    ensures '_' !in s[i..j]
  {
  }

  lemma StripKeepsOut(s: string)
    requires '_' !in s
    ensures '_' !in Strip(s)
  {
    var l := LStrip(s);
    SliceKeepsOut(s, |s| - |l|, |s|);
    assert l == s[|s| - |l|..|s|];
    SliceKeepsOut(l, 0, |RStrip(l)|);
  }

  lemma FirstEndReadable(t: Tail)
    requires t.reason != "" && !IsSpace(t.reason[0]) && '_' !in t.reason[1..]
    ensures Readable(Strip(t.reason), Strip(t.rest))
  {
    assert Strip(t.reason) == RStrip(t.reason);
    RStripKeeps(t.reason);
    PrefixKeeps(t.reason, Strip(t.reason));
  }

  lemma SpaceReadable(t: Tail)
    requires |t.reason| == 1 && IsSpace(t.reason[0]) && '_' !in t.rest
    ensures Readable(Strip(t.reason), Strip(t.rest))
  {
    BlankIff(t.reason);
    StripKeepsOut(t.rest);
  }

  lemma SliceHasNone(s: string, hi: nat, end: nat)
    requires hi < end <= |s| && forall k :: hi < k < end ==> s[k] != '_'
    ensures s[hi..end][0] == s[hi] && '_' !in s[hi..end][1..]
  {
    assert s[hi..end][1..] == s[hi + 1..end];
  }

  lemma FirstEnd(s: string, lo: nat, hi: nat, end: nat)
    requires lo <= hi <= |s| && FindUnderscore(s, hi + 1) == Some(end)
    ensures end < |s| && ReasonFrom(s, lo, hi) == Some(Tail(s[hi..end], s[Skip(s, end + 1)..]))
  {
  }

  lemma {:induction false} FirstEndIsReadable(s: string, lo: nat, hi: nat)
    requires lo <= hi < |s| && !IsSpace(s[hi]) && FindUnderscore(s, hi + 1).Some?
    ensures ReasonFrom(s, lo, hi).Some?
    ensures var t := ReasonFrom(s, lo, hi).value; Readable(Strip(t.reason), Strip(t.rest))
  {
    var end := FindUnderscore(s, hi + 1).value;
    FirstEnd(s, lo, hi, end);
    SliceHasNone(s, hi, end);
    FirstEndReadable(Tail(s[hi..end], s[Skip(s, end + 1)..]));
  }

  lemma {:induction false} GivenBackIsReadable(s: string, lo: nat, hi: nat)
    requires lo <= hi <= |s| && (forall k :: lo <= k < hi ==> IsSpace(s[k]))
    requires FindUnderscore(s, hi + 1).None? && ReasonFrom(s, lo, hi).Some?
    ensures var t := ReasonFrom(s, lo, hi).value; Readable(Strip(t.reason), Strip(t.rest))
  {
    GivenBack(s, lo, hi - 1, hi);
    SpaceReadable(ReasonFrom(s, lo, hi - 1).value);
  }

  /** The reason the lazy group ends with is one the pattern reads back. */
  lemma {:induction false} ReasonIsReadable(s: string, q: nat)
    requires q <= |s| && ReasonFrom(s, q, Skip(s, q)).Some?
    ensures var t := ReasonFrom(s, q, Skip(s, q)).value; Readable(Strip(t.reason), Strip(t.rest))
  {
    var hi := Skip(s, q);
    if FindUnderscore(s, hi + 1).Some? {
      FirstEndIsReadable(s, q, hi);
    } else {
      GivenBackIsReadable(s, q, hi);
    }
  }

  lemma {:induction false} StampSlice(s: string, start: nat, i: nat) returns (end: nat)
    requires start <= i && StampFrom(s, start, i).Some?
    ensures start <= end <= |s| && AfterStamp(s, end).Some?
    ensures StampFrom(s, start, i) == Some(Meta(s[start..end], AfterStamp(s, end).value))
    decreases |s| - i
  {
    if AfterStamp(s, i).Some? {
      end := i;
    } else {
      end := StampSlice(s, start, i + 1);
    }
  }

  lemma {:induction false} StampSlices(s: string, lo: nat, hi: nat) returns (start: nat, end: nat)
    requires lo <= hi && StampsFrom(s, lo, hi).Some?
    ensures start <= end <= |s| && AfterStamp(s, end).Some?
    ensures StampsFrom(s, lo, hi) == Some(Meta(s[start..end], AfterStamp(s, end).value))
    decreases hi
  {
    if StampFrom(s, hi, hi + 1).Some? {
      start := hi;
      end := StampSlice(s, hi, hi + 1);
    } else {
      start, end := StampSlices(s, lo, hi - 1);
    }
  }

  lemma TailAfter(s: string, i: nat) returns (q: nat)
    requires i <= |s| && AfterStamp(s, i).Some?
    ensures q <= |s| && AfterStamp(s, i) == ReasonFrom(s, q, Skip(s, q))
  {
    q := Skip(s, Skip(s, i) + 1) + 7;
  }

  lemma MatchSlices(s: string) returns (start: nat, end: nat, q: nat)
    requires MatchMeta(s).Some?
    ensures start <= end <= |s| && q <= |s| && ReasonFrom(s, q, Skip(s, q)).Some?
    ensures MatchMeta(s) == Some(Meta(s[start..end], ReasonFrom(s, q, Skip(s, q)).value))
  {
    start, end := StampSlices(s, 10, Skip(s, 10));
    q := TailAfter(s, end);
  }

  lemma MatchReadable(s: string)
    requires MatchMeta(s).Some?
    ensures Readable(Strip(MatchMeta(s).value.tail.reason), Strip(MatchMeta(s).value.tail.rest))
  {
    var start, end, q := MatchSlices(s);
    ReasonIsReadable(s, q);
  }

  /** Every part of a match is a slice of the block. */
  lemma MatchParts(s: string) returns (start: nat, end: nat, i: nat, j: nat, k: nat)
    requires MatchMeta(s).Some?
    ensures start <= end <= |s| && i <= j <= |s| && k <= |s|
    ensures MatchMeta(s) == Some(Meta(s[start..end], Tail(s[i..j], s[k..])))
  {
    var q;
    start, end, q := MatchSlices(s);
    i, j, k := ReasonSlices(s, q, Skip(s, q));
  }

  lemma MatchClean(s: string)
    requires Clean(s) && MatchMeta(s).Some?
    ensures var m := MatchMeta(s).value; Clean(m.stamp) && Clean(m.tail.reason) && Clean(m.tail.rest)
  {
    var start, end, i, j, k := MatchParts(s);
    CleanPart(s, start, end);
    CleanPart(s, i, j);
    CleanPart(s, k, |s|);
    assert s[k..] == s[k..|s|];
  }

  /** An entry with a reason that came out of a clean block is clean, and its reason readable. */
  lemma ParsedImage(b: string)
    requires Clean(b) && ParseBlock(b).Some? && ParseBlock(b).value.reason.Some?
    ensures var e := ParseBlock(b).value;
            && e.stamp.Some? && Readable(e.reason.value, e.content)
            && Clean(e.content) && Clean(e.reason.value) && Clean(e.stamp.value)
  {
    var s := Strip(b);
    CleanStrip(b);
    MatchReadable(s);
    MatchClean(s);
    var m := MatchMeta(s).value;
    CleanStrip(m.stamp);
    CleanStrip(m.tail.reason);
    CleanStrip(m.tail.rest);
  }

  // ---- Which blocks give an entry ----

  /** How a metadata line can match, whatever the groups take: a bar after at least one character of stamp,
      spaces, "Reason:", and an underscore after at least one character of reason. */
  ghost predicate MetaAt(s: string, bar: nat, r: nat, u: nat) {
    && HasAt(s, 0, "_Archived:") && 11 <= bar < r && r + 7 <= |s| && r + 7 < u < |s|
    && s[bar] == '|' && (forall k :: bar < k < r ==> IsSpace(s[k]))
    && ReasonAt(s, r) && s[u] == '_'
  }

  lemma SkipTo(s: string, i: nat, r: nat)
    requires i <= r < |s| && !IsSpace(s[r]) && forall k :: i <= k < r ==> IsSpace(s[k])
    ensures Skip(s, i) == r
  {
  }

  lemma AfterStampFound(s: string, bar: nat, r: nat, u: nat)
    requires MetaAt(s, bar, r, u)
    ensures AfterStamp(s, bar).Some?
  {
    SkipTo(s, bar, bar);
    SkipTo(s, bar + 1, r);
    ReasonFound(s, r + 7, Skip(s, r + 7), u);
  }

  lemma {:induction false} StampFromFound(s: string, start: nat, i: nat, end: nat)
    requires start <= i <= end <= |s| && AfterStamp(s, end).Some?
    ensures StampFrom(s, start, i).Some?
    decreases end - i
  {
    if AfterStamp(s, i).None? {
      StampFromFound(s, start, i + 1, end);
    }
  }

  lemma {:induction false} StampsFromFound(s: string, lo: nat, hi: nat, h: nat)
    requires lo <= h <= hi && StampFrom(s, h, h + 1).Some?
    ensures StampsFrom(s, lo, hi).Some?
    decreases hi
  {
    if h < hi {
      StampsFromFound(s, lo, hi - 1, h);
    }
  }

  lemma {:induction false} ReasonNeedsUnderscore(s: string, lo: nat, hi: nat) returns (u: nat)
    requires lo <= hi <= |s| && ReasonFrom(s, lo, hi).Some?
    ensures lo < u < |s| && s[u] == '_'
    decreases hi
  {
    var end := FindUnderscore(s, hi + 1);
    if end.Some? {
      u := end.value;
    } else {
      u := ReasonNeedsUnderscore(s, lo, hi - 1);
    }
  }

  lemma {:induction false} StampAt(s: string, start: nat, i: nat) returns (end: nat)
    requires start <= i && StampFrom(s, start, i).Some?
    ensures i <= end <= |s| && AfterStamp(s, end).Some?
    decreases |s| - i
  {
    if AfterStamp(s, i).Some? {
      end := i;
    } else {
      end := StampAt(s, start, i + 1);
    }
  }

  lemma {:induction false} StampsAt(s: string, lo: nat, hi: nat) returns (end: nat)
    requires lo <= hi && StampsFrom(s, lo, hi).Some?
    ensures lo < end <= |s| && AfterStamp(s, end).Some?
    decreases hi
  {
    if StampFrom(s, hi, hi + 1).Some? {
      end := StampAt(s, hi, hi + 1);
    } else {
      end := StampsAt(s, lo, hi - 1);
    }
  }

  lemma AfterStampLayout(s: string, end: nat) returns (bar: nat, r: nat)
    requires end <= |s| && AfterStamp(s, end).Some?
    ensures end <= bar < r && r + 7 <= |s| && s[bar] == '|' && ReasonAt(s, r)
    ensures forall k :: bar < k < r ==> IsSpace(s[k])
    ensures ReasonFrom(s, r + 7, Skip(s, r + 7)).Some?
  {
    bar := Skip(s, end);
    r := Skip(s, bar + 1);
  }

  lemma LayoutHas(s: string, bar: nat, r: nat) returns (u: nat)
    requires HasAt(s, 0, "_Archived:") && 11 <= bar < r && r + 7 <= |s| && s[bar] == '|' && ReasonAt(s, r)
    requires forall k :: bar < k < r ==> IsSpace(s[k])
    requires ReasonFrom(s, r + 7, Skip(s, r + 7)).Some?
    ensures MetaAt(s, bar, r, u)
  {
    u := ReasonNeedsUnderscore(s, r + 7, Skip(s, r + 7));
  }

  lemma SkipStays(s: string, i: nat, bar: nat)
    requires i <= bar < |s| && !IsSpace(s[bar])
    ensures Skip(s, i) <= bar
  {
  }

  /** The backtracking search finds a metadata line exactly where one can be laid out. */
  lemma MatchesIff(s: string)
    ensures MatchMeta(s).Some? <==> exists bar, r, u :: MetaAt(s, bar, r, u)
  {
    if MatchMeta(s).Some? {
      var end := StampsAt(s, 10, Skip(s, 10));
      var bar, r := AfterStampLayout(s, end);
      var u := LayoutHas(s, bar, r);
    }
    if bar, r, u :| MetaAt(s, bar, r, u) {
      LaidOutIsFound(s, bar, r, u);
    }
  }

  lemma LaidOutIsFound(s: string, bar: nat, r: nat, u: nat)
    requires MetaAt(s, bar, r, u)
    ensures MatchMeta(s).Some?
  {
    AfterStampFound(s, bar, r, u);
    SkipStays(s, 10, bar);
    var h := if Skip(s, 10) < bar then Skip(s, 10) else bar - 1;
    StampFromFound(s, h, h + 1, bar);
    StampsFromFound(s, 10, Skip(s, 10), h);
  }

  /** A block gives no entry exactly if it is blank, or its metadata line is followed by whitespace only. */
  lemma DroppedIff(block: string)
    ensures var s := Strip(block);
            ParseBlock(block).None? <==>
            AllSpace(block) || (MatchMeta(s).Some? && AllSpace(MatchMeta(s).value.tail.rest))
  {
    var s := Strip(block);
    BlankIff(block);
    if s != "" && MatchMeta(s).Some? {
      BlankIff(MatchMeta(s).value.tail.rest);
    }
  }

  /** A block without a metadata line is an entry of its own, whole, without reason and timestamp. */
  lemma BareBlockKept(block: string)
    requires !AllSpace(block) && !exists bar, r, u :: MetaAt(Strip(block), bar, r, u)
    ensures ParseBlock(block) == Some(Entry(Strip(block), None, None))
  {
    BlankIff(block);
    MatchesIff(Strip(block));
  }

  /** Such a text alone in the file, written by hand say, comes back as that one entry. */
  lemma HandWrittenTextKept(s: string)
    requires NoDivider(s) && !AllSpace(s) && !HasAt(Strip(s), 0, "_Archived:")
    ensures ParseBlocks(Split(s)) == [Entry(Strip(s), None, None)]
  {
    BareBlockKept(s);
    SplitLast(s);
    ParseOne(s);
  }

  /** A divider line inside an entry splits it: the part up to it keeps reason and timestamp, the part after
      it, unless it looks like a metadata line itself, comes back as an entry without them. */
  lemma DividedEntryFallsApart(item: Item, a: string, b: string)
    requires Stamp(item.stamp) && NoDivider(item.stamp) && NoDivider(item.reason)
    requires a != "" && b != "" && Trimmed(a) && Trimmed(b) && Strip(item.entry) == a + DIVIDER + b
    requires Readable(item.reason, a) && NoDivider("\n" + a + "\n") && NoDivider(b + "\n")
    requires !HasAt(b, 0, "_Archived:")
    ensures ParseBlocks(Split(Body(item))) ==
            [Entry(a, Some(item.reason), Some(item.stamp)), Entry(b, None, None)]
  {
    var p := Header(item.stamp, item.reason);
    var first, last := p + ("\n" + a), b + "\n";
    BodyIsHeaderWrapped(item);
    EntryParts(p, a, b);
    HeaderNoDivider(item.stamp, item.reason);
    DividerInTail(p, "\n" + a + "\n");
    assert p + ("\n" + a + "\n") == first + "\n";
    CutOnce(first, last);
    HeaderLine(item, a);
    BareTail(b);
    ParseTwo(first, last);
  }

  lemma ParseTwo(a: string, b: string)
    requires ParseBlock(a).Some? && ParseBlock(b).Some?
    ensures ParseBlocks([a, b]) == [ParseBlock(a).value, ParseBlock(b).value]
  {
    assert [a, b][..1] == [a];
    ParseOne(a);
  }

  lemma LineParses(s: string, ts: string, r: string, e: string)
    requires StampLine(s, ts) && Stamp(ts) && ReasonLine(s, 21 + |ts|, r, e)
    requires Readable(r, e) && Trimmed(e) && e != ""
    ensures ParseBlock(s) == Some(Entry(e, Some(r), Some(ts)))
  {
    StripLine(s, ts, r, e, "\n");
    assert Trimmed(s);
    ParsedLineIff(s, ts, r, e);
    ParsedFromMeta(s);
  }

  lemma HeaderLine(item: Item, a: string)
    requires Stamp(item.stamp) && Readable(item.reason, a) && Trimmed(a) && a != ""
    ensures ParseBlock(Header(item.stamp, item.reason) + ("\n" + a)) ==
            Some(Entry(a, Some(item.reason), Some(item.stamp)))
  {
    HeaderTwoLines("_Archived: " + item.stamp + " | Reason: " + item.reason, a);
    BodyLayout(item, a);
    LineParses(MetaLine(item.stamp, item.reason) + a, item.stamp, item.reason, a);
  }

  lemma BareTail(b: string)
    requires b != "" && Trimmed(b) && !HasAt(b, 0, "_Archived:")
    ensures ParseBlock(b + "\n") == Some(Entry(b, None, None))
  {
    assert "" + b + "\n" == b + "\n";
    StripPadded("", b, "\n");
  }

  lemma EntryParts(p: string, a: string, b: string)
    ensures p + Wrapped(a + DIVIDER + b) == p + ("\n" + a) + DIVIDER + (b + "\n")
  {
  }

  lemma NoneBefore(q: string, b: string, j: nat)
    requires NoDivider(q + "\n") && j < |q|
    ensures !HasAt(q + DIVIDER + b, j, DIVIDER)
  {
    var s, t := q + DIVIDER + b, q + "\n";
    DividerAt(s, j);
    DividerAt(t, j);
    assert s[|q|] == '\n' && !HasAt(t, j, DIVIDER);
    assert forall k :: 0 <= k <= |q| ==> s[k] == t[k];
  }

  /** A text with one divider, which no earlier one overlaps, is cut there. */
  lemma CutOnce(q: string, b: string)
    requires NoDivider(q + "\n") && NoDivider(b)
    ensures Split(q + DIVIDER + b) == [q, b]
  {
    var s := q + DIVIDER + b;
    forall j | 0 <= j < |q| ensures !HasAt(s, j, DIVIDER) {
      NoneBefore(q, b, j);
    }
    assert s[|q|..|q| + 5] == DIVIDER;
    FoundAt(s, |q|);
    CutAfter(q, b);
    SplitLast(b);
  }

  // ---- How much content a body can give ----

  function Total(es: seq<Entry>): nat {
    if es == [] then 0 else |es[0].content| + Total(es[1..])
  }

  lemma {:induction false} TotalConcat(a: seq<Entry>, b: seq<Entry>)
    ensures Total(a + b) == Total(a) + Total(b)
  {
    if a == [] {
      assert a + b == b;
    } else {
      TotalConcat(a[1..], b);
      assert (a + b)[1..] == a[1..] + b;
    }
  }

  function Yield(block: string): nat {
    var e := ParseBlock(block);
    if e.Some? then |e.value.content| else 0
  }

  lemma YieldBound(block: string)
    ensures Yield(block) <= |block|
  {
    var s := Strip(block);
    StripShort(block);
    if s != "" && MatchMeta(s).Some? {
      var _, _, _, _, k := MatchParts(s);
      StripShort(s[k..]);
    }
  }

  lemma TotalFirst(block: string, blocks: seq<string>)
    ensures Total(ParseBlocks([block] + blocks)) == Yield(block) + Total(ParseBlocks(blocks))
  {
    ParseConcat([block], blocks);
    ParseOne(block);
    TotalConcat(ParseBlocks([block]), ParseBlocks(blocks));
  }

  lemma {:induction false} SplitTotal(s: string)
    ensures Total(ParseBlocks(Split(s))) <= |s|
    decreases |s|
  {
    var i := FindDivider(s, 0);
    if i.None? {
      TotalFirst(s, []);
      assert [s] + [] == [s];
      YieldBound(s);
    } else {
      TotalFirst(s[..i.value], Split(s[i.value + 5..]));
      YieldBound(s[..i.value]);
      SplitTotal(s[i.value + 5..]);
    }
  }

  /** A header without an entry and its newline. */
  ghost predicate BareLine(s: string, ts: string, r: string) {
    var q := 21 + |ts|;
    && StampLine(s, ts) && s[0] == '_'
    && q + 2 + |r| == |s| && s[q] == ' ' && s[q + 1..q + 1 + |r|] == r && s[|s| - 1] == '_'
  }

  lemma BareLineOf(ts: string, r: string)
    ensures BareLine("_Archived: " + ts + " | Reason: " + (r + "_"), ts, r)
  {
    var s := "_Archived: " + ts + " | Reason: " + (r + "_");
    var q := 21 + |ts|;
    TailLayout(s, ts, r + "_");
    assert s[0] == s[0..10][0] == '_';
    assert s[q..][1..] == r + "_";
    assert s[q + 1..] == r + "_";
    assert s[q + 1..q + 1 + |r|] == (r + "_")[..|r|];
    assert s[q + 1 + |r|] == (r + "_")[|r|];
  }

  predicate OneGroup(r: string) {
    Trimmed(r) && (r != "" ==> '_' !in r[1..])
  }

  lemma BareReason(s: string, ts: string, r: string)
    requires BareLine(s, ts, r) && OneGroup(r)
    ensures var t := ReasonFrom(s, 21 + |ts|, Skip(s, 21 + |ts|)); t.Some? && t.value.rest == ""
  {
    var q := 21 + |ts|;
    if r != "" {
      assert forall k :: 0 <= k < |r| ==> s[q + 1 + k] == r[k];
      assert forall k :: 1 <= k < |r| ==> r[k] == r[1..][k - 1];
      assert Skip(s, q) == q + 1;
      assert FindUnderscore(s, q + 2) == Some(|s| - 1);
    } else {
      assert Skip(s, q) == q + 1;
      assert FindUnderscore(s, q + 1) == Some(q + 1);
    }
  }

  lemma BareMatch(s: string, ts: string, r: string)
    requires BareLine(s, ts, r) && Stamp(ts) && OneGroup(r)
    ensures MatchMeta(s).Some? && MatchMeta(s).value.tail.rest == ""
  {
    BareReason(s, ts, r);
    MatchesStamp(s, ts);
  }

  lemma YieldFromMeta(block: string, s: string)
    requires Strip(block) == s && s != "" && MatchMeta(s).Some?
    ensures Yield(block) == |Strip(MatchMeta(s).value.tail.rest)|
  {
    ParsedFromMeta(s);
  }

  lemma BareYield(s: string, ts: string, r: string)
    requires BareLine(s, ts, r) && Stamp(ts) && OneGroup(r)
    ensures Yield(s + "\n") == 0
  {
    assert "" + s + "\n" == s + "\n";
    StripPadded("", s, "\n");
    BareMatch(s, ts, r);
    YieldFromMeta(s + "\n", s);
  }

  lemma HeaderYieldsNothing(ts: string, r: string)
    requires Stamp(ts) && OneGroup(r)
    ensures Yield(Header(ts, r)) == 0
  {
    var h := "_Archived: " + ts + " | Reason: ";
    BareLineOf(ts, r);
    BareYield(h + (r + "_"), ts, r);
    LineEnd(h, r);
  }

  lemma LineEnd(h: string, r: string)
    ensures h + (r + "_") + "\n" == h + r + "_\n"
  {
  }

  lemma ReadableShorter(r: string, e: string, x: string)
    requires Readable(r, e) && |x| <= |e| && x == e[..|x|]
    ensures Readable(r, x)
  {
  }

  lemma CutLineStrip(item: Item, y: string) returns (x: string)
    requires y != "" && !IsSpace(y[0])
    ensures x == RStrip(y) && x != "" && Trimmed(x)
    ensures Strip(MetaLine(item.stamp, item.reason) + y) == MetaLine(item.stamp, item.reason) + x
  {
    x := RStrip(y);
    var after := y[|x|..];
    RStripKeeps(y);
    RStripDropsSpace(y);
    assert y == x + after;
    BodyLayout(item, x);
    var s := MetaLine(item.stamp, item.reason) + x;
    StripLine(s, item.stamp, item.reason, x, after);
    ConcatAssoc(MetaLine(item.stamp, item.reason), x, after);
  }

  lemma LineYield(block: string, s: string, ts: string, r: string, x: string)
    requires StampLine(s, ts) && Stamp(ts) && ReasonLine(s, 21 + |ts|, r, x) && Strip(block) == s
    requires Readable(r, x) && Trimmed(x) && x != ""
    ensures Yield(block) == |x|
  {
    ParsedLineIff(s, ts, r, x);
    YieldFromMeta(block, s);
  }

  /** A line cut inside its entry gives what is left of the entry. */
  lemma CutLineYield(item: Item, y: string)
    requires Stamp(item.stamp) && Readable(item.reason, y) && y != "" && !IsSpace(y[0])
    ensures Yield(MetaLine(item.stamp, item.reason) + y) <= |y|
  {
    var x := CutLineStrip(item, y);
    BodyLayout(item, x);
    ReadableShorter(item.reason, y, x);
    var block := MetaLine(item.stamp, item.reason) + y;
    LineYield(block, MetaLine(item.stamp, item.reason) + x, item.stamp, item.reason, x);
  }

  /** What the parser asks of an item, wherever its dividers are. */
  ghost predicate Plain(item: Item) {
    && Stamp(item.stamp) && Strip(item.entry) != "" && Readable(item.reason, Strip(item.entry))
    && NoDivider(item.stamp) && NoDivider(item.reason)
  }

  lemma HeaderThen(ts: string, r: string, e: string, n: nat)
    requires n <= |e|
    ensures Header(ts, r) + Wrapped(e)[..n + 1] == MetaLine(ts, r) + e[..n]
  {
    var h := "_Archived: " + ts + " | Reason: " + r;
    assert Wrapped(e)[..n + 1] == "\n" + e[..n];
    HeaderTwoLines(h, e[..n]);
  }

  lemma HeaderTwoLines(h: string, x: string)
    ensures h + "_\n" + ("\n" + x) == h + "_\n\n" + x
  {
  }

  /** The block before the first divider, j characters into the wrapped entry. */
  lemma FirstBlockYield(item: Item, j: nat)
    requires Plain(item) && HasAt(Wrapped(Strip(item.entry)), j, DIVIDER)
    ensures Yield(Header(item.stamp, item.reason) + Wrapped(Strip(item.entry))[..j]) <= j
  {
    var e := Strip(item.entry);
    var p, x := Header(item.stamp, item.reason), Wrapped(e);
    DividerAt(x, j);
    if j == 0 {
      assert p + x[..0] == p;
      HeaderYieldsNothing(item.stamp, item.reason);
    } else {
      assert x[1] == e[0];
      HeaderThen(item.stamp, item.reason, e, j - 1);
      ReadableShorter(item.reason, e, e[..j - 1]);
      CutLineYield(item, e[..j - 1]);
    }
  }

  lemma CutPrefix(p: string, x: string, i: nat)
    requires |p| <= i && i + 5 <= |p + x|
    ensures (p + x)[..i] == p + x[..i - |p|] && (p + x)[i + 5..] == x[i - |p| + 5..]
  {
  }

  lemma {:induction false} CutAtFirst(s: string) returns (i: nat)
    requires !NoDivider(s)
    ensures HasAt(s, i, DIVIDER) && Split(s) == [s[..i]] + Split(s[i + 5..])
  {
    i := FindDivider(s, 0).value;
  }

  lemma CutBeyond(p: string, x: string, i: nat)
    requires NoDivider(p) && p != "" && p[|p| - 1] == '\n' && x != "" && x[0] == '\n' && HasAt(p + x, i, DIVIDER)
    ensures i >= |p| && HasAt(x, i - |p|, DIVIDER)
  {
    DividerPastPrefix(p, x, if i < |p| then i else i - |p|);
  }

  /** Where such a text is cut first. */
  lemma {:induction false} FirstCut(p: string, x: string) returns (j: nat)
    requires NoDivider(p) && p != "" && p[|p| - 1] == '\n' && x != "" && x[0] == '\n' && !NoDivider(p + x)
    ensures HasAt(x, j, DIVIDER) && Split(p + x) == [p + x[..j]] + Split(x[j + 5..])
  {
    var i := CutAtFirst(p + x);
    CutBeyond(p, x, i);
    CutPrefix(p, x, i);
    j := i - |p|;
  }

  /** A body with a divider in it gives less content than was written into it. */
  lemma DividedYieldsLess(item: Item)
    requires Plain(item) && !NoDivider(Body(item))
    ensures Total(ParseBlocks(Split(Body(item)))) < |Strip(item.entry)|
  {
    var p, x := Header(item.stamp, item.reason), Wrapped(Strip(item.entry));
    BodyIsHeaderWrapped(item);
    HeaderNoDivider(item.stamp, item.reason);
    var j := FirstCut(p, x);
    TotalFirst(p + x[..j], Split(x[j + 5..]));
    FirstBlockYield(item, j);
    SplitTotal(x[j + 5..]);
  }

  lemma WholeYieldsAll(item: Item)
    requires Stamp(item.stamp) && Strip(item.entry) != "" && Readable(item.reason, Strip(item.entry))
    requires NoDivider(Body(item))
    ensures ParseBlocks(Split(Body(item))) == [Expected(item)]
  {
    SplitLast(Body(item));
    ParseOne(Body(item));
    BodySurvivesIff(item);
  }

  lemma BodiesFirst(items: seq<Item>)
    requires items != []
    ensures Bodies(items) == [Body(items[0])] + Bodies(items[1..])
  {
    var bodies, rest := Bodies(items), Bodies(items[1..]);
    forall i | 0 <= i < |rest| ensures bodies[i + 1] == rest[i] {
      assert items[i + 1] == items[1..][i];
    }
    ConsIs(bodies, Body(items[0]), rest);
  }

  lemma ExpectedFirst(items: seq<Item>)
    requires items != []
    ensures ExpectedAll(items) == [Expected(items[0])] + ExpectedAll(items[1..])
  {
    var all, rest := ExpectedAll(items), ExpectedAll(items[1..]);
    forall i | 0 <= i < |rest| ensures all[i + 1] == rest[i] {
      assert items[i + 1] == items[1..][i];
    }
    ConsIs(all, Expected(items[0]), rest);
  }

  lemma ParseFirst(body: string, bodies: seq<string>)
    ensures ParseBlocks(SplitAll([body] + bodies)) == ParseBlocks(Split(body)) + ParseBlocks(SplitAll(bodies))
  {
    assert ([body] + bodies)[1..] == bodies;
    ParseConcat(Split(body), SplitAll(bodies));
  }

  lemma TotalsOf(items: seq<Item>)
    requires items != []
    ensures Total(ParseBlocks(SplitAll(Bodies(items)))) ==
            Total(ParseBlocks(Split(Body(items[0])))) + Total(ParseBlocks(SplitAll(Bodies(items[1..]))))
    ensures Total(ExpectedAll(items)) == |Strip(items[0].entry)| + Total(ExpectedAll(items[1..]))
  {
    BodiesFirst(items);
    ExpectedFirst(items);
    ParseFirst(Body(items[0]), Bodies(items[1..]));
    TotalConcat(ParseBlocks(Split(Body(items[0]))), ParseBlocks(SplitAll(Bodies(items[1..]))));
    assert ([Expected(items[0])] + ExpectedAll(items[1..]))[1..] == ExpectedAll(items[1..]);
  }

  ghost predicate Undivided(items: seq<Item>) {
    forall i :: 0 <= i < |items| ==> NoDivider(Body(items[i]))
  }

  lemma UndividedCons(items: seq<Item>)
    requires items != [] && NoDivider(Body(items[0])) && Undivided(items[1..])
    ensures Undivided(items)
  {
    forall i | 0 <= i < |items| ensures NoDivider(Body(items[i])) {
      assert i > 0 ==> items[i] == items[1..][i - 1];
    }
  }

  /** Together the bodies give at most the content written, and all of it only if no body holds a divider. */
  lemma {:induction false} AllYield(items: seq<Item>)
    requires forall i :: 0 <= i < |items| ==> Plain(items[i])
    ensures Total(ParseBlocks(SplitAll(Bodies(items)))) <= Total(ExpectedAll(items))
    ensures Total(ParseBlocks(SplitAll(Bodies(items)))) == Total(ExpectedAll(items)) ==> Undivided(items)
  {
    if items == [] {
      assert Bodies(items) == [];
    } else {
      AllYield(items[1..]);
      FirstYield(items[0]);
      TotalsOf(items);
      if NoDivider(Body(items[0])) && Undivided(items[1..]) {
        UndividedCons(items);
      }
    }
  }

  lemma FirstYield(item: Item)
    requires Plain(item)
    ensures var total := Total(ParseBlocks(Split(Body(item))));
            total <= |Strip(item.entry)| && (total == |Strip(item.entry)| ==> NoDivider(Body(item)))
  {
    if NoDivider(Body(item)) {
      WholeYieldsAll(item);
    } else {
      DividedYieldsLess(item);
    }
  }

  // ---- The whole file ----

  lemma BodyEndsLine(item: Item)
    ensures EndsLine(Body(item))
  {
  }

  lemma {:induction false} PrintedNoReturn(bodies: seq<string>)
    requires forall b :: b in bodies ==> '\r' !in b
    ensures '\r' !in Printed(bodies)
  {
    if bodies != [] {
      PrintedNoReturn(bodies[1..]);
    }
  }

  lemma BodyNoReturn(item: Item)
    requires '\r' !in item.stamp && '\r' !in item.reason && '\r' !in Strip(item.entry)
    ensures '\r' !in Body(item)
  {
    var a, b, c := "_Archived: ", " | Reason: ", "_\n\n";
    assert '\r' !in a && '\r' !in b && '\r' !in c && '\r' !in "\n";
  }

  /** What came back from a text without carriage returns is plain, and has none itself. */
  lemma ReturnedIsPlain(raw: string, item: Item)
    requires '\r' !in raw && Expected(item) in ParseBlocks(Split(raw))
    requires Stamp(item.stamp) && Strip(item.entry) != ""
    ensures Plain(item) && '\r' !in Body(item)
  {
    var b := ParsedFrom(Split(raw), Expected(item));
    SplitClean(raw, b);
    ParsedImage(b);
    BodyNoReturn(item);
  }

  lemma {:induction false} WholeBodies(items: seq<Item>)
    requires forall i :: 0 <= i < |items| ==> RoundTrips(items[i])
    ensures ParseBlocks(SplitAll(Bodies(items))) == ExpectedAll(items)
  {
    if items == [] {
      assert Bodies(items) == [];
    } else {
      var rest := items[1..];
      assert forall i :: 0 <= i < |rest| ==> rest[i] == items[i + 1];
      WholeBodies(rest);
      BodiesFirst(items);
      ExpectedFirst(items);
      ParseFirst(Body(items[0]), Bodies(rest));
      WholeYieldsAll(items[0]);
    }
  }

  lemma ReadTextPrinted(items: seq<Item>)
    requires forall i :: 0 <= i < |items| ==> '\r' !in Body(items[i])
    ensures ReadText(Printed(Bodies(items))) == Printed(Bodies(items))
    ensures ParseBlocks(Split(Printed(Bodies(items)))) == ParseBlocks(SplitAll(Bodies(items)))
  {
    PrintedNoReturn(Bodies(items));
    forall i | 0 <= i < |items| ensures EndsLine(Bodies(items)[i]) {
      BodyEndsLine(items[i]);
    }
    ParsePrinted(Bodies(items));
  }

  /** Reading back the file that any sequence of appends produced gives exactly the list of entries, reasons
      and timestamps, in order, iff every one of them round-trips on its own. */
  lemma ArchiveRoundTripsIff(items: seq<Item>)
    requires forall i :: 0 <= i < |items| ==> Stamp(items[i].stamp) && Strip(items[i].entry) != ""
    ensures ReadsBack(items) <==> forall i :: 0 <= i < |items| ==> RoundTrips(items[i])
  {
    if ReadsBack(items) {
      forall i | 0 <= i < |items| ensures Plain(items[i]) && '\r' !in Body(items[i]) {
        assert ExpectedAll(items)[i] == Expected(items[i]);
        ReturnedIsPlain(ReadText(Printed(Bodies(items))), items[i]);
      }
      ReadTextPrinted(items);
      AllYield(items);
    }
    if forall i :: 0 <= i < |items| ==> RoundTrips(items[i]) {
      ReadTextPrinted(items);
      WholeBodies(items);
    }
  }
}
