/** The memory archive: the appender of bot/memory.py, the parser of bot/memory_store.py that migrates what
    it wrote, and what the parser makes of one appended entry. */
module Archive {
  import opened Common
  import opened Text

  const DIVIDER := "\n---\n"

  predicate HasAt(s: string, i: nat, p: string) {
    i + |p| <= |s| && s[i..i + |p|] == p
  }

  // ---- The printer ----

  datatype Item = Item(entry: string, reason: string, stamp: string)

  function MetaLine(stamp: string, reason: string): string {
    "_Archived: " + stamp + " | Reason: " + reason + "_\n\n"
  }

  /** What one append writes after the divider. */
  function Body(item: Item): string {
    MetaLine(item.stamp, item.reason) + Strip(item.entry) + "\n"
  }

  function Bodies(items: seq<Item>): (r: seq<string>)
    ensures |r| == |items| && forall i :: 0 <= i < |r| ==> r[i] == Body(items[i])
  {
    seq(|items|, i requires 0 <= i < |items| => Body(items[i]))
  }

  /** Each body after a divider. */
  function Printed(bodies: seq<string>): string {
    if bodies == [] then "" else DIVIDER + bodies[0] + Printed(bodies[1..])
  }

  lemma {:induction false} PrintedAppend(bodies: seq<string>, body: string)
    ensures Printed(bodies + [body]) == Printed(bodies) + (DIVIDER + body)
  {
    if bodies == [] {
      assert (bodies + [body])[1..] == [];
    } else {
      PrintedAppend(bodies[1..], body);
      assert (bodies + [body])[1..] == bodies[1..] + [body];
      ConcatAssoc(DIVIDER + bodies[0], Printed(bodies[1..]), DIVIDER + body);
    }
  }

  lemma HeaderFirst(a: string, b: string, c: string, d: string)
    ensures a + b + c + d == a + (b + c + d)
  {
  }

  /** What append_archive writes: a header that starts with the divider, the entry, a newline. */
  function Written(item: Item): (w: string)
    ensures w == DIVIDER + Body(item)
  {
    HeaderFirst(DIVIDER, MetaLine(item.stamp, item.reason), Strip(item.entry), "\n");
    var header := DIVIDER + MetaLine(item.stamp, item.reason);
    header + Strip(item.entry) + "\n"
  }

  lemma BodiesAppend(items: seq<Item>, item: Item)
    ensures Bodies(items + [item]) == Bodies(items) + [Body(item)]
  {
  }

  lemma WrittenAppends(items: seq<Item>, item: Item)
    ensures Printed(Bodies(items + [item])) == Printed(Bodies(items)) + Written(item)
  {
    BodiesAppend(items, item);
    PrintedAppend(Bodies(items), Body(item));
  }

  /** One quarterly archive file. */
  class ArchiveFile {
    var content: string
    ghost var items: seq<Item>

    ghost predicate Valid()
      reads this
    {
      content == Printed(Bodies(items))
    }

    constructor ()
      ensures Valid() && items == []
    {
      content, items := "", [];
    }

    method AppendArchive(entry: string, reason: string, stamp: string)
      requires Valid()
      modifies this
      ensures Valid() && items == old(items) + [Item(entry, reason, stamp)]
    {
      var item := Item(entry, reason, stamp);
      WrittenAppends(items, item);
      content := content + Written(item);
      items := items + [item];
    }
  }

  // ---- The parser: splitting at dividers ----

  function FindDivider(s: string, i: nat): (r: Option<nat>)
    requires i <= |s|
    ensures r.Some? ==> i <= r.value && HasAt(s, r.value, DIVIDER)
    ensures forall j :: i <= j < (if r.Some? then r.value else |s|) ==> !HasAt(s, j, DIVIDER)
    decreases |s| - i
  {
    if i == |s| then None else if HasAt(s, i, DIVIDER) then Some(i) else FindDivider(s, i + 1)
  }

  /** re.split at "\n---\n". */
  function Split(s: string): seq<string>
    decreases |s|
  {
    var i := FindDivider(s, 0);
    if i.None? then [s] else [s[..i.value]] + Split(s[i.value + |DIVIDER|..])
  }

  ghost predicate NoDivider(s: string) {
    forall i :: 0 <= i < |s| ==> !HasAt(s, i, DIVIDER)
  }

  lemma DividerAt(s: string, j: nat)
    ensures HasAt(s, j, DIVIDER)
            <==> && j + 5 <= |s| && s[j] == '\n' && s[j + 4] == '\n'
                 && s[j + 1] == '-' && s[j + 2] == '-' && s[j + 3] == '-'
  {
    if j + 5 <= |s| {
      assert s[j..j + 5] == [s[j], s[j + 1], s[j + 2], s[j + 3], s[j + 4]];
    }
  }

  lemma SplitLast(b: string)
    requires NoDivider(b)
    ensures Split(b) == [b]
  {
  }

  // ---- The parser: the metadata line ----

  function Skip(s: string, i: nat): (r: nat)
    requires i <= |s|
    ensures i <= r <= |s| && (r < |s| ==> !IsSpace(s[r]))
    ensures forall k :: i <= k < r ==> IsSpace(s[k])
    decreases |s| - i
  {
    if i < |s| && IsSpace(s[i]) then Skip(s, i + 1) else i
  }

  function FindUnderscore(s: string, i: nat): (r: Option<nat>)
    ensures r.Some? ==> i <= r.value < |s| && s[r.value] == '_'
    ensures forall k :: i <= k < (if r.Some? then r.value else |s|) ==> s[k] != '_'
    decreases |s| - i
  {
    if i >= |s| then None else if s[i] == '_' then Some(i) else FindUnderscore(s, i + 1)
  }

  datatype Tail = Tail(reason: string, rest: string)

  /** \s*(.+?)_\s*\n?(.*) from lo, the leading run of spaces given back one by one from hi down. */
  function ReasonFrom(s: string, lo: nat, hi: nat): Option<Tail>
    requires lo <= hi <= |s|
    decreases hi
  {
    var end := FindUnderscore(s, hi + 1);
    if end.Some? then Some(Tail(s[hi..end.value], s[Skip(s, end.value + 1)..]))
    else if hi == lo then None
    else ReasonFrom(s, lo, hi - 1)
  }

  /** The word "Reason:". */
  predicate ReasonAt(s: string, i: nat) {
    && i + 7 <= |s| && s[i] == 'R' && s[i + 1] == 'e' && s[i + 2] == 'a' && s[i + 3] == 's'
    && s[i + 4] == 'o' && s[i + 5] == 'n' && s[i + 6] == ':'
  }

  /** \s*\|\s*Reason: and the rest, from i. The bar and the R are no spaces, so only the longest runs of
      spaces before them can match. */
  function AfterStamp(s: string, i: nat): Option<Tail>
    requires i <= |s|
  {
    var bar := Skip(s, i);
    if bar == |s| || s[bar] != '|' then None
    else
      var r := Skip(s, bar + 1);
      if !ReasonAt(s, r) then None else ReasonFrom(s, r + 7, Skip(s, r + 7))
  }

  datatype Meta = Meta(stamp: string, tail: Tail)

  /** (.+?) from start, ending at i or later. */
  function StampFrom(s: string, start: nat, i: nat): Option<Meta>
    requires start <= i
    decreases |s| - i
  {
    if i > |s| then None
    else
      var tail := AfterStamp(s, i);
      if tail.Some? then Some(Meta(s[start..i], tail.value)) else StampFrom(s, start, i + 1)
  }

  function StampsFrom(s: string, lo: nat, hi: nat): Option<Meta>
    requires lo <= hi
    decreases hi
  {
    var m := StampFrom(s, hi, hi + 1);
    if m.Some? || hi == lo then m else StampsFrom(s, lo, hi - 1)
  }

  /** re.match of _Archived:\s*(.+?)\s*\|\s*Reason:\s*(.+?)_\s*\n?(.*) with DOTALL. */
  function MatchMeta(s: string): Option<Meta> {
    if !HasAt(s, 0, "_Archived:") then None else StampsFrom(s, 10, Skip(s, 10))
  }

  datatype Entry = Entry(content: string, reason: Option<string>, stamp: Option<string>)

  function ParseBlock(block: string): Option<Entry> {
    ParseStripped(Strip(block))
  }

  function ParseStripped(b: string): Option<Entry> {
    if b == "" then None
    else
      var m := MatchMeta(b);
      if m.None? then Some(Entry(b, None, None))
      else
        var content := Strip(m.value.tail.rest);
        if content == "" then None
        else Some(Entry(content, Some(Strip(m.value.tail.reason)), Some(Strip(m.value.stamp))))
  }

  function ParseBlocks(blocks: seq<string>): seq<Entry> {
    if blocks == [] then []
    else
      var rest := ParseBlocks(blocks[..|blocks| - 1]);
      var e := ParseBlock(blocks[|blocks| - 1]);
      if e.Some? then rest + [e.value] else rest
  }

  lemma ParseNext(blocks: seq<string>, i: nat)
    requires i < |blocks|
    ensures ParseBlocks(blocks[..i + 1]) == ParseBlocks(blocks[..i]) +
              (if ParseBlock(blocks[i]).Some? then [ParseBlock(blocks[i]).value] else [])
  {
    assert blocks[..i + 1][..i] == blocks[..i];
  }

  /** The loop body: one block, unless nothing is left of it. */
  method ReadEntry(raw: string) returns (entry: Option<Entry>)
    ensures entry == ParseBlock(raw)
  {
    var block := Strip(raw);
    if block == "" {
      return None;
    }
    var reason, stamp := None, None;
    var m := MatchMeta(block);
    if m.Some? {
      stamp := Some(Strip(m.value.stamp));
      reason := Some(Strip(m.value.tail.reason));
      block := Strip(m.value.tail.rest);
    }
    return if block != "" then Some(Entry(block, reason, stamp)) else None;
  }

  method SplitArchiveEntries(raw: string) returns (results: seq<Entry>)
    ensures results == ParseBlocks(Split(raw))
  {
    var blocks := Split(raw);
    results := [];
    for i := 0 to |blocks|
      invariant results == ParseBlocks(blocks[..i])
    {
      ParseNext(blocks, i);
      var entry := ReadEntry(blocks[i]);
      if entry.Some? {
        results := results + [entry.value];
      }
    }
    assert blocks[..|blocks|] == blocks;
  }

  // ---- What one block parses to ----

  /** A timestamp as strftime writes it has no bar and no outer spaces. */
  ghost predicate Stamp(ts: string) {
    ts != "" && Trimmed(ts) && forall i :: 0 <= i < |ts| ==> ts[i] != '|'
  }

  /** The first end from i on that lets the rest of the pattern match. */
  lemma {:induction false} StampFound(s: string, start: nat, i: nat, end: nat)
    requires start <= i <= end <= |s| && AfterStamp(s, end).Some?
    requires forall k :: i <= k < end ==> AfterStamp(s, k).None?
    ensures StampFrom(s, start, i) == Some(Meta(s[start..end], AfterStamp(s, end).value))
    decreases end - i
  {
    if i < end {
      StampFound(s, start, i + 1, end);
    }
  }

  /** While an underscore lies ahead, the reason group finds an end. */
  lemma {:induction false} ReasonFound(s: string, lo: nat, hi: nat, u: nat)
    requires lo <= hi <= |s| && lo < u < |s| && s[u] == '_'
    ensures ReasonFrom(s, lo, hi).Some?
    decreases hi
  {
    if FindUnderscore(s, hi + 1).None? {
      ReasonFound(s, lo, hi - 1, u);
    }
  }

  /** How a metadata line with stamp ts is laid out. */
  ghost predicate StampLine(s: string, ts: string) {
    var n := |ts|;
    && |s| >= 21 + n && HasAt(s, 0, "_Archived:") && s[10] == ' ' && s[11..11 + n] == ts
    && s[11 + n] == ' ' && s[12 + n] == '|' && s[13 + n] == ' ' && s[14 + n] == 'R' && ReasonAt(s, 14 + n)
  }

  lemma StampLineOf(ts: string, tail: string)
    ensures StampLine("_Archived: " + ts + " | Reason: " + tail, ts)
    ensures ("_Archived: " + ts + " | Reason: " + tail)[21 + |ts|..] == " " + tail
  {
    var a, b := "_Archived: ", " | Reason: ";
    var s := a + ts + b + tail;
    assert s[..11] == a && s[11..11 + |ts|] == ts && s[11 + |ts|..22 + |ts|] == b;
    assert s[0..10] == a[0..10] == "_Archived:";
    assert forall k :: 0 <= k < 11 ==> s[11 + |ts| + k] == b[k];
  }

  lemma StampPasses(s: string, ts: string, k: nat)
    requires StampLine(s, ts) && Stamp(ts) && 12 <= k < 11 + |ts|
    ensures AfterStamp(s, k).None?
  {
    var n := |ts|;
    assert s[10 + n] == s[11..11 + n][n - 1] == ts[n - 1];
    var bar := Skip(s, k);
    assert bar <= 10 + n;
    assert s[bar] == s[11..11 + n][bar - 11] == ts[bar - 11];
  }

  lemma AfterStampEnd(s: string, ts: string)
    requires StampLine(s, ts)
    ensures AfterStamp(s, 11 + |ts|) == ReasonFrom(s, 21 + |ts|, Skip(s, 21 + |ts|))
  {
    var n := |ts|;
    assert Skip(s, 11 + n) == 12 + n && Skip(s, 13 + n) == 14 + n;
  }

  lemma FirstStampStart(s: string, ts: string)
    requires StampLine(s, ts) && Stamp(ts)
    ensures Skip(s, 10) == 11
  {
    assert s[11] == s[11..11 + |ts|][0] == ts[0];
  }

  /** The stamp is read back, and what follows "Reason:" decides the rest. */
  lemma MatchesStamp(s: string, ts: string)
    requires StampLine(s, ts) && Stamp(ts)
    requires ReasonFrom(s, 21 + |ts|, Skip(s, 21 + |ts|)).Some?
    ensures MatchMeta(s) == Some(Meta(ts, ReasonFrom(s, 21 + |ts|, Skip(s, 21 + |ts|)).value))
  {
    var end := 11 + |ts|;
    forall k | 12 <= k < end ensures AfterStamp(s, k).None? {
      StampPasses(s, ts, k);
    }
    AfterStampEnd(s, ts);
    StampFound(s, 11, 12, end);
    FirstStampStart(s, ts);
  }

  /** How a line goes on after "Reason:" at q. */
  ghost predicate ReasonLine(s: string, q: nat, r: string, e: string) {
    var u := q + 1 + |r|;
    && |s| == u + 3 + |e| && s[q] == ' ' && s[q + 1..u] == r
    && s[u] == '_' && s[u + 1] == '\n' && s[u + 2] == '\n' && s[u + 3..] == e
  }

  lemma ReasonLineOf(s: string, q: nat, r: string, e: string)
    requires q <= |s| && s[q..] == " " + (r + "_\n\n" + e)
    ensures ReasonLine(s, q, r, e)
  {
    var t := s[q..];
    var tail := r + "_\n\n" + e;
    assert tail[..|r|] == r && tail[|r|..|r| + 3] == "_\n\n" && tail[|r| + 3..] == e;
    assert t[1..] == tail;
    assert s[q + 1..] == tail;
    assert s[q + 1..q + 1 + |r|] == tail[..|r|];
    assert s[q + 4 + |r|..] == tail[|r| + 3..];
    assert s[q + 1 + |r|] == tail[|r|] == '_';
    assert s[q + 2 + |r|] == tail[|r| + 1] == '\n';
    assert s[q + 3 + |r|] == tail[|r| + 2] == '\n';
  }

  lemma ReasonStart(s: string, q: nat, r: string, e: string)
    requires ReasonLine(s, q, r, e) && r != "" && !IsSpace(r[0])
    ensures Skip(s, q) == q + 1
    ensures forall k :: 1 <= k < |r| ==> s[q + 1 + k] == r[k] && r[k] == r[1..][k - 1]
  {
    var u := q + 1 + |r|;
    assert s[q + 1] == s[q + 1..u][0] == r[0];
    forall k | 1 <= k < |r| ensures s[q + 1 + k] == r[k] && r[k] == r[1..][k - 1] {
      assert s[q + 1..u][k] == r[k];
    }
  }

  /** The first underscore after the reason's first character decides: at the end of the reason, or in it. */
  lemma ReasonRead(s: string, q: nat, r: string, e: string)
    requires ReasonLine(s, q, r, e) && r != "" && !IsSpace(r[0]) && e != "" && !IsSpace(e[0])
    ensures var t := ReasonFrom(s, q, Skip(s, q));
            && t.Some?
            && ('_' !in r[1..] ==> t == Some(Tail(r, e)))
            && ('_' in r[1..] ==> |t.value.reason| < |r|)
  {
    var u := q + 1 + |r|;
    ReasonStart(s, q, r, e);
    if '_' !in r[1..] {
      assert forall x :: q + 2 <= x < u ==> s[x] == r[x - q - 1] == r[1..][x - q - 2];
      assert FindUnderscore(s, q + 2) == Some(u);
      assert s[u + 3] == s[u + 3..][0];
      assert Skip(s, u + 1) == u + 3;
    } else {
      var k :| 0 <= k < |r[1..]| && r[1..][k] == '_';
      assert s[q + 1 + (k + 1)] == '_';
    }
  }

  lemma EmptyReasonRead(s: string, q: nat, e: string)
    requires ReasonLine(s, q, "", e) && e != "" && !IsSpace(e[0])
    ensures var t := ReasonFrom(s, q, Skip(s, q));
            && t.Some?
            && ('_' !in e ==> t == Some(Tail(" ", e)))
            && ('_' in e ==> t.value.reason != "" && t.value.reason[0] == '_')
  {
    assert Skip(s, q) == q + 1;
    assert s[q + 4] == s[q + 4..][0];
    forall k | 0 <= k < |e| ensures s[q + 4 + k] == e[k] {
      assert s[q + 4..][k] == e[k];
    }
    if '_' !in e {
      assert forall x :: q + 4 <= x < |s| ==> s[x] == e[x - q - 4];
      assert FindUnderscore(s, q + 2).None?;
      assert FindUnderscore(s, q + 1) == Some(q + 1);
      assert Skip(s, q + 2) == q + 4;
      assert s[q..q + 1] == " ";
    } else {
      var k :| 0 <= k < |e| && e[k] == '_';
      assert s[q + 4 + k] == '_';
    }
  }

  /** The reasons the pattern reads back: trimmed, with no underscore after the first character; an empty one
      only if the entry has no underscore either, because the lazy group then needs another one. */
  predicate Readable(reason: string, entry: string) {
    Trimmed(reason) && if reason == "" then '_' !in entry else '_' !in reason[1..]
  }

  lemma StripShort(s: string)
    ensures |Strip(s)| <= |s|
  {
  }

  lemma StartStays(s: string)
    requires s != "" && s[0] == '_'
    ensures Strip(s) != ""
  {
    BlankIff(s);
  }

  lemma EmptyReasonIff(s: string, ts: string, e: string)
    requires StampLine(s, ts) && Stamp(ts) && ReasonLine(s, 21 + |ts|, "", e) && Trimmed(e) && e != ""
    ensures MatchMeta(s).Some? && MatchMeta(s).value.stamp == ts
    ensures var t := MatchMeta(s).value.tail; Strip(t.reason) == "" && Strip(t.rest) == e <==> '_' !in e
  {
    EmptyReasonRead(s, 21 + |ts|, e);
    MatchesStamp(s, ts);
    if '_' in e {
      StartStays(MatchMeta(s).value.tail.reason);
    } else {
      BlankIff(" ");
    }
  }

  lemma ReasonIff(s: string, ts: string, r: string, e: string)
    requires StampLine(s, ts) && Stamp(ts) && ReasonLine(s, 21 + |ts|, r, e)
    requires Trimmed(r) && r != "" && Trimmed(e) && e != ""
    ensures MatchMeta(s).Some? && MatchMeta(s).value.stamp == ts
    ensures var t := MatchMeta(s).value.tail; Strip(t.reason) == r && Strip(t.rest) == e <==> '_' !in r[1..]
  {
    ReasonRead(s, 21 + |ts|, r, e);
    MatchesStamp(s, ts);
    StripShort(MatchMeta(s).value.tail.reason);
  }

  lemma ParsedLineIff(s: string, ts: string, r: string, e: string)
    requires StampLine(s, ts) && Stamp(ts) && ReasonLine(s, 21 + |ts|, r, e)
    requires Trimmed(r) && Trimmed(e) && e != ""
    ensures MatchMeta(s).Some? && MatchMeta(s).value.stamp == ts
    ensures var t := MatchMeta(s).value.tail;
            Strip(t.reason) == r && Strip(t.rest) == e <==> Readable(r, e)
  {
    if r == "" {
      EmptyReasonIff(s, ts, e);
    } else {
      ReasonIff(s, ts, r, e);
    }
  }

  function Expected(item: Item): Entry {
    Entry(Strip(item.entry), Some(item.reason), Some(item.stamp))
  }

  lemma Regroup(a: string, ts: string, b: string, r: string, c: string, e: string)
    ensures a + ts + b + r + c + e == a + ts + b + (r + c + e)
  {
  }

  function ExpectedAll(items: seq<Item>): (r: seq<Entry>)
    ensures |r| == |items| && forall i :: 0 <= i < |r| ==> r[i] == Expected(items[i])
  {
    seq(|items|, i requires 0 <= i < |items| => Expected(items[i]))
  }

  lemma MetaLineThen(ts: string, r: string, e: string)
    ensures MetaLine(ts, r) + e == "_Archived: " + ts + " | Reason: " + (r + "_\n\n" + e)
  {
    Regroup("_Archived: ", ts, " | Reason: ", r, "_\n\n", e);
  }

  lemma TailLayout(s: string, ts: string, tail: string)
    requires s == "_Archived: " + ts + " | Reason: " + tail
    ensures StampLine(s, ts) && s[21 + |ts|..] == " " + tail
  {
    StampLineOf(ts, tail);
  }

  lemma BodyLayout(item: Item, e: string)
    ensures var s := MetaLine(item.stamp, item.reason) + e;
            StampLine(s, item.stamp) && ReasonLine(s, 21 + |item.stamp|, item.reason, e)
  {
    var s := MetaLine(item.stamp, item.reason) + e;
    MetaLineThen(item.stamp, item.reason, e);
    TailLayout(s, item.stamp, item.reason + "_\n\n" + e);
    ReasonLineOf(s, 21 + |item.stamp|, item.reason, e);
  }

  lemma StripLine(s: string, ts: string, r: string, e: string, after: string)
    requires StampLine(s, ts) && ReasonLine(s, 21 + |ts|, r, e) && Trimmed(e) && e != "" && AllSpace(after)
    ensures Strip(s + after) == s
  {
    assert s[0] == s[0..10][0] == '_';
    var u := 24 + |ts| + |r|;
    assert s[|s| - 1] == s[u + 1..][|e| - 1] == e[|e| - 1];
    assert "" + s + after == s + after;
    StripPadded("", s, after);
  }

  lemma ParsedFromMeta(b: string)
    requires b != "" && MatchMeta(b).Some?
    ensures var m := MatchMeta(b).value;
            var content := Strip(m.tail.rest);
            ParseStripped(b) == if content == "" then None
                                else Some(Entry(content, Some(Strip(m.tail.reason)), Some(Strip(m.stamp))))
  {
  }

  lemma ParsedReasonTrimmed(b: string)
    ensures match ParseStripped(b)
            case Some(Entry(_, Some(reason), _)) => Trimmed(reason)
            case _ => true
  {
  }

  lemma LineSurvivesIff(s: string, ts: string, r: string, e: string)
    requires StampLine(s, ts) && Stamp(ts) && ReasonLine(s, 21 + |ts|, r, e) && Trimmed(e) && e != ""
    ensures ParseBlock(s + "\n") == Some(Entry(e, Some(r), Some(ts))) <==> Readable(r, e)
  {
    if Trimmed(r) {
      StripLine(s, ts, r, e, "\n");
      ParsedLineIff(s, ts, r, e);
      ParsedFromMeta(s);
    } else if ParseBlock(s + "\n") == Some(Entry(e, Some(r), Some(ts))) {
      ParsedReasonTrimmed(Strip(s + "\n"));
    }
  }

  ghost predicate Survives(item: Item) {
    ParseBlock(Body(item)) == Some(Expected(item))
  }

  /** One appended block reads back as it was written iff its reason is readable. */
  lemma BodySurvivesIff(item: Item)
    requires Stamp(item.stamp) && Strip(item.entry) != ""
    ensures Survives(item) <==> Readable(item.reason, Strip(item.entry))
  {
    var e := Strip(item.entry);
    BodyLayout(item, e);
    LineSurvivesIff(MetaLine(item.stamp, item.reason) + e, item.stamp, item.reason, e);
  }

  /** No reason with an underscore after its first character ever comes back, "a_b" for one: it is cut
      there and the entry gets the rest. */
  lemma UnderscoreReasonIsCut(item: Item, k: nat)
    requires Stamp(item.stamp) && Strip(item.entry) != ""
    requires 0 < k < |item.reason| && item.reason[k] == '_'
    ensures !Survives(item)
  {
    BodySurvivesIff(item);
    assert item.reason[1..][k - 1] == '_';
  }
}
