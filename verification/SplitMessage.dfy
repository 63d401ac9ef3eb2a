/** The message splitter of bot/ai_invoke.py. */
module SplitMessage {
  import opened Common
  import opened Text

  /** str.rfind of one character in the first n: -1 if it is not there. */
  function RFind(text: string, c: char, n: nat): (r: int)
    requires n <= |text|
    ensures -1 <= r < n && (r >= 0 ==> text[r] == c)
    ensures forall k :: r < k < n ==> text[k] != c
  {
    if n == 0 then -1 else if text[n - 1] == c then n - 1 else RFind(text, c, n - 1)
  }

  /** Where an overlong text is cut. */
  function Cut(text: string, max: nat): (cut: nat)
    requires 1 <= max < |text|
    ensures max / 2 <= cut <= max && (cut == 0 ==> IsSpace(text[0]))
  {
    var newline := RFind(text, '\n', max);
    if newline >= max / 2 then newline
    else
      var space := RFind(text, ' ', max);
      if space >= max / 2 then space else max
  }

  predicate LateIn(text: string, c: char, max: nat, k: int) {
    max / 2 <= k < max && k < |text| && text[k] == c
  }

  /** The cut is at the last newline in the second half of the window if there is one, else at the last space
      there, else at the window's end. */
  lemma CutPrefersLines(text: string, max: nat, k: int)
    requires 1 <= max < |text|
    ensures LateIn(text, '\n', max, k) ==> LateIn(text, '\n', max, Cut(text, max)) && k <= Cut(text, max)
    ensures LateIn(text, ' ', max, k) ==>
              || LateIn(text, '\n', max, Cut(text, max))
              || (LateIn(text, ' ', max, Cut(text, max)) && k <= Cut(text, max))
    ensures Cut(text, max) == max || LateIn(text, '\n', max, Cut(text, max)) || LateIn(text, ' ', max, Cut(text, max))
  {
  }

  lemma LStripShrinks(s: string)
    requires s != "" && IsSpace(s[0])
    ensures |LStrip(s)| < |s|
  {
  }

  function Rest(text: string, max: nat): (r: string)
    requires 1 <= max < |text|
    ensures |r| < |text|
  {
    var cut := Cut(text, max);
    if cut == 0 then
      assert text[0..] == text;
      LStripShrinks(text);
      LStrip(text[cut..])
    else LStrip(text[cut..])
  }

  function Chunks(text: string, max: nat): seq<string>
    requires 1 <= max
    decreases |text|
  {
    if |text| == 0 then []
    else if |text| <= max then [text]
    else [text[..Cut(text, max)]] + Chunks(Rest(text, max), max)
  }

  /** The chunks cut so far, and those still to come from the rest, are the chunks of the text. */
  ghost predicate Progress(text: string, max: nat, chunks: seq<string>, rest: string) {
    1 <= max && chunks + Chunks(rest, max) == Chunks(text, max)
  }

  lemma ProgressStart(text: string, max: nat)
    requires 1 <= max
    ensures Progress(text, max, [], text)
  {
  }

  lemma ProgressStep(text: string, max: nat, chunks: seq<string>, rest: string)
    requires Progress(text, max, chunks, rest) && max < |rest|
    ensures Progress(text, max, chunks + [rest[..Cut(rest, max)]], Rest(rest, max))
  {
    ConcatAssoc(chunks, [rest[..Cut(rest, max)]], Chunks(Rest(rest, max), max));
  }

  lemma ProgressEnd(text: string, max: nat, chunks: seq<string>, rest: string)
    requires Progress(text, max, chunks, rest) && |rest| <= max
    ensures Chunks(text, max) == if |rest| == 0 then chunks else chunks + [rest]
  {
  }

  /** One round of the loop: the next chunk and what remains. */
  method CutOff(text: string, max: nat) returns (chunk: string, rest: string)
    requires 1 <= max < |text|
    ensures chunk == text[..Cut(text, max)] && rest == Rest(text, max)
  {
    var splitAt := RFind(text, '\n', max);
    if splitAt < max / 2 {
      splitAt := RFind(text, ' ', max);
    }
    if splitAt < max / 2 {
      splitAt := max;
    }
    chunk, rest := text[..splitAt], LStrip(text[splitAt..]);
  }

  method Split(text: string, max: nat) returns (chunks: seq<string>)
    requires 1 <= max
    ensures chunks == if |text| <= max then [text] else Chunks(text, max)
  {
    if |text| <= max {
      return [text];
    }
    chunks := [];
    var rest := text;
    ProgressStart(text, max);
    while |rest| > 0
      invariant Progress(text, max, chunks, rest)
      decreases |rest|
    {
      if |rest| <= max {
        ProgressEnd(text, max, chunks, rest);
        return chunks + [rest];
      }
      ProgressStep(text, max, chunks, rest);
      var chunk;
      chunk, rest := CutOff(rest, max);
      chunks := chunks + [chunk];
    }
    ProgressEnd(text, max, chunks, rest);
  }

  // ---- Nothing but whitespace is lost ----

  function Gap(tail: string): (gap: string)
    ensures AllSpace(gap) && gap + LStrip(tail) == tail
  {
    LStripDropsSpace(tail);
    tail[..|tail| - |LStrip(tail)|]
  }

  function Prepend(gap: string, gaps: seq<string>): (r: seq<string>)
    requires AllSpace(gap) && forall i :: 0 <= i < |gaps| ==> AllSpace(gaps[i])
    ensures r == [gap] + gaps && forall i :: 0 <= i < |r| ==> AllSpace(r[i])
  {
    [gap] + gaps
  }

  /** What the splitter drops after each chunk. */
  function Gaps(text: string, max: nat): (gaps: seq<string>)
    requires 1 <= max
    ensures |gaps| == |Chunks(text, max)|
    ensures forall i :: 0 <= i < |gaps| ==> AllSpace(gaps[i])
    decreases |text|
  {
    if |text| == 0 then []
    else if |text| <= max then [""]
    else
      var gap := Gap(text[Cut(text, max)..]);
      var rest := Gaps(Rest(text, max), max);
      Prepend(gap, rest)
  }

  function Woven(chunks: seq<string>, gaps: seq<string>): string
    requires |chunks| == |gaps|
  {
    if chunks == [] then "" else chunks[0] + gaps[0] + Woven(chunks[1..], gaps[1..])
  }

  lemma WovenFirst(chunk: string, gap: string, chunks: seq<string>, gaps: seq<string>)
    requires |chunks| == |gaps|
    ensures Woven([chunk] + chunks, [gap] + gaps) == chunk + gap + Woven(chunks, gaps)
  {
    assert ([chunk] + chunks)[1..] == chunks && ([gap] + gaps)[1..] == gaps;
  }

  lemma Regroup(text: string, cut: nat, gap: string, rest: string)
    requires cut <= |text| && text[cut..] == gap + rest
    ensures text == text[..cut] + gap + rest
  {
    assert text == text[..cut] + text[cut..];
    ConcatAssoc(text[..cut], gap, rest);
  }

  /** The text is its chunks, in order, with gaps of nothing but whitespace between them. */
  lemma {:induction false} TextIsWoven(text: string, max: nat)
    requires 1 <= max
    ensures text == Woven(Chunks(text, max), Gaps(text, max))
    decreases |text|
  {
    if text != "" && |text| <= max {
      WovenFirst(text, "", [], []);
    } else if text != "" {
      var cut := Cut(text, max);
      var gap := Gap(text[cut..]);
      var rest := Rest(text, max);
      TextIsWoven(rest, max);
      WovenFirst(text[..cut], gap, Chunks(rest, max), Gaps(rest, max));
      Regroup(text, cut, gap, rest);
    }
  }

  // ---- Sizes ----

  lemma {:induction false} ChunksFit(text: string, max: nat)
    requires 1 <= max
    ensures forall i :: 0 <= i < |Chunks(text, max)| ==> |Chunks(text, max)[i]| <= max
    ensures max >= 2 ==> forall i :: 0 <= i < |Chunks(text, max)| ==> Chunks(text, max)[i] != ""
    decreases |text|
  {
    if |text| > max {
      ChunksFit(Rest(text, max), max);
    }
  }

  lemma CountStep(n: nat, half: nat, rest: nat, cut: nat, total: nat)
    requires n * half <= rest + half && half <= cut && rest + cut <= total
    ensures (n + 1) * half <= total + half
  {
    assert (n + 1) * half == n * half + half;
  }

  /** Every chunk but the last takes at least half a window: the number of messages is bounded by the text. */
  lemma {:induction false} ChunkCount(text: string, max: nat, half: nat)
    requires 1 <= max && half == max / 2
    ensures |Chunks(text, max)| * half <= |text| + half
    decreases |text|
  {
    if |text| > max {
      var rest := Rest(text, max);
      ChunkCount(rest, max, half);
      CountStep(|Chunks(rest, max)|, half, |rest|, Cut(text, max), |text|);
    }
  }

  // ---- Where the chunks begin and end ----

  /** A text that fits is one chunk; of one that does not the first chunk ends at the preferred cut, and what
      follows, without its leading whitespace, is cut in the same way. */
  lemma ChunksFollowCuts(text: string, max: nat)
    requires 1 <= max
    ensures 0 < |text| <= max ==> Chunks(text, max) == [text]
    ensures |text| > max ==>
              && Chunks(text, max) != [] && Chunks(text, max)[0] == text[..Cut(text, max)]
              && Chunks(text, max)[1..] == Chunks(LStrip(text[Cut(text, max)..]), max)
  {
  }

  /** No message but the first begins with whitespace, and none of those is empty. */
  lemma {:induction false} LaterChunksStartClean(text: string, max: nat, i: nat)
    requires 1 <= max && i < |Chunks(text, max)| && (i > 0 || (text != "" && !IsSpace(text[0])))
    ensures var chunk := Chunks(text, max)[i]; chunk != "" && !IsSpace(chunk[0])
    decreases |text|
  {
    if |text| > max && i > 0 {
      LaterChunksStartClean(Rest(text, max), max, i - 1);
    }
  }
}
