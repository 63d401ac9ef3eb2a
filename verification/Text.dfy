/** Python's whitespace trimming on strings. */
module Text {
  import opened Common

  predicate IsSpace(c: char) {
    var n := c as int;
    || 0x09 <= n <= 0x0d || 0x1c <= n <= 0x20 || n == 0x85 || n == 0xa0 || n == 0x1680
    || 0x2000 <= n <= 0x200a || n == 0x2028 || n == 0x2029 || n == 0x202f || n == 0x205f || n == 0x3000
  }

  predicate AllSpace(s: string) {
    forall i :: 0 <= i < |s| ==> IsSpace(s[i])
  }

  predicate Trimmed(s: string) {
    s == [] || (!IsSpace(s[0]) && !IsSpace(s[|s| - 1]))
  }

  function LStrip(s: string): (r: string)
    ensures |r| <= |s| && r == s[|s| - |r|..]
    ensures r != [] ==> !IsSpace(r[0])
  {
    if s != [] && IsSpace(s[0]) then LStrip(s[1..]) else s
  }

  function RStrip(s: string): (r: string)
    ensures |r| <= |s| && r == s[..|r|]
    ensures r != [] ==> !IsSpace(r[|r| - 1])
  {
    if s != [] && IsSpace(s[|s| - 1]) then RStrip(s[..|s| - 1]) else s
  }

  function Strip(s: string): (r: string)
    ensures Trimmed(r)
    ensures Trimmed(s) ==> r == s
  {
    RStrip(LStrip(s))
  }

  lemma {:induction false} LStripDropsSpace(s: string)
    ensures AllSpace(s[..|s| - |LStrip(s)|])
  {
    if s != [] && IsSpace(s[0]) {
      LStripDropsSpace(s[1..]);
      assert s[..|s| - |LStrip(s)|] == [s[0]] + s[1..][..|s[1..]| - |LStrip(s[1..])|];
    }
  }

  lemma {:induction false} RStripDropsSpace(s: string)
    ensures AllSpace(s[|RStrip(s)|..])
  {
    if s != [] && IsSpace(s[|s| - 1]) {
      RStripDropsSpace(s[..|s| - 1]);
      assert s[|RStrip(s)|..] == s[..|s| - 1][|RStrip(s)|..] + [s[|s| - 1]];
    }
  }

  lemma {:induction false} LStripPadded(before: string, rest: string)
    requires AllSpace(before) && rest != [] && !IsSpace(rest[0])
    ensures LStrip(before + rest) == rest
  {
    if before == [] {
      assert before + rest == rest;
    } else {
      LStripPadded(before[1..], rest);
      ConcatFirstOff(before, rest);
    }
  }

  lemma {:induction false} RStripPadded(rest: string, after: string)
    requires AllSpace(after) && rest != [] && !IsSpace(rest[|rest| - 1])
    ensures RStrip(rest + after) == rest
  {
    if after == [] {
      assert rest + after == rest;
    } else {
      RStripPadded(rest, after[..|after| - 1]);
      ConcatLastOff(rest, after);
    }
  }

  /** Padding a trimmed text with whitespace on both sides and stripping gives it back. */
  lemma {:induction false} StripPadded(before: string, s: string, after: string)
    requires AllSpace(before) && AllSpace(after) && Trimmed(s) && s != []
    ensures Strip(before + s + after) == s
  {
    ConcatAssoc(before, s, after);
    LStripPadded(before, s + after);
    RStripPadded(s, after);
  }

  /** Stripping leaves nothing exactly of a blank text. */
  lemma BlankIff(s: string)
    ensures Strip(s) == "" <==> AllSpace(s)
  {
    LStripDropsSpace(s);
    var l := LStrip(s);
    if l == "" {
      assert s[..|s|] == s;
    } else {
      assert l[0] == s[|s| - |l|];
      RStripKeeps(l);
    }
  }

  lemma {:induction false} RStripKeeps(s: string)
    requires s != "" && !IsSpace(s[0])
    ensures RStrip(s) != ""
  {
    if |s| > 1 && IsSpace(s[|s| - 1]) {
      RStripKeeps(s[..|s| - 1]);
    }
  }
}
