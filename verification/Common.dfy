/** Small value types and counting facts shared by the models. */
module Common {
  datatype Option<+T> = None | Some(value: T)

  function Last<T>(s: seq<T>): T
    requires s != []
  {
    s[|s| - 1]
  }

  /** Adding a fresh element to, or removing a member from, a finite set moves its size by one. */
  lemma SizeAfterAdd<T>(s: set<T>, x: T)
    requires x !in s
    ensures |s + {x}| == |s| + 1
  {
  }

  lemma SizeAfterRemove<T>(s: set<T>, x: T)
    requires x in s
    ensures |s - {x}| == |s| - 1
  {
  }

  lemma ConcatAssoc<T>(a: seq<T>, b: seq<T>, c: seq<T>)
    ensures a + b + c == a + (b + c)
  {
  }

  lemma ConcatFirstOff<T>(a: seq<T>, b: seq<T>)
    requires a != []
    ensures (a + b)[1..] == a[1..] + b && (a + b)[0] == a[0]
  {
  }

  lemma ConcatLastOff<T>(a: seq<T>, b: seq<T>)
    requires b != []
    ensures (a + b)[..|a + b| - 1] == a + b[..|b| - 1] && (a + b)[|a + b| - 1] == b[|b| - 1]
  {
  }

  lemma ConsIs<T>(s: seq<T>, x: T, rest: seq<T>)
    requires |s| == |rest| + 1 && s[0] == x && forall i :: 0 <= i < |rest| ==> s[i + 1] == rest[i]
    ensures s == [x] + rest
  {
  }
}
