/** Facts about concatenation that the proofs about rendered text use:
    regrouping, and looking at the head or tail of a join. */
module Strings {
  import opened Results

  lemma HeadOfAppend(a: string, b: string)
    requires a != []
    ensures |a + b| > 0 && (a + b)[0] == a[0]
  {
  }

  lemma TailOfAppend(a: string, b: string)
    requires a != []
    ensures (a + b)[1..] == a[1..] + b
  {
  }

  lemma Assoc4(a: string, b: string, c: string, d: string)
    ensures ((a + b) + c) + d == a + (b + (c + d))
  {
  }

  lemma Assoc6(a: string, b: string, c: string, d: string, e: string, f: string)
    ensures ((((a + b) + c) + d) + e) + f == a + (b + (c + (d + (e + f))))
  {
  }

  lemma Regroup7(p: string, q: string, r: string, s: string, t: string, u: string, v: string)
    ensures (p + q) + r + ((s + t) + u + v) == p + (q + (r + s) + t + (u + v))
  {
  }

  lemma CancelPrefix(a: string, x: string, y: string)
    requires a + x == a + y
    ensures x == y
  {
    assert x == (a + x)[|a|..];
  }

  lemma SplitAt(a: string, b: string)
    ensures (a + b)[..|a|] == a && (a + b)[|a|..] == b
  {
  }

  lemma Assoc3(a: string, b: string, c: string)
    ensures (a + b) + c == a + (b + c)
  {
  }

  lemma LastOfAppend(a: string, b: string)
    requires b != []
    ensures |a + b| > 0 && (a + b)[|a + b| - 1] == b[|b| - 1]
  {
  }

  /** Index of the first `c` in `s`, or `|s|` when there is none. */
  function IndexOf<T(==)>(s: seq<T>, c: T): (n: nat)
    ensures n <= |s|
    ensures forall k :: 0 <= k < n ==> s[k] != c
    ensures n < |s| ==> s[n] == c
  {
    if s == [] then 0 else if s[0] == c then 0 else 1 + IndexOf(s[1..], c)
  }

  lemma {:induction false} IndexOfPrefix<T>(a: seq<T>, b: seq<T>, c: T)
    requires forall k :: 0 <= k < |a| ==> a[k] != c
    ensures IndexOf(a + b, c) >= |a|
    ensures b != [] && b[0] == c ==> IndexOf(a + b, c) == |a|
  {
    if a == [] {
      assert a + b == b;
    } else {
      assert (a + b)[1..] == a[1..] + b;
      IndexOfPrefix(a[1..], b, c);
    }
  }

  /** Appending leaves the first position of an element already present
      where it was. */
  lemma {:induction false} IndexOfExtend<T>(a: seq<T>, b: seq<T>, c: T)
    requires c in a
    ensures IndexOf(a + b, c) == IndexOf(a, c)
  {
    if a[0] != c {
      assert (a + b)[1..] == a[1..] + b;
      IndexOfExtend(a[1..], b, c);
    }
  }

  /** The pieces of `s` between occurrences of `c`, as Python's
      `s.split(c)` gives them. */
  function Split(s: string, c: char): (r: seq<string>)
    ensures |r| > 0
    decreases |s|
  {
    var k := IndexOf(s, c);
    if k == |s| then [s] else [s[..k]] + Split(s[k + 1..], c)
  }

  /** The pieces joined with `c` between them, as `c.join(fs)`. */
  function Join(fs: seq<string>, c: char): string {
    if fs == [] then "" else if |fs| == 1 then fs[0] else fs[0] + [c] + Join(fs[1..], c)
  }

  predicate Avoids(s: string, c: char) {
    forall k :: 0 <= k < |s| ==> s[k] != c
  }

  /** A field free of `c` splits to itself. */
  lemma SplitOne(first: string, c: char)
    requires Avoids(first, c)
    ensures Split(first, c) == [first]
  {
    assert first + [] == first;
    IndexOfPrefix(first, [], c);
  }

  /** A field free of `c`, then `c`, then anything: the field comes off
      first. */
  lemma SplitFirst(first: string, rest: string, c: char)
    requires Avoids(first, c)
    ensures Split(first + ([c] + rest), c) == [first] + Split(rest, c)
  {
    var t := first + ([c] + rest);
    IndexOfPrefix(first, [c] + rest, c);
    SplitAt(first, [c] + rest);
    assert t[|first| + 1..] == rest;
  }

  lemma {:induction false} SplitJoin(fs: seq<string>, c: char)
    requires fs != [] && forall i :: 0 <= i < |fs| ==> Avoids(fs[i], c)
    ensures Split(Join(fs, c), c) == fs
  {
    var first := fs[0];
    if |fs| == 1 {
      SplitOne(first, c);
    } else {
      var rest := Join(fs[1..], c);
      assert Join(fs, c) == first + ([c] + rest);
      SplitFirst(first, rest, c);
      SplitJoin(fs[1..], c);
      assert fs == [first] + fs[1..];
    }
  }

  /** `s` without its prefix `lit`, when it has that prefix. */
  function AfterLiteral(s: string, lit: string): (r: Option<string>)
    ensures r.Some? ==> s == lit + r.value
  {
    if |s| >= |lit| && s[..|lit|] == lit then
      assert s == s[..|lit|] + s[|lit|..];
      Some(s[|lit|..])
    else None
  }

  lemma AfterLiteralOf(lit: string, rest: string)
    ensures AfterLiteral(lit + rest, lit) == Some(rest)
  {
    assert (lit + rest)[..|lit|] == lit;
    assert (lit + rest)[|lit|..] == rest;
  }
}
