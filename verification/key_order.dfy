/** The key order of `json.dumps(..., sort_keys=True)`: Python compares
    strings by code point, lexicographically, and sorts every object's
    members by key at every depth. */
module KeyOrder {
  import opened JsonValue

  /** Python's `a < b` on `str`: code-point lexicographic order, a proper
      prefix coming first. */
  predicate LexLess(a: string, b: string) {
    |b| > 0 && (|a| == 0 || a[0] < b[0] || (a[0] == b[0] && LexLess(a[1..], b[1..])))
  }

  lemma {:induction false} LexLessIrreflexive(a: string)
    ensures !LexLess(a, a)
  {
    if |a| > 0 {
      LexLessIrreflexive(a[1..]);
    }
  }

  lemma {:induction false} LexLessTransitive(a: string, b: string, c: string)
    requires LexLess(a, b) && LexLess(b, c)
    ensures LexLess(a, c)
  {
    if |a| > 0 && a[0] == b[0] && b[0] == c[0] {
      LexLessTransitive(a[1..], b[1..], c[1..]);
    }
  }

  lemma {:induction false} LexLessTotal(a: string, b: string)
    ensures a == b || LexLess(a, b) || LexLess(b, a)
  {
    if |a| > 0 && |b| > 0 && a[0] == b[0] {
      LexLessTotal(a[1..], b[1..]);
      if a[1..] == b[1..] {
        assert a == [a[0]] + a[1..] && b == [b[0]] + b[1..];
      }
    }
  }

  lemma LexLessAsymmetric(a: string, b: string)
    requires LexLess(a, b)
    ensures !LexLess(b, a)
  {
    if LexLess(b, a) {
      LexLessTransitive(a, b, a);
      LexLessIrreflexive(a);
    }
  }

  /** Keys strictly increase along the member list. */
  predicate StrictlyAscending(ms: seq<Member>) {
    forall i, j :: 0 <= i < j < |ms| ==> LexLess(ms[i].key, ms[j].key)
  }

  lemma AscendingKeysUnique(ms: seq<Member>)
    requires StrictlyAscending(ms)
    ensures UniqueKeys(ms)
  {
    forall i, j | 0 <= i < j < |ms|
      ensures ms[i].key != ms[j].key
    {
      LexLessIrreflexive(ms[i].key);
    }
  }

  /** Insertion of one member before the first member whose key is not
      smaller than its own. */
  function InsertMember(m: Member, ms: seq<Member>): (r: seq<Member>)
    ensures multiset(r) == multiset(ms) + multiset{m}
  {
    if ms == [] || !LexLess(ms[0].key, m.key) then [m] + ms
    else
      assert ms == [ms[0]] + ms[1..];
      [ms[0]] + InsertMember(m, ms[1..])
  }

  /** `sorted(d.items())` for a dict: keys are unique, so only keys decide. */
  function SortMembers(ms: seq<Member>): (r: seq<Member>)
    ensures multiset(r) == multiset(ms)
  {
    if ms == [] then []
    else
      assert ms == [ms[0]] + ms[1..];
      InsertMember(ms[0], SortMembers(ms[1..]))
  }

  lemma {:induction false} InsertKeepsAscending(m: Member, ms: seq<Member>)
    requires StrictlyAscending(ms)
    requires forall i :: 0 <= i < |ms| ==> ms[i].key != m.key
    ensures StrictlyAscending(InsertMember(m, ms))
  {
    var r := InsertMember(m, ms);
    if ms == [] {
    } else if !LexLess(ms[0].key, m.key) {
      LexLessTotal(ms[0].key, m.key);
      forall j | 0 < j < |r|
        ensures LexLess(m.key, r[j].key)
      {
        assert r[j] == ms[j - 1];
        if j > 1 {
          LexLessTransitive(m.key, ms[0].key, ms[j - 1].key);
        }
      }
    } else {
      InsertKeepsAscending(m, ms[1..]);
      var tail := InsertMember(m, ms[1..]);
      assert r == [ms[0]] + tail;
      forall j | 0 <= j < |tail|
        ensures LexLess(ms[0].key, tail[j].key)
      {
        assert tail[j] in multiset(tail);
        if tail[j] != m {
          assert tail[j] in multiset(ms[1..]);
          var k :| 0 <= k < |ms[1..]| && ms[1..][k] == tail[j];
          assert ms[k + 1] == tail[j];
        }
      }
    }
  }

  lemma {:induction false} SortMembersAscending(ms: seq<Member>)
    requires UniqueKeys(ms)
    ensures StrictlyAscending(SortMembers(ms))
  {
    if ms != [] {
      var tail := SortMembers(ms[1..]);
      SortMembersAscending(ms[1..]);
      forall i | 0 <= i < |tail|
        ensures tail[i].key != ms[0].key
      {
        assert tail[i] in multiset(ms[1..]);
        var k :| 0 <= k < |ms[1..]| && ms[1..][k] == tail[i];
        assert ms[k + 1] == tail[i];
      }
      InsertKeepsAscending(ms[0], tail);
    }
  }

  /** Sorting a member list that is already in key order changes nothing. */
  lemma {:induction false} SortMembersOfAscending(ms: seq<Member>)
    requires StrictlyAscending(ms)
    ensures SortMembers(ms) == ms
  {
    if ms != [] {
      SortMembersOfAscending(ms[1..]);
      if |ms| > 1 {
        LexLessAsymmetric(ms[0].key, ms[1].key);
      }
      assert ms == [ms[0]] + ms[1..];
    }
  }

  /** Every object, at every depth, has its keys in ascending order. */
  predicate SortedDeep(v: Json) {
    match v
    case Array(items) => forall i :: 0 <= i < |items| ==> SortedDeep(items[i])
    case Object(ms) => StrictlyAscending(ms) && forall i :: 0 <= i < |ms| ==> SortedDeep(ms[i].value)
    case _ => true
  }

  /** The tree `json.dumps(..., sort_keys=True)` writes out: every object's
      members sorted by key, recursively. */
  function SortDeep(v: Json): (r: Json)
    ensures IsScalar(v) <==> IsScalar(r)
  {
    match v
    case Array(items) => Array(SortDeepItems(items))
    case Object(ms) => Object(SortMembers(SortDeepMembers(ms)))
    case _ => v
  }

  /** The sorted tree of a value `json.loads` can return is again such a
      value, and its objects are sorted at every depth. */
  lemma {:induction false} SortDeepValid(v: Json)
    requires Valid(v)
    ensures Valid(SortDeep(v)) && SortedDeep(SortDeep(v))
  {
    match v
    case Array(items) =>
      var r := SortDeepItems(items);
      forall i | 0 <= i < |r|
        ensures Valid(r[i]) && SortedDeep(r[i])
      {
        SortDeepValid(items[i]);
      }
    case Object(ms) =>
      var ds := SortDeepMembers(ms);
      forall k | 0 <= k < |ds|
        ensures Valid(ds[k].value) && SortedDeep(ds[k].value)
      {
        SortDeepValid(ms[k].value);
      }
      assert forall i, j :: 0 <= i < j < |ds| ==> ds[i].key != ds[j].key;
      SortedMembersDeep(ds);
    case _ =>
  }

  /** Sorting members whose values are sorted trees gives a sorted tree. */
  lemma SortedMembersDeep(ds: seq<Member>)
    requires UniqueKeys(ds)
    requires forall k :: 0 <= k < |ds| ==> Valid(ds[k].value) && SortedDeep(ds[k].value)
    ensures Valid(Object(SortMembers(ds))) && SortedDeep(Object(SortMembers(ds)))
  {
    var sorted := SortMembers(ds);
    SortMembersAscending(ds);
    AscendingKeysUnique(sorted);
    forall i | 0 <= i < |sorted|
      ensures Valid(sorted[i].value) && SortedDeep(sorted[i].value)
    {
      assert sorted[i] in multiset(ds);
      var k :| 0 <= k < |ds| && ds[k] == sorted[i];
    }
  }

  function SortDeepItems(items: seq<Json>): (r: seq<Json>)
    ensures |r| == |items|
    ensures forall i :: 0 <= i < |items| ==> r[i] == SortDeep(items[i])
  {
    if items == [] then [] else [SortDeep(items[0])] + SortDeepItems(items[1..])
  }

  function SortDeepMembers(ms: seq<Member>): (r: seq<Member>)
    ensures |r| == |ms|
    ensures forall i :: 0 <= i < |ms| ==> r[i] == Member(ms[i].key, SortDeep(ms[i].value))
  {
    if ms == [] then [] else [Member(ms[0].key, SortDeep(ms[0].value))] + SortDeepMembers(ms[1..])
  }

  /** Sorting a tree that is already sorted at every depth changes nothing. */
  lemma {:induction false} SortDeepOfSorted(v: Json)
    requires SortedDeep(v)
    ensures SortDeep(v) == v
  {
    match v
    case Array(items) =>
      forall i | 0 <= i < |items|
        ensures SortDeep(items[i]) == items[i]
      {
        SortDeepOfSorted(items[i]);
      }
      assert SortDeepItems(items) == items;
    case Object(ms) =>
      forall i | 0 <= i < |ms|
        ensures SortDeep(ms[i].value) == ms[i].value
      {
        SortDeepOfSorted(ms[i].value);
      }
      assert SortDeepMembers(ms) == ms;
      SortMembersOfAscending(ms);
    case _ =>
  }

  /** Sorting keys twice is sorting them once. */
  lemma SortDeepIdempotent(v: Json)
    requires Valid(v)
    ensures SortDeep(SortDeep(v)) == SortDeep(v)
  {
    SortDeepValid(v);
    SortDeepOfSorted(SortDeep(v));
  }

  /** `b` is `a` with, at most, the members of its objects reordered: arrays
      correspond element by element, and every member of an object of `a`
      has a member with the same key, and a corresponding value, in `b`. */
  predicate SameUpToKeyOrder(a: Json, b: Json)
    decreases a
  {
    match a
    case Array(xs) =>
      b.Array? && |xs| == |b.items| &&
      forall i :: 0 <= i < |xs| ==> SameUpToKeyOrder(xs[i], b.items[i])
    case Object(xs) =>
      b.Object? && |xs| == |b.members| &&
      forall i :: 0 <= i < |xs| ==> MatchedIn(xs[i], b.members)
    case _ => a == b
  }

  /** Some member of `ys` has the key of `m` and a value corresponding to
      its value. */
  predicate MatchedIn(m: Member, ys: seq<Member>)
    decreases m
  {
    exists j :: 0 <= j < |ys| && ys[j].key == m.key && SameUpToKeyOrder(m.value, ys[j].value)
  }

  /** Sorting keys only reorders object members. */
  lemma {:induction false} SortDeepOnlyReorders(v: Json)
    ensures SameUpToKeyOrder(v, SortDeep(v))
  {
    match v
    case Array(items) =>
      forall i | 0 <= i < |items|
        ensures SameUpToKeyOrder(items[i], SortDeep(v).items[i])
      {
        SortDeepOnlyReorders(items[i]);
      }
    case Object(ms) =>
      var d := SortDeepMembers(ms);
      forall i | 0 <= i < |ms|
        ensures d[i].key == ms[i].key && SameUpToKeyOrder(ms[i].value, d[i].value)
      {
        SortDeepOnlyReorders(ms[i].value);
      }
      MembersReordered(ms, d);
    case _ =>
  }

  /** Sorting members whose values correspond to those of `ms`, key for
      key, gives an object that `ms` matches up to member order. */
  lemma MembersReordered(ms: seq<Member>, d: seq<Member>)
    requires |d| == |ms|
    requires forall i :: 0 <= i < |ms| ==> d[i].key == ms[i].key && SameUpToKeyOrder(ms[i].value, d[i].value)
    ensures SameUpToKeyOrder(Object(ms), Object(SortMembers(d)))
  {
    var sorted := SortMembers(d);
    assert |sorted| == |d| by {
      assert |multiset(sorted)| == |multiset(d)|;
    }
    forall i | 0 <= i < |ms|
      ensures MatchedIn(ms[i], sorted)
    {
      assert d[i] in multiset(sorted);
      var j :| 0 <= j < |sorted| && sorted[j] == d[i];
      assert sorted[j].key == ms[i].key && SameUpToKeyOrder(ms[i].value, sorted[j].value);
    }
  }
}
