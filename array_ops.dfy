/** The JavaScript array and object primitives the repositories are built from:
    `find`, `findIndex`, `filter` over an array loaded from the store, and the
    shallow object spread `{ ...current, ...updates }` for one field. */
module ArrayOps {

  datatype Option<+T> = None | Some(value: T)

  /** `Array.prototype.find`: the first element satisfying `p`, or absent. */
  function Find<T>(s: seq<T>, p: T -> bool): (r: Option<T>)
    ensures r.None? <==> forall j :: 0 <= j < |s| ==> !p(s[j])
    ensures r.Some? ==> r.value in s && p(r.value)
  {
    if |s| == 0 then None
    else if p(s[0]) then Some(s[0])
    else Find(s[1..], p)
  }

  /** `Array.prototype.findIndex`: the first index whose element satisfies `p`,
      or -1 when there is none. */
  function FindIndex<T>(s: seq<T>, p: T -> bool): (r: int)
    ensures -1 <= r < |s|
    ensures r == -1 <==> forall j :: 0 <= j < |s| ==> !p(s[j])
    ensures 0 <= r ==> p(s[r]) && forall j :: 0 <= j < r ==> !p(s[j])
  {
    if |s| == 0 then -1
    else if p(s[0]) then 0
    else
      var k := FindIndex(s[1..], p);
      if k == -1 then -1 else k + 1
  }

  /** `Array.prototype.filter`: the elements satisfying `p`, in their order. */
  function Filter<T>(s: seq<T>, p: T -> bool): (r: seq<T>)
    ensures |r| <= |s|
    ensures forall j :: 0 <= j < |r| ==> r[j] in s && p(r[j])
    ensures forall j :: 0 <= j < |s| && p(s[j]) ==> s[j] in r
  {
    if |s| == 0 then []
    else (if p(s[0]) then [s[0]] else []) + Filter(s[1..], p)
  }

  /** One field of `{ ...current, ...updates }`: a key present in `updates`
      wins, an absent key keeps the current value. */
  function Spread<T>(current: T, given: Option<T>): (r: T)
    ensures given.None? ==> r == current
    ensures given.Some? ==> r == given.value
  {
    match given
    case Some(v) => v
    case None => current
  }

  /** Two spreads in a row act as one: a key the later `updates` give wins,
      otherwise the earlier one's stands. */
  lemma SpreadTwice<T>(current: T, first: Option<T>, second: Option<T>)
    ensures Spread(Spread(current, first), second) == Spread(current, if second.Some? then second else first)
  {
  }

  /** Spreading the same `updates` a second time changes nothing. */
  lemma SpreadRepeat<T>(current: T, given: Option<T>)
    ensures Spread(Spread(current, given), given) == Spread(current, given)
  {
  }

  /** `find` returns the element at the index `findIndex` reports. */
  lemma {:induction false} FindAgreesWithFindIndex<T>(s: seq<T>, p: T -> bool)
    ensures Find(s, p) == if FindIndex(s, p) == -1 then None else Some(s[FindIndex(s, p)])
  {
    if |s| > 0 && !p(s[0]) {
      FindAgreesWithFindIndex(s[1..], p);
    }
  }

  /** Appending one element never changes an earlier match; it is found only
      when nothing before it matches. */
  lemma {:induction false} FindAppend<T>(s: seq<T>, x: T, p: T -> bool)
    ensures Find(s + [x], p) ==
      if Find(s, p).Some? then Find(s, p) else if p(x) then Some(x) else None
  {
    if |s| == 0 {
      assert s + [x] == [x];
    } else {
      assert (s + [x])[0] == s[0];
      assert (s + [x])[1..] == s[1..] + [x];
      if !p(s[0]) {
        FindAppend(s[1..], x, p);
      }
    }
  }

  /** Replacing the first match by another matching element keeps the index. */
  lemma FindIndexAfterReplace<T>(s: seq<T>, p: T -> bool, x: T)
    requires FindIndex(s, p) != -1
    requires p(x)
    ensures FindIndex(s[FindIndex(s, p) := x], p) == FindIndex(s, p)
  {
    var k := FindIndex(s, p);
    var t := s[k := x];
    assert p(t[k]);
    assert forall j :: 0 <= j < k ==> t[j] == s[j] && !p(t[j]);
  }

  /** Filtering distributes over concatenation: the kept elements of `a` all
      come before the kept elements of `b`, so relative order is preserved. */
  lemma {:induction false} FilterConcat<T>(a: seq<T>, b: seq<T>, p: T -> bool)
    ensures Filter(a + b, p) == Filter(a, p) + Filter(b, p)
  {
    if |a| == 0 {
      assert a + b == b;
    } else {
      assert (a + b)[0] == a[0];
      assert (a + b)[1..] == a[1..] + b;
      FilterConcat(a[1..], b, p);
    }
  }

  /** Filtering a one-element sequence keeps it exactly when it matches; with
      `FilterConcat` this determines `Filter` completely. */
  lemma FilterSingleton<T>(x: T, p: T -> bool)
    ensures Filter([x], p) == if p(x) then [x] else []
  {
  }

  /** Each element is kept as many times as it occurs, or dropped entirely. */
  lemma {:induction false} FilterMultiset<T>(s: seq<T>, p: T -> bool)
    ensures forall x :: multiset(Filter(s, p))[x] == if p(x) then multiset(s)[x] else 0
  {
    if |s| > 0 {
      FilterMultiset(s[1..], p);
      assert s == [s[0]] + s[1..];
      assert multiset(s) == multiset([s[0]]) + multiset(s[1..]);
    }
  }

  /** The filter drops something exactly when some element fails `p`. */
  lemma {:induction false} FilterShorter<T>(s: seq<T>, p: T -> bool)
    ensures |Filter(s, p)| < |s| <==> exists j :: 0 <= j < |s| && !p(s[j])
  {
    if |s| > 0 {
      FilterShorter(s[1..], p);
      if !p(s[0]) {
        assert forall j :: 0 <= j < |s| - 1 ==> s[1..][j] == s[j + 1];
      } else {
        assert forall j :: 0 < j < |s| ==> s[j] == s[1..][j - 1];
        assert forall j :: 0 <= j < |s| - 1 ==> s[1..][j] == s[j + 1];
      }
    }
  }

  /** A predicate and its negation split the sequence: the two filters' lengths
      add up to the whole. */
  lemma {:induction false} FilterComplement<T>(s: seq<T>, p: T -> bool, q: T -> bool)
    requires forall x :: q(x) == !p(x)
    ensures |Filter(s, p)| + |Filter(s, q)| == |s|
  {
    if |s| > 0 {
      FilterComplement(s[1..], p, q);
    }
  }

  /** When exactly one position matches, the filter is that one element. */
  lemma {:induction false} FilterUnique<T>(s: seq<T>, p: T -> bool, k: nat)
    requires k < |s| && p(s[k])
    requires forall j :: 0 <= j < |s| && j != k ==> !p(s[j])
    ensures Filter(s, p) == [s[k]]
  {
    if k == 0 {
      FilterNone(s[1..], p);
    } else {
      assert !p(s[0]);
      FilterUnique(s[1..], p, k - 1);
    }
  }

  /** When nothing matches, the filter is empty. */
  lemma {:induction false} FilterNone<T>(s: seq<T>, p: T -> bool)
    requires forall j :: 0 <= j < |s| ==> !p(s[j])
    ensures Filter(s, p) == []
  {
    if |s| > 0 {
      FilterNone(s[1..], p);
    }
  }
}
