/** Order-preserving `filter` and `map` over sequences, as JavaScript's
    `Array.prototype.filter`/`map` and Python's list comprehensions compute them. */
module Collections {

  function Filter<T>(s: seq<T>, p: T -> bool): (r: seq<T>)
    ensures |r| <= |s|
    ensures forall i :: 0 <= i < |r| ==> r[i] in s && p(r[i])
    ensures forall i :: 0 <= i < |s| && p(s[i]) ==> s[i] in r
  {
    if s == [] then [] else (if p(s[0]) then [s[0]] else []) + Filter(s[1..], p)
  }

  function Map<T, U>(s: seq<T>, f: T -> U): (r: seq<U>)
    ensures |r| == |s|
    ensures forall i :: 0 <= i < |s| ==> r[i] == f(s[i])
  {
    if s == [] then [] else [f(s[0])] + Map(s[1..], f)
  }

  lemma PrefixOfLongerPrefix<T>(s: seq<T>, i: nat)
    requires i < |s|
    ensures s[..i + 1][..i] == s[..i]
  {
  }

  lemma WholePrefix<T>(s: seq<T>)
    ensures s[..|s|] == s
  {
  }

  lemma ConcatAssociative<T>(a: seq<T>, b: seq<T>, c: seq<T>)
    ensures a + (b + c) == (a + b) + c
  {
  }

  /** Filtering a sequence is filtering all but its last element, then the last one. */
  lemma {:induction false} FilterSnoc<T>(s: seq<T>, p: T -> bool)
    requires s != []
    ensures Filter(s, p) == Filter(s[..|s| - 1], p) + (if p(s[|s| - 1]) then [s[|s| - 1]] else [])
  {
    var n := |s| - 1;
    var head := if p(s[0]) then [s[0]] else [];
    if n == 0 {
      assert s[..n] == [] && s[1..] == [];
      assert Filter(s, p) == head + Filter([], p);
    } else {
      var t, u := s[1..], s[..n];
      var last := if p(s[n]) then [s[n]] else [];
      FilterSnoc(t, p);
      assert t[n - 1] == s[n] && t[..n - 1] == u[1..] && u[0] == s[0];
      var mid := Filter(u[1..], p);
      assert Filter(t, p) == mid + last;
      assert Filter(s, p) == head + (mid + last);
      assert Filter(u, p) == head + mid;
      ConcatAssociative(head, mid, last);
    }
  }

  /** Two predicates that agree on every element of `s` select the same elements. */
  lemma {:induction false} FilterCongruent<T>(s: seq<T>, p: T -> bool, q: T -> bool)
    requires forall i :: 0 <= i < |s| ==> p(s[i]) == q(s[i])
    ensures Filter(s, p) == Filter(s, q)
  {
    if s != [] {
      FilterCongruent(s[1..], p, q);
    }
  }

  /** The positions at or after `start` of the entries of `s` that satisfy `p`, in
      increasing order. */
  function Positions<T>(s: seq<T>, p: T -> bool, start: nat): (idx: seq<nat>)
    requires start <= |s|
    ensures forall k :: 0 <= k < |idx| ==> start <= idx[k] < |s| && p(s[idx[k]])
    ensures forall k, l :: 0 <= k < l < |idx| ==> idx[k] < idx[l]
    decreases |s| - start
  {
    if start == |s| then []
    else (if p(s[start]) then [start] else []) + Positions(s, p, start + 1)
  }

  /** No position that satisfies the predicate is missed. */
  lemma {:induction false} PositionsComplete<T>(s: seq<T>, p: T -> bool, start: nat)
    requires start <= |s|
    ensures forall j :: start <= j < |s| && p(s[j]) ==> j in Positions(s, p, start)
    decreases |s| - start
  {
    if start < |s| {
      PositionsComplete(s, p, start + 1);
    }
  }

  /** The filter of a suffix starts with its first entry, if that entry is kept. */
  lemma FilterFrom<T>(s: seq<T>, p: T -> bool, start: nat)
    requires start < |s|
    ensures Filter(s[start..], p) == (if p(s[start]) then [s[start]] else []) + Filter(s[start + 1..], p)
  {
    assert s[start..][1..] == s[start + 1..];
  }

  /** The filter keeps exactly the entries at those positions. */
  lemma {:induction false} PositionsSelectFilter<T>(s: seq<T>, p: T -> bool, start: nat)
    requires start <= |s|
    ensures |Positions(s, p, start)| == |Filter(s[start..], p)|
    ensures forall k :: 0 <= k < |Filter(s[start..], p)| ==>
              s[Positions(s, p, start)[k]] == Filter(s[start..], p)[k]
    decreases |s| - start
  {
    if start == |s| {
      assert s[start..] == [];
    } else {
      var pos, rest := Positions(s, p, start + 1), Filter(s[start + 1..], p);
      FilterFrom(s, p, start);
      PositionsSelectFilter(s, p, start + 1);
      if p(s[start]) {
        var ps, fs := [start] + pos, [s[start]] + rest;
        assert Positions(s, p, start) == ps && Filter(s[start..], p) == fs;
        forall k | 0 <= k < |fs| ensures s[ps[k]] == fs[k] {
          if k > 0 {
            assert ps[k] == pos[k - 1] && fs[k] == rest[k - 1];
          }
        }
      } else {
        assert Positions(s, p, start) == pos && Filter(s[start..], p) == rest;
      }
    }
  }
}
