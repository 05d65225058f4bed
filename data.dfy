/** The dataset accessor: lookup of a record by id, and the distinct tags of all records
    in case-insensitive order. */
module Data {
  import opened Wrappers
  import opened Collections
  import opened Text
  import opened Sorting
  import opened Types

  /** `falseIdentities.find(x => x.id === id)`. */
  function GetIdentity(items: seq<FalseIdentity>, id: string): (r: Option<FalseIdentity>)
    ensures r.None? <==> forall i :: 0 <= i < |items| ==> items[i].id != id
    ensures r.Some? ==> r.value.id == id
    ensures r.Some? ==> exists i :: 0 <= i < |items| && items[i] == r.value
                                    && forall j :: 0 <= j < i ==> items[j].id != id
  {
    if items == [] then None
    else if items[0].id == id then Some(items[0])
    else
      var r := GetIdentity(items[1..], id);
      if r.Some? then
        var i :| 0 <= i < |items[1..]| && items[1..][i] == r.value
                 && forall j :: 0 <= j < i ==> items[1..][j].id != id;
        assert items[i + 1] == r.value;
        assert forall j :: 0 <= j < i + 1 ==> items[j].id != id by {
          forall j | 0 <= j < i + 1 ensures items[j].id != id {
            if j > 0 {
              assert items[j] == items[1..][j - 1];
            }
          }
        }
        r
      else r
  }

  /** Every tag of every record, record by record, in dataset order. */
  function TagOccurrences(items: seq<FalseIdentity>): seq<string>
  {
    if items == [] then [] else TagOccurrences(items[..|items| - 1]) + items[|items| - 1].tags
  }

  lemma TagOccurrencesMembers(items: seq<FalseIdentity>, t: string)
    ensures t in TagOccurrences(items) <==>
            exists i, j :: 0 <= i < |items| && 0 <= j < |items[i].tags| && items[i].tags[j] == t
  {
    if t in TagOccurrences(items) {
      var i, j := TagOccurrenceFound(items, t);
    }
    if exists i, j :: 0 <= i < |items| && 0 <= j < |items[i].tags| && items[i].tags[j] == t {
      var i, j :| 0 <= i < |items| && 0 <= j < |items[i].tags| && items[i].tags[j] == t;
      TagOccurrenceListed(items, i, j);
    }
  }

  /** Where an occurrence comes from. */
  lemma {:induction false} TagOccurrenceFound(items: seq<FalseIdentity>, t: string) returns (i: nat, j: nat)
    requires t in TagOccurrences(items)
    ensures i < |items| && j < |items[i].tags| && items[i].tags[j] == t
  {
    var n := |items| - 1;
    if t in TagOccurrences(items[..n]) {
      i, j := TagOccurrenceFound(items[..n], t);
      assert items[..n][i] == items[i];
    } else {
      assert t in items[n].tags;
      i := n;
      j :| 0 <= j < |items[n].tags| && items[n].tags[j] == t;
    }
  }

  /** Every tag of every record occurs. */
  lemma {:induction false} TagOccurrenceListed(items: seq<FalseIdentity>, i: nat, j: nat)
    requires i < |items| && j < |items[i].tags|
    ensures items[i].tags[j] in TagOccurrences(items)
  {
    var n := |items| - 1;
    if i < n {
      TagOccurrenceListed(items[..n], i, j);
      assert items[..n][i] == items[i];
    }
  }

  /** What `Array.from(set)` gives after adding the strings of `s` one at a time to an
      empty JavaScript `Set`: each distinct string once, in order of first insertion. */
  function Dedup(s: seq<string>): (r: seq<string>)
    ensures forall x :: x in r <==> x in s
    ensures forall i, j :: 0 <= i < j < |r| ==> r[i] != r[j]
  {
    if s == [] then []
    else
      var d := Dedup(s[..|s| - 1]);
      assert s == s[..|s| - 1] + [s[|s| - 1]];
      if s[|s| - 1] in d then d else d + [s[|s| - 1]]
  }

  /** The comparator handed to `sort`: the lower-cased keys decide, equal keys give 0. */
  function CompareTags(a: string, b: string): int {
    var aKey := Lower(a);
    var bKey := Lower(b);
    if Less(aKey, bKey) then -1
    else if Less(bKey, aKey) then 1
    else 0
  }

  /** `a` may precede `b` in the sorted result. */
  function TagOrder(a: string, b: string): bool {
    CompareTags(a, b) <= 0
  }

  /** The tags whose lower-cased key is that of `t`. */
  function SameKey(t: string): string -> bool {
    x => Lower(x) == Lower(t)
  }

  /** The comparator's verdict read as an order on the lower-cased keys. */
  lemma TagOrderIsKeyOrder(a: string, b: string)
    ensures TagOrder(a, b) <==> !Less(Lower(b), Lower(a))
  {
    LessAsymmetric(Lower(a), Lower(b));
  }

  lemma TagOrderIsTotalPreorder()
    ensures TotalPreorder(TagOrder)
  {
    forall a, b ensures TagOrder(a, b) || TagOrder(b, a) {
      LessAsymmetric(Lower(a), Lower(b));
    }
    forall a, b, c | TagOrder(a, b) && TagOrder(b, c) ensures TagOrder(a, c) {
      TagOrderIsKeyOrder(a, b);
      TagOrderIsKeyOrder(b, c);
      TagOrderIsKeyOrder(a, c);
      LessTotal(Lower(a), Lower(b));
      if Less(Lower(a), Lower(b)) && Less(Lower(c), Lower(a)) {
        LessTransitive(Lower(c), Lower(a), Lower(b));
      }
    }
  }

  /** Equal rank under the comparator is equality of the lower-cased keys. */
  lemma SameRankIsSameKey(s: seq<string>, t: string)
    ensures Filter(s, SameRank(TagOrder, t)) == Filter(s, SameKey(t))
  {
    forall i | 0 <= i < |s| ensures SameRank(TagOrder, t)(s[i]) == SameKey(t)(s[i]) {
      TagOrderIsKeyOrder(s[i], t);
      TagOrderIsKeyOrder(t, s[i]);
      LessTotal(Lower(s[i]), Lower(t));
      LessIrreflexive(Lower(t));
    }
    FilterCongruent(s, SameRank(TagOrder, t), SameKey(t));
  }

  lemma DistinctHasSingleCopies(s: seq<string>)
    requires forall i, j :: 0 <= i < j < |s| ==> s[i] != s[j]
    ensures forall x :: multiset(s)[x] <= 1
  {
    if s != [] {
      var n := |s| - 1;
      DistinctHasSingleCopies(s[..n]);
      assert s == s[..n] + [s[n]];
      assert s[n] !in s[..n];
    }
  }

  lemma RepeatHasTwoCopies(s: seq<string>, i: nat, j: nat)
    requires i < j < |s| && s[i] == s[j]
    ensures multiset(s)[s[i]] >= 2
  {
    assert s == s[..i] + [s[i]] + s[i + 1..j] + [s[j]] + s[j + 1..];
  }

  /** Adding one string to the `Set`. */
  lemma DedupSnoc(prefix: seq<string>, x: string)
    ensures Dedup(prefix + [x]) == if x in Dedup(prefix) then Dedup(prefix) else Dedup(prefix) + [x]
  {
    assert (prefix + [x])[..|prefix|] == prefix;
  }

  /** `Array.from(set)` lists the strings in order of first insertion: of two listed strings,
      the earlier one was added before the later one was first added. */
  lemma {:induction false} DedupFirstSeenOrder(s: seq<string>)
    ensures var d := Dedup(s);
      forall i, j :: 0 <= i < j < |d| ==> exists p :: 0 <= p < |s| && s[p] == d[i] && d[j] !in s[..p]
  {
    if s != [] {
      var n := |s| - 1;
      var prefix, x := s[..n], s[n];
      var d0 := Dedup(prefix);
      DedupFirstSeenOrder(prefix);
      assert s == prefix + [x];
      DedupSnoc(prefix, x);
      var d := Dedup(s);
      forall i, j | 0 <= i < j < |d| ensures exists p :: 0 <= p < |s| && s[p] == d[i] && d[j] !in s[..p] {
        if j < |d0| {
          assert d[i] == d0[i] && d[j] == d0[j];
          var p :| 0 <= p < |prefix| && prefix[p] == d0[i] && d0[j] !in prefix[..p];
          assert s[..p] == prefix[..p];
        } else {
          assert d == d0 + [x] && d[j] == x && d[i] == d0[i];
          assert x !in prefix;
          assert d0[i] in d0;
          assert d0[i] in prefix;
          var p :| 0 <= p < |prefix| && prefix[p] == d0[i];
          assert s[..p] == prefix[..p];
        }
      }
    }
  }

  /** What sorting the collected `Set` gives. */
  lemma SortedTags(seen: seq<string>, tags: seq<string>)
    requires forall i, j :: 0 <= i < j < |seen| ==> seen[i] != seen[j]
    requires tags == SortBy(seen, TagOrder)
    ensures forall t :: t in tags <==> t in seen
    ensures forall i, j :: 0 <= i < j < |tags| ==> tags[i] != tags[j]
    ensures forall i, j :: 0 <= i < j < |tags| ==> !Less(Lower(tags[j]), Lower(tags[i]))
    ensures forall t :: Filter(tags, SameKey(t)) == Filter(seen, SameKey(t))
  {
    forall t ensures t in tags <==> t in seen {
      assert t in tags <==> t in multiset(seen);
    }
    DistinctHasSingleCopies(seen);
    forall i, j | 0 <= i < j < |tags| ensures tags[i] != tags[j] {
      if tags[i] == tags[j] {
        RepeatHasTwoCopies(tags, i, j);
        assert false;
      }
    }
    TagOrderIsTotalPreorder();
    SortBySorted(seen, TagOrder);
    forall i, j | 0 <= i < j < |tags| ensures !Less(Lower(tags[j]), Lower(tags[i])) {
      TagOrderIsKeyOrder(tags[i], tags[j]);
    }
    forall t ensures Filter(tags, SameKey(t)) == Filter(seen, SameKey(t)) {
      SortByStable(seen, TagOrder, t);
      SameRankIsSameKey(tags, t);
      SameRankIsSameKey(seen, t);
    }
  }

  /** `allTags()`: the tags of all records, collected in a `Set` by two nested loops and
      sorted by lower-cased key. */
  method AllTags(items: seq<FalseIdentity>) returns (tags: seq<string>)
    ensures forall t :: t in tags <==>
              exists i, j :: 0 <= i < |items| && 0 <= j < |items[i].tags| && items[i].tags[j] == t
    ensures forall i, j :: 0 <= i < j < |tags| ==> tags[i] != tags[j]
    ensures forall i, j :: 0 <= i < j < |tags| ==> !Less(Lower(tags[j]), Lower(tags[i]))
    ensures forall t :: Filter(tags, SameKey(t)) == Filter(Dedup(TagOccurrences(items)), SameKey(t))
  {
    var seen: seq<string> := [];
    for i := 0 to |items|
      invariant seen == Dedup(TagOccurrences(items[..i]))
    {
      var recordTags := items[i].tags;
      assert TagOccurrences(items[..i]) + recordTags[..0] == TagOccurrences(items[..i]);
      for j := 0 to |recordTags|
        invariant seen == Dedup(TagOccurrences(items[..i]) + recordTags[..j])
      {
        var prefix := TagOccurrences(items[..i]) + recordTags[..j];
        assert TagOccurrences(items[..i]) + recordTags[..j + 1] == prefix + [recordTags[j]];
        DedupSnoc(prefix, recordTags[j]);
        if recordTags[j] !in seen {
          seen := seen + [recordTags[j]];
        }
      }
      assert recordTags[..|recordTags|] == recordTags;
      assert items[..i + 1][..i] == items[..i];
    }
    assert items[..|items|] == items;
    tags := SortBy(seen, TagOrder);
    SortedTags(seen, tags);
    forall t ensures t in tags <==>
        exists i, j :: 0 <= i < |items| && 0 <= j < |items[i].tags| && items[i].tags[j] == t {
      TagOccurrencesMembers(items, t);
    }
  }
}
