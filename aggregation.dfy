/**
  The two aggregation pipelines of the dashboard are both a `$group` stage
  (one group per distinct key, counting its documents) followed by a `$sort`
  stage. GroupBy models the grouping, SortByKey the ascending sort on the
  group key and SortByCountDesc the descending sort on the count.
*/
module Aggregation {
  import opened Text

  /** One result document of a `$group` stage: `{_id: key, count: n}`. */
  datatype Group = Group(key: string, count: nat)

  /** Number of occurrences of `k` in `s`. */
  function CountOf(s: seq<string>, k: string): (n: nat)
    ensures n <= |s|
    ensures n > 0 <==> k in s
  {
    if s == [] then 0
    else
      assert s == s[..|s| - 1] + [s[|s| - 1]];
      CountOf(s[..|s| - 1], k) + (if s[|s| - 1] == k then 1 else 0)
  }

  /** The set of keys of a sequence of groups. */
  function Keys(g: seq<Group>): set<string> {
    if g == [] then {} else {g[0].key} + Keys(g[1..])
  }

  /** No key occurs in two groups. */
  predicate DistinctKeys(g: seq<Group>) {
    g == [] || (g[0].key !in Keys(g[1..]) && DistinctKeys(g[1..]))
  }

  /** Sum of the counts of the groups. */
  function Total(g: seq<Group>): nat {
    if g == [] then 0 else g[0].count + Total(g[1..])
  }

  /** Sum of the counts of the groups whose key is `k`. */
  function Lookup(g: seq<Group>, k: string): nat {
    if g == [] then 0 else (if g[0].key == k then g[0].count else 0) + Lookup(g[1..], k)
  }

  /** Every group counts at least one document. */
  predicate Positive(g: seq<Group>) {
    forall i :: 0 <= i < |g| ==> g[i].count >= 1
  }

  lemma {:induction false} KeyIn(g: seq<Group>, i: nat)
    requires i < |g|
    ensures g[i].key in Keys(g)
  {
    if i > 0 {
      KeyIn(g[1..], i - 1);
    }
  }

  lemma {:induction false} KeyAt(g: seq<Group>, k: string) returns (i: nat)
    requires k in Keys(g)
    ensures i < |g| && g[i].key == k
  {
    if g[0].key == k {
      i := 0;
    } else {
      i := KeyAt(g[1..], k);
      i := i + 1;
    }
  }

  /** The recursive definition of DistinctKeys agrees with the pairwise one. */
  lemma {:induction false} DistinctKeysPairwise(g: seq<Group>)
    requires DistinctKeys(g)
    ensures forall i, j :: 0 <= i < j < |g| ==> g[i].key != g[j].key
  {
    if g != [] {
      DistinctKeysPairwise(g[1..]);
      forall j | 0 < j < |g|
        ensures g[0].key != g[j].key
      {
        KeyIn(g[1..], j - 1);
      }
    }
  }

  /** With distinct keys, looking a group's key up gives that group's count. */
  lemma {:induction false} LookupDistinct(g: seq<Group>, i: nat)
    requires DistinctKeys(g) && i < |g|
    ensures Lookup(g, g[i].key) == g[i].count
  {
    if i == 0 {
      LookupAbsent(g[1..], g[0].key);
    } else {
      LookupDistinct(g[1..], i - 1);
      KeyIn(g[1..], i - 1);
    }
  }

  lemma {:induction false} LookupAbsent(g: seq<Group>, k: string)
    requires k !in Keys(g)
    ensures Lookup(g, k) == 0
  {
    if g != [] {
      LookupAbsent(g[1..], k);
    }
  }

  /**
    Adds one document with key `x` to the groups: increments the group of
    `x`, or appends a new group of count one when there is none.
  */
  function Add(g: seq<Group>, x: string): (r: seq<Group>)
    ensures Keys(r) == Keys(g) + {x}
    ensures Total(r) == Total(g) + 1
    ensures |r| == if x in Keys(g) then |g| else |g| + 1
  {
    if g == [] then [Group(x, 1)]
    else if g[0].key == x then [Group(x, g[0].count + 1)] + g[1..]
    else [g[0]] + Add(g[1..], x)
  }

  lemma {:induction false} AddLookup(g: seq<Group>, x: string, k: string)
    ensures Lookup(Add(g, x), k) == Lookup(g, k) + (if k == x then 1 else 0)
  {
    if g != [] && g[0].key != x {
      AddLookup(g[1..], x, k);
    }
  }

  lemma {:induction false} AddKeepsInvariants(g: seq<Group>, x: string)
    requires DistinctKeys(g) && Positive(g)
    ensures DistinctKeys(Add(g, x)) && Positive(Add(g, x))
  {
    if g != [] && g[0].key != x {
      AddKeepsInvariants(g[1..], x);
    }
  }

  /** The `$group` stage: one group per distinct key, in order of first appearance. */
  function GroupBy(s: seq<string>): (r: seq<Group>)
    ensures Total(r) == |s|
    ensures Keys(r) == set k | k in s
  {
    if s == [] then []
    else
      var prefix, last := s[..|s| - 1], s[|s| - 1];
      assert s == prefix + [last];
      Add(GroupBy(prefix), last)
  }

  /**
    The groups of `s` have distinct keys, each key occurs in `s`, and each
    group's count is the number of occurrences of its key.
  */
  lemma {:induction false} GroupBySpec(s: seq<string>)
    ensures DistinctKeys(GroupBy(s)) && Positive(GroupBy(s))
    ensures forall k :: Lookup(GroupBy(s), k) == CountOf(s, k)
  {
    if s != [] {
      var prefix, last := s[..|s| - 1], s[|s| - 1];
      GroupBySpec(prefix);
      AddKeepsInvariants(GroupBy(prefix), last);
      forall k ensures Lookup(GroupBy(s), k) == CountOf(s, k) {
        AddLookup(GroupBy(prefix), last, k);
      }
    }
  }

  /** Group `i` of GroupBy(s) counts exactly the occurrences of its key in `s`. */
  lemma GroupCount(s: seq<string>, i: nat)
    requires i < |GroupBy(s)|
    ensures GroupBy(s)[i].count == CountOf(s, GroupBy(s)[i].key) >= 1
  {
    GroupBySpec(s);
    LookupDistinct(GroupBy(s), i);
  }

  // ---------------------------------------------------------------------
  // `$sort: {_id: 1}`: ascending by key

  predicate KeysAscending(g: seq<Group>) {
    forall i, j :: 0 <= i < j < |g| ==> LexLess(g[i].key, g[j].key)
  }

  function InsertByKey(x: Group, g: seq<Group>): (r: seq<Group>)
    ensures multiset(r) == multiset(g) + multiset{x}
    ensures Keys(r) == Keys(g) + {x.key}
    ensures Total(r) == Total(g) + x.count
  {
    if g == [] || LexLess(x.key, g[0].key) then [x] + g
    else
      assert g == [g[0]] + g[1..];
      [g[0]] + InsertByKey(x, g[1..])
  }

  /** Insertion sort on the group key. */
  function SortByKey(g: seq<Group>): (r: seq<Group>)
    ensures multiset(r) == multiset(g)
    ensures Keys(r) == Keys(g)
    ensures Total(r) == Total(g)
  {
    if g == [] then []
    else
      assert g == [g[0]] + g[1..];
      InsertByKey(g[0], SortByKey(g[1..]))
  }

  lemma {:induction false} InsertByKeyAscending(x: Group, g: seq<Group>)
    requires KeysAscending(g) && x.key !in Keys(g)
    ensures KeysAscending(InsertByKey(x, g))
  {
    var r := InsertByKey(x, g);
    if g == [] {
    } else if LexLess(x.key, g[0].key) {
      forall j | 1 <= j < |r| ensures LexLess(x.key, r[j].key) {
        if j > 1 {
          LexTransitive(x.key, g[0].key, g[j - 1].key);
        }
      }
    } else {
      LexTotal(x.key, g[0].key);
      var tail := InsertByKey(x, g[1..]);
      InsertByKeyAscending(x, g[1..]);
      forall j | 0 <= j < |tail| ensures LexLess(g[0].key, tail[j].key) {
        assert tail[j] in multiset(tail);
        if tail[j] != x {
          assert tail[j] in g[1..];
        }
      }
    }
  }

  /** Sorting groups with distinct keys gives strictly ascending keys. */
  lemma {:induction false} SortByKeyAscending(g: seq<Group>)
    requires DistinctKeys(g)
    ensures KeysAscending(SortByKey(g))
  {
    if g != [] {
      SortByKeyAscending(g[1..]);
      InsertByKeyAscending(g[0], SortByKey(g[1..]));
    }
  }

  // ---------------------------------------------------------------------
  // `$sort: {count: -1}`: descending by count

  predicate CountsNonIncreasing(g: seq<Group>) {
    forall i, j :: 0 <= i < j < |g| ==> g[i].count >= g[j].count
  }

  function InsertByCount(x: Group, g: seq<Group>): (r: seq<Group>)
    ensures multiset(r) == multiset(g) + multiset{x}
    ensures Keys(r) == Keys(g) + {x.key}
    ensures Total(r) == Total(g) + x.count
  {
    if g == [] || x.count >= g[0].count then [x] + g
    else
      assert g == [g[0]] + g[1..];
      [g[0]] + InsertByCount(x, g[1..])
  }

  /**
    Insertion sort on the count, largest first. Groups of equal count keep
    their relative order (the store leaves ties unspecified).
  */
  function SortByCountDesc(g: seq<Group>): (r: seq<Group>)
    ensures multiset(r) == multiset(g)
    ensures Keys(r) == Keys(g)
    ensures Total(r) == Total(g)
  {
    if g == [] then []
    else
      assert g == [g[0]] + g[1..];
      InsertByCount(g[0], SortByCountDesc(g[1..]))
  }

  /** Inserting a group no larger than `b` into groups no larger than `b` keeps them so. */
  lemma {:induction false} InsertByCountBound(x: Group, g: seq<Group>, b: nat)
    requires x.count <= b && forall i :: 0 <= i < |g| ==> g[i].count <= b
    ensures forall i :: 0 <= i < |InsertByCount(x, g)| ==> InsertByCount(x, g)[i].count <= b
  {
    if g != [] && x.count < g[0].count {
      InsertByCountBound(x, g[1..], b);
    }
  }

  lemma {:induction false} InsertByCountSorted(x: Group, g: seq<Group>)
    requires CountsNonIncreasing(g)
    ensures CountsNonIncreasing(InsertByCount(x, g))
  {
    if g != [] && x.count < g[0].count {
      InsertByCountSorted(x, g[1..]);
      InsertByCountBound(x, g[1..], g[0].count);
    }
  }

  lemma {:induction false} InsertByCountDistinct(x: Group, g: seq<Group>)
    requires DistinctKeys(g) && x.key !in Keys(g)
    ensures DistinctKeys(InsertByCount(x, g))
  {
    if g != [] && x.count < g[0].count {
      InsertByCountDistinct(x, g[1..]);
    }
  }

  /** Sorting by count gives non-increasing counts and keeps keys distinct. */
  lemma {:induction false} SortByCountDescSpec(g: seq<Group>)
    ensures CountsNonIncreasing(SortByCountDesc(g))
    ensures DistinctKeys(g) ==> DistinctKeys(SortByCountDesc(g))
  {
    if g != [] {
      SortByCountDescSpec(g[1..]);
      InsertByCountSorted(g[0], SortByCountDesc(g[1..]));
      if DistinctKeys(g) {
        InsertByCountDistinct(g[0], SortByCountDesc(g[1..]));
      }
    }
  }
}
