/**
 The ranking of candidate formats by popularity, as a specification.

 A candidate is popular exactly when its name is a member of the popular-name
 set. Ranking is a single stable partition: the popular candidates in their
 original order, followed by all others in their original order. The lemmas
 below state what that promises: a permutation of the same length, popular
 entries first, each partition in input order, no change for a uniform input,
 and a characterisation of the ranked sequence by these properties alone.
 */
module Ranking {
  import opened Prototypes

  /** The candidates of `s` whose popularity is `wanted`, in the order of `s`. */
  function Partition(s: seq<Prototype>, popular: set<string>, wanted: bool): (r: seq<Prototype>)
    ensures |r| <= |s|
    ensures forall x :: x in r ==> x in s && (x.name in popular) == wanted
    ensures forall x :: x in s && (x.name in popular) == wanted ==> x in r
  {
    if s == [] then []
    else (if (s[0].name in popular) == wanted then [s[0]] else []) + Partition(s[1..], popular, wanted)
  }

  /** The ranked candidate list: popular ones first, then the rest. */
  function Ranked(s: seq<Prototype>, popular: set<string>): seq<Prototype>
  {
    Partition(s, popular, true) + Partition(s, popular, false)
  }

  /** No candidate outside the popular set precedes one inside it. */
  ghost predicate PopularFirst(r: seq<Prototype>, popular: set<string>)
  {
    forall i, j :: 0 <= i < j < |r| && r[i].name !in popular ==> r[j].name !in popular
  }

  /** Partitioning a concatenation partitions each part in turn. */
  lemma {:induction false} PartitionAppend(a: seq<Prototype>, b: seq<Prototype>, popular: set<string>, wanted: bool)
    ensures Partition(a + b, popular, wanted) == Partition(a, popular, wanted) + Partition(b, popular, wanted)
  {
    if a == [] {
      assert a + b == b;
    } else {
      assert (a + b)[0] == a[0] && (a + b)[1..] == a[1..] + b;
      PartitionAppend(a[1..], b, popular, wanted);
    }
  }

  /** A sequence whose members all have popularity `wanted` is its own
      `wanted` partition, and its other partition is empty. */
  lemma {:induction false} PartitionUniform(s: seq<Prototype>, popular: set<string>, wanted: bool)
    requires forall i :: 0 <= i < |s| ==> (s[i].name in popular) == wanted
    ensures Partition(s, popular, wanted) == s
    ensures Partition(s, popular, !wanted) == []
  {
    if s != [] {
      PartitionUniform(s[1..], popular, wanted);
    }
  }

  /** The two partitions together hold every candidate exactly as often as the
      input does. */
  lemma {:induction false} PartitionSplit(s: seq<Prototype>, popular: set<string>)
    ensures multiset(Partition(s, popular, true)) + multiset(Partition(s, popular, false)) == multiset(s)
  {
    if s != [] {
      PartitionSplit(s[1..], popular);
      assert s == [s[0]] + s[1..];
    }
  }

  /** Ranking neither adds, drops nor duplicates a candidate: same length and
      same multiset of records, so duplicates in the input are kept. */
  lemma RankedIsPermutation(s: seq<Prototype>, popular: set<string>)
    ensures |Ranked(s, popular)| == |s|
    ensures multiset(Ranked(s, popular)) == multiset(s)
  {
    PartitionSplit(s, popular);
    assert |multiset(Ranked(s, popular))| == |multiset(s)|;
  }

  /** Popular first, decided per record by exact membership of its name: the
      first `n` positions, `n` the number of popular candidates, hold exactly
      the entries whose name is in the popular set. */
  lemma RankedPopularFirst(s: seq<Prototype>, popular: set<string>)
    ensures PopularFirst(Ranked(s, popular), popular)
    ensures forall k :: 0 <= k < |Ranked(s, popular)| ==>
      (k < |Partition(s, popular, true)| <==> Ranked(s, popular)[k].name in popular)
  {
  }

  /** Two candidates with the same name always land in the same partition. */
  lemma SameNameSamePartition(s: seq<Prototype>, popular: set<string>, i: nat, j: nat)
    requires i < |Ranked(s, popular)| && j < |Ranked(s, popular)|
    requires Ranked(s, popular)[i].name == Ranked(s, popular)[j].name
    ensures i < |Partition(s, popular, true)| <==> j < |Partition(s, popular, true)|
  {
  }

  /** Stability: within each partition, the ranked list keeps the candidates'
      relative order from the input. */
  lemma RankedStable(s: seq<Prototype>, popular: set<string>)
    ensures Partition(Ranked(s, popular), popular, true) == Partition(s, popular, true)
    ensures Partition(Ranked(s, popular), popular, false) == Partition(s, popular, false)
  {
    var front, rest := Partition(s, popular, true), Partition(s, popular, false);
    PartitionAppend(front, rest, popular, true);
    PartitionAppend(front, rest, popular, false);
    PartitionUniform(front, popular, true);
    PartitionUniform(rest, popular, false);
  }

  /** If every candidate is popular, or none is, ranking changes nothing. */
  lemma RankedUniformUnchanged(s: seq<Prototype>, popular: set<string>)
    requires (forall i :: 0 <= i < |s| ==> s[i].name in popular) ||
             (forall i :: 0 <= i < |s| ==> s[i].name !in popular)
    ensures Ranked(s, popular) == s
  {
    if forall i :: 0 <= i < |s| ==> s[i].name in popular {
      PartitionUniform(s, popular, true);
    } else {
      PartitionUniform(s, popular, false);
    }
  }

  /** The ranked lists are exactly the popular-first ones: a list is left
      unchanged by ranking if and only if no non-popular entry precedes a
      popular one. */
  lemma {:induction false} PopularFirstIffFixed(r: seq<Prototype>, popular: set<string>)
    ensures PopularFirst(r, popular) <==> Ranked(r, popular) == r
  {
    if Ranked(r, popular) == r {
      RankedPopularFirst(r, popular);
    }
    if PopularFirst(r, popular) && r != [] {
      if r[0].name in popular {
        PopularFirstIffFixed(r[1..], popular);
        assert r == [r[0]] + r[1..];
      } else {
        PartitionUniform(r, popular, false);
      }
    }
  }

  /** Ranking is characterised by its properties: any popular-first list with
      the same popular partition and the same non-popular partition as `s`
      is the ranked list of `s`. */
  lemma RankedUnique(s: seq<Prototype>, r: seq<Prototype>, popular: set<string>)
    requires PopularFirst(r, popular)
    requires Partition(r, popular, true) == Partition(s, popular, true)
    requires Partition(r, popular, false) == Partition(s, popular, false)
    ensures r == Ranked(s, popular)
  {
    PopularFirstIffFixed(r, popular);
  }

  /** Ranking an already ranked list changes nothing. */
  lemma RankedIdempotent(s: seq<Prototype>, popular: set<string>)
    ensures Ranked(Ranked(s, popular), popular) == Ranked(s, popular)
  {
    RankedPopularFirst(s, popular);
    PopularFirstIffFixed(Ranked(s, popular), popular);
  }
}
