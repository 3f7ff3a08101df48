/**
 The runner: one object per input hash holding its ranked candidates, the
 fixed set of popular format names, and the batch entry point that builds one
 such object per input, in input order.
 */
module Runner {
  import opened Prototypes
  import opened Ranking

  /** The popular format names, exactly as the runner lists them (the entry
      "SHA-515" included as written). */
  const PopularNames: set<string> := {
    "MD5",
    "MD4",
    "NTLM",
    "SHA-256",
    "SHA-515",
    "Keccak-256",
    "Keccak-512",
    "Blake2",
    "bcrypt",
    "SHA-1",
    "HMAC-SHA1 (key = $salt)"
  }

  /** Membership in the popular set is exact string equality: eleven names,
      "SHA-515" among them and "SHA-512" not, and no case folding. */
  lemma PopularNamesExact()
    ensures |PopularNames| == 11
    ensures "SHA-515" in PopularNames && "SHA-512" !in PopularNames
    ensures "MD5" in PopularNames && "md5" !in PopularNames
  {
  }

  /** What one input's report holds: a candidate appears in the ranked
      identification of `chash` if and only if it is a table entry whose rule
      accepts `chash`, as often as the table's identification yields it, and
      the popular candidates come first. */
  lemma RankedIdentifyComplete(nth: Namer, chash: string, popular: set<string>, x: Prototype)
    ensures x in Ranked(nth.Identify(chash), popular) <==> x in nth.prototypes && nth.matches(x.rule, chash)
    ensures multiset(Ranked(nth.Identify(chash), popular)) == multiset(nth.Identify(chash))
    ensures PopularFirst(Ranked(nth.Identify(chash), popular), popular)
  {
    RankedIsPermutation(nth.Identify(chash), popular);
    RankedPopularFirst(nth.Identify(chash), popular);
    AcceptedComplete(nth.prototypes, nth.matches, chash, x);
    assert x in Ranked(nth.Identify(chash), popular) <==> x in multiset(Ranked(nth.Identify(chash), popular));
    assert x in nth.Identify(chash) <==> x in multiset(nth.Identify(chash));
  }

  /** Holder of the popular-name set. */
  class HashInformation {
    const popular: set<string>

    constructor ()
      ensures popular == PopularNames
    {
      popular := PopularNames;
    }
  }

  /** One input hash together with its ranked candidate formats. */
  class HashObj {
    const chash: string
    const nth: Namer
    const popular: set<string>
    var prototypes: seq<Prototype>
    var hashObj: map<string, seq<Prototype>>

    /** After construction the candidates are the ranked identification of the
        hash, and `hashObj` maps the hash, and only it, to that list. */
    ghost predicate Valid()
      reads this
    {
      && prototypes == Ranked(nth.Identify(chash), popular)
      && hashObj == map[chash := prototypes]
    }

    constructor (chash: string, nth: Namer, hashInfo: HashInformation)
      ensures this.chash == chash && this.nth == nth && popular == hashInfo.popular
      ensures prototypes == Ranked(nth.Identify(chash), hashInfo.popular)
      ensures hashObj.Keys == {chash} && hashObj[chash] == prototypes
      ensures Valid()
    {
      this.chash := chash;
      this.nth := nth;
      popular := hashInfo.popular;
      prototypes := nth.Identify(chash);
      new;
      prototypes := SortByPopular();
      hashObj := map[this.chash := prototypes];
    }

    method GetPrototypes() returns (r: seq<Prototype>)
      requires Valid()
      ensures r == hashObj[chash]
      ensures r == Ranked(nth.Identify(chash), popular)
    {
      r := prototypes;
    }

    /** One pass over the current candidates, appending each to the popular
        list or to the rest; the result is the stable partition of the
        current candidates (see the lemmas of module Ranking). */
    method SortByPopular() returns (r: seq<Prototype>)
      ensures r == Ranked(prototypes, popular)
    {
      var s := prototypes;
      var toRet: seq<Prototype> := [];
      var populars: seq<Prototype> := [];
      for i := 0 to |s|
        invariant populars == Partition(s[..i], popular, true)
        invariant toRet == Partition(s[..i], popular, false)
      {
        var x := s[i];
        assert s[..i + 1] == s[..i] + [x];
        PartitionAppend(s[..i], [x], popular, true);
        PartitionAppend(s[..i], [x], popular, false);
        if x.name in popular {
          populars := populars + [x];
        } else {
          toRet := toRet + [x];
        }
      }
      assert s[..|s|] == s;
      r := populars + toRet;
    }
  }

  /** The batch entry point: one fresh `HashObj` per input hash, in input
      order, each identified against `table` with the pattern engine
      `matches` and ranked by the popular names. */
  method ApiReturnHashes(chashes: seq<string>, table: seq<Prototype>, matches: (string, string) -> bool)
    returns (output: seq<HashObj>)
    ensures |output| == |chashes|
    ensures forall i :: 0 <= i < |output| ==> fresh(output[i])
    ensures forall i :: 0 <= i < |output| ==>
      && output[i].chash == chashes[i]
      && output[i].popular == PopularNames
      && output[i].nth.prototypes == table
      && output[i].prototypes == Ranked(Accepted(table, matches, chashes[i]), PopularNames)
      && output[i].Valid()
  {
    var nth := Namer(table, matches);
    var hashInfo := new HashInformation();
    output := [];
    for i := 0 to |chashes|
      invariant |output| == i
      invariant forall k :: 0 <= k < i ==> fresh(output[k])
      invariant forall k :: 0 <= k < i ==>
        && output[k].chash == chashes[k]
        && output[k].popular == PopularNames
        && output[k].nth == nth
        && output[k].prototypes == Ranked(Accepted(table, matches, chashes[k]), PopularNames)
        && output[k].Valid()
    {
      var h := new HashObj(chashes[i], nth, hashInfo);
      output := output + [h];
    }
  }
}
