/**
 The hash-format database and the identifier that filters it.

 The table of formats and the identifier object live in modules outside this
 model (`hashes.prototypes` and `hash_namer.Name_That_Hash`); what the runner
 relies on is that identification yields, in table order, exactly the entries
 whose matching rule accepts the input. The pattern engine that evaluates a
 rule is a parameter of the identifier.
 */
module Prototypes {

  datatype Option<T> = None | Some(value: T)

  /** One hash format: its display name, the pattern its matching rule is
      written in, and the cracking-tool identifiers that are carried through
      to presentation untouched. Names need not be unique. */
  datatype Prototype = Prototype(name: string, rule: string, hashcat: Option<int>, john: Option<string>)

  /** The entries of `db` whose rule accepts `chash`, in the order of `db`. */
  function Accepted(db: seq<Prototype>, matches: (string, string) -> bool, chash: string): (r: seq<Prototype>)
    ensures |r| <= |db|
    ensures forall x :: x in r ==> x in db && matches(x.rule, chash)
  {
    if db == [] then []
    else (if matches(db[0].rule, chash) then [db[0]] else []) + Accepted(db[1..], matches, chash)
  }

  /** The identifier: the ordered format table and the engine deciding whether
      a rule (first argument) accepts an input (second argument). */
  datatype Namer = Namer(prototypes: seq<Prototype>, matches: (string, string) -> bool) {

    /** The candidate formats for one input, in table order. */
    function Identify(chash: string): seq<Prototype>
    {
      Accepted(prototypes, matches, chash)
    }
  }

  /** Completeness: every table entry whose rule accepts the input is reported,
      so together with the ensures of `Accepted` membership is an iff. */
  lemma {:induction false} AcceptedComplete(db: seq<Prototype>, matches: (string, string) -> bool, chash: string, x: Prototype)
    ensures x in Accepted(db, matches, chash) <==> x in db && matches(x.rule, chash)
  {
    if db != [] && x != db[0] {
      AcceptedComplete(db[1..], matches, chash, x);
      assert x in db ==> x in db[1..];
    }
  }

  /** Identification is a stable filter: the matches of an earlier stretch of
      the table come before those of a later stretch, each in table order. */
  lemma {:induction false} AcceptedAppend(a: seq<Prototype>, b: seq<Prototype>, matches: (string, string) -> bool, chash: string)
    ensures Accepted(a + b, matches, chash) == Accepted(a, matches, chash) + Accepted(b, matches, chash)
  {
    if a == [] {
      assert a + b == b;
    } else {
      assert (a + b)[0] == a[0] && (a + b)[1..] == a[1..] + b;
      AcceptedAppend(a[1..], b, matches, chash);
    }
  }

  /** An input that no rule accepts yields the empty sequence, not an error. */
  lemma {:induction false} AcceptedNone(db: seq<Prototype>, matches: (string, string) -> bool, chash: string)
    requires forall i :: 0 <= i < |db| ==> !matches(db[i].rule, chash)
    ensures Accepted(db, matches, chash) == []
  {
    if db != [] {
      assert !matches(db[0].rule, chash);
      AcceptedNone(db[1..], matches, chash);
    }
  }
}
