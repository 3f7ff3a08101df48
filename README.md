# Name-That-Hash runner: ranking and batch identification

A Dafny model of the identification-and-ranking core of Name-That-Hash's
runner (`name_that_hash/runner.py`). The runner takes one or more hash-looking
strings. For each one, it builds a `HashObj` that asks the identifier
(`hash_namer.Name_That_Hash`) for the candidate formats. It then reorders
those candidates so that formats in a fixed popular-name set come first.

- `prototypes.dfy`, module `Prototypes`: a candidate record `Prototype` (name,
  matching-rule pattern, hashcat and John the Ripper identifiers). It also holds
  the identifier `Namer`, which stands in for the format table and the pattern
  engine. The table and the identifier's code are not part of this model.
  `Identify` is modelled as what the runner relies on: a stable filter of the
  table by "rule accepts input".
- `ranking.dfy`, module `Ranking`: the ranking as a specification. `Partition`
  picks the popular or the non-popular candidates in input order, and `Ranked`
  joins the two. The lemmas prove several things about it. It is a
  permutation. Popular entries come first. Each partition keeps its input
  order. A uniform input is left unchanged. Ranking is idempotent. And
  `Ranked` is the only popular-first list with those two partitions.
- `runner.dfy`, module `Runner`: the popular-name set, written literally. It
  includes the entry `"SHA-515"` exactly as written (most likely a typo for
  "SHA-512"; the model keeps it, and `PopularNamesExact` records that
  "SHA-512" is not a member). This file also has the classes
  `HashInformation` and `HashObj`. `HashObj.SortByPopular` is the single-pass
  loop that appends to two growing sequences, proved equal to `Ranked`.
  `ApiReturnHashes` is the per-input batch loop.

The pattern engine that decides whether a format's rule accepts an input is a
parameter (`matches`), and so is the format table (`table`).

## Model

| member | source | states |
|---|---|---|
| `Prototypes.Accepted` | name_that_hash/runner.py:34-35 | identification yields no more candidates than the table has, and each one is a table entry whose rule accepts the input |
| `Prototypes.AcceptedComplete` | name_that_hash/runner.py:34-35 | a record is among the candidates if and only if it is a table entry whose rule accepts the input |
| `Prototypes.AcceptedAppend` | name_that_hash/runner.py:34-35 | identification is a stable filter: candidates from an earlier part of the table come before those from a later part, each part in table order |
| `Prototypes.AcceptedNone` | name_that_hash/runner.py:34-35 | an input that no rule accepts yields the empty candidate list, not an error |
| `Ranking.Partition` | name_that_hash/runner.py:52-58 | each partition holds only candidates of the requested popularity, all of them, and is no longer than the input |
| `Ranking.RankedIsPermutation` | name_that_hash/runner.py:52-59 | the ranked list has the input's length and the same multiset of records: nothing added, dropped or de-duplicated |
| `Ranking.RankedPopularFirst` | name_that_hash/runner.py:54-59 | no non-popular entry precedes a popular one; position k lies in the front block exactly when the name at k is in the popular set |
| `Ranking.SameNameSamePartition` | name_that_hash/runner.py:54-58 | two ranked entries with the same name always fall in the same partition, because the partition is decided by exact name membership |
| `Ranking.RankedStable` | name_that_hash/runner.py:54-59 | the popular entries of the ranked list are the popular entries of the input in input order, and the same holds for the non-popular entries |
| `Ranking.RankedUniformUnchanged` | name_that_hash/runner.py:52-59 | when every candidate is popular, or none is, the ranked list equals the input |
| `Ranking.PopularFirstIffFixed` | name_that_hash/runner.py:43-59 | a list is unchanged by ranking if and only if it is popular-first |
| `Ranking.RankedUnique` | name_that_hash/runner.py:43-59 | any popular-first list whose popular and non-popular partitions equal the input's is the ranked list |
| `Ranking.RankedIdempotent` | name_that_hash/runner.py:43-59 | ranking an already ranked list changes nothing |
| `Runner.PopularNamesExact` | name_that_hash/runner.py:62-78 | the popular set has exactly eleven names; "SHA-515" is one and "SHA-512" is not; membership is exact, so "md5" is not popular |
| `Runner.RankedIdentifyComplete` | name_that_hash/runner.py:35-36 | a record is among an input's ranked candidates if and only if it is a table entry accepting the input; the ranked list is a permutation of the identified one and is popular-first |
| `Runner.HashInformation.constructor` | name_that_hash/runner.py:63-78 | the holder's popular set is the literal eleven-name set |
| `Runner.HashObj.constructor` | name_that_hash/runner.py:28-38 | stores the hash, the identifier and the popular set; the candidates are the ranked identification of the hash; `hashObj` maps only the hash, to that list |
| `Runner.HashObj.GetPrototypes` | name_that_hash/runner.py:40-41 | returns the list `hashObj` stores for the hash, which is the ranked identification of the hash |
| `Runner.HashObj.SortByPopular` | name_that_hash/runner.py:43-59 | the one-pass loop over the current candidates returns their stable popular-first partition `Ranked` |
| `Runner.ApiReturnHashes` | name_that_hash/runner.py:210-227 | one fresh object per input, in input order; entry i stores input i and holds the ranked identification of input i against the table under the literal popular set |

## Left out

- The command-line entry point `main`, its options, `print_help` and the no-arguments help path (name_that_hash/runner.py:81-83, 100-189): argument parsing and console plumbing.
- `banner` and all console printing (name_that_hash/runner.py:86-97): presentation.
- `set_logger` and every logger call (name_that_hash/runner.py:8-10, 192-207, 217): logging side effects.
- Reading hashes from a file, splitting lines and UTF-8 decoding (name_that_hash/runner.py:179-183): I/O.
- `Runner.ApiReturnHashes`: returns the list of `HashObj` objects rather than the JSON text, because `prettifier.Prettifier` and its `greppable_output` are not part of this model; its `args` parameter only configures that formatting and is dropped.
- The format table `hashes.prototypes` and the code of `hash_namer.Name_That_Hash` are not part of this model. The table is a parameter. Rule evaluation (regular expressions in the original) is the parameter `matches`, a total function, so a malformed rule and any per-rule error reporting are not modelled.
- The identifier yields a lazy generator; the model materialises it as a finite sequence, which the runner consumes fully anyway.
- The `__dict__` conversion of each candidate (name_that_hash/runner.py:56, 58) changes only the representation; it is modelled as the identity on the record.
- The popular set is a fixed constant here as in the code, not injectable configuration.
