/** The selection rule `randomWord`: a noisy argmax over the candidates, in
    which a favoured candidate has its sample doubled. The samples are inputs:
    sample `j` stands for `Math.random() * computeWeight(counts[j])`. */
module Sampler {
  import opened Options

  /** `mapObject(favorWords, _.constant(true))`: the keys of the favour table. */
  function MapObject(list: seq<string>): (table: set<string>)
    ensures forall x :: x in table <==> x in list
    ensures |table| <= |list|
  {
    if list == [] then {} else {list[0]} + MapObject(list[1..])
  }

  /** Candidate `j`'s sample after the favour boost. */
  function Boosted(words: seq<string>, samples: seq<real>, favour: set<string>, j: int): real
    requires |samples| == |words| && 0 <= j < |words|
  {
    if words[j] in favour then 2.0 * samples[j] else samples[j]
  }

  /** The index the reduce holds as `memo` after the first `n` candidates:
      a candidate takes over when its boosted sample beats `maxSample`, which
      starts at 0. */
  function Leader(words: seq<string>, samples: seq<real>, favour: set<string>, n: nat): (r: Option<nat>)
    requires |samples| == |words| && n <= |words|
    ensures r.Some? ==> r.value < n
  {
    if n == 0 then None
    else
      var before := Leader(words, samples, favour, n - 1);
      var maxSample := if before.None? then 0.0 else Boosted(words, samples, favour, before.value);
      if Boosted(words, samples, favour, n - 1) > maxSample then Some(n - 1) else before
  }

  /** What `randomWord` returns: the word at the final leader, or `null`. */
  function RandomPick(words: seq<string>, samples: seq<real>, favour: set<string>): (r: Option<string>)
    requires |samples| == |words|
    ensures r.Some? ==> r.value in words
    ensures words == [] ==> r.None?
  {
    match Leader(words, samples, favour, |words|)
    case None => None
    case Some(k) => Some(words[k])
  }

  /** `k` is the earliest of the first `n` candidates with the largest boosted
      sample, and that sample is positive. */
  ghost predicate IsLeader(words: seq<string>, samples: seq<real>, favour: set<string>, n: nat, k: nat)
    requires |samples| == |words| && n <= |words|
  {
    && k < n
    && Boosted(words, samples, favour, k) > 0.0
    && (forall j :: 0 <= j < n ==> Boosted(words, samples, favour, j) <= Boosted(words, samples, favour, k))
    && (forall j :: 0 <= j < k ==> Boosted(words, samples, favour, j) < Boosted(words, samples, favour, k))
  }

  /** The fold computes the earliest positive maximum, and nothing when no
      boosted sample is positive. */
  lemma {:induction false} LeaderIsEarliestMax(words: seq<string>, samples: seq<real>, favour: set<string>, n: nat)
    requires |samples| == |words| && n <= |words|
    ensures Leader(words, samples, favour, n).None? <==>
            forall j :: 0 <= j < n ==> Boosted(words, samples, favour, j) <= 0.0
    ensures Leader(words, samples, favour, n).Some? ==>
            IsLeader(words, samples, favour, n, Leader(words, samples, favour, n).value)
  {
    if n > 0 {
      LeaderIsEarliestMax(words, samples, favour, n - 1);
    }
  }

  /** At most one candidate can be the earliest positive maximum. */
  lemma LeaderUnique(words: seq<string>, samples: seq<real>, favour: set<string>, n: nat, k1: nat, k2: nat)
    requires |samples| == |words| && n <= |words|
    requires IsLeader(words, samples, favour, n, k1) && IsLeader(words, samples, favour, n, k2)
    ensures k1 == k2
  {
  }

  /** `randomWord` returns `null` exactly when no boosted sample is positive
      (in particular for no candidates), and otherwise a candidate: the
      earliest one with the largest boosted sample. */
  lemma RandomPickSpec(words: seq<string>, samples: seq<real>, favour: set<string>)
    requires |samples| == |words|
    ensures var r := RandomPick(words, samples, favour);
            && (r.None? <==> forall j :: 0 <= j < |words| ==> Boosted(words, samples, favour, j) <= 0.0)
            && (r.Some? ==> r.value in words)
            && (r.Some? ==> exists k: nat :: IsLeader(words, samples, favour, |words|, k) && r.value == words[k])
  {
    LeaderIsEarliestMax(words, samples, favour, |words|);
  }

  /** A candidate that alone has a positive boosted sample is always chosen. */
  lemma SinglePositive(words: seq<string>, samples: seq<real>, favour: set<string>, j: nat)
    requires |samples| == |words| && j < |words|
    requires Boosted(words, samples, favour, j) > 0.0
    requires forall i :: 0 <= i < |words| && i != j ==> Boosted(words, samples, favour, i) <= 0.0
    ensures RandomPick(words, samples, favour) == Some(words[j])
  {
    LeaderIsEarliestMax(words, samples, favour, |words|);
  }

  /** Favouring the chosen candidate keeps it chosen. */
  lemma FavourKeepsWinner(words: seq<string>, samples: seq<real>, favour: set<string>, w: string)
    requires |samples| == |words|
    requires RandomPick(words, samples, favour) == Some(w)
    requires forall i, j :: 0 <= i < j < |words| ==> words[i] != words[j]
    ensures RandomPick(words, samples, favour + {w}) == Some(w)
  {
    var favour' := favour + {w};
    LeaderIsEarliestMax(words, samples, favour, |words|);
    LeaderIsEarliestMax(words, samples, favour', |words|);
    var k := Leader(words, samples, favour, |words|).value;
    assert words[k] == w;
    forall j | 0 <= j < |words| && j != k
      ensures Boosted(words, samples, favour', j) == Boosted(words, samples, favour, j)
    {
    }
    assert Boosted(words, samples, favour', k) >= Boosted(words, samples, favour, k);
    assert IsLeader(words, samples, favour', |words|, k);
    var k' := Leader(words, samples, favour', |words|).value;
    LeaderUnique(words, samples, favour', |words|, k, k');
  }

  /** `randomWord`: one pass over the candidates with a running `maxSample`. */
  method RandomWord(words: seq<string>, samples: seq<real>, favorWords: seq<string>) returns (r: Option<string>)
    requires |samples| == |words|
    ensures r == RandomPick(words, samples, MapObject(favorWords))
    ensures r.None? <==> forall j :: 0 <= j < |words| ==> Boosted(words, samples, MapObject(favorWords), j) <= 0.0
    ensures r.Some? ==> exists k: nat :: IsLeader(words, samples, MapObject(favorWords), |words|, k) && r.value == words[k]
  {
    var favorWordsTable := MapObject(favorWords);
    var memo: Option<string> := None;
    var maxSample := 0.0;
    ghost var leader: Option<nat> := None;
    for i := 0 to |words|
      invariant leader == Leader(words, samples, favorWordsTable, i)
      invariant memo == if leader.None? then None else Some(words[leader.value])
      invariant maxSample == if leader.None? then 0.0 else Boosted(words, samples, favorWordsTable, leader.value)
    {
      var sample := samples[i] * (if words[i] in favorWordsTable then 2.0 else 1.0);
      if sample > maxSample {
        memo := Some(words[i]);
        maxSample := sample;
        leader := Some(i);
      }
    }
    r := memo;
    RandomPickSpec(words, samples, favorWordsTable);
  }

  /** The property names every plain JavaScript object inherits from
      `Object.prototype`; looking one of them up reads a function or an
      object, which is truthy. */
  const InheritedNames: set<string> := {
    "constructor", "hasOwnProperty", "isPrototypeOf", "propertyIsEnumerable",
    "toString", "toLocaleString", "valueOf", "__proto__",
    "__defineGetter__", "__defineSetter__", "__lookupGetter__", "__lookupSetter__"
  }

  /** The words `favorWordsTable[word]` treats as favoured AS WRITTEN: the
      table is a plain object, so inherited property names count too. */
  function FavouredAsWritten(favorWords: seq<string>): (favoured: set<string>)
    ensures MapObject(favorWords) <= favoured
    ensures "constructor" in favoured
  {
    MapObject(favorWords) + InheritedNames
  }

  /** With no favour words at all, the candidate "constructor" still has its
      sample doubled as written, and beats a candidate with a larger sample;
      the intended rule picks the larger sample. */
  lemma InheritedNameIsFavoured()
    ensures RandomPick(["constructor", "cat"], [0.6, 1.0], FavouredAsWritten([])) == Some("constructor")
    ensures RandomPick(["constructor", "cat"], [0.6, 1.0], MapObject([])) == Some("cat")
  {
    var words, samples := ["constructor", "cat"], [0.6, 1.0];
    var asWritten := FavouredAsWritten([]);
    assert "constructor" in asWritten;
    assert "cat" !in asWritten;
    assert Boosted(words, samples, asWritten, 0) == 1.2;
    assert Boosted(words, samples, asWritten, 1) == 1.0;
    assert Leader(words, samples, asWritten, 1) == Some(0);
    assert Leader(words, samples, asWritten, 2) == Some(0);
    assert Boosted(words, samples, MapObject([]), 0) == 0.6;
    assert Leader(words, samples, MapObject([]), 1) == Some(0);
  }
}
