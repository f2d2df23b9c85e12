/** What `pickWord`, `next`, `prev` and `fill` compute from a store, given the
    random samples each `randomWord` call draws. */
module Walk {
  import opened Options
  import opened Store
  import opened Sampler
  import opened Tokenizer
  import opened Trainer

  /** The samples of one `randomWord` call: the sample for a candidate, given
      the candidate and the count the store holds for it. It stands for
      `Math.random() * computeWeight(count)`. */
  type Draw = (string, int) -> real

  /** The samples `draw` gives the candidates, with their counts in the same order. */
  function Samples(words: seq<string>, counts: seq<int>, draw: Draw): (r: seq<real>)
    requires |counts| == |words|
    ensures |r| == |words|
  {
    if words == [] then [] else [draw(words[0], counts[0])] + Samples(words[1..], counts[1..], draw)
  }

  /** HGET of every word from the hash at `k`, in order. */
  function FieldsOf(d: Db, k: StoreKey, words: seq<string>): (r: seq<int>)
    ensures |r| == |words|
  {
    if words == [] then [] else [Field(d, k, words[0])] + FieldsOf(d, k, words[1..])
  }

  /** GET of every word's count for `user`, in order. */
  function CountsOf(d: Db, user: string, words: seq<string>): (r: seq<int>)
    ensures |r| == |words|
  {
    if words == [] then [] else [Value(d, CountKey(user, words[0]))] + CountsOf(d, user, words[1..])
  }

  /** Sample `j` is the draw for candidate `j` and its count. */
  lemma {:induction false} SamplesAt(words: seq<string>, counts: seq<int>, draw: Draw)
    requires |counts| == |words|
    ensures forall j :: 0 <= j < |words| ==> Samples(words, counts, draw)[j] == draw(words[j], counts[j])
  {
    if words != [] {
      SamplesAt(words[1..], counts[1..], draw);
    }
  }

  /** Entry `j` is the field of the hash at `k` named by word `j`. */
  lemma {:induction false} FieldsOfAt(d: Db, k: StoreKey, words: seq<string>)
    ensures forall j :: 0 <= j < |words| ==> FieldsOf(d, k, words)[j] == Field(d, k, words[j])
  {
    if words != [] {
      FieldsOfAt(d, k, words[1..]);
    }
  }

  /** Entry `j` is the stored count of word `j`. */
  lemma {:induction false} CountsOfAt(d: Db, user: string, words: seq<string>)
    ensures forall j :: 0 <= j < |words| ==> CountsOf(d, user, words)[j] == Value(d, CountKey(user, words[j]))
  {
    if words != [] {
      CountsOfAt(d, user, words[1..]);
    }
  }

  /** `_.intersection(words, favorWords)`: the words of `a` that also occur in
      `b`. Only membership matters, since `randomWord` turns the list into a
      set of favoured words. */
  function Intersection(a: seq<string>, b: seq<string>): (r: seq<string>)
    ensures forall x :: x in r <==> x in a && x in b
    ensures |r| <= |a|
  {
    if a == [] then []
    else (if a[0] in b then [a[0]] else []) + Intersection(a[1..], b)
  }

  /** `next`: a random follower of `word`, weighted by the follower counts,
      with no favoured words. */
  function Successor(d: Db, user: string, word: string, draw: Draw): (r: Option<string>)
    ensures r.Some? ==> r.value in Members(d, NextKey(user, word))
  {
    var cands := Members(d, NextKey(user, word));
    RandomPick(cands, Samples(cands, FieldsOf(d, NextCountsKey(user, word), cands), draw), {})
  }

  /** `prev`: a random predecessor of `word`, weighted by the predecessor
      counts, with no favoured words. */
  function Predecessor(d: Db, user: string, word: string, draw: Draw): (r: Option<string>)
    ensures r.Some? ==> r.value in Members(d, PrevKey(user, word))
  {
    var cands := Members(d, PrevKey(user, word));
    RandomPick(cands, Samples(cands, FieldsOf(d, PrevCountsKey(user, word), cands), draw), {})
  }

  /** The favour list `pickWord` hands on: the stored words that occur in
      `favorWords`, or none when `favorWords` is absent. */
  function FavourList(words: seq<string>, favorWords: Option<seq<string>>): seq<string> {
    if favorWords.Some? then Intersection(words, favorWords.value) else []
  }

  /** `pickWord`: a random stored word of `user`, weighted by its count, with
      the stored words that occur in `favorWords` favoured. */
  function PickSpec(d: Db, user: string, favorWords: Option<seq<string>>, draw: Draw): (r: Option<string>)
    ensures r.Some? ==> r.value in Members(d, WordsKey(user))
  {
    var words := Members(d, WordsKey(user));
    RandomPick(words, Samples(words, CountsOf(d, user, words), draw), MapObject(FavourList(words, favorWords)))
  }

  /** `next` yields nothing exactly when no follower has a positive sample (in
      particular when `word` has no recorded follower), and otherwise a
      recorded follower. */
  lemma SuccessorSpec(d: Db, user: string, word: string, draw: Draw)
    ensures var cands := Members(d, NextKey(user, word));
            var r := Successor(d, user, word, draw);
            && (r.None? <==> forall j :: 0 <= j < |cands| ==>
                  draw(cands[j], Field(d, NextCountsKey(user, word), cands[j])) <= 0.0)
            && (r.Some? ==> r.value in cands)
  {
    var cands := Members(d, NextKey(user, word));
    var samples := Samples(cands, FieldsOf(d, NextCountsKey(user, word), cands), draw);
    RandomPickSpec(cands, samples, {});
    SamplesAt(cands, FieldsOf(d, NextCountsKey(user, word), cands), draw);
    FieldsOfAt(d, NextCountsKey(user, word), cands);
    forall j | 0 <= j < |cands|
      ensures Boosted(cands, samples, {}, j) == draw(cands[j], Field(d, NextCountsKey(user, word), cands[j]))
    {
    }
  }

  /** `prev` yields nothing exactly when no predecessor has a positive sample,
      and otherwise a recorded predecessor. */
  lemma PredecessorSpec(d: Db, user: string, word: string, draw: Draw)
    ensures var cands := Members(d, PrevKey(user, word));
            var r := Predecessor(d, user, word, draw);
            && (r.None? <==> forall j :: 0 <= j < |cands| ==>
                  draw(cands[j], Field(d, PrevCountsKey(user, word), cands[j])) <= 0.0)
            && (r.Some? ==> r.value in cands)
  {
    var cands := Members(d, PrevKey(user, word));
    var samples := Samples(cands, FieldsOf(d, PrevCountsKey(user, word), cands), draw);
    RandomPickSpec(cands, samples, {});
    SamplesAt(cands, FieldsOf(d, PrevCountsKey(user, word), cands), draw);
    FieldsOfAt(d, PrevCountsKey(user, word), cands);
    forall j | 0 <= j < |cands|
      ensures Boosted(cands, samples, {}, j) == draw(cands[j], Field(d, PrevCountsKey(user, word), cands[j]))
    {
    }
  }

  /** `pickWord` yields a stored word of the user or nothing, nothing for a
      user with no stored words, and favours only stored words that occur in
      `favorWords`. */
  lemma PickSpecProps(d: Db, user: string, favorWords: Option<seq<string>>, draw: Draw)
    ensures var words := Members(d, WordsKey(user));
            var r := PickSpec(d, user, favorWords, draw);
            && (r.Some? ==> r.value in words)
            && (words == [] ==> r.None?)
            && (forall x :: x in MapObject(FavourList(words, favorWords)) <==>
                  x in words && favorWords.Some? && x in favorWords.value)
  {
    var words := Members(d, WordsKey(user));
    var favour := MapObject(FavourList(words, favorWords));
    RandomPickSpec(words, Samples(words, CountsOf(d, user, words), draw), favour);
  }

  /** The backward phase of `fill`: the words it puts in front of `front`,
      leftmost first, when the response already holds `len` words. Each round
      asks `prev` of the current front with that round's draw. */
  function Backward(d: Db, user: string, front: string, limit: int, len: int, back: nat -> Draw, step: nat): (r: seq<string>)
    requires len < limit
    ensures |r| <= limit - len
    ensures "" !in r
    decreases limit - len, 1
  {
    BackwardFrom(d, user, Predecessor(d, user, front, back(step)), limit, len, back, step)
  }

  /** The backward phase once round `step` has picked `p`: a missing or empty
      pick stops, a word is prepended, and the phase goes on from it while the
      response is below `limit` words. */
  function BackwardFrom(d: Db, user: string, p: Option<string>, limit: int, len: int, back: nat -> Draw, step: nat): (r: seq<string>)
    requires len < limit
    ensures |r| <= limit - len
    ensures "" !in r
    decreases limit - len, 0
  {
    match p
    case None => []
    case Some(w) =>
      if w == "" then []
      else if len + 1 < limit then Backward(d, user, w, limit, len + 1, back, step + 1) + [w]
      else [w]
  }

  /** The forward phase of `fill`: the words it appends after `last`, when the
      response already holds `len` words. It always asks `next` at least once,
      with that round's draw. */
  function Forward(d: Db, user: string, last: string, limit: int, len: int, fore: nat -> Draw, step: nat): (r: seq<string>)
    ensures |r| <= if len < limit then limit - len else 1
    ensures "" !in r
    decreases limit - len, 1
  {
    ForwardFrom(d, user, Successor(d, user, last, fore(step)), limit, len, fore, step)
  }

  /** The forward phase once round `step` has picked `n`: a missing or empty
      pick stops, a word is appended, and the phase goes on from it while the
      response is below `limit` words. */
  function ForwardFrom(d: Db, user: string, n: Option<string>, limit: int, len: int, fore: nat -> Draw, step: nat): (r: seq<string>)
    ensures |r| <= if len < limit then limit - len else 1
    ensures "" !in r
    decreases limit - len, 0
  {
    match n
    case None => []
    case Some(w) =>
      if w == "" then []
      else if len + 1 < limit then [w] + Forward(d, user, w, limit, len + 1, fore, step + 1)
      else [w]
  }

  /** One round of the backward phase, on a response `resp` whose words so
      far, together with what the phase prepends after round `step` picked
      `p`, make up `total`: a picked word is prepended, and if the response
      is still below `limit` the next round picks `p'` from it; a missing or
      empty pick ends the phase. */
  lemma BackwardRound(d: Db, user: string, p: Option<string>, p': Option<string>, limit: int, back: nat -> Draw, step: nat,
                      resp: seq<string>, total: seq<string>)
    requires |resp| < limit
    requires total == BackwardFrom(d, user, p, limit, |resp|, back, step) + resp
    requires p.Some? && p.value != "" && |resp| + 1 < limit ==> p' == Predecessor(d, user, p.value, back(step + 1))
    ensures p.Some? && p.value != "" && |resp| + 1 < limit ==>
            total == BackwardFrom(d, user, p', limit, |resp| + 1, back, step + 1) + ([p.value] + resp)
    ensures p.Some? && p.value != "" && |resp| + 1 >= limit ==> total == [p.value] + resp
    ensures !(p.Some? && p.value != "") ==> total == resp
  {
    if p.Some? && p.value != "" && |resp| + 1 < limit {
      var b' := BackwardFrom(d, user, p', limit, |resp| + 1, back, step + 1);
      assert Backward(d, user, p.value, limit, |resp| + 1, back, step + 1) == b';
      assert (b' + [p.value]) + resp == b' + ([p.value] + resp);
    }
  }

  /** One round of the forward phase, on a response `resp` which, together
      with what the phase appends after round `step` picked `n`, makes up
      `total`: a picked word is appended, and if the response is still below
      `limit` the next round picks `n'` after it; a missing or empty pick ends
      the phase. */
  lemma ForwardRound(d: Db, user: string, n: Option<string>, n': Option<string>, limit: int, fore: nat -> Draw, step: nat,
                     resp: seq<string>, total: seq<string>)
    requires total == resp + ForwardFrom(d, user, n, limit, |resp|, fore, step)
    requires n.Some? && n.value != "" && |resp| + 1 < limit ==> n' == Successor(d, user, n.value, fore(step + 1))
    ensures n.Some? && n.value != "" && |resp| + 1 < limit ==>
            total == (resp + [n.value]) + ForwardFrom(d, user, n', limit, |resp| + 1, fore, step + 1)
    ensures n.Some? && n.value != "" && |resp| + 1 >= limit ==> total == resp + [n.value]
    ensures !(n.Some? && n.value != "") ==> total == resp
  {
    if n.Some? && n.value != "" && |resp| + 1 < limit {
      var f' := ForwardFrom(d, user, n', limit, |resp| + 1, fore, step + 1);
      assert Forward(d, user, n.value, limit, |resp| + 1, fore, step + 1) == f';
      assert resp + ([n.value] + f') == (resp + [n.value]) + f';
    }
  }

  /** `fill` as written: an empty seed gives no words, a limit of one or less
      gives the seed alone, and otherwise the backward phase runs to its end
      and the forward phase then starts from the seed, even when the backward
      phase has already reached `limit` words. */
  function FillAsWritten(d: Db, user: string, seed: string, limit: int, back: nat -> Draw, fore: nat -> Draw): (r: seq<string>)
    requires limit != 0
    ensures limit >= 1 ==> |r| <= limit + 1
  {
    if seed == "" then []
    else if limit <= 1 then [seed]
    else
      var pre := Backward(d, user, seed, limit, 1, back, 0);
      pre + [seed] + Forward(d, user, seed, limit, 1 + |pre|, fore, 0)
  }

  /** `fill` with the limit kept: the forward phase runs only while the
      response is still below `limit` words. */
  function FillWords(d: Db, user: string, seed: string, limit: int, back: nat -> Draw, fore: nat -> Draw): (r: seq<string>)
    requires limit != 0
    ensures seed == "" <==> r == []
    ensures seed != "" && limit <= 1 ==> r == [seed]
    ensures limit >= 1 ==> |r| <= limit
    ensures seed != "" ==> "" !in r
  {
    if seed == "" then []
    else if limit <= 1 then [seed]
    else
      var pre := Backward(d, user, seed, limit, 1, back, 0);
      pre + [seed] + (if 1 + |pre| < limit then Forward(d, user, seed, limit, 1 + |pre|, fore, 0) else [])
  }

  /** Each word of `c` but the last is in the prev set of the word after it. */
  predicate PrevLinked(d: Db, user: string, c: seq<string>) {
    forall i :: 0 <= i < |c| - 1 ==> c[i] in Members(d, PrevKey(user, c[i + 1]))
  }

  /** Each word of `c` but the first is in the next set of the word before it. */
  predicate NextLinked(d: Db, user: string, c: seq<string>) {
    forall i :: 0 <= i < |c| - 1 ==> c[i + 1] in Members(d, NextKey(user, c[i]))
  }

  /** Each word of the backward phase was picked from the prev set of its
      right neighbour, the last one from that of `front`. */
  lemma {:induction false} BackwardChain(d: Db, user: string, front: string, limit: int, len: int, back: nat -> Draw, step: nat)
    requires len < limit
    ensures PrevLinked(d, user, Backward(d, user, front, limit, len, back, step) + [front])
    decreases limit - len
  {
    var b := Backward(d, user, front, limit, len, back, step);
    var c := b + [front];
    assert b == BackwardFrom(d, user, Predecessor(d, user, front, back(step)), limit, len, back, step);
    if b != [] {
      var p := Predecessor(d, user, front, back(step)).value;
      PredecessorSpec(d, user, front, back(step));
      assert p in Members(d, PrevKey(user, front));
      if len + 1 < limit {
        var c' := Backward(d, user, p, limit, len + 1, back, step + 1) + [p];
        BackwardChain(d, user, p, limit, len + 1, back, step + 1);
        assert PrevLinked(d, user, c');
        assert c == c' + [front];
        forall i | 0 <= i < |c| - 1 ensures c[i] in Members(d, PrevKey(user, c[i + 1])) {
          if i < |c'| - 1 {
            assert c[i] == c'[i] && c[i + 1] == c'[i + 1];
          } else {
            assert c[i] == p && c[i + 1] == front;
          }
        }
      } else {
        assert c == [p, front];
      }
    }
  }

  /** Each word of the forward phase was picked from the next set of its left
      neighbour, the first one from that of `last`. */
  lemma {:induction false} ForwardChain(d: Db, user: string, last: string, limit: int, len: int, fore: nat -> Draw, step: nat)
    ensures NextLinked(d, user, [last] + Forward(d, user, last, limit, len, fore, step))
    decreases limit - len
  {
    var f := Forward(d, user, last, limit, len, fore, step);
    var c := [last] + f;
    assert f == ForwardFrom(d, user, Successor(d, user, last, fore(step)), limit, len, fore, step);
    if f != [] {
      var n := Successor(d, user, last, fore(step)).value;
      SuccessorSpec(d, user, last, fore(step));
      assert n in Members(d, NextKey(user, last));
      if len + 1 < limit {
        var c' := [n] + Forward(d, user, n, limit, len + 1, fore, step + 1);
        ForwardChain(d, user, n, limit, len + 1, fore, step + 1);
        assert NextLinked(d, user, c');
        assert c == [last] + c';
        forall i | 0 <= i < |c| - 1 ensures c[i + 1] in Members(d, NextKey(user, c[i])) {
          if i > 0 {
            assert c[i] == c'[i - 1] && c[i + 1] == c'[i];
          } else {
            assert c[0] == last && c[1] == n;
          }
        }
      } else {
        assert c == [last, n];
      }
    }
  }

  /** A backward chain ending in `seed` followed by a forward chain starting
      from it: the seed sits at the joint. */
  lemma Joint(d: Db, user: string, pre: seq<string>, seed: string, post: seq<string>)
    requires PrevLinked(d, user, pre + [seed]) && NextLinked(d, user, [seed] + post)
    ensures var r := pre + [seed] + post;
            exists k :: 0 <= k < |r| && r[k] == seed
              && PrevLinked(d, user, r[..k + 1]) && NextLinked(d, user, r[k..])
  {
    var r := pre + [seed] + post;
    var k := |pre|;
    assert r[..k + 1] == pre + [seed];
    assert r[k..] == [seed] + post;
    assert r[k] == seed;
  }

  /** In `fill`'s result the seed sits at some position `k`; every word
      before it was picked from the prev set of its right neighbour and every
      word after it from the next set of its left neighbour. */
  lemma FillShape(d: Db, user: string, seed: string, limit: int, back: nat -> Draw, fore: nat -> Draw)
    requires limit != 0 && seed != ""
    ensures var r := FillWords(d, user, seed, limit, back, fore);
            exists k :: 0 <= k < |r| && r[k] == seed
              && PrevLinked(d, user, r[..k + 1]) && NextLinked(d, user, r[k..])
  {
    if limit > 1 {
      var pre := Backward(d, user, seed, limit, 1, back, 0);
      BackwardChain(d, user, seed, limit, 1, back, 0);
      if 1 + |pre| < limit {
        ForwardChain(d, user, seed, limit, 1 + |pre|, fore, 0);
        Joint(d, user, pre, seed, Forward(d, user, seed, limit, 1 + |pre|, fore, 0));
      } else {
        assert NextLinked(d, user, [seed] + []);
        Joint(d, user, pre, seed, []);
      }
    } else {
      assert NextLinked(d, user, [seed] + []);
      assert PrevLinked(d, user, [] + [seed]);
      Joint(d, user, [], seed, []);
      assert FillWords(d, user, seed, limit, back, fore) == [] + [seed] + [];
    }
  }

  /** The corrected `fill` agrees with `fill` as written whenever the latter
      stays within `limit`; as written it exceeds `limit` by at most one word. */
  lemma FillAgreesWithinLimit(d: Db, user: string, seed: string, limit: int, back: nat -> Draw, fore: nat -> Draw)
    requires limit != 0
    ensures var asWritten := FillAsWritten(d, user, seed, limit, back, fore);
            && (|asWritten| <= limit ==> asWritten == FillWords(d, user, seed, limit, back, fore))
            && (limit >= 1 ==> |asWritten| <= limit + 1)
  {
  }

  /** As written, `fill` returns `limit + 1` words when the backward phase
      reaches the limit and the seed has a non-empty follower: with limit 2,
      a seed with a predecessor and a follower yields three words. */
  lemma FillOverrun(d: Db, user: string, seed: string, back: nat -> Draw, fore: nat -> Draw, p: string, n: string)
    requires seed != "" && p != "" && n != ""
    requires Predecessor(d, user, seed, back(0)) == Some(p)
    requires Successor(d, user, seed, fore(0)) == Some(n)
    ensures FillAsWritten(d, user, seed, 2, back, fore) == [p, seed, n]
    ensures FillWords(d, user, seed, 2, back, fore) == [p, seed]
  {
  }

  /** `respond`: the word `search` picks for the text, favouring the text's
      own tokens, filled out to `limit` words, or to 25 when `limit` is 0. A
      missing pick gives no words, like an empty seed. */
  function ResponseWords(d: Db, user: string, text: string, limit: int, caseSensitive: bool, stripPunctuation: bool,
                         pick: Draw, back: nat -> Draw, fore: nat -> Draw): (r: seq<string>)
    ensures limit == 0 ==> |r| <= 25
    ensures limit >= 1 ==> |r| <= limit
    ensures Members(d, WordsKey(user)) == [] ==> r == []
    ensures "" !in r
  {
    var seed := PickSpec(d, user, Some(WordsFromText(text, caseSensitive, stripPunctuation)), pick);
    PickSpecProps(d, user, Some(WordsFromText(text, caseSensitive, stripPunctuation)), pick);
    FillWords(d, user, if seed.Some? then seed.value else "", if limit == 0 then 25 else limit, back, fore)
  }

  /** `respond` as written: the same seed, filled out by `fill` as written, so
      it can give one word more than the limit (26 for a zero limit). */
  function ResponseAsWritten(d: Db, user: string, text: string, limit: int, caseSensitive: bool, stripPunctuation: bool,
                             pick: Draw, back: nat -> Draw, fore: nat -> Draw): (r: seq<string>)
    ensures limit == 0 ==> |r| <= 26
    ensures limit >= 1 ==> |r| <= limit + 1
    ensures Members(d, WordsKey(user)) == [] ==> r == []
  {
    var seed := PickSpec(d, user, Some(WordsFromText(text, caseSensitive, stripPunctuation)), pick);
    PickSpecProps(d, user, Some(WordsFromText(text, caseSensitive, stripPunctuation)), pick);
    FillAsWritten(d, user, if seed.Some? then seed.value else "", if limit == 0 then 25 else limit, back, fore)
  }

  /** `respond` as written and corrected agree whenever the one as written
      stays within the limit it fills to. */
  lemma ResponseAgreesWithinLimit(d: Db, user: string, text: string, limit: int, caseSensitive: bool, stripPunctuation: bool,
                                  pick: Draw, back: nat -> Draw, fore: nat -> Draw)
    ensures var asWritten := ResponseAsWritten(d, user, text, limit, caseSensitive, stripPunctuation, pick, back, fore);
            |asWritten| <= (if limit == 0 then 25 else limit) ==>
              asWritten == ResponseWords(d, user, text, limit, caseSensitive, stripPunctuation, pick, back, fore)
  {
    var seed := PickSpec(d, user, Some(WordsFromText(text, caseSensitive, stripPunctuation)), pick);
    FillAgreesWithinLimit(d, user, if seed.Some? then seed.value else "", if limit == 0 then 25 else limit, back, fore);
  }

  /** The store `train` leaves after the text "a b c" on an empty store. */
  function OneSentence(user: string): Db {
    TrainStore(EmptyDb, user, ["a", "b", "c"], 250)
  }

  /** In that store "b" has exactly the predecessor "a" and the follower "c". */
  lemma OneSentenceNeighbours(user: string)
    ensures Members(OneSentence(user), PrevKey(user, "b")) == ["a"]
    ensures Members(OneSentence(user), NextKey(user, "b")) == ["c"]
  {
    var ws := ["a", "b", "c"];
    assert Accepts(EmptyDb, user, ws, 250);
    var d1 := Record(EmptyDb, user, "a", "b", "");
    var d2 := Record(d1, user, "b", "c", "a");
    assert RecordAll(EmptyDb, user, ws, 1) == d1;
    assert RecordAll(EmptyDb, user, ws, 2) == d2;
    assert OneSentence(user) == Record(d2, user, "c", "", "b");
    var pk, nk := PrevKey(user, "b"), NextKey(user, "b");
    RecordFrame(EmptyDb, user, "a", "b", "", pk);
    RecordFrame(EmptyDb, user, "a", "b", "", nk);
    RecordTouched(d1, user, "b", "c", "a", pk);
    RecordTouched(d1, user, "b", "c", "a", nk);
    RecordFrame(d2, user, "c", "", "b", pk);
    RecordFrame(d2, user, "c", "", "b", nk);
  }

  /** The premise of `FillOverrun` is met in the store `train` builds from "a
      b c": with every sample 1.0, "b" has the predecessor "a" and the
      follower "c", so `fill("b", 2)` as written gives the three words "a b c". */
  lemma FillOverrunExample(user: string)
    ensures var one: nat -> Draw := _ => (_, _) => 1.0;
            && Predecessor(OneSentence(user), user, "b", one(0)) == Some("a")
            && Successor(OneSentence(user), user, "b", one(0)) == Some("c")
            && FillAsWritten(OneSentence(user), user, "b", 2, one, one) == ["a", "b", "c"]
  {
    var one: nat -> Draw := _ => (_, _) => 1.0;
    var d := OneSentence(user);
    OneSentenceNeighbours(user);
    var pc := FieldsOf(d, PrevCountsKey(user, "b"), ["a"]);
    var nc := FieldsOf(d, NextCountsKey(user, "b"), ["c"]);
    assert Samples(["a"], pc, one(0)) == [1.0];
    assert Samples(["c"], nc, one(0)) == [1.0];
    assert Leader(["a"], [1.0], {}, 1) == Some(0);
    assert Leader(["c"], [1.0], {}, 1) == Some(0);
    FillOverrun(d, user, "b", one, one, "a", "c");
  }
}
