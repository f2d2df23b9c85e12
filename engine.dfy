/** The `Markov` engine: its configuration, the brain it trains and reads,
    and the operations that train on text and answer with a walk. Each
    `randomWord` call's samples are given as a `Draw`; `fill` gets one draw per
    round of each phase. */
module Engine {
  import opened Options
  import opened Tokenizer
  import opened Store
  import opened Sampler
  import opened Trainer
  import opened Walk

  class Markov {
    const brain: Brain
    const caseSensitive: bool
    const stripPunctuation: bool
    /** The word-set capacity per user that `train` checks. */
    const limit: int

    constructor (brain: Brain, caseSensitive: bool, stripPunctuation: bool, limit: int)
      ensures this.brain == brain && this.caseSensitive == caseSensitive
      ensures this.stripPunctuation == stripPunctuation && this.limit == limit
    {
      this.brain := brain;
      this.caseSensitive := caseSensitive;
      this.stripPunctuation := stripPunctuation;
      this.limit := limit;
    }

    /** `train`: tokenizes the text and, unless the user's word set is too
        full, issues the six updates for every token in turn. */
    method Train(text: string, user: string)
      modifies brain
      ensures brain.State() == TrainStore(old(brain.State()), user, WordsFromText(text, caseSensitive, stripPunctuation), limit)
      ensures Consistent(old(brain.State())) ==> Consistent(brain.State())
    {
      var words := WordsFromText(text, caseSensitive, stripPunctuation);
      ghost var d0 := brain.State();
      var size := brain.SCard(WordsKey(user));
      if size < limit - |words| {
        for i := 0 to |words|
          invariant brain.State() == RecordAll(d0, user, words, i)
        {
          var word := words[i];
          var next := if i + 1 < |words| then words[i + 1] else "";
          var prev := if i > 0 then words[i - 1] else "";
          ghost var before := brain.State();
          brain.SAdd(WordsKey(user), word);
          brain.IncrBy(CountKey(user, word), 1);
          brain.HIncrBy(NextCountsKey(user, word), next, 1);
          brain.SAdd(NextKey(user, word), next);
          brain.HIncrBy(PrevCountsKey(user, word), prev, 1);
          brain.SAdd(PrevKey(user, word), prev);
          RecordSteps(before, user, word, next, prev);
        }
      }
      if Consistent(d0) {
        TrainConsistent(d0, user, words, limit);
      }
    }

    /** `pickWord`: reads the user's words and their counts, and picks one,
        favouring the stored words that occur in `favorWords`. */
    method PickWord(favorWords: Option<seq<string>>, user: string, draw: Draw) returns (r: Option<string>)
      ensures r == PickSpec(brain.State(), user, favorWords, draw)
      ensures r.Some? ==> r.value in Members(brain.State(), WordsKey(user))
    {
      var words := brain.SMembers(WordsKey(user));
      var favour := if favorWords.Some? then Intersection(words, favorWords.value) else [];
      var counts: seq<int> := [];
      for i := 0 to |words|
        invariant |counts| == i
        invariant forall j :: 0 <= j < i ==> counts[j] == Value(brain.State(), CountKey(user, words[j]))
      {
        var c := brain.Get(CountKey(user, words[i]));
        counts := counts + [c];
      }
      CountsOfAt(brain.State(), user, words);
      assert counts == CountsOf(brain.State(), user, words);
      r := RandomWord(words, Samples(words, counts, draw), favour);
      PickSpecProps(brain.State(), user, favorWords, draw);
    }

    /** `search`: a stored word, favouring the tokens of `text`. */
    method Search(text: string, user: string, draw: Draw) returns (r: Option<string>)
      ensures r == PickSpec(brain.State(), user, Some(WordsFromText(text, caseSensitive, stripPunctuation)), draw)
      ensures r.Some? ==> r.value in Members(brain.State(), WordsKey(user))
    {
      r := PickWord(Some(WordsFromText(text, caseSensitive, stripPunctuation)), user, draw);
    }

    /** `next`: a follower of `word`, weighted by the follower counts. */
    method Next(word: string, user: string, draw: Draw) returns (r: Option<string>)
      ensures r == Successor(brain.State(), user, word, draw)
      ensures r.Some? ==> r.value in Members(brain.State(), NextKey(user, word))
    {
      var words := brain.SMembers(NextKey(user, word));
      var counts: seq<int> := [];
      for i := 0 to |words|
        invariant |counts| == i
        invariant forall j :: 0 <= j < i ==> counts[j] == Field(brain.State(), NextCountsKey(user, word), words[j])
      {
        var c := brain.HGet(NextCountsKey(user, word), words[i]);
        counts := counts + [c];
      }
      FieldsOfAt(brain.State(), NextCountsKey(user, word), words);
      assert counts == FieldsOf(brain.State(), NextCountsKey(user, word), words);
      r := RandomWord(words, Samples(words, counts, draw), []);
      SuccessorSpec(brain.State(), user, word, draw);
    }

    /** `prev`: a predecessor of `word`, weighted by the predecessor counts. */
    method Prev(word: string, user: string, draw: Draw) returns (r: Option<string>)
      ensures r == Predecessor(brain.State(), user, word, draw)
      ensures r.Some? ==> r.value in Members(brain.State(), PrevKey(user, word))
    {
      var words := brain.SMembers(PrevKey(user, word));
      var counts: seq<int> := [];
      for i := 0 to |words|
        invariant |counts| == i
        invariant forall j :: 0 <= j < i ==> counts[j] == Field(brain.State(), PrevCountsKey(user, word), words[j])
      {
        var c := brain.HGet(PrevCountsKey(user, word), words[i]);
        counts := counts + [c];
      }
      FieldsOfAt(brain.State(), PrevCountsKey(user, word), words);
      assert counts == FieldsOf(brain.State(), PrevCountsKey(user, word), words);
      r := RandomWord(words, Samples(words, counts, draw), []);
      PredecessorSpec(brain.State(), user, word, draw);
    }

    /** `fill`'s `previous` phase: starting from the seed alone, prepends
        predecessors of the front while the pick is a word and the response
        is below `limit`. */
    method Previous(word: string, limit: int, user: string, back: nat -> Draw) returns (response: seq<string>)
      requires 1 < limit
      ensures response == Backward(brain.State(), user, word, limit, 1, back, 0) + [word]
    {
      ghost var d := brain.State();
      ghost var total := Backward(d, user, word, limit, 1, back, 0) + [word];
      response := [word];
      var step: nat := 0;
      var p := Prev(word, user, back(step));
      while true
        invariant |response| < limit
        invariant total == BackwardFrom(d, user, p, limit, |response|, back, step) + response
        decreases limit - |response|
      {
        if p.None? || p.value == "" {
          BackwardRound(d, user, p, p, limit, back, step, response, total);
          break;
        }
        if |response| + 1 == limit {
          BackwardRound(d, user, p, p, limit, back, step, response, total);
          response := [p.value] + response;
          break;
        }
        var p' := Prev(p.value, user, back(step + 1));
        BackwardRound(d, user, p, p', limit, back, step, response, total);
        response := [p.value] + response;
        p := p';
        step := step + 1;
      }
    }

    /** `fill`'s `next` phase: appends followers of the last word, starting
        from `last`, while the pick is a word and the response is below
        `limit`. */
    method Following(start: seq<string>, last: string, limit: int, user: string, fore: nat -> Draw) returns (response: seq<string>)
      requires |start| < limit
      ensures response == start + Forward(brain.State(), user, last, limit, |start|, fore, 0)
    {
      ghost var d := brain.State();
      ghost var total := start + Forward(d, user, last, limit, |start|, fore, 0);
      response := start;
      var step: nat := 0;
      var n := Next(last, user, fore(step));
      while true
        invariant |response| < limit
        invariant total == response + ForwardFrom(d, user, n, limit, |response|, fore, step)
        decreases limit - |response|
      {
        if n.None? || n.value == "" {
          ForwardRound(d, user, n, n, limit, fore, step, response, total);
          break;
        }
        if |response| + 1 == limit {
          ForwardRound(d, user, n, n, limit, fore, step, response, total);
          response := response + [n.value];
          break;
        }
        var n' := Next(n.value, user, fore(step + 1));
        ForwardRound(d, user, n, n', limit, fore, step, response, total);
        response := response + [n.value];
        n := n';
        step := step + 1;
      }
    }

    /** `fill`: no words for an empty seed, the seed alone when `limit` is
        one or less, and otherwise the `previous` phase followed, while the
        response is still below `limit`, by the `next` phase from the seed. */
    method Fill(word: string, limit: int, user: string, back: nat -> Draw, fore: nat -> Draw) returns (response: seq<string>)
      requires limit != 0
      ensures response == FillWords(brain.State(), user, word, limit, back, fore)
      ensures limit >= 1 ==> |response| <= limit
      ensures word != "" ==> word in response && "" !in response
    {
      response := [word];
      if word == "" {
        return [];
      }
      if |response| >= limit {
        return;
      }
      response := Previous(word, limit, user, back);
      if |response| < limit {
        response := Following(response, word, limit, user, fore);
      }
    }

    /** `respond`: the word `search` picks for the text, filled out to
        `limit` words, or to 25 when `limit` is 0. */
    method Respond(text: string, limit: int, user: string, pick: Draw, back: nat -> Draw, fore: nat -> Draw) returns (r: seq<string>)
      ensures r == ResponseWords(brain.State(), user, text, limit, caseSensitive, stripPunctuation, pick, back, fore)
      ensures limit == 0 ==> |r| <= 25
      ensures Members(brain.State(), WordsKey(user)) == [] ==> r == []
    {
      var lim := if limit == 0 then 25 else limit;
      var word := Search(text, user, pick);
      r := Fill(if word.Some? then word.value else "", lim, user, back, fore);
    }
  }
}
