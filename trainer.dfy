/** `train` on the store: the six updates recorded per token, the capacity
    pre-check, and what an accepted or refused training does to the store. */
module Trainer {
  import opened Store

  /** `words[i + 1] || ''`: the follower of token `i`, "" after the last. */
  function NextToken(words: seq<string>, i: nat): string
    requires i < |words|
  {
    if i + 1 < |words| then words[i + 1] else ""
  }

  /** `words[i - 1] || ''`: the predecessor of token `i`, "" before the first. */
  function PrevToken(words: seq<string>, i: nat): string
    requires i < |words|
  {
    if i > 0 then words[i - 1] else ""
  }

  /** `k` is none of the keys the updates for `word` of `user` change: the
      user's word set and the word's own five keys. */
  predicate Untouched(k: StoreKey, user: string, word: string) {
    k.user != user || (!k.WordsKey? && k.word != word)
  }

  /** The six commands `train` issues for one token: the word joins the
      user's word set, its count rises by one, the follower's entry in its next
      hash rises by one and the follower joins its next set, and likewise for
      the predecessor. */
  function TokenCommands(user: string, word: string, next: string, prev: string): seq<Command> {
    [ SAdd(WordsKey(user), word),
      IncrBy(CountKey(user, word), 1),
      HIncrBy(NextCountsKey(user, word), next, 1),
      SAdd(NextKey(user, word), next),
      HIncrBy(PrevCountsKey(user, word), prev, 1),
      SAdd(PrevKey(user, word), prev) ]
  }

  /** The store after the six commands for one token. */
  function Record(d: Db, user: string, word: string, next: string, prev: string): Db {
    ExecAll(d, TokenCommands(user, word, next, prev))
  }

  /** The six commands, one after the other. */
  lemma RecordSteps(d: Db, user: string, word: string, next: string, prev: string)
    ensures Record(d, user, word, next, prev) ==
            WithMember(WithFieldIncrement(WithMember(WithFieldIncrement(WithIncrement(WithMember(d,
              WordsKey(user), word), CountKey(user, word), 1), NextCountsKey(user, word), next, 1),
              NextKey(user, word), next), PrevCountsKey(user, word), prev, 1), PrevKey(user, word), prev)
  {
    var cs := TokenCommands(user, word, next, prev);
    var d1 := Exec(d, cs[0]);
    var d2 := Exec(d1, cs[1]);
    var d3 := Exec(d2, cs[2]);
    var d4 := Exec(d3, cs[3]);
    var d5 := Exec(d4, cs[4]);
    var d6 := Exec(d5, cs[5]);
    assert ExecAll(d, cs) == ExecAll(d1, cs[1..]);
    assert ExecAll(d1, cs[1..]) == ExecAll(d2, cs[2..]);
    assert ExecAll(d2, cs[2..]) == ExecAll(d3, cs[3..]);
    assert ExecAll(d3, cs[3..]) == ExecAll(d4, cs[4..]);
    assert ExecAll(d4, cs[4..]) == ExecAll(d5, cs[5..]);
    assert ExecAll(d5, cs[5..]) == ExecAll(d6, cs[6..]);
    assert cs[6..] == [];
  }

  /** Where among the six commands the one naming `k` sits, for a key the
      token touches. */
  function CommandIndex(k: StoreKey): nat {
    match k
    case WordsKey(_) => 0
    case CountKey(_, _) => 1
    case NextCountsKey(_, _) => 2
    case NextKey(_, _) => 3
    case PrevCountsKey(_, _) => 4
    case PrevKey(_, _) => 5
  }

  /** A key the token touches is named by exactly one of its six commands,
      and ends up holding what that command alone leaves there. */
  lemma RecordTouched(d: Db, user: string, word: string, next: string, prev: string, k: StoreKey)
    requires !Untouched(k, user, word)
    ensures var cs := TokenCommands(user, word, next, prev);
            && CommandIndex(k) < |cs| && cs[CommandIndex(k)].key == k
            && SameAt(Record(d, user, word, next, prev), Exec(d, cs[CommandIndex(k)]), k)
  {
    var cs := TokenCommands(user, word, next, prev);
    var i := CommandIndex(k);
    assert cs[i].key == k;
    assert forall j :: 0 <= j < |cs| && j != i ==> cs[j].key != k;
    ExecAllSingle(d, cs, k, i);
  }

  /** The word joins the user's word set, which grows by at most one. */
  lemma RecordWords(d: Db, user: string, word: string, next: string, prev: string)
    ensures var r := Record(d, user, word, next, prev);
            && (forall x :: x in Members(r, WordsKey(user)) <==> x in Members(d, WordsKey(user)) || x == word)
            && |Members(r, WordsKey(user))| <= |Members(d, WordsKey(user))| + 1
  {
    RecordTouched(d, user, word, next, prev, WordsKey(user));
    WithMemberSpec(d, WordsKey(user), word);
  }

  /** The word's count rises by one and both of its hashes gain one at the
      neighbour's entry. */
  lemma RecordCounts(d: Db, user: string, word: string, next: string, prev: string)
    ensures var r := Record(d, user, word, next, prev);
            && Value(r, CountKey(user, word)) == Value(d, CountKey(user, word)) + 1
            && Hash(r, NextCountsKey(user, word)) ==
               Hash(d, NextCountsKey(user, word))[next := Field(d, NextCountsKey(user, word), next) + 1]
            && Hash(r, PrevCountsKey(user, word)) ==
               Hash(d, PrevCountsKey(user, word))[prev := Field(d, PrevCountsKey(user, word), prev) + 1]
  {
    RecordTouched(d, user, word, next, prev, CountKey(user, word));
    RecordTouched(d, user, word, next, prev, NextCountsKey(user, word));
    RecordTouched(d, user, word, next, prev, PrevCountsKey(user, word));
    WithIncrementSpec(d, CountKey(user, word), 1);
    WithFieldIncrementSpec(d, NextCountsKey(user, word), next, 1);
    WithFieldIncrementSpec(d, PrevCountsKey(user, word), prev, 1);
  }

  /** The neighbours join the word's next and prev sets. */
  lemma RecordNeighbours(d: Db, user: string, word: string, next: string, prev: string)
    ensures var r := Record(d, user, word, next, prev);
            && (forall x :: x in Members(r, NextKey(user, word)) <==> x in Members(d, NextKey(user, word)) || x == next)
            && (forall x :: x in Members(r, PrevKey(user, word)) <==> x in Members(d, PrevKey(user, word)) || x == prev)
  {
    RecordTouched(d, user, word, next, prev, NextKey(user, word));
    RecordTouched(d, user, word, next, prev, PrevKey(user, word));
    WithMemberSpec(d, NextKey(user, word), next);
    WithMemberSpec(d, PrevKey(user, word), prev);
  }

  /** No set gains a member twice, and no set loses one. */
  lemma RecordSets(d: Db, user: string, word: string, next: string, prev: string, k: StoreKey)
    ensures var r := Record(d, user, word, next, prev);
            && (NoDup(Members(d, k)) ==> NoDup(Members(r, k)))
            && (forall x :: x in Members(d, k) ==> x in Members(r, k))
  {
    if Untouched(k, user, word) {
      RecordFrame(d, user, word, next, prev, k);
    } else {
      RecordTouched(d, user, word, next, prev, k);
      match TokenCommands(user, word, next, prev)[CommandIndex(k)]
      case SAdd(_, x) => WithMemberSpec(d, k, x);
      case IncrBy(_, n) => WithIncrementSpec(d, k, n);
      case HIncrBy(_, f, n) => WithFieldIncrementSpec(d, k, f, n);
    }
  }

  /** Keys the token's updates do not touch keep their values. */
  lemma RecordFrame(d: Db, user: string, word: string, next: string, prev: string, k: StoreKey)
    requires Untouched(k, user, word)
    ensures var r := Record(d, user, word, next, prev);
            Members(r, k) == Members(d, k) && Value(r, k) == Value(d, k) && Hash(r, k) == Hash(d, k)
  {
    var cs := TokenCommands(user, word, next, prev);
    assert forall i :: 0 <= i < |cs| ==> cs[i].key != k;
    ExecAllFrame(d, cs, k);
  }

  /** The store after the loop body has run for the first `n` tokens. */
  function RecordAll(d: Db, user: string, words: seq<string>, n: nat): Db
    requires n <= |words|
  {
    if n == 0 then d
    else Record(RecordAll(d, user, words, n - 1), user, words[n - 1], NextToken(words, n - 1), PrevToken(words, n - 1))
  }

  /** The capacity pre-check: the user's word-set size is below `limit - words.length`. */
  predicate Accepts(d: Db, user: string, words: seq<string>, limit: int) {
    Card(d, WordsKey(user)) < limit - |words|
  }

  /** `train` on already tokenized text: all of the updates, or none of them. */
  function TrainStore(d: Db, user: string, words: seq<string>, limit: int): Db {
    if Accepts(d, user, words, limit) then RecordAll(d, user, words, |words|) else d
  }

  /** A refused `train` leaves the store as it was. */
  lemma TrainRefused(d: Db, user: string, words: seq<string>, limit: int)
    requires !Accepts(d, user, words, limit)
    ensures TrainStore(d, user, words, limit) == d
  {
  }

  /** One token's updates keep the token's own statistics consistent. */
  lemma RecordConsistentOwn(d: Db, user: string, word: string, next: string, prev: string)
    requires ConsistentAt(d, user, word)
    ensures ConsistentAt(Record(d, user, word, next, prev), user, word)
  {
    RecordWords(d, user, word, next, prev);
    RecordCounts(d, user, word, next, prev);
    RecordNeighbours(d, user, word, next, prev);
    ConsistentAtOccurrence(d, Record(d, user, word, next, prev), user, word, next, prev);
  }

  /** One token's updates leave every other word's keys as they were. */
  lemma RecordFrameWord(d: Db, user: string, word: string, next: string, prev: string, u: string, w: string)
    requires (u, w) != (user, word)
    ensures var r := Record(d, user, word, next, prev);
            && Value(r, CountKey(u, w)) == Value(d, CountKey(u, w))
            && Hash(r, NextCountsKey(u, w)) == Hash(d, NextCountsKey(u, w))
            && Hash(r, PrevCountsKey(u, w)) == Hash(d, PrevCountsKey(u, w))
            && Members(r, NextKey(u, w)) == Members(d, NextKey(u, w))
            && Members(r, PrevKey(u, w)) == Members(d, PrevKey(u, w))
            && (w in Members(r, WordsKey(u)) <==> w in Members(d, WordsKey(u)))
  {
    RecordFrame(d, user, word, next, prev, CountKey(u, w));
    RecordFrame(d, user, word, next, prev, NextKey(u, w));
    RecordFrame(d, user, word, next, prev, PrevKey(u, w));
    RecordFrame(d, user, word, next, prev, NextCountsKey(u, w));
    RecordFrame(d, user, word, next, prev, PrevCountsKey(u, w));
    if u != user {
      RecordFrame(d, user, word, next, prev, WordsKey(u));
    } else {
      RecordWords(d, user, word, next, prev);
    }
  }

  /** One token's updates leave every other word's statistics as they were. */
  lemma RecordConsistentOther(d: Db, user: string, word: string, next: string, prev: string, u: string, w: string)
    requires ConsistentAt(d, u, w) && (u, w) != (user, word)
    ensures ConsistentAt(Record(d, user, word, next, prev), u, w)
  {
    RecordFrameWord(d, user, word, next, prev, u, w);
    ConsistentAtFrame(d, Record(d, user, word, next, prev), u, w);
  }

  /** The updates for one token keep the store consistent. */
  lemma RecordConsistent(d: Db, user: string, word: string, next: string, prev: string)
    requires Consistent(d)
    ensures Consistent(Record(d, user, word, next, prev))
  {
    forall k ensures NoDup(Members(Record(d, user, word, next, prev), k)) {
      RecordSets(d, user, word, next, prev, k);
    }
    forall u, w ensures ConsistentAt(Record(d, user, word, next, prev), u, w) {
      if (u, w) == (user, word) {
        RecordConsistentOwn(d, user, word, next, prev);
      } else {
        RecordConsistentOther(d, user, word, next, prev, u, w);
      }
    }
  }

  /** Every prefix of the loop keeps the store consistent. */
  lemma {:induction false} RecordAllConsistent(d: Db, user: string, words: seq<string>, n: nat)
    requires n <= |words| && Consistent(d)
    ensures Consistent(RecordAll(d, user, words, n))
  {
    if n > 0 {
      RecordAllConsistent(d, user, words, n - 1);
      RecordConsistent(RecordAll(d, user, words, n - 1), user, words[n - 1], NextToken(words, n - 1), PrevToken(words, n - 1));
    }
  }

  /** Count conservation and the set/hash agreement survive every `train`. */
  lemma TrainConsistent(d: Db, user: string, words: seq<string>, limit: int)
    requires Consistent(d)
    ensures Consistent(TrainStore(d, user, words, limit))
  {
    if Accepts(d, user, words, limit) {
      RecordAllConsistent(d, user, words, |words|);
    }
  }

  /** The number of times `w` occurs in `s`. */
  function Occurrences(s: seq<string>, w: string): nat {
    if s == [] then 0 else Occurrences(s[..|s| - 1], w) + (if s[|s| - 1] == w then 1 else 0)
  }

  /** `Occurrences` is the multiplicity in the multiset of `s`. */
  lemma {:induction false} OccurrencesMultiset(s: seq<string>, w: string)
    ensures Occurrences(s, w) == multiset(s)[w]
  {
    if s != [] {
      OccurrencesMultiset(s[..|s| - 1], w);
      assert s == s[..|s| - 1] + [s[|s| - 1]];
    }
  }

  /** One token's updates raise its own count by one and no other count. */
  lemma CountStep(d: Db, user: string, word: string, next: string, prev: string, w: string)
    ensures Value(Record(d, user, word, next, prev), CountKey(user, w)) ==
            Value(d, CountKey(user, w)) + (if w == word then 1 else 0)
  {
    if w != word {
      RecordFrame(d, user, word, next, prev, CountKey(user, w));
    } else {
      RecordCounts(d, user, word, next, prev);
    }
  }

  /** After `n` tokens each count has grown by the word's occurrences among them. */
  lemma {:induction false} RecordAllCount(d: Db, user: string, words: seq<string>, n: nat, w: string)
    requires n <= |words|
    ensures Value(RecordAll(d, user, words, n), CountKey(user, w)) ==
            Value(d, CountKey(user, w)) + Occurrences(words[..n], w)
  {
    if n > 0 {
      RecordAllCount(d, user, words, n - 1, w);
      assert words[..n][..n - 1] == words[..n - 1];
      CountStep(RecordAll(d, user, words, n - 1), user, words[n - 1], NextToken(words, n - 1), PrevToken(words, n - 1), w);
    }
  }

  /** After `n` tokens the user's word set holds exactly the old words and the
      first `n` tokens, and has grown by at most `n`. */
  lemma {:induction false} RecordAllWords(d: Db, user: string, words: seq<string>, n: nat, x: string)
    requires n <= |words|
    ensures x in Members(RecordAll(d, user, words, n), WordsKey(user)) <==>
            x in Members(d, WordsKey(user)) || x in words[..n]
    ensures Card(RecordAll(d, user, words, n), WordsKey(user)) <= Card(d, WordsKey(user)) + n
  {
    if n > 0 {
      RecordAllWords(d, user, words, n - 1, x);
      assert words[..n] == words[..n - 1] + [words[n - 1]];
      RecordWords(RecordAll(d, user, words, n - 1), user, words[n - 1], NextToken(words, n - 1), PrevToken(words, n - 1));
    }
  }

  /** An accepted `train` adds exactly the tokens to the user's word set,
      raises each word's count by its number of occurrences among the tokens,
      and leaves the word-set size strictly below `limit`. */
  lemma TrainAccepted(d: Db, user: string, words: seq<string>, limit: int)
    requires Accepts(d, user, words, limit)
    ensures var d' := TrainStore(d, user, words, limit);
            && (forall x :: x in Members(d', WordsKey(user)) <==> x in Members(d, WordsKey(user)) || x in words)
            && (forall w :: Value(d', CountKey(user, w)) == Value(d, CountKey(user, w)) + multiset(words)[w])
            && Card(d', WordsKey(user)) < limit
  {
    var d' := TrainStore(d, user, words, limit);
    assert words[..|words|] == words;
    forall x ensures x in Members(d', WordsKey(user)) <==> x in Members(d, WordsKey(user)) || x in words {
      RecordAllWords(d, user, words, |words|, x);
    }
    RecordAllWords(d, user, words, |words|, "");
    forall w ensures Value(d', CountKey(user, w)) == Value(d, CountKey(user, w)) + multiset(words)[w] {
      RecordAllCount(d, user, words, |words|, w);
      OccurrencesMultiset(words, w);
    }
  }

  /** The loop changes nothing but keys of `user` about the tokens and the
      user's word set. */
  lemma {:induction false} RecordAllFrame(d: Db, user: string, words: seq<string>, n: nat, k: StoreKey)
    requires n <= |words|
    requires k.user != user || (!k.WordsKey? && k.word !in words)
    ensures var r := RecordAll(d, user, words, n);
            Members(r, k) == Members(d, k) && Value(r, k) == Value(d, k) && Hash(r, k) == Hash(d, k)
  {
    if n > 0 {
      RecordAllFrame(d, user, words, n - 1, k);
      RecordFrame(RecordAll(d, user, words, n - 1), user, words[n - 1], NextToken(words, n - 1), PrevToken(words, n - 1), k);
    }
  }

  /** `train` touches no other user's keys, and of its own user's keys only
      the word set and the statistics of the tokens. */
  lemma TrainFrame(d: Db, user: string, words: seq<string>, limit: int, k: StoreKey)
    requires k.user != user || (!k.WordsKey? && k.word !in words)
    ensures var d' := TrainStore(d, user, words, limit);
            Members(d', k) == Members(d, k) && Value(d', k) == Value(d, k) && Hash(d', k) == Hash(d, k)
  {
    if Accepts(d, user, words, limit) {
      RecordAllFrame(d, user, words, |words|, k);
    }
  }

  /** Sets only grow while the loop runs. */
  lemma {:induction false} RecordAllGrows(d: Db, user: string, words: seq<string>, m: nat, n: nat, k: StoreKey, x: string)
    requires m <= n <= |words|
    requires x in Members(RecordAll(d, user, words, m), k)
    ensures x in Members(RecordAll(d, user, words, n), k)
    decreases n
  {
    if m < n {
      var before := RecordAll(d, user, words, n - 1);
      RecordAllGrows(d, user, words, m, n - 1, k, x);
      assert x in Members(before, k);
      assert RecordAll(d, user, words, n) == Record(before, user, words[n - 1], NextToken(words, n - 1), PrevToken(words, n - 1));
      RecordSets(before, user, words[n - 1], NextToken(words, n - 1), PrevToken(words, n - 1), k);
    }
  }

  /** An accepted `train` records every token's follower in its next set and
      its predecessor in its prev set, "" after the last token and before the
      first. */
  lemma TrainRecordsNeighbours(d: Db, user: string, words: seq<string>, limit: int, i: nat)
    requires Accepts(d, user, words, limit) && i < |words|
    ensures var d' := TrainStore(d, user, words, limit);
            && NextToken(words, i) in Members(d', NextKey(user, words[i]))
            && PrevToken(words, i) in Members(d', PrevKey(user, words[i]))
  {
    var before := RecordAll(d, user, words, i);
    RecordNeighbours(before, user, words[i], NextToken(words, i), PrevToken(words, i));
    assert RecordAll(d, user, words, i + 1) == Record(before, user, words[i], NextToken(words, i), PrevToken(words, i));
    RecordAllGrows(d, user, words, i + 1, |words|, NextKey(user, words[i]), NextToken(words, i));
    RecordAllGrows(d, user, words, i + 1, |words|, PrevKey(user, words[i]), PrevToken(words, i));
  }

  /** The store after a history of `train` calls, each a user and the tokens
      of one text, in order. */
  function TrainAll(d: Db, batches: seq<(string, seq<string>)>, limit: int): Db
    decreases |batches|
  {
    if batches == [] then d
    else TrainAll(TrainStore(d, batches[0].0, batches[0].1, limit), batches[1..], limit)
  }

  /** A user's word set is empty or below `limit`. */
  predicate WithinCapacity(d: Db, u: string, limit: int) {
    Card(d, WordsKey(u)) == 0 || Card(d, WordsKey(u)) < limit
  }

  /** Every `train` keeps every user's word set within capacity. */
  lemma TrainWithinCapacity(d: Db, user: string, words: seq<string>, limit: int, u: string)
    requires WithinCapacity(d, u, limit)
    ensures WithinCapacity(TrainStore(d, user, words, limit), u, limit)
  {
    if Accepts(d, user, words, limit) {
      if u == user {
        TrainAccepted(d, user, words, limit);
      } else {
        TrainFrame(d, user, words, limit, WordsKey(u));
      }
    }
  }

  /** Consistency and capacity hold along every history of `train` calls. */
  lemma {:induction false} TrainAllInvariant(d: Db, batches: seq<(string, seq<string>)>, limit: int, u: string)
    requires Consistent(d) && WithinCapacity(d, u, limit)
    ensures Consistent(TrainAll(d, batches, limit)) && WithinCapacity(TrainAll(d, batches, limit), u, limit)
    decreases |batches|
  {
    if batches != [] {
      TrainConsistent(d, batches[0].0, batches[0].1, limit);
      TrainWithinCapacity(d, batches[0].0, batches[0].1, limit, u);
      TrainAllInvariant(TrainStore(d, batches[0].0, batches[0].1, limit), batches[1..], limit, u);
    }
  }

  /** After any history of `train` calls on an empty store, every word's count
      is the sum of its next counts and of its prev counts, its next and prev
      sets are the keys of those hashes, and every user's word set is empty or
      below `limit`. */
  lemma TrainHistory(batches: seq<(string, seq<string>)>, limit: int, u: string)
    ensures Consistent(TrainAll(EmptyDb, batches, limit))
    ensures WithinCapacity(TrainAll(EmptyDb, batches, limit), u, limit)
  {
    EmptyConsistent();
    TrainAllInvariant(EmptyDb, batches, limit, u);
  }
}
