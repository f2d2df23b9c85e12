# Single-word Markov engine — a Dafny model

This project models the `Markov` class of `markov.js`, the text engine of a
chat bot that learns how each user talks and answers in their style. It
covers:

- **Tokenizer** (`tokenizer.dfy`). `wordsFromText` lower-cases the text unless
  `caseSensitive` is set. With `stripPunctuation` it removes every character
  outside `[A-Za-z0-9 ]` (`clean`). It then splits on whitespace runs. The
  space-join that `fill` applies to its result is modelled here too.
- **Store** (`store.dfy`). The keys `key` builds are a `StoreKey` datatype,
  and `KeyString` gives the flat `user:word:kind` string. The Redis brain is
  an in-memory `Brain` class: sets, counters and hashes that its commands
  update in place. The invariant `Consistent` is what training keeps. A word's
  count equals the sum of its next-count hash and the sum of its prev-count
  hash, and its next and prev sets are exactly the keys of those hashes.
- **Trainer** (`trainer.dfy`). `train` issues six updates per token. It
  refuses the whole text when the user's word set is not below
  `limit - tokens`.
- **Selection rule** (`sampler.dfy`). `randomWord` is a noisy argmax, and a
  favoured candidate has its sample doubled.
- **Walk** (`walk.dfy`, `engine.dfy`). `pickWord`, `search`, `next` and `prev`
  build the candidate lists from the store. `fill` first prepends
  predecessors, then appends followers of the seed. `respond` is search, then
  fill, with 25 words when no limit is given.

Randomness is an input. Each `randomWord` call receives one sample per
candidate. A `Draw` gives the sample for a candidate word and its stored
count, and stands for `Math.random() * computeWeight(count)`. `fill` receives
one `Draw` per round of each phase.

`markov.js` works on single words: it has no multi-word grams, no
part-of-speech favouring and no quote handling, and neither does the model.

Two defects of the code are recorded under "## Findings": `fill` can return
one word more than its limit, and the favour lookup also doubles candidates
named after inherited object properties such as "constructor". The members
marked "corrected" below model the evidently intended behaviour. The members
whose names end in `AsWritten`, and those named in the "as-written" column of
that table, model the code as it stands.

## Model

| member | source | states |
|---|---|---|
| Tokenizer.ToLowerCase | markov.js:52-54 | The result keeps the length and holds no upper-case letter. Each upper-case letter becomes its lower-case letter (the code 32 above it), so "The" and "the" give the same text. Characters that are not upper-case are unchanged, and text without upper case comes back unchanged. |
| Tokenizer.Clean | markov.js:192-194 | Every kept character is a letter, a digit or a space taken from the input. Every such input character survives, and a string with nothing to remove comes back unchanged. Order and multiplicity are pinned down by Tokenizer.CleanChar and Tokenizer.CleanAppend. |
| Tokenizer.CleanChar | markov.js:192-194 | A single character is kept exactly when it is a letter, a digit or a space, and removed otherwise. |
| Tokenizer.CleanAppend | markov.js:192-194 | Cleaning a concatenation gives the concatenation of the cleaned parts, so the kept characters stay in order and keep their number. |
| Tokenizer.Split | markov.js:60 | The result has at least one piece, and its first piece is non-empty when the text does not start with whitespace. |
| Tokenizer.SplitWellFormed | markov.js:60 | No piece of a split holds whitespace, and only the first and the last piece can be empty. |
| Tokenizer.SplitChars | markov.js:60 | Every piece's characters come from the input. |
| Tokenizer.Join | markov.js:174 | The result holds only spaces and characters of the words, and it starts with the first word. |
| Tokenizer.WordsFromText | markov.js:49-61 | The result has at least one token (possibly ""), and no token contains whitespace. With `stripPunctuation`, every token character is an ASCII letter or digit. Without `caseSensitive`, no token holds an upper-case letter. |
| Tokenizer.SplitJoin | markov.js:60 | Splitting the space-join of any well-formed token list gives the list back. |
| Tokenizer.TokenizeIdempotent | markov.js:49-61 | Tokenizing the joined tokens of any text gives the same tokens again. |
| Store.Key | markov.js:207-209 | Defines `key`: the parts joined with ':'. Its properties are in Store.KeyRoundTrip, Store.KeyStringInjective and Store.KeyCollision. |
| Store.KeyString | markov.js:207-209 | Defines the flat string of each of the six kinds of key the engine builds, such as `key(userId, word, 'next', 'counts')`. |
| Store.KeyRoundTrip | markov.js:207-209 | The flat key `key` builds parses back to the structured key whenever the word holds no ':'. |
| Store.KeyStringInjective | markov.js:207-209 | Two keys whose words hold no ':' never share a flat key. |
| Store.KeyCollision | markov.js:207-209 | With a ':' inside the parts, the count key of user "a:b" for "c" is the same string as the count key of user "a" for "b:c". |
| Store.WithMemberSpec | markov.js:30-35 | SADD: the set at the key gains exactly the member and grows by at most one. A duplicate-free set stays duplicate-free. Every other set, and all counters and hashes, are unchanged. |
| Store.WithIncrementSpec | markov.js:31 | INCRBY: the counter at the key rises by the amount (a missing counter reads as 0). Nothing else changes. |
| Store.WithFieldIncrementSpec | markov.js:32-34 | HINCRBY: the field at the key rises by the amount (a missing field reads as 0). Every other hash, and all sets and counters, are unchanged. |
| Store.ExecAllFrame | markov.js:30-35 | A batch of commands none of which names a key leaves that key's set, counter and hash as they were. |
| Store.ExecAllSingle | markov.js:30-35 | When only one command of a batch names a key, the batch leaves under that key what that command alone would leave. |
| Store.SumIncrement | markov.js:32-34 | Raising one field of a hash by one raises the hash's sum by one. |
| Store.HashOccurrence | markov.js:32-35 | HINCRBY by one on a hash of positive entries, with SADD of the same field to the matching set, raises the sum by one and keeps the entries positive and the fields equal to the set's members. |
| Store.ConsistentAtOccurrence | markov.js:31-35 | One more occurrence of a word, with its count, both hashes and both sets updated, keeps that word's statistics consistent. |
| Store.EmptyConsistent | markov.js:24-36 | An empty store satisfies the count-conservation invariant. |
| Store.Brain.SAdd | markov.js:30 | The new state is SADD of the member on the old state (Store.WithMemberSpec). |
| Store.Brain.IncrBy | markov.js:31 | The new state is INCRBY on the old state (Store.WithIncrementSpec). |
| Store.Brain.HIncrBy | markov.js:32 | The new state is HINCRBY of the field on the old state (Store.WithFieldIncrementSpec). |
| Store.Brain.SCard | markov.js:17 | SCARD returns the size of the set at the key, 0 for a missing key. |
| Store.Brain.SMembers | markov.js:93 | SMEMBERS returns the members of the set at the key, none for a missing key. |
| Store.Brain.Get | markov.js:102 | GET returns the counter at the key, 0 for a missing key. |
| Store.Brain.HGet | markov.js:115 | HGET returns the field of the hash at the key, 0 for a missing hash or field. |
| Trainer.Accepts | markov.js:24 | Defines the capacity check: the user's word-set size is below `limit` minus the number of tokens. |
| Trainer.RecordAll | markov.js:25-36 | Defines the store after the loop body has run for the first `n` tokens, with "" as the missing neighbour at either end. |
| Trainer.TrainStore | markov.js:17-41 | Defines `train` on tokens: all of the updates when the check accepts, none when it refuses. Its properties are in Trainer.TrainAccepted, Trainer.TrainRefused, Trainer.TrainFrame and Trainer.TrainConsistent. |
| Trainer.RecordSteps | markov.js:30-35 | The six commands for one token give the store that the six updates produce one after another. |
| Trainer.RecordWords | markov.js:30 | After one token the user's word set holds exactly its old words and the token, and has grown by at most one. |
| Trainer.RecordCounts | markov.js:31-34 | After one token its count has risen by one. Its next hash has gained one at the follower and its prev hash one at the predecessor. |
| Trainer.RecordNeighbours | markov.js:33-35 | After one token its next set has gained exactly the follower and its prev set exactly the predecessor. |
| Trainer.RecordSets | markov.js:30-35 | One token's updates never give a set a duplicate member and never remove a member. |
| Trainer.RecordFrame | markov.js:30-35 | One token's updates leave every key outside that token's six keys unchanged. |
| Trainer.RecordConsistentOwn | markov.js:31-35 | One token's updates keep its own count equal to both hash sums and its sets equal to the hash keys. |
| Trainer.RecordConsistentOther | markov.js:30-35 | One token's updates keep every other word's statistics consistent. |
| Trainer.RecordConsistent | markov.js:30-35 | One token's updates preserve the store invariant. |
| Trainer.RecordAllConsistent | markov.js:25-36 | Every prefix of the training loop preserves the store invariant. |
| Trainer.TrainConsistent | markov.js:17-41 | Every `train`, accepted or refused, preserves count conservation and the agreement of sets and hash keys. |
| Trainer.RecordAllCount | markov.js:25-31 | After the first `n` tokens, each count has risen by the word's number of occurrences among them. |
| Trainer.RecordAllWords | markov.js:25-30 | After the first `n` tokens, the word set holds exactly the old words and those tokens, and has grown by at most `n`. |
| Trainer.TrainAccepted | markov.js:24-31 | An accepted `train` adds exactly the tokens to the word set and raises each count by the word's occurrences. It leaves the word-set size strictly below `limit`. |
| Trainer.RecordAllFrame | markov.js:25-36 | The loop leaves other users' keys unchanged, and likewise the statistics of words that are not tokens. |
| Trainer.TrainRefused | markov.js:24-39 | A `train` refused by the capacity check leaves the store exactly as it was. |
| Trainer.TrainFrame | markov.js:17-41 | `train` touches no other user's keys, and none of its own user's keys about words that are not tokens. |
| Trainer.RecordAllGrows | markov.js:25-36 | Sets never lose a member while the loop runs. |
| Trainer.TrainRecordsNeighbours | markov.js:27-35 | After an accepted `train`, every token's follower is in its next set and its predecessor in its prev set. "" stands for the follower of the last token and the predecessor of the first. |
| Trainer.TrainWithinCapacity | markov.js:24 | Every `train` keeps each user's word set either empty or below `limit`. |
| Trainer.TrainAllInvariant | markov.js:12-41 | Consistency and capacity hold after any sequence of `train` calls on a store that has them. |
| Trainer.TrainHistory | markov.js:12-41 | After any sequence of `train` calls on an empty store, counts equal both hash sums, the sets equal the hash keys, and every word set is empty or below `limit`. |
| Sampler.MapObject | markov.js:197-205 | The table's keys are exactly the list's values. |
| Sampler.Leader | markov.js:76-86 | The reduce's `memo` after `n` candidates is empty or one of those candidates. |
| Sampler.RandomPick | markov.js:68-87 | `randomWord`'s result (corrected favour lookup) is one of the candidates or nothing, and nothing for no candidates. |
| Sampler.LeaderIsEarliestMax | markov.js:71-86 | The reduce holds nothing exactly when no boosted sample is positive. Otherwise it holds the earliest candidate with the largest boosted sample, and that sample is positive. |
| Sampler.RandomPickSpec | markov.js:68-87 | `randomWord` returns `null` exactly when no boosted sample is positive, so always for an empty list. Otherwise it returns a list element: the earliest one with the largest boosted sample. |
| Sampler.SinglePositive | markov.js:76-86 | The only candidate with a positive boosted sample is the one chosen. |
| Sampler.FavourKeepsWinner | markov.js:74-78 | Favouring the chosen word keeps it chosen. |
| Sampler.RandomWord | markov.js:68-87 | Corrected favour lookup (only the listed words are doubled). The loop with its running `maxSample` returns the fold's result: `null` exactly when no boosted sample is positive, otherwise the earliest largest one. |
| Sampler.FavouredAsWritten | markov.js:74-78 | As written, the favour lookup treats the listed words and also "constructor" (and the other inherited names) as favoured. |
| Sampler.InheritedNameIsFavoured | markov.js:74-78 | With no favour words, the candidate "constructor" is doubled as written and beats "cat", which has the larger sample. The intended rule picks "cat". |
| Walk.Intersection | markov.js:95 | `_.intersection` keeps exactly the words of the first list that occur in the second. |
| Walk.FieldsOfAt | markov.js:110-133 | The counts read for the candidates are the HGET of each candidate, in order. |
| Walk.CountsOfAt | markov.js:101-103 | The counts read for the stored words are the GET of each word's count, in order. |
| Walk.Successor | markov.js:110-120 | `next` (corrected favour lookup) yields a recorded follower of the word or nothing. |
| Walk.Predecessor | markov.js:123-133 | `prev` (corrected favour lookup) yields a recorded predecessor of the word or nothing. |
| Walk.PickSpec | markov.js:90-107 | `pickWord` (corrected favour lookup) yields one of the user's stored words or nothing. |
| Walk.SuccessorSpec | markov.js:110-120 | Corrected favour lookup (no candidate is doubled). `next` yields nothing exactly when no follower has a positive sample, so always for a word with no recorded follower. Otherwise it yields a recorded follower. |
| Walk.PredecessorSpec | markov.js:123-133 | Corrected favour lookup (no candidate is doubled). `prev` yields nothing exactly when no predecessor has a positive sample. Otherwise it yields a recorded predecessor. |
| Walk.PickSpecProps | markov.js:90-107 | Corrected favour lookup. `pickWord` yields a stored word or nothing, and always nothing for a user with no stored words. The favoured words are exactly the stored words that occur in `favorWords`. |
| Walk.Backward | markov.js:151-163 | The backward phase adds at most `limit - len` words and never an empty word. |
| Walk.BackwardFrom | markov.js:151-158 | Once a round has picked, the backward phase still adds at most `limit - len` words and never an empty word. |
| Walk.Forward | markov.js:165-177 | The forward phase adds at most `limit - len` words (at most one once the response has reached `limit`), and never an empty word. |
| Walk.ForwardFrom | markov.js:165-172 | Once a round has picked, the forward phase still adds at most `limit - len` words (at most one at the limit) and never an empty word. |
| Walk.BackwardRound | markov.js:151-158 | One round of the backward phase: a picked word is prepended and the phase goes on from it below `limit`; a missing or empty pick ends the phase. |
| Walk.ForwardRound | markov.js:165-172 | One round of the forward phase: a picked word is appended and the phase goes on from it below `limit`; a missing or empty pick ends the phase. |
| Walk.BackwardChain | markov.js:151-158 | Each word the backward phase prepends is in the prev set of its right neighbour. |
| Walk.ForwardChain | markov.js:165-172 | Each word the forward phase appends is in the next set of its left neighbour. |
| Walk.FillAsWritten | markov.js:136-180 | `fill` as written returns at most `limit + 1` words. |
| Walk.FillWords | markov.js:136-180 | Corrected `fill` (the forward phase runs only below `limit`): it returns no words exactly for an empty seed, and the seed alone when `limit` is one or less. Otherwise it returns at most `limit` words and never an empty word. |
| Walk.FillShape | markov.js:148-179 | In the corrected `fill`, the seed sits at some position. Every word before it is in the prev set of its right neighbour, and every word after it is in the next set of its left neighbour. |
| Walk.FillAgreesWithinLimit | markov.js:144-177 | Whenever `fill` as written stays within `limit`, it agrees with the corrected `fill`. It never exceeds `limit` by more than one word. |
| Walk.FillOverrun | markov.js:153-170 | As written, with `limit` 2 and a seed that has a predecessor and a follower, `fill` returns three words; the corrected `fill` returns two. |
| Walk.OneSentenceNeighbours | markov.js:24-35 | In the store `train` builds from "a b c" on an empty store, "b" has exactly the predecessor "a" and the follower "c". |
| Walk.FillOverrunExample | markov.js:136-180 | In the store `train` builds from "a b c", with every sample 1.0, `fill("b", 2)` as written gives the three words "a b c". |
| Walk.ResponseWords | markov.js:183-189 | Corrected `respond` (search, then the corrected `fill`): it gives at most 25 words for a zero limit, and at most `limit` words for a positive one. It gives none for a user with no stored words, and never an empty word. |
| Walk.ResponseAsWritten | markov.js:183-189 | `respond` as written (search, then `fill` as written) gives at most 26 words for a zero limit and at most `limit + 1` for a positive one, and none for a user with no stored words. |
| Walk.ResponseAgreesWithinLimit | markov.js:183-189 | Whenever `respond` as written stays within the limit it fills to, it equals the corrected `respond`. |
| Engine.Markov.constructor | markov.js:4-9 | The engine keeps its brain, its two tokenizer flags and its word-set capacity `limit`. |
| Engine.Markov.Train | markov.js:12-41 | The new store is the refusal-or-apply result of the training loop on the tokens, and the store invariant is preserved. |
| Engine.Markov.PickWord | markov.js:90-107 | Corrected favour lookup. Reading the words and their counts, then calling `randomWord`, yields `pickWord`'s specified pick, which is a stored word when present. |
| Engine.Markov.Search | markov.js:64-66 | Corrected favour lookup. `search` picks a stored word, favouring the text's own tokens. |
| Engine.Markov.Next | markov.js:110-120 | Corrected favour lookup. The loop of HGETs and `randomWord` yields the specified follower, which is a recorded follower when present. |
| Engine.Markov.Prev | markov.js:123-133 | Corrected favour lookup. The loop of HGETs and `randomWord` yields the specified predecessor, which is a recorded predecessor when present. |
| Engine.Markov.Previous | markov.js:151-163 | The unshift loop produces the backward phase's words followed by the seed. |
| Engine.Markov.Following | markov.js:165-177 | The push loop produces the forward phase's words after the given response. |
| Engine.Markov.Fill | markov.js:136-180 | The response is the corrected `fill`: within `limit` words, holding the seed, and free of empty words. |
| Engine.Markov.Respond | markov.js:183-189 | Corrected `respond`: the response is search followed by the corrected fill, with limit 25 for a zero limit. It is empty for a user with no stored words. |

## Left out

- `computeWeight` (`Math.log(count) + 1`) and `Math.random()` are floating point and randomness. The product for each candidate is an input sample, a `Draw`, and any real value is allowed. A missing count, which the code would send into `Math.log(null)`, is read as 0 and left to the draw.
- The Redis brain, its promises and `Q.all` are replaced by the in-memory `Brain`. The updates of one `train` are applied in order. The capacity check and the updates are not atomic in the code: two concurrent `train` calls can both pass the check, and the model does not capture that.
- Redis returns set members in no fixed order. The model returns them in insertion order, and the choice among candidates with equal samples depends on that order.
- `Buffer` input to `train` is not modelled. Neither is `toString` on non-strings.
- Lower-casing covers ASCII letters only. JavaScript's Unicode `toLowerCase` is not modelled.
- Walk.FillWords and Engine.Markov.Fill require a non-zero limit. A falsy limit means no bound in the code, and the walk can then cycle forever. `respond`, the only caller shown, always passes a non-zero limit.
- Engine.Markov.Train: a `limit` that is undefined makes the comparison false, so every train is refused. The model takes `limit` as an integer.
- `fill` returns an array for the empty-seed and seed-only cases and a joined string otherwise. The model always returns the word list. Tokenizer.Join is the join.
- The store is keyed by `StoreKey`, not by the flat strings `key` builds. As Store.KeyCollision shows, flat keys collide when a word holds ':'. That can only happen without `stripPunctuation`, and the model does not follow such collisions.
- `index.js` (the chat-command glue) and `wiki.js` (fetching quotes over HTTPS) are not part of this model.

## Findings

| source | as written | input that shows it | evidently intended | confidence | as-written member | corrected member |
|---|---|---|---|---|---|---|
| markov.js:156-170 | When the backward phase stops because the response has reached `limit`, the forward phase still asks `next` once and pushes the follower, so `fill` returns `limit + 1` words | `fill("b", 2)` on a store where "b" was seen once between "a" and "c", every sample positive: the result is "a b c" | at most `limit` words, as the comment on `fill` says | high, not executed | Walk.FillOverrunExample | Walk.FillWords |
| markov.js:74-78 | The favour table is a plain object, so `favorWordsTable[word]` is truthy for inherited names such as "constructor", and those candidates have their sample doubled even when no word is favoured (also in `next` and `prev`) | candidates "constructor" and "cat" with samples 0.6 and 1.0 and no favour words: "constructor" is picked | only the listed favour words are doubled, so "cat" is picked | high, not executed | Sampler.InheritedNameIsFavoured | Sampler.RandomWord |
