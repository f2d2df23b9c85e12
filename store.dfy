/** The statistics store: the keys `key` builds, the in-memory stand-in for the
    Redis brain (sets, integers and hashes under those keys), and the
    consistency the trainer keeps between a word's count and its neighbour hashes. */
module Store {
  import opened Options

  /** `key(parts...)`: the parts joined with ':'. */
  function Key(parts: seq<string>): string {
    if |parts| == 0 then ""
    else if |parts| == 1 then parts[0]
    else Key(parts[..|parts| - 1]) + ":" + parts[|parts| - 1]
  }

  /** The six kinds of key the engine builds for a user. */
  datatype StoreKey =
    | WordsKey(user: string)                   // key(userId, 'words'): the user's word set
    | CountKey(user: string, word: string)     // key(userId, word, 'count')
    | NextKey(user: string, word: string)      // key(userId, word, 'next'): follower set
    | NextCountsKey(user: string, word: string) // key(userId, word, 'next', 'counts')
    | PrevKey(user: string, word: string)      // key(userId, word, 'prev'): predecessor set
    | PrevCountsKey(user: string, word: string) // key(userId, word, 'prev', 'counts')

  /** The flat string under which Redis stores `k`. */
  function KeyString(k: StoreKey): string {
    match k
    case WordsKey(u) => Key([u, "words"])
    case CountKey(u, w) => Key([u, w, "count"])
    case NextKey(u, w) => Key([u, w, "next"])
    case NextCountsKey(u, w) => Key([u, w, "next", "counts"])
    case PrevKey(u, w) => Key([u, w, "prev"])
    case PrevCountsKey(u, w) => Key([u, w, "prev", "counts"])
  }

  /** The word a key is about ("" for the word-set key). */
  function WordOf(k: StoreKey): string {
    if k.WordsKey? then "" else k.word
  }

  /** Splits `s` at its last ':' into the text before and the text after it. */
  function SplitLast(s: string): (r: Option<(string, string)>)
    ensures r.Some? ==> ':' !in r.value.1
  {
    if s == [] then None
    else if s[|s| - 1] == ':' then Some((s[..|s| - 1], ""))
    else match SplitLast(s[..|s| - 1])
      case None => None
      case Some((before, after)) => Some((before, after + [s[|s| - 1]]))
  }

  /** Reads a flat key back into the structured key it was built from. */
  function ParseKey(s: string): Option<StoreKey> {
    match SplitLast(s)
    case None => None
    case Some((rest, kind)) =>
      if kind == "words" then Some(WordsKey(rest))
      else if kind == "count" || kind == "next" || kind == "prev" then
        match SplitLast(rest)
        case None => None
        case Some((u, w)) =>
          Some(if kind == "count" then CountKey(u, w) else if kind == "next" then NextKey(u, w) else PrevKey(u, w))
      else if kind == "counts" then
        match SplitLast(rest)
        case None => None
        case Some((rest', dir)) =>
          if dir != "next" && dir != "prev" then None
          else match SplitLast(rest')
            case None => None
            case Some((u, w)) => Some(if dir == "next" then NextCountsKey(u, w) else PrevCountsKey(u, w))
      else None
  }

  /** The last ':' of `a + ":" + b` is the one in front of `b` when `b` has none. */
  lemma {:induction false} SplitLastJoin(a: string, b: string)
    requires ':' !in b
    ensures SplitLast(a + ":" + b) == Some((a, b))
    decreases |b|
  {
    var s := a + ":" + b;
    if b == [] {
      assert s[..|s| - 1] == a;
    } else {
      var b' := b[..|b| - 1];
      assert s[..|s| - 1] == a + ":" + b';
      SplitLastJoin(a, b');
      assert b' + [s[|s| - 1]] == b;
    }
  }

  /** `key` of two, three and four parts, written out. */
  lemma KeyOfParts(a: string, b: string, c: string, e: string)
    ensures Key([a, b]) == a + ":" + b
    ensures Key([a, b, c]) == a + ":" + b + ":" + c
    ensures Key([a, b, c, e]) == a + ":" + b + ":" + c + ":" + e
  {
    assert [a, b][..1] == [a];
    assert [a, b, c][..2] == [a, b];
    assert [a, b, c, e][..3] == [a, b, c];
  }

  /** The flat key loses nothing when the word holds no ':' (the user may hold any). */
  lemma KeyRoundTrip(k: StoreKey)
    requires ':' !in WordOf(k)
    ensures ParseKey(KeyString(k)) == Some(k)
  {
    if k.WordsKey? {
      KeyOfParts(k.user, "words", "", "");
      SplitLastJoin(k.user, "words");
    } else if k.CountKey? || k.NextKey? || k.PrevKey? {
      ThreePartRoundTrip(k);
    } else {
      FourPartRoundTrip(k);
    }
  }

  /** A flat key ending in ":count", ":next" or ":prev" after two more parts
      reads back as that word's key of the same kind. */
  lemma ParseWordKey(s: string, rest: string, kind: string, u: string, w: string)
    requires SplitLast(s) == Some((rest, kind)) && (kind == "count" || kind == "next" || kind == "prev")
    requires SplitLast(rest) == Some((u, w))
    ensures ParseKey(s) == Some(if kind == "count" then CountKey(u, w) else if kind == "next" then NextKey(u, w) else PrevKey(u, w))
  {
    assert kind != "words";
  }

  lemma ThreePartRoundTrip(k: StoreKey)
    requires k.CountKey? || k.NextKey? || k.PrevKey?
    requires ':' !in k.word
    ensures ParseKey(KeyString(k)) == Some(k)
  {
    var kind := if k.CountKey? then "count" else if k.NextKey? then "next" else "prev";
    var uw := k.user + ":" + k.word;
    assert KeyString(k) == Key([k.user, k.word, kind]);
    KeyOfParts(k.user, k.word, kind, "");
    assert ':' !in kind;
    SplitLastJoin(uw, kind);
    SplitLastJoin(k.user, k.word);
    ParseWordKey(KeyString(k), uw, kind, k.user, k.word);
  }

  /** A flat key ending in ":counts" after a direction and two more parts
      reads back as that word's counts key. */
  lemma ParseCountsKey(s: string, rest: string, rest': string, dir: string, u: string, w: string)
    requires SplitLast(s) == Some((rest, "counts"))
    requires SplitLast(rest) == Some((rest', dir)) && (dir == "next" || dir == "prev")
    requires SplitLast(rest') == Some((u, w))
    ensures ParseKey(s) == Some(if dir == "next" then NextCountsKey(u, w) else PrevCountsKey(u, w))
  {
    assert "counts" != "words" && "counts" != "count" && "counts" != "next" && "counts" != "prev";
  }

  lemma FourPartRoundTrip(k: StoreKey)
    requires k.NextCountsKey? || k.PrevCountsKey?
    requires ':' !in k.word
    ensures ParseKey(KeyString(k)) == Some(k)
  {
    var dir := if k.NextCountsKey? then "next" else "prev";
    var uw := k.user + ":" + k.word;
    var uwd := uw + ":" + dir;
    assert KeyString(k) == Key([k.user, k.word, dir, "counts"]);
    KeyOfParts(k.user, k.word, dir, "counts");
    assert ':' !in dir && ':' !in "counts";
    SplitLastJoin(uwd, "counts");
    SplitLastJoin(uw, dir);
    SplitLastJoin(k.user, k.word);
    ParseCountsKey(KeyString(k), uwd, uw, dir, k.user, k.word);
  }

  /** Two structured keys whose words hold no ':' never share a flat key. */
  lemma KeyStringInjective(k1: StoreKey, k2: StoreKey)
    requires ':' !in WordOf(k1) && ':' !in WordOf(k2)
    ensures KeyString(k1) == KeyString(k2) ==> k1 == k2
  {
    KeyRoundTrip(k1);
    KeyRoundTrip(k2);
  }

  /** A word holding ':' makes two users share one count key. */
  lemma KeyCollision()
    ensures KeyString(CountKey("a:b", "c")) == KeyString(CountKey("a", "b:c"))
  {
    KeyOfParts("a:b", "c", "count", "");
    KeyOfParts("a", "b:c", "count", "");
  }

  /** The whole store: Redis sets (duplicate-free, in insertion order),
      integers and hashes, each under a structured key. */
  datatype Db = Db(sets: map<StoreKey, seq<string>>, ints: map<StoreKey, int>, hashes: map<StoreKey, map<string, int>>)

  const EmptyDb := Db(map[], map[], map[])

  /** SMEMBERS: the members of a set; a missing key is the empty set. */
  function Members(d: Db, k: StoreKey): seq<string> {
    if k in d.sets then d.sets[k] else []
  }

  /** SCARD. */
  function Card(d: Db, k: StoreKey): nat {
    |Members(d, k)|
  }

  /** GET of a counter; a missing key reads as 0. */
  function Value(d: Db, k: StoreKey): int {
    if k in d.ints then d.ints[k] else 0
  }

  /** A whole hash; a missing key is the empty hash. */
  function Hash(d: Db, k: StoreKey): map<string, int> {
    if k in d.hashes then d.hashes[k] else map[]
  }

  /** HGET; a missing field reads as 0. */
  function Field(d: Db, k: StoreKey, f: string): int {
    var h := Hash(d, k);
    if f in h then h[f] else 0
  }

  predicate NoDup(s: seq<string>) {
    forall i, j :: 0 <= i < j < |s| ==> s[i] != s[j]
  }

  /** SADD: `x` joins the set at `k` unless it is already there. */
  function WithMember(d: Db, k: StoreKey, x: string): Db {
    var s := Members(d, k);
    if x in s then d else d.(sets := d.sets[k := s + [x]])
  }

  /** INCRBY: the counter at `k` grows by `n`. */
  function WithIncrement(d: Db, k: StoreKey, n: int): Db {
    d.(ints := d.ints[k := Value(d, k) + n])
  }

  /** HINCRBY: field `f` of the hash at `k` grows by `n`. */
  function WithFieldIncrement(d: Db, k: StoreKey, f: string, n: int): Db {
    d.(hashes := d.hashes[k := Hash(d, k)[f := Field(d, k, f) + n]])
  }

  /** SADD adds exactly `x` to the set at `k`, which grows by at most one and
      stays duplicate-free; nothing else changes. */
  lemma WithMemberSpec(d: Db, k: StoreKey, x: string)
    ensures var r := WithMember(d, k, x);
            && (forall y :: y in Members(r, k) <==> y in Members(d, k) || y == x)
            && |Members(r, k)| <= |Members(d, k)| + 1
            && (NoDup(Members(d, k)) ==> NoDup(Members(r, k)))
            && (forall k' :: k' != k ==> Members(r, k') == Members(d, k'))
            && r.ints == d.ints && r.hashes == d.hashes
  {
  }

  /** INCRBY raises the counter at `k` by `n` (a missing counter reads as 0);
      nothing else changes. */
  lemma WithIncrementSpec(d: Db, k: StoreKey, n: int)
    ensures var r := WithIncrement(d, k, n);
            && Value(r, k) == Value(d, k) + n
            && (forall k' :: k' != k ==> Value(r, k') == Value(d, k'))
            && r.sets == d.sets && r.hashes == d.hashes
  {
  }

  /** HINCRBY raises field `f` of the hash at `k` by `n` (a missing field
      reads as 0); nothing else changes. */
  lemma WithFieldIncrementSpec(d: Db, k: StoreKey, f: string, n: int)
    ensures var r := WithFieldIncrement(d, k, f, n);
            && Hash(r, k) == Hash(d, k)[f := Field(d, k, f) + n]
            && (forall k' :: k' != k ==> Hash(r, k') == Hash(d, k'))
            && r.sets == d.sets && r.ints == d.ints
  {
  }

  /** The write commands the trainer issues to the brain. */
  datatype Command =
    | SAdd(key: StoreKey, member: string)
    | IncrBy(key: StoreKey, amount: int)
    | HIncrBy(key: StoreKey, field: string, amount: int)

  /** The store after one command. */
  function Exec(d: Db, c: Command): Db {
    match c
    case SAdd(k, x) => WithMember(d, k, x)
    case IncrBy(k, n) => WithIncrement(d, k, n)
    case HIncrBy(k, f, n) => WithFieldIncrement(d, k, f, n)
  }

  /** The store after a batch of commands, run in order. */
  function ExecAll(d: Db, cs: seq<Command>): Db
    decreases |cs|
  {
    if cs == [] then d else ExecAll(Exec(d, cs[0]), cs[1..])
  }

  /** `d` and `e` hold the same set, counter and hash under `k`. */
  predicate SameAt(d: Db, e: Db, k: StoreKey) {
    Members(d, k) == Members(e, k) && Value(d, k) == Value(e, k) && Hash(d, k) == Hash(e, k)
  }

  /** A command changes only what its own key holds. */
  lemma ExecFrame(d: Db, c: Command, k: StoreKey)
    requires c.key != k
    ensures SameAt(Exec(d, c), d, k)
  {
  }

  /** What a command leaves under its key depends only on what was there. */
  lemma ExecLocal(d: Db, e: Db, c: Command)
    requires SameAt(d, e, c.key)
    ensures SameAt(Exec(d, c), Exec(e, c), c.key)
  {
  }

  /** A batch of commands none of which names `k` leaves what `k` holds as it was. */
  lemma {:induction false} ExecAllFrame(d: Db, cs: seq<Command>, k: StoreKey)
    requires forall i :: 0 <= i < |cs| ==> cs[i].key != k
    ensures SameAt(ExecAll(d, cs), d, k)
    decreases |cs|
  {
    if cs != [] {
      ExecFrame(d, cs[0], k);
      ExecAllFrame(Exec(d, cs[0]), cs[1..], k);
    }
  }

  /** When only command `i` of a batch names `k`, the batch leaves under `k`
      what that command alone would leave. */
  lemma {:induction false} ExecAllSingle(d: Db, cs: seq<Command>, k: StoreKey, i: nat)
    requires i < |cs| && cs[i].key == k
    requires forall j :: 0 <= j < |cs| && j != i ==> cs[j].key != k
    ensures SameAt(ExecAll(d, cs), Exec(d, cs[i]), k)
    decreases |cs|
  {
    var d' := Exec(d, cs[0]);
    if i == 0 {
      ExecAllFrame(d', cs[1..], k);
    } else {
      ExecFrame(d, cs[0], k);
      ExecLocal(d', d, cs[i]);
      ExecAllSingle(d', cs[1..], k, i - 1);
    }
  }

  /** The sum of a hash's values. */
  ghost function Sum(m: map<string, int>): int
    decreases |m|
  {
    if m == map[] then 0
    else
      var f :| f in m;
      m[f] + Sum(m - {f})
  }

  /** Any field can be taken out of the sum first. */
  lemma {:induction false} SumRemove(m: map<string, int>, f: string)
    requires f in m
    ensures Sum(m) == m[f] + Sum(m - {f})
    decreases |m|
  {
    var g :| g in m && Sum(m) == m[g] + Sum(m - {g});
    if g != f {
      assert (m - {g}) - {f} == (m - {f}) - {g};
      SumRemove(m - {g}, f);
      SumRemove(m - {f}, g);
    }
  }

  /** A hash of positive entries has a non-negative sum. */
  lemma {:induction false} SumNonNegative(m: map<string, int>)
    requires forall x :: x in m ==> m[x] > 0
    ensures Sum(m) >= 0
    decreases |m|
  {
    if m != map[] {
      var f :| f in m;
      SumRemove(m, f);
      SumNonNegative(m - {f});
    }
  }

  /** HINCRBY by one raises the sum of the hash by one. */
  lemma SumIncrement(m: map<string, int>, f: string)
    ensures Sum(m[f := (if f in m then m[f] else 0) + 1]) == Sum(m) + 1
  {
    var m' := m[f := (if f in m then m[f] else 0) + 1];
    SumRemove(m', f);
    assert m' - {f} == m - {f};
    if f in m {
      SumRemove(m, f);
    } else {
      assert m - {f} == m;
    }
  }

  /** What a word's statistics keep between them: its count is the sum of its
      follower hash and of its predecessor hash, the follower and predecessor
      sets are exactly the keys of those hashes, every hash entry is positive,
      and the word is in the user's word set exactly when its count is positive. */
  ghost predicate ConsistentAt(d: Db, u: string, w: string) {
    var next := Hash(d, NextCountsKey(u, w));
    var prev := Hash(d, PrevCountsKey(u, w));
    && Value(d, CountKey(u, w)) == Sum(next)
    && Value(d, CountKey(u, w)) == Sum(prev)
    && (forall x :: x in next ==> next[x] > 0)
    && (forall x :: x in prev ==> prev[x] > 0)
    && (forall x :: x in Members(d, NextKey(u, w)) <==> x in next)
    && (forall x :: x in Members(d, PrevKey(u, w)) <==> x in prev)
    && (w in Members(d, WordsKey(u)) <==> Value(d, CountKey(u, w)) > 0)
  }

  /** HINCRBY by one on a hash of positive entries whose fields are the
      members of a set, together with SADD of the field to that set: the sum
      rises by one, the entries stay positive and the fields stay the members. */
  lemma HashOccurrence(m: map<string, int>, m': map<string, int>, f: string, s: seq<string>, s': seq<string>)
    requires forall x :: x in m ==> m[x] > 0
    requires forall x :: x in s <==> x in m
    requires m' == m[f := (if f in m then m[f] else 0) + 1]
    requires forall x :: x in s' <==> x in s || x == f
    ensures Sum(m') == Sum(m) + 1 && Sum(m) >= 0
    ensures forall x :: x in m' ==> m'[x] > 0
    ensures forall x :: x in s' <==> x in m'
  {
    SumIncrement(m, f);
    SumNonNegative(m);
  }

  /** One more occurrence of `w` between `prev` and `next` keeps the word's
      statistics consistent: the count and both hash sums rise by one, each
      neighbour joins its set and its hash, and `w` is a stored word. */
  lemma ConsistentAtOccurrence(d: Db, e: Db, u: string, w: string, next: string, prev: string)
    requires ConsistentAt(d, u, w)
    requires Value(e, CountKey(u, w)) == Value(d, CountKey(u, w)) + 1
    requires Hash(e, NextCountsKey(u, w)) == Hash(d, NextCountsKey(u, w))[next := Field(d, NextCountsKey(u, w), next) + 1]
    requires Hash(e, PrevCountsKey(u, w)) == Hash(d, PrevCountsKey(u, w))[prev := Field(d, PrevCountsKey(u, w), prev) + 1]
    requires forall x :: x in Members(e, NextKey(u, w)) <==> x in Members(d, NextKey(u, w)) || x == next
    requires forall x :: x in Members(e, PrevKey(u, w)) <==> x in Members(d, PrevKey(u, w)) || x == prev
    requires w in Members(e, WordsKey(u))
    ensures ConsistentAt(e, u, w)
  {
    HashOccurrence(Hash(d, NextCountsKey(u, w)), Hash(e, NextCountsKey(u, w)), next,
                   Members(d, NextKey(u, w)), Members(e, NextKey(u, w)));
    HashOccurrence(Hash(d, PrevCountsKey(u, w)), Hash(e, PrevCountsKey(u, w)), prev,
                   Members(d, PrevKey(u, w)), Members(e, PrevKey(u, w)));
  }

  /** Consistency at a word depends only on that word's own keys and on
      whether the word is in the user's word set. */
  lemma ConsistentAtFrame(d: Db, e: Db, u: string, w: string)
    requires ConsistentAt(d, u, w)
    requires Value(e, CountKey(u, w)) == Value(d, CountKey(u, w))
    requires Hash(e, NextCountsKey(u, w)) == Hash(d, NextCountsKey(u, w))
    requires Hash(e, PrevCountsKey(u, w)) == Hash(d, PrevCountsKey(u, w))
    requires Members(e, NextKey(u, w)) == Members(d, NextKey(u, w))
    requires Members(e, PrevKey(u, w)) == Members(d, PrevKey(u, w))
    requires w in Members(e, WordsKey(u)) <==> w in Members(d, WordsKey(u))
    ensures ConsistentAt(e, u, w)
  {
  }

  /** The store invariant: every word of every user is consistent and no set
      holds a member twice. */
  ghost predicate Consistent(d: Db) {
    && (forall u, w :: ConsistentAt(d, u, w))
    && (forall k :: NoDup(Members(d, k)))
  }

  lemma EmptyConsistent()
    ensures Consistent(EmptyDb)
  {
    forall u, w ensures ConsistentAt(EmptyDb, u, w) {
      assert Sum(map[]) == 0;
    }
  }

  /** The in-memory brain: the three Redis keyspaces as fields that its
      commands update in place. */
  class Brain {
    var sets: map<StoreKey, seq<string>>
    var ints: map<StoreKey, int>
    var hashes: map<StoreKey, map<string, int>>

    function State(): Db
      reads this
    {
      Db(sets, ints, hashes)
    }

    constructor ()
      ensures State() == EmptyDb
    {
      sets, ints, hashes := map[], map[], map[];
    }

    method SAdd(k: StoreKey, x: string)
      modifies this
      ensures State() == WithMember(old(State()), k, x)
    {
      var s := if k in sets then sets[k] else [];
      if x !in s {
        sets := sets[k := s + [x]];
      }
    }

    method IncrBy(k: StoreKey, n: int)
      modifies this
      ensures State() == WithIncrement(old(State()), k, n)
    {
      var v := if k in ints then ints[k] else 0;
      ints := ints[k := v + n];
    }

    method HIncrBy(k: StoreKey, f: string, n: int)
      modifies this
      ensures State() == WithFieldIncrement(old(State()), k, f, n)
    {
      var h := if k in hashes then hashes[k] else map[];
      var v := if f in h then h[f] else 0;
      hashes := hashes[k := h[f := v + n]];
    }

    method SCard(k: StoreKey) returns (n: nat)
      ensures n == Card(State(), k)
    {
      n := if k in sets then |sets[k]| else 0;
    }

    method SMembers(k: StoreKey) returns (s: seq<string>)
      ensures s == Members(State(), k)
    {
      s := if k in sets then sets[k] else [];
    }

    method Get(k: StoreKey) returns (v: int)
      ensures v == Value(State(), k)
    {
      v := if k in ints then ints[k] else 0;
    }

    method HGet(k: StoreKey, f: string) returns (v: int)
      ensures v == Field(State(), k, f)
    {
      var h := if k in hashes then hashes[k] else map[];
      v := if f in h then h[f] else 0;
    }
  }
}
