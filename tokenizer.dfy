/** The tokenizer of the single-word Markov engine: `wordsFromText` with its
    helper `clean`, and the space-join that turns a response into a sentence. */
module Tokenizer {

  /** The characters JavaScript's `\s` class matches. */
  predicate IsSpace(c: char) {
    || c == ' ' || c == '\t' || c == '\n' || c == '\U{000B}' || c == '\U{000C}' || c == '\r'
    || c == '\U{00A0}' || c == '\U{1680}' || ('\U{2000}' <= c <= '\U{200A}')
    || c == '\U{2028}' || c == '\U{2029}' || c == '\U{202F}' || c == '\U{205F}'
    || c == '\U{3000}' || c == '\U{FEFF}'
  }

  predicate IsUpper(c: char) { 'A' <= c <= 'Z' }

  predicate IsAlnum(c: char) { 'a' <= c <= 'z' || 'A' <= c <= 'Z' || '0' <= c <= '9' }

  /** What `clean` keeps: the class `[a-z\d ]` matched case-insensitively. */
  predicate IsKept(c: char) { IsAlnum(c) || c == ' ' }

  /** ASCII lower-casing of one character. */
  function LowerChar(c: char): (d: char)
    ensures !IsUpper(d)
    ensures !IsUpper(c) ==> d == c
    ensures IsUpper(c) ==> d as int == c as int + 32
    ensures IsAlnum(d) <==> IsAlnum(c)
  {
    if IsUpper(c) then (c as int + 32) as char else c
  }

  /** `text.toLowerCase()`, restricted to ASCII letters. */
  function ToLowerCase(s: string): (r: string)
    ensures |r| == |s|
    ensures forall c :: c in r ==> !IsUpper(c)
    ensures forall i :: 0 <= i < |s| && !IsUpper(s[i]) ==> r[i] == s[i]
    ensures forall i :: 0 <= i < |s| && IsUpper(s[i]) ==> r[i] as int == s[i] as int + 32
    ensures (forall c :: c in s ==> !IsUpper(c)) ==> r == s
  {
    if s == [] then [] else [LowerChar(s[0])] + ToLowerCase(s[1..])
  }

  /** `clean`: removes every character outside `[A-Za-z0-9 ]`, keeping the rest in order. */
  function Clean(s: string): (r: string)
    ensures |r| <= |s|
    ensures forall c :: c in r ==> IsKept(c) && c in s
    ensures forall c :: c in s && IsKept(c) ==> c in r
    ensures (forall c :: c in s ==> IsKept(c)) ==> r == s
  {
    if s == [] then []
    else (if IsKept(s[0]) then [s[0]] else []) + Clean(s[1..])
  }

  /** `clean` of one character: the character itself when kept, else nothing. */
  lemma CleanChar(c: char)
    ensures Clean([c]) == if IsKept(c) then [c] else []
  {
    assert [c][1..] == [];
  }

  /** `clean` of a non-empty text: its first character, when kept, then the
      cleaned rest. */
  lemma CleanFirst(s: string)
    requires s != []
    ensures Clean(s) == (if IsKept(s[0]) then [s[0]] else []) + Clean(s[1..])
  {
  }

  /** `clean` works character by character: cleaning a concatenation
      concatenates the cleaned parts, so the kept characters stay in order and
      each is kept as often as it occurs. */
  lemma {:induction false} CleanAppend(a: string, b: string)
    ensures Clean(a + b) == Clean(a) + Clean(b)
  {
    if a != [] {
      var ab := a + b;
      assert ab[0] == a[0] && ab[1..] == a[1..] + b;
      CleanAppend(a[1..], b);
      CleanFirst(a);
      CleanFirst(ab);
    } else {
      assert a + b == b;
    }
  }

  /** Drops the whitespace run at the front of `s`. */
  function DropSpaces(s: string): (r: string)
    ensures |r| <= |s| && r == s[|s| - |r|..]
    ensures forall c :: c in r ==> c in s
    ensures forall i :: 0 <= i < |s| - |r| ==> IsSpace(s[i])
    ensures r == [] || !IsSpace(r[0])
  {
    if s != [] && IsSpace(s[0]) then
      var r := DropSpaces(s[1..]);
      assert s[|s| - |r|..] == s[1..][|s| - 1 - |r|..];
      r
    else s
  }

  /** The shape of every result of `split(/\s+/)`: at least one piece, no piece
      holding whitespace, and only the first and the last piece possibly empty. */
  predicate WellFormed(ts: seq<string>) {
    && |ts| >= 1
    && (forall i, c :: 0 <= i < |ts| && c in ts[i] ==> !IsSpace(c))
    && (forall i :: 0 < i < |ts| - 1 ==> ts[i] != [])
  }

  /** `s.split(/\s+/)`: the pieces between whitespace runs; a leading or trailing
      run yields an empty piece at that end, and the empty string yields `[""]`. */
  function Split(s: string): (r: seq<string>)
    ensures |r| >= 1
    ensures s != [] && !IsSpace(s[0]) ==> r[0] != []
    decreases |s|
  {
    if s == [] then [""]
    else if IsSpace(s[0]) then [""] + Split(DropSpaces(s[1..]))
    else
      var rest := Split(s[1..]);
      [[s[0]] + rest[0]] + rest[1..]
  }

  /** Every character of `a` occurs in `s`. */
  predicate Within(a: string, s: string) {
    forall c :: c in a ==> c in s
  }

  /** The pieces of `ts` hold only characters of `s`. */
  predicate PiecesWithin(ts: seq<string>, s: string) {
    forall i :: 0 <= i < |ts| ==> Within(ts[i], s)
  }

  /** A split at a leading whitespace run: an empty piece, then the pieces
      of what follows the run. */
  lemma SplitAtSpace(s: string)
    requires s != [] && IsSpace(s[0])
    ensures Split(s) == [""] + Split(DropSpaces(s[1..]))
  {
  }

  /** A split at a leading non-space: the character joins the first piece of
      the rest. */
  lemma SplitAtWord(s: string)
    requires s != [] && !IsSpace(s[0])
    ensures Split(s) == [[s[0]] + Split(s[1..])[0]] + Split(s[1..])[1..]
  {
  }

  /** An empty piece in front keeps the pieces within a text that contains
      the old one. */
  lemma WithinAfterEmpty(rest: seq<string>, t: string, s: string)
    requires PiecesWithin(rest, t) && Within(t, s)
    ensures PiecesWithin([""] + rest, s)
  {
    forall i | 0 <= i < |[""] + rest| ensures Within(([""] + rest)[i], s) {
      if i > 0 {
        assert ([""] + rest)[i] == rest[i - 1];
        assert Within(rest[i - 1], t);
      }
    }
  }

  /** A character of `s` prepended to the first piece keeps the pieces within `s`. */
  lemma WithinAfterChar(rest: seq<string>, s: string)
    requires s != [] && |rest| >= 1 && PiecesWithin(rest, s[1..])
    ensures PiecesWithin([[s[0]] + rest[0]] + rest[1..], s)
  {
    var r := [[s[0]] + rest[0]] + rest[1..];
    forall i | 0 <= i < |r| ensures Within(r[i], s) {
      assert Within(rest[i], s[1..]);
      if i == 0 {
        forall c | c in r[0] ensures c in s {
          assert c == s[0] || c in rest[0];
        }
      } else {
        assert r[i] == rest[i];
      }
    }
  }

  /** The pieces of a split hold only characters of the text. */
  lemma {:induction false} SplitChars(s: string)
    ensures PiecesWithin(Split(s), s)
    decreases |s|
  {
    if s != [] {
      if IsSpace(s[0]) {
        var t := DropSpaces(s[1..]);
        SplitChars(t);
        SplitAtSpace(s);
        assert Within(t, s) by {
          forall c | c in t ensures c in s {
            assert c in s[1..];
          }
        }
        WithinAfterEmpty(Split(t), t, s);
      } else {
        SplitChars(s[1..]);
        SplitAtWord(s);
        WithinAfterChar(Split(s[1..]), s);
      }
    }
  }

  /** An empty piece in front of a well-formed list whose first piece is
      non-empty unless it is the only one is well-formed. */
  lemma WellFormedAfterEmpty(rest: seq<string>)
    requires WellFormed(rest) && (|rest| >= 2 ==> rest[0] != [])
    ensures WellFormed([""] + rest)
  {
    var r := [""] + rest;
    forall i | 0 < i < |r| - 1 ensures r[i] != [] {
      assert r[i] == rest[i - 1];
    }
    forall i, c | 0 <= i < |r| && c in r[i] ensures !IsSpace(c) {
      assert i > 0 && r[i] == rest[i - 1];
    }
  }

  /** A non-space prepended to the first piece of a well-formed list keeps it
      well-formed. */
  lemma WellFormedAfterChar(x: char, rest: seq<string>)
    requires !IsSpace(x) && WellFormed(rest)
    ensures WellFormed([[x] + rest[0]] + rest[1..])
  {
    var r := [[x] + rest[0]] + rest[1..];
    forall i | 0 < i < |r| - 1 ensures r[i] != [] {
      assert r[i] == rest[i];
    }
    forall i, c | 0 <= i < |r| && c in r[i] ensures !IsSpace(c) {
      if i == 0 {
        assert c == x || c in rest[0];
      } else {
        assert r[i] == rest[i];
      }
    }
  }

  /** Every split result is well-formed. */
  lemma {:induction false} SplitWellFormed(s: string)
    ensures WellFormed(Split(s))
    decreases |s|
  {
    if s != [] {
      if IsSpace(s[0]) {
        var t := DropSpaces(s[1..]);
        SplitWellFormed(t);
        SplitAtSpace(s);
        WellFormedAfterEmpty(Split(t));
      } else {
        SplitWellFormed(s[1..]);
        SplitAtWord(s);
        WellFormedAfterChar(s[0], Split(s[1..]));
      }
    }
  }

  /** `words.join(' ')`. */
  function Join(ts: seq<string>): (r: string)
    ensures forall c :: c in r ==> c == ' ' || exists i :: 0 <= i < |ts| && c in ts[i]
    ensures |ts| >= 1 ==> |ts[0]| <= |r| && r[..|ts[0]|] == ts[0]
  {
    if |ts| == 0 then ""
    else if |ts| == 1 then ts[0]
    else ts[0] + " " + Join(ts[1..])
  }

  /** `wordsFromText`: optional lower-casing, then optional `clean`, then the split. */
  function WordsFromText(text: string, caseSensitive: bool, stripPunctuation: bool): (r: seq<string>)
    ensures |r| >= 1
    ensures forall i, c :: 0 <= i < |r| && c in r[i] ==> !IsSpace(c)
    ensures stripPunctuation ==> forall i, c :: 0 <= i < |r| && c in r[i] ==> IsAlnum(c)
    ensures !caseSensitive ==> forall i, c :: 0 <= i < |r| && c in r[i] ==> !IsUpper(c)
  {
    var lowered := if caseSensitive then text else ToLowerCase(text);
    var cleaned := if stripPunctuation then Clean(lowered) else lowered;
    assert stripPunctuation ==> forall c :: c in cleaned && !IsSpace(c) ==> IsAlnum(c);
    SplitWellFormed(cleaned);
    SplitChars(cleaned);
    Split(cleaned)
  }

  /** Moving the first character of `t` onto the first piece. */
  lemma MoveFirstChar(a: seq<string>, b: seq<string>, rest: seq<string>, t: string)
    requires t != [] && |rest| >= 1
    requires b == [t[1..] + rest[0]] + rest[1..]
    requires a == [[t[0]] + b[0]] + b[1..]
    ensures a == [t + rest[0]] + rest[1..]
  {
    assert [t[0]] + (t[1..] + rest[0]) == t + rest[0];
  }

  /** A word free of whitespace in front of any text splits off as the first piece. */
  lemma {:induction false} SplitPrepend(t: string, s: string)
    requires forall c :: c in t ==> !IsSpace(c)
    ensures Split(t + s) == [t + Split(s)[0]] + Split(s)[1..]
    decreases |t|
  {
    if t != [] {
      assert (t + s)[0] == t[0];
      assert (t + s)[1..] == t[1..] + s;
      SplitPrepend(t[1..], s);
      SplitAtWord(t + s);
      MoveFirstChar(Split(t + s), Split(t[1..] + s), Split(s), t);
    } else {
      assert t + s == s;
      assert t + Split(s)[0] == Split(s)[0];
      assert [t + Split(s)[0]] + Split(s)[1..] == Split(s);
    }
  }

  /** The pieces after the first of a well-formed list are well-formed too. */
  lemma WellFormedTail(ts: seq<string>)
    requires WellFormed(ts) && |ts| >= 2
    ensures WellFormed(ts[1..])
  {
    forall i, c | 0 <= i < |ts[1..]| && c in ts[1..][i] ensures !IsSpace(c) {
      assert c in ts[i + 1];
    }
  }

  /** Joining the pieces after the first never starts with whitespace. */
  lemma JoinTailStart(ts: seq<string>)
    requires WellFormed(ts) && |ts| >= 2
    ensures var rest := Join(ts[1..]); rest == [] || !IsSpace(rest[0])
  {
    var rest := Join(ts[1..]);
    if ts[1] == [] {
      assert |ts| == 2;
      assert rest == ts[1];
    } else {
      assert rest[..|ts[1]|] == ts[1];
      assert rest[0] == ts[1][0];
      assert ts[1][0] in ts[1];
    }
  }

  /** A single space in front of text that does not start with whitespace
      splits off as an empty first piece. */
  lemma SplitAfterSpace(rest: string)
    requires rest == [] || !IsSpace(rest[0])
    ensures Split(" " + rest) == [""] + Split(rest)
  {
    assert (" " + rest)[0] == ' ';
    assert (" " + rest)[1..] == rest;
  }

  /** The first piece of a well-formed list holds no whitespace. */
  lemma FirstPieceClean(ts: seq<string>)
    requires WellFormed(ts)
    ensures forall c :: c in ts[0] ==> !IsSpace(c)
  {
    forall c | c in ts[0] ensures !IsSpace(c) {
      assert 0 <= 0 < |ts| && c in ts[0];
    }
  }

  /** The join of two or more pieces is the first piece, a space, and the
      join of the rest. */
  lemma JoinCons(ts: seq<string>)
    requires |ts| >= 2
    ensures Join(ts) == ts[0] + (" " + Join(ts[1..]))
  {
  }

  /** Prepending a word to the first of the pieces `[""] + rest` gives the
      word followed by `rest`. */
  lemma PrependToEmpty(pieces: seq<string>, w: string, rest: seq<string>)
    requires pieces == [""] + rest
    ensures [w + pieces[0]] + pieces[1..] == [w] + rest
  {
    assert pieces[1..] == rest;
    assert w + pieces[0] == w;
  }

  /** A first piece, a space and the join of the remaining pieces split into
      that piece followed by the split of the rest. */
  lemma SplitJoinStep(ts: seq<string>)
    requires WellFormed(ts) && |ts| >= 2
    ensures Split(Join(ts)) == [ts[0]] + Split(Join(ts[1..]))
  {
    var rest := Join(ts[1..]);
    FirstPieceClean(ts);
    JoinTailStart(ts);
    SplitAfterSpace(rest);
    JoinCons(ts);
    SplitPrepend(ts[0], " " + rest);
    PrependToEmpty(Split(" " + rest), ts[0], Split(rest));
  }

  /** Splitting undoes joining, for every list shaped like a split result. */
  lemma {:induction false} SplitJoin(ts: seq<string>)
    requires WellFormed(ts)
    ensures Split(Join(ts)) == ts
  {
    if |ts| == 1 {
      FirstPieceClean(ts);
      SplitPrepend(ts[0], "");
      assert ts[0] + "" == ts[0];
    } else {
      WellFormedTail(ts);
      SplitJoin(ts[1..]);
      SplitJoinStep(ts);
      assert [ts[0]] + ts[1..] == ts;
    }
  }

  /** Re-tokenizing the space-joined tokens gives the same tokens back. */
  lemma TokenizeIdempotent(text: string, caseSensitive: bool, stripPunctuation: bool)
    ensures var ts := WordsFromText(text, caseSensitive, stripPunctuation);
            WordsFromText(Join(ts), caseSensitive, stripPunctuation) == ts
  {
    var ts := WordsFromText(text, caseSensitive, stripPunctuation);
    var joined := Join(ts);
    var lowered := if caseSensitive then text else ToLowerCase(text);
    var cleaned := if stripPunctuation then Clean(lowered) else lowered;
    assert ts == Split(cleaned);
    SplitWellFormed(cleaned);
    if !caseSensitive {
      forall c | c in joined ensures !IsUpper(c) {
        if c != ' ' {
          var i :| 0 <= i < |ts| && c in ts[i];
        }
      }
    }
    var lowered' := if caseSensitive then joined else ToLowerCase(joined);
    assert lowered' == joined;
    if stripPunctuation {
      forall c | c in joined ensures IsKept(c) {
        if c != ' ' {
          var i :| 0 <= i < |ts| && c in ts[i];
        }
      }
    }
    var cleaned' := if stripPunctuation then Clean(lowered') else lowered';
    assert cleaned' == joined;
    SplitJoin(ts);
  }
}
