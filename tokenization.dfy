/** The byte-pair-encoding tokenizer of lib/tokenization.py, over characters.

    `fit` joins the documents with " <SEPARATOR> ", starts the vocabulary
    from the separator and the sorted distinct characters of that text, and
    then repeatedly appends the spelling of the most common adjacent pair of
    tokens and merges every occurrence of that pair. `encode` replaces the
    characters of a text by vocabulary ids, one vocabulary entry at a time
    (the separator first, then the entries from the last to the second);
    `decode` concatenates the entries of a list of ids.

    A token of the training text is a tuple of character ids (`seq<nat>`);
    an element of an encoded text is either a character still unmatched or
    an id (`Piece`). */
module Tokenization {
  import opened Common

  /** An element of a partly encoded text: a character or a vocabulary id. */
  datatype Piece = Ch(c: char) | Id(i: int)

  /** `BPETokenizer.SEPARATOR_TOKEN`. */
  const Separator: string := "<SEPARATOR>"

  /** The glue `fit` puts between two documents. */
  const Glue: string := " <SEPARATOR> "

  // ---------------------------------------------------------------------
  // The initial vocabulary
  // ---------------------------------------------------------------------

  /** `sep.join(docs)`. */
  function Join(docs: seq<string>, sep: string): string
  {
    if docs == [] then []
    else if |docs| == 1 then docs[0]
    else Join(docs[..|docs| - 1], sep) + sep + docs[|docs| - 1]
  }

  /** Every character of every document is a character of the joined text. */
  lemma {:induction false} JoinHas(docs: seq<string>, sep: string, d: nat, i: nat)
    requires d < |docs| && i < |docs[d]|
    ensures docs[d][i] in Join(docs, sep)
  {
    var n := |docs|;
    if n == 1 {
      assert Join(docs, sep) == docs[0];
    } else if d == n - 1 {
      var j := Join(docs, sep);
      assert j == Join(docs[..n - 1], sep) + sep + docs[n - 1];
      assert j[|j| - |docs[d]| + i] == docs[d][i];
    } else {
      JoinHas(docs[..n - 1], sep, d, i);
      assert docs[..n - 1][d] == docs[d];
    }
  }

  /** The text `fit` trains on. */
  function TrainingText(docs: seq<string>): string
  {
    Join(docs, Glue)
  }

  /** Strictly increasing characters: a sorted list without repeats. */
  ghost predicate Increasing(s: string)
  {
    forall i, j :: 0 <= i < j < |s| ==> s[i] < s[j]
  }

  /** Inserts `c` into a sorted list without repeats. */
  function Insert(s: string, c: char): (r: string)
    requires Increasing(s)
    ensures Increasing(r)
    ensures forall x :: x in r <==> x in s || x == c
  {
    if s == [] then [c]
    else if c < s[0] then [c] + s
    else if c == s[0] then s
    else
      var rest := Insert(s[1..], c);
      assert forall x :: x in s[1..] ==> s[0] < x;
      assert forall j :: 0 <= j < |rest| ==> s[0] < rest[j] by {
        forall j | 0 <= j < |rest|
          ensures s[0] < rest[j]
        {
          assert rest[j] in rest;
        }
      }
      [s[0]] + rest
  }

  /** `sorted(set(text))`. */
  function SortedChars(text: string): (r: string)
    ensures Increasing(r)
  {
    if text == [] then [] else Insert(SortedChars(text[..|text| - 1]), text[|text| - 1])
  }

  /** `sorted(set(text))` lists exactly the characters of the text. */
  lemma {:induction false} SortedCharsHas(text: string)
    ensures forall x :: x in SortedChars(text) <==> x in text
  {
    if text != [] {
      var init := text[..|text| - 1];
      SortedCharsHas(init);
      assert text == init + [text[|text| - 1]];
    }
  }

  /** The elements of `s`, each as a one-element list: the characters of a
      string as one-character strings, or ids as one-id tokens. */
  function Singles<T>(s: seq<T>): (r: seq<seq<T>>)
    ensures |r| == |s| && forall i :: 0 <= i < |s| ==> r[i] == [s[i]]
  {
    seq(|s|, i requires 0 <= i < |s| => [s[i]])
  }

  /** `[SEPARATOR_TOKEN] + list(sorted(set(text)))`. */
  function BaseVocab(text: string): seq<string>
  {
    [Separator] + Singles(SortedChars(text))
  }

  /** The initial vocabulary is the separator followed by one entry per
      distinct character of the text, in increasing order. */
  lemma BaseVocabShape(text: string)
    ensures var v := BaseVocab(text);
            |v| >= 1 && v[0] == Separator &&
            (forall k :: 1 <= k < |v| ==> |v[k]| == 1 && v[k][0] in text) &&
            (forall j, k :: 1 <= j < k < |v| ==> v[j][0] < v[k][0])
  {
    SortedCharsHas(text);
  }

  /** Every character of the text has its one-character entry. */
  lemma {:induction false} BaseHasChars(text: string, i: nat)
    requires i < |text|
    ensures [text[i]] in BaseVocab(text)
  {
    var sorted := SortedChars(text);
    SortedCharsHas(text);
    assert text[i] in sorted;
    var m :| 0 <= m < |sorted| && sorted[m] == text[i];
    var v := BaseVocab(text);
    assert v[m + 1] == [text[i]];
  }

  /** Every character of `text` has a one-character entry in `v`. */
  ghost predicate HasChars(v: seq<string>, text: string)
  {
    forall i :: 0 <= i < |text| ==> [text[i]] in v
  }

  /** The initial vocabulary is a vocabulary with an entry for every
      character of the text. */
  lemma BaseVocabFacts(text: string)
    ensures Vocabulary(BaseVocab(text)) && HasChars(BaseVocab(text), text)
  {
    BaseVocabShape(text);
    forall i | 0 <= i < |text|
      ensures [text[i]] in BaseVocab(text)
    {
      BaseHasChars(text, i);
    }
  }

  /** The vocabularies the tokenizer keeps: the separator first and no
      empty entry. */
  ghost predicate Vocabulary(v: seq<string>)
  {
    |v| > 0 && v[0] == Separator && forall k :: 0 <= k < |v| ==> v[k] != []
  }

  /** `s` is a substring of `text`. */
  ghost predicate Occurs(s: string, text: string)
  {
    exists a :: 0 <= a <= |text| && s <= text[a..]
  }

  // ---------------------------------------------------------------------
  // Spelling a tuple of ids
  // ---------------------------------------------------------------------

  /** `"".join(vocab[i] for i in ids)` for ids known to be in range. */
  function Spell(v: seq<string>, ids: seq<nat>): string
    requires forall k :: 0 <= k < |ids| ==> ids[k] < |v|
  {
    if ids == [] then [] else Spell(v, ids[..|ids| - 1]) + v[ids[|ids| - 1]]
  }

  /** Ids whose entries are the single characters of `c` spell `c`. */
  lemma {:induction false} SpellChars(v: seq<string>, ids: seq<nat>, c: string)
    requires |ids| == |c|
    requires forall k :: 0 <= k < |ids| ==> ids[k] < |v| && v[ids[k]] == [c[k]]
    ensures Spell(v, ids) == c
  {
    if ids != [] {
      var n := |ids|;
      SpellChars(v, ids[..n - 1], c[..n - 1]);
      assert c == c[..n - 1] + [c[n - 1]];
    }
  }

  // ---------------------------------------------------------------------
  // Counting adjacent pairs
  // ---------------------------------------------------------------------

  /** `t1 + t2` for the pair of tokens starting at `j`. */
  function Pair(t: seq<seq<nat>>, j: nat): seq<nat>
    requires j + 1 < |t|
  {
    t[j] + t[j + 1]
  }

  /** How many of the first `n` adjacent pairs are `key`. */
  function CountIn(t: seq<seq<nat>>, key: seq<nat>, n: nat): nat
    requires n == 0 || n < |t|
  {
    if n == 0 then 0 else CountIn(t, key, n - 1) + (if Pair(t, n - 1) == key then 1 else 0)
  }

  /** The `Counter` entry of `key` after counting every adjacent pair. */
  function Count(t: seq<seq<nat>>, key: seq<nat>): nat
  {
    if |t| < 2 then 0 else CountIn(t, key, |t| - 1)
  }

  /** A pair that occurs among the first `n` has a positive count. */
  lemma {:induction false} CountPositive(t: seq<seq<nat>>, j: nat, n: nat)
    requires j < n < |t|
    ensures CountIn(t, Pair(t, j), n) >= 1
  {
    if j < n - 1 {
      CountPositive(t, j, n - 1);
    }
  }

  /** `Counter.most_common(1)[0][0]`: a pair with the largest count, and of
      those the one whose first occurrence comes first (the counter keeps
      the order in which keys were first seen, and the largest is taken
      with `max`, which keeps the first of equal counts). */
  ghost predicate MostCommon(t: seq<seq<nat>>, key: seq<nat>)
  {
    |t| >= 2 &&
    (forall e :: 0 <= e < |t| - 1 ==> Count(t, Pair(t, e)) <= Count(t, key)) &&
    exists b :: 0 <= b < |t| - 1 && Pair(t, b) == key &&
      forall e :: 0 <= e < b ==> Count(t, Pair(t, e)) < Count(t, key)
  }

  /** There is one most common pair: the choice does not depend on how the
      counter was built. */
  lemma MostCommonUnique(t: seq<seq<nat>>, k1: seq<nat>, k2: seq<nat>)
    requires MostCommon(t, k1) && MostCommon(t, k2)
    ensures k1 == k2
  {
    var b1 :| 0 <= b1 < |t| - 1 && Pair(t, b1) == k1 &&
      forall e :: 0 <= e < b1 ==> Count(t, Pair(t, e)) < Count(t, k1);
    var b2 :| 0 <= b2 < |t| - 1 && Pair(t, b2) == k2 &&
      forall e :: 0 <= e < b2 ==> Count(t, Pair(t, e)) < Count(t, k2);
    assert Count(t, k1) == Count(t, k2) by {
      assert Count(t, Pair(t, b1)) <= Count(t, k2);
      assert Count(t, Pair(t, b2)) <= Count(t, k1);
    }
    assert b1 == b2;
  }

  /** Counts the adjacent pairs of `t` and takes the most common one. With
      fewer than two tokens the counter is empty and `most_common(1)[0]`
      raises IndexError. */
  method MostCommonPair(t: seq<seq<nat>>) returns (r: Result<seq<nat>>)
    ensures r.Err? <==> |t| < 2
    ensures r.Err? ==> r.error == IndexError
    ensures r.Ok? ==> MostCommon(t, r.value)
  {
    if |t| < 2 {
      return Err(IndexError);
    }
    var counts: map<seq<nat>, nat> := map[];
    var j := 0;
    while j < |t| - 1
      invariant 0 <= j <= |t| - 1
      invariant forall k :: k in counts ==> counts[k] == CountIn(t, k, j)
      invariant forall k :: k !in counts ==> CountIn(t, k, j) == 0
    {
      var p := t[j] + t[j + 1];
      counts := counts[p := if p in counts then counts[p] + 1 else 1];
      j := j + 1;
    }
    var best := t[0] + t[1];
    CountPositive(t, 0, |t| - 1);
    var bestCount := counts[best];
    ghost var at := 0;
    var q := 1;
    while q < |t| - 1
      invariant 1 <= q <= |t| - 1
      invariant 0 <= at < q && Pair(t, at) == best && bestCount == Count(t, best)
      invariant forall e :: 0 <= e < at ==> Count(t, Pair(t, e)) < bestCount
      invariant forall e :: 0 <= e < q ==> Count(t, Pair(t, e)) <= bestCount
    {
      var p := t[q] + t[q + 1];
      CountPositive(t, q, |t| - 1);
      if counts[p] > bestCount {
        best, bestCount, at := p, counts[p], q;
      }
      q := q + 1;
    }
    return Ok(best);
  }

  // ---------------------------------------------------------------------
  // Merging the chosen pair
  // ---------------------------------------------------------------------

  /** The merge loop of `fit` as written: scanning from `idx`, every
      occurrence of `key` as an adjacent pair becomes one token, and the
      loop stops before the last token. When the last token is not part of
      a merged pair it is never appended. */
  function MergedAsWritten(t: seq<seq<nat>>, key: seq<nat>, idx: nat): seq<seq<nat>>
    requires idx <= |t|
    decreases |t| - idx
  {
    if idx + 1 >= |t| then []
    else if t[idx] + t[idx + 1] == key then [key] + MergedAsWritten(t, key, idx + 2)
    else [t[idx]] + MergedAsWritten(t, key, idx + 1)
  }

  /** The merge as written loses text: three single-character tokens with
      the first two merged come back as one token, and the third
      character is gone. */
  lemma MergeDropsLastToken()
    ensures Flatten(MergedAsWritten([[1], [2], [3]], [1, 2], 0)) == [1, 2]
    ensures Flatten([[1], [2], [3]]) == [1, 2, 3]
  {
    var t: seq<seq<nat>> := [[1], [2], [3]];
    assert MergedAsWritten(t, [1, 2], 2) == [];
    assert MergedAsWritten(t, [1, 2], 0) == [[1, 2]];
    assert Flatten([[1, 2]]) == Flatten([]) + [1, 2];
    assert t[..2][..1] == [[1]];
  }

  /** One merge pass of `fit` as written. */
  method MergePassAsWritten(t: seq<seq<nat>>, key: seq<nat>) returns (out: seq<seq<nat>>)
    ensures out == MergedAsWritten(t, key, 0)
  {
    out := [];
    var idx := 0;
    while idx + 1 < |t|
      invariant idx <= |t|
      invariant out + MergedAsWritten(t, key, idx) == MergedAsWritten(t, key, 0)
      decreases |t| - idx
    {
      if t[idx] + t[idx + 1] == key {
        Regroup(out, key, MergedAsWritten(t, key, idx + 2));
        out := out + [key];
        idx := idx + 2;
      } else {
        Regroup(out, t[idx], MergedAsWritten(t, key, idx + 1));
        out := out + [t[idx]];
        idx := idx + 1;
      }
    }
  }

  /** The merge with the token left over at the end kept. */
  function Merged(t: seq<seq<nat>>, key: seq<nat>, idx: nat): seq<seq<nat>>
    requires idx <= |t|
    decreases |t| - idx
  {
    if idx + 1 >= |t| then t[idx..]
    else if t[idx] + t[idx + 1] == key then [key] + Merged(t, key, idx + 2)
    else [t[idx]] + Merged(t, key, idx + 1)
  }

  /** The merge as written is the corrected merge less at most one token,
      and the token it loses is the last one of the text. */
  lemma {:induction false} AsWrittenDropsAtMostLast(t: seq<seq<nat>>, key: seq<nat>, idx: nat)
    requires idx <= |t|
    ensures var w, m := MergedAsWritten(t, key, idx), Merged(t, key, idx);
            w <= m && |m| <= |w| + 1 && (|m| == |w| + 1 ==> m[|w|] == t[|t| - 1])
    decreases |t| - idx
  {
    var w, m := MergedAsWritten(t, key, idx), Merged(t, key, idx);
    if idx + 1 >= |t| {
    } else if t[idx] + t[idx + 1] == key {
      AsWrittenDropsAtMostLast(t, key, idx + 2);
      assert w == [key] + MergedAsWritten(t, key, idx + 2) && m == [key] + Merged(t, key, idx + 2);
    } else {
      AsWrittenDropsAtMostLast(t, key, idx + 1);
      assert w == [t[idx]] + MergedAsWritten(t, key, idx + 1) && m == [t[idx]] + Merged(t, key, idx + 1);
    }
  }

  lemma FlattenOne(x: seq<nat>)
    ensures Flatten([x]) == x
  {
    assert [x][..0] == [];
  }

  /** Merging keeps the text: the merged tokens spell the same ids, and no
      token is empty. */
  lemma {:induction false} MergedKeepsText(t: seq<seq<nat>>, key: seq<nat>, idx: nat)
    requires idx <= |t|
    requires forall j :: 0 <= j < |t| ==> t[j] != []
    ensures Flatten(Merged(t, key, idx)) == Flatten(t[idx..])
    ensures forall j :: 0 <= j < |Merged(t, key, idx)| ==> Merged(t, key, idx)[j] != []
    decreases |t| - idx
  {
    var m := Merged(t, key, idx);
    if idx + 1 >= |t| {
    } else if t[idx] + t[idx + 1] == key {
      MergedKeepsText(t, key, idx + 2);
      var rest := Merged(t, key, idx + 2);
      assert m == [key] + rest;
      FlattenAppend([key], rest);
      FlattenOne(key);
      assert t[idx..] == [t[idx], t[idx + 1]] + t[idx + 2..];
      FlattenAppend([t[idx], t[idx + 1]], t[idx + 2..]);
      FlattenAppend([t[idx]], [t[idx + 1]]);
      assert [t[idx], t[idx + 1]] == [t[idx]] + [t[idx + 1]];
      FlattenOne(t[idx]);
      FlattenOne(t[idx + 1]);
    } else {
      MergedKeepsText(t, key, idx + 1);
      var rest := Merged(t, key, idx + 1);
      assert m == [t[idx]] + rest;
      FlattenAppend([t[idx]], rest);
      FlattenOne(t[idx]);
      assert t[idx..] == [t[idx]] + t[idx + 1..];
      FlattenAppend([t[idx]], t[idx + 1..]);
    }
  }

  /** One merge pass of `fit`, with the last token kept. */
  method MergePass(t: seq<seq<nat>>, key: seq<nat>) returns (out: seq<seq<nat>>)
    ensures out == Merged(t, key, 0)
  {
    out := [];
    var idx := 0;
    while idx + 1 < |t|
      invariant idx <= |t|
      invariant out + Merged(t, key, idx) == Merged(t, key, 0)
      decreases |t| - idx
    {
      if t[idx] + t[idx + 1] == key {
        Regroup(out, key, Merged(t, key, idx + 2));
        out := out + [key];
        idx := idx + 2;
      } else {
        Regroup(out, t[idx], Merged(t, key, idx + 1));
        out := out + [t[idx]];
        idx := idx + 1;
      }
    }
    out := out + t[idx..];
  }

  /** An adjacent pair of nonempty tokens is a stretch of at least two of
      the ids the tokens spell. */
  lemma {:induction false} PairIsSlice(t: seq<seq<nat>>, j: nat) returns (a: nat, b: nat)
    requires j + 1 < |t| && t[j] != [] && t[j + 1] != []
    ensures a + 2 <= b <= |Flatten(t)| && Pair(t, j) == Flatten(t)[a..b]
  {
    var pre, post := t[..j], t[j + 2..];
    assert t == pre + [t[j]] + [t[j + 1]] + post;
    FlattenAppend(pre + [t[j]] + [t[j + 1]], post);
    FlattenAppend(pre + [t[j]], [t[j + 1]]);
    FlattenAppend(pre, [t[j]]);
    FlattenOne(t[j]);
    FlattenOne(t[j + 1]);
    a := |Flatten(pre)|;
    b := a + |t[j]| + |t[j + 1]|;
  }

  /** The initial tokens, one per character. */
  lemma {:induction false} FlattenSingles(t: seq<seq<nat>>, s: seq<nat>)
    requires |t| == |s| && forall i :: 0 <= i < |s| ==> t[i] == [s[i]]
    ensures Flatten(t) == s
  {
    if s != [] {
      var n := |s|;
      FlattenSingles(t[..n - 1], s[..n - 1]);
      assert s == s[..n - 1] + [s[n - 1]];
    }
  }

  // ---------------------------------------------------------------------
  // Encoding
  // ---------------------------------------------------------------------

  /** Every id in `ps` indexes a vocabulary of `n` entries. */
  ghost predicate IdsIn(ps: seq<Piece>, n: nat)
  {
    forall k :: 0 <= k < |ps| && ps[k].Id? ==> 0 <= ps[k].i < n
  }

  /** No character is left unmatched. */
  predicate AllIds(ps: seq<Piece>)
  {
    forall k :: 0 <= k < |ps| ==> ps[k].Id?
  }

  /** The text a partly encoded text stands for. */
  function Rendered(v: seq<string>, ps: seq<Piece>): string
    requires IdsIn(ps, |v|)
  {
    if ps == [] then []
    else (match ps[0] case Ch(c) => [c] case Id(i) => v[i]) + Rendered(v, ps[1..])
  }

  lemma {:induction false} RenderedAppend(v: seq<string>, a: seq<Piece>, b: seq<Piece>)
    requires IdsIn(a, |v|) && IdsIn(b, |v|)
    ensures IdsIn(a + b, |v|) && Rendered(v, a + b) == Rendered(v, a) + Rendered(v, b)
  {
    if a != [] {
      assert (a + b)[1..] == a[1..] + b;
      RenderedAppend(v, a[1..], b);
    } else {
      assert a + b == b;
    }
  }

  /** The characters of `s` as pieces. */
  function Chars(s: string): (r: seq<Piece>)
    ensures |r| == |s| && forall k :: 0 <= k < |s| ==> r[k] == Ch(s[k])
  {
    seq(|s|, k requires 0 <= k < |s| => Ch(s[k]))
  }

  lemma {:induction false} RenderedChars(v: seq<string>, s: string)
    ensures IdsIn(Chars(s), |v|) && Rendered(v, Chars(s)) == s
  {
    if s != [] {
      RenderedChars(v, s[1..]);
      assert Chars(s)[1..] == Chars(s[1..]);
    }
  }

  /** The pieces start with the characters of `token`. */
  predicate MatchesAt(ps: seq<Piece>, token: string)
  {
    |token| <= |ps| && forall k :: 0 <= k < |token| ==> ps[k] == Ch(token[k])
  }

  /** `"".join(candidate)` when every element of `candidate` is a string
      (`all(isinstance(tt, str) for tt in candidate)`), None otherwise. */
  function Joined(cs: seq<Piece>): (r: Option<string>)
    ensures r.Some? <==> forall k :: 0 <= k < |cs| ==> cs[k].Ch?
    ensures r.Some? ==> |r.value| == |cs| && forall k :: 0 <= k < |cs| ==> cs[k] == Ch(r.value[k])
  {
    if cs == [] then Some([])
    else match cs[0]
      case Id(_) => None
      case Ch(c) =>
        var rest := Joined(cs[1..]);
        if rest.None? then None else Some([c] + rest.value)
  }

  /** The test `encode` applies to `tokenized_text[text_idx:text_idx +
      len(token)]` holds exactly when the pieces at `i` start with the
      characters of `token`. */
  lemma CandidateMatches(ps: seq<Piece>, i: nat, token: string)
    requires i < |ps| && token != []
    ensures Joined(PySlice(ps, i, i + |token|)) == Some(token) <==> MatchesAt(ps[i..], token)
  {
    var cs := PySlice(ps, i, i + |token|);
    if Joined(cs) == Some(token) {
      assert |cs| == |token|;
      assert forall k :: 0 <= k < |token| ==> ps[i..][k] == cs[k];
    }
    if MatchesAt(ps[i..], token) {
      assert cs == ps[i..i + |token|];
      assert forall k :: 0 <= k < |cs| ==> cs[k] == Ch(token[k]);
      assert Joined(cs).value == token;
    }
  }

  /** One pass of `encode` for the entry `token` at position `id`, from the
      left: a run of characters spelling `token` becomes `id`. */
  function Replace(ps: seq<Piece>, id: int, token: string): seq<Piece>
    requires token != []
    decreases |ps|
  {
    if ps == [] then []
    else if MatchesAt(ps, token) then [Id(id)] + Replace(ps[|token|..], id, token)
    else [ps[0]] + Replace(ps[1..], id, token)
  }

  /** A pass with an entry of the vocabulary keeps the text, keeps the ids
      in range, leaves only characters it was given, and after the pass of
      a one-character entry that character is gone. */
  lemma {:induction false} ReplaceFacts(v: seq<string>, ps: seq<Piece>, id: nat, token: string)
    requires id < |v| && v[id] == token && token != [] && IdsIn(ps, |v|)
    ensures IdsIn(Replace(ps, id, token), |v|)
    ensures Rendered(v, Replace(ps, id, token)) == Rendered(v, ps)
    ensures forall k :: 0 <= k < |Replace(ps, id, token)| && Replace(ps, id, token)[k].Ch? ==>
              Replace(ps, id, token)[k] in ps
    ensures |token| == 1 ==> Ch(token[0]) !in Replace(ps, id, token)
    decreases |ps|
  {
    var r := Replace(ps, id, token);
    if ps == [] {
    } else if MatchesAt(ps, token) {
      var rest := ps[|token|..];
      ReplaceFacts(v, rest, id, token);
      var head := ps[..|token|];
      assert ps == head + rest;
      assert head == Chars(token);
      RenderedChars(v, token);
      RenderedAppend(v, head, rest);
      assert r == [Id(id)] + Replace(rest, id, token);
      RenderedAppend(v, [Id(id)], Replace(rest, id, token));
      assert Rendered(v, [Id(id)]) == token;
      forall k | 0 <= k < |r| && r[k].Ch?
        ensures r[k] in ps
      {
        assert r[k] == Replace(rest, id, token)[k - 1];
        assert r[k] in rest;
      }
    } else {
      var rest := ps[1..];
      ReplaceFacts(v, rest, id, token);
      assert r == [ps[0]] + Replace(rest, id, token);
      assert ps == [ps[0]] + rest;
      RenderedAppend(v, [ps[0]], rest);
      RenderedAppend(v, [ps[0]], Replace(rest, id, token));
      forall k | 0 <= k < |r| && r[k].Ch?
        ensures r[k] in ps
      {
        if k > 0 {
          assert r[k] == Replace(rest, id, token)[k - 1];
          assert r[k] in rest;
        }
      }
      if |token| == 1 {
        assert ps[0] != Ch(token[0]);
      }
    }
  }

  /** One step of a pass: at `i`, either the entry matches and becomes one
      id, or the piece there is kept. */
  lemma ReplaceStep(ps: seq<Piece>, i: nat, id: int, token: string)
    requires i < |ps| && token != []
    ensures MatchesAt(ps[i..], token) ==>
              (i + |token| <= |ps| &&
               Replace(ps[i..], id, token) == [Id(id)] + Replace(ps[i + |token|..], id, token))
    ensures !MatchesAt(ps[i..], token) ==>
              Replace(ps[i..], id, token) == [ps[i]] + Replace(ps[i + 1..], id, token)
  {
    if MatchesAt(ps[i..], token) {
      assert ps[i..][|token|..] == ps[i + |token|..];
    } else {
      assert ps[i..][1..] == ps[i + 1..];
    }
  }

  /** The inner loop of `encode` for one vocabulary entry. */
  method EncodePass(ps: seq<Piece>, id: int, token: string) returns (out: seq<Piece>)
    requires token != []
    ensures out == Replace(ps, id, token)
  {
    out := [];
    var i := 0;
    while i < |ps|
      invariant i <= |ps|
      invariant out + Replace(ps[i..], id, token) == Replace(ps, id, token)
      decreases |ps| - i
    {
      var candidate := PySlice(ps, i, i + |token|);
      PassStep(ps, i, id, token, out);
      if Joined(candidate) == Some(token) {
        out := out + [Id(id)];
        i := i + |token|;
      } else {
        out := out + [ps[i]];
        i := i + 1;
      }
    }
    assert ps[i..] == [];
  }

  /** The loop of `EncodePass` keeps its invariant: what it has output,
      followed by the pass over what is left, is the whole pass. */
  lemma PassStep(ps: seq<Piece>, i: nat, id: int, token: string, out: seq<Piece>)
    requires i < |ps| && token != []
    requires out + Replace(ps[i..], id, token) == Replace(ps, id, token)
    ensures Joined(PySlice(ps, i, i + |token|)) == Some(token) ==>
              i + |token| <= |ps| && (out + [Id(id)]) + Replace(ps[i + |token|..], id, token) == Replace(ps, id, token)
    ensures Joined(PySlice(ps, i, i + |token|)) != Some(token) ==>
              (out + [ps[i]]) + Replace(ps[i + 1..], id, token) == Replace(ps, id, token)
  {
    CandidateMatches(ps, i, token);
    ReplaceStep(ps, i, id, token);
    if MatchesAt(ps[i..], token) {
      Regroup(out, Id(id), Replace(ps[i + |token|..], id, token));
    } else {
      Regroup(out, ps[i], Replace(ps[i + 1..], id, token));
    }
  }

  /** Moving one element from the front of the rest to the end of the
      output keeps their concatenation. */
  lemma Regroup<T>(out: seq<T>, p: T, rest: seq<T>)
    ensures out + ([p] + rest) == (out + [p]) + rest
  {
  }

  // ---------------------------------------------------------------------
  // Decoding
  // ---------------------------------------------------------------------

  /** `vocab[idx]` for one element of the list given to `decode`: a string
      is not a list index (TypeError), an id outside `-n..n-1` raises
      IndexError. */
  function Lookup(v: seq<string>, p: Piece): (r: Result<string>)
    ensures r.Ok? <==> p.Id? && -|v| <= p.i < |v|
    ensures r.Err? ==> r.error == (if p.Ch? then TypeError else IndexError)
    ensures r.Ok? && p.i >= 0 ==> r.value == v[p.i]
  {
    match p
    case Ch(_) => Err(TypeError)
    case Id(i) =>
      var k := PyIndex(|v|, i);
      if k.None? then Err(IndexError) else Ok(v[k.value])
  }

  /** `"".join(vocab[idx] for idx in tokens)`: the first element that
      cannot be looked up raises. */
  function DecodeWith(v: seq<string>, tokens: seq<Piece>): (r: Result<string>)
    ensures r.Ok? <==> forall k :: 0 <= k < |tokens| ==> Lookup(v, tokens[k]).Ok?
  {
    if tokens == [] then Ok([])
    else
      var head :- Lookup(v, tokens[0]);
      var rest :- DecodeWith(v, tokens[1..]);
      Ok(head + rest)
  }

  /** Decoding ids in range gives back the text they render, and decoding
      with a character left in raises TypeError. */
  lemma {:induction false} DecodeRendered(v: seq<string>, ps: seq<Piece>)
    requires IdsIn(ps, |v|)
    ensures DecodeWith(v, ps) == if AllIds(ps) then Ok(Rendered(v, ps)) else Err(TypeError)
  {
    if ps != [] {
      DecodeRendered(v, ps[1..]);
      assert AllIds(ps) <==> ps[0].Id? && AllIds(ps[1..]);
    }
  }

  /** `vocab.index(c)` for each character `c` of the text. */
  function CharIds(v: seq<string>, text: string): (ids: seq<nat>)
    requires HasChars(v, text)
    ensures |ids| == |text| && forall i :: 0 <= i < |text| ==> ids[i] < |v| && v[ids[i]] == [text[i]]
  {
    seq(|text|, i requires 0 <= i < |text| => IndexOf(v, [text[i]]))
  }

  /** What holds between two merges of `fit`: the vocabulary extends the
      initial one with entries of at least two characters that occur in the
      text, and the tokens, all nonempty, still spell the character ids of
      the text. */
  ghost predicate Training(text: string, base: seq<string>, ids: seq<nat>, v: seq<string>, tokens: seq<seq<nat>>)
  {
    Vocabulary(v) && |base| <= |v| && v[..|base|] == base &&
    (forall k :: |base| <= k < |v| ==> |v[k]| >= 2 && Occurs(v[k], text)) &&
    |ids| == |text| && (forall i :: 0 <= i < |ids| ==> ids[i] < |base| && base[ids[i]] == [text[i]]) &&
    Flatten(tokens) == ids && (forall j :: 0 <= j < |tokens| ==> tokens[j] != [])
  }

  lemma TrainingStart(text: string, base: seq<string>, tokens: seq<seq<nat>>)
    requires Vocabulary(base) && HasChars(base, text)
    requires |tokens| == |text| && forall i :: 0 <= i < |text| ==> tokens[i] == [CharIds(base, text)[i]]
    ensures Training(text, base, CharIds(base, text), base, tokens)
  {
    FlattenSingles(tokens, CharIds(base, text));
  }

  /** A merge step of `fit` keeps `Training`: the spelling of the most common
      pair is a stretch of at least two characters of the text, and the
      merge keeps the ids the tokens spell. */
  lemma TrainingStep(text: string, base: seq<string>, ids: seq<nat>, v: seq<string>,
                     tokens: seq<seq<nat>>, key: seq<nat>)
    requires Training(text, base, ids, v, tokens) && MostCommon(tokens, key)
    ensures forall k :: 0 <= k < |key| ==> key[k] < |v|
    ensures Training(text, base, ids, v + [Spell(v, key)], Merged(tokens, key, 0))
  {
    var j :| 0 <= j < |tokens| - 1 && Pair(tokens, j) == key;
    var a, b := PairIsSlice(tokens, j);
    forall k | 0 <= k < |key|
      ensures key[k] < |v| && v[key[k]] == [text[a..b][k]]
    {
      assert key[k] == ids[a + k];
      assert v[..|base|][ids[a + k]] == v[ids[a + k]];
    }
    SpellChars(v, key, text[a..b]);
    var entry := Spell(v, key);
    assert entry <= text[a..];
    var v' := v + [entry];
    assert v'[..|base|] == v[..|base|];
    MergedKeepsText(tokens, key, 0);
  }

  /** After `fit`, every character of every document has its entry. */
  lemma FitKeepsChars(docs: seq<string>, v: seq<string>)
    requires var base := BaseVocab(TrainingText(docs)); |base| <= |v| && v[..|base|] == base
    ensures forall d, i :: 0 <= d < |docs| && 0 <= i < |docs[d]| ==> [docs[d][i]] in v
  {
    var text := TrainingText(docs);
    var base := BaseVocab(text);
    forall d, i | 0 <= d < |docs| && 0 <= i < |docs[d]|
      ensures [docs[d][i]] in v
    {
      JoinHas(docs, Glue, d, i);
      var m :| 0 <= m < |text| && text[m] == docs[d][i];
      BaseHasChars(text, m);
      var at := IndexOf(base, [text[m]]);
      assert v[..|base|][at] == v[at];
    }
  }

  /** Round `k` of `fit`, whose vocabulary started with `n` entries: `keys[k]`
      is the most common pair of `rounds[k]`, entry `n + k` of the
      vocabulary spells it with the entries before it, and `rounds[k + 1]`
      is `rounds[k]` with the pair merged. */
  ghost predicate MergeRound(v: seq<string>, n: nat, rounds: seq<seq<seq<nat>>>, keys: seq<seq<nat>>, k: nat)
  {
    k < |keys| && k + 1 < |rounds| && n + k < |v| &&
    MostCommon(rounds[k], keys[k]) && rounds[k + 1] == Merged(rounds[k], keys[k], 0) &&
    (forall m :: 0 <= m < |keys[k]| ==> keys[k][m] < n + k) && v[n + k] == Spell(v[..n + k], keys[k])
  }

  /** A round stays a round when a later round is recorded. */
  lemma MergeRoundGrows(v: seq<string>, n: nat, rounds: seq<seq<seq<nat>>>, keys: seq<seq<nat>>, k: nat,
                        entry: string, tokens: seq<seq<nat>>, key: seq<nat>)
    requires MergeRound(v, n, rounds, keys, k)
    ensures MergeRound(v + [entry], n, rounds + [tokens], keys + [key], k)
  {
    assert (v + [entry])[..n + k] == v[..n + k];
  }

  /** The tokens `fit` starts from: one per character of the training
      text, the id of its entry in the initial vocabulary. */
  ghost function FirstTokens(docs: seq<string>): seq<seq<nat>>
  {
    var text := TrainingText(docs);
    BaseVocabFacts(text);
    Singles(CharIds(BaseVocab(text), text))
  }

  /** The tokens `fit` starts from are its first round. */
  lemma FirstTokensRound(docs: seq<string>)
    ensures var text := TrainingText(docs); FirstRound(BaseVocab(text), text, FirstTokens(docs))
  {
  }

  /** The rounds of `fit` so far, over a vocabulary that started with `n`
      entries: the tokens it started from, then one round per entry added. */
  ghost predicate History(v: seq<string>, n: nat, first: seq<seq<nat>>, rounds: seq<seq<seq<nat>>>, keys: seq<seq<nat>>)
  {
    |keys| == |v| - n && |rounds| == |keys| + 1 && rounds[0] == first &&
    forall k :: 0 <= k < |keys| ==> MergeRound(v, n, rounds, keys, k)
  }

  /** The first round of `fit`: one token per character of `text`, the id
      of that character's entry in `v`. */
  ghost predicate FirstRound(v: seq<string>, text: string, t: seq<seq<nat>>)
  {
    |t| == |text| &&
    forall i {:trigger text[i]} :: 0 <= i < |text| ==> |t[i]| == 1 && t[i][0] < |v| && v[t[i][0]] == [text[i]]
  }

  /** Recording one more round of `fit` keeps every round recorded so far
      and adds the new one. */
  lemma MergeRoundsGrow(v: seq<string>, n: nat, first: seq<seq<nat>>, rounds: seq<seq<seq<nat>>>, keys: seq<seq<nat>>, key: seq<nat>,
                         v': seq<string>, rounds': seq<seq<seq<nat>>>, keys': seq<seq<nat>>)
    requires History(v, n, first, rounds, keys)
    requires MostCommon(rounds[|keys|], key) && forall m :: 0 <= m < |key| ==> key[m] < |v|
    requires v' == v + [Spell(v, key)] && rounds' == rounds + [Merged(rounds[|keys|], key, 0)] && keys' == keys + [key]
    ensures History(v', n, first, rounds', keys')
  {
    var entry := Spell(v, key);
    var tokens := rounds[|keys|];
    forall k | 0 <= k < |keys| + 1
      ensures MergeRound(v + [entry], n, rounds + [Merged(tokens, key, 0)], keys + [key], k)
    {
      if k < |keys| {
        MergeRoundGrows(v, n, rounds, keys, k, entry, Merged(tokens, key, 0), key);
      } else {
        assert (v + [entry])[..|v|] == v;
      }
    }
  }

  /** The merge loop of `fit`, from the one-token-per-character text: while
      the vocabulary is short of `maxVocab`, add the spelling of the most
      common pair and merge that pair throughout the text. It stops with
      IndexError when fewer than two tokens are left. Every round is
      recorded in `rounds` and `keys`. */
  method MergeLoop(text: string, base: seq<string>, ids: seq<nat>, maxVocab: int)
    returns (v: seq<string>, raised: Option<Error>, ghost rounds: seq<seq<seq<nat>>>, ghost keys: seq<seq<nat>>)
    requires Training(text, base, ids, base, Singles(ids))
    ensures |rounds| == |keys| + 1 && Training(text, base, ids, v, rounds[|rounds| - 1])
    ensures History(v, |base|, Singles(ids), rounds, keys)
    ensures raised.None? ==> |v| == if |base| < maxVocab then maxVocab else |base|
    ensures raised.Some? ==> raised == Some(IndexError) && |v| < maxVocab && |rounds[|rounds| - 1]| < 2
    ensures |text| < 2 && |base| < maxVocab ==> raised == Some(IndexError) && v == base
  {
    v := base;
    var tokens := Singles(ids);
    rounds, keys := [tokens], [];
    raised := None;
    while raised.None? && |v| < maxVocab
      invariant Training(text, base, ids, v, tokens)
      invariant |text| < 2 ==> v == base
      invariant |base| < maxVocab ==> |v| <= maxVocab
      invariant |base| >= maxVocab ==> |v| == |base|
      invariant |rounds| == |keys| + 1 && History(v, |base|, Singles(ids), rounds, keys)
      invariant rounds[|rounds| - 1] == tokens
      invariant raised.Some? ==> raised == Some(IndexError) && |tokens| < 2 && |v| < maxVocab
      decreases maxVocab - |v|, if raised.None? then 1 else 0
    {
      FlattenLength(tokens);
      var key := MostCommonPair(tokens);
      if key.Err? {
        raised := Some(key.error);
      } else {
        TrainingStep(text, base, ids, v, tokens, key.value);
        var v' := v + [Spell(v, key.value)];
        var merged := MergePass(tokens, key.value);
        MergeRoundsGrow(v, |base|, Singles(ids), rounds, keys, key.value, v', rounds + [merged], keys + [key.value]);
        v, tokens := v', merged;
        rounds, keys := rounds + [merged], keys + [key.value];
      }
    }
  }

  // ---------------------------------------------------------------------
  // The tokenizer
  // ---------------------------------------------------------------------

  /** `BPETokenizer`: `vocab` is None until `fit` runs. */
  class BpeTokenizer {
    var vocab: Option<seq<string>>
    const maxVocab: int

    ghost predicate Valid()
      reads this
    {
      vocab.Some? ==> Vocabulary(vocab.value)
    }

    constructor (maxVocab: int)
      ensures Valid() && vocab == None && this.maxVocab == maxVocab
    {
      vocab := None;
      this.maxVocab := maxVocab;
    }

    /** `fit(docs)`. The vocabulary grows to `max_vocab` entries unless the
        text runs out of pairs first, in which case `most_common(1)[0]`
        raises IndexError and the entries added so far stay. Every added
        entry spells a stretch of at least two characters of the training
        text. The ghost `rounds` and `keys` record the run: entry k after
        the initial vocabulary spells `keys[k]`, the most common pair of
        `rounds[k]`, and merging it gives `rounds[k + 1]`. */
    method Fit(docs: seq<string>) returns (raised: Option<Error>, ghost rounds: seq<seq<seq<nat>>>, ghost keys: seq<seq<nat>>)
      modifies this
      ensures Valid() && vocab.Some?
      ensures var base := BaseVocab(TrainingText(docs));
              |base| <= |vocab.value| && vocab.value[..|base|] == base
      ensures var base := BaseVocab(TrainingText(docs));
              raised.None? ==> |vocab.value| == if |base| < maxVocab then maxVocab else |base|
      ensures raised.Some? ==> raised.value == IndexError && |vocab.value| < maxVocab
      ensures var base := BaseVocab(TrainingText(docs));
              |TrainingText(docs)| < 2 && |base| < maxVocab ==> raised == Some(IndexError) && vocab.value == base
      ensures var base := BaseVocab(TrainingText(docs));
              forall k :: |base| <= k < |vocab.value| ==>
                |vocab.value[k]| >= 2 && Occurs(vocab.value[k], TrainingText(docs))
      ensures forall d, i :: 0 <= d < |docs| && 0 <= i < |docs[d]| ==> [docs[d][i]] in vocab.value
      ensures |rounds| == |keys| + 1
      ensures History(vocab.value, |BaseVocab(TrainingText(docs))|, FirstTokens(docs), rounds, keys)
      ensures raised.Some? ==> |rounds[|rounds| - 1]| < 2
    {
      var text := TrainingText(docs);
      var base := BaseVocab(text);
      BaseVocabFacts(text);
      var ids := CharIds(base, text);
      TrainingStart(text, base, Singles(ids));
      var v;
      v, raised, rounds, keys := MergeLoop(text, base, ids, maxVocab);
      assert FirstTokens(docs) == Singles(ids);
      vocab := Some(v);
      FitKeepsChars(docs, v);
    }

    /** `decode(tokens)`. With no vocabulary yet, an empty list still
        decodes to "" (the vocabulary is only read per element). */
    function Decode(tokens: seq<Piece>): (r: Result<string>)
      reads this
      ensures tokens == [] ==> r == Ok([])
      ensures tokens != [] && vocab.None? ==> r == Err(TypeError)
      ensures tokens != [] && vocab.Some? ==>
                (r.Ok? <==> forall k :: 0 <= k < |tokens| ==>
                   tokens[k].Id? && -|vocab.value| <= tokens[k].i < |vocab.value|)
    {
      if tokens == [] then Ok([])
      else if vocab.None? then Err(TypeError)
      else DecodeWith(vocab.value, tokens)
    }

    /** `encode(text)`. Before `fit`, `self.vocab[1:]` raises TypeError.
        After it, the result is the separator pass followed by one pass per
        entry from the last down to entry 1, and it stands for the text; a character is left
        unencoded only when it has no one-character entry, and then decoding
        the result raises TypeError; otherwise decoding gives the text
        back. */
    method Encode(text: string) returns (r: Result<seq<Piece>>)
      requires Valid()
      ensures vocab.None? ==> r == Err(TypeError)
      ensures vocab.Some? ==> r.Ok? && r.value == Passes(vocab.value, Replace(Chars(text), 0, Separator), 1)
      ensures vocab.Some? ==> IdsIn(r.value, |vocab.value|) && Rendered(vocab.value, r.value) == text
      ensures vocab.Some? ==> forall k :: 0 <= k < |r.value| && r.value[k].Ch? ==>
                r.value[k].c in text && [r.value[k].c] !in vocab.value
      ensures vocab.Some? ==>
                Decode(r.value) == if AllIds(r.value) then Ok(text) else Err(TypeError)
      ensures vocab.Some? && HasChars(vocab.value, text) ==>
                AllIds(r.value) && Decode(r.value) == Ok(text)
    {
      if vocab.None? {
        return Err(TypeError);
      }
      var v := vocab.value;
      var ps := Chars(text);
      RenderedChars(v, text);
      ReplaceFacts(v, ps, 0, Separator);
      ps := EncodePass(ps, 0, Separator);
      ps := EncodeEntries(v, text, ps);
      Leftovers(v, text, ps);
      DecodeRendered(v, ps);
      if ps == [] {
        assert Rendered(v, ps) == [];
      }
      r := Ok(ps);
    }
  }

  /** The passes of `encode` for entries `|v| - 1` down to `id`, in that
      order, applied to `ps`. */
  function Passes(v: seq<string>, ps: seq<Piece>, id: nat): seq<Piece>
    requires Vocabulary(v) && 1 <= id <= |v|
    decreases |v| - id
  {
    if id == |v| then ps else Replace(Passes(v, ps, id + 1), id, v[id])
  }

  /** The passes of `encode` after the first, one per entry from the last
      down to entry 1: each replaces the stretches that spell its entry by
      its id, keeping the text the pieces stand for. */
  method EncodeEntries(v: seq<string>, text: string, ps0: seq<Piece>) returns (ps: seq<Piece>)
    requires Vocabulary(v) && IdsIn(ps0, |v|) && Rendered(v, ps0) == text
    requires forall k :: 0 <= k < |ps0| && ps0[k].Ch? ==> ps0[k].c in text
    ensures ps == Passes(v, ps0, 1)
    ensures IdsIn(ps, |v|) && Rendered(v, ps) == text
    ensures forall k :: 0 <= k < |ps| && ps[k].Ch? ==> ps[k].c in text
    ensures forall j :: 1 <= j < |v| && |v[j]| == 1 ==> Ch(v[j][0]) !in ps
  {
    ps := ps0;
    var id := |v|;
    while id > 1
      invariant 1 <= id
      invariant EncodedUpTo(v, text, ps0, ps, id)
    {
      EncodeStep(v, text, ps0, ps, id);
      id := id - 1;
      ps := EncodePass(ps, id, v[id]);
    }
  }

  /** The invariant of the loop of `EncodeEntries` before the pass for entry
      `id - 1`: the passes so far are those from the last entry down to
      `id`, the pieces stand for
      the text, and no entry from `id` on of one character is left as that
      character. */
  ghost predicate EncodedUpTo(v: seq<string>, text: string, ps0: seq<Piece>, ps: seq<Piece>, id: nat)
  {
    Vocabulary(v) && 1 <= id <= |v| &&
    ps == Passes(v, ps0, id) &&
    IdsIn(ps, |v|) && Rendered(v, ps) == text &&
    (forall k :: 0 <= k < |ps| && ps[k].Ch? ==> ps[k].c in text) &&
    (forall j :: id <= j < |v| && |v[j]| == 1 ==> Ch(v[j][0]) !in ps)
  }

  /** The pass for entry `id - 1` keeps `EncodedUpTo`. */
  lemma EncodeStep(v: seq<string>, text: string, ps0: seq<Piece>, ps: seq<Piece>, id: nat)
    requires id > 1 && EncodedUpTo(v, text, ps0, ps, id)
    ensures EncodedUpTo(v, text, ps0, Replace(ps, id - 1, v[id - 1]), id - 1)
  {
    var out := Replace(ps, id - 1, v[id - 1]);
    ReplaceFacts(v, ps, id - 1, v[id - 1]);
    forall j | id <= j < |v| && |v[j]| == 1
      ensures Ch(v[j][0]) !in out
    {
      assert Ch(v[j][0]) !in ps;
      forall k | 0 <= k < |out|
        ensures out[k] != Ch(v[j][0])
      {
        if out[k].Ch? {
          assert out[k] in ps;
        }
      }
    }
  }

  /** After every pass of `encode`, a character left unencoded has no
      one-character entry; so when every character of the text has one,
      nothing is left unencoded. */
  lemma Leftovers(v: seq<string>, text: string, ps: seq<Piece>)
    requires Vocabulary(v)
    requires forall k :: 0 <= k < |ps| && ps[k].Ch? ==> ps[k].c in text
    requires forall j :: 1 <= j < |v| && |v[j]| == 1 ==> Ch(v[j][0]) !in ps
    ensures forall k :: 0 <= k < |ps| && ps[k].Ch? ==> [ps[k].c] !in v
    ensures HasChars(v, text) ==> AllIds(ps)
  {
    forall k, j | 0 <= k < |ps| && ps[k].Ch? && 0 <= j < |v|
      ensures v[j] != [ps[k].c]
    {
      if j == 0 {
        assert |v[0]| == 11;
      } else if |v[j]| == 1 {
        assert Ch(v[j][0]) !in ps;
        assert ps[k] in ps;
      }
    }
  }

  /** Tokens that are all nonempty spell at least as many ids as there are
      tokens. */
  lemma {:induction false} FlattenLength(t: seq<seq<nat>>)
    requires forall j :: 0 <= j < |t| ==> t[j] != []
    ensures |Flatten(t)| >= |t|
  {
    if t != [] {
      FlattenLength(t[..|t| - 1]);
    }
  }
}
