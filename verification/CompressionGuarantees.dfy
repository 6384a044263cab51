/** Compression never merges, splits, reorders or invents a word: the compressed text re-tokenises to exactly the
    kept words, and the kept words are the best-scoring ones. */
module CompressionGuarantees {
  import opened Sorting
  import opened PyText
  import opened Compression

  // ----- the words of a text

  /** The words of a text: the maximal runs without white space. */
  function Words(s: string): seq<string> {
    if s == "" then []
    else if IsSpace(s[0]) then Words(s[1..])
    else [s[..Run(s, false)]] + Words(s[Run(s, false)..])
  }

  lemma {:induction false} SkipSpace(g: string, s: string)
    requires AllSpace(g)
    ensures Words(g + s) == Words(s)
  {
    if g == "" {
      assert g + s == s;
    } else {
      assert (g + s)[1..] == g[1..] + s;
      SkipSpace(g[1..], s);
    }
  }

  /** `b` may stand for `a` behind any text. */
  ghost predicate SameWords(a: string, b: string) {
    Words(a) == Words(b) && (a == "" <==> b == "") && (a != "" ==> IsSpace(a[0]) == IsSpace(b[0]))
  }

  lemma RunOneMore(c: char, s: string)
    requires !IsSpace(c)
    ensures ([c] + s)[0] == c && ([c] + s)[1..] == s && Run([c] + s, false) == 1 + Run(s, false)
    ensures ([c] + s)[..1 + Run(s, false)] == [c] + s[..Run(s, false)] && ([c] + s)[1 + Run(s, false)..] == s[Run(s, false)..]
  {
    var t := [c] + s;
    assert t[1..] == s;
  }

  lemma ConsRun(c: char, s: string)
    requires !IsSpace(c)
    ensures Words([c] + s) == if s == "" || IsSpace(s[0]) then [[c]] + Words(s) else [[c] + Words(s)[0]] + Words(s)[1..]
  {
    RunOneMore(c, s);
    var n := Run(s, false);
    assert Words([c] + s) == [[c] + s[..n]] + Words(s[n..]);
    if s == "" || IsSpace(s[0]) { assert n == 0 && s[..n] == "" && s[n..] == s && [c] + "" == [c]; }
  }

  lemma ConsKeepsWords(c: char, a: string, b: string)
    requires SameWords(a, b)
    ensures SameWords([c] + a, [c] + b)
  {
    if IsSpace(c) {
      SkipSpace([c], a);
      SkipSpace([c], b);
    } else {
      ConsRun(c, a);
      ConsRun(c, b);
    }
  }

  /** Collapsing blank runs neither merges nor splits a word. */
  lemma {:induction false} CollapseKeepsWords(s: string)
    ensures SameWords(CollapseBlanks(s), s)
  {
    if s != "" {
      if IsBlank(s[0]) {
        var n := BlankRun(s);
        CollapseKeepsWords(s[n..]);
        assert s == s[..n] + s[n..];
        SkipSpace(s[..n], s[n..]);
        SkipSpace(if n >= 2 then " " else s[..1], CollapseBlanks(s[n..]));
      } else {
        CollapseKeepsWords(s[1..]);
        ConsKeepsWords(s[0], CollapseBlanks(s[1..]), s[1..]);
        assert s == [s[0]] + s[1..];
      }
    }
  }

  /** A line break may stand for any white space. */
  lemma SpaceForSpace(g: string, s: string, t: string)
    requires g != "" && AllSpace(g) && SameWords(t, s)
    ensures SameWords("\n" + t, g + s)
  {
    SkipSpace(g, s);
    SkipSpace("\n", t);
    assert (g + s)[0] == g[0];
  }

  /** Nor does trimming the spaces around line breaks. */
  lemma {:induction false} TrimKeepsWords(s: string)
    ensures SameWords(TrimNewlines(s), s)
  {
    if s != "" {
      var m := NewlineMatch(s);
      if m > 0 {
        TrimKeepsWords(s[m..]);
        SpaceForSpace(s[..m], s[m..], TrimNewlines(s[m..]));
        assert s == s[..m] + s[m..];
      } else {
        TrimKeepsWords(s[1..]);
        ConsKeepsWords(s[0], TrimNewlines(s[1..]), s[1..]);
        assert s == [s[0]] + s[1..];
      }
    }
  }

  // ----- tokens

  /** A piece is not empty and is white space throughout or nowhere. */
  ghost predicate Uniform(p: string) {
    p != "" && forall k :: 0 <= k < |p| ==> IsSpace(p[k]) == Structural(p)
  }

  lemma FirstPiece(s: string)
    requires s != ""
    ensures var n := Run(s, IsSpace(s[0])); 0 < n && Uniform(s[..n]) && Structural(s[..n]) == IsSpace(s[0])
  {
    var p := s[..Run(s, IsSpace(s[0]))];
    assert p[0] == s[0];
  }

  lemma {:induction false} PiecesAreUniform(s: string)
    ensures Concat(Pieces(s)) == s
    ensures forall p :: p in Pieces(s) ==> Uniform(p)
    decreases |s|
  {
    if s != "" {
      var n := Run(s, IsSpace(s[0]));
      FirstPiece(s);
      PiecesAreUniform(s[n..]);
      assert Pieces(s) == [s[..n]] + Pieces(s[n..]) && Pieces(s)[1..] == Pieces(s[n..]);
      assert s == s[..n] + s[n..];
    }
  }

  lemma {:induction false} PiecesAlternate(s: string)
    ensures forall i :: 0 <= i < |Pieces(s)| - 1 ==> Structural(Pieces(s)[i]) != Structural(Pieces(s)[i + 1])
    decreases |s|
  {
    if s != "" {
      var n := Run(s, IsSpace(s[0]));
      var rest := Pieces(s[n..]);
      FirstPiece(s);
      PiecesAlternate(s[n..]);
      if n < |s| {
        FirstPiece(s[n..]);
        assert s[n..][0] == s[n];
        assert rest[0] == s[n..][..Run(s[n..], IsSpace(s[n]))];
      }
      assert Pieces(s) == [s[..n]] + rest;
    }
  }

  /** The tokens as the tokeniser makes them: numbered in order, uniform, and alternating between gaps and words. */
  ghost predicate Tokenised(t: seq<Token>) {
    && (forall i :: 0 <= i < |t| ==> t[i].index == i && Uniform(t[i].text) && t[i].structural == Structural(t[i].text))
    && (forall i :: 0 <= i < |t| - 1 ==> t[i].structural != t[i + 1].structural)
  }

  function Texts(t: seq<Token>): seq<string> { seq(|t|, i requires 0 <= i < |t| => t[i].text) }

  lemma TokensAreUniform(text: string)
    ensures Concat(Texts(Tokens(text))) == text
    ensures forall i :: 0 <= i < |Tokens(text)| ==> Uniform(Tokens(text)[i].text)
  {
    PiecesAreUniform(text);
    assert Texts(Tokens(text)) == Pieces(text);
    forall i | 0 <= i < |Tokens(text)|
      ensures Uniform(Tokens(text)[i].text)
    {
      assert Pieces(text)[i] in Pieces(text);
    }
  }

  /** Tokenising loses nothing: the tokens alternate and concatenate back to the text. */
  lemma TokensAreTokenised(text: string)
    ensures Tokenised(Tokens(text)) && Concat(Texts(Tokens(text))) == text
  {
    TokensAreUniform(text);
    PiecesAlternate(text);
    var t := Tokens(text);
    forall i | 0 <= i < |t| - 1
      ensures t[i].structural != t[i + 1].structural
    {
      assert Structural(Pieces(text)[i]) != Structural(Pieces(text)[i + 1]);
    }
  }

  // ----- reassembly

  /** Reassembly without the branch that puts a space for a dropped word. */
  function PlainAssembled(tokens: seq<Token>, kept: set<nat>, i: nat): string
    requires i <= |tokens|
    decreases |tokens| - i
  {
    if i == |tokens| then ""
    else (if tokens[i].structural || tokens[i].index in kept then tokens[i].text else "") + PlainAssembled(tokens, kept, i + 1)
  }

  predicate Alternates(tokens: seq<Token>, i: nat) {
    i + 1 < |tokens| ==> tokens[i].structural != tokens[i + 1].structural
  }

  lemma {:induction false} AlternatingHasNoGap(tokens: seq<Token>, kept: set<nat>, i: nat, previous: bool)
    requires i <= |tokens| && forall k: nat :: Alternates(tokens, k)
    requires i < |tokens| && !tokens[i].structural ==> previous
    ensures Assembled(tokens, kept, i, previous) == PlainAssembled(tokens, kept, i)
    decreases |tokens| - i
  {
    if i < |tokens| {
      assert Alternates(tokens, i);
      AlternatingHasNoGap(tokens, kept, i + 1, tokens[i].structural || tokens[i].index !in kept);
    }
  }

  /** The gap-inserting branch never fires: a dropped word always follows a gap or starts the text. */
  lemma NoGapIsInserted(tokens: seq<Token>, kept: set<nat>, i: nat, previous: bool)
    requires i <= |tokens| && Tokenised(tokens)
    requires i < |tokens| && !tokens[i].structural ==> previous
    ensures Assembled(tokens, kept, i, previous) == PlainAssembled(tokens, kept, i)
  {
    forall k: nat
      ensures Alternates(tokens, k)
    {
    }
    AlternatingHasNoGap(tokens, kept, i, previous);
  }

  /** The kept words from token `i` on, in text order. */
  function KeptWords(tokens: seq<Token>, kept: set<nat>, i: nat): seq<string>
    requires i <= |tokens|
    decreases |tokens| - i
  {
    if i == |tokens| then []
    else (if !tokens[i].structural && tokens[i].index in kept then [tokens[i].text] else []) + KeptWords(tokens, kept, i + 1)
  }

  lemma WordThenGap(w: string, s: string)
    requires w != "" && forall k :: 0 <= k < |w| ==> !IsSpace(w[k])
    requires s == "" || IsSpace(s[0])
    ensures Words(w + s) == [w] + Words(s)
  {
    RunOf(w, s);
    assert (w + s)[..|w|] == w && (w + s)[|w|..] == s;
  }

  lemma {:induction false} RunOf(w: string, s: string)
    requires forall k :: 0 <= k < |w| ==> !IsSpace(w[k])
    requires s == "" || IsSpace(s[0])
    ensures Run(w + s, false) == |w|
  {
    if w == "" {
      assert w + s == s;
    } else {
      assert (w + s)[1..] == w[1..] + s;
      RunOf(w[1..], s);
    }
  }

  lemma {:induction false} AssembledWords(tokens: seq<Token>, kept: set<nat>, i: nat)
    requires i <= |tokens| && Tokenised(tokens)
    ensures Words(PlainAssembled(tokens, kept, i)) == KeptWords(tokens, kept, i)
    ensures i < |tokens| && tokens[i].structural ==> PlainAssembled(tokens, kept, i) != "" && IsSpace(PlainAssembled(tokens, kept, i)[0])
    decreases |tokens| - i
  {
    if i < |tokens| {
      AssembledWords(tokens, kept, i + 1);
      var t, rest := tokens[i], PlainAssembled(tokens, kept, i + 1);
      if t.structural {
        SkipSpace(t.text, rest);
      } else if t.index in kept {
        assert i + 1 < |tokens| ==> tokens[i + 1].structural;
        WordThenGap(t.text, rest);
      } else {
        assert PlainAssembled(tokens, kept, i) == rest;
      }
    }
  }

  // ----- the words are what the tokeniser calls words

  function NonStructural(p: seq<string>): seq<string> {
    if p == [] then [] else (if Structural(p[0]) then [] else [p[0]]) + NonStructural(p[1..])
  }

  lemma OneMorePiece(p: string, rest: seq<string>)
    ensures NonStructural([p] + rest) == (if Structural(p) then [] else [p]) + NonStructural(rest)
  {
    assert ([p] + rest)[1..] == rest;
  }

  lemma WordsAfterGap(s: string, n: nat)
    requires n <= |s| && forall i :: 0 <= i < n ==> IsSpace(s[i])
    ensures Words(s) == Words(s[n..])
  {
    assert s == s[..n] + s[n..];
    SkipSpace(s[..n], s[n..]);
  }

  lemma WordsAfterFirstPiece(s: string)
    requires s != ""
    ensures var n := Run(s, IsSpace(s[0])); Words(s) == (if IsSpace(s[0]) then [] else [s[..n]]) + Words(s[n..])
  {
    if IsSpace(s[0]) {
      WordsAfterGap(s, Run(s, true));
    } else {
      assert Words(s) == [s[..Run(s, false)]] + Words(s[Run(s, false)..]);
    }
  }

  /** `Words` is the tokeniser's own notion of word. */
  lemma {:induction false} WordsAreNonStructuralPieces(s: string)
    ensures Words(s) == NonStructural(Pieces(s))
    decreases |s|
  {
    if s != "" {
      var n := Run(s, IsSpace(s[0]));
      FirstPiece(s);
      WordsAfterFirstPiece(s);
      WordsAreNonStructuralPieces(s[n..]);
      OneMorePiece(s[..n], Pieces(s[n..]));
    }
  }

  /** The texts of the tokens that are words. */
  function WordTexts(tokens: seq<Token>): seq<string> {
    if tokens == [] then []
    else (if tokens[0].structural then [] else [tokens[0].text]) + WordTexts(tokens[1..])
  }

  lemma {:induction false} WordTextsOfPieces(tokens: seq<Token>)
    requires forall t :: t in tokens ==> t.structural == Structural(t.text)
    ensures WordTexts(tokens) == NonStructural(Texts(tokens))
  {
    if tokens != [] {
      assert Texts(tokens)[1..] == Texts(tokens[1..]);
      WordTextsOfPieces(tokens[1..]);
    }
  }

  /** The words of a text are the texts of its word tokens. */
  lemma WordsOfTokens(text: string)
    ensures Words(text) == WordTexts(Tokens(text))
  {
    WordsAreNonStructuralPieces(text);
    WordTextsOfPieces(Tokens(text));
    assert Texts(Tokens(text)) == Pieces(text);
  }

  /** Tokenising the compressed text again gives exactly the kept words, in order, whatever set was kept. */
  lemma RetokenisesToKeptWords(text: string, kept: set<nat>)
    ensures WordTexts(Tokens(Compressed(Tokens(text), kept))) == KeptWords(Tokens(text), kept, 0)
  {
    var tokens := Tokens(text);
    TokensAreTokenised(text);
    var joined := Assembled(tokens, kept, 0, true);
    NoGapIsInserted(tokens, kept, 0, true);
    AssembledWords(tokens, kept, 0);
    CollapseKeepsWords(joined);
    TrimKeepsWords(CollapseBlanks(joined));
    WordsOfTokens(Compressed(tokens, kept));
  }

  // ----- which words are kept

  lemma {:induction false} ScoredFacts(tokens: seq<Token>, score: nat -> real, i: nat)
    requires i <= |tokens|
    ensures var s := Scored(tokens, score, i);
      && (forall r :: r in s ==> i <= r.index < |tokens| && !tokens[r.index].structural && r.score == score(r.index))
      && (forall a, b :: 0 <= a < b < |s| ==> s[a].index < s[b].index)
      && (forall k :: i <= k < |tokens| && !tokens[k].structural ==> Ranked(score(k), k) in s)
    decreases |tokens| - i
  {
    if i < |tokens| {
      ScoredFacts(tokens, score, i + 1);
      var s, rest := Scored(tokens, score, i), Scored(tokens, score, i + 1);
      if !tokens[i].structural {
        assert s == [Ranked(score(i), i)] + rest;
        assert s[0] in s;
        forall k | i <= k < |tokens| && !tokens[k].structural
          ensures Ranked(score(k), k) in s
        {
          if k > i { assert Ranked(score(k), k) in rest; }
        }
      }
    }
  }

  /** A word of rank `a` outranks a word of rank `b`: better score, or the same score and earlier in the text. */
  predicate Outranks(score: nat -> real, a: nat, b: nat) {
    score(a) > score(b) || (score(a) == score(b) && a < b)
  }

  lemma RankedFacts(tokens: seq<Token>, score: nat -> real)
    ensures var s, ranked := Scored(tokens, score, 0), Sort(Scored(tokens, score, 0), ByScore());
      SortedBy(ranked, ByScoreThenIndex()) && |ranked| == |s| && forall r :: r in ranked <==> r in s
  {
    var s := Scored(tokens, score, 0);
    ScoredFacts(tokens, score, 0);
    SortIsStable(s, ByScore(), ByScoreThenIndex());
    SortKeepsElements(s, ByScore());
    forall r
      ensures r in Sort(s, ByScore()) <==> r in s
    {
      assert r in multiset(Sort(s, ByScore())) <==> r in multiset(s);
    }
  }

  lemma SizeOfIndices(s: seq<Ranked>)
    requires SortedBy(s, ByScoreThenIndex())
    requires forall a, b :: a in s && b in s && a.index == b.index ==> a == b
    ensures |Indices(s)| == |s|
  {
    if s != [] {
      var t := s[..|s| - 1];
      var last := s[|s| - 1];
      SizeOfIndices(t);
      assert Indices(s) == Indices(t) + {last.index};
      forall x | 0 <= x < |t|
        ensures t[x].index != last.index
      {
        assert s[x] in s && last in s;
        assert ByScoreThenIndex()(s[x], s[|s| - 1]);
      }
    }
  }

  ghost predicate Dominates(tokens: seq<Token>, score: nat -> real, kept: set<nat>) {
    forall i: nat, j: nat :: i in kept && j < |tokens| && !tokens[j].structural && j !in kept ==> Outranks(score, i, j)
  }

  /** Exactly `keep` words are kept, and each of them outranks every dropped word. */
  lemma KeptAreTheBest(tokens: seq<Token>, score: nat -> real, keep: nat)
    requires keep <= |Scored(tokens, score, 0)|
    ensures var kept := Kept(tokens, score, keep);
      && |kept| == keep
      && (forall i :: i in kept ==> i < |tokens| && !tokens[i].structural)
      && Dominates(tokens, score, kept)
  {
    var s := Scored(tokens, score, 0);
    var ranked := Sort(s, ByScore());
    ScoredFacts(tokens, score, 0);
    RankedFacts(tokens, score);
    var top := ranked[..keep];
    assert forall r :: r in top ==> r in ranked;
    SizeOfIndices(top);
    forall i: nat, j: nat | i in Indices(top) && j < |tokens| && !tokens[j].structural && j !in Indices(top)
      ensures Outranks(score, i, j)
    {
      assert Ranked(score(j), j) in s;
      TopOutranks(ranked, score, keep, i, Ranked(score(j), j));
    }
  }

  lemma DroppedIsLater(ranked: seq<Ranked>, keep: nat, dropped: Ranked) returns (y: nat)
    requires keep <= |ranked| && dropped in ranked && dropped.index !in Indices(ranked[..keep])
    ensures keep <= y < |ranked| && ranked[y] == dropped
  {
    y :| y < |ranked| && ranked[y] == dropped;
  }

  lemma TopOutranks(ranked: seq<Ranked>, score: nat -> real, keep: nat, i: nat, dropped: Ranked)
    requires keep <= |ranked| && SortedBy(ranked, ByScoreThenIndex())
    requires i in Indices(ranked[..keep]) && dropped in ranked && dropped.index !in Indices(ranked[..keep])
    requires forall r :: r in ranked ==> r.score == score(r.index)
    ensures Outranks(score, i, dropped.index)
  {
    var y := DroppedIsLater(ranked, keep, dropped);
    var r :| r in ranked[..keep] && r.index == i;
    var x: nat :| x < keep && ranked[..keep][x] == r;
    assert ranked[x] == r && r in ranked;
    assert ByScoreThenIndex()(ranked[x], ranked[y]);
  }

  lemma {:induction false} KeptWordsCount(tokens: seq<Token>, kept: set<nat>, i: nat)
    requires i <= |tokens| && Tokenised(tokens)
    requires forall k :: k in kept ==> i <= k < |tokens| && !tokens[k].structural
    ensures |KeptWords(tokens, kept, i)| == |kept|
    decreases |tokens| - i
  {
    if i == |tokens| {
      assert kept == {};
    } else {
      KeptWordsCount(tokens, kept - {i}, i + 1);
      KeptWordsAlike(tokens, kept, kept - {i}, i + 1);
    }
  }

  lemma {:induction false} KeptWordsAlike(tokens: seq<Token>, a: set<nat>, b: set<nat>, i: nat)
    requires i <= |tokens| && Tokenised(tokens)
    requires forall k :: i <= k ==> (k in a <==> k in b)
    ensures KeptWords(tokens, a, i) == KeptWords(tokens, b, i)
    decreases |tokens| - i
  {
    if i < |tokens| { KeptWordsAlike(tokens, a, b, i + 1); }
  }

  // ----- the counts

  function Below(n: nat): (r: set<nat>)
    ensures forall k: nat :: k < n ==> k in r
  {
    if n == 0 then {} else {n - 1} + Below(n - 1)
  }

  /** Keeping every word keeps the text. */
  lemma {:induction false} KeepingAll(tokens: seq<Token>, kept: set<nat>, score: nat -> real, i: nat)
    requires i <= |tokens| && Tokenised(tokens)
    requires forall k: nat :: k < |tokens| ==> k in kept
    ensures PlainAssembled(tokens, kept, i) == Concat(Texts(tokens)[i..])
    ensures |KeptWords(tokens, kept, i)| == |Scored(tokens, score, i)|
    decreases |tokens| - i
  {
    if i < |tokens| { KeepingAll(tokens, kept, score, i + 1); }
  }

  /** The word count is the number of words of the text, whatever scores are used. */
  lemma WordCountCountsWords(text: string, score: nat -> real)
    ensures WordCount(Tokens(text)) == |Words(text)| == |Scored(Tokens(text), score, 0)|
  {
    var tokens := Tokens(text);
    var all := Below(|tokens|);
    TokensAreTokenised(text);
    KeepingAll(tokens, all, score, 0);
    ScoredSize(tokens, (i: nat) => 0.0, score, 0);
    AssembledWords(tokens, all, 0);
    assert Texts(tokens)[0..] == Texts(tokens);
  }

  lemma KeepCountInRange(words: nat, ratio: real)
    requires words > 0 && 0.0 <= ratio < 1.0
    ensures 1 <= KeepCount(words, ratio) <= words
  {
    assert words as real * (1.0 - ratio) > 0.0;
    assert 0.0 <= words as real * ratio < words as real;
  }

  predicate Trivial(text: string, targetRatio: real) {
    WordCount(Tokens(text)) == 0 || Clamp(targetRatio) >= 1.0
  }

  /** The indices kept for a text that is not returned unchanged. */
  function KeptIndices(text: string, targetRatio: real, score: nat -> real): set<nat> {
    Kept(Tokens(text), score, KeepCount(WordCount(Tokens(text)), Clamp(targetRatio)))
  }

  lemma SelectionIsSound(text: string, targetRatio: real, score: nat -> real)
    requires !Trivial(text, targetRatio)
    ensures var kept := KeptIndices(text, targetRatio, score);
      1 <= |kept| <= WordCount(Tokens(text)) && Dominates(Tokens(text), score, kept)
      && |KeptWords(Tokens(text), kept, 0)| == |kept|
  {
    var tokens := Tokens(text);
    WordCountCountsWords(text, score);
    KeepCountInRange(WordCount(tokens), Clamp(targetRatio));
    KeptAreTheBest(tokens, score, KeepCount(WordCount(tokens), Clamp(targetRatio)));
    TokensAreTokenised(text);
    KeptWordsCount(tokens, KeptIndices(text, targetRatio, score), 0);
  }

  /** The whole contract of the compressor: what comes back re-tokenises to `keptTokenCount` of the text's
      `originalTokenCount` words, in text order; they outrank every word left out; and at least one is kept. */
  lemma CompressionKeepsTheBestWords(text: string, targetRatio: real, score: nat -> real)
    ensures var r, kept := Outcome(text, targetRatio, score), KeptIndices(text, targetRatio, score);
      && r.originalTokenCount == |WordTexts(Tokens(text))| && r.keptTokenCount == |WordTexts(Tokens(r.compressed))|
      && (Trivial(text, targetRatio) ==> r.compressed == text && r.keptRatio == 1.0)
      && (!Trivial(text, targetRatio) ==>
            && WordTexts(Tokens(r.compressed)) == KeptWords(Tokens(text), kept, 0)
            && 1 <= |kept| <= |WordTexts(Tokens(text))|
            && Dominates(Tokens(text), score, kept)
            && r.keptRatio == r.keptTokenCount as real / r.originalTokenCount as real)
  {
    WordCountCountsWords(text, score);
    WordsOfTokens(text);
    if !Trivial(text, targetRatio) {
      SelectionIsSound(text, targetRatio, score);
      RetokenisesToKeptWords(text, KeptIndices(text, targetRatio, score));
    }
  }

  /** How much is kept: as many words as the ratio asks for, to the nearest and the even one of two, but at least one. */
  predicate KeepsTheShare(words: nat, targetRatio: real, kept: nat) {
    var share := (if targetRatio < 0.0 then 0.0 else targetRatio) * words as real;
    if share < 1.5 then kept == 1
    else -0.5 <= kept as real - share <= 0.5
         && (kept as real - share == 0.5 || kept as real - share == -0.5 ==> kept % 2 == 0)
  }

  lemma KeepCountIsTheShare(words: nat, targetRatio: real)
    requires targetRatio < 1.0
    ensures KeepCount(words, Clamp(targetRatio)) >= 0
    ensures KeepsTheShare(words, targetRatio, KeepCount(words, Clamp(targetRatio)))
  {
    RoundIsNearest(words as real * Clamp(targetRatio));
  }

  /** A text with words, and a ratio below one, keeps the share of its words that the ratio asks for; without words, or
      from the ratio one on, the text comes back as it is. */
  lemma CompressionKeepsTheShare(text: string, targetRatio: real, score: nat -> real)
    ensures var r := Outcome(text, targetRatio, score);
      if WordTexts(Tokens(text)) == [] || targetRatio >= 1.0 then r.compressed == text && r.keptTokenCount == r.originalTokenCount
      else KeepsTheShare(r.originalTokenCount, targetRatio, r.keptTokenCount)
  {
    WordCountCountsWords(text, score);
    WordsOfTokens(text);
    if !Trivial(text, targetRatio) {
      SelectionIsSound(text, targetRatio, score);
      KeepCountIsTheShare(WordCount(Tokens(text)), targetRatio);
      KeepCountInRange(WordCount(Tokens(text)), Clamp(targetRatio));
      KeptAreTheBest(Tokens(text), score, KeepCount(WordCount(Tokens(text)), Clamp(targetRatio)));
    }
  }

  // ----- the rewritten white space

  /** No two blanks in a row, and no space next to a line break. */
  ghost predicate Tidy(s: string) {
    forall i :: 0 <= i < |s| - 1 ==>
      && !(IsBlank(s[i]) && IsBlank(s[i + 1]))
      && !(s[i] == ' ' && s[i + 1] == '\n')
      && !(s[i] == '\n' && s[i + 1] == ' ')
  }

  ghost predicate NoBlankPair(s: string) {
    forall i :: 0 <= i < |s| - 1 ==> !(IsBlank(s[i]) && IsBlank(s[i + 1]))
  }

  lemma {:induction false} CollapseLeavesNoPair(s: string)
    ensures NoBlankPair(CollapseBlanks(s))
    ensures CollapseBlanks(s) == "" <==> s == ""
    ensures s != "" ==> IsBlank(CollapseBlanks(s)[0]) == IsBlank(s[0])
    decreases |s|
  {
    if s != "" {
      if IsBlank(s[0]) {
        CollapseLeavesNoPair(s[BlankRun(s)..]);
      } else {
        CollapseLeavesNoPair(s[1..]);
      }
    }
  }

  lemma TidyCons(c: char, rest: string)
    requires Tidy(rest)
    requires rest != "" ==> !(IsBlank(c) && IsBlank(rest[0])) && !(c == ' ' && rest[0] == '\n') && !(c == '\n' && rest[0] == ' ')
    ensures Tidy([c] + rest)
  {
    var s := [c] + rest;
    assert forall i :: 1 <= i < |s| ==> s[i] == rest[i - 1];
  }

  lemma {:induction false} TrimIsTidy(s: string)
    requires NoBlankPair(s)
    ensures Tidy(TrimNewlines(s))
    ensures TrimNewlines(s) == "" <==> s == ""
    ensures s != "" ==> TrimNewlines(s)[0] == if NewlineMatch(s) > 0 then '\n' else s[0]
  {
    if s != "" {
      var m := NewlineMatch(s);
      TrimIsTidy(s[if m > 0 then m else 1..]);
      TidyCons(if m > 0 then '\n' else s[0], TrimNewlines(s[if m > 0 then m else 1..]));
    }
  }

  /** The compressed text is tidy: the two rewrites finish their work and do not undo each other's. */
  lemma CompressedIsTidy(tokens: seq<Token>, kept: set<nat>)
    ensures Tidy(Compressed(tokens, kept))
  {
    var joined := Assembled(tokens, kept, 0, true);
    CollapseLeavesNoPair(joined);
    TrimIsTidy(CollapseBlanks(joined));
  }

  /** The text without its spaces and tabs. */
  function Unblanked(s: string): string {
    if s == "" then "" else (if IsBlank(s[0]) then "" else [s[0]]) + Unblanked(s[1..])
  }

  lemma {:induction false} UnblankedAppend(a: string, b: string)
    ensures Unblanked(a + b) == Unblanked(a) + Unblanked(b)
  {
    if a == "" {
      assert a + b == b;
    } else {
      assert (a + b)[1..] == a[1..] + b && (a + b)[0] == a[0];
      UnblankedAppend(a[1..], b);
      assert Unblanked(a + b) == (if IsBlank(a[0]) then "" else [a[0]]) + Unblanked(a[1..] + b);
    }
  }

  lemma {:induction false} BlanksAreNothing(g: string)
    requires forall i :: 0 <= i < |g| ==> IsBlank(g[i])
    ensures Unblanked(g) == ""
  {
    if g != "" { BlanksAreNothing(g[1..]); }
  }

  lemma {:induction false} CollapseOnlyTakesBlanks(s: string)
    ensures Unblanked(CollapseBlanks(s)) == Unblanked(s)
    decreases |s|
  {
    if s != "" {
      if IsBlank(s[0]) {
        var n := BlankRun(s);
        var head := if n >= 2 then " " else s[..1];
        CollapseOnlyTakesBlanks(s[n..]);
        BlanksAreNothing(s[..n]);
        BlanksAreNothing(head);
        UnblankedAppend(head, CollapseBlanks(s[n..]));
        UnblankedAppend(s[..n], s[n..]);
        assert s == s[..n] + s[n..];
      } else {
        CollapseOnlyTakesBlanks(s[1..]);
        UnblankedAppend([s[0]], CollapseBlanks(s[1..]));
        UnblankedAppend([s[0]], s[1..]);
        assert s == [s[0]] + s[1..];
      }
    }
  }

  lemma MatchIsOneBreak(s: string)
    requires NewlineMatch(s) > 0
    ensures Unblanked(s[..NewlineMatch(s)]) == "\n"
  {
    var n := SpaceRun(s);
    var k := SpaceRun(s[n + 1..]);
    var a, b := s[..n], s[n + 1..][..k];
    assert s[..NewlineMatch(s)] == a + "\n" + b;
    BlanksAreNothing(a);
    BlanksAreNothing(b);
    UnblankedAppend(a + "\n", b);
    UnblankedAppend(a, "\n");
  }

  lemma UnblankedAlike(a: string, b: string, c: string, d: string)
    requires Unblanked(a) == Unblanked(c) && Unblanked(b) == Unblanked(d)
    ensures Unblanked(a + b) == Unblanked(c + d)
  {
    UnblankedAppend(a, b);
    UnblankedAppend(c, d);
  }

  lemma HeadKeepsUnblanked(s: string, m: nat, head: string, trimmed: string)
    requires m <= |s| && Unblanked(head) == Unblanked(s[..m]) && Unblanked(trimmed) == Unblanked(s[m..])
    ensures Unblanked(head + trimmed) == Unblanked(s)
  {
    UnblankedAlike(head, trimmed, s[..m], s[m..]);
    assert s == s[..m] + s[m..];
  }

  lemma {:induction false} TrimOnlyTakesBlanks(s: string)
    ensures Unblanked(TrimNewlines(s)) == Unblanked(s)
    decreases |s|
  {
    if s != "" {
      var m := NewlineMatch(s);
      if m > 0 {
        TrimOnlyTakesBlanks(s[m..]);
        MatchIsOneBreak(s);
        assert Unblanked("\n") == "\n";
        HeadKeepsUnblanked(s, m, "\n", TrimNewlines(s[m..]));
      } else {
        TrimOnlyTakesBlanks(s[1..]);
        assert s[..1] == [s[0]];
        HeadKeepsUnblanked(s, 1, [s[0]], TrimNewlines(s[1..]));
      }
    }
  }

  /** Compression takes away the dropped words, spaces and tabs, and nothing else: every line break stays. */
  lemma OnlyWordsAndBlanksGo(text: string, kept: set<nat>)
    ensures Unblanked(Compressed(Tokens(text), kept)) == Unblanked(PlainAssembled(Tokens(text), kept, 0))
  {
    var joined := Assembled(Tokens(text), kept, 0, true);
    TokensAreTokenised(text);
    NoGapIsInserted(Tokens(text), kept, 0, true);
    CollapseOnlyTakesBlanks(joined);
    TrimOnlyTakesBlanks(CollapseBlanks(joined));
  }

  lemma {:induction false} CollapseLeavesTidy(s: string)
    requires NoBlankPair(s)
    ensures CollapseBlanks(s) == s
  {
    if s != "" {
      if IsBlank(s[0]) {
        assert BlankRun(s) == 1 by { if |s| > 1 { assert !IsBlank(s[1]); } }
      }
      CollapseLeavesTidy(s[1..]);
    }
  }

  lemma {:induction false} TrimLeavesTidy(s: string)
    requires Tidy(s)
    ensures TrimNewlines(s) == s
  {
    if s != "" {
      TidyMatch(s);
      assert forall i :: 0 <= i < |s| - 1 ==> s[1..][i] == s[i + 1];
      TrimLeavesTidy(s[1..]);
      assert s == [s[0]] + s[1..];
      if NewlineMatch(s) > 0 { assert [s[0]] == "\n"; }
    }
  }

  lemma TidyMatch(s: string)
    requires s != "" && Tidy(s)
    ensures if s[0] == '\n' then NewlineMatch(s) == 1 else NewlineMatch(s) == 0
  {
    if s[0] == ' ' && |s| > 1 { assert !IsBlank(s[1]) && s[1] != '\n'; }
    if s[0] == '\n' {
      assert SpaceRun(s) == 0;
      if |s| > 1 { assert s[1..][0] == s[1] && s[1] != ' '; }
      assert SpaceRun(s[1..]) == 0;
    }
  }

  /** A tidy text is left as it is by both rewrites, so compressing the white space twice is compressing it once. */
  lemma TidyIsLeftAlone(s: string)
    ensures Tidy(s) ==> TrimNewlines(CollapseBlanks(s)) == s
    ensures TrimNewlines(CollapseBlanks(TrimNewlines(CollapseBlanks(s)))) == TrimNewlines(CollapseBlanks(s))
  {
    CollapseLeavesNoPair(s);
    TrimIsTidy(CollapseBlanks(s));
    var t := TrimNewlines(CollapseBlanks(s));
    CollapseLeavesTidy(t);
    TrimLeavesTidy(t);
    if Tidy(s) {
      CollapseLeavesTidy(s);
      TrimLeavesTidy(s);
    }
  }

  // ----- the built-in scores

  lemma StopWordScoresLess(lx: Lexicon, tokens: seq<Token>, stop: nat, other: nat)
    requires stop < |tokens| && other < |tokens|
    requires !tokens[stop].structural && lx.stop(lx.lower(tokens[stop].text))
    requires !tokens[other].structural && !lx.stop(lx.lower(tokens[other].text))
    ensures Heuristic(lx, tokens)(stop) == 0.1 && Heuristic(lx, tokens)(other) > 1.0
  {
    OwnFrequency(lx, tokens, other);
  }

  lemma BetterIsKept(text: string, score: nat -> real, keep: nat, worse: nat, better: nat)
    requires keep <= WordCount(Tokens(text)) && better < |Tokens(text)| && !Tokens(text)[better].structural
    requires score(worse) < score(better)
    ensures var kept := Kept(Tokens(text), score, keep); worse in kept ==> better in kept
  {
    WordCountCountsWords(text, score);
    KeptAreTheBest(Tokens(text), score, keep);
  }

  /** Under the built-in scores a stop word outranks no other word, so one is kept only when every other word is. */
  lemma StopWordsGoFirst(lx: Lexicon, text: string, keep: nat, stop: nat, other: nat)
    requires keep <= WordCount(Tokens(text))
    requires stop < |Tokens(text)| && other < |Tokens(text)|
    requires !Tokens(text)[stop].structural && lx.stop(lx.lower(Tokens(text)[stop].text))
    requires !Tokens(text)[other].structural && !lx.stop(lx.lower(Tokens(text)[other].text))
    ensures var kept := Kept(Tokens(text), Heuristic(lx, Tokens(text)), keep); stop in kept ==> other in kept
  {
    StopWordScoresLess(lx, Tokens(text), stop, other);
    BetterIsKept(text, Heuristic(lx, Tokens(text)), keep, stop, other);
  }

  /** The words that are the same as token `i` but for their case. */
  function Same(lx: Lexicon, tokens: seq<Token>, key: string): set<nat> {
    set k: nat | k < |tokens| && !tokens[k].structural && lx.lower(tokens[k].text) == key
  }

  lemma {:induction false} FrequencyIsCount(lx: Lexicon, tokens: seq<Token>, key: string)
    ensures Frequency(lx, tokens, key) == |Same(lx, tokens, key)|
  {
    if tokens != [] {
      var n := |tokens| - 1;
      FrequencyIsCount(lx, tokens[..n], key);
      assert tokens == tokens[..n] + [tokens[n]];
      FrequencyAppend(lx, tokens[..n], [tokens[n]], key);
      assert Frequency(lx, [tokens[n]], key) == if !tokens[n].structural && lx.lower(tokens[n].text) == key then 1 else 0;
      assert Same(lx, tokens, key) == Same(lx, tokens[..n], key) + if !tokens[n].structural && lx.lower(tokens[n].text) == key then {n} else {};
    }
  }

  function Bonus(yes: bool, amount: real): real { if yes then amount else 0.0 }

  /** The built-in score of a word: a tenth for a stop word; for another, one, and one shared among its repetitions, with
      one more for a sign of code, a half for eight characters, and a half within a tenth of either end. */
  lemma ScoreOfWord(lx: Lexicon, tokens: seq<Token>, i: nat)
    requires i < |tokens| && !tokens[i].structural && tokens[i].index == i
    ensures |Same(lx, tokens, lx.lower(tokens[i].text))| > 0
    ensures var t := tokens[i]; var score := Heuristic(lx, tokens)(i);
      if lx.stop(lx.lower(t.text)) then score == 0.1
      else score == 1.0 + 1.0 / |Same(lx, tokens, lx.lower(t.text))| as real + Bonus(lx.code(t.text), 1.0)
                    + Bonus(|t.text| >= 8, 0.5) + Bonus(10 * i < |tokens| || 10 * i > 9 * |tokens|, 0.5)
  {
    OwnFrequency(lx, tokens, i);
    FrequencyIsCount(lx, tokens, lx.lower(tokens[i].text));
    TenthOf(i, |tokens|);
  }

  lemma TenthOf(i: nat, n: nat)
    requires n > 0
    ensures i as real / n as real < 0.1 <==> 10 * i < n
    ensures i as real / n as real > 0.9 <==> 10 * i > 9 * n
  {
    QuotientBound(i as real, n as real, 0.1);
    QuotientBound(i as real, n as real, 0.9);
  }

  lemma QuotientBound(x: real, n: real, c: real)
    requires n > 0.0
    ensures x / n < c <==> x < c * n
    ensures x / n > c <==> x > c * n
  {
    assert x / n * n == x;
    Scaled(x / n, c, n);
  }

  lemma Scaled(p: real, q: real, n: real)
    requires n > 0.0
    ensures p < q <==> p * n < q * n
    ensures p > q <==> p * n > q * n
  {
  }

  /** A rarer word outranks a more frequent one, all else being equal; nothing else decides between them. */
  lemma RarerOutranks(lx: Lexicon, tokens: seq<Token>, a: nat, b: nat)
    requires a < |tokens| && b < |tokens| && tokens[a].index == a && tokens[b].index == b
    requires !tokens[a].structural && !lx.stop(lx.lower(tokens[a].text))
    requires !tokens[b].structural && !lx.stop(lx.lower(tokens[b].text))
    requires lx.code(tokens[a].text) == lx.code(tokens[b].text) && (|tokens[a].text| >= 8) == (|tokens[b].text| >= 8)
    requires (10 * a < |tokens| || 10 * a > 9 * |tokens|) == (10 * b < |tokens| || 10 * b > 9 * |tokens|)
    ensures Heuristic(lx, tokens)(a) > Heuristic(lx, tokens)(b)
      <==> |Same(lx, tokens, lx.lower(tokens[a].text))| < |Same(lx, tokens, lx.lower(tokens[b].text))|
  {
    ScoreOfWord(lx, tokens, a);
    ScoreOfWord(lx, tokens, b);
    FewerIsMore(|Same(lx, tokens, lx.lower(tokens[a].text))|, |Same(lx, tokens, lx.lower(tokens[b].text))|);
  }

  lemma FewerIsMore(m: nat, n: nat)
    requires m > 0 && n > 0
    ensures 1.0 / m as real > 1.0 / n as real <==> m < n
  {
    var x, y := 1.0 / m as real, 1.0 / n as real;
    assert x * m as real == 1.0 && y * n as real == 1.0;
    if m < n {
      assert x * n as real > x * m as real by { assert x > 0.0; }
    } else {
      assert y * m as real >= y * n as real by { assert y > 0.0; }
    }
  }
}
