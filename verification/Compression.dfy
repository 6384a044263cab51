/** Prompt compression (`core-py/klein_core/compression.py`): tokenise, score, keep the top tokens, rewrite whitespace. */
module Compression {
  import opened Wrappers
  import opened Sorting
  import opened PyText

  // ----- characters

  predicate IsBlank(c: char) { c == ' ' || c == '\t' }

  predicate AllSpace(s: string) { forall i :: 0 <= i < |s| ==> IsSpace(s[i]) }

  // ----- tokens

  /** Length of the leading run of characters that are (`space`) or are not (`!space`) white space. */
  function Run(s: string, space: bool): (n: nat)
    ensures n <= |s|
    ensures forall i :: 0 <= i < n ==> IsSpace(s[i]) == space
    ensures n < |s| ==> IsSpace(s[n]) != space
  {
    if s == "" || IsSpace(s[0]) != space then 0 else 1 + Run(s[1..], space)
  }

  /** The matches of `\s+|\S+`, left to right. */
  function Pieces(s: string): seq<string> {
    if s == "" then []
    else var n := Run(s, IsSpace(s[0])); [s[..n]] + Pieces(s[n..])
  }

  predicate Structural(piece: string) { piece != "" && AllSpace(piece) }

  datatype Token = Token(text: string, index: nat, structural: bool)

  function TokenAt(pieces: seq<string>, i: nat): Token
    requires i < |pieces|
  {
    Token(pieces[i], i, Structural(pieces[i]))
  }

  function Tokens(text: string): (tokens: seq<Token>) {
    var p := Pieces(text);
    seq(|p|, i requires 0 <= i < |p| => TokenAt(p, i))
  }

  method Tokenize(text: string) returns (tokens: seq<Token>)
    ensures tokens == Tokens(text)
  {
    tokens := [];
    var rest := text;
    while rest != ""
      invariant |tokens| <= |Pieces(text)| && Pieces(text)[|tokens|..] == Pieces(rest)
      invariant forall i :: 0 <= i < |tokens| ==> tokens[i] == TokenAt(Pieces(text), i)
      decreases |rest|
    {
      var n := Run(rest, IsSpace(rest[0]));
      var piece := rest[..n];
      assert Pieces(rest)[0] == piece && Pieces(rest)[1..] == Pieces(rest[n..]);
      assert Pieces(text)[|tokens|] == piece;
      tokens := tokens + [Token(piece, |tokens|, Structural(piece))];
      rest := rest[n..];
    }
  }

  // ----- scores

  /** `lower` is Python's `str.lower`, `stop` the stop-word set, `code` the search for a code signal. */
  datatype Lexicon = Lexicon(lower: string -> string, stop: string -> bool, code: string -> bool)

  function Frequency(lx: Lexicon, tokens: seq<Token>, key: string): nat {
    if tokens == [] then 0
    else (if !tokens[0].structural && lx.lower(tokens[0].text) == key then 1 else 0) + Frequency(lx, tokens[1..], key)
  }

  function WordScore(lx: Lexicon, t: Token, frequency: nat, total: nat): real
    requires frequency > 0 && total > 0
  {
    if lx.stop(lx.lower(t.text)) then 0.1
    else
      var position := t.index as real / total as real;
      1.0 + 1.0 / frequency as real
      + (if lx.code(t.text) then 1.0 else 0.0)
      + (if |t.text| >= 8 then 0.5 else 0.0)
      + (if position < 0.1 || position > 0.9 then 0.5 else 0.0)
  }

  /** A structural token scores infinity, which is `None` here. */
  function ScoreAt(lx: Lexicon, tokens: seq<Token>, i: nat): Option<real>
    requires i < |tokens|
  {
    var t := tokens[i];
    if t.structural then None
    else
      OwnFrequency(lx, tokens, i);
      Some(WordScore(lx, t, Frequency(lx, tokens, lx.lower(t.text)), |tokens|))
  }

  lemma {:induction false} OwnFrequency(lx: Lexicon, tokens: seq<Token>, i: nat)
    requires i < |tokens| && !tokens[i].structural
    ensures Frequency(lx, tokens, lx.lower(tokens[i].text)) > 0
  {
    if i > 0 { OwnFrequency(lx, tokens[1..], i - 1); }
  }

  lemma {:induction false} FrequencyAppend(lx: Lexicon, a: seq<Token>, b: seq<Token>, key: string)
    ensures Frequency(lx, a + b, key) == Frequency(lx, a, key) + Frequency(lx, b, key)
  {
    if a == [] {
      assert a + b == b;
    } else {
      assert (a + b)[1..] == a[1..] + b;
      FrequencyAppend(lx, a[1..], b, key);
    }
  }

  method CountWords(lx: Lexicon, tokens: seq<Token>) returns (frequency: map<string, nat>)
    ensures forall key :: (key in frequency <==> Frequency(lx, tokens, key) > 0)
                       && (key in frequency ==> frequency[key] == Frequency(lx, tokens, key))
  {
    frequency := map[];
    for i := 0 to |tokens|
      invariant forall key :: (key in frequency <==> Frequency(lx, tokens[..i], key) > 0)
                           && (key in frequency ==> frequency[key] == Frequency(lx, tokens[..i], key))
    {
      var t := tokens[i];
      forall key
        ensures Frequency(lx, tokens[..i + 1], key)
             == Frequency(lx, tokens[..i], key) + if !t.structural && lx.lower(t.text) == key then 1 else 0
      {
        assert tokens[..i + 1] == tokens[..i] + [t];
        FrequencyAppend(lx, tokens[..i], [t], key);
      }
      if !t.structural {
        var key := lx.lower(t.text);
        frequency := frequency[key := (if key in frequency then frequency[key] else 0) + 1];
      }
    }
    assert tokens[..|tokens|] == tokens;
  }

  method HeuristicTokenScores(lx: Lexicon, tokens: seq<Token>) returns (scores: seq<Option<real>>)
    ensures |scores| == |tokens|
    ensures forall i :: 0 <= i < |tokens| ==> scores[i] == ScoreAt(lx, tokens, i)
  {
    var frequency := CountWords(lx, tokens);
    scores := [];
    for i := 0 to |tokens|
      invariant |scores| == i
      invariant forall k :: 0 <= k < i ==> scores[k] == ScoreAt(lx, tokens, k)
    {
      var t := tokens[i];
      if t.structural {
        scores := scores + [None];
      } else {
        OwnFrequency(lx, tokens, i);
        scores := scores + [Some(WordScore(lx, t, frequency[lx.lower(t.text)], |tokens|))];
      }
    }
  }

  // ----- selection

  datatype Ranked = Ranked(score: real, index: nat)

  function ByScore(): (Ranked, Ranked) -> bool { (a: Ranked, b: Ranked) => a.score >= b.score }
  function ByScoreThenIndex(): (Ranked, Ranked) -> bool {
    (a: Ranked, b: Ranked) => a.score > b.score || (a.score == b.score && a.index < b.index)
  }

  /** The words' `(score, index)` pairs, in text order, starting at token `i`. */
  function Scored(tokens: seq<Token>, score: nat -> real, i: nat): (r: seq<Ranked>)
    requires i <= |tokens|
    decreases |tokens| - i
  {
    if i == |tokens| then []
    else if tokens[i].structural then Scored(tokens, score, i + 1)
    else [Ranked(score(i), i)] + Scored(tokens, score, i + 1)
  }

  function Indices(s: seq<Ranked>): set<nat> { set r | r in s :: r.index }

  function Kept(tokens: seq<Token>, score: nat -> real, keep: nat): set<nat>
  {
    var ranked := Sort(Scored(tokens, score, 0), ByScore());
    Indices(if keep <= |ranked| then ranked[..keep] else ranked)
  }

  // ----- reassembly

  /** The assembly loop from token `i` on; `previous` is the `previous_structural` flag. */
  function Assembled(tokens: seq<Token>, kept: set<nat>, i: nat, previous: bool): string
    requires i <= |tokens|
    decreases |tokens| - i
  {
    if i == |tokens| then ""
    else if tokens[i].structural then tokens[i].text + Assembled(tokens, kept, i + 1, true)
    else if tokens[i].index in kept then tokens[i].text + Assembled(tokens, kept, i + 1, false)
    else if !previous then " " + Assembled(tokens, kept, i + 1, true)
    else Assembled(tokens, kept, i + 1, previous)
  }

  function BlankRun(s: string): (n: nat)
    ensures n <= |s| && (forall i :: 0 <= i < n ==> IsBlank(s[i])) && (n < |s| ==> !IsBlank(s[n]))
  {
    if s == "" || !IsBlank(s[0]) then 0 else 1 + BlankRun(s[1..])
  }

  /** `re.sub(r"[ \t]{2,}", " ", s)` */
  function CollapseBlanks(s: string): string {
    if s == "" then ""
    else if IsBlank(s[0]) then
      var n := BlankRun(s);
      (if n >= 2 then " " else s[..1]) + CollapseBlanks(s[n..])
    else [s[0]] + CollapseBlanks(s[1..])
  }

  function SpaceRun(s: string): (n: nat)
    ensures n <= |s| && (forall i :: 0 <= i < n ==> s[i] == ' ') && (n < |s| ==> s[n] != ' ')
  {
    if s == "" || s[0] != ' ' then 0 else 1 + SpaceRun(s[1..])
  }

  /** The length of the match of ` *\n *` at the start of `s`, or 0. */
  function NewlineMatch(s: string): (m: nat)
    ensures m <= |s|
    ensures forall i :: 0 <= i < m ==> s[i] == ' ' || s[i] == '\n'
    ensures 0 < m < |s| ==> s[m] != ' '
  {
    var n := SpaceRun(s);
    if n < |s| && s[n] == '\n' then
      var k := SpaceRun(s[n + 1..]);
      assert forall i :: n < i < n + 1 + k ==> s[i] == s[n + 1..][i - n - 1];
      n + 1 + k
    else 0
  }

  /** `re.sub(r" *\n *", "\n", s)` */
  function TrimNewlines(s: string): string {
    if s == "" then ""
    else
      var m := NewlineMatch(s);
      if m > 0 then "\n" + TrimNewlines(s[m..]) else [s[0]] + TrimNewlines(s[1..])
  }

  function Compressed(tokens: seq<Token>, kept: set<nat>): string {
    TrimNewlines(CollapseBlanks(Assembled(tokens, kept, 0, true)))
  }

  method Assemble(tokens: seq<Token>, kept: set<nat>) returns (text: string)
    ensures text == Assembled(tokens, kept, 0, true)
  {
    text := "";
    var previous := true;
    for i := 0 to |tokens|
      invariant text + Assembled(tokens, kept, i, previous) == Assembled(tokens, kept, 0, true)
    {
      ghost var goal := text + Assembled(tokens, kept, i, previous);
      if tokens[i].structural {
        text, previous := text + tokens[i].text, true;
      } else if tokens[i].index in kept {
        text, previous := text + tokens[i].text, false;
      } else if !previous {
        text, previous := text + " ", true;
      }
      assert text + Assembled(tokens, kept, i + 1, previous) == goal;
    }
  }

  // ----- the whole

  datatype CompressResult = CompressResult(compressed: string, originalTokenCount: nat, keptTokenCount: nat, keptRatio: real)

  function Clamp(x: real): real { if x < 0.0 then 0.0 else if x > 1.0 then 1.0 else x }

  function WordCount(tokens: seq<Token>): nat { |Scored(tokens, (i: nat) => 0.0, 0)| }

  function KeepCount(words: nat, ratio: real): int {
    var k := Round(words as real * ratio);
    if k < 1 then 1 else k
  }

  /** A score list of the caller's that is too short is an `IndexError`. */
  predicate ScoresReach(tokens: seq<Token>, scores: seq<real>) {
    forall i :: 0 <= i < |tokens| && !tokens[i].structural ==> i < |scores|
  }

  function Lookup(scores: seq<real>): nat -> real { (i: nat) => if i < |scores| then scores[i] else 0.0 }

  /** What the compressor returns for the word scores `score`. */
  function Outcome(text: string, targetRatio: real, score: nat -> real): CompressResult {
    var tokens, ratio := Tokens(text), Clamp(targetRatio);
    var words := WordCount(tokens);
    if words == 0 || ratio >= 1.0 then CompressResult(text, words, words, 1.0)
    else
      var kept := Kept(tokens, score, KeepCount(words, ratio));
      CompressResult(Compressed(tokens, kept), words, |kept|, |kept| as real / words as real)
  }

  function Heuristic(lx: Lexicon, tokens: seq<Token>): nat -> real {
    (i: nat) => if i < |tokens| then ScoreAt(lx, tokens, i).GetOr(0.0) else 0.0
  }

  lemma {:induction false} ScoredAlike(tokens: seq<Token>, f: nat -> real, g: nat -> real, i: nat)
    requires i <= |tokens|
    requires forall k :: i <= k < |tokens| && !tokens[k].structural ==> f(k) == g(k)
    ensures Scored(tokens, f, i) == Scored(tokens, g, i)
    decreases |tokens| - i
  {
    if i < |tokens| { ScoredAlike(tokens, f, g, i + 1); }
  }

  lemma {:induction false} ScoredSize(tokens: seq<Token>, f: nat -> real, g: nat -> real, i: nat)
    requires i <= |tokens|
    ensures |Scored(tokens, f, i)| == |Scored(tokens, g, i)|
    decreases |tokens| - i
  {
    if i < |tokens| { ScoredSize(tokens, f, g, i + 1); }
  }

  method CompressByTokenImportance(lx: Lexicon, text: string, targetRatio: real, scores: Option<seq<real>>)
    returns (result: Option<CompressResult>)
    ensures var tokens := Tokens(text);
      var trivial := WordCount(tokens) == 0 || Clamp(targetRatio) >= 1.0;
      && (result.None? <==> !trivial && scores.Some? && !ScoresReach(tokens, scores.value))
      && (result.None? || result.value
            == Outcome(text, targetRatio, if scores.Some? then Lookup(scores.value) else Heuristic(lx, tokens)))
  {
    var tokens := Tokenize(text);
    var ratio := Clamp(targetRatio);
    var original := WordCount(tokens);
    if original == 0 || ratio >= 1.0 {
      return Some(CompressResult(text, original, original, 1.0));
    }
    var score: nat -> real;
    if scores.Some? {
      if !ScoresReach(tokens, scores.value) { return None; }
      score := Lookup(scores.value);
    } else {
      var own := HeuristicTokenScores(lx, tokens);
      score := (i: nat) => if i < |own| then own[i].GetOr(0.0) else 0.0;
      ScoredAlike(tokens, score, Heuristic(lx, tokens), 0);
    }
    var kept := Kept(tokens, score, KeepCount(original, ratio));
    var joined := Assemble(tokens, kept);
    var compressed := TrimNewlines(CollapseBlanks(joined));
    return Some(CompressResult(compressed, original, |kept|, |kept| as real / original as real));
  }
}
