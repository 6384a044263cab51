/** Which rung of the ladder makes an edit, and what the elision rung substitutes, said of the texts alone. */
module FuzzyEditLadder {
  import opened Wrappers
  import opened PyText
  import opened FuzzyEdit
  import opened FuzzyEditGuarantees

  // ----- the rungs

  ghost predicate HasExact(whole: seq<string>, part: seq<string>) { part != [] && exists i :: ExactAt(whole, part, i) }
  ghost predicate HasAlike(whole: seq<string>, part: seq<string>) { part != [] && exists i :: AlikeAt(whole, part, i) }

  /** The search without its leading blank lines, when it has some and more than those. */
  ghost predicate LessBlanks(part: seq<string>, rest: seq<string>) {
    && rest != [] && !IsBlank(rest[0]) && |rest| < |part| && part[|part| - |rest|..] == rest
    && forall i :: 0 <= i < |part| - |rest| ==> IsBlank(part[i])
  }

  /** Stripping leading blank lines finds the only such rest. */
  lemma {:induction false} StrippedLines(part: seq<string>)
    ensures var r := StripLeadingBlanks(part);
      && (LessBlanks(part, r) <==> r != [] && |r| != |part|)
      && forall rest :: LessBlanks(part, rest) ==> r == rest
  {
    if part != [] && IsBlank(part[0]) {
      StrippedLines(part[1..]);
      var r := StripLeadingBlanks(part[1..]);
      forall rest | LessBlanks(part, rest)
        ensures r == rest
      {
        if |rest| < |part[1..]| {
          assert part[1..][|part[1..]| - |rest|..] == rest;
          assert forall i :: 0 <= i < |part[1..]| - |rest| ==> part[1..][i] == part[i + 1];
          assert LessBlanks(part[1..], rest);
        } else {
          assert part[1..] == rest;
        }
      }
      if r != [] {
        LeadingIsStripped(part);
      }
    }
  }

  lemma {:induction false} LeadingIsStripped(part: seq<string>)
    ensures var r := StripLeadingBlanks(part);
      && |r| <= |part| && part[|part| - |r|..] == r && (r != [] ==> !IsBlank(r[0]))
      && forall i :: 0 <= i < |part| - |r| ==> IsBlank(part[i])
  {
    if part != [] && IsBlank(part[0]) {
      LeadingIsStripped(part[1..]);
      var r := StripLeadingBlanks(part[1..]);
      assert part[1..][|part[1..]| - |r|..] == part[|part| - |r|..];
      forall i | 0 <= i < |part| - |r|
        ensures IsBlank(part[i])
      {
        if i > 0 { assert part[i] == part[1..][i - 1]; }
      }
    }
  }

  // ----- the segments between elisions

  function Flatten(segments: seq<seq<string>>, elisions: seq<string>): seq<string>
    requires |segments| == |elisions| + 1
  {
    if elisions == [] then segments[0]
    else Flatten(segments[..|segments| - 1], elisions[..|elisions| - 1]) + [elisions[|elisions| - 1]] + segments[|segments| - 1]
  }

  /** The segments and the elision lines between them make up the lines, and no elision line is inside a segment. */
  ghost predicate Cuts(lines: seq<string>, segments: seq<seq<string>>, elisions: seq<string>) {
    && |segments| == |elisions| + 1 && lines == Flatten(segments, elisions)
    && (forall e :: e in elisions ==> IsEllipsis(e))
    && (forall g, line :: g in segments && line in g ==> !IsEllipsis(line))
  }

  lemma {:induction false} SegmentsCut(lines: seq<string>) returns (elisions: seq<string>)
    ensures Cuts(lines, Segments(lines), elisions)
  {
    if lines == [] {
      elisions := [];
    } else {
      var before, line := lines[..|lines| - 1], lines[|lines| - 1];
      elisions := SegmentsCut(before);
      var segments, now := Segments(before), Segments(lines);
      assert lines == before + [line];
      if IsEllipsis(line) {
        assert now[..|now| - 1] == segments;
        assert (elisions + [line])[..|elisions|] == elisions;
        elisions := elisions + [line];
      } else {
        GrowLast(segments, elisions, line);
        forall g, l | g in now && l in g
          ensures !IsEllipsis(l)
        {
          var k :| 0 <= k < |now| && now[k] == g;
          assert segments[k] in segments;
          if k == |now| - 1 && l != line { assert l in segments[k]; }
        }
      }
    }
  }

  lemma GrowLast(segments: seq<seq<string>>, elisions: seq<string>, line: string)
    requires |segments| == |elisions| + 1
    ensures var grown := segments[|segments| - 1 := segments[|segments| - 1] + [line]];
      Flatten(grown, elisions) == Flatten(segments, elisions) + [line]
  {
    var grown := segments[|segments| - 1 := segments[|segments| - 1] + [line]];
    assert grown[..|grown| - 1] == segments[..|segments| - 1];
  }

  /** The elision rung cuts a text at its `...` lines, each of them, and nowhere else. */
  lemma SegmentsAreCutAtElisions(lines: seq<string>)
    ensures exists elisions :: Cuts(lines, Segments(lines), elisions)
    ensures HasEllipsis(lines) <==> |Segments(lines)| > 1
  {
    var elisions := SegmentsCut(lines);
    ManySegments(lines);
  }

  lemma {:induction false} ManySegments(lines: seq<string>)
    ensures HasEllipsis(lines) <==> |Segments(lines)| > 1
  {
    if lines != [] {
      var before, line := lines[..|lines| - 1], lines[|lines| - 1];
      ManySegments(before);
      if i :| 0 <= i < |before| && IsEllipsis(before[i]) { assert IsEllipsis(lines[i]); }
      if i :| 0 <= i < |lines| && IsEllipsis(lines[i]) {
        if i < |before| { assert IsEllipsis(before[i]); }
      }
    }
  }

  // ----- one segment after the other

  /** One segment: a blank one changes nothing; another is replaced at its leftmost occurrence, if it has only that. */
  ghost predicate Turn(before: string, search: seq<string>, replace: seq<string>, after: string) {
    if IsBlank(Concat(search)) then after == before
    else exists k: nat :: OnlyFrom(before, Concat(search), k)
                          && after == before[..k] + Concat(replace) + before[k + |Concat(search)|..]
  }

  lemma FoundIsOnly(s: string, needle: string)
    requires needle != "" && CountText(s, needle) == 1
    ensures FindText(s, needle).Some? && OnlyFrom(s, needle, FindText(s, needle).value)
    ensures forall k: nat :: OnlyFrom(s, needle, k) ==> k == FindText(s, needle).value
  {
    CountedOnce(s, needle);
    FindTextIsFirst(s, needle);
  }

  lemma SegmentTakesItsTurn(before: string, search: seq<string>, replace: seq<string>, after: string)
    ensures SubstituteSegment(before, search, replace) == Some(after) <==> Turn(before, search, replace, after)
  {
    var needle := Concat(search);
    if !IsBlank(needle) {
      BlankOfEmpty();
      if CountText(before, needle) == 1 { FoundIsOnly(before, needle); } else { CountedOnce(before, needle); }
    }
  }

  /** `texts` are the stages of the substitution, from the content to the result. */
  ghost predicate Stages(texts: seq<string>, search: seq<seq<string>>, replace: seq<seq<string>>)
    requires |search| == |replace|
  {
    |texts| == |search| + 1 && forall k :: 0 <= k < |search| ==> Turn(texts[k], search[k], replace[k], texts[k + 1])
  }

  ghost predicate Leads(content: string, search: seq<seq<string>>, replace: seq<seq<string>>, result: string)
    requires |search| == |replace|
  {
    exists texts :: Stages(texts, search, replace) && texts[0] == content && texts[|texts| - 1] == result
  }

  lemma LeadsOneMore(content: string, search: seq<seq<string>>, replace: seq<seq<string>>, next: string, result: string)
    requires search != [] && |search| == |replace|
    requires Turn(content, search[0], replace[0], next) && Leads(next, search[1..], replace[1..], result)
    ensures Leads(content, search, replace, result)
  {
    var texts :| Stages(texts, search[1..], replace[1..]) && texts[0] == next && texts[|texts| - 1] == result;
    var all := [content] + texts;
    forall k | 0 <= k < |search|
      ensures Turn(all[k], search[k], replace[k], all[k + 1])
    {
      if k > 0 { assert Turn(texts[k - 1], search[1..][k - 1], replace[1..][k - 1], texts[k]); }
    }
    assert Stages(all, search, replace) && all[0] == content && all[|all| - 1] == result;
  }

  lemma LeadsOneLess(content: string, search: seq<seq<string>>, replace: seq<seq<string>>, result: string) returns (next: string)
    requires search != [] && |search| == |replace| && Leads(content, search, replace, result)
    ensures Turn(content, search[0], replace[0], next) && Leads(next, search[1..], replace[1..], result)
  {
    var texts :| Stages(texts, search, replace) && texts[0] == content && texts[|texts| - 1] == result;
    next := texts[1];
    var rest := texts[1..];
    forall k | 0 <= k < |search[1..]|
      ensures Turn(rest[k], search[1..][k], replace[1..][k], rest[k + 1])
    {
      assert Turn(texts[k + 1], search[k + 1], replace[k + 1], texts[k + 2]);
    }
    assert Stages(rest, search[1..], replace[1..]) && rest[0] == next && rest[|rest| - 1] == result;
  }

  /** The elided segments are substituted one after the other, each in what the one before it left. */
  lemma {:induction false} SegmentsTakeTurns(content: string, search: seq<seq<string>>, replace: seq<seq<string>>, result: string)
    requires |search| == |replace|
    ensures SubstituteAll(content, search, replace) == Some(result) <==> Leads(content, search, replace, result)
    decreases |search|
  {
    if search == [] {
      if SubstituteAll(content, search, replace) == Some(result) { assert Stages([content], search, replace); }
    } else {
      if SubstituteAll(content, search, replace) == Some(result) {
        var next := SubstituteSegment(content, search[0], replace[0]).value;
        SegmentTakesItsTurn(content, search[0], replace[0], next);
        SegmentsTakeTurns(next, search[1..], replace[1..], result);
        LeadsOneMore(content, search, replace, next, result);
      }
      if Leads(content, search, replace, result) {
        var next := LeadsOneLess(content, search, replace, result);
        SegmentTakesItsTurn(content, search[0], replace[0], next);
        SegmentsTakeTurns(next, search[1..], replace[1..], result);
      }
    }
  }

  /** The elision rung makes the edit, and this is its result. */
  ghost predicate Elides(content: string, search: string, replace: string, result: string) {
    var s, r := Segments(Split(search)), Segments(Split(replace));
    HasEllipsis(Split(search)) && |s| == |r| && Leads(content, s, r, result)
  }

  lemma DotsElide(content: string, search: string, replace: string)
    ensures forall result :: DotsSpec(content, search, replace) == Some(result) <==> Elides(content, search, replace, result)
  {
    var s, r := Segments(Split(search)), Segments(Split(replace));
    if |s| == |r| {
      forall result
        ensures SubstituteAll(content, s, r) == Some(result) <==> Leads(content, s, r, result)
      {
        SegmentsTakeTurns(content, s, r, result);
      }
    }
  }

  // ----- the ladder

  /** An empty search appends. */
  lemma EmptySearchAppends(content: string, replace: string, ratio: (string, string) -> real)
    ensures ApplyEdit(content, "", replace, ratio) == Edited(content + replace, Exact)
  {
  }

  /** Some window of an allowed length is similar enough. */
  ghost predicate HasClose(whole: seq<string>, part: seq<string>, ratio: (string, string) -> real) {
    part != [] && exists s :: Allowed(whole, part, s) && Similarity(whole, part, ratio, s) >= 0.8
  }

  ghost predicate HasLessBlanks(whole: seq<string>, part: seq<string>) {
    exists rest :: LessBlanks(part, rest) && (HasExact(whole, rest) || HasAlike(whole, rest))
  }

  ghost predicate CanElide(content: string, search: string, replace: string) { exists result :: Elides(content, search, replace, result) }

  lemma ExactIff(whole: seq<string>, part: seq<string>, replace: seq<string>)
    ensures PerfectSpec(whole, part, replace).Some? <==> HasExact(whole, part)
    ensures WhitespaceSpec(whole, part, replace).Some? <==> HasAlike(whole, part)
  {
    FirstExactFacts(whole, part, 0);
    FirstAlikeFacts(whole, part, 0);
  }

  lemma LessBlanksIff(whole: seq<string>, part: seq<string>, replace: seq<string>)
    ensures var rest := StripLeadingBlanks(part);
      HasLessBlanks(whole, part) <==>
        rest != [] && |rest| != |part| && (PerfectSpec(whole, rest, replace).Some? || WhitespaceSpec(whole, rest, replace).Some?)
  {
    StrippedLines(part);
    ExactIff(whole, StripLeadingBlanks(part), replace);
  }

  lemma CanElideIff(content: string, search: string, replace: string)
    ensures DotsSpec(content, search, replace).Some? <==> CanElide(content, search, replace)
    ensures DotsSpec(content, search, replace).Some? ==> Elides(content, search, replace, DotsSpec(content, search, replace).value)
  {
    DotsElide(content, search, replace);
    var dots := DotsSpec(content, search, replace);
    if dots.Some? { assert Elides(content, search, replace, dots.value); }
  }

  lemma CloseIff(whole: seq<string>, part: seq<string>, replace: seq<string>, ratio: (string, string) -> real)
    requires part != []
    ensures FuzzySpec(whole, part, replace, ratio).0.Some? <==> HasClose(whole, part, ratio)
  {
    FuzzyTakesTheBest(whole, part, replace, ratio);
  }

  /** The first rung that can make the edit makes it: a line-exact window, one alike modulo white space, either of these
      without the leading blank lines, the elision, the closest window; and an edit that none can make is refused. */
  lemma FirstRungEdits(content: string, search: string, replace: string, ratio: (string, string) -> real)
    requires search != ""
    ensures var r, whole, part := ApplyEdit(content, search, replace, ratio), Split(content), Split(search);
      if HasExact(whole, part) then r.Edited? && r.strategy.Exact?
      else if HasAlike(whole, part) then r.Edited? && r.strategy.Whitespace?
      else if HasLessBlanks(whole, part) then r.Edited? && r.strategy.LeadingBlank?
      else if CanElide(content, search, replace) then r.Edited? && r.strategy.DotDotDot? && Elides(content, search, replace, r.content)
      else if HasClose(whole, part, ratio) then r.Edited? && r.strategy.FuzzyMatch?
      else r.Refused?
  {
    var whole, part, repl := Split(content), Split(search), Split(replace);
    SplitIsProper(search);
    ExactIff(whole, part, repl);
    LessBlanksIff(whole, part, repl);
    CanElideIff(content, search, replace);
    CloseIff(whole, part, repl, ratio);
  }

  /** The lengths of window that the last rung tries: from nine tenths of the search's, cut off, to eleven tenths, rounded. */
  lemma AllowedLengths(n: nat)
    requires n > 0
    ensures 1 <= MinLength(n) <= n <= MaxLength(n)
    ensures n > 1 ==> MinLength(n) as real <= n as real * 0.9 < MinLength(n) as real + 1.0
    ensures -0.5 <= MaxLength(n) as real - n as real * 1.1 <= 0.5
  {
    RoundIsNearest(n as real * 1.1);
    assert Round(n as real * 1.1) as real > n as real - 0.5;
    assert n > 1 ==> (n as real * 0.9).Floor >= 1;
  }

  // ----- blocks

  /** One block is one edit. */
  lemma OneBlockIsOneEdit(content: string, b: Block, ratio: (string, string) -> real)
    ensures ApplyAll(content, [b], ratio) ==
      match ApplyEdit(content, b.search, b.replace, ratio)
      case Edited(text, strategy) => BlocksEdited(text, [strategy])
      case Refused(best) => BlocksRefused(content, 0, best)
    ensures ApplyAll(content, [], ratio) == BlocksEdited(content, [])
  {
    assert [b][1..] == [];
    match ApplyEdit(content, b.search, b.replace, ratio)
    case Refused(_) =>
    case Edited(text, strategy) =>
      assert Fold(text, [], ratio) == Done(text, []);
      assert [strategy] + [] == [strategy];
  }
}
