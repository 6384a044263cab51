/** The lenient search/replace ladder (`core-py/klein_core/fuzzy_edit.py`): exact, white-space-flexible, leading-blank,
    `...` elision, closest window; and the fold over several blocks. */
module FuzzyEdit {
  import opened Wrappers
  import opened PyText

  // ----- windows

  function Window(whole: seq<string>, i: nat, n: nat): seq<string>
    requires i + n <= |whole|
  {
    whole[i..i + n]
  }

  /** `whole` with the `n` lines from `i` on replaced. */
  function Replaced(whole: seq<string>, i: nat, n: nat, replace: seq<string>): seq<string>
    requires i + n <= |whole|
  {
    whole[..i] + replace + whole[i + n..]
  }

  /** The number of places where a window of `n` lines starts. */
  function Places(whole: seq<string>, n: nat): nat { if n <= |whole| then |whole| - n + 1 else 0 }

  // ----- the exact rung

  predicate ExactAt(whole: seq<string>, part: seq<string>, i: nat) {
    i + |part| <= |whole| && Window(whole, i, |part|) == part
  }

  method Perfect(whole: seq<string>, part: seq<string>, replace: seq<string>) returns (r: Option<seq<string>>)
    ensures r == PerfectSpec(whole, part, replace)
  {
    if part == [] { return None; }
    for i := 0 to Places(whole, |part|)
      invariant FirstExact(whole, part, i) == FirstExact(whole, part, 0)
    {
      if whole[i..i + |part|] == part {
        return Some(whole[..i] + replace + whole[i + |part|..]);
      }
    }
    return None;
  }

  /** The least place from `i` on where the window is `part`. */
  function FirstExact(whole: seq<string>, part: seq<string>, i: nat): Option<nat>
    decreases Places(whole, |part|) - i
  {
    if i >= Places(whole, |part|) then None
    else if ExactAt(whole, part, i) then Some(i)
    else FirstExact(whole, part, i + 1)
  }

  function PerfectSpec(whole: seq<string>, part: seq<string>, replace: seq<string>): Option<seq<string>> {
    if part == [] then None
    else match FirstExact(whole, part, 0)
      case Some(i) => FirstExactFacts(whole, part, 0); Some(Replaced(whole, i, |part|, replace))
      case None => None
  }

  lemma {:induction false} FirstExactFacts(whole: seq<string>, part: seq<string>, i: nat)
    ensures match FirstExact(whole, part, i)
      case Some(k) => i <= k && ExactAt(whole, part, k) && forall j :: i <= j < k ==> !ExactAt(whole, part, j)
      case None => forall j :: i <= j ==> !ExactAt(whole, part, j)
    decreases Places(whole, |part|) - i
  {
    if i < Places(whole, |part|) && !ExactAt(whole, part, i) { FirstExactFacts(whole, part, i + 1); }
  }

  // ----- the white-space rung

  predicate IsBlankChar(c: char) { c == ' ' || c == '\t' }

  function IndentLength(line: string): (n: nat)
    ensures n <= |line|
  {
    if line == "" || !IsBlankChar(line[0]) then 0 else 1 + IndentLength(line[1..])
  }

  lemma {:induction false} IndentIsBlank(line: string)
    ensures forall k :: 0 <= k < IndentLength(line) ==> IsBlankChar(line[k])
    ensures IndentLength(line) < |line| ==> !IsBlankChar(line[IndentLength(line)])
  {
    if line != "" && IsBlankChar(line[0]) { IndentIsBlank(line[1..]); }
  }

  function LeadingWs(line: string): string { line[..IndentLength(line)] }
  function Body(line: string): string { line[IndentLength(line)..] }

  predicate IsBlank(line: string) { Strip(line) == "" }

  /** The window at `i` and `part` differ only in the white space around each line. */
  predicate AlikeAt(whole: seq<string>, part: seq<string>, i: nat) {
    i + |part| <= |whole| && forall j | 0 <= j < |part| :: Strip(whole[i + j]) == Strip(part[j])
  }

  function FirstAlike(whole: seq<string>, part: seq<string>, i: nat): Option<nat>
    decreases Places(whole, |part|) - i
  {
    if i >= Places(whole, |part|) then None
    else if AlikeAt(whole, part, i) then Some(i)
    else FirstAlike(whole, part, i + 1)
  }

  lemma {:induction false} FirstAlikeFacts(whole: seq<string>, part: seq<string>, i: nat)
    ensures match FirstAlike(whole, part, i)
      case Some(k) => i <= k && AlikeAt(whole, part, k) && forall j :: i <= j < k ==> !AlikeAt(whole, part, j)
      case None => forall j :: i <= j ==> !AlikeAt(whole, part, j)
    decreases Places(whole, |part|) - i
  {
    if i < Places(whole, |part|) && !AlikeAt(whole, part, i) { FirstAlikeFacts(whole, part, i + 1); }
  }

  /** The first line of `part` with text on it. */
  function FirstNonBlank(part: seq<string>): (r: Option<nat>)
    ensures r.Some? ==> r.value < |part|
  {
    if part == [] then None
    else if !IsBlank(part[0]) then Some(0)
    else match FirstNonBlank(part[1..]) case Some(k) => Some(k + 1) case None => None
  }

  lemma {:induction false} FirstNonBlankIsFirst(part: seq<string>)
    ensures match FirstNonBlank(part)
      case Some(k) => !IsBlank(part[k]) && forall j :: 0 <= j < k ==> IsBlank(part[j])
      case None => forall j :: 0 <= j < |part| ==> IsBlank(part[j])
  {
    if part != [] && IsBlank(part[0]) {
      FirstNonBlankIsFirst(part[1..]);
      assert forall j :: 1 <= j < |part| ==> part[j] == part[1..][j - 1];
    }
  }

  /** An indentation moved from the block's to the file's; one that does not start with the block's is only prefixed. */
  function MovedIndent(current: string, fileIndent: string, partIndent: string): string {
    fileIndent + if partIndent <= current then current[|partIndent|..] else current
  }

  /** A line moved from the block's indentation to the file's; a blank line stays as it is. */
  function ReindentLine(line: string, fileIndent: string, partIndent: string): string {
    if IsBlank(line) then line else MovedIndent(LeadingWs(line), fileIndent, partIndent) + Body(line)
  }

  function Reindent(lines: seq<string>, fileIndent: string, partIndent: string): seq<string> {
    seq(|lines|, k requires 0 <= k < |lines| => ReindentLine(lines[k], fileIndent, partIndent))
  }

  function ReindentedFor(whole: seq<string>, part: seq<string>, replace: seq<string>, i: nat): seq<string>
    requires i + |part| <= |whole|
  {
    ReindentedBy(whole, part, replace, i, FirstNonBlank(part))
  }

  /** Re-indented as the line `first` of the block is in the window. */
  function ReindentedBy(whole: seq<string>, part: seq<string>, replace: seq<string>, i: nat, first: Option<nat>): seq<string>
    requires i + |part| <= |whole| && (first.Some? ==> first.value < |part|)
  {
    match first
    case None => replace
    case Some(k) => Moved(replace, LeadingWs(whole[i + k]), LeadingWs(part[k]))
  }

  /** The lines moved from one indentation to another, where these differ. */
  function Moved(replace: seq<string>, fileIndent: string, partIndent: string): seq<string> {
    if fileIndent == partIndent then replace else Reindent(replace, fileIndent, partIndent)
  }

  function WhitespaceSpec(whole: seq<string>, part: seq<string>, replace: seq<string>): Option<seq<string>> {
    if part == [] then None
    else match FirstAlike(whole, part, 0)
      case Some(i) => FirstAlikeFacts(whole, part, 0); Some(Replaced(whole, i, |part|, ReindentedFor(whole, part, replace, i)))
      case None => None
  }

  method ReindentLines(replace: seq<string>, fileIndent: string, partIndent: string) returns (r: seq<string>)
    ensures r == Reindent(replace, fileIndent, partIndent)
  {
    r := [];
    for k := 0 to |replace|
      invariant |r| == k && forall j :: 0 <= j < k ==> r[j] == ReindentLine(replace[j], fileIndent, partIndent)
    {
      var line := replace[k];
      if IsBlank(line) {
        r := r + [line];
      } else {
        var current := LeadingWs(line);
        var without := if partIndent <= current then current[|partIndent|..] else current;
        r := r + [fileIndent + without + line[|current|..]];
      }
    }
  }

  method MoveLines(replace: seq<string>, fileIndent: string, partIndent: string) returns (r: seq<string>)
    ensures r == Moved(replace, fileIndent, partIndent)
  {
    if fileIndent == partIndent { return replace; }
    r := ReindentLines(replace, fileIndent, partIndent);
  }

  method ReindentToWindow(whole: seq<string>, part: seq<string>, replace: seq<string>, i: nat, first: Option<nat>)
    returns (r: seq<string>)
    requires i + |part| <= |whole| && (first.Some? ==> first.value < |part|)
    ensures r == ReindentedBy(whole, part, replace, i, first)
  {
    r := replace;
    if first.Some? {
      r := MoveLines(replace, LeadingWs(whole[i + first.value]), LeadingWs(part[first.value]));
    }
  }

  method WhitespaceFlexible(whole: seq<string>, part: seq<string>, replace: seq<string>) returns (r: Option<seq<string>>)
    ensures r == WhitespaceSpec(whole, part, replace)
  {
    if part == [] { return None; }
    var firstNonBlank := FirstNonBlank(part);
    for i := 0 to Places(whole, |part|)
      invariant FirstAlike(whole, part, i) == FirstAlike(whole, part, 0)
    {
      if AlikeAt(whole, part, i) {
        var reindented := ReindentToWindow(whole, part, replace, i, firstNonBlank);
        return Some(whole[..i] + reindented + whole[i + |part|..]);
      }
    }
    return None;
  }

  // ----- leading blank lines

  function StripLeadingBlanks(lines: seq<string>): (r: seq<string>)
    ensures |r| <= |lines|
  {
    if lines == [] || !IsBlank(lines[0]) then lines else StripLeadingBlanks(lines[1..])
  }

  // ----- the elision rung

  predicate IsEllipsis(line: string) { Strip(line) == "..." }

  /** The runs of lines between the `...` lines. */
  function Segments(lines: seq<string>): (r: seq<seq<string>>)
    ensures r != []
  {
    if lines == [] then [[]]
    else
      var before, line := Segments(lines[..|lines| - 1]), lines[|lines| - 1];
      if IsEllipsis(line) then before + [[]]
      else before[|before| - 1 := before[|before| - 1] + [line]]
  }

  method SplitSegments(lines: seq<string>) returns (out: seq<seq<string>>)
    ensures out == Segments(lines)
  {
    out := [[]];
    for i := 0 to |lines|
      invariant out == Segments(lines[..i])
    {
      ghost var next := lines[..i + 1];
      assert next[..|next| - 1] == lines[..i] && next[|next| - 1] == lines[i];
      if IsEllipsis(lines[i]) {
        out := out + [[]];
      } else {
        out := out[|out| - 1 := out[|out| - 1] + [lines[i]]];
      }
    }
    assert lines[..|lines|] == lines;
  }

  /** The place of the first occurrence of `needle` in `s` (`str.find`). */
  function FindText(s: string, needle: string): (r: Option<nat>)
    ensures r.Some? ==> r.value + |needle| <= |s| && s[r.value..r.value + |needle|] == needle
  {
    if needle <= s then Some(0)
    else if s == "" then None
    else match FindText(s[1..], needle) case Some(k) => Some(k + 1) case None => None
  }

  /** The number of non-overlapping occurrences, from the left (`str.count`). */
  function CountText(s: string, needle: string): nat
    requires needle != ""
    decreases |s|
  {
    match FindText(s, needle)
    case None => 0
    case Some(k) => 1 + CountText(s[k + |needle|..], needle)
  }

  /** One segment: skipped when blank, refused when it does not occur exactly once, else substituted. */
  function SubstituteSegment(current: string, search: seq<string>, replace: seq<string>): Option<string> {
    var needle := Concat(search);
    if IsBlank(needle) then Some(current)
    else
      BlankOfEmpty();
      if CountText(current, needle) != 1 then None
      else
        var k := FindText(current, needle).value;
        Some(current[..k] + Concat(replace) + current[k + |needle|..])
  }

  lemma BlankOfEmpty()
    ensures IsBlank("")
  {
  }

  function SubstituteAll(current: string, search: seq<seq<string>>, replace: seq<seq<string>>): Option<string>
    requires |search| == |replace|
    decreases |search|
  {
    if search == [] then Some(current)
    else match SubstituteSegment(current, search[0], replace[0])
      case None => None
      case Some(next) => SubstituteAll(next, search[1..], replace[1..])
  }

  lemma OneSegment(current: string, search: seq<seq<string>>, replace: seq<seq<string>>, i: nat)
    requires i < |search| == |replace|
    ensures SubstituteAll(current, search[i..], replace[i..])
      == match SubstituteSegment(current, search[i], replace[i])
         case None => None
         case Some(next) => SubstituteAll(next, search[i + 1..], replace[i + 1..])
  {
    assert search[i..][1..] == search[i + 1..] && replace[i..][1..] == replace[i + 1..];
  }

  predicate HasEllipsis(lines: seq<string>) { exists i | 0 <= i < |lines| :: IsEllipsis(lines[i]) }

  function DotsSpec(content: string, search: string, replace: string): Option<string> {
    var s, r := Segments(Split(search)), Segments(Split(replace));
    if !HasEllipsis(Split(search)) || |s| != |r| then None else SubstituteAll(content, s, r)
  }

  method DotDotDots(content: string, search: string, replace: string) returns (result: Option<string>)
    ensures result == DotsSpec(content, search, replace)
  {
    var searchLines := Split(search);
    if !HasEllipsis(searchLines) { return None; }
    var searchSegments := SplitSegments(searchLines);
    var replaceSegments := SplitSegments(Split(replace));
    if |searchSegments| != |replaceSegments| { return None; }
    var current := content;
    for i := 0 to |searchSegments|
      invariant SubstituteAll(current, searchSegments[i..], replaceSegments[i..])
             == SubstituteAll(content, searchSegments, replaceSegments)
    {
      OneSegment(current, searchSegments, replaceSegments, i);
      var needle := Concat(searchSegments[i]);
      if !IsBlank(needle) {
        BlankOfEmpty();
        if CountText(current, needle) != 1 { return None; }
        var k := FindText(current, needle).value;
        current := current[..k] + Concat(replaceSegments[i]) + current[k + |needle|..];
      }
    }
    return Some(current);
  }

  // ----- the closest window

  function MinLength(n: nat): nat { var k := (n as real * 0.9).Floor; if k < 1 then 1 else k }
  function MaxLength(n: nat): nat { var k := Round(n as real * 1.1); if k < MinLength(n) then MinLength(n) else k }

  datatype Spot = Spot(start: nat, length: nat)

  /** The windows of one length, left to right. */
  function SpotsOf(whole: seq<string>, length: nat): seq<Spot> {
    seq(Places(whole, length), i requires 0 <= i => Spot(i, length))
  }

  /** All windows the rung tries, in the order it tries them: lengths `lo` to `hi`, each left to right. */
  function Spots(whole: seq<string>, lo: nat, hi: int): seq<Spot>
    decreases hi - lo + 1
  {
    if lo > hi then [] else Spots(whole, lo, hi - 1) + SpotsOf(whole, hi)
  }

  function Similarity(whole: seq<string>, part: seq<string>, ratio: (string, string) -> real, s: Spot): real {
    if s.start + s.length <= |whole| then ratio(Concat(Window(whole, s.start, s.length)), Concat(part)) else 0.0
  }

  /** The best so far: its similarity, and the window unless nothing has beaten zero. */
  datatype Best = Best(similarity: real, spot: Option<Spot>)

  function Better(b: Best, s: Spot, sim: real): Best { if sim > b.similarity then Best(sim, Some(s)) else b }

  function BestOf(whole: seq<string>, part: seq<string>, ratio: (string, string) -> real, spots: seq<Spot>): Best {
    if spots == [] then Best(0.0, None)
    else
      var s := spots[|spots| - 1];
      Better(BestOf(whole, part, ratio, spots[..|spots| - 1]), s, Similarity(whole, part, ratio, s))
  }

  function FuzzyBest(whole: seq<string>, part: seq<string>, ratio: (string, string) -> real): Best {
    if part == [] then Best(0.0, None)
    else BestOf(whole, part, ratio, Spots(whole, MinLength(|part|), MaxLength(|part|)))
  }

  const FUZZY_THRESHOLD := 0.8

  lemma {:induction false} SpotsAreWindows(whole: seq<string>, lo: nat, hi: int)
    ensures forall s :: s in Spots(whole, lo, hi) <==> lo <= s.length <= hi && s.start + s.length <= |whole|
    decreases hi - lo + 1
  {
    if lo <= hi {
      SpotsAreWindows(whole, lo, hi - 1);
      forall s: Spot | s.length == hi && s.start + s.length <= |whole|
        ensures s in SpotsOf(whole, hi)
      {
        assert SpotsOf(whole, hi)[s.start] == s;
      }
    }
  }

  lemma {:induction false} BestIsTried(whole: seq<string>, part: seq<string>, ratio: (string, string) -> real, spots: seq<Spot>)
    ensures BestOf(whole, part, ratio, spots).spot.Some? ==> BestOf(whole, part, ratio, spots).spot.value in spots
  {
    if spots != [] { BestIsTried(whole, part, ratio, spots[..|spots| - 1]); }
  }

  lemma BestFits(whole: seq<string>, part: seq<string>, ratio: (string, string) -> real)
    ensures var b := FuzzyBest(whole, part, ratio); b.spot.Some? ==> b.spot.value.start + b.spot.value.length <= |whole|
  {
    if part != [] {
      var lo, hi := MinLength(|part|), MaxLength(|part|);
      BestIsTried(whole, part, ratio, Spots(whole, lo, hi));
      SpotsAreWindows(whole, lo, hi);
    }
  }

  function FuzzySpec(whole: seq<string>, part: seq<string>, replace: seq<string>, ratio: (string, string) -> real):
    (Option<seq<string>>, real)
  {
    var b := FuzzyBest(whole, part, ratio);
    if b.spot.Some? && b.similarity >= FUZZY_THRESHOLD then
      BestFits(whole, part, ratio);
      (Some(Replaced(whole, b.spot.value.start, b.spot.value.length, replace)), b.similarity)
    else (None, b.similarity)
  }

  lemma BestOfOneMore(whole: seq<string>, part: seq<string>, ratio: (string, string) -> real, spots: seq<Spot>, s: Spot)
    ensures BestOf(whole, part, ratio, spots + [s])
         == Better(BestOf(whole, part, ratio, spots), s, Similarity(whole, part, ratio, s))
  {
    assert (spots + [s])[..|spots|] == spots;
  }

  lemma OneMoreSpot(before: seq<Spot>, spots: seq<Spot>, i: nat)
    requires i < |spots|
    ensures before + spots[..i + 1] == before + spots[..i] + [spots[i]]
  {
  }

  /** The windows of one length. */
  method ScanLength(whole: seq<string>, part: seq<string>, ratio: (string, string) -> real, windowLen: nat, best0: Best,
                    ghost before: seq<Spot>)
    returns (best: Best)
    requires best0 == BestOf(whole, part, ratio, before)
    ensures best == BestOf(whole, part, ratio, before + SpotsOf(whole, windowLen))
  {
    best := best0;
    ghost var spots := SpotsOf(whole, windowLen);
    assert before + spots[..0] == before;
    for i := 0 to Places(whole, windowLen)
      invariant best == BestOf(whole, part, ratio, before + spots[..i])
    {
      var sim := ratio(Concat(whole[i..i + windowLen]), Concat(part));
      OneMoreSpot(before, spots, i);
      BestOfOneMore(whole, part, ratio, before + spots[..i], Spot(i, windowLen));
      if sim > best.similarity {
        best := Best(sim, Some(Spot(i, windowLen)));
      }
    }
    assert spots[..|spots|] == spots;
  }

  method ScanAll(whole: seq<string>, part: seq<string>, ratio: (string, string) -> real) returns (best: Best)
    requires part != []
    ensures best == FuzzyBest(whole, part, ratio)
  {
    var minLen, maxLen := MinLength(|part|), MaxLength(|part|);
    best := Best(0.0, None);
    for windowLen := minLen to maxLen + 1
      invariant best == BestOf(whole, part, ratio, Spots(whole, minLen, windowLen - 1))
    {
      ghost var before := Spots(whole, minLen, windowLen - 1);
      assert Spots(whole, minLen, windowLen) == before + SpotsOf(whole, windowLen);
      best := ScanLength(whole, part, ratio, windowLen, best, before);
    }
  }

  method Fuzzy(whole: seq<string>, part: seq<string>, replace: seq<string>, ratio: (string, string) -> real)
    returns (r: Option<seq<string>>, bestSim: real)
    ensures (r, bestSim) == FuzzySpec(whole, part, replace, ratio)
  {
    if part == [] { return None, 0.0; }
    var best := ScanAll(whole, part, ratio);
    BestFits(whole, part, ratio);
    if best.spot.Some? && best.similarity >= FUZZY_THRESHOLD {
      var spot := best.spot.value;
      return Some(whole[..spot.start] + replace + whole[spot.start + spot.length..]), best.similarity;
    }
    return None, best.similarity;
  }

  // ----- the ladder

  datatype Strategy = Exact | Whitespace | LeadingBlank | DotDotDot | FuzzyMatch(similarity: real)

  datatype EditResult = Edited(content: string, strategy: Strategy) | Refused(bestSimilarity: real)

  function ApplyEdit(content: string, search: string, replace: string, ratio: (string, string) -> real): EditResult {
    if search == "" then Edited(content + replace, Exact)
    else
      var whole, part, repl := Split(content), Split(search), Split(replace);
      var exact, ws := PerfectSpec(whole, part, repl), WhitespaceSpec(whole, part, repl);
      var trimmed := StripLeadingBlanks(part);
      var lessBlanks := trimmed != [] && |trimmed| != |part|;
      var exact', ws' := PerfectSpec(whole, trimmed, repl), WhitespaceSpec(whole, trimmed, repl);
      var dots, fuzzy := DotsSpec(content, search, replace), FuzzySpec(whole, part, repl, ratio);
      if exact.Some? then Edited(Concat(exact.value), Exact)
      else if ws.Some? then Edited(Concat(ws.value), Whitespace)
      else if lessBlanks && exact'.Some? then Edited(Concat(exact'.value), LeadingBlank)
      else if lessBlanks && ws'.Some? then Edited(Concat(ws'.value), LeadingBlank)
      else if dots.Some? then Edited(dots.value, DotDotDot)
      else if fuzzy.0.Some? then Edited(Concat(fuzzy.0.value), FuzzyMatch(fuzzy.1))
      else Refused(fuzzy.1)
  }

  method ApplySearchReplace(content: string, search: string, replace: string, ratio: (string, string) -> real)
    returns (r: EditResult)
    ensures r == ApplyEdit(content, search, replace, ratio)
  {
    if search == "" { return Edited(if content == "" then replace else content + replace, Exact); }
    var whole, part, repl := Split(content), Split(search), Split(replace);
    var exact := Perfect(whole, part, repl);
    if exact.Some? { return Edited(Concat(exact.value), Exact); }
    var ws := WhitespaceFlexible(whole, part, repl);
    if ws.Some? { return Edited(Concat(ws.value), Whitespace); }
    var trimmed := StripLeadingBlanks(part);
    if trimmed != [] && |trimmed| != |part| {
      exact := Perfect(whole, trimmed, repl);
      if exact.Some? { return Edited(Concat(exact.value), LeadingBlank); }
      ws := WhitespaceFlexible(whole, trimmed, repl);
      if ws.Some? { return Edited(Concat(ws.value), LeadingBlank); }
    }
    var dots := DotDotDots(content, search, replace);
    if dots.Some? { return Edited(dots.value, DotDotDot); }
    var fuzzy, best := Fuzzy(whole, part, repl, ratio);
    if fuzzy.Some? { return Edited(Concat(fuzzy.value), FuzzyMatch(best)); }
    return Refused(best);
  }

  // ----- several blocks

  datatype Block = Block(search: string, replace: string)

  /** `BlocksRefused` returns the original content and the index of the block that failed. */
  datatype BlocksResult =
    | BlocksEdited(content: string, strategies: seq<Strategy>)
    | BlocksRefused(content: string, index: nat, bestSimilarity: real)

  /** The fold: each block edits what the one before it left; the first refusal stops it. */
  datatype FoldResult = Done(content: string, strategies: seq<Strategy>) | Stuck(index: nat, bestSimilarity: real)

  /** The outcome of a fold that has already done `n` blocks with these strategies. */
  function After(n: nat, strategies: seq<Strategy>, rest: FoldResult): FoldResult {
    match rest
    case Done(content, so) => Done(content, strategies + so)
    case Stuck(k, best) => Stuck(n + k, best)
  }

  function Fold(current: string, blocks: seq<Block>, ratio: (string, string) -> real): FoldResult
    decreases |blocks|
  {
    if blocks == [] then Done(current, [])
    else match ApplyEdit(current, blocks[0].search, blocks[0].replace, ratio)
      case Refused(best) => Stuck(0, best)
      case Edited(next, strategy) => After(1, [strategy], Fold(next, blocks[1..], ratio))
  }

  function ApplyAll(content: string, blocks: seq<Block>, ratio: (string, string) -> real): BlocksResult {
    match Fold(content, blocks, ratio)
    case Done(edited, strategies) => BlocksEdited(edited, strategies)
    case Stuck(k, best) => BlocksRefused(content, k, best)
  }

  lemma AfterAfter(m: nat, a: seq<Strategy>, n: nat, b: seq<Strategy>, rest: FoldResult)
    ensures After(m, a, After(n, b, rest)) == After(m + n, a + b, rest)
  {
    if rest.Done? { assert a + (b + rest.strategies) == a + b + rest.strategies; }
  }

  method ApplyBlocks(content: string, blocks: seq<Block>, ratio: (string, string) -> real) returns (r: BlocksResult)
    ensures r == ApplyAll(content, blocks, ratio)
  {
    var current := content;
    var strategies: seq<Strategy> := [];
    for index := 0 to |blocks|
      invariant After(index, strategies, Fold(current, blocks[index..], ratio)) == Fold(content, blocks, ratio)
    {
      var result := ApplySearchReplace(current, blocks[index].search, blocks[index].replace, ratio);
      if result.Refused? { return BlocksRefused(content, index, result.bestSimilarity); }
      assert blocks[index..][1..] == blocks[index + 1..];
      AfterAfter(index, strategies, 1, [result.strategy], Fold(result.content, blocks[index + 1..], ratio));
      current := result.content;
      strategies := strategies + [result.strategy];
    }
    return BlocksEdited(current, strategies);
  }
}
