/** What the edit ladder promises: which window each rung edits, what it leaves alone, and that several blocks are
    applied all or not at all. */
module FuzzyEditGuarantees {
  import opened Wrappers
  import opened PyText
  import opened FuzzyEdit

  // ----- the exact rung

  /** An exact window always wins, and it is the leftmost one. */
  lemma ExactIsLeftmost(content: string, search: string, replace: string, ratio: (string, string) -> real, i: nat)
    requires search != "" && ExactAt(Split(content), Split(search), i)
    requires forall j :: 0 <= j < i ==> !ExactAt(Split(content), Split(search), j)
    ensures ApplyEdit(content, search, replace, ratio)
         == Edited(Concat(Replaced(Split(content), i, |Split(search)|, Split(replace))), Exact)
  {
    FirstExactFacts(Split(content), Split(search), 0);
  }

  lemma SameWindow(whole: seq<string>, i: nat, part: seq<string>)
    requires ExactAt(whole, part, i)
    ensures Replaced(whole, i, |part|, part) == whole
  {
  }

  /** Searching for a text and replacing it by itself changes nothing, on the exact rung. */
  lemma ExactIdentity(content: string, search: string, ratio: (string, string) -> real)
    requires search != ""
    requires ApplyEdit(content, search, search, ratio).Edited? && ApplyEdit(content, search, search, ratio).strategy.Exact?
    ensures ApplyEdit(content, search, search, ratio).content == content
  {
    var whole, part := Split(content), Split(search);
    FirstExactFacts(whole, part, 0);
    var i := FirstExact(whole, part, 0).value;
    SameWindow(whole, i, part);
    SplitThenConcat(content);
  }

  lemma BackAgain(whole: seq<string>, i: nat, part: seq<string>, replace: seq<string>)
    requires ExactAt(whole, part, i)
    ensures var edited := Replaced(whole, i, |part|, replace);
      ExactAt(edited, replace, i) && Replaced(edited, i, |replace|, part) == whole
  {
    var edited := Replaced(whole, i, |part|, replace);
    assert edited[i..i + |replace|] == replace;
    assert edited[..i] == whole[..i] && edited[i + |replace|..] == whole[i + |part|..];
  }

  /** Undo: swapping search and replacement takes an exact edit back, when the replacement occurs nowhere earlier. */
  lemma ExactUndo(whole: seq<string>, part: seq<string>, replace: seq<string>)
    requires part != [] && replace != [] && PerfectSpec(whole, part, replace).Some?
    requires var i := FirstExact(whole, part, 0).value;
      forall j :: 0 <= j < i ==> !ExactAt(PerfectSpec(whole, part, replace).value, replace, j)
    ensures PerfectSpec(PerfectSpec(whole, part, replace).value, replace, part) == Some(whole)
  {
    FirstExactFacts(whole, part, 0);
    var i, edited := FirstExact(whole, part, 0).value, PerfectSpec(whole, part, replace).value;
    BackAgain(whole, i, part, replace);
    FirstExactFacts(edited, replace, 0);
  }

  // ----- re-indenting

  lemma {:induction false} IndentOf(indent: string, body: string)
    requires forall k :: 0 <= k < |indent| ==> IsBlankChar(indent[k])
    requires body == "" || !IsBlankChar(body[0])
    ensures LeadingWs(indent + body) == indent && Body(indent + body) == body
  {
    if indent == "" {
      assert indent + body == body;
    } else {
      assert (indent + body)[1..] == indent[1..] + body;
      IndentOf(indent[1..], body);
    }
  }

  predicate IsIndent(s: string) { forall k :: 0 <= k < |s| ==> IsBlankChar(s[k]) }

  lemma LeadingIsIndent(line: string)
    ensures IsIndent(LeadingWs(line)) && (Body(line) == "" || !IsBlankChar(Body(line)[0])) && line == LeadingWs(line) + Body(line)
  {
    IndentIsBlank(line);
  }

  lemma LeadingOnly(line: string)
    ensures IsIndent(LeadingWs(line))
  {
    LeadingIsIndent(line);
  }

  lemma MovedIsIndent(line: string, fileIndent: string, partIndent: string)
    requires IsIndent(fileIndent)
    ensures IsIndent(MovedIndent(LeadingWs(line), fileIndent, partIndent))
  {
    LeadingIsIndent(line);
  }

  /** Re-indenting a line keeps its text, and moves the indentation `partIndent + e` to `fileIndent + e`. An indentation
      that does not start with the block's is only prefixed. */
  lemma ReindentKeepsText(line: string, fileIndent: string, partIndent: string)
    requires IsIndent(fileIndent) && !IsBlank(line)
    ensures var r := ReindentLine(line, fileIndent, partIndent);
      && Body(r) == Body(line)
      && LeadingWs(r) == fileIndent + (if partIndent <= LeadingWs(line) then LeadingWs(line)[|partIndent|..] else LeadingWs(line))
  {
    LeadingIsIndent(line);
    MovedIsIndent(line, fileIndent, partIndent);
    IndentOf(MovedIndent(LeadingWs(line), fileIndent, partIndent), Body(line));
  }

  /** `inserted` is `replace` line for line, with the text of each line kept and its indentation moved; where the
      indentations are the same nothing moves, and blank lines never do. */
  predicate MovedLines(inserted: seq<string>, replace: seq<string>, fileIndent: string, partIndent: string) {
    |inserted| == |replace| &&
    forall k :: 0 <= k < |replace| ==>
      if IsBlank(replace[k]) || fileIndent == partIndent then inserted[k] == replace[k]
      else Body(inserted[k]) == Body(replace[k]) && LeadingWs(inserted[k]) == MovedIndent(LeadingWs(replace[k]), fileIndent, partIndent)
  }

  lemma MovedKeepsText(replace: seq<string>, fileIndent: string, partIndent: string)
    requires IsIndent(fileIndent)
    ensures MovedLines(Moved(replace, fileIndent, partIndent), replace, fileIndent, partIndent)
  {
    if fileIndent != partIndent {
      forall k | 0 <= k < |replace| && !IsBlank(replace[k])
        ensures var r := ReindentLine(replace[k], fileIndent, partIndent);
          Body(r) == Body(replace[k]) && LeadingWs(r) == MovedIndent(LeadingWs(replace[k]), fileIndent, partIndent)
      {
        ReindentKeepsText(replace[k], fileIndent, partIndent);
      }
    }
  }

  /** What is inserted at `i`: the replacement, moved by the indentations of the first line with text on it, in the block
      and in the window. */
  ghost predicate InsertedAt(whole: seq<string>, part: seq<string>, replace: seq<string>, i: nat, inserted: seq<string>)
    requires i + |part| <= |whole|
  {
    if forall j :: 0 <= j < |part| ==> IsBlank(part[j]) then inserted == replace
    else exists first: nat :: FirstText(part, first)
                              && MovedLines(inserted, replace, LeadingWs(whole[i + first]), LeadingWs(part[first]))
  }

  predicate FirstText(part: seq<string>, first: nat) {
    first < |part| && !IsBlank(part[first]) && forall j :: 0 <= j < first ==> IsBlank(part[j])
  }

  lemma ReindentedByIs(whole: seq<string>, part: seq<string>, replace: seq<string>, i: nat, first: nat)
    requires i + |part| <= |whole| && first < |part|
    ensures ReindentedBy(whole, part, replace, i, Some(first)) == Moved(replace, LeadingWs(whole[i + first]), LeadingWs(part[first]))
    ensures IsIndent(LeadingWs(whole[i + first]))
  {
    LeadingOnly(whole[i + first]);
  }

  lemma ReindentedByIsMoved(whole: seq<string>, part: seq<string>, replace: seq<string>, i: nat, first: nat)
    requires i + |part| <= |whole| && first < |part|
    ensures MovedLines(ReindentedBy(whole, part, replace, i, Some(first)), replace, LeadingWs(whole[i + first]), LeadingWs(part[first]))
  {
    ReindentedByIs(whole, part, replace, i, first);
    MovedKeepsText(replace, LeadingWs(whole[i + first]), LeadingWs(part[first]));
  }

  lemma ReindentedIsInserted(whole: seq<string>, part: seq<string>, replace: seq<string>, i: nat)
    requires i + |part| <= |whole|
    ensures InsertedAt(whole, part, replace, i, ReindentedFor(whole, part, replace, i))
  {
    FirstNonBlankIsFirst(part);
    var found := FirstNonBlank(part);
    if found.Some? {
      assert FirstText(part, found.value);
      ReindentedByIsMoved(whole, part, replace, i, found.value);
    }
  }

  /** The white-space rung edits the leftmost window that matches line for line modulo surrounding white space, and inserts
      the replacement with the indentation moved to that of the window. */
  lemma WhitespaceKeepsText(whole: seq<string>, part: seq<string>, replace: seq<string>)
    requires part != []
    ensures WhitespaceSpec(whole, part, replace).Some? <==> exists i :: AlikeAt(whole, part, i)
    ensures WhitespaceSpec(whole, part, replace).Some? ==>
      exists i: nat, inserted: seq<string> {:trigger Replaced(whole, i, |part|, inserted)} ::
        && AlikeAt(whole, part, i) && (forall j :: 0 <= j < i ==> !AlikeAt(whole, part, j))
        && WhitespaceSpec(whole, part, replace) == Some(Replaced(whole, i, |part|, inserted))
        && InsertedAt(whole, part, replace, i, inserted)
  {
    FirstAlikeFacts(whole, part, 0);
    if FirstAlike(whole, part, 0).Some? {
      var i := FirstAlike(whole, part, 0).value;
      ReindentedIsInserted(whole, part, replace, i);
      assert WhitespaceSpec(whole, part, replace) == Some(Replaced(whole, i, |part|, ReindentedFor(whole, part, replace, i)));
    }
  }

  /** The window at `i` is `part` with its indentation moved uniformly from `partIndent` to `fileIndent`. */
  ghost predicate UniformShift(whole: seq<string>, part: seq<string>, i: nat, fileIndent: string, partIndent: string) {
    i + |part| <= |whole| &&
    forall j :: 0 <= j < |part| ==>
      if IsBlank(part[j]) then whole[i + j] == part[j]
      else partIndent <= LeadingWs(part[j]) && whole[i + j] == fileIndent + part[j][|partIndent|..]
  }

  lemma ShiftedBlock(whole: seq<string>, part: seq<string>, i: nat, fileIndent: string, partIndent: string)
    requires UniformShift(whole, part, i, fileIndent, partIndent)
    ensures Reindent(part, fileIndent, partIndent) == whole[i..i + |part|]
    ensures fileIndent == partIndent ==> part == whole[i..i + |part|]
  {
    var inserted := Reindent(part, fileIndent, partIndent);
    forall j | 0 <= j < |part|
      ensures inserted[j] == whole[i..i + |part|][j]
      ensures fileIndent == partIndent ==> part[j] == whole[i..i + |part|][j]
    {
      ShiftedLine(part[j], whole[i + j], fileIndent, partIndent);
    }
  }

  /** The window at `i` is a uniform re-indent of the block, with the indentations that the rung reads off. */
  ghost predicate ReindentOf(whole: seq<string>, part: seq<string>, i: nat) {
    i + |part| <= |whole| &&
    match FirstNonBlank(part)
    case None => whole[i..i + |part|] == part
    case Some(first) => UniformShift(whole, part, i, LeadingWs(whole[i + first]), LeadingWs(part[first]))
  }

  lemma ShiftedMoved(whole: seq<string>, part: seq<string>, i: nat, fileIndent: string, partIndent: string)
    requires UniformShift(whole, part, i, fileIndent, partIndent)
    ensures Moved(part, fileIndent, partIndent) == whole[i..i + |part|]
  {
    ShiftedBlock(whole, part, i, fileIndent, partIndent);
  }

  lemma ReindentedForItself(whole: seq<string>, part: seq<string>, i: nat)
    requires ReindentOf(whole, part, i)
    ensures ReindentedFor(whole, part, part, i) == whole[i..i + |part|]
  {
    var found := FirstNonBlank(part);
    if found.Some? {
      ReindentedByIs(whole, part, part, i, found.value);
      ShiftedMoved(whole, part, i, LeadingWs(whole[i + found.value]), LeadingWs(part[found.value]));
    }
  }

  lemma WhitespaceAt(whole: seq<string>, part: seq<string>, replace: seq<string>, i: nat)
    requires part != [] && FirstAlike(whole, part, 0) == Some(i)
    ensures i + |part| <= |whole|
    ensures WhitespaceSpec(whole, part, replace) == Some(Replaced(whole, i, |part|, ReindentedFor(whole, part, replace, i)))
  {
    FirstAlikeFacts(whole, part, 0);
  }

  lemma ReplacedByItself(whole: seq<string>, i: nat, n: nat)
    requires i + n <= |whole|
    ensures Replaced(whole, i, n, whole[i..i + n]) == whole
  {
  }

  /** Replacing a block by itself leaves the file unchanged when the window is a uniform re-indent of the block. */
  lemma ReindentIdentity(whole: seq<string>, part: seq<string>, i: nat)
    requires part != [] && FirstAlike(whole, part, 0) == Some(i) && ReindentOf(whole, part, i)
    ensures WhitespaceSpec(whole, part, part) == Some(whole)
  {
    ReindentedForItself(whole, part, i);
    WhitespaceAt(whole, part, part, i);
    ReplacedByItself(whole, i, |part|);
  }

  lemma ShiftedLine(line: string, fileLine: string, fileIndent: string, partIndent: string)
    requires if IsBlank(line) then fileLine == line
             else partIndent <= LeadingWs(line) && fileLine == fileIndent + line[|partIndent|..]
    ensures ReindentLine(line, fileIndent, partIndent) == fileLine
    ensures fileIndent == partIndent ==> line == fileLine
  {
    if !IsBlank(line) { ShiftedText(LeadingWs(line), Body(line), fileIndent, partIndent, line); }
  }

  lemma ShiftedText(current: string, body: string, fileIndent: string, partIndent: string, line: string)
    requires line == current + body && partIndent <= current
    ensures MovedIndent(current, fileIndent, partIndent) + body == fileIndent + line[|partIndent|..]
    ensures line == partIndent + line[|partIndent|..]
  {
    assert line[|partIndent|..] == current[|partIndent|..] + body;
  }

  // ----- the closest window

  /** `BestOf` is the maximum over the windows tried, and the first to reach it. */
  lemma {:induction false} BestIsMaximal(whole: seq<string>, part: seq<string>, ratio: (string, string) -> real, spots: seq<Spot>)
    ensures var b := BestOf(whole, part, ratio, spots);
      && b.similarity >= 0.0
      && (forall k :: 0 <= k < |spots| ==> Similarity(whole, part, ratio, spots[k]) <= b.similarity)
      && (b.spot.None? ==> b.similarity == 0.0)
      && (b.spot.Some? ==> b.similarity > 0.0 && Similarity(whole, part, ratio, b.spot.value) == b.similarity)
      && (b.spot.Some? ==> exists k :: FirstBest(whole, part, ratio, spots, k, b.spot.value))
  {
    if spots != [] {
      var n := |spots| - 1;
      var before := spots[..n];
      BestIsMaximal(whole, part, ratio, before);
      var b0, b := BestOf(whole, part, ratio, before), BestOf(whole, part, ratio, spots);
      assert spots == before + [spots[n]];
      forall k | 0 <= k < |spots|
        ensures Similarity(whole, part, ratio, spots[k]) <= b.similarity
      {
        if k < n { assert spots[k] == before[k]; }
      }
      if b.spot.Some? {
        if b == b0 {
          var k :| FirstBest(whole, part, ratio, before, k, b.spot.value);
          assert FirstBest(whole, part, ratio, spots, k, b.spot.value);
        } else {
          assert forall k :: 0 <= k < n ==> spots[k] == before[k];
          assert FirstBest(whole, part, ratio, spots, n, b.spot.value);
        }
      }
    }
  }

  /** `spot` is the `k`-th window tried, and every earlier one is less similar. */
  ghost predicate FirstBest(whole: seq<string>, part: seq<string>, ratio: (string, string) -> real, spots: seq<Spot>, k: int, spot: Spot) {
    0 <= k < |spots| && spots[k] == spot
    && forall j :: 0 <= j < k ==> Similarity(whole, part, ratio, spots[j]) < Similarity(whole, part, ratio, spot)
  }

  /** A window of an allowed length. */
  predicate Allowed(whole: seq<string>, part: seq<string>, s: Spot) {
    MinLength(|part|) <= s.length <= MaxLength(|part|) && s.start + s.length <= |whole|
  }

  /** `s` is tried before `t`: shorter, or as long and further left. */
  predicate Earlier(s: Spot, t: Spot) { s.length < t.length || (s.length == t.length && s.start < t.start) }

  lemma {:induction false} SpotsAreOrdered(whole: seq<string>, lo: nat, hi: int)
    ensures forall j, k :: 0 <= j < k < |Spots(whole, lo, hi)| ==> Earlier(Spots(whole, lo, hi)[j], Spots(whole, lo, hi)[k])
    decreases hi - lo + 1
  {
    if lo <= hi {
      var before, last := Spots(whole, lo, hi - 1), SpotsOf(whole, hi);
      SpotsAreOrdered(whole, lo, hi - 1);
      SpotsAreWindows(whole, lo, hi - 1);
      forall j, k | 0 <= j < k < |before + last|
        ensures Earlier((before + last)[j], (before + last)[k])
      {
        if j < |before| && k >= |before| { assert before[j] in before; }
      }
    }
  }

  /** `s` is an allowed window with similarity `best`, and the earliest one. */
  ghost predicate EarliestBest(whole: seq<string>, part: seq<string>, ratio: (string, string) -> real, s: Spot, best: real) {
    Allowed(whole, part, s) && Similarity(whole, part, ratio, s) == best
    && forall t :: Allowed(whole, part, t) && Similarity(whole, part, ratio, t) == best ==> s == t || Earlier(s, t)
  }

  /** The fuzzy rung edits the most similar of all windows of the allowed lengths, the earliest of equals, and refuses
      exactly when no window reaches 0.8. */
  lemma FuzzyTakesTheBest(whole: seq<string>, part: seq<string>, replace: seq<string>, ratio: (string, string) -> real)
    requires part != []
    ensures var (r, best) := FuzzySpec(whole, part, replace, ratio);
      && (forall s :: Allowed(whole, part, s) ==> Similarity(whole, part, ratio, s) <= best)
      && (r.Some? <==> exists s :: Allowed(whole, part, s) && Similarity(whole, part, ratio, s) >= FUZZY_THRESHOLD)
      && (r.Some? ==> exists s :: EarliestBest(whole, part, ratio, s, best)
                                  && r == Some(Replaced(whole, s.start, s.length, replace)))
  {
    var lo, hi := MinLength(|part|), MaxLength(|part|);
    var spots := Spots(whole, lo, hi);
    var b := BestOf(whole, part, ratio, spots);
    BestIsMaximal(whole, part, ratio, spots);
    SpotsAreWindows(whole, lo, hi);
    SpotsAreOrdered(whole, lo, hi);
    forall s | Allowed(whole, part, s)
      ensures s in spots && Similarity(whole, part, ratio, s) <= b.similarity
    {
      assert s in spots;
    }
    if b.spot.Some? && b.similarity >= FUZZY_THRESHOLD {
      BestFits(whole, part, ratio);
      BestIsEarliest(whole, part, ratio, spots, b.spot.value);
      assert Allowed(whole, part, b.spot.value) by { BestIsTried(whole, part, ratio, spots); }
      assert EarliestBest(whole, part, ratio, b.spot.value, b.similarity);
    }
  }

  lemma BestIsEarliest(whole: seq<string>, part: seq<string>, ratio: (string, string) -> real, spots: seq<Spot>, s: Spot)
    requires exists k :: FirstBest(whole, part, ratio, spots, k, s)
    requires forall j, k :: 0 <= j < k < |spots| ==> Earlier(spots[j], spots[k])
    ensures forall t :: t in spots && Similarity(whole, part, ratio, t) == Similarity(whole, part, ratio, s) ==>
              s == t || Earlier(s, t)
  {
    var k :| FirstBest(whole, part, ratio, spots, k, s);
    forall t | t in spots && Similarity(whole, part, ratio, t) == Similarity(whole, part, ratio, s)
      ensures s == t || Earlier(s, t)
    {
      var j :| 0 <= j < |spots| && spots[j] == t;
      assert j >= k;
    }
  }

  // ----- elision

  predicate OccursAt(s: string, needle: string, k: nat) {
    k + |needle| <= |s| && s[k..k + |needle|] == needle
  }

  lemma TailSlice(s: string, k: nat, n: nat)
    requires 0 < k && k + n <= |s|
    ensures s[1..][k - 1..k - 1 + n] == s[k..k + n]
  {
  }

  lemma {:induction false} FindTextIsFirst(s: string, needle: string)
    ensures match FindText(s, needle)
      case None => forall k :: !OccursAt(s, needle, k)
      case Some(n) => OccursAt(s, needle, n) && forall k :: 0 <= k < n ==> !OccursAt(s, needle, k)
  {
    if !(needle <= s) && s != "" {
      FindTextIsFirst(s[1..], needle);
      assert !OccursAt(s, needle, 0);
      forall k: nat | k > 0
        ensures OccursAt(s, needle, k) <==> OccursAt(s[1..], needle, k - 1)
      {
        if k + |needle| <= |s| { TailSlice(s, k, |needle|); }
      }
    }
  }

  /** `result` is `s` with its leftmost `needle`, at `k`, replaced. */
  ghost predicate LeftmostReplaced(s: string, needle: string, replacement: string, result: string, k: int) {
    && 0 <= k && OccursAt(s, needle, k)
    && (forall j :: 0 <= j < k ==> !OccursAt(s, needle, j))
    && result == s[..k] + replacement + s[k + |needle|..]
  }

  /** The leftmost `needle` is at `k`, and none starts after its end. One that overlaps it may. */
  ghost predicate OnlyFrom(s: string, needle: string, k: nat) {
    && OccursAt(s, needle, k)
    && (forall j :: 0 <= j < k ==> !OccursAt(s, needle, j))
    && (forall j :: k + |needle| <= j ==> !OccursAt(s, needle, j))
  }

  lemma OccursInTail(s: string, needle: string, from: nat, j: nat)
    requires from <= |s|
    ensures OccursAt(s[from..], needle, j) <==> OccursAt(s, needle, from + j)
  {
    if from + j + |needle| <= |s| { assert s[from..][j..j + |needle|] == s[from + j..from + j + |needle|]; }
  }

  lemma NoneCounted(s: string, needle: string)
    requires needle != ""
    ensures CountText(s, needle) == 0 <==> forall j :: !OccursAt(s, needle, j)
  {
    FindTextIsFirst(s, needle);
  }

  /** A text is counted once if and only if nothing starts after the end of its leftmost occurrence. */
  lemma CountedOnce(s: string, needle: string)
    requires needle != ""
    ensures CountText(s, needle) == 1 <==> exists k: nat :: OnlyFrom(s, needle, k)
  {
    FindTextIsFirst(s, needle);
    match FindText(s, needle)
    case None =>
      forall k: nat ensures !OnlyFrom(s, needle, k) { }
    case Some(k) =>
      var from := k + |needle|;
      NoneCounted(s[from..], needle);
      forall j: nat ensures OccursAt(s[from..], needle, j) <==> OccursAt(s, needle, from + j) { OccursInTail(s, needle, from, j); }
      if CountText(s, needle) == 1 {
        forall j | from <= j ensures !OccursAt(s, needle, j) {
          assert !OccursAt(s[from..], needle, j - from);
        }
        assert OnlyFrom(s, needle, k);
      } else {
        var j: nat :| OccursAt(s[from..], needle, j);
        assert OccursAt(s, needle, from + j);
      }
  }

  /** An elided edit substitutes, for each segment with text, its leftmost occurrence and keeps the text around it. The
      segment is refused when it is missing, or when it starts again after the end of that occurrence. */
  lemma SegmentIsSubstituted(current: string, search: seq<string>, replace: seq<string>)
    requires Concat(search) != "" && !IsBlank(Concat(search))
    ensures SubstituteSegment(current, search, replace).Some? <==> exists k: nat :: OnlyFrom(current, Concat(search), k)
    ensures SubstituteSegment(current, search, replace).Some? ==>
      exists k :: LeftmostReplaced(current, Concat(search), Concat(replace), SubstituteSegment(current, search, replace).value, k)
  {
    var needle := Concat(search);
    FindTextIsFirst(current, needle);
    CountedOnce(current, needle);
    if CountText(current, needle) == 1 {
      var k := FindText(current, needle).value;
      assert LeftmostReplaced(current, needle, Concat(replace), SubstituteSegment(current, search, replace).value, k);
    }
  }

  /** A repeat that overlaps the first occurrence is not noticed: `aXaXa` holds `aXa` twice. */
  lemma OverlappingRepeatIsSubstituted()
    ensures OccursAt("aXaXa", "aXa", 0) && OccursAt("aXaXa", "aXa", 2)
    ensures SubstituteSegment("aXaXa", ["aXa"], ["b"]) == Some("bXa")
  {
    var s, needle := "aXaXa", "aXa";
    assert s[2..5] == needle && s[..3] == needle;
    assert Concat(["aXa"]) == needle + Concat([]) && Concat(["b"]) == "b" + Concat([]);
    FindTextIsFirst(s, needle);
    forall k: nat | k >= 3 ensures !OccursAt(s, needle, k) { }
    assert OnlyFrom(s, needle, 0);
    CountedOnce(s, needle);
    NotBlank(needle, 0);
    assert Concat(["aXa"]) == needle;
    assert Concat(["b"]) == "b";
    assert s[..0] + "b" + s[3..] == "bXa";
  }

  /** A text with a character that is no white space is not blank. */
  lemma {:induction false} NotBlank(s: string, k: nat)
    requires k < |s| && !IsSpace(s[k])
    ensures !IsBlank(s)
  {
    if IsSpace(s[0]) { NotBlank(s[1..], k - 1); } else { NotRBlank(s, 0); }
  }

  lemma {:induction false} NotRBlank(s: string, k: nat)
    requires k < |s| && !IsSpace(s[k])
    ensures RStrip(s) != ""
  {
    if IsSpace(s[|s| - 1]) { NotRBlank(s[..|s| - 1], k); }
  }

  /** Replacing every segment by itself changes nothing. */
  lemma {:induction false} ElisionIdentity(content: string, segments: seq<seq<string>>)
    ensures SubstituteAll(content, segments, segments) in {None, Some(content)}
    decreases |segments|
  {
    if segments != [] {
      BlankOfEmpty();
      var needle := Concat(segments[0]);
      if !IsBlank(needle) && CountText(content, needle) == 1 {
        var k := FindText(content, needle).value;
        assert content == content[..k] + needle + content[k + |needle|..];
      }
      ElisionIdentity(content, segments[1..]);
    }
  }

  // ----- several blocks

  lemma {:induction false} FoldComposes(current: string, a: seq<Block>, b: seq<Block>, ratio: (string, string) -> real)
    ensures Fold(current, a + b, ratio) ==
      match Fold(current, a, ratio)
      case Stuck(k, best) => Stuck(k, best)
      case Done(middle, sa) => After(|a|, sa, Fold(middle, b, ratio))
    decreases |a|
  {
    if a == [] {
      assert a + b == b;
      AfterAfter(0, [], 0, [], Fold(current, b, ratio));
      assert After(0, [], Fold(current, b, ratio)) == Fold(current, b, ratio) by {
        if Fold(current, b, ratio).Done? { assert [] + Fold(current, b, ratio).strategies == Fold(current, b, ratio).strategies; }
      }
    } else {
      assert (a + b)[1..] == a[1..] + b;
      match ApplyEdit(current, a[0].search, a[0].replace, ratio)
      case Refused(_) =>
      case Edited(next, s) =>
        FoldComposes(next, a[1..], b, ratio);
        match Fold(next, a[1..], ratio) {
          case Stuck(_, _) =>
          case Done(middle, sa) => AfterAfter(1, [s], |a| - 1, sa, Fold(middle, b, ratio));
        }
    }
  }

  /** Applying `a + b` is applying `a` and then `b` to the outcome, all or nothing: a refusal anywhere returns the text
      that the whole call started from, and counts blocks from the start of `a`. */
  lemma BlocksCompose(content: string, a: seq<Block>, b: seq<Block>, ratio: (string, string) -> real)
    ensures ApplyAll(content, a + b, ratio) ==
      match ApplyAll(content, a, ratio)
      case BlocksRefused(_, k, best) => BlocksRefused(content, k, best)
      case BlocksEdited(middle, sa) =>
        match ApplyAll(middle, b, ratio)
        case BlocksRefused(_, k, best) => BlocksRefused(content, |a| + k, best)
        case BlocksEdited(text, sb) => BlocksEdited(text, sa + sb)
  {
    FoldComposes(content, a, b, ratio);
  }

  lemma {:induction false} FoldCounts(current: string, blocks: seq<Block>, ratio: (string, string) -> real)
    ensures match Fold(current, blocks, ratio)
      case Stuck(k, _) => k < |blocks| && Fold(current, blocks[..k], ratio).Done?
      case Done(_, so) => |so| == |blocks|
    decreases |blocks|
  {
    if blocks != [] {
      match ApplyEdit(current, blocks[0].search, blocks[0].replace, ratio)
      case Refused(_) =>
      case Edited(next, _) =>
        FoldCounts(next, blocks[1..], ratio);
        match Fold(next, blocks[1..], ratio) {
          case Done(_, _) =>
          case Stuck(k, _) => assert blocks[..k + 1][1..] == blocks[1..][..k];
        }
    }
  }

  /** All or nothing: a refusal returns the original text and names the first block that the ladder refuses, all blocks
      before it having been applied; a success has one strategy per block. */
  lemma RefusalRestores(content: string, blocks: seq<Block>, ratio: (string, string) -> real)
    ensures match ApplyAll(content, blocks, ratio)
      case BlocksRefused(text, k, best) =>
        && text == content && k < |blocks| && ApplyAll(content, blocks[..k], ratio).BlocksEdited?
        && ApplyEdit(ApplyAll(content, blocks[..k], ratio).content, blocks[k].search, blocks[k].replace, ratio) == Refused(best)
      case BlocksEdited(_, strategies) => |strategies| == |blocks|
  {
    FoldCounts(content, blocks, ratio);
    match Fold(content, blocks, ratio)
    case Done(_, _) =>
    case Stuck(k, best) =>
      assert blocks == blocks[..k] + blocks[k..];
      FoldComposes(content, blocks[..k], blocks[k..], ratio);
  }

  // ----- lines stay lines

  /** An edit of a proper list of lines by a proper list of lines is proper, and so splits back into the edited lines,
      when the lines meet cleanly at the seams: the last line before each seam ends in a break (and not in a `\r` that
      a `\n` follows). */
  predicate Meets(a: seq<string>, b: seq<string>) {
    a == [] || b == [] ||
    (Terminated(a[|a| - 1]) && !(a[|a| - 1][|a[|a| - 1]| - 1] == '\r' && b[0] != "" && b[0][0] == '\n'))
  }

  lemma ProperAppend(a: seq<string>, b: seq<string>)
    requires ProperLines(a) && ProperLines(b)
    ensures ProperLines(a + b) <==> Meets(a, b)
  {
    var c := a + b;
    if ProperLines(c) && a != [] && b != [] {
      assert c[|a| - 1] == a[|a| - 1] && c[|a|] == b[0];
      assert 0 <= |a| - 1 < |c| - 1;
    }
    if Meets(a, b) {
      forall i | 0 <= i < |c| - 1
        ensures Terminated(c[i]) && !(c[i][|c[i]| - 1] == '\r' && c[i + 1] != "" && c[i + 1][0] == '\n')
      {
        if i < |a| - 1 {
          assert c[i] == a[i] && c[i + 1] == a[i + 1];
        } else if i >= |a| {
          assert c[i] == b[i - |a|] && c[i + 1] == b[i - |a| + 1];
        }
      }
    }
  }

  lemma ProperSlice(lines: seq<string>, lo: nat, hi: nat)
    requires ProperLines(lines) && lo <= hi <= |lines|
    ensures ProperLines(lines[lo..hi])
  {
    var s := lines[lo..hi];
    assert forall i :: 0 <= i < |s| ==> s[i] == lines[lo + i];
  }

  /** What stands before and after the edited lines meets the replacement cleanly, or each other when there is none. */
  predicate CleanSeams(before: seq<string>, replace: seq<string>, after: seq<string>) {
    if replace == [] then Meets(before, after) else Meets(before, replace) && Meets(replace, after)
  }

  lemma SeamsDecide(before: seq<string>, replace: seq<string>, after: seq<string>)
    requires ProperLines(before) && ProperLines(replace) && ProperLines(after)
    ensures ProperLines(before + replace + after) <==> CleanSeams(before, replace, after)
  {
    if replace == [] {
      assert before + replace == before;
      ProperAppend(before, after);
    } else {
      var all := before + replace + after;
      if ProperLines(all) {
        ProperSlice(all, 0, |before| + |replace|);
        assert all[0..|before| + |replace|] == before + replace;
      }
      ProperAppend(before, replace);
      if ProperLines(before + replace) {
        ProperAppend(before + replace, after);
        assert (before + replace)[|before + replace| - 1] == replace[|replace| - 1];
      }
    }
  }

  /** Replacing lines, or deleting them, gives a text that splits into exactly the edited lines when, and only when, the
      seams are clean. In particular a replacement without a final break is joined to the line that follows. */
  lemma EditedLinesSplitBack(content: string, i: nat, n: nat, replace: seq<string>)
    requires i + n <= |Split(content)| && ProperLines(replace)
    ensures Split(Concat(Replaced(Split(content), i, n, replace))) == Replaced(Split(content), i, n, replace)
       <==> CleanSeams(Split(content)[..i], replace, Split(content)[i + n..])
  {
    var whole := Split(content);
    SplitIsProper(content);
    ProperSlice(whole, 0, i);
    ProperSlice(whole, i + n, |whole|);
    var before, after := whole[..i], whole[i + n..];
    assert whole[0..i] == before && whole[i + n..|whole|] == after;
    ConcatThenSplit(Replaced(whole, i, n, replace));
    SeamsDecide(before, replace, after);
  }

  lemma {:induction false} LineLengthAfterIndent(indent: string, rest: string)
    requires IsIndent(indent)
    ensures LineLength(indent + rest) == |indent| + LineLength(rest)
  {
    if indent == "" {
      assert indent + rest == rest;
    } else {
      assert (indent + rest)[1..] == indent[1..] + rest;
      LineLengthAfterIndent(indent[1..], rest);
    }
  }

  lemma {:induction false} AllSpaceIsBlank(s: string)
    requires forall k :: 0 <= k < |s| ==> IsSpace(s[k])
    ensures IsBlank(s)
  {
    if s != "" { AllSpaceIsBlank(s[1..]); }
  }

  /** The text of a line that is not blank is itself a line, and does not start with a break. */
  lemma BodyIsLine(line: string)
    requires IsLine(line) && !IsBlank(line)
    ensures IsLine(Body(line)) && !IsBreak(Body(line)[0]) && Body(line)[|Body(line)| - 1] == line[|line| - 1]
  {
    LeadingIsIndent(line);
    LineLengthAfterIndent(LeadingWs(line), Body(line));
    if Body(line) == "" || IsBreak(Body(line)[0]) { SpaceBehindIndent(LeadingWs(line), Body(line)); }
  }

  /** An indentation with nothing behind it but a break is blank. */
  lemma SpaceBehindIndent(indent: string, body: string)
    requires IsIndent(indent) && (body == "" || (IsLine(body) && IsBreak(body[0])))
    ensures IsBlank(indent + body)
  {
    var line := indent + body;
    assert forall k :: 0 <= k < |body| ==> IsSpace(body[k]);
    assert forall k :: 0 <= k < |line| ==> line[k] == if k < |indent| then indent[k] else body[k - |indent|];
    AllSpaceIsBlank(line);
  }

  /** `r` is a line that ends like `line`, and starts with a break only if it is `line`. */
  predicate LineLike(r: string, line: string) {
    IsLine(r) && IsLine(line) && r[|r| - 1] == line[|line| - 1] && (IsBreak(r[0]) ==> r == line)
  }

  lemma ReindentedIsLine(line: string, fileIndent: string, partIndent: string)
    requires IsLine(line) && IsIndent(fileIndent)
    ensures LineLike(ReindentLine(line, fileIndent, partIndent), line)
  {
    if !IsBlank(line) {
      BodyIsLine(line);
      MovedIsIndent(line, fileIndent, partIndent);
      LineLengthAfterIndent(MovedIndent(LeadingWs(line), fileIndent, partIndent), Body(line));
    }
  }

  lemma LikeLinesAreProper(r: seq<string>, lines: seq<string>)
    requires ProperLines(lines) && |r| == |lines| && forall k :: 0 <= k < |r| ==> LineLike(r[k], lines[k])
    ensures ProperLines(r)
  {
    forall i | 0 <= i < |r| - 1
      ensures Terminated(r[i]) && !(r[i][|r[i]| - 1] == '\r' && r[i + 1] != "" && r[i + 1][0] == '\n')
    {
      assert LineLike(r[i], lines[i]) && LineLike(r[i + 1], lines[i + 1]);
    }
  }

  /** Re-indenting keeps the lines apart. */
  lemma ReindentIsProper(lines: seq<string>, fileIndent: string, partIndent: string)
    requires ProperLines(lines) && IsIndent(fileIndent)
    ensures ProperLines(Reindent(lines, fileIndent, partIndent))
  {
    var r := Reindent(lines, fileIndent, partIndent);
    forall k | 0 <= k < |r|
      ensures LineLike(r[k], lines[k])
    {
      ReindentedIsLine(lines[k], fileIndent, partIndent);
    }
    LikeLinesAreProper(r, lines);
  }

  /** `inserted` is `replace` line for line, with the same text on each line. */
  predicate SameText(inserted: seq<string>, replace: seq<string>) {
    |inserted| == |replace| &&
    forall k :: 0 <= k < |replace| ==> inserted[k] == replace[k] || Body(inserted[k]) == Body(replace[k])
  }

  lemma ReindentKeepsTexts(lines: seq<string>, fileIndent: string, partIndent: string)
    requires IsIndent(fileIndent)
    ensures SameText(Reindent(lines, fileIndent, partIndent), lines)
  {
    forall k | 0 <= k < |lines|
      ensures ReindentLine(lines[k], fileIndent, partIndent) == lines[k]
           || Body(ReindentLine(lines[k], fileIndent, partIndent)) == Body(lines[k])
    {
      if !IsBlank(lines[k]) { ReindentKeepsText(lines[k], fileIndent, partIndent); }
    }
  }

  /** `inserted` is a proper list of lines with the text of `replace`. */
  predicate Restates(inserted: seq<string>, replace: seq<string>) { ProperLines(inserted) && SameText(inserted, replace) }

  lemma ReindentRestates(lines: seq<string>, fileIndent: string, partIndent: string)
    requires ProperLines(lines) && IsIndent(fileIndent)
    ensures Restates(Reindent(lines, fileIndent, partIndent), lines)
  {
    ReindentIsProper(lines, fileIndent, partIndent);
    ReindentKeepsTexts(lines, fileIndent, partIndent);
  }

  lemma RestatesItself(lines: seq<string>)
    requires ProperLines(lines)
    ensures Restates(lines, lines)
  {
  }

  lemma MovedRestates(replace: seq<string>, fileIndent: string, partIndent: string)
    requires ProperLines(replace) && IsIndent(fileIndent)
    ensures Restates(Moved(replace, fileIndent, partIndent), replace)
  {
    if fileIndent == partIndent { RestatesItself(replace); } else { ReindentRestates(replace, fileIndent, partIndent); }
  }

  lemma ReindentedByRestates(whole: seq<string>, part: seq<string>, replace: seq<string>, i: nat, first: nat, fileIndent: string,
                             partIndent: string)
    requires i + |part| <= |whole| && first < |part| && ProperLines(replace)
    requires fileIndent == LeadingWs(whole[i + first]) && partIndent == LeadingWs(part[first])
    ensures Restates(ReindentedBy(whole, part, replace, i, Some(first)), replace)
  {
    ReindentedByIs(whole, part, replace, i, first);
    MovedRestates(replace, fileIndent, partIndent);
  }

  lemma ReindentedForRestates(whole: seq<string>, part: seq<string>, replace: seq<string>, i: nat)
    requires i + |part| <= |whole| && ProperLines(replace)
    ensures Restates(ReindentedFor(whole, part, replace, i), replace)
  {
    var found := FirstNonBlank(part);
    if found.Some? {
      ReindentedByRestates(whole, part, replace, i, found.value, LeadingWs(whole[i + found.value]), LeadingWs(part[found.value]));
    } else {
      RestatesItself(replace);
    }
  }

  /** `result` is `content` with `n` lines from `i` on replaced by `inserted`: the lines of `replace`, at most
      re-indented. It splits into the edited lines if and only if the seams are clean. */
  ghost predicate EditsLines(content: string, replace: string, result: string, i: nat, n: nat, inserted: seq<string>) {
    && 0 < n && i + n <= |Split(content)|
    && Restates(inserted, Split(replace))
    && result == Concat(Replaced(Split(content), i, n, inserted))
    && (Split(result) == Replaced(Split(content), i, n, inserted)
        <==> CleanSeams(Split(content)[..i], inserted, Split(content)[i + n..]))
  }

  lemma LineEdit(content: string, replace: string, i: nat, n: nat, inserted: seq<string>)
    requires 0 < n && i + n <= |Split(content)| && Restates(inserted, Split(replace))
    ensures EditsLines(content, replace, Concat(Replaced(Split(content), i, n, inserted)), i, n, inserted)
  {
    EditedLinesSplitBack(content, i, n, inserted);
  }

  lemma ExactEditsLines(content: string, part: seq<string>, replace: string)
    requires PerfectSpec(Split(content), part, Split(replace)).Some?
    ensures exists i, n, inserted ::
      EditsLines(content, replace, Concat(PerfectSpec(Split(content), part, Split(replace)).value), i, n, inserted)
  {
    FirstExactFacts(Split(content), part, 0);
    SplitIsProper(replace);
    LineEdit(content, replace, FirstExact(Split(content), part, 0).value, |part|, Split(replace));
  }

  lemma WhitespaceEditsLines(content: string, part: seq<string>, replace: string)
    requires WhitespaceSpec(Split(content), part, Split(replace)).Some?
    ensures exists i, n, inserted ::
      EditsLines(content, replace, Concat(WhitespaceSpec(Split(content), part, Split(replace)).value), i, n, inserted)
  {
    var whole, repl := Split(content), Split(replace);
    FirstAlikeFacts(whole, part, 0);
    var i := FirstAlike(whole, part, 0).value;
    SplitIsProper(replace);
    ReindentedForRestates(whole, part, repl, i);
    LineEdit(content, replace, i, |part|, ReindentedFor(whole, part, repl, i));
  }

  lemma FuzzyEditsLines(content: string, part: seq<string>, replace: string, ratio: (string, string) -> real)
    requires FuzzySpec(Split(content), part, Split(replace), ratio).0.Some?
    ensures exists i, n, inserted ::
      EditsLines(content, replace, Concat(FuzzySpec(Split(content), part, Split(replace), ratio).0.value), i, n, inserted)
  {
    var whole := Split(content);
    BestFits(whole, part, ratio);
    BestIsTried(whole, part, ratio, Spots(whole, MinLength(|part|), MaxLength(|part|)));
    SpotsAreWindows(whole, MinLength(|part|), MaxLength(|part|));
    SplitIsProper(replace);
    var spot := FuzzyBest(whole, part, ratio).spot.value;
    LineEdit(content, replace, spot.start, spot.length, Split(replace));
  }

  /** Every edit of the ladder but an elided one and the appending one edits whole lines, and keeps the file's line
      structure if and only if the seams are clean. */
  lemma LadderEditsLines(content: string, search: string, replace: string, ratio: (string, string) -> real)
    requires search != "" && ApplyEdit(content, search, replace, ratio).Edited?
    requires !ApplyEdit(content, search, replace, ratio).strategy.DotDotDot?
    ensures exists i, n, inserted :: EditsLines(content, replace, ApplyEdit(content, search, replace, ratio).content, i, n, inserted)
  {
    var whole, part, repl := Split(content), Split(search), Split(replace);
    var trimmed := StripLeadingBlanks(part);
    if PerfectSpec(whole, part, repl).Some? {
      ExactEditsLines(content, part, replace);
    } else if WhitespaceSpec(whole, part, repl).Some? {
      WhitespaceEditsLines(content, part, replace);
    } else if trimmed != [] && |trimmed| != |part| && PerfectSpec(whole, trimmed, repl).Some? {
      ExactEditsLines(content, trimmed, replace);
    } else if trimmed != [] && |trimmed| != |part| && WhitespaceSpec(whole, trimmed, repl).Some? {
      WhitespaceEditsLines(content, trimmed, replace);
    } else {
      FuzzyEditsLines(content, part, replace, ratio);
    }
  }
}
