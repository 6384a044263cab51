/** What the band leaves out, in which order it stands, and what its options mean, without the comparators of the code. */
module MemoryBandRules {
  import opened Wrappers
  import opened Sorting
  import opened MemoryBand
  import opened MemoryBandOptimality
  import opened MemoryBandGuarantees

  /** Heavier, or as heavy and earlier in the host's collation of ids. */
  predicate Outranks(collate: string -> real, a: Record, b: Record) {
    a.salience > b.salience || (a.salience == b.salience && collate(a.id) < collate(b.id))
  }

  /** The band is in order: no record stands behind one that it outranks. */
  lemma BandIsInOrder(records: seq<Record>, collate: string -> real, max: nat, floor: nat)
    ensures var band := Band(records, collate, max, floor);
      forall i, j :: 0 <= i < j < |band| ==> !Outranks(collate, band[j], band[i])
  {
    RankIsTotal(collate);
    SortSorts(Chosen(Ranking(records, collate), max, floor), ByRank(collate));
  }

  lemma RankedOrder(records: seq<Record>, collate: string -> real, i: nat, j: nat)
    requires i < |Ranking(records, collate)| && j < |Ranking(records, collate)|
    requires Outranks(collate, Ranking(records, collate)[i], Ranking(records, collate)[j])
    ensures i < j
  {
    RankIsTotal(collate);
    SortSorts(records, ByRank(collate));
  }

  lemma PlaceIn(records: seq<Record>, collate: string -> real, r: Record) returns (i: nat)
    requires r in records
    ensures i < |Ranking(records, collate)| && Ranking(records, collate)[i] == r
  {
    SortKeepsElements(records, ByRank(collate));
    assert r in multiset(Ranking(records, collate));
    i :| i < |Ranking(records, collate)| && Ranking(records, collate)[i] == r;
  }

  /** Within a source the band takes the best: a record that outranks a chosen one of its source is chosen too. */
  lemma BestOfEachSource(records: seq<Record>, collate: string -> real, max: nat, floor: nat, a: Record, b: Record)
    requires DistinctIds(records) && a in records && b in Band(records, collate, max, floor)
    requires a.source == b.source && Outranks(collate, a, b)
    ensures a in Band(records, collate, max, floor)
  {
    var band := Band(records, collate, max, floor);
    BandShape(records, collate, max, floor);
    assert b in multiset(band) && b in multiset(records);
    var i := PlaceIn(records, collate, a);
    var j := PlaceIn(records, collate, b);
    RankedOrder(records, collate, i, j);
    assert a in Members(band);
  }

  // ----- which records are reserved

  lemma {:induction false} BucketOrder(ranking: seq<Record>, s: Source, i: nat, j: nat)
    requires i < j < |Bucket(ranking, s)|
    ensures exists k, l :: 0 <= k < l < |ranking| && ranking[k] == Bucket(ranking, s)[i] && ranking[l] == Bucket(ranking, s)[j]
  {
    if ranking[0].source == s && i == 0 {
      BucketIsIn(ranking[1..], s, j - 1);
      var l :| 0 <= l < |ranking[1..]| && ranking[1..][l] == Bucket(ranking[1..], s)[j - 1];
      assert ranking[0] == Bucket(ranking, s)[0] && ranking[l + 1] == Bucket(ranking, s)[j];
    } else {
      var d := if ranking[0].source == s then 1 else 0;
      BucketOrder(ranking[1..], s, i - d, j - d);
      var k, l :| 0 <= k < l < |ranking[1..]| && ranking[1..][k] == Bucket(ranking[1..], s)[i - d] && ranking[1..][l] == Bucket(ranking[1..], s)[j - d];
      assert ranking[k + 1] == Bucket(ranking, s)[i] && ranking[l + 1] == Bucket(ranking, s)[j];
    }
  }

  lemma {:induction false} BucketIsIn(ranking: seq<Record>, s: Source, i: nat)
    requires i < |Bucket(ranking, s)|
    ensures exists k :: 0 <= k < |ranking| && ranking[k] == Bucket(ranking, s)[i]
    ensures Bucket(ranking, s)[i].source == s
  {
    if ranking[0].source == s && i == 0 {
      assert ranking[0] == Bucket(ranking, s)[0];
    } else {
      var d := if ranking[0].source == s then 1 else 0;
      BucketIsIn(ranking[1..], s, i - d);
      var k :| 0 <= k < |ranking[1..]| && ranking[1..][k] == Bucket(ranking[1..], s)[i - d];
      assert ranking[k + 1] == Bucket(ranking, s)[i];
    }
  }

  lemma {:induction false} BucketHasAll(ranking: seq<Record>, s: Source)
    ensures forall r :: r in Bucket(ranking, s) <==> r in ranking && r.source == s
  {
    if ranking != [] {
      BucketHasAll(ranking[1..], s);
      assert ranking == [ranking[0]] + ranking[1..];
    }
  }

  /** The records of the same source that outrank it. */
  ghost function Better(records: seq<Record>, collate: string -> real, r: Record): set<Record> {
    set x | x in records && x.source == r.source && Outranks(collate, x, r)
  }

  function FirstOf(s: seq<Record>, n: nat): set<Record>
    requires n <= |s|
  {
    set i | 0 <= i < n :: s[i]
  }

  lemma {:induction false} FirstOfSize(s: seq<Record>, n: nat)
    requires n <= |s|
    ensures |FirstOf(s, n)| <= n
  {
    if n > 0 {
      FirstOfSize(s, n - 1);
      assert FirstOf(s, n) == FirstOf(s, n - 1) + {s[n - 1]};
    }
  }

  lemma BetterComesEarlier(records: seq<Record>, collate: string -> real, i: nat, x: Record)
    requires i < |Bucket(Ranking(records, collate), x.source)| && x in records
    requires Outranks(collate, x, Bucket(Ranking(records, collate), x.source)[i])
    ensures x in FirstOf(Bucket(Ranking(records, collate), x.source), i)
  {
    var R := Ranking(records, collate);
    var bucket := Bucket(R, x.source);
    BucketHasAll(R, x.source);
    var place := PlaceIn(records, collate, x);
    var k: nat :| k < |bucket| && bucket[k] == x;
    if k > i {
      BucketOrder(R, x.source, i, k);
      var a, b :| 0 <= a < b < |R| && R[a] == bucket[i] && R[b] == bucket[k];
      RankedOrder(records, collate, b, a);
    }
  }

  lemma BetterAreFew(records: seq<Record>, collate: string -> real, i: nat, s: Source)
    requires i < |Bucket(Ranking(records, collate), s)|
    ensures |Better(records, collate, Bucket(Ranking(records, collate), s)[i])| <= i
  {
    var bucket := Bucket(Ranking(records, collate), s);
    BucketIsIn(Ranking(records, collate), s, i);
    FirstOfSize(bucket, i);
    var better := Better(records, collate, bucket[i]);
    forall x | x in better
      ensures x in FirstOf(bucket, i)
    {
      BetterComesEarlier(records, collate, i, x);
    }
    assert better <= FirstOf(bucket, i);
    SetSize(better, FirstOf(bucket, i));
  }

  lemma SetSize(a: set<Record>, b: set<Record>)
    requires a <= b
    ensures |a| <= |b|
  {
    assert b == a + (b - a);
  }

  lemma {:induction false} PicksAreFirst(R: seq<Record>, sources: seq<Source>, floor: nat, r: Record)
    requires r in FloorPicks(R, sources, floor)
    ensures exists i: nat :: i < |Bucket(R, r.source)| && i < floor && Bucket(R, r.source)[i] == r
  {
    var bucket := Bucket(R, sources[0]);
    if r in Take(bucket, floor) {
      var i: nat :| i < |Take(bucket, floor)| && Take(bucket, floor)[i] == r;
      BucketIsIn(R, sources[0], i);
      assert i < floor && bucket[i] == r;
    } else {
      PicksAreFirst(R, sources[1..], floor, r);
    }
  }

  lemma PickedAreAmongTheBest(records: seq<Record>, collate: string -> real, floor: nat, r: Record)
    requires r in FloorPicks(Ranking(records, collate), SOURCE_ORDER, floor)
    ensures |Better(records, collate, r)| < floor
  {
    PicksAreFirst(Ranking(records, collate), SOURCE_ORDER, floor, r);
    var i: nat :| i < |Bucket(Ranking(records, collate), r.source)| && i < floor && Bucket(Ranking(records, collate), r.source)[i] == r;
    BetterAreFew(records, collate, i, r.source);
  }

  // ----- what is left out

  lemma BandMembers(records: seq<Record>, collate: string -> real, max: nat, floor: nat) returns (cut: nat)
    requires DistinctIds(records)
    ensures var R := Ranking(records, collate);
      CutAt(R, Members(Band(records, collate, max, floor)), Members(Take(FloorPicks(R, SOURCE_ORDER, floor), max)), cut)
  {
    var R, c := Ranking(records, collate), Chosen(Ranking(records, collate), max, floor);
    RankingFacts(records, collate);
    cut := ChosenFacts(R, max, floor);
    SortKeepsElements(c, ByRank(collate));
    SameMembers(Band(records, collate, max, floor), c);
  }

  /** Across sources the free places go to the best: a chosen record has fewer than `floor` better ones in its own source,
      or no record left out outranks it. */
  lemma FreePlacesGoToTheBest(records: seq<Record>, collate: string -> real, max: nat, floor: nat, chosen: Record, left: Record)
    requires DistinctIds(records) && chosen in Band(records, collate, max, floor)
    requires left in records && left !in Band(records, collate, max, floor)
    ensures |Better(records, collate, chosen)| < floor || !Outranks(collate, left, chosen)
  {
    var R, band := Ranking(records, collate), Band(records, collate, max, floor);
    var cut := BandMembers(records, collate, max, floor);
    BandShape(records, collate, max, floor);
    assert chosen in multiset(band) && chosen in multiset(records);
    var i := PlaceIn(records, collate, chosen);
    var j := PlaceIn(records, collate, left);
    assert R[i] in Members(band) && R[j] !in Members(band);
    if Outranks(collate, left, chosen) {
      RankedOrder(records, collate, j, i);
      assert cut <= j;
      assert R[i] in Take(FloorPicks(R, SOURCE_ORDER, floor), max);
      PickedAreAmongTheBest(records, collate, floor, chosen);
    }
  }

  // ----- when the floors do not fit

  lemma {:induction false} PicksSplit(R: seq<Record>, a: seq<Source>, b: seq<Source>, floor: nat)
    ensures FloorPicks(R, a + b, floor) == FloorPicks(R, a, floor) + FloorPicks(R, b, floor)
  {
    if a == [] {
      assert a + b == b;
    } else {
      assert (a + b)[1..] == a[1..] + b;
      PicksSplit(R, a[1..], b, floor);
    }
  }

  lemma {:induction false} PicksComeFrom(R: seq<Record>, sources: seq<Source>, floor: nat)
    ensures forall r :: r in FloorPicks(R, sources, floor) ==> r.source in sources
  {
    if sources != [] {
      PicksComeFrom(R, sources[1..], floor);
      BucketHasAll(R, sources[0]);
    }
  }

  ghost predicate EachOnce(order: seq<Source>) { forall i, j :: 0 <= i < j < |order| ==> order[i] != order[j] }

  lemma LaterPickComesLater(R: seq<Record>, order: seq<Source>, floor: nat, max: nat, i: nat, r: Record)
    requires EachOnce(order) && i < |order| && r in Take(FloorPicks(R, order, floor), max) && r.source in order[i + 1..]
    ensures FloorPicks(R, order[..i + 1], floor) <= Take(FloorPicks(R, order, floor), max)
  {
    var front, all := FloorPicks(R, order[..i + 1], floor), FloorPicks(R, order, floor);
    assert order == order[..i + 1] + order[i + 1..];
    PicksSplit(R, order[..i + 1], order[i + 1..], floor);
    PicksComeFrom(R, order[..i + 1], floor);
    LaterIsNotBefore(order, i, r.source);
    assert r !in front;
    assert max <= |front| ==> Take(all, max) <= front;
  }

  lemma LaterIsNotBefore(order: seq<Source>, i: nat, s: Source)
    requires EachOnce(order) && i < |order| && s in order[i + 1..]
    ensures s !in order[..i + 1]
  {
    var m: nat :| m < |order[i + 1..]| && order[i + 1..][m] == s;
    assert order[i + 1 + m] == s;
  }

  lemma FrontMeetsFloor(R: seq<Record>, order: seq<Source>, floor: nat, i: nat, c: seq<Record>)
    requires i < |order| && FloorPicks(R, order[..i + 1], floor) <= c
    ensures |Bucket(c, order[i])| >= Min(floor, |Bucket(R, order[i])|)
  {
    var s, before, own := order[i], FloorPicks(R, order[..i], floor), Take(Bucket(R, order[i]), floor);
    assert order[..i + 1] == order[..i] + [s];
    FloorPicksAppend(R, order[..i], s, floor);
    var rest := c[|before + own|..];
    assert c == before + own + rest;
    BucketAppend(before + own, rest, s);
    BucketAppend(before, own, s);
    BucketHasAll(R, s);
    BucketOfOneSource(own, s, s);
  }

  lemma OrderIsOnce()
    ensures EachOnce(SOURCE_ORDER)
  {
  }

  /** The reserved places go round the sources in the order of their names: when a source has a record in a band that is
      full of reserved ones, every source named before it has its whole floor in it. */
  lemma FloorsGoInSourceOrder(records: seq<Record>, collate: string -> real, max: nat, floor: nat, i: nat, r: Record)
    requires DistinctIds(records) && i < |SOURCE_ORDER| && r.source in SOURCE_ORDER[i + 1..]
    requires FloorDemand(records, SOURCE_ORDER, floor) >= max && r in Band(records, collate, max, floor)
    ensures |Bucket(Band(records, collate, max, floor), SOURCE_ORDER[i])| >= Min(floor, |Bucket(records, SOURCE_ORDER[i])|)
  {
    TightFloor(records, collate, max, floor, SOURCE_ORDER, i, r);
  }

  lemma TightFloor(records: seq<Record>, collate: string -> real, max: nat, floor: nat, order: seq<Source>, i: nat, r: Record)
    requires order == SOURCE_ORDER && DistinctIds(records) && i < |order| && r.source in order[i + 1..]
    requires FloorDemand(records, order, floor) >= max && r in Band(records, collate, max, floor)
    ensures |Bucket(Band(records, collate, max, floor), order[i])| >= Min(floor, |Bucket(records, order[i])|)
  {
    var R, band := Ranking(records, collate), Band(records, collate, max, floor);
    var c := Take(FloorPicks(R, order, floor), max);
    OrderIsOnce();
    TightBand(records, collate, max, floor);
    LaterPickComesLater(R, order, floor, max, i, r);
    FrontMeetsFloor(R, order, floor, i, c);
    BucketSizeOfPermutation(band, c, order[i]);
    SortKeepsElements(records, ByRank(collate));
    BucketSizeOfPermutation(R, records, order[i]);
  }

  lemma TightBand(records: seq<Record>, collate: string -> real, max: nat, floor: nat)
    requires DistinctIds(records) && FloorDemand(records, SOURCE_ORDER, floor) >= max
    ensures var c := Take(FloorPicks(Ranking(records, collate), SOURCE_ORDER, floor), max);
      && multiset(Band(records, collate, max, floor)) == multiset(c)
      && forall x :: x in Band(records, collate, max, floor) <==> x in c
  {
    var R := Ranking(records, collate);
    RankingFacts(records, collate);
    DemandIsPickCount(records, R, SOURCE_ORDER, floor);
    var c := Chosen(R, max, floor);
    SortKeepsElements(c, ByRank(collate));
    assert forall x :: x in Band(records, collate, max, floor) <==> x in multiset(Band(records, collate, max, floor));
    assert forall x :: x in c <==> x in multiset(c);
  }

  // ----- the options

  /** Without options the band has twelve places and reserves one for each source; fractions are cut off, and there is
      always a place. */
  lemma OptionsMean(o: BandOptions)
    ensures o.maxRecords.None? ==> MaxRecords(o) == 12
    ensures o.perSourceFloor.None? ==> PerSourceFloor(o) == 1
    ensures o.maxRecords.Some? ==>
      var x := o.maxRecords.value; if x < 1.0 then MaxRecords(o) == 1 else MaxRecords(o) as real <= x < MaxRecords(o) as real + 1.0
    ensures o.perSourceFloor.Some? ==>
      var x := o.perSourceFloor.value; if x < 0.0 then PerSourceFloor(o) == 0 else PerSourceFloor(o) as real <= x < PerSourceFloor(o) as real + 1.0
  {
  }

  // ----- what is projected

  /** `y` is the number of the unit interval nearest to `x`. */
  predicate Nearest(x: real, y: real) { 0.0 <= y <= 1.0 && (x <= 0.0 ==> y == 0.0) && (x >= 1.0 ==> y == 1.0) && (0.0 <= x <= 1.0 ==> y == x) }

  predicate IsMemory(r: Record, m: SessionMemory) {
    r.source.Session? && r.text == m.text && Nearest(m.score, r.salience) && r.deleteControl == ChatMemory(m.id)
  }

  predicate IsLayerRecord(r: Record, l: LayerRecord) {
    && (r.source.Working? <==> l.layer.WorkingLayer?) && (r.source.Episodic? <==> l.layer.EpisodicLayer?)
    && (r.source.Semantic? <==> l.layer.SemanticLayer?) && (r.source.Procedural? <==> l.layer.ProceduralLayer?)
    && r.text == l.text && Nearest(l.salience, r.salience) && r.provenance == l.provenance && r.deleteControl.NotDeletable?
  }

  predicate IsNote(r: Record, n: Note, trim: string -> string) {
    r.source.BasicMemory? && r.text == trim(n.title + ": " + n.excerpt) && Nearest(n.score, r.salience)
    && r.deleteControl == BasicMemoryNote(n.permalink)
  }

  /** The first step in progress. */
  predicate ActiveAt(steps: seq<PlanStep>, k: nat) {
    k < |steps| && steps[k].status.InProgress? && forall j :: 0 <= j < k ==> !steps[j].status.InProgress?
  }

  lemma {:induction false} ActiveStepIsFirst(steps: seq<PlanStep>)
    ensures ActiveStep(steps) != [] <==> exists k :: 0 <= k < |steps| && steps[k].status.InProgress?
    ensures forall k: nat :: ActiveAt(steps, k) ==> ActiveStep(steps) == [FromStep(steps[k])]
  {
    if steps != [] && !steps[0].status.InProgress? {
      ActiveStepIsFirst(steps[1..]);
      if k :| 0 <= k < |steps| && steps[k].status.InProgress? { assert steps[1..][k - 1] == steps[k]; }
      if k :| 0 <= k < |steps[1..]| && steps[1..][k].status.InProgress? { assert steps[k + 1] == steps[1..][k]; }
      forall k: nat | ActiveAt(steps, k)
        ensures ActiveStep(steps) == [FromStep(steps[k])]
      {
        assert ActiveAt(steps[1..], k - 1);
      }
    }
  }

  /** Every memory, layer record and note is projected once, in order, as itself; and last the first plan step in
      progress, at full weight. */
  lemma ProjectionCarriesEverything(i: ProjectionInput, trim: string -> string)
    ensures var P, n1, n2, n3 := Projection(i, trim), |i.sessionMemories|, |i.layerRecords|, |i.notes|;
      && |P| == n1 + n2 + n3 + (if exists k :: 0 <= k < |i.steps| && i.steps[k].status.InProgress? then 1 else 0)
      && (forall k :: 0 <= k < n1 ==> IsMemory(P[k], i.sessionMemories[k]))
      && (forall k :: 0 <= k < n2 ==> IsLayerRecord(P[n1 + k], i.layerRecords[k]))
      && (forall k :: 0 <= k < n3 ==> IsNote(P[n1 + n2 + k], i.notes[k], trim))
      && (forall k: nat :: ActiveAt(i.steps, k) ==>
            && |P| == n1 + n2 + n3 + 1 && P[n1 + n2 + n3].source.FocusChain? && P[n1 + n2 + n3].salience == 1.0
            && P[n1 + n2 + n3].text == "Current plan step: " + i.steps[k].step)
  {
    ActiveStepIsFirst(i.steps);
    ActiveStepShape(i.steps);
  }
}
