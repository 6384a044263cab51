/** What a caller of the memory band may rely on, stated over the records and the band alone. */
module MemoryBandGuarantees {
  import opened Sorting
  import opened MemoryBand
  import opened MemoryBandOptimality

  lemma RankIsTotal(collate: string -> real)
    ensures TotalPreorder(ByRank(collate))
  {
  }

  lemma DistinctIdsOfPermutation(a: seq<Record>, b: seq<Record>)
    requires multiset(a) == multiset(b) && DistinctIds(a)
    ensures DistinctIds(b)
  {
    SubMultisetNoDup(b, a);
    forall i, j | 0 <= i < j < |b|
      ensures b[i].id != b[j].id
    {
      assert b[i] in multiset(a) && b[j] in multiset(a);
      assert b[i] in a && b[j] in a;
    }
  }

  lemma RankingFacts(records: seq<Record>, collate: string -> real)
    requires DistinctIds(records)
    ensures var R := Ranking(records, collate);
      multiset(R) == multiset(records) && |R| == |records| && DistinctIds(R) && NoDup(R) && Descending(R)
  {
    RankIsTotal(collate);
    SortSorts(records, ByRank(collate));
    SortKeepsElements(records, ByRank(collate));
    DistinctIdsOfPermutation(records, Ranking(records, collate));
  }

  lemma ChosenFacts(R: seq<Record>, max: nat, floor: nat) returns (cut: nat)
    requires DistinctIds(R)
    ensures var c, F := Chosen(R, max, floor), Take(FloorPicks(R, SOURCE_ORDER, floor), max);
      NoDup(c) && multiset(c) <= multiset(R) && |c| == Min(max, |R|) && F <= c && NoDup(F)
      && CutAt(R, Members(c), Members(F), cut)
  {
    var p := FloorPicks(R, SOURCE_ORDER, floor);
    var F, c := Take(p, max), Chosen(R, max, floor);
    FloorPicksInRanking(R, floor);
    SubMultisetNoDup(p, R);
    assert DistinctFrom(R, F) by {
      forall r, q | r in R && q in F && r.id == q.id
        ensures r == q
      {
        assert q in multiset(p);
        assert q in R;
      }
    }
    cut := FillShape(R, F, max);
    FillNoDup(R, F, max);
    forall r
      ensures multiset(c)[r] <= multiset(R)[r]
    {
      AtMostOnce(c, r);
      if r in c && r in F { assert r in multiset(p); }
    }
    ChosenSize(R, c, max, cut);
  }

  lemma ChosenSize(R: seq<Record>, c: seq<Record>, max: nat, cut: nat)
    requires NoDup(R) && NoDup(c) && multiset(c) <= multiset(R) && |c| <= max
    requires |c| >= max || (cut == |R| && forall i :: 0 <= i < cut ==> R[i] in Members(c))
    ensures |c| == Min(max, |R|)
  {
    SubMultisetSize(c, R);
    if |c| < max {
      forall r
        ensures multiset(R)[r] <= multiset(c)[r]
      {
        AtMostOnce(R, r);
      }
      SubMultisetSize(R, c);
    }
  }

  lemma SubMultisetSize(a: seq<Record>, b: seq<Record>)
    requires multiset(a) <= multiset(b)
    ensures |a| <= |b|
  {
    assert multiset(b) == multiset(a) + (multiset(b) - multiset(a));
    assert |multiset(b)| == |multiset(a)| + |multiset(b) - multiset(a)|;
  }

  /** Size, order and origin: the band is full, sorted, and takes a prefix of each source's ranking. */
  lemma BandShape(records: seq<Record>, collate: string -> real, max: nat, floor: nat)
    requires DistinctIds(records)
    ensures var band := Band(records, collate, max, floor);
      && |band| == Min(max, |records|)
      && multiset(band) <= multiset(records)
      && SortedBy(band, ByRank(collate))
      && SourcePrefix(Ranking(records, collate), Members(band))
  {
    var R, c := Ranking(records, collate), Chosen(Ranking(records, collate), max, floor);
    RankingFacts(records, collate);
    var cut := ChosenFacts(R, max, floor);
    RankIsTotal(collate);
    SortSorts(c, ByRank(collate));
    SortKeepsElements(c, ByRank(collate));
    var band := Band(records, collate, max, floor);
    SameMembers(band, c);
    forall i, j | 0 <= i < j < |R| && R[i].source == R[j].source && R[j] in Members(c)
      ensures R[i] in Members(c)
    {
      if cut <= i {
        FloorPicksPrefix(R, SOURCE_ORDER, floor, max, i, j);
      }
    }
  }

  lemma SameMembers(a: seq<Record>, b: seq<Record>)
    requires multiset(a) == multiset(b)
    ensures Members(a) == Members(b)
  {
    assert forall r :: r in a <==> r in multiset(a);
    assert forall r :: r in b <==> r in multiset(b);
  }

  function FloorDemand(records: seq<Record>, sources: seq<Source>, floor: nat): nat {
    if sources == [] then 0
    else Min(floor, |Bucket(records, sources[0])|) + FloorDemand(records, sources[1..], floor)
  }

  ghost predicate MeetsFloors(chosen: seq<Record>, records: seq<Record>, floor: nat) {
    forall s :: |Bucket(chosen, s)| >= Min(floor, |Bucket(records, s)|)
  }

  lemma {:induction false} DemandIsPickCount(records: seq<Record>, R: seq<Record>, sources: seq<Source>, floor: nat)
    requires multiset(records) == multiset(R)
    ensures |FloorPicks(R, sources, floor)| == FloorDemand(records, sources, floor)
  {
    if sources != [] {
      DemandIsPickCount(records, R, sources[1..], floor);
      BucketSizeOfPermutation(records, R, sources[0]);
    }
  }

  lemma {:induction false} DemandOfFloorsMet(records: seq<Record>, chosen: seq<Record>, sources: seq<Source>, floor: nat)
    requires MeetsFloors(chosen, records, floor)
    ensures FloorDemand(records, sources, floor) <= BucketSizes(chosen, sources)
  {
    if sources != [] {
      DemandOfFloorsMet(records, chosen, sources[1..], floor);
      assert |Bucket(chosen, sources[0])| >= Min(floor, |Bucket(records, sources[0])|);
    }
  }

  /** A selection that meets the floors is at least as large as they demand. */
  lemma FloorsNeedRoom(records: seq<Record>, chosen: seq<Record>, floor: nat)
    requires MeetsFloors(chosen, records, floor)
    ensures FloorDemand(records, SOURCE_ORDER, floor) <= |chosen|
  {
    DemandOfFloorsMet(records, chosen, SOURCE_ORDER, floor);
    SourcesCoverEverything(chosen);
  }

  lemma FloorCount(R: seq<Record>, floor: nat, s: Source)
    requires NoDup(R)
    ensures SumIn(R, Members(FloorPicks(R, SOURCE_ORDER, floor)), IsFrom(s)) == Min(floor, |Bucket(R, s)|) as real
  {
    var p := FloorPicks(R, SOURCE_ORDER, floor);
    EverySourceListed(s);
    FloorPicksInRanking(R, floor);
    SubTotal(R, p, IsFrom(s));
    BucketSize(p, s);
    FloorPicksOf(R, SOURCE_ORDER, floor, s);
  }

  /** The band meets every source's floor exactly when the floors fit into it. */
  lemma BandMeetsFloorsIffTheyFit(records: seq<Record>, collate: string -> real, max: nat, floor: nat)
    requires DistinctIds(records)
    ensures MeetsFloors(Band(records, collate, max, floor), records, floor)
       <==> FloorDemand(records, SOURCE_ORDER, floor) <= max
  {
    var band := Band(records, collate, max, floor);
    if MeetsFloors(band, records, floor) {
      BandShape(records, collate, max, floor);
      FloorsNeedRoom(records, band, floor);
    }
    if FloorDemand(records, SOURCE_ORDER, floor) <= max {
      forall s
        ensures |Bucket(band, s)| >= Min(floor, |Bucket(records, s)|)
      {
        FittingFloorIsMet(records, collate, max, floor, s);
      }
    }
  }

  lemma FittingFloorIsMet(records: seq<Record>, collate: string -> real, max: nat, floor: nat, s: Source)
    requires DistinctIds(records)
    requires FloorDemand(records, SOURCE_ORDER, floor) <= max
    ensures |Bucket(Band(records, collate, max, floor), s)| >= Min(floor, |Bucket(records, s)|)
  {
    var R := Ranking(records, collate);
    RankingFacts(records, collate);
    DemandIsPickCount(records, R, SOURCE_ORDER, floor);
    var p, c := FloorPicks(R, SOURCE_ORDER, floor), Chosen(R, max, floor);
    var cut := ChosenFacts(R, max, floor);
    EverySourceListed(s);
    FloorPicksOf(R, SOURCE_ORDER, floor, s);
    assert c == p + c[|p|..];
    BucketAppend(p, c[|p|..], s);
    SortKeepsElements(c, ByRank(collate));
    BucketSizeOfPermutation(Sort(c, ByRank(collate)), c, s);
    BucketSizeOfPermutation(R, records, s);
  }

  /** Optimality. Any selection of the band's size that meets every source's floor is worth no more than the band.
      (When the floors do not fit, there is no such selection.) */
  lemma BandIsOptimal(records: seq<Record>, collate: string -> real, max: nat, floor: nat, rival: seq<Record>)
    requires DistinctIds(records)
    requires multiset(rival) <= multiset(records)
    requires |rival| == Min(max, |records|)
    requires MeetsFloors(rival, records, floor)
    ensures TotalSalience(rival) <= TotalSalience(Band(records, collate, max, floor))
  {
    var R, band := Ranking(records, collate), Band(records, collate, max, floor);
    var c, p := Chosen(R, max, floor), FloorPicks(R, SOURCE_ORDER, floor);
    RankingFacts(records, collate);
    FloorsNeedRoom(records, rival, floor);
    DemandIsPickCount(records, R, SOURCE_ORDER, floor);
    var cut := ChosenFacts(R, max, floor);
    FloorPicksArePrefix(R, floor);
    RivalCounts(records, R, rival, floor);
    SubTotal(R, rival, One());
    SubTotal(R, c, One());
    TotalOfOnes(rival);
    TotalOfOnes(c);
    CutIsOptimal(R, Members(rival), Members(c), Members(p), cut);
    SubTotal(R, rival, Salience());
    SortKeepsElements(c, ByRank(collate));
    SubTotal(R, band, Salience());
    SameMembers(band, c);
  }

  lemma FloorPicksArePrefix(R: seq<Record>, floor: nat)
    requires NoDup(R)
    ensures SourcePrefix(R, Members(FloorPicks(R, SOURCE_ORDER, floor)))
  {
    var p := FloorPicks(R, SOURCE_ORDER, floor);
    forall i, j | 0 <= i < j < |R| && R[i].source == R[j].source && R[j] in p
      ensures R[i] in p
    {
      FloorPicksPrefix(R, SOURCE_ORDER, floor, |p|, i, j);
    }
  }

  lemma RivalCounts(records: seq<Record>, R: seq<Record>, rival: seq<Record>, floor: nat)
    requires NoDup(R) && multiset(R) == multiset(records)
    requires multiset(rival) <= multiset(R) && MeetsFloors(rival, records, floor)
    ensures CountsDominate(R, Members(rival), Members(FloorPicks(R, SOURCE_ORDER, floor)))
  {
    forall s
      ensures SumIn(R, Members(rival), IsFrom(s)) >= SumIn(R, Members(FloorPicks(R, SOURCE_ORDER, floor)), IsFrom(s))
    {
      FloorCount(R, floor, s);
      SubTotal(R, rival, IsFrom(s));
      BucketSize(rival, s);
      BucketSizeOfPermutation(R, records, s);
      assert |Bucket(rival, s)| >= Min(floor, |Bucket(records, s)|);
    }
  }

  lemma {:induction false} TotalOfOnes(s: seq<Record>)
    ensures Total(s, One()) == |s| as real
  {
    if s != [] { TotalOfOnes(s[1..]); }
  }

  // ----- the projection feeds the band distinct ids

  ghost predicate DistinctInputs(i: ProjectionInput) {
    && (forall a, b :: 0 <= a < b < |i.sessionMemories| ==> i.sessionMemories[a].id != i.sessionMemories[b].id)
    && (forall a, b :: 0 <= a < b < |i.layerRecords| ==> i.layerRecords[a].id != i.layerRecords[b].id)
    && (forall a, b :: 0 <= a < b < |i.notes| ==> i.notes[a].permalink != i.notes[b].permalink)
  }

  lemma {:induction false} ActiveStepShape(steps: seq<PlanStep>)
    ensures var r := ActiveStep(steps); |r| <= 1 && (r != [] ==> r[0].id == "focus:active" && r[0].salience == 1.0)
  {
    if steps != [] { ActiveStepShape(steps[1..]); }
  }

  lemma PrefixedIdsDiffer(prefix: string, a: string, b: string)
    requires prefix + a == prefix + b
    ensures a == b
  {
    assert (prefix + a)[|prefix|..] == a && (prefix + b)[|prefix|..] == b;
  }

  /** The id of the `k`-th input among the three lists, as the projection writes it. */
  function ProjectedId(i: ProjectionInput, k: nat): string
    requires k < |i.sessionMemories| + |i.layerRecords| + |i.notes|
  {
    var n1, n2 := |i.sessionMemories|, |i.layerRecords|;
    if k < n1 then "session:" + i.sessionMemories[k].id
    else if k < n1 + n2 then "layer:" + i.layerRecords[k - n1].id
    else "basic:" + i.notes[k - n1 - n2].permalink
  }

  lemma ProjectedIdAt(i: ProjectionInput, trim: string -> string, k: nat)
    requires k < |i.sessionMemories| + |i.layerRecords| + |i.notes|
    ensures k < |Projection(i, trim)| && Projection(i, trim)[k].id == ProjectedId(i, k)
  {
  }

  lemma SameIdTwice(i: ProjectionInput, trim: string -> string, a: nat, b: nat)
    requires a < b < |i.sessionMemories| + |i.layerRecords| + |i.notes| && ProjectedId(i, a) == ProjectedId(i, b)
    ensures !DistinctIds(Projection(i, trim))
  {
    ProjectedIdAt(i, trim, a);
    ProjectedIdAt(i, trim, b);
  }

  /** The source prefixes keep the ids of different inputs apart: the projection repeats an id exactly when one of the
      three lists does. */
  lemma ProjectionIdsDistinct(i: ProjectionInput, trim: string -> string)
    ensures DistinctIds(Projection(i, trim)) <==> DistinctInputs(i)
  {
    if DistinctInputs(i) {
      forall a: nat, b: nat | a < b < |Projection(i, trim)|
        ensures Projection(i, trim)[a].id != Projection(i, trim)[b].id
      {
        var n := |i.sessionMemories| + |i.layerRecords| + |i.notes|;
        StepIsLast(i, trim);
        ProjectedIdAt(i, trim, a);
        if b < n {
          ProjectedIdAt(i, trim, b);
          ProjectedIdsDiffer(i, a, b);
        } else {
          assert ProjectedId(i, a)[0] != "focus:active"[0];
        }
      }
    } else {
      RepeatedInputRepeatsId(i, trim);
    }
  }

  lemma StepIsLast(i: ProjectionInput, trim: string -> string)
    ensures var n := |i.sessionMemories| + |i.layerRecords| + |i.notes|;
      |Projection(i, trim)| <= n + 1 && (|Projection(i, trim)| == n + 1 ==> Projection(i, trim)[n].id == "focus:active")
  {
    ActiveStepShape(i.steps);
  }

  lemma ProjectedIdsDiffer(i: ProjectionInput, a: nat, b: nat)
    requires DistinctInputs(i) && a < b < |i.sessionMemories| + |i.layerRecords| + |i.notes|
    ensures ProjectedId(i, a) != ProjectedId(i, b)
  {
    if ProjectedId(i, a) == ProjectedId(i, b) { SameIdMeansRepeated(i, a, b); }
  }

  lemma SameIdMeansRepeated(i: ProjectionInput, a: nat, b: nat)
    requires a < b < |i.sessionMemories| + |i.layerRecords| + |i.notes| && ProjectedId(i, a) == ProjectedId(i, b)
    ensures !DistinctInputs(i)
  {
    var n1, n2 := |i.sessionMemories|, |i.layerRecords|;
    assert ProjectedId(i, a)[0] == ProjectedId(i, b)[0] ==> (b < n1 || n1 <= a < b < n1 + n2 || n1 + n2 <= a);
    if b < n1 {
      PrefixedIdsDiffer("session:", i.sessionMemories[a].id, i.sessionMemories[b].id);
    } else if n1 <= a < b < n1 + n2 {
      PrefixedIdsDiffer("layer:", i.layerRecords[a - n1].id, i.layerRecords[b - n1].id);
    } else if n1 + n2 <= a {
      PrefixedIdsDiffer("basic:", i.notes[a - n1 - n2].permalink, i.notes[b - n1 - n2].permalink);
    }
  }

  lemma RepeatedInputRepeatsId(i: ProjectionInput, trim: string -> string)
    requires !DistinctInputs(i)
    ensures !DistinctIds(Projection(i, trim))
  {
    var n1, n2 := |i.sessionMemories|, |i.layerRecords|;
    if a, b :| 0 <= a < b < n1 && i.sessionMemories[a].id == i.sessionMemories[b].id {
      SameIdTwice(i, trim, a, b);
    } else if a, b :| 0 <= a < b < n2 && i.layerRecords[a].id == i.layerRecords[b].id {
      SameIdTwice(i, trim, n1 + a, n1 + b);
    } else {
      var a, b :| 0 <= a < b < |i.notes| && i.notes[a].permalink == i.notes[b].permalink;
      SameIdTwice(i, trim, n1 + n2 + a, n1 + n2 + b);
    }
  }

  /** A record carries a real delete control exactly when its source is one the user owns, and its weight is in [0,1]. */
  lemma ProjectionIsWellFormed(i: ProjectionInput, trim: string -> string, k: nat)
    requires k < |Projection(i, trim)|
    ensures var r := Projection(i, trim)[k];
      (r.deleteControl.NotDeletable? <==> r.source !in {Session, BasicMemory}) && 0.0 <= r.salience <= 1.0
  {
    ActiveStepShape(i.steps);
    ActiveStepSource(i.steps);
  }

  lemma {:induction false} ActiveStepSource(steps: seq<PlanStep>)
    ensures forall r :: r in ActiveStep(steps) ==> r.source == FocusChain && r.deleteControl.NotDeletable?
  {
    if steps != [] { ActiveStepSource(steps[1..]); }
  }
}
