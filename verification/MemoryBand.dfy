/** The unified memory projection and its bounded, floor-constrained band (`src/chat/chat-memory-projection.ts`). */
module MemoryBand {
  import opened Wrappers
  import opened Sorting

  // ----- data model

  datatype Source = Session | Working | Episodic | Semantic | Procedural | BasicMemory | FocusChain

  /** The sources in the order `localeCompare` gives their names (`basic_memory` … `working`). */
  const SOURCE_ORDER: seq<Source> := [BasicMemory, Episodic, FocusChain, Procedural, Semantic, Session, Working]

  datatype DeleteControl = ChatMemory(memoryId: string) | BasicMemoryNote(permalink: string) | NotDeletable(reason: string)

  datatype Record = Record(source: Source, id: string, text: string, salience: real, provenance: string,
                           deleteControl: DeleteControl)

  /** `maxRecords` and `perSourceFloor`; a missing option falls back to 12 and 1. */
  datatype BandOptions = BandOptions(maxRecords: Option<real>, perSourceFloor: Option<real>)

  datatype SessionMemory = SessionMemory(id: string, text: string, score: real, shared: bool)
  datatype Layer = WorkingLayer | EpisodicLayer | SemanticLayer | ProceduralLayer
  datatype LayerRecord = LayerRecord(layer: Layer, id: string, text: string, salience: real, provenance: string)
  datatype Note = Note(permalink: string, title: string, excerpt: string, score: real, recallReason: Option<string>)
  datatype StepStatus = Pending | InProgress | Done
  datatype PlanStep = PlanStep(step: string, status: StepStatus)
  datatype ProjectionInput = ProjectionInput(sessionMemories: seq<SessionMemory>, layerRecords: seq<LayerRecord>,
                                             notes: seq<Note>, steps: seq<PlanStep>)

  const PROJECTION_REASON := "A view of a fact kept elsewhere."
  const PLAN_REASON := "A plan is edited, not forgotten."

  // ----- the projection

  function Clamp01(x: real): real { if x < 0.0 then 0.0 else if x > 1.0 then 1.0 else x }

  function FromSession(m: SessionMemory): Record {
    Record(Session, "session:" + m.id, m.text, Clamp01(m.score),
           if m.shared then "chat memory (shared across sessions)" else "chat memory (this session)", ChatMemory(m.id))
  }

  function LayerSource(l: Layer): Source {
    match l
    case WorkingLayer => Working
    case EpisodicLayer => Episodic
    case SemanticLayer => Semantic
    case ProceduralLayer => Procedural
  }

  function FromLayer(r: LayerRecord): Record {
    Record(LayerSource(r.layer), "layer:" + r.id, r.text, Clamp01(r.salience), r.provenance, NotDeletable(PROJECTION_REASON))
  }

  /** `trim` is the host's `String.prototype.trim`. */
  function FromNote(n: Note, trim: string -> string): Record {
    var why := if n.recallReason.Some? && n.recallReason.value != "" then " — " + n.recallReason.value else "";
    Record(BasicMemory, "basic:" + n.permalink, trim(n.title + ": " + n.excerpt), Clamp01(n.score),
           "Basic Memory note " + n.permalink + why, BasicMemoryNote(n.permalink))
  }

  function FromStep(s: PlanStep): Record {
    Record(FocusChain, "focus:active", "Current plan step: " + s.step, 1.0, "the session's live focus chain",
           NotDeletable(PLAN_REASON))
  }

  function ActiveStep(steps: seq<PlanStep>): seq<Record> {
    if steps == [] then []
    else if steps[0].status == InProgress then [FromStep(steps[0])]
    else ActiveStep(steps[1..])
  }

  /** Every source, flattened in the order it is read. */
  function Projection(i: ProjectionInput, trim: string -> string): seq<Record> {
    seq(|i.sessionMemories|, k requires 0 <= k < |i.sessionMemories| => FromSession(i.sessionMemories[k]))
    + seq(|i.layerRecords|, k requires 0 <= k < |i.layerRecords| => FromLayer(i.layerRecords[k]))
    + seq(|i.notes|, k requires 0 <= k < |i.notes| => FromNote(i.notes[k], trim))
    + ActiveStep(i.steps)
  }

  method ProjectUnifiedMemory(input: ProjectionInput, trim: string -> string) returns (records: seq<Record>)
    ensures records == Projection(input, trim)
  {
    records := [];
    for k := 0 to |input.sessionMemories|
      invariant records == seq(k, j requires 0 <= j < k => FromSession(input.sessionMemories[j]))
    {
      records := records + [FromSession(input.sessionMemories[k])];
    }
    ghost var first := records;
    for k := 0 to |input.layerRecords|
      invariant records == first + seq(k, j requires 0 <= j < k => FromLayer(input.layerRecords[j]))
    {
      records := records + [FromLayer(input.layerRecords[k])];
    }
    ghost var second := records;
    for k := 0 to |input.notes|
      invariant records == second + seq(k, j requires 0 <= j < k => FromNote(input.notes[j], trim))
    {
      records := records + [FromNote(input.notes[k], trim)];
    }
    var k := 0;
    while k < |input.steps| && input.steps[k].status != InProgress
      invariant k <= |input.steps|
      invariant ActiveStep(input.steps[k..]) == ActiveStep(input.steps)
    {
      k := k + 1;
    }
    if k < |input.steps| {
      records := records + [FromStep(input.steps[k])];
    }
  }

  // ----- the band, as a function

  function Trunc(x: real): int { if x >= 0.0 then x.Floor else -((-x).Floor) }
  function Max(a: int, b: int): int { if a < b then b else a }
  function Min(a: int, b: int): int { if a < b then a else b }

  function MaxRecords(o: BandOptions): (n: nat) { Max(1, Trunc(o.maxRecords.GetOr(12.0))) }
  function PerSourceFloor(o: BandOptions): (n: nat) { Max(0, Trunc(o.perSourceFloor.GetOr(1.0))) }

  /** The ranking order: salience descending, then id by the collation key of the host's `localeCompare`. */
  function ByRank(collate: string -> real): (Record, Record) -> bool {
    (a: Record, b: Record) => a.salience > b.salience || (a.salience == b.salience && collate(a.id) <= collate(b.id))
  }

  function Ranking(records: seq<Record>, collate: string -> real): seq<Record> { Sort(records, ByRank(collate)) }

  function Bucket(ranking: seq<Record>, s: Source): seq<Record> {
    if ranking == [] then []
    else if ranking[0].source == s then [ranking[0]] + Bucket(ranking[1..], s)
    else Bucket(ranking[1..], s)
  }

  function Take<T>(s: seq<T>, n: nat): seq<T> { if |s| <= n then s else s[..n] }

  /** The floor picks of all listed sources, best first inside each source. */
  function FloorPicks(ranking: seq<Record>, sources: seq<Source>, floor: nat): seq<Record> {
    if sources == [] then []
    else Take(Bucket(ranking, sources[0]), floor) + FloorPicks(ranking, sources[1..], floor)
  }

  function Ids(records: seq<Record>): set<string> { set r | r in records :: r.id }

  /** The global fill: walk the ranking and keep every record whose id is not chosen yet, up to `max`. */
  function Fill(ranking: seq<Record>, chosen: seq<Record>, max: nat): seq<Record> {
    if ranking == [] || |chosen| >= max then chosen
    else if ranking[0].id in Ids(chosen) then Fill(ranking[1..], chosen, max)
    else Fill(ranking[1..], chosen + [ranking[0]], max)
  }

  function Chosen(ranking: seq<Record>, max: nat, floor: nat): seq<Record> {
    Fill(ranking, Take(FloorPicks(ranking, SOURCE_ORDER, floor), max), max)
  }

  function Band(records: seq<Record>, collate: string -> real, max: nat, floor: nat): seq<Record> {
    Sort(Chosen(Ranking(records, collate), max, floor), ByRank(collate))
  }

  // ----- the imperative selection

  method SelectMemoryBand(records: seq<Record>, collate: string -> real, options: BandOptions) returns (band: seq<Record>)
    ensures band == Band(records, collate, MaxRecords(options), PerSourceFloor(options))
  {
    var max, floor := MaxRecords(options), PerSourceFloor(options);
    var sorted := Sort(records, ByRank(collate));
    var chosen: seq<Record> := [];
    if floor > 0 {
      chosen := PickFloors(sorted, SOURCE_ORDER, max, floor);
    } else {
      NoFloorPicks(sorted, SOURCE_ORDER);
    }
    chosen := FillByRank(sorted, chosen, max);
    band := Sort(chosen, ByRank(collate));
  }

  /** The first pass: every source's best records, in source order, while there is room. */
  method PickFloors(sorted: seq<Record>, sources: seq<Source>, max: nat, floor: nat) returns (chosen: seq<Record>)
    ensures chosen == Take(FloorPicks(sorted, sources, floor), max)
  {
    chosen := [];
    var bySource := GroupBySource(sorted);
    for i := 0 to |sources|
      invariant chosen == Take(FloorPicks(sorted, sources[..i], floor), max)
    {
      var s := sources[i];
      var bucket := if s in bySource then bySource[s] else [];
      FloorPicksAppend(sorted, sources[..i], s, floor);
      assert sources[..i + 1] == sources[..i] + [s];
      chosen := PushWhileRoom(chosen, Take(bucket, floor), max, FloorPicks(sorted, sources[..i], floor));
    }
    assert sources[..|sources|] == sources;
  }

  method PushWhileRoom(chosen: seq<Record>, picks: seq<Record>, max: nat, ghost pushed: seq<Record>)
    returns (r: seq<Record>)
    requires chosen == Take(pushed, max)
    ensures r == Take(pushed + picks, max)
  {
    r := chosen;
    var j := 0;
    while j < |picks| && |r| < max
      invariant j <= |picks|
      invariant r == Take(pushed + picks[..j], max)
    {
      r := r + [picks[j]];
      assert pushed + picks[..j + 1] == pushed + picks[..j] + [picks[j]];
      j := j + 1;
    }
  }

  /** The second pass: the remaining room goes to the best records whose id is not chosen yet. */
  method FillByRank(sorted: seq<Record>, floored: seq<Record>, max: nat) returns (chosen: seq<Record>)
    ensures chosen == Fill(sorted, floored, max)
  {
    chosen := floored;
    var chosenIds := Ids(chosen);
    var i := 0;
    while i < |sorted| && |chosen| < max
      invariant i <= |sorted|
      invariant chosenIds == Ids(chosen)
      invariant Fill(sorted[i..], chosen, max) == Fill(sorted, floored, max)
    {
      if sorted[i].id !in chosenIds {
        chosen := chosen + [sorted[i]];
        chosenIds := chosenIds + {sorted[i].id};
      }
      i := i + 1;
    }
  }

  /** The `bySource` map: each source with candidates and its records in ranking order. */
  method GroupBySource(ranking: seq<Record>) returns (m: map<Source, seq<Record>>)
    ensures forall s :: (s in m <==> Bucket(ranking, s) != []) && (s in m ==> m[s] == Bucket(ranking, s))
  {
    m := map[];
    for i := 0 to |ranking|
      invariant forall s :: (s in m <==> Bucket(ranking[..i], s) != []) && (s in m ==> m[s] == Bucket(ranking[..i], s))
    {
      var r := ranking[i];
      var bucket := if r.source in m then m[r.source] else [];
      m := m[r.source := bucket + [r]];
      forall s
        ensures Bucket(ranking[..i + 1], s) == Bucket(ranking[..i], s) + (if r.source == s then [r] else [])
      {
        assert ranking[..i + 1] == ranking[..i] + [r];
        BucketAppend(ranking[..i], [r], s);
      }
    }
    assert ranking[..|ranking|] == ranking;
  }

  lemma {:induction false} BucketAppend(a: seq<Record>, b: seq<Record>, s: Source)
    ensures Bucket(a + b, s) == Bucket(a, s) + Bucket(b, s)
  {
    if a == [] {
      assert a + b == b;
    } else {
      assert (a + b)[1..] == a[1..] + b;
      BucketAppend(a[1..], b, s);
    }
  }

  lemma {:induction false} FloorPicksAppend(ranking: seq<Record>, sources: seq<Source>, s: Source, floor: nat)
    ensures FloorPicks(ranking, sources + [s], floor) == FloorPicks(ranking, sources, floor) + Take(Bucket(ranking, s), floor)
  {
    if sources == [] {
      assert sources + [s] == [s];
      assert [s][1..] == [];
    } else {
      assert (sources + [s])[1..] == sources[1..] + [s];
      FloorPicksAppend(ranking, sources[1..], s, floor);
    }
  }

  lemma {:induction false} NoFloorPicks(ranking: seq<Record>, sources: seq<Source>)
    ensures FloorPicks(ranking, sources, 0) == []
  {
    if sources != [] { NoFloorPicks(ranking, sources[1..]); }
  }
}
