/** Which memories a session may recall (`src/chat/chat-memory-retrieval-policy.ts`): namespace scoping, supersession by
    newer memories, and the ranking of what is left (`recallChatMemories` in `src/chat/chat-memory-store.ts`). */
module MemoryRetrieval {
  import opened Wrappers
  import opened Sorting
  import Sim = Similarity

  datatype Memory = Memory(id: string, sessionId: string, text: string, shared: bool, createdAt: int,
                           namespaceId: Option<string>, namespaceLabel: Option<string>, supersedes: seq<string>,
                           item: Sim.Item)

  /** `tokens` splits a text into lower-case words, `cue` says whether it announces an update. */
  datatype Lexicon = Lexicon(tokens: string -> seq<string>, cue: string -> bool)

  const OVERLAP_STOP_WORDS: set<string> :=
    {"project", "workspace", "repository", "repo", "a", "an", "and", "are", "for", "from", "is", "of", "the", "to",
     "use", "uses", "using"}

  // ----- namespaces

  predicate Truthy(s: Option<string>) { s.Some? && s.value != "" }

  predicate SameNamespace(a: Memory, b: Memory) {
    if Truthy(a.namespaceId) || Truthy(b.namespaceId) then
      Truthy(a.namespaceId) && Truthy(b.namespaceId) && a.namespaceId == b.namespaceId
    else a.sessionId == b.sessionId
  }

  /** A memory belongs to its namespace or, without one, to its session. */
  datatype Home = Namespace(id: string) | OwnSession(id: string)

  function HomeOf(m: Memory): Home {
    if Truthy(m.namespaceId) then Namespace(m.namespaceId.value) else OwnSession(m.sessionId)
  }

  /** `SameNamespace` is having the same home, hence an equivalence. */
  lemma SameNamespaceIsEquivalence(a: Memory, b: Memory, c: Memory)
    ensures SameNamespace(a, b) <==> HomeOf(a) == HomeOf(b)
    ensures SameNamespace(a, a)
    ensures SameNamespace(a, b) ==> SameNamespace(b, a)
    ensures SameNamespace(a, b) && SameNamespace(b, c) ==> SameNamespace(a, c)
  {
  }

  // ----- supersession

  function SetOf(s: seq<string>): set<string> { set x | x in s }

  function MeaningfulTokens(lx: Lexicon, text: string, spaceLabel: Option<string>): set<string> {
    SetOf(lx.tokens(text)) - OVERLAP_STOP_WORDS - SetOf(lx.tokens(spaceLabel.GetOr("")))
  }

  predicate Overlaps(lx: Lexicon, newer: Memory, older: Memory) {
    var a := MeaningfulTokens(lx, newer.text, newer.namespaceLabel);
    var b := MeaningfulTokens(lx, older.text, older.namespaceLabel);
    var overlap := |a * b|;
    var union := |a| + |b| - overlap;
    overlap >= 2 && union > 0 && overlap as real >= 0.2 * union as real
  }

  predicate Older(newer: Memory, older: Memory) { older.createdAt < newer.createdAt && SameNamespace(newer, older) }

  predicate Infers(lx: Lexicon, newer: Memory, older: Memory) {
    lx.cue(newer.text) && older.id != newer.id && Older(newer, older) && Overlaps(lx, newer, older)
  }

  /** The memory that the id map holds: the last one with the id. */
  function ById(memories: seq<Memory>, id: string): Option<Memory> {
    if memories == [] then None
    else if memories[|memories| - 1].id == id then Some(memories[|memories| - 1])
    else ById(memories[..|memories| - 1], id)
  }

  predicate Links(memories: seq<Memory>, newer: Memory, id: string) {
    id in newer.supersedes && ById(memories, id).Some? && Older(newer, ById(memories, id).value)
  }

  function LinkHits(memories: seq<Memory>, newer: Memory): set<string> {
    set id | id in newer.supersedes && Links(memories, newer, id)
  }

  function InferHits(lx: Lexicon, memories: seq<Memory>, newer: Memory): set<string> {
    set m | m in memories && Infers(lx, newer, m) :: m.id
  }

  function Hits(lx: Lexicon, memories: seq<Memory>, newer: Memory): set<string> {
    LinkHits(memories, newer) + InferHits(lx, memories, newer)
  }

  function HitsOfAll(lx: Lexicon, memories: seq<Memory>, newers: seq<Memory>): set<string> {
    set m, id | m in newers && id in Hits(lx, memories, m) :: id
  }

  function Superseded(lx: Lexicon, memories: seq<Memory>): set<string> { HitsOfAll(lx, memories, memories) }

  lemma HitsOfOneMore(lx: Lexicon, memories: seq<Memory>, newers: seq<Memory>, newer: Memory)
    ensures HitsOfAll(lx, memories, newers + [newer]) == HitsOfAll(lx, memories, newers) + Hits(lx, memories, newer)
  {
  }

  method MapById(memories: seq<Memory>) returns (byId: map<string, Memory>)
    ensures forall id :: match ById(memories, id) case None => id !in byId case Some(m) => id in byId && byId[id] == m
  {
    byId := map[];
    for i := 0 to |memories|
      invariant forall id :: match ById(memories[..i], id) case None => id !in byId case Some(m) => id in byId && byId[id] == m
    {
      ghost var next := memories[..i + 1];
      assert next[..|next| - 1] == memories[..i];
      byId := byId[memories[i].id := memories[i]];
    }
    assert memories[..|memories|] == memories;
  }

  method FindLinkHits(memories: seq<Memory>, byId: map<string, Memory>, newer: Memory) returns (hits: set<string>)
    requires forall id :: match ById(memories, id) case None => id !in byId case Some(m) => id in byId && byId[id] == m
    ensures hits == LinkHits(memories, newer)
  {
    hits := {};
    for k := 0 to |newer.supersedes|
      invariant hits == set id | id in newer.supersedes[..k] && Links(memories, newer, id)
    {
      var id := newer.supersedes[k];
      assert newer.supersedes[..k + 1] == newer.supersedes[..k] + [id];
      assert match ById(memories, id) case None => id !in byId case Some(m) => id in byId && byId[id] == m;
      if id in byId && Older(newer, byId[id]) {
        hits := hits + {id};
      }
    }
    assert newer.supersedes[..|newer.supersedes|] == newer.supersedes;
  }

  method FindInferHits(lx: Lexicon, memories: seq<Memory>, newer: Memory) returns (hits: set<string>)
    ensures hits == InferHits(lx, memories, newer)
  {
    hits := {};
    if !lx.cue(newer.text) { return; }
    for k := 0 to |memories|
      invariant hits == set m | m in memories[..k] && Infers(lx, newer, m) :: m.id
    {
      var older := memories[k];
      assert memories[..k + 1] == memories[..k] + [older];
      if older.id != newer.id && Older(newer, older) && Overlaps(lx, newer, older) {
        hits := hits + {older.id};
      }
    }
    assert memories[..|memories|] == memories;
  }

  method InferSupersededMemoryIds(lx: Lexicon, memories: seq<Memory>) returns (superseded: set<string>)
    ensures superseded == Superseded(lx, memories)
  {
    superseded := {};
    var byId := MapById(memories);
    for i := 0 to |memories|
      invariant superseded == HitsOfAll(lx, memories, memories[..i])
    {
      var newer := memories[i];
      assert memories[..i + 1] == memories[..i] + [newer];
      HitsOfOneMore(lx, memories, memories[..i], newer);
      var links := FindLinkHits(memories, byId, newer);
      var infers := FindInferHits(lx, memories, newer);
      superseded := superseded + links + infers;
    }
    assert memories[..|memories|] == memories;
  }

  // ----- scoping

  datatype Scope = Scope(sessionId: string, allProjects: bool, allowedNamespaceIds: set<string>)

  predicate InScope(s: Scope, m: Memory) {
    m.sessionId == s.sessionId || m.shared
    || (s.allProjects && Truthy(m.namespaceId) && m.namespaceId.value in s.allowedNamespaceIds)
  }

  function Scoped(s: Scope, memories: seq<Memory>): seq<Memory> {
    if memories == [] then []
    else (if InScope(s, memories[0]) then [memories[0]] else []) + Scoped(s, memories[1..])
  }

  function Without(memories: seq<Memory>, ids: set<string>): seq<Memory> {
    if memories == [] then []
    else (if memories[0].id in ids then [] else [memories[0]]) + Without(memories[1..], ids)
  }

  function FilterForRecall(lx: Lexicon, s: Scope, memories: seq<Memory>): seq<Memory> {
    var scoped := Scoped(s, memories);
    Without(scoped, Superseded(lx, scoped))
  }

  // ----- facts

  ghost predicate DistinctIds(memories: seq<Memory>) {
    forall i, j :: 0 <= i < j < |memories| ==> memories[i].id != memories[j].id
  }

  lemma {:induction false} ByIdFacts(memories: seq<Memory>, id: string)
    ensures match ById(memories, id)
      case None => forall m :: m in memories ==> m.id != id
      case Some(m) => m in memories && m.id == id
  {
    if memories != [] {
      ByIdFacts(memories[..|memories| - 1], id);
      assert memories == memories[..|memories| - 1] + [memories[|memories| - 1]];
    }
  }

  lemma SameId(memories: seq<Memory>, a: Memory, b: Memory)
    requires DistinctIds(memories) && a in memories && b in memories && a.id == b.id
    ensures a == b
  {
  }

  /** A memory `newer` in the list withholds `older`. */
  ghost predicate Withholds(lx: Lexicon, memories: seq<Memory>, newer: Memory, older: Memory) {
    newer in memories && (older.id in LinkHits(memories, newer) || older.id in InferHits(lx, memories, newer))
  }

  /** Withholding only ever goes from a strictly newer memory to an older one of the same home: it has no cycles. */
  lemma WithholdingIsNewer(lx: Lexicon, memories: seq<Memory>, newer: Memory, older: Memory)
    requires DistinctIds(memories) && older in memories && Withholds(lx, memories, newer, older)
    ensures older.createdAt < newer.createdAt && HomeOf(older) == HomeOf(newer)
  {
    ByIdFacts(memories, older.id);
    SameNamespaceIsEquivalence(newer, older, older);
    if older.id in LinkHits(memories, newer) {
      SameId(memories, ById(memories, older.id).value, older);
    } else {
      var m :| m in memories && Infers(lx, newer, m) && m.id == older.id;
      SameId(memories, m, older);
    }
  }

  ghost function NewerThan(memories: seq<Memory>, m: Memory): set<Memory> {
    set x | x in memories && x.createdAt > m.createdAt
  }

  lemma SupersededHasWithholder(lx: Lexicon, memories: seq<Memory>, m: Memory)
    requires m in memories && m.id in Superseded(lx, memories)
    ensures exists newer :: Withholds(lx, memories, newer, m)
  {
    var newer :| newer in memories && m.id in Hits(lx, memories, newer);
    assert Withholds(lx, memories, newer, m);
  }

  /** Lossless at the top: every withheld memory has a strictly newer one of its home that survives. */
  lemma {:induction false} WithheldHasSurvivor(lx: Lexicon, memories: seq<Memory>, m: Memory) returns (survivor: Memory)
    requires DistinctIds(memories) && m in memories && m.id in Superseded(lx, memories)
    ensures survivor in memories && survivor.id !in Superseded(lx, memories)
    ensures survivor.createdAt > m.createdAt && HomeOf(survivor) == HomeOf(m)
    decreases |NewerThan(memories, m)|
  {
    SupersededHasWithholder(lx, memories, m);
    var newer :| Withholds(lx, memories, newer, m);
    WithholdingIsNewer(lx, memories, newer, m);
    if newer.id in Superseded(lx, memories) {
      assert NewerThan(memories, newer) <= NewerThan(memories, m) - {newer};
      assert newer in NewerThan(memories, m);
      SmallerSet(NewerThan(memories, newer), NewerThan(memories, m), newer);
      survivor := WithheldHasSurvivor(lx, memories, newer);
    } else {
      survivor := newer;
    }
  }

  lemma SmallerSet(a: set<Memory>, b: set<Memory>, x: Memory)
    requires a <= b - {x} && x in b
    ensures |a| < |b|
  {
    assert b == a + (b - {x} - a) + {x};
    assert |b| == |a + (b - {x} - a)| + 1;
    assert |a + (b - {x} - a)| == |a| + |b - {x} - a|;
  }

  lemma {:induction false} WithoutMembers(memories: seq<Memory>, ids: set<string>)
    ensures forall m :: m in Without(memories, ids) <==> m in memories && m.id !in ids
  {
    if memories != [] { WithoutMembers(memories[1..], ids); }
  }

  lemma {:induction false} ScopedMembers(s: Scope, memories: seq<Memory>)
    ensures forall m :: m in Scoped(s, memories) <==> m in memories && InScope(s, m)
    ensures DistinctIds(memories) ==> DistinctIds(Scoped(s, memories))
  {
    if memories != [] {
      ScopedMembers(s, memories[1..]);
      if DistinctIds(memories) {
        assert forall m :: m in memories[1..] ==> m.id != memories[0].id;
      }
    }
  }

  /** Recall is scoped, and a scope with memories never filters to nothing. */
  lemma RecallKeepsSomething(lx: Lexicon, s: Scope, memories: seq<Memory>, m: Memory)
    requires DistinctIds(memories) && m in memories && InScope(s, m)
    ensures forall x :: x in FilterForRecall(lx, s, memories) ==> x in memories && InScope(s, x)
    ensures exists x :: x in FilterForRecall(lx, s, memories) && HomeOf(x) == HomeOf(m) && x.createdAt >= m.createdAt
  {
    var scoped := Scoped(s, memories);
    ScopedMembers(s, memories);
    WithoutMembers(scoped, Superseded(lx, scoped));
    if m.id in Superseded(lx, scoped) {
      var x := WithheldHasSurvivor(lx, scoped, m);
      assert x in FilterForRecall(lx, s, memories);
    } else {
      assert m in FilterForRecall(lx, s, memories);
    }
  }

  lemma SameByIds(a: seq<Memory>, b: seq<Memory>, id: string)
    requires DistinctIds(a) && DistinctIds(b) && forall m :: m in a <==> m in b
    ensures ById(a, id) == ById(b, id)
  {
    ByIdFacts(a, id);
    ByIdFacts(b, id);
    if ById(a, id).Some? && ById(b, id).Some? {
      SameId(a, ById(a, id).value, ById(b, id).value);
    }
  }

  /** The surviving set does not depend on the order of the list. */
  lemma SurvivorsIgnoreOrder(lx: Lexicon, s: Scope, a: seq<Memory>, b: seq<Memory>)
    requires DistinctIds(a) && DistinctIds(b) && forall m :: m in a <==> m in b
    ensures forall m :: m in FilterForRecall(lx, s, a) <==> m in FilterForRecall(lx, s, b)
  {
    var sa, sb := Scoped(s, a), Scoped(s, b);
    ScopedMembers(s, a);
    ScopedMembers(s, b);
    SupersededIgnoresOrder(lx, sa, sb);
    WithoutMembers(sa, Superseded(lx, sa));
    WithoutMembers(sb, Superseded(lx, sb));
  }

  lemma HitsIgnoreOrder(lx: Lexicon, a: seq<Memory>, b: seq<Memory>, m: Memory)
    requires DistinctIds(a) && DistinctIds(b) && forall m :: m in a <==> m in b
    ensures Hits(lx, a, m) == Hits(lx, b, m)
  {
    forall id | id in m.supersedes
      ensures Links(a, m, id) <==> Links(b, m, id)
    {
      SameByIds(a, b, id);
    }
    assert LinkHits(a, m) == LinkHits(b, m);
    assert InferHits(lx, a, m) == InferHits(lx, b, m);
  }

  lemma HitsGoUp(lx: Lexicon, a: seq<Memory>, b: seq<Memory>)
    requires forall m :: m in a ==> m in b && Hits(lx, a, m) == Hits(lx, b, m)
    ensures Superseded(lx, a) <= Superseded(lx, b)
  {
    forall id | id in Superseded(lx, a)
      ensures id in Superseded(lx, b)
    {
      var m :| m in a && id in Hits(lx, a, m);
      assert m in b && id in Hits(lx, b, m);
    }
  }

  lemma SupersededIgnoresOrder(lx: Lexicon, a: seq<Memory>, b: seq<Memory>)
    requires DistinctIds(a) && DistinctIds(b) && forall m :: m in a <==> m in b
    ensures Superseded(lx, a) == Superseded(lx, b)
  {
    forall m | m in a || m in b
      ensures Hits(lx, a, m) == Hits(lx, b, m)
    {
      HitsIgnoreOrder(lx, a, b, m);
    }
    HitsGoUp(lx, a, b);
    HitsGoUp(lx, b, a);
  }

  // ----- ranking

  datatype Recalled = Recalled(memory: Memory, score: real)

  /** How a recall compares: the query, its vector, the model of the vector, and whether only vectors count. */
  datatype Query = Query(text: string, embedding: Option<seq<real>>, modelId: Option<string>, requireEmbedding: bool, host: Sim.Host)

  predicate UsesVectors(q: Query, m: Memory) {
    q.embedding.Some? && m.item.embedding.Some? && Truthy(q.modelId) && m.item.modelId == q.modelId
  }

  function Score(q: Query, m: Memory): real {
    if UsesVectors(q, m) then Sim.Cosine(q.embedding.value, m.item.embedding.value, q.host.sqrt)
    else if q.requireEmbedding then 0.0
    else Sim.Jaccard(Sim.Words(q.host.lower(q.text)), Sim.Words(q.host.lower(m.text)))
  }

  function Relevant(q: Query, memories: seq<Memory>): seq<Recalled> {
    if memories == [] then []
    else (if Score(q, memories[0]) > 0.0 then [Recalled(memories[0], Score(q, memories[0]))] else []) + Relevant(q, memories[1..])
  }

  function BestFirst(): (Recalled, Recalled) -> bool {
    (a: Recalled, b: Recalled) => a.score > b.score || (a.score == b.score && a.memory.createdAt >= b.memory.createdAt)
  }

  function Limited(ranked: seq<Recalled>, limit: Option<int>): seq<Recalled> {
    if limit.None? || limit.value >= |ranked| then ranked else ranked[..if limit.value < 0 then 0 else limit.value]
  }

  /** Vectors are required and the query has none: nothing is recalled. */
  predicate FailsClosed(q: Query) { q.requireEmbedding && (q.embedding.None? || !Truthy(q.modelId)) }

  function Recall(lx: Lexicon, s: Scope, q: Query, memories: seq<Memory>, limit: Option<int>): seq<Recalled> {
    if FailsClosed(q) then []
    else Limited(Sort(Relevant(q, FilterForRecall(lx, s, memories)), BestFirst()), limit)
  }

  lemma {:induction false} RelevantMembers(q: Query, memories: seq<Memory>)
    ensures forall r :: r in Relevant(q, memories) <==> r.memory in memories && r.score == Score(q, r.memory) && r.score > 0.0
  {
    if memories != [] {
      RelevantMembers(q, memories[1..]);
      assert memories == [memories[0]] + memories[1..];
    }
  }

  /** How many of `n` a limit admits. */
  function Admitted(n: nat, limit: Option<int>): nat {
    if limit.None? || limit.value >= n then n else if limit.value < 0 then 0 else limit.value
  }

  /** What is recalled is relevant, best first, and no worse than any relevant survivor left out; as many are recalled as
      the limit admits of the relevant survivors, and when vectors are required nothing is ever recalled by its words. */
  lemma RecallIsTheTop(lx: Lexicon, s: Scope, q: Query, memories: seq<Memory>, limit: Option<int>)
    ensures var r, kept := Recall(lx, s, q, memories, limit), FilterForRecall(lx, s, memories);
      && SortedBy(r, BestFirst())
      && (forall x :: x in r ==> x.memory in kept && x.score == Score(q, x.memory) > 0.0)
      && (q.requireEmbedding ==> forall x :: x in r ==> UsesVectors(q, x.memory))
      && |r| == (if FailsClosed(q) then 0 else Admitted(|Relevant(q, kept)|, limit))
      && (forall x, m :: x in r && m in kept && Score(q, m) > 0.0 && Recalled(m, Score(q, m)) !in r ==>
            BestFirst()(x, Recalled(m, Score(q, m))))
  {
    var kept := FilterForRecall(lx, s, memories);
    var relevant := Relevant(q, kept);
    var ranked := Sort(relevant, BestFirst());
    RelevantMembers(q, kept);
    SortSorts(relevant, BestFirst());
    SortKeepsElements(relevant, BestFirst());
    forall x
      ensures x in ranked <==> x in relevant
    {
      assert x in multiset(ranked) <==> x in multiset(relevant);
    }
    var r := Recall(lx, s, q, memories, limit);
    if r != [] {
      assert r <= ranked;
      TopOfSorted(ranked, r);
    }
  }

  lemma TopOfSorted(ranked: seq<Recalled>, r: seq<Recalled>)
    requires SortedBy(ranked, BestFirst()) && r <= ranked
    ensures SortedBy(r, BestFirst())
    ensures forall x, y :: x in r && y in ranked && y !in r ==> BestFirst()(x, y)
  {
    forall x, y | x in r && y in ranked && y !in r
      ensures BestFirst()(x, y)
    {
      var i :| 0 <= i < |r| && r[i] == x;
      var j :| 0 <= j < |ranked| && ranked[j] == y;
      assert j >= |r|;
      assert BestFirst()(ranked[i], ranked[j]);
    }
  }
}
