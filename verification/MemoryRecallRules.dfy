/** Which memories come back, said of the memories themselves: whose they are, what has replaced them, and in which order
    they are listed. */
module MemoryRecallRules {
  import opened Wrappers
  import opened Sorting
  import opened MemoryRetrieval
  import Sim = Similarity
  import Names = NamespaceDecision

  // ----- who may see a memory

  /** The session may see the memory: it is its own, or shared; or, across projects, it belongs to an allowed namespace. */
  predicate MaySee(sessionId: string, allProjects: bool, allowed: set<string>, m: Memory) {
    || m.sessionId == sessionId
    || m.shared
    || (allProjects && m.namespaceId.Some? && m.namespaceId.value != "" && m.namespaceId.value in allowed)
  }

  // ----- what replaces a memory

  /** A word that counts: neither a filler nor part of the memory's own namespace label. */
  predicate Counts(lx: Lexicon, m: Memory, w: string) {
    && w in lx.tokens(m.text) && w !in OVERLAP_STOP_WORDS
    && (m.namespaceLabel.Some? ==> w !in lx.tokens(m.namespaceLabel.value))
    && (m.namespaceLabel.None? ==> w !in lx.tokens(""))
  }

  ghost function Shared(lx: Lexicon, a: Memory, b: Memory): set<string> {
    set w | w in lx.tokens(a.text) && Counts(lx, a, w) && Counts(lx, b, w)
  }

  ghost function Either(lx: Lexicon, a: Memory, b: Memory): set<string> {
    set w | w in lx.tokens(a.text) + lx.tokens(b.text) && (Counts(lx, a, w) || Counts(lx, b, w))
  }

  /** The newer memory replaces the older one: it is younger, of the same namespace or session, and either links to it, or
      announces an update and shares at least two words that count and a fifth of all of them. */
  ghost predicate Replaces(lx: Lexicon, newer: Memory, older: Memory) {
    && older.createdAt < newer.createdAt && HomeOf(older) == HomeOf(newer)
    && (|| older.id in newer.supersedes
        || (lx.cue(newer.text) && |Shared(lx, newer, older)| >= 2
            && 5 * |Shared(lx, newer, older)| >= |Either(lx, newer, older)|))
  }

  lemma MeaningfulMeansCounts(lx: Lexicon, m: Memory, w: string)
    ensures w in MeaningfulTokens(lx, m.text, m.namespaceLabel) <==> Counts(lx, m, w)
  {
  }

  lemma UnionSize(a: set<string>, b: set<string>)
    ensures |a + b| == |a| + |b| - |a * b|
  {
  }

  lemma FifthOf(overlap: nat, union: nat)
    ensures overlap as real >= 0.2 * union as real <==> 5 * overlap >= union
  {
  }

  lemma OverlapMeansShared(lx: Lexicon, a: Memory, b: Memory)
    ensures Overlaps(lx, a, b) <==> |Shared(lx, a, b)| >= 2 && 5 * |Shared(lx, a, b)| >= |Either(lx, a, b)|
  {
    var x, y := MeaningfulTokens(lx, a.text, a.namespaceLabel), MeaningfulTokens(lx, b.text, b.namespaceLabel);
    forall w
      ensures w in x <==> Counts(lx, a, w)
      ensures w in y <==> Counts(lx, b, w)
    {
      MeaningfulMeansCounts(lx, a, w);
      MeaningfulMeansCounts(lx, b, w);
    }
    assert x * y == Shared(lx, a, b);
    assert x + y == Either(lx, a, b);
    UnionSize(x, y);
    if |x * y| >= 2 { NotEmpty(x * y, x + y); }
    FifthOf(|x * y|, |x| + |y| - |x * y|);
  }

  lemma NotEmpty(a: set<string>, b: set<string>)
    requires a <= b && |a| > 0
    ensures |b| > 0
  {
    assert b == a + (b - a);
  }

  /** A memory is superseded exactly when some memory of the list replaces it. */
  lemma SupersededIff(lx: Lexicon, memories: seq<Memory>, m: Memory)
    requires DistinctIds(memories) && m in memories
    ensures m.id in Superseded(lx, memories) <==> exists newer :: newer in memories && Replaces(lx, newer, m)
  {
    ByIdFacts(memories, m.id);
    SameId(memories, ById(memories, m.id).value, m);
    forall newer | newer in memories
      ensures m.id in Hits(lx, memories, newer) <==> Replaces(lx, newer, m)
    {
      SameNamespaceIsEquivalence(newer, m, m);
      OverlapMeansShared(lx, newer, m);
      InferredHit(lx, memories, newer, m);
    }
  }

  lemma InferredHit(lx: Lexicon, memories: seq<Memory>, newer: Memory, m: Memory)
    requires DistinctIds(memories) && m in memories && newer in memories
    ensures m.id in InferHits(lx, memories, newer) <==> Infers(lx, newer, m)
    ensures Older(newer, m) ==> m.id != newer.id
  {
    if m.id in InferHits(lx, memories, newer) {
      var x :| x in memories && Infers(lx, newer, x) && x.id == m.id;
      SameId(memories, x, m);
    }
    if m.id == newer.id { SameId(memories, m, newer); }
  }

  // ----- what is kept

  /** A memory passes the filter exactly when the session may see it and nothing that the session may see replaces it. */
  lemma PassesIff(lx: Lexicon, s: Scope, memories: seq<Memory>, m: Memory)
    requires DistinctIds(memories)
    ensures m in FilterForRecall(lx, s, memories) <==>
      && m in memories && MaySee(s.sessionId, s.allProjects, s.allowedNamespaceIds, m)
      && !exists newer :: newer in memories && MaySee(s.sessionId, s.allProjects, s.allowedNamespaceIds, newer) && Replaces(lx, newer, m)
  {
    var scoped := Scoped(s, memories);
    ScopedMembers(s, memories);
    WithoutMembers(scoped, Superseded(lx, scoped));
    if m in scoped { SupersededIff(lx, scoped, m); }
  }

  // ----- across projects

  /** The scope of a session that asks, with the namespaces that its question opens. */
  ghost predicate Asks(s: Scope, tokens: string -> seq<string>, text: string, refs: seq<Names.Ref>, default: Option<string>) {
    s.allowedNamespaceIds == set id | id in Names.Decide(tokens, text, refs, default).allowed
  }

  /** A private memory of another session comes back only across projects, and only when its namespace is one that the
      question names, or, when it names none, the active one. */
  lemma PrivateStaysPrivate(lx: Lexicon, s: Scope, memories: seq<Memory>, m: Memory,
                            tokens: string -> seq<string>, text: string, refs: seq<Names.Ref>, default: Option<string>)
    requires DistinctIds(memories) && Names.YieldsWords(tokens) && Asks(s, tokens, text, refs, default)
    requires m in FilterForRecall(lx, s, memories) && m.sessionId != s.sessionId && !m.shared
    ensures s.allProjects && m.namespaceId.Some?
    ensures if exists ns :: ns in refs && Names.Named(tokens, tokens(text), ns)
            then Names.NamesId(tokens, tokens(text), refs, m.namespaceId.value)
            else default == m.namespaceId
  {
    PassesIff(lx, s, memories, m);
    Names.OnlyNamedNamespacesAreAllowed(tokens, text, refs, default, m.namespaceId.value);
  }

  // ----- the list that comes back

  /** Vectors of one named model can be compared. */
  predicate SameModel(q: Query, m: Memory) {
    && q.embedding.Some? && m.item.embedding.Some?
    && q.modelId.Some? && q.modelId.value != "" && m.item.modelId == q.modelId
  }

  /** The score: by vectors of the same model, else by words, unless vectors are required. */
  lemma ScoreIs(q: Query, m: Memory)
    ensures Score(q, m) ==
      if SameModel(q, m) then Sim.Cosine(q.embedding.value, m.item.embedding.value, q.host.sqrt)
      else if q.requireEmbedding then 0.0
      else Sim.Jaccard(Sim.Words(q.host.lower(q.text)), Sim.Words(q.host.lower(m.text)))
  {
  }

  /** `a` is listed before `b`: it scores higher, or as high and is at least as new. */
  predicate ListedBefore(a: Recalled, b: Recalled) {
    a.score > b.score || (a.score == b.score && a.memory.createdAt >= b.memory.createdAt)
  }

  lemma SortedIsListed(r: seq<Recalled>)
    requires SortedBy(r, BestFirst())
    ensures forall i, j :: 0 <= i < j < |r| ==> ListedBefore(r[i], r[j])
  {
    forall i, j | 0 <= i < j < |r|
      ensures ListedBefore(r[i], r[j])
    {
      assert BestFirst()(r[i], r[j]);
    }
  }

  /** What comes back is listed by score and then by age, newest first. */
  lemma RecallIsListed(lx: Lexicon, s: Scope, q: Query, memories: seq<Memory>, limit: Option<int>)
    ensures var r := Recall(lx, s, q, memories, limit); forall i, j :: 0 <= i < j < |r| ==> ListedBefore(r[i], r[j])
  {
    RecallIsTheTop(lx, s, q, memories, limit);
    SortedIsListed(Recall(lx, s, q, memories, limit));
  }

  /** What is known of a list that comes back. */
  ghost predicate IsTop(q: Query, kept: seq<Memory>, r: seq<Recalled>) {
    && (forall x :: x in r ==> x.memory in kept && x.score == Score(q, x.memory) > 0.0)
    && (q.requireEmbedding ==> forall x :: x in r ==> SameModel(q, x.memory))
    && (forall x, m :: x in r && m in kept && Score(q, m) > 0.0 && Recalled(m, Score(q, m)) !in r ==>
          ListedBefore(x, Recalled(m, Score(q, m))))
  }

  /** What comes back passed the filter and scores above zero; what the limit leaves out would be listed after all of it;
      and where vectors are required only those of the query's own model count. */
  lemma LeftOutAreListedAfter(lx: Lexicon, s: Scope, q: Query, memories: seq<Memory>, limit: Option<int>)
    ensures IsTop(q, FilterForRecall(lx, s, memories), Recall(lx, s, q, memories, limit))
  {
    RecallIsTheTop(lx, s, q, memories, limit);
    TopMeans(q, FilterForRecall(lx, s, memories), Recall(lx, s, q, memories, limit));
  }

  lemma TopMeans(q: Query, kept: seq<Memory>, r: seq<Recalled>)
    requires forall x :: x in r ==> x.memory in kept && x.score == Score(q, x.memory) > 0.0
    requires q.requireEmbedding ==> forall x :: x in r ==> UsesVectors(q, x.memory)
    requires forall x, m :: x in r && m in kept && Score(q, m) > 0.0 && Recalled(m, Score(q, m)) !in r ==>
               BestFirst()(x, Recalled(m, Score(q, m)))
    ensures IsTop(q, kept, r)
  {
  }
}
