/** Consolidating short-term summaries into long-term memories (`proposeConsolidatedMemories` in
    `src/chat/chat-memory-store.ts`): keep what no accessible memory and no earlier candidate nearly duplicates. */
module Consolidation {
  import opened Wrappers
  import opened Text
  import opened Similarity

  datatype Memory = Memory(sessionId: string, shared: bool, item: Item)

  /** What a session may recall: its own memories and the shared ones, or all of them. */
  function Accessible(memories: seq<Memory>, sessionId: string, allProjects: bool): seq<Memory> {
    if memories == [] then []
    else (if allProjects || memories[0].shared || memories[0].sessionId == sessionId then [memories[0]] else [])
         + Accessible(memories[1..], sessionId, allProjects)
  }

  function Items(memories: seq<Memory>): (r: seq<Item>)
    ensures |r| == |memories| && forall i :: 0 <= i < |r| ==> r[i] == memories[i].item
  {
    if memories == [] then [] else [memories[0].item] + Items(memories[1..])
  }

  /** `extract` proposes texts for a summary; `embed`, when present, vectors for texts. */
  datatype Deps = Deps(extract: string -> seq<string>, embed: Option<string -> Option<seq<real>>>,
                       embeddingModelId: Option<string>, threshold: Option<real>, host: Host)

  function Threshold(d: Deps): real { d.threshold.GetOr(0.85) }

  function Texts(raw: seq<string>): seq<string> {
    if raw == [] then []
    else Texts(raw[..|raw| - 1]) + if Trim(raw[|raw| - 1]) != "" then [Trim(raw[|raw| - 1])] else []
  }

  function Candidate(d: Deps, text: string): Item {
    var embedding := if d.embed.Some? then d.embed.value(text) else None;
    Item(text, embedding, if embedding.Some? then d.embeddingModelId else None)
  }

  function Candidates(d: Deps, texts: seq<string>): (r: seq<Item>)
    ensures |r| == |texts| && forall i :: 0 <= i < |r| ==> r[i] == Candidate(d, texts[i])
  {
    seq(|texts|, i requires 0 <= i < |texts| => Candidate(d, texts[i]))
  }

  /** Some of the others is at least as similar as the threshold. */
  predicate Duplicates(h: Host, threshold: real, c: Item, others: seq<Item>) {
    exists i | 0 <= i < |others| :: MemorySimilarity(h, c, others[i]) >= threshold
  }

  /** The greedy selection. */
  function Kept(h: Host, threshold: real, existing: seq<Item>, candidates: seq<Item>): seq<Item> {
    if candidates == [] then []
    else
      var before, c := Kept(h, threshold, existing, candidates[..|candidates| - 1]), candidates[|candidates| - 1];
      if Duplicates(h, threshold, c, existing + before) then before else before + [c]
  }

  function Proposed(d: Deps, sessionId: string, summary: string, memories: seq<Memory>): seq<Item> {
    Kept(d.host, Threshold(d), Items(Accessible(memories, sessionId, false)), Candidates(d, Texts(d.extract(summary))))
  }

  method ProposeConsolidatedMemories(d: Deps, sessionId: string, summary: string, memories: seq<Memory>)
    returns (kept: seq<Item>)
    ensures kept == Proposed(d, sessionId, summary, memories)
  {
    var threshold := Threshold(d);
    var existing := Items(Accessible(memories, sessionId, false));
    var texts := Texts(d.extract(summary));
    kept := [];
    for i := 0 to |texts|
      invariant kept == Kept(d.host, threshold, existing, Candidates(d, texts)[..i])
    {
      ghost var next := Candidates(d, texts)[..i + 1];
      assert next[..|next| - 1] == Candidates(d, texts)[..i];
      var candidate := Candidate(d, texts[i]);
      if !Duplicates(d.host, threshold, candidate, existing + kept) {
        kept := kept + [candidate];
      }
    }
    assert Candidates(d, texts)[..|texts|] == Candidates(d, texts);
  }

  /** Each kept memory is appended to the store as the session's own. */
  function Persisted(memories: seq<Memory>, sessionId: string, kept: seq<Item>): seq<Memory> {
    memories + seq(|kept|, i requires 0 <= i < |kept| => Memory(sessionId, false, kept[i]))
  }

  // ----- what is kept

  ghost predicate Below(h: Host, threshold: real, a: seq<Item>, b: seq<Item>) {
    forall i, j :: 0 <= i < |a| && 0 <= j < |b| ==> MemorySimilarity(h, a[i], b[j]) < threshold
  }

  ghost predicate PairwiseBelow(h: Host, threshold: real, s: seq<Item>) {
    forall i, j :: 0 <= i < |s| && 0 <= j < |s| && i != j ==> MemorySimilarity(h, s[i], s[j]) < threshold
  }

  /** Kept memories are below the threshold against each other, in both directions, and against every accessible one. */
  lemma {:induction false} KeptAreDistinct(h: Host, threshold: real, existing: seq<Item>, candidates: seq<Item>)
    requires IsSqrt(h.sqrt)
    ensures PairwiseBelow(h, threshold, Kept(h, threshold, existing, candidates))
    ensures Below(h, threshold, Kept(h, threshold, existing, candidates), existing)
  {
    if candidates != [] {
      var before, c := Kept(h, threshold, existing, candidates[..|candidates| - 1]), candidates[|candidates| - 1];
      KeptAreDistinct(h, threshold, existing, candidates[..|candidates| - 1]);
      var others := existing + before;
      if !Duplicates(h, threshold, c, others) {
        forall k | 0 <= k < |others|
          ensures MemorySimilarity(h, c, others[k]) < threshold && MemorySimilarity(h, others[k], c) < threshold
        {
          SimilarityFacts(h, c, others[k]);
        }
        assert forall k :: 0 <= k < |before| ==> others[|existing| + k] == before[k];
        assert forall k :: 0 <= k < |existing| ==> others[k] == existing[k];
      }
    }
  }

  lemma {:induction false} KeptPrefix(h: Host, threshold: real, existing: seq<Item>, candidates: seq<Item>, k: nat)
    requires k <= |candidates|
    ensures Kept(h, threshold, existing, candidates[..k]) <= Kept(h, threshold, existing, candidates)
    decreases |candidates| - k
  {
    if k == |candidates| {
      assert candidates[..k] == candidates;
    } else {
      KeptPrefix(h, threshold, existing, candidates, k + 1);
      var next := candidates[..k + 1];
      assert next[..|next| - 1] == candidates[..k];
    }
  }

  /** Nothing is dropped without a reason: a candidate is kept exactly when neither an accessible memory nor an earlier
      kept candidate reaches the threshold. */
  lemma DroppedHasWitness(h: Host, threshold: real, existing: seq<Item>, candidates: seq<Item>, k: nat)
    requires k < |candidates|
    ensures var all, before := Kept(h, threshold, existing, candidates), Kept(h, threshold, existing, candidates[..k]);
      before <= all
      && if exists o :: o in existing + before && MemorySimilarity(h, candidates[k], o) >= threshold
         then Kept(h, threshold, existing, candidates[..k + 1]) == before
         else before + [candidates[k]] <= all
  {
    var next := candidates[..k + 1];
    assert next[..|next| - 1] == candidates[..k] && next[|next| - 1] == candidates[k];
    KeptPrefix(h, threshold, existing, candidates, k);
    KeptPrefix(h, threshold, existing, candidates, k + 1);
  }

  // ----- running again

  /** The kept items that do not reach the threshold against themselves. */
  function Unstable(h: Host, threshold: real, s: seq<Item>): seq<Item> {
    if s == [] then []
    else
      var c := s[|s| - 1];
      Unstable(h, threshold, s[..|s| - 1]) + if MemorySimilarity(h, c, c) < threshold then [c] else []
  }

  lemma {:induction false} UnstableMembers(h: Host, threshold: real, s: seq<Item>)
    ensures forall x :: x in Unstable(h, threshold, s) <==> x in s && MemorySimilarity(h, x, x) < threshold
  {
    if s != [] {
      UnstableMembers(h, threshold, s[..|s| - 1]);
      assert s == s[..|s| - 1] + [s[|s| - 1]];
    }
  }

  ghost predicate AllBelow(h: Host, threshold: real, c: Item, others: seq<Item>) {
    forall i :: 0 <= i < |others| ==> MemorySimilarity(h, c, others[i]) < threshold
  }

  lemma BelowEachPart(h: Host, threshold: real, c: Item, a: seq<Item>, b: seq<Item>)
    ensures AllBelow(h, threshold, c, a + b) <==> AllBelow(h, threshold, c, a) && AllBelow(h, threshold, c, b)
  {
    if AllBelow(h, threshold, c, a + b) {
      assert forall i :: 0 <= i < |a| ==> a[i] == (a + b)[i];
      assert forall i :: 0 <= i < |b| ==> b[i] == (a + b)[|a| + i];
    }
  }

  /** A kept candidate, seen again among everything that was kept, duplicates nothing but possibly itself. */
  lemma SeenAgain(h: Host, threshold: real, existing: seq<Item>, kept: seq<Item>, again: seq<Item>, p: nat)
    requires PairwiseBelow(h, threshold, kept) && Below(h, threshold, kept, existing)
    requires p < |kept| && again <= Unstable(h, threshold, kept)
    ensures AllBelow(h, threshold, kept[p], (existing + kept) + again) <==> MemorySimilarity(h, kept[p], kept[p]) < threshold
  {
    var c := kept[p];
    BelowEachPart(h, threshold, c, existing + kept, again);
    BelowEachPart(h, threshold, c, existing, kept);
    if MemorySimilarity(h, c, c) < threshold {
      UnstableMembers(h, threshold, kept);
      forall i | 0 <= i < |again|
        ensures MemorySimilarity(h, c, again[i]) < threshold
      {
        assert again[i] in Unstable(h, threshold, kept);
        var q :| 0 <= q < |kept| && kept[q] == again[i];
      }
    }
  }

  lemma {:induction false} UnstablePrefix(h: Host, threshold: real, a: seq<Item>, b: seq<Item>)
    requires a <= b
    ensures Unstable(h, threshold, a) <= Unstable(h, threshold, b)
  {
    if |a| < |b| {
      assert a <= b[..|b| - 1];
      UnstablePrefix(h, threshold, a, b[..|b| - 1]);
    } else {
      assert a == b;
    }
  }

  lemma {:induction false} SecondRunFrom(h: Host, threshold: real, existing: seq<Item>, candidates: seq<Item>, k: nat)
    requires IsSqrt(h.sqrt) && k <= |candidates|
    ensures var kept := Kept(h, threshold, existing, candidates);
      Kept(h, threshold, existing + kept, candidates[..k])
        == Unstable(h, threshold, Kept(h, threshold, existing, candidates[..k]))
  {
    var kept := Kept(h, threshold, existing, candidates);
    if k > 0 {
      SecondRunFrom(h, threshold, existing, candidates, k - 1);
      var now, c := candidates[..k], candidates[k - 1];
      assert now[..|now| - 1] == candidates[..k - 1];
      var before := Kept(h, threshold, existing, candidates[..k - 1]);
      var again := Unstable(h, threshold, before);
      KeptPrefix(h, threshold, existing, candidates, k - 1);
      KeptPrefix(h, threshold, existing, candidates, k);
      KeptAreDistinct(h, threshold, existing, candidates);
      if Duplicates(h, threshold, c, existing + before) {
        var i :| 0 <= i < |existing + before| && MemorySimilarity(h, c, (existing + before)[i]) >= threshold;
        assert ((existing + kept) + again)[i] == (existing + before)[i];
      } else {
        assert kept[|before|] == c;
        UnstablePrefix(h, threshold, before, kept);
        SeenAgain(h, threshold, existing, kept, again, |before|);
        assert (before + [c])[..|before|] == before;
      }
    }
  }

  /** Running again after everything kept has been stored keeps exactly the unstable items a second time. */
  lemma SecondRunKeepsTheUnstable(h: Host, threshold: real, existing: seq<Item>, candidates: seq<Item>)
    requires IsSqrt(h.sqrt)
    ensures var kept := Kept(h, threshold, existing, candidates);
      Kept(h, threshold, existing + kept, candidates) == Unstable(h, threshold, kept)
  {
    SecondRunFrom(h, threshold, existing, candidates, |candidates|);
    assert candidates[..|candidates|] == candidates;
  }

  lemma {:induction false} AccessibleAppend(a: seq<Memory>, b: seq<Memory>, sessionId: string)
    ensures Accessible(a + b, sessionId, false) == Accessible(a, sessionId, false) + Accessible(b, sessionId, false)
  {
    if a == [] {
      assert a + b == b;
    } else {
      assert (a + b)[1..] == a[1..] + b && (a + b)[0] == a[0];
      AccessibleAppend(a[1..], b, sessionId);
      var head := if a[0].shared || a[0].sessionId == sessionId then [a[0]] else [];
      assert Accessible(a, sessionId, false) == head + Accessible(a[1..], sessionId, false);
      assert Accessible(a + b, sessionId, false) == head + Accessible(a[1..] + b, sessionId, false);
    }
  }

  lemma {:induction false} OwnAreAccessible(memories: seq<Memory>, sessionId: string)
    requires forall i :: 0 <= i < |memories| ==> memories[i].sessionId == sessionId
    ensures Accessible(memories, sessionId, false) == memories
  {
    if memories != [] { OwnAreAccessible(memories[1..], sessionId); }
  }

  lemma {:induction false} ItemsAppend(a: seq<Memory>, b: seq<Memory>)
    ensures Items(a + b) == Items(a) + Items(b)
  {
  }

  /** Consolidation is idempotent exactly when everything it kept can recognise itself: proposing the same summary again
      after the kept memories are stored keeps nothing if and only if each has a non-zero vector of a named model or,
      without comparable vectors, at least one word. */
  lemma ConsolidationIsIdempotentIff(d: Deps, sessionId: string, summary: string, memories: seq<Memory>)
    requires IsSqrt(d.host.sqrt) && 0.0 < Threshold(d) <= 1.0
    ensures var kept := Proposed(d, sessionId, summary, memories);
      (Proposed(d, sessionId, summary, Persisted(memories, sessionId, kept)) == [])
      <==> (forall x :: x in kept ==> Recognisable(d.host, x))
  {
    var kept := Proposed(d, sessionId, summary, memories);
    var existing := Items(Accessible(memories, sessionId, false));
    var stored := seq(|kept|, i requires 0 <= i < |kept| => Memory(sessionId, false, kept[i]));
    AccessibleAppend(memories, stored, sessionId);
    OwnAreAccessible(stored, sessionId);
    ItemsAppend(Accessible(memories, sessionId, false), stored);
    assert Items(stored) == kept;
    SecondRunKeepsTheUnstable(d.host, Threshold(d), existing, Candidates(d, Texts(d.extract(summary))));
    UnstableMembers(d.host, Threshold(d), kept);
    forall x
      ensures MemorySimilarity(d.host, x, x) < Threshold(d) <==> !Recognisable(d.host, x)
    {
      SimilarityFacts(d.host, x, x);
    }
    var u := Unstable(d.host, Threshold(d), kept);
    if u != [] { assert u[0] in u; }
  }

  // ----- what is proposed for a session

  lemma {:induction false} AccessibleMembers(memories: seq<Memory>, sessionId: string)
    ensures forall m :: m in Accessible(memories, sessionId, false) <==> m in memories && (m.shared || m.sessionId == sessionId)
  {
    if memories != [] {
      AccessibleMembers(memories[1..], sessionId);
      assert memories == [memories[0]] + memories[1..];
    }
  }

  lemma {:induction false} TextsMembers(raw: seq<string>)
    ensures forall t :: t in Texts(raw) <==> t != "" && exists i :: 0 <= i < |raw| && Trim(raw[i]) == t
  {
    if raw != [] {
      var n := |raw| - 1;
      TextsMembers(raw[..n]);
      forall t
        ensures t in Texts(raw) <==> t != "" && exists i :: 0 <= i < |raw| && Trim(raw[i]) == t
      {
        if i :| 0 <= i < n && Trim(raw[..n][i]) == t { assert Trim(raw[i]) == t; }
        if i :| 0 <= i < |raw| && Trim(raw[i]) == t {
          if i < n { assert Trim(raw[..n][i]) == t; }
        }
      }
    }
  }

  /** The item is made of one extracted text: trimmed, with the embedder's vector if there is one, and named after the
      embedder's model only then. */
  predicate MadeOf(d: Deps, text: string, x: Item) {
    && x.text == Trim(text) != ""
    && x.embedding == (if d.embed.Some? then d.embed.value(Trim(text)) else None)
    && x.modelId == (if x.embedding.Some? then d.embeddingModelId else None)
  }

  lemma CandidatesAreMade(d: Deps, raw: seq<string>)
    ensures forall x :: x in Candidates(d, Texts(raw)) <==> exists i :: 0 <= i < |raw| && MadeOf(d, raw[i], x)
  {
    TextsMembers(raw);
    var c := Candidates(d, Texts(raw));
    forall x
      ensures x in c <==> exists i :: 0 <= i < |raw| && MadeOf(d, raw[i], x)
    {
      if x in c {
        var k :| 0 <= k < |c| && c[k] == x;
        assert Texts(raw)[k] in Texts(raw);
        var i :| 0 <= i < |raw| && Trim(raw[i]) == Texts(raw)[k];
        assert MadeOf(d, raw[i], x);
      }
      if i :| 0 <= i < |raw| && MadeOf(d, raw[i], x) {
        assert Trim(raw[i]) in Texts(raw);
        var k :| 0 <= k < |Texts(raw)| && Texts(raw)[k] == Trim(raw[i]);
        assert c[k] == x;
      }
    }
  }

  lemma {:induction false} KeptComeFrom(h: Host, threshold: real, existing: seq<Item>, candidates: seq<Item>)
    ensures forall x :: x in Kept(h, threshold, existing, candidates) ==> x in candidates
    ensures forall c :: c in candidates && c !in Kept(h, threshold, existing, candidates) ==>
      exists o :: o in existing + Kept(h, threshold, existing, candidates) && MemorySimilarity(h, c, o) >= threshold
  {
    if candidates != [] {
      var n := |candidates| - 1;
      var all, before := Kept(h, threshold, existing, candidates), Kept(h, threshold, existing, candidates[..n]);
      KeptComeFrom(h, threshold, existing, candidates[..n]);
      KeptPrefix(h, threshold, existing, candidates, n);
      assert forall o :: o in existing + before ==> o in existing + all;
      assert candidates == candidates[..n] + [candidates[n]];
      if Duplicates(h, threshold, candidates[n], existing + before) {
        var i :| 0 <= i < |existing + before| && MemorySimilarity(h, candidates[n], (existing + before)[i]) >= threshold;
        assert (existing + before)[i] in existing + all;
      }
    }
  }

  lemma {:induction false} ItemsOf(memories: seq<Memory>)
    ensures forall o :: o in Items(memories) <==> exists m :: m in memories && m.item == o
  {
    if memories != [] {
      ItemsOf(memories[1..]);
      assert memories == [memories[0]] + memories[1..];
    }
  }

  /** Everything proposed is made of a text of the summary, and is below the threshold against everything that is the
      session's own or shared; other sessions' private memories do not count. The threshold is 0.85 unless given. */
  lemma ProposalsAreNew(d: Deps, sessionId: string, summary: string, memories: seq<Memory>, x: Item)
    requires IsSqrt(d.host.sqrt) && x in Proposed(d, sessionId, summary, memories)
    ensures exists i :: 0 <= i < |d.extract(summary)| && MadeOf(d, d.extract(summary)[i], x)
    ensures forall m :: m in memories && (m.shared || m.sessionId == sessionId) ==>
              MemorySimilarity(d.host, x, m.item) < (if d.threshold.Some? then d.threshold.value else 0.85)
  {
    var own := Accessible(memories, sessionId, false);
    var existing, candidates := Items(own), Candidates(d, Texts(d.extract(summary)));
    KeptComeFrom(d.host, Threshold(d), existing, candidates);
    CandidatesAreMade(d, d.extract(summary));
    KeptAreDistinct(d.host, Threshold(d), existing, candidates);
    AccessibleMembers(memories, sessionId);
    var kept := Proposed(d, sessionId, summary, memories);
    var i :| 0 <= i < |kept| && kept[i] == x;
    forall m | m in memories && (m.shared || m.sessionId == sessionId)
      ensures MemorySimilarity(d.host, x, m.item) < Threshold(d)
    {
      var k :| 0 <= k < |own| && own[k] == m;
      assert existing[k] == m.item;
    }
  }

  /** No text of the summary is lost: each that is not blank is proposed, or something accessible or proposed reaches the
      threshold against it. */
  lemma NothingIsLost(d: Deps, sessionId: string, summary: string, memories: seq<Memory>, i: nat, x: Item)
    requires i < |d.extract(summary)| && MadeOf(d, d.extract(summary)[i], x)
    ensures x in Proposed(d, sessionId, summary, memories)
      || (exists o :: o in Proposed(d, sessionId, summary, memories) && MemorySimilarity(d.host, x, o) >= Threshold(d))
      || (exists m :: m in memories && (m.shared || m.sessionId == sessionId) && MemorySimilarity(d.host, x, m.item) >= Threshold(d))
  {
    var own := Accessible(memories, sessionId, false);
    var existing, candidates := Items(own), Candidates(d, Texts(d.extract(summary)));
    CandidatesAreMade(d, d.extract(summary));
    KeptComeFrom(d.host, Threshold(d), existing, candidates);
    ItemsOf(own);
    AccessibleMembers(memories, sessionId);
    if x !in Proposed(d, sessionId, summary, memories) {
      var o :| o in existing + Kept(d.host, Threshold(d), existing, candidates) && MemorySimilarity(d.host, x, o) >= Threshold(d);
      if o in existing {
        var m :| m in own && m.item == o;
        assert m in memories;
      }
    }
  }
}
