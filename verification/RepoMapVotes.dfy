/** How the rank is divided: what each file gives to each symbol, counted by index, and what follows for single ranks. */
module RepoMapVotes {
  import opened Wrappers
  import opened Sorting
  import opened RepoMap
  import opened RepoMapMass

  /** The places at which the symbol stands among the targets. */
  function Places(targets: seq<string>, s: string): set<nat> { set k: nat | k < |targets| && targets[k] == s }

  lemma {:induction false} CountIsPlaces(targets: seq<string>, s: string)
    ensures Count(targets, s) == |Places(targets, s)|
  {
    if targets != [] {
      var n := |targets| - 1;
      CountIsPlaces(targets[..n], s);
      assert Places(targets, s) == Places(targets[..n], s) + if targets[n] == s then {n} else {};
    }
  }

  /** A fraction `part / whole` of an amount. */
  function Part(amount: real, part: nat, whole: nat): real
    requires whole > 0
  {
    amount * part as real / whole as real
  }

  lemma {:induction false} TimesIsPart(amount: real, part: nat, whole: nat)
    requires whole > 0
    ensures Times(amount / whole as real, part) == Part(amount, part, whole)
  {
    if part > 0 {
      TimesIsPart(amount, part - 1, whole);
      assert amount * part as real == amount * (part - 1) as real + amount;
    }
  }

  /** What a file gives to a symbol: of the rank it emits, divided evenly over its targets, as many parts as it names the
      symbol. */
  function Vote(rank: map<string, real>, n: Node, s: string): real {
    if n.targets == [] then 0.0 else Part(RankOfPath(rank, n.defs), |Places(n.targets, s)|, |n.targets|)
  }

  /** The votes of the first `k` files. */
  function Votes(rank: map<string, real>, nodes: seq<Node>, s: string, k: nat): real
    requires k <= |nodes|
  {
    if k == 0 then 0.0 else Votes(rank, nodes, s, k - 1) + Vote(rank, nodes[k - 1], s)
  }

  lemma ShareIsVote(rank: map<string, real>, n: Node, s: string)
    ensures Times(Share(rank, n), Count(n.targets, s)) == Vote(rank, n, s)
  {
    CountIsPlaces(n.targets, s);
    if n.targets != [] { TimesIsPart(RankOfPath(rank, n.defs), |Places(n.targets, s)|, |n.targets|); }
  }

  lemma {:induction false} IncomingIsVotes(rank: map<string, real>, nodes: seq<Node>, s: string, k: nat)
    requires k <= |nodes|
    ensures Incoming(rank, nodes[..k], s) == Votes(rank, nodes, s, k)
  {
    if k > 0 {
      IncomingIsVotes(rank, nodes, s, k - 1);
      ShareIsVote(rank, nodes[k - 1], s);
      assert nodes[..k][..k - 1] == nodes[..k - 1];
    }
  }

  /** One iteration, symbol by symbol: the teleported share and the damped sum of the files' votes. */
  lemma StepIsVotes(g: Graph, damping: real, rank: map<string, real>, s: string)
    requires s in g.symbols
    ensures s in Step(g, damping, rank)
    ensures Step(g, damping, rank)[s] == (1.0 - damping) / |g.symbols| as real + damping * Votes(rank, g.nodes, s, |g.nodes|)
  {
    IncomingIsVotes(rank, g.nodes, s, |g.nodes|);
    assert g.nodes[..|g.nodes|] == g.nodes;
  }

  // ----- comparing two symbols

  /** Every file names `a` at most as often as `b`. */
  ghost predicate NamedLess(g: Graph, a: string, b: string) {
    forall i :: 0 <= i < |g.nodes| ==> |Places(g.nodes[i].targets, a)| <= |Places(g.nodes[i].targets, b)|
  }

  lemma PartIsMonotone(amount: real, a: nat, b: nat, whole: nat)
    requires amount >= 0.0 && a <= b && whole > 0
    ensures 0.0 <= Part(amount, a, whole) <= Part(amount, b, whole)
  {
    assert amount * b as real == amount * a as real + amount * (b - a) as real;
    PartIsFraction(amount * a as real, amount * b as real, whole as real);
  }

  lemma PartIsFraction(x: real, y: real, w: real)
    requires 0.0 <= x <= y && w > 0.0
    ensures 0.0 <= x / w <= y / w
  {
  }

  /** Every file emits something. */
  ghost predicate Emits(g: Graph, rank: map<string, real>) {
    forall i :: 0 <= i < |g.nodes| ==> RankOfPath(rank, g.nodes[i].defs) > 0.0
  }

  lemma {:induction false} DefsAreAll(nodes: seq<Node>, i: nat)
    requires i < |nodes|
    ensures forall s :: s in nodes[i].defs ==> s in AllDefs(nodes)
  {
    if i < |nodes| - 1 { DefsAreAll(nodes[..|nodes| - 1], i); }
  }

  lemma PositiveEmits(g: Graph, rank: map<string, real>)
    requires WellDefined(g) && Positive(g, rank)
    ensures Emits(g, rank)
  {
    forall i | 0 <= i < |g.nodes|
      ensures RankOfPath(rank, g.nodes[i].defs) > 0.0
    {
      DefsAreAll(g.nodes, i);
      SumOfPositive(rank, g.nodes[i].defs);
    }
  }

  lemma {:induction false} VotesAreMonotone(g: Graph, rank: map<string, real>, a: string, b: string, k: nat)
    requires Emits(g, rank) && NamedLess(g, a, b) && k <= |g.nodes|
    ensures 0.0 <= Votes(rank, g.nodes, a, k) <= Votes(rank, g.nodes, b, k)
  {
    if k > 0 {
      VotesAreMonotone(g, rank, a, b, k - 1);
      var n := g.nodes[k - 1];
      if n.targets != [] {
        PartIsMonotone(RankOfPath(rank, n.defs), |Places(n.targets, a)|, |Places(n.targets, b)|, |n.targets|);
      }
    }
  }

  lemma DampedIsMonotone(damping: real, base: real, x: real, y: real)
    requires damping >= 0.0 && x <= y
    ensures base + damping * x <= base + damping * y
  {
  }

  lemma NamedLessStep(g: Graph, damping: real, rank: map<string, real>, a: string, b: string)
    requires Emits(g, rank) && damping >= 0.0 && a in g.symbols && b in g.symbols && NamedLess(g, a, b)
    ensures Step(g, damping, rank)[a] <= Step(g, damping, rank)[b]
  {
    var n := |g.nodes|;
    StepIsVotes(g, damping, rank, a);
    StepIsVotes(g, damping, rank, b);
    VotesAreMonotone(g, rank, a, b, n);
    DampedIsMonotone(damping, (1.0 - damping) / |g.symbols| as real, Votes(rank, g.nodes, a, n), Votes(rank, g.nodes, b, n));
  }

  /** A symbol that every file names at most as often as another never ranks above it; so symbols that every file names
      equally often rank equally, after any number of iterations. */
  lemma NamedLessRanksLess(g: Graph, damping: real, iterations: nat, a: string, b: string)
    requires WellDefined(g) && 0.0 <= damping < 1.0 && a in g.symbols && b in g.symbols && NamedLess(g, a, b)
    ensures a in Iterate(g, damping, iterations) && b in Iterate(g, damping, iterations)
    ensures Iterate(g, damping, iterations)[a] <= Iterate(g, damping, iterations)[b]
  {
    if iterations > 0 {
      RanksHaveFloor(g, damping, iterations - 1);
      PositiveEmits(g, Iterate(g, damping, iterations - 1));
      NamedLessStep(g, damping, Iterate(g, damping, iterations - 1), a, b);
    }
  }

  lemma {:induction false} NoVotes(rank: map<string, real>, nodes: seq<Node>, s: string, k: nat)
    requires k <= |nodes| && forall i :: 0 <= i < |nodes| ==> s !in nodes[i].targets
    ensures Votes(rank, nodes, s, k) == 0.0
  {
    if k > 0 {
      NoVotes(rank, nodes, s, k - 1);
      assert Places(nodes[k - 1].targets, s) == {};
    }
  }

  /** A symbol that no file names has exactly the teleported share after every iteration. */
  lemma UnnamedHasTheShare(g: Graph, damping: real, iterations: nat, s: string)
    requires s in g.symbols && forall i :: 0 <= i < |g.nodes| ==> s !in g.nodes[i].targets
    ensures s in Iterate(g, damping, iterations + 1)
    ensures Iterate(g, damping, iterations + 1)[s] == (1.0 - damping) / |g.symbols| as real
  {
    StepIsVotes(g, damping, Iterate(g, damping, iterations), s);
    NoVotes(Iterate(g, damping, iterations), g.nodes, s, |g.nodes|);
  }

  lemma {:induction false} VotesIncludeEach(g: Graph, rank: map<string, real>, s: string, i: nat, k: nat)
    requires Emits(g, rank) && i < k <= |g.nodes|
    ensures Votes(rank, g.nodes, s, k) >= Vote(rank, g.nodes[i], s)
  {
    VotesAreMonotone(g, rank, s, s, k - 1);
    if i < k - 1 {
      VotesIncludeEach(g, rank, s, i, k - 1);
      if g.nodes[k - 1].targets != [] {
        var p := |Places(g.nodes[k - 1].targets, s)|;
        PartIsMonotone(RankOfPath(rank, g.nodes[k - 1].defs), p, p, |g.nodes[k - 1].targets|);
      }
    }
  }

  /** Each file gives each symbol it names at least an even part of what it emits. */
  lemma NamedGetsItsPart(g: Graph, damping: real, rank: map<string, real>, i: nat, s: string)
    requires WellDefined(g) && Positive(g, rank) && damping >= 0.0 && s in g.symbols && i < |g.nodes| && s in g.nodes[i].targets
    ensures s in Step(g, damping, rank)
    ensures Step(g, damping, rank)[s] >= (1.0 - damping) / |g.symbols| as real
                                         + damping * Part(RankOfPath(rank, g.nodes[i].defs), 1, |g.nodes[i].targets|)
  {
    var n := g.nodes[i];
    PositiveEmits(g, rank);
    StepIsVotes(g, damping, rank, s);
    VotesIncludeEach(g, rank, s, i, |g.nodes|);
    var k: nat :| k < |n.targets| && n.targets[k] == s;
    assert k in Places(n.targets, s);
    PartIsMonotone(RankOfPath(rank, n.defs), 1, |Places(n.targets, s)|, |n.targets|);
    DampedIsMonotone(damping, (1.0 - damping) / |g.symbols| as real, Part(RankOfPath(rank, n.defs), 1, |n.targets|),
                     Votes(rank, g.nodes, s, |g.nodes|));
  }

  // ----- who is named

  /** A symbol belongs to the first file that defines it. */
  lemma {:induction false} OwnerIsFirst(files: seq<RepoFile>, s: string)
    ensures match Owner(files, s)
      case Some(path) => exists i :: 0 <= i < |files| && files[i].path == path && s in files[i].defs
                                     && forall j :: 0 <= j < i ==> s !in files[j].defs
      case None => forall i :: 0 <= i < |files| ==> s !in files[i].defs
  {
    if files != [] && s !in files[0].defs {
      OwnerIsFirst(files[1..], s);
      if Owner(files, s).Some? {
        var i :| 0 <= i < |files[1..]| && files[1..][i].path == Owner(files, s).value && s in files[1..][i].defs
                 && forall j :: 0 <= j < i ==> s !in files[1..][j].defs;
        assert files[i + 1] == files[1..][i];
        assert forall j :: 1 <= j < i + 1 ==> files[j] == files[1..][j - 1];
      } else {
        assert forall i :: 1 <= i < |files| ==> files[i] == files[1..][i - 1];
      }
    }
  }

  lemma {:induction false} EdgesMembers(all: seq<RepoFile>, files: seq<RepoFile>, path: string)
    ensures forall s :: s in EdgesOf(all, files, path) <==>
      && (exists i :: 0 <= i < |files| && files[i].path == path && s in files[i].refs)
      && Owner(all, s).Some? && Owner(all, s).value != "" && Owner(all, s).value != path
  {
    if files != [] {
      var before, f := files[..|files| - 1], files[|files| - 1];
      EdgesMembers(all, before, path);
      CrossRefsAreOwned(all, path, f.refs);
      forall s
        ensures (exists i :: 0 <= i < |files| && files[i].path == path && s in files[i].refs)
           <==> (exists i :: 0 <= i < |before| && before[i].path == path && s in before[i].refs) || (f.path == path && s in f.refs)
      {
        if i :| 0 <= i < |before| && before[i].path == path && s in before[i].refs { assert files[i] == before[i]; }
        if i :| 0 <= i < |files| && files[i].path == path && s in files[i].refs {
          if i < |before| { assert files[i] == before[i]; }
        }
      }
    }
  }

  /** A path votes for exactly the symbols that a file of this path mentions and that are defined first under another path. */
  lemma PathsVoteForOthers(files: seq<RepoFile>, k: nat, s: string)
    requires k < |Paths(files)|
    ensures var n := GraphOf(files).nodes[k];
      && n.path == Paths(files)[k]
      && (s in n.targets <==>
            && (exists i :: 0 <= i < |files| && files[i].path == n.path && s in files[i].refs)
            && Owner(files, s).Some? && Owner(files, s).value != "" && Owner(files, s).value != n.path)
  {
    EdgesMembers(files, files, Paths(files)[k]);
  }

  /** A path emits the rank of what its last file defines. */
  lemma {:induction false} LastDefinitionsCount(files: seq<RepoFile>, path: string)
    ensures (exists i :: 0 <= i < |files| && files[i].path == path) ==>
      exists i :: 0 <= i < |files| && files[i].path == path && DefsOf(files, path) == files[i].defs
                  && forall j :: i < j < |files| ==> files[j].path != path
  {
    if files != [] && files[|files| - 1].path != path {
      var before := files[..|files| - 1];
      LastDefinitionsCount(before, path);
      assert forall i :: 0 <= i < |before| ==> before[i] == files[i];
    }
  }

  // ----- the order of the ranking

  /** The number of files before the first that defines the symbol. */
  function FirstFile(files: seq<RepoFile>, s: string): nat {
    if files == [] || s in files[0].defs then 0 else 1 + FirstFile(files[1..], s)
  }

  lemma {:induction false} FirstFileStays(files: seq<RepoFile>, f: RepoFile, s: string)
    ensures FirstFile(files, s) <= |files|
    ensures Owner(files, s).Some? ==> FirstFile(files, s) < |files| && FirstFile(files + [f], s) == FirstFile(files, s)
    ensures Owner(files, s).None? ==> FirstFile(files + [f], s) >= |files|
    ensures Owner(files, s).None? && s in f.defs ==> FirstFile(files + [f], s) == |files|
  {
    if files == [] {
      assert files + [f] == [f];
    } else {
      assert (files + [f])[1..] == files[1..] + [f];
      FirstFileStays(files[1..], f, s);
    }
  }

  /** Symbols are listed in the order of the files that first define them. */
  ghost predicate InFileOrder(files: seq<RepoFile>, symbols: seq<string>) {
    forall i, j :: 0 <= i < j < |symbols| ==> FirstFile(files, symbols[i]) <= FirstFile(files, symbols[j])
  }

  lemma {:induction false} AddNewKeepsPrefix(seen: seq<string>, more: seq<string>)
    ensures seen <= AddNew(seen, more)
    ensures forall i :: |seen| <= i < |AddNew(seen, more)| ==> AddNew(seen, more)[i] !in seen && AddNew(seen, more)[i] in more
  {
    if more != [] {
      AddNewKeepsPrefix(seen, more[..|more| - 1]);
      AddNewMembers(seen, more[..|more| - 1]);
      assert more == more[..|more| - 1] + [more[|more| - 1]];
    }
  }

  lemma {:induction false} SymbolsInFileOrder(files: seq<RepoFile>)
    ensures InFileOrder(files, Symbols(files))
  {
    if files != [] {
      var before, f := files[..|files| - 1], files[|files| - 1];
      SymbolsInFileOrder(before);
      AddNewKeepsPrefix(Symbols(before), f.defs);
      SymbolsAreOwned(before);
      assert files == before + [f];
      var were, now := Symbols(before), Symbols(files);
      forall i, j | 0 <= i < j < |now|
        ensures FirstFile(files, now[i]) <= FirstFile(files, now[j])
      {
        FirstFileStays(before, f, now[i]);
        FirstFileStays(before, f, now[j]);
        if i < |were| { assert now[i] == were[i] && now[i] in were; }
        if j < |were| { assert now[j] == were[j] && now[j] in were; }
      }
    }
  }

  /** Higher ranks first, and of equal ranks the symbol whose first file comes first. */
  function HigherFirst(files: seq<RepoFile>): (RankedSymbol, RankedSymbol) -> bool {
    (a: RankedSymbol, b: RankedSymbol) =>
      a.rank > b.rank || (a.rank == b.rank && FirstFile(files, a.name) <= FirstFile(files, b.name))
  }

  /** The ranking lists higher ranks first, and equal ones in the order of the files. */
  lemma RankingIsInOrder(files: seq<RepoFile>, damping: real, iterations: nat)
    ensures SortedBy(RankSymbolsSpec(files, damping, iterations), HigherFirst(files))
  {
    var rank := Iterate(GraphOf(files), damping, iterations);
    var unsorted := Unsorted(files, Symbols(files), rank);
    SymbolsInFileOrder(files);
    SortIsStable(unsorted, ByRank(), HigherFirst(files));
  }
}
