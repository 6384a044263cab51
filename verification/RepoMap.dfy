/** The symbol PageRank of the repository map (`core-py/klein_core/repomap.py`), over the reals. */
module RepoMap {
  import opened Wrappers
  import opened Sorting

  // ----- the symbol graph

  /** A file after extraction: the symbols it defines and the identifiers it mentions, each once, in whatever order the
      Python sets yield them. */
  datatype RepoFile = RepoFile(path: string, defs: seq<string>, refs: seq<string>)

  /** One path: the symbols it emits rank for, and the symbols it votes for. */
  datatype Node = Node(path: string, defs: seq<string>, targets: seq<string>)

  datatype Graph = Graph(symbols: seq<string>, nodes: seq<Node>)

  datatype RankedSymbol = RankedSymbol(name: string, path: string, rank: real)

  /** `seen` extended by the elements of `more` that it lacks, in order: the keys of a dict after `setdefault`s. */
  function AddNew(seen: seq<string>, more: seq<string>): seq<string> {
    if more == [] then seen
    else
      var before, x := AddNew(seen, more[..|more| - 1]), more[|more| - 1];
      if x in before then before else before + [x]
  }

  function Symbols(files: seq<RepoFile>): seq<string> {
    if files == [] then [] else AddNew(Symbols(files[..|files| - 1]), files[|files| - 1].defs)
  }

  /** The path of the first file that defines the symbol. */
  function Owner(files: seq<RepoFile>, symbol: string): Option<string> {
    if files == [] then None
    else if symbol in files[0].defs then Some(files[0].path)
    else Owner(files[1..], symbol)
  }

  /** The references of a file that are defined in another file. */
  function CrossRefs(files: seq<RepoFile>, path: string, refs: seq<string>): seq<string> {
    if refs == [] then []
    else
      var before, x := CrossRefs(files, path, refs[..|refs| - 1]), refs[|refs| - 1];
      var owner := Owner(files, x);
      if owner.Some? && owner.value != "" && owner.value != path then before + [x] else before
  }

  /** The paths in first-occurrence order: the keys of `out_edges`. */
  function Paths(files: seq<RepoFile>): seq<string> {
    if files == [] then [] else AddNew(Paths(files[..|files| - 1]), [files[|files| - 1].path])
  }

  /** The definitions recorded for a path: those of the last file with it. */
  function DefsOf(files: seq<RepoFile>, path: string): seq<string> {
    if files == [] then []
    else if files[|files| - 1].path == path then files[|files| - 1].defs
    else DefsOf(files[..|files| - 1], path)
  }

  /** The edges recorded for a path: those of every file with it. `all` is the whole repository. */
  function EdgesOf(all: seq<RepoFile>, files: seq<RepoFile>, path: string): seq<string> {
    if files == [] then []
    else
      var f := files[|files| - 1];
      EdgesOf(all, files[..|files| - 1], path) + if f.path == path then CrossRefs(all, path, f.refs) else []
  }

  function NodeOf(files: seq<RepoFile>, path: string): Node { Node(path, DefsOf(files, path), EdgesOf(files, files, path)) }

  function GraphOf(files: seq<RepoFile>): Graph {
    var paths := Paths(files);
    Graph(Symbols(files), seq(|paths|, i requires 0 <= i < |paths| => NodeOf(files, paths[i])))
  }

  /** `m` records the owner of every owned symbol. */
  ghost predicate Records(m: map<string, string>, files: seq<RepoFile>) {
    forall s :: (s in m <==> Owner(files, s).Some?) && (s in m ==> Owner(files, s) == Some(m[s]))
  }

  lemma {:induction false} OwnerAppend(files: seq<RepoFile>, f: RepoFile, s: string)
    ensures Owner(files + [f], s) == if Owner(files, s).Some? then Owner(files, s) else if s in f.defs then Some(f.path) else None
  {
    if files == [] {
      assert [f][1..] == [];
      assert files + [f] == [f];
    } else {
      assert (files + [f])[1..] == files[1..] + [f];
      OwnerAppend(files[1..], f, s);
    }
  }

  /** One file's definitions. */
  method SetDefaults(symbols0: seq<string>, m0: map<string, string>, defs: seq<string>, path: string)
    returns (symbols: seq<string>, m: map<string, string>)
    requires forall s :: s in symbols0 <==> s in m0
    ensures symbols == AddNew(symbols0, defs)
    ensures forall s :: s in symbols <==> s in m
    ensures forall s :: s in m <==> s in m0 || s in defs
    ensures forall s :: s in m ==> m[s] == if s in m0 then m0[s] else path
  {
    symbols, m := symbols0, m0;
    for j := 0 to |defs|
      invariant symbols == AddNew(symbols0, defs[..j])
      invariant forall s :: s in symbols <==> s in m
      invariant forall s :: s in m <==> s in m0 || s in defs[..j]
      invariant forall s :: s in m ==> m[s] == if s in m0 then m0[s] else path
    {
      ghost var more := defs[..j + 1];
      assert more[..|more| - 1] == defs[..j] && more == defs[..j] + [defs[j]];
      assert forall s :: s in more <==> s in defs[..j] || s == defs[j];
      if defs[j] !in m {
        m := m[defs[j] := path];
        symbols := symbols + [defs[j]];
      }
    }
    assert defs[..|defs|] == defs;
  }

  method CollectSymbols(files: seq<RepoFile>) returns (symbols: seq<string>, symbolToPath: map<string, string>)
    ensures symbols == Symbols(files) && Records(symbolToPath, files)
  {
    symbols, symbolToPath := [], map[];
    for i := 0 to |files|
      invariant symbols == Symbols(files[..i]) && Records(symbolToPath, files[..i])
      invariant forall s :: s in symbols <==> s in symbolToPath
    {
      ghost var next := files[..i + 1];
      assert next[..|next| - 1] == files[..i] && next == files[..i] + [files[i]];
      symbols, symbolToPath := SetDefaults(symbols, symbolToPath, files[i].defs, files[i].path);
      forall s
        ensures (s in symbolToPath <==> Owner(next, s).Some?) && (s in symbolToPath ==> Owner(next, s) == Some(symbolToPath[s]))
      {
        OwnerAppend(files[..i], files[i], s);
      }
    }
    assert files[..|files|] == files;
  }

  method CollectEdges(files: seq<RepoFile>, f: RepoFile, symbolToPath: map<string, string>) returns (targets: seq<string>)
    requires Records(symbolToPath, files)
    ensures targets == CrossRefs(files, f.path, f.refs)
  {
    targets := [];
    for k := 0 to |f.refs|
      invariant targets == CrossRefs(files, f.path, f.refs[..k])
    {
      ghost var next := f.refs[..k + 1];
      assert next[..|next| - 1] == f.refs[..k];
      var symbol := f.refs[k];
      if symbol in symbolToPath && symbolToPath[symbol] != "" && symbolToPath[symbol] != f.path {
        targets := targets + [symbol];
      }
    }
    assert f.refs[..|f.refs|] == f.refs;
  }

  lemma AddOne(seen: seq<string>, x: string)
    ensures AddNew(seen, [x]) == if x in seen then seen else seen + [x]
  {
    assert [x][..0] == [];
    assert AddNew(seen, []) == seen;
  }

  ghost predicate KeyedBy<T>(m: map<string, T>, paths: seq<string>) { forall p :: p in m <==> p in paths }

  lemma OneMorePath(all: seq<RepoFile>, files: seq<RepoFile>, f: RepoFile, path: string)
    ensures DefsOf(files + [f], path) == if path == f.path then f.defs else DefsOf(files, path)
    ensures EdgesOf(all, files + [f], path)
         == EdgesOf(all, files, path) + if path == f.path then CrossRefs(all, path, f.refs) else []
  {
    assert (files + [f])[..|files|] == files;
  }

  lemma OneMoreKey(files: seq<RepoFile>, f: RepoFile)
    ensures Paths(files + [f]) == if f.path in Paths(files) then Paths(files) else Paths(files) + [f.path]
  {
    assert (files + [f])[..|files|] == files;
    AddOne(Paths(files), f.path);
  }

  lemma KeysAreTheFiles(files: seq<RepoFile>, i: nat)
    requires i < |files|
    ensures files[i].path in Paths(files)
    decreases |files|
  {
    var k := |files| - 1;
    OneMoreKey(files[..k], files[k]);
    assert files == files[..k] + [files[k]];
    if i < k { KeysAreTheFiles(files[..k], i); }
  }

  /** The `definitions_by_path` dict. */
  method CollectDefinitions(files: seq<RepoFile>) returns (definitions: map<string, seq<string>>)
    ensures KeyedBy(definitions, Paths(files)) && forall p :: p in definitions ==> definitions[p] == DefsOf(files, p)
  {
    definitions := map[];
    for i := 0 to |files|
      invariant KeyedBy(definitions, Paths(files[..i])) && forall p :: p in definitions ==> definitions[p] == DefsOf(files[..i], p)
    {
      assert files[..i + 1] == files[..i] + [files[i]];
      OneMoreKey(files[..i], files[i]);
      forall p {
        OneMorePath([], files[..i], files[i], p);
      }
      definitions := definitions[files[i].path := files[i].defs];
    }
    assert files[..|files|] == files;
  }

  /** The keys of the `out_edges` dict, in order, each with an empty list. */
  method EmptyEdges(files: seq<RepoFile>) returns (paths: seq<string>, edges: map<string, seq<string>>)
    ensures paths == Paths(files) && KeyedBy(edges, paths) && forall p :: p in edges ==> edges[p] == []
  {
    paths, edges := [], map[];
    for i := 0 to |files|
      invariant paths == Paths(files[..i]) && KeyedBy(edges, paths) && forall p :: p in edges ==> edges[p] == []
    {
      assert files[..i + 1] == files[..i] + [files[i]];
      OneMoreKey(files[..i], files[i]);
      edges := edges[files[i].path := []];
      paths := if files[i].path in paths then paths else paths + [files[i].path];
    }
    assert files[..|files|] == files;
  }

  /** The `out_edges` dict. */
  method CollectOutEdges(files: seq<RepoFile>, symbolToPath: map<string, string>)
    returns (paths: seq<string>, edges: map<string, seq<string>>)
    requires Records(symbolToPath, files)
    ensures paths == Paths(files) && KeyedBy(edges, paths)
    ensures forall p :: p in edges ==> edges[p] == EdgesOf(files, files, p)
  {
    paths, edges := EmptyEdges(files);
    for i := 0 to |files|
      invariant KeyedBy(edges, paths) && forall p :: p in edges ==> edges[p] == EdgesOf(files, files[..i], p)
    {
      assert files[..i + 1] == files[..i] + [files[i]];
      forall p {
        OneMorePath(files, files[..i], files[i], p);
      }
      KeysAreTheFiles(files, i);
      var more := CollectEdges(files, files[i], symbolToPath);
      edges := edges[files[i].path := edges[files[i].path] + more];
    }
    assert files[..|files|] == files;
  }

  // ----- ranks

  const NO_RANK := 0.000000001

  function Get(rank: map<string, real>, s: string): real { if s in rank then rank[s] else 0.0 }

  function SumRanks(rank: map<string, real>, symbols: seq<string>): real {
    if symbols == [] then 0.0 else SumRanks(rank, symbols[..|symbols| - 1]) + Get(rank, symbols[|symbols| - 1])
  }

  /** What a path emits: the ranks of the symbols it defines, or a token amount when that is nothing. */
  function RankOfPath(rank: map<string, real>, defs: seq<string>): real {
    var sum := SumRanks(rank, defs);
    if sum != 0.0 then sum else NO_RANK
  }

  function Count(targets: seq<string>, s: string): nat {
    if targets == [] then 0 else Count(targets[..|targets| - 1], s) + if targets[|targets| - 1] == s then 1 else 0
  }

  /** The part of a node's emission that each of its targets gets. */
  function Share(rank: map<string, real>, n: Node): real {
    if n.targets == [] then 0.0 else RankOfPath(rank, n.defs) / |n.targets| as real
  }

  /** `x` added `n` times. */
  function Times(x: real, n: nat): real { if n == 0 then 0.0 else Times(x, n - 1) + x }

  function Incoming(rank: map<string, real>, nodes: seq<Node>, s: string): real {
    if nodes == [] then 0.0
    else
      var n := nodes[|nodes| - 1];
      Incoming(rank, nodes[..|nodes| - 1], s) + Times(Share(rank, n), Count(n.targets, s))
  }

  function Uniform(symbols: seq<string>): map<string, real> {
    map s | s in symbols :: 1.0 / |symbols| as real
  }

  function Step(g: Graph, damping: real, rank: map<string, real>): map<string, real> {
    map s | s in g.symbols :: Damped(damping, |g.symbols|, Incoming(rank, g.nodes, s))
  }

  function Damped(damping: real, n: nat, incoming: real): real
    requires n > 0
  {
    (1.0 - damping) / n as real + damping * incoming
  }

  function Iterate(g: Graph, damping: real, iterations: nat): map<string, real> {
    if iterations == 0 then Uniform(g.symbols) else Step(g, damping, Iterate(g, damping, iterations - 1))
  }

  function ByRank(): (RankedSymbol, RankedSymbol) -> bool { (a: RankedSymbol, b: RankedSymbol) => a.rank >= b.rank }

  function Unsorted(files: seq<RepoFile>, symbols: seq<string>, rank: map<string, real>): seq<RankedSymbol> {
    seq(|symbols|, i requires 0 <= i < |symbols| => RankedSymbol(symbols[i], Owner(files, symbols[i]).GetOr(""), Get(rank, symbols[i])))
  }

  function RankSymbolsSpec(files: seq<RepoFile>, damping: real, iterations: nat): seq<RankedSymbol> {
    Sort(Unsorted(files, Symbols(files), Iterate(GraphOf(files), damping, iterations)), ByRank())
  }

  ghost predicate TargetsKnown(g: Graph) {
    forall i, k :: 0 <= i < |g.nodes| && 0 <= k < |g.nodes[i].targets| ==> g.nodes[i].targets[k] in g.symbols
  }

  ghost predicate Holds(incoming: map<string, real>, symbols: seq<string>, rank: map<string, real>, nodes: seq<Node>) {
    KeyedBy(incoming, symbols) && forall s :: s in symbols ==> incoming[s] == Incoming(rank, nodes, s)
  }

  /** One path's votes: its share is added to each of its targets. */
  method AddShares(incoming0: map<string, real>, symbols: seq<string>, targets: seq<string>, share: real)
    returns (incoming: map<string, real>)
    requires KeyedBy(incoming0, symbols) && forall k :: 0 <= k < |targets| ==> targets[k] in symbols
    ensures KeyedBy(incoming, symbols)
    ensures forall s :: s in symbols ==> incoming[s] == incoming0[s] + Times(share, Count(targets, s))
  {
    incoming := incoming0;
    for j := 0 to |targets|
      invariant KeyedBy(incoming, symbols)
      invariant forall s :: s in symbols ==> incoming[s] == incoming0[s] + Times(share, Count(targets[..j], s))
    {
      ghost var more := targets[..j + 1];
      assert more[..|more| - 1] == targets[..j];
      ghost var before := incoming;
      incoming := incoming[targets[j] := incoming[targets[j]] + share];
      forall s | s in symbols
        ensures incoming[s] == incoming0[s] + Times(share, Count(more, s))
      {
        assert before[s] == incoming0[s] + Times(share, Count(targets[..j], s));
      }
    }
    assert targets[..|targets|] == targets;
  }

  method CollectIncoming(g: Graph, rank: map<string, real>) returns (incoming: map<string, real>)
    requires TargetsKnown(g)
    ensures Holds(incoming, g.symbols, rank, g.nodes)
  {
    incoming := map s | s in g.symbols :: 0.0;
    for i := 0 to |g.nodes|
      invariant Holds(incoming, g.symbols, rank, g.nodes[..i])
    {
      ghost var next := g.nodes[..i + 1];
      assert next[..|next| - 1] == g.nodes[..i];
      var n := g.nodes[i];
      if n.targets != [] {
        incoming := AddShares(incoming, g.symbols, n.targets, RankOfPath(rank, n.defs) / |n.targets| as real);
      }
    }
    assert g.nodes[..|g.nodes|] == g.nodes;
  }

  method PageRank(g: Graph, damping: real, iterations: nat) returns (rank: map<string, real>)
    requires TargetsKnown(g) && g.symbols != []
    ensures rank == Iterate(g, damping, iterations)
  {
    rank := Uniform(g.symbols);
    for k := 0 to iterations
      invariant rank == Iterate(g, damping, k)
    {
      var incoming := CollectIncoming(g, rank);
      rank := map s | s in g.symbols :: Damped(damping, |g.symbols|, incoming[s]);
    }
  }

  lemma {:induction false} SymbolsAreOwned(files: seq<RepoFile>)
    ensures forall s :: s in Symbols(files) <==> Owner(files, s).Some?
  {
    if files != [] {
      var before, f := files[..|files| - 1], files[|files| - 1];
      SymbolsAreOwned(before);
      AddNewMembers(Symbols(before), f.defs);
      assert files == before + [f];
      forall s
        ensures s in Symbols(files) <==> Owner(files, s).Some?
      {
        OwnerAppend(before, f, s);
      }
    }
  }

  lemma {:induction false} AddNewMembers(seen: seq<string>, more: seq<string>)
    ensures forall x :: x in AddNew(seen, more) <==> x in seen || x in more
  {
    if more != [] {
      AddNewMembers(seen, more[..|more| - 1]);
      assert more == more[..|more| - 1] + [more[|more| - 1]];
    }
  }

  lemma {:induction false} CrossRefsAreOwned(files: seq<RepoFile>, path: string, refs: seq<string>)
    ensures forall x :: x in CrossRefs(files, path, refs) <==>
              x in refs && Owner(files, x).Some? && Owner(files, x).value != "" && Owner(files, x).value != path
  {
    if refs != [] {
      CrossRefsAreOwned(files, path, refs[..|refs| - 1]);
      assert refs == refs[..|refs| - 1] + [refs[|refs| - 1]];
    }
  }

  lemma {:induction false} EdgesAreOwned(all: seq<RepoFile>, files: seq<RepoFile>, path: string)
    ensures forall x :: x in EdgesOf(all, files, path) ==> Owner(all, x).Some?
  {
    if files != [] {
      EdgesAreOwned(all, files[..|files| - 1], path);
      CrossRefsAreOwned(all, path, files[|files| - 1].refs);
    }
  }

  lemma GraphTargetsKnown(files: seq<RepoFile>)
    ensures TargetsKnown(GraphOf(files))
  {
    var g := GraphOf(files);
    SymbolsAreOwned(files);
    forall i, k | 0 <= i < |g.nodes| && 0 <= k < |g.nodes[i].targets|
      ensures g.nodes[i].targets[k] in g.symbols
    {
      EdgesAreOwned(files, files, g.nodes[i].path);
    }
  }

  method BuildGraph(files: seq<RepoFile>) returns (g: Graph, symbolToPath: map<string, string>)
    ensures g == GraphOf(files) && Records(symbolToPath, files)
  {
    var symbols;
    symbols, symbolToPath := CollectSymbols(files);
    var definitions := CollectDefinitions(files);
    var paths, edges := CollectOutEdges(files, symbolToPath);
    var nodes: seq<Node> := [];
    for i := 0 to |paths|
      invariant |nodes| == i && forall k :: 0 <= k < i ==> nodes[k] == NodeOf(files, paths[k])
    {
      nodes := nodes + [Node(paths[i], definitions[paths[i]], edges[paths[i]])];
    }
    g := Graph(symbols, nodes);
  }

  method RankSymbols(files: seq<RepoFile>, damping: real, iterations: nat) returns (ranked: seq<RankedSymbol>)
    ensures ranked == RankSymbolsSpec(files, damping, iterations)
  {
    var g, symbolToPath := BuildGraph(files);
    if g.symbols == [] {
      return [];
    }
    GraphTargetsKnown(files);
    SymbolsAreOwned(files);
    var rank := PageRank(g, damping, iterations);
    var unsorted: seq<RankedSymbol> := [];
    for i := 0 to |g.symbols|
      invariant |unsorted| == i && forall k :: 0 <= k < i ==> unsorted[k] == Unsorted(files, g.symbols, rank)[k]
    {
      assert g.symbols[i] in g.symbols && g.symbols[i] in symbolToPath;
      IterateKeys(g, damping, iterations);
      unsorted := unsorted + [RankedSymbol(g.symbols[i], symbolToPath[g.symbols[i]], rank[g.symbols[i]])];
    }
    assert unsorted == Unsorted(files, g.symbols, rank);
    ranked := Sort(unsorted, ByRank());
  }

  lemma IterateKeys(g: Graph, damping: real, iterations: nat)
    ensures forall s :: s in Iterate(g, damping, iterations) <==> s in g.symbols
  {
  }
}
