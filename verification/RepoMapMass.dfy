/** Where the rank goes: an exact balance for one iteration, and from it the bounds over all iterations. */
module RepoMapMass {
  import opened Wrappers
  import opened Sorting
  import opened RepoMap

  ghost predicate NoDup(s: seq<string>) { forall i, j :: 0 <= i < j < |s| ==> s[i] != s[j] }

  /** The definitions of all nodes, one node after the other. */
  function AllDefs(nodes: seq<Node>): seq<string> {
    if nodes == [] then [] else AllDefs(nodes[..|nodes| - 1]) + nodes[|nodes| - 1].defs
  }

  /** Every symbol is defined by exactly one node: the definition sets are disjoint and the symbols are their union. */
  ghost predicate Partitioned(g: Graph) { NoDup(g.symbols) && g.symbols == AllDefs(g.nodes) }

  /** The symbols are listed once each, and whatever a node defines is one of them. */
  ghost predicate WellDefined(g: Graph) { NoDup(g.symbols) && forall s :: s in AllDefs(g.nodes) ==> s in g.symbols }

  // ----- sums over symbols

  function Sum(symbols: seq<string>, f: string -> real): real {
    if symbols == [] then 0.0 else Sum(symbols[..|symbols| - 1], f) + f(symbols[|symbols| - 1])
  }

  lemma {:induction false} SumOf(symbols: seq<string>, f: string -> real, g: string -> real, h: string -> real)
    requires forall s :: s in symbols ==> h(s) == f(s) + g(s)
    ensures Sum(symbols, h) == Sum(symbols, f) + Sum(symbols, g)
  {
    if symbols != [] {
      assert symbols[|symbols| - 1] in symbols;
      assert forall s :: s in symbols[..|symbols| - 1] ==> s in symbols;
      SumOf(symbols[..|symbols| - 1], f, g, h);
    }
  }

  lemma {:induction false} SumZero(symbols: seq<string>, f: string -> real)
    requires forall s :: s in symbols ==> f(s) == 0.0
    ensures Sum(symbols, f) == 0.0
  {
    if symbols != [] {
      assert symbols[|symbols| - 1] in symbols;
      assert forall s :: s in symbols[..|symbols| - 1] ==> s in symbols;
      SumZero(symbols[..|symbols| - 1], f);
    }
  }

  function Only(t: string, x: real): string -> real { (s: string) => if s == t then x else 0.0 }

  /** An amount put on one symbol counts once. */
  lemma {:induction false} SumOnly(symbols: seq<string>, t: string, x: real)
    requires NoDup(symbols) && t in symbols
    ensures Sum(symbols, Only(t, x)) == x
  {
    var n := |symbols| - 1;
    if symbols[n] == t {
      SumZero(symbols[..n], Only(t, x));
    } else {
      assert t in symbols[..n];
      SumOnly(symbols[..n], t, x);
    }
  }

  function Votes(targets: seq<string>, share: real): string -> real { (s: string) => Times(share, Count(targets, s)) }

  lemma {:induction false} SumVotes(symbols: seq<string>, targets: seq<string>, share: real)
    requires NoDup(symbols) && forall k :: 0 <= k < |targets| ==> targets[k] in symbols
    ensures Sum(symbols, Votes(targets, share)) == Times(share, |targets|)
  {
    if targets == [] {
      SumZero(symbols, Votes(targets, share));
    } else {
      var n := |targets| - 1;
      SumVotes(symbols, targets[..n], share);
      SumOnly(symbols, targets[n], share);
      SumOf(symbols, Votes(targets[..n], share), Only(targets[n], share), Votes(targets, share));
    }
  }

  lemma {:induction false} TimesIsProduct(x: real, n: nat)
    ensures Times(x, n) == x * n as real
  {
    if n > 0 { TimesIsProduct(x, n - 1); }
  }

  /** All of a node's emission reaches its targets. */
  lemma ShareIsWhole(rank: map<string, real>, n: Node)
    requires n.targets != []
    ensures Times(Share(rank, n), |n.targets|) == RankOfPath(rank, n.defs)
  {
    TimesIsProduct(Share(rank, n), |n.targets|);
  }

  // ----- one iteration

  function Received(rank: map<string, real>, nodes: seq<Node>): string -> real { (s: string) => Incoming(rank, nodes, s) }

  /** What the nodes with targets emit. */
  function Emitted(rank: map<string, real>, nodes: seq<Node>): real {
    if nodes == [] then 0.0
    else
      var n := nodes[|nodes| - 1];
      Emitted(rank, nodes[..|nodes| - 1]) + if n.targets == [] then 0.0 else RankOfPath(rank, n.defs)
  }

  lemma {:induction false} ReceivedIsEmitted(symbols: seq<string>, rank: map<string, real>, nodes: seq<Node>)
    requires NoDup(symbols) && TargetsKnown(Graph(symbols, nodes))
    ensures Sum(symbols, Received(rank, nodes)) == Emitted(rank, nodes)
  {
    if nodes == [] {
      SumZero(symbols, Received(rank, nodes));
    } else {
      var k := |nodes| - 1;
      var n := nodes[k];
      assert TargetsKnown(Graph(symbols, nodes[..k]));
      ReceivedIsEmitted(symbols, rank, nodes[..k]);
      SumVotes(symbols, n.targets, Share(rank, n));
      SumOf(symbols, Received(rank, nodes[..k]), Votes(n.targets, Share(rank, n)), Received(rank, nodes));
      if n.targets != [] { ShareIsWhole(rank, n); }
    }
  }

  function Mass(g: Graph, rank: map<string, real>): real { SumRanks(rank, g.symbols) }

  /** `k` base amounts and the damped `sum`. */
  function Total(k: nat, base: real, damping: real, sum: real): real { k as real * base + damping * sum }

  /** A base amount plus a damped one. */
  function Based(base: real, damping: real, x: real): real { base + damping * x }

  lemma OneMoreShare(k: nat, base: real, damping: real, sum: real, x: real)
    ensures Total(k + 1, base, damping, sum + x) == Total(k, base, damping, sum) + Based(base, damping, x)
  {
    assert (k + 1) as real == k as real + 1.0;
  }

  lemma Spread(n: nat, x: real)
    requires n > 0
    ensures n as real * (x / n as real) == x
  {
  }

  lemma {:induction false} DampedSum(symbols: seq<string>, rank: map<string, real>, base: real, damping: real, f: string -> real)
    requires forall s :: s in symbols ==> s in rank && rank[s] == Based(base, damping, f(s))
    ensures SumRanks(rank, symbols) == Total(|symbols|, base, damping, Sum(symbols, f))
  {
    if symbols != [] {
      var k := |symbols| - 1;
      assert symbols[k] in symbols;
      assert forall s :: s in symbols[..k] ==> s in symbols;
      DampedSum(symbols[..k], rank, base, damping, f);
      OneMoreShare(k, base, damping, Sum(symbols[..k], f), f(symbols[k]));
    }
  }

  /** The teleported share plus a damped amount. */
  function Mix(damping: real, amount: real): real { 1.0 - damping + damping * amount }

  lemma TotalIsMix(n: nat, damping: real, amount: real)
    requires n > 0
    ensures Total(n, (1.0 - damping) / n as real, damping, amount) == Mix(damping, amount)
  {
    Spread(n, 1.0 - damping);
  }

  /** The mass after a step is the base amount plus the damped emission. */
  lemma StepMass(g: Graph, damping: real, rank: map<string, real>)
    requires NoDup(g.symbols) && TargetsKnown(g) && g.symbols != []
    ensures Mass(g, Step(g, damping, rank)) == Mix(damping, Emitted(rank, g.nodes))
  {
    DampedSum(g.symbols, Step(g, damping, rank), (1.0 - damping) / |g.symbols| as real, damping, Received(rank, g.nodes));
    ReceivedIsEmitted(g.symbols, rank, g.nodes);
    TotalIsMix(|g.symbols|, damping, Emitted(rank, g.nodes));
  }

  // ----- what is emitted

  /** The rank of definitions whose node votes for nobody: it is lost. */
  function Dangling(rank: map<string, real>, nodes: seq<Node>): real {
    if nodes == [] then 0.0
    else
      var n := nodes[|nodes| - 1];
      Dangling(rank, nodes[..|nodes| - 1]) + if n.targets == [] then SumRanks(rank, n.defs) else 0.0
  }

  predicate IsVoiceless(n: Node) { n.defs == [] && n.targets != [] }

  /** The nodes that define nothing and vote all the same. */
  function Voiceless(nodes: seq<Node>): nat {
    if nodes == [] then 0 else Voiceless(nodes[..|nodes| - 1]) + if IsVoiceless(nodes[|nodes| - 1]) then 1 else 0
  }

  /** Each of them adds the token amount. */
  function TokenMass(nodes: seq<Node>): real { Times(NO_RANK, Voiceless(nodes)) }

  ghost predicate Positive(g: Graph, rank: map<string, real>) {
    forall s :: s in g.symbols ==> s in rank && rank[s] > 0.0
  }

  lemma {:induction false} SumRanksAppend(rank: map<string, real>, a: seq<string>, b: seq<string>)
    ensures SumRanks(rank, a + b) == SumRanks(rank, a) + SumRanks(rank, b)
  {
    if b == [] {
      assert a + b == a;
    } else {
      assert (a + b)[..|a + b| - 1] == a + b[..|b| - 1];
      SumRanksAppend(rank, a, b[..|b| - 1]);
    }
  }

  lemma {:induction false} SumOfPositive(rank: map<string, real>, symbols: seq<string>)
    requires forall s :: s in symbols ==> s in rank && rank[s] > 0.0
    ensures SumRanks(rank, symbols) >= 0.0 && (symbols != [] ==> SumRanks(rank, symbols) > 0.0)
  {
    if symbols != [] {
      assert symbols[|symbols| - 1] in symbols;
      assert forall s :: s in symbols[..|symbols| - 1] ==> s in symbols;
      SumOfPositive(rank, symbols[..|symbols| - 1]);
    }
  }

  lemma NodeEmission(rank: map<string, real>, n: Node)
    requires forall s :: s in n.defs ==> s in rank && rank[s] > 0.0
    ensures RankOfPath(rank, n.defs) == SumRanks(rank, n.defs) + if n.defs == [] then NO_RANK else 0.0
    ensures SumRanks(rank, n.defs) >= 0.0
  {
    SumOfPositive(rank, n.defs);
  }

  lemma {:induction false} EmissionBalance(rank: map<string, real>, nodes: seq<Node>)
    requires forall s :: s in AllDefs(nodes) ==> s in rank && rank[s] > 0.0
    ensures Emitted(rank, nodes) == SumRanks(rank, AllDefs(nodes)) - Dangling(rank, nodes) + TokenMass(nodes)
    ensures Dangling(rank, nodes) >= 0.0
  {
    if nodes != [] {
      var k := |nodes| - 1;
      var n := nodes[k];
      assert forall s :: s in AllDefs(nodes[..k]) || s in n.defs ==> s in AllDefs(nodes);
      EmissionBalance(rank, nodes[..k]);
      SumRanksAppend(rank, AllDefs(nodes[..k]), n.defs);
      NodeEmission(rank, n);
    }
  }

  /** The rank of a symbol for each definition beyond the first; without any definition it is missed. */
  function Repeated(rank: map<string, real>, defs: seq<string>): string -> real {
    (s: string) => Times(Get(rank, s), Count(defs, s)) - Get(rank, s)
  }

  /** What repeated definitions emit on top, and undefined symbols do not. */
  function Extra(g: Graph, rank: map<string, real>): real { Sum(g.symbols, Repeated(rank, AllDefs(g.nodes))) }

  function Weighted(rank: map<string, real>, defs: seq<string>): string -> real {
    (s: string) => Times(Get(rank, s), Count(defs, s))
  }

  lemma {:induction false} WeightedSum(symbols: seq<string>, rank: map<string, real>, defs: seq<string>)
    requires NoDup(symbols) && forall s :: s in defs ==> s in symbols
    ensures Sum(symbols, Weighted(rank, defs)) == SumRanks(rank, defs)
  {
    if defs == [] {
      SumZero(symbols, Weighted(rank, defs));
    } else {
      var k := |defs| - 1;
      var last := defs[k];
      assert last in defs && forall s :: s in defs[..k] ==> s in defs;
      WeightedSum(symbols, rank, defs[..k]);
      SumOnly(symbols, last, Get(rank, last));
      SumOf(symbols, Weighted(rank, defs[..k]), Only(last, Get(rank, last)), Weighted(rank, defs));
    }
  }

  lemma {:induction false} MassIsSum(symbols: seq<string>, rank: map<string, real>)
    ensures Sum(symbols, (s: string) => Get(rank, s)) == SumRanks(rank, symbols)
  {
    if symbols != [] { MassIsSum(symbols[..|symbols| - 1], rank); }
  }

  lemma DefinedRank(g: Graph, rank: map<string, real>)
    requires WellDefined(g)
    ensures SumRanks(rank, AllDefs(g.nodes)) == Mass(g, rank) + Extra(g, rank)
  {
    var defs := AllDefs(g.nodes);
    WeightedSum(g.symbols, rank, defs);
    MassIsSum(g.symbols, rank);
    SumOf(g.symbols, (s: string) => Get(rank, s), Repeated(rank, defs), Weighted(rank, defs));
  }

  /** What circulates in one iteration: the rank that was there, with what definitions repeat, less what dangles, plus
      the token amounts. */
  function Circulating(g: Graph, rank: map<string, real>): real {
    Mass(g, rank) + Extra(g, rank) - Dangling(rank, g.nodes) + TokenMass(g.nodes)
  }

  /** The balance of one iteration, exactly, whoever defines what: the teleported share plus the damped circulating
      amount. */
  lemma StepBalance(g: Graph, damping: real, rank: map<string, real>)
    requires WellDefined(g) && TargetsKnown(g) && g.symbols != [] && Positive(g, rank)
    ensures Mass(g, Step(g, damping, rank)) == Mix(damping, Circulating(g, rank))
    ensures Dangling(rank, g.nodes) >= 0.0
  {
    StepMass(g, damping, rank);
    EmissionBalance(rank, g.nodes);
    DefinedRank(g, rank);
  }

  /** From a total of 1 an iteration exceeds 1 if and only if what definitions repeat and the token amounts outweigh what
      dangles, and keeps 1 if and only if they balance. */
  lemma MassGrowsIff(g: Graph, damping: real, rank: map<string, real>)
    requires WellDefined(g) && TargetsKnown(g) && g.symbols != [] && Positive(g, rank) && damping > 0.0
    requires Mass(g, rank) == 1.0
    ensures Mass(g, Step(g, damping, rank)) > 1.0 <==> Extra(g, rank) + TokenMass(g.nodes) > Dangling(rank, g.nodes)
    ensures Mass(g, Step(g, damping, rank)) == 1.0 <==> Extra(g, rank) + TokenMass(g.nodes) == Dangling(rank, g.nodes)
  {
    StepBalance(g, damping, rank);
    MixOfOne(damping, Extra(g, rank) - Dangling(rank, g.nodes) + TokenMass(g.nodes));
  }

  lemma MixOfOne(damping: real, x: real)
    requires damping > 0.0
    ensures Mix(damping, 1.0 + x) > 1.0 <==> x > 0.0
    ensures Mix(damping, 1.0 + x) == 1.0 <==> x == 0.0
  {
    assert Mix(damping, 1.0 + x) == 1.0 + damping * x;
    if x > 0.0 { assert damping * x > 0.0; } else if x < 0.0 { assert damping * x < 0.0; }
  }

  lemma {:induction false} CountOnce(symbols: seq<string>, s: string)
    requires NoDup(symbols)
    ensures Count(symbols, s) == if s in symbols then 1 else 0
  {
    if symbols != [] {
      var k := |symbols| - 1;
      CountOnce(symbols[..k], s);
      assert symbols == symbols[..k] + [symbols[k]];
    }
  }

  lemma NothingRepeats(g: Graph, rank: map<string, real>)
    requires Partitioned(g)
    ensures WellDefined(g) && Extra(g, rank) == 0.0
  {
    forall s | s in g.symbols
      ensures Repeated(rank, AllDefs(g.nodes))(s) == 0.0
    {
      CountOnce(g.symbols, s);
      assert Times(Get(rank, s), 1) == Times(Get(rank, s), 0) + Get(rank, s);
    }
    SumZero(g.symbols, Repeated(rank, AllDefs(g.nodes)));
  }

  // ----- every iteration

  lemma {:induction false} TimesIsNonNegative(x: real, n: nat)
    requires x >= 0.0
    ensures Times(x, n) >= 0.0
  {
    if n > 0 { TimesIsNonNegative(x, n - 1); }
  }

  lemma ShareIsNonNegative(rank: map<string, real>, n: Node)
    requires forall s :: s in n.defs ==> s in rank && rank[s] > 0.0
    ensures Share(rank, n) >= 0.0
  {
    NodeEmission(rank, n);
  }

  lemma {:induction false} IncomingIsNonNegative(rank: map<string, real>, nodes: seq<Node>, s: string)
    requires forall t :: t in AllDefs(nodes) ==> t in rank && rank[t] > 0.0
    ensures Incoming(rank, nodes, s) >= 0.0
  {
    if nodes != [] {
      var k := |nodes| - 1;
      var n := nodes[k];
      assert forall t :: t in AllDefs(nodes[..k]) || t in n.defs ==> t in AllDefs(nodes);
      IncomingIsNonNegative(rank, nodes[..k], s);
      ShareIsNonNegative(rank, n);
      TimesIsNonNegative(Share(rank, n), Count(n.targets, s));
    }
  }

  lemma DampedFloor(damping: real, n: nat, incoming: real)
    requires 0.0 <= damping < 1.0 && n > 0 && incoming >= 0.0
    ensures 0.0 < (1.0 - damping) / n as real <= Damped(damping, n, incoming)
    ensures (1.0 - damping) / n as real <= 1.0 / n as real
  {
    assert damping * incoming >= 0.0;
  }

  ghost predicate AboveFloor(g: Graph, damping: real, rank: map<string, real>)
    requires g.symbols != []
  {
    forall s :: s in g.symbols ==> s in rank && rank[s] >= (1.0 - damping) / |g.symbols| as real
  }

  lemma StepHasFloor(g: Graph, damping: real, rank: map<string, real>)
    requires WellDefined(g) && g.symbols != [] && 0.0 <= damping < 1.0 && Positive(g, rank)
    ensures AboveFloor(g, damping, Step(g, damping, rank))
  {
    forall s | s in g.symbols
      ensures Damped(damping, |g.symbols|, Incoming(rank, g.nodes, s)) >= (1.0 - damping) / |g.symbols| as real
    {
      IncomingIsNonNegative(rank, g.nodes, s);
      DampedFloor(damping, |g.symbols|, Incoming(rank, g.nodes, s));
    }
  }

  /** Every rank is at least the teleported amount, after every iteration. */
  lemma {:induction false} RanksHaveFloor(g: Graph, damping: real, iterations: nat)
    requires WellDefined(g) && g.symbols != [] && 0.0 <= damping < 1.0
    ensures Positive(g, Iterate(g, damping, iterations)) && AboveFloor(g, damping, Iterate(g, damping, iterations))
  {
    DampedFloor(damping, |g.symbols|, 0.0);
    if iterations > 0 {
      RanksHaveFloor(g, damping, iterations - 1);
      StepHasFloor(g, damping, Iterate(g, damping, iterations - 1));
    }
  }

  lemma {:induction false} UniformSum(rank: map<string, real>, symbols: seq<string>, x: real)
    requires forall s :: s in symbols ==> s in rank && rank[s] == x
    ensures SumRanks(rank, symbols) == |symbols| as real * x
  {
    if symbols != [] {
      var k := |symbols| - 1;
      assert symbols[k] in symbols;
      assert forall s :: s in symbols[..k] ==> s in symbols;
      UniformSum(rank, symbols[..k], x);
    }
  }

  lemma UniformMass(g: Graph)
    requires g.symbols != []
    ensures Mass(g, Uniform(g.symbols)) == 1.0
  {
    UniformSum(Uniform(g.symbols), g.symbols, 1.0 / |g.symbols| as real);
  }

  lemma ScaledBound(a: real, x: real, y: real)
    requires a >= 0.0 && x <= y
    ensures a * x <= a * y
  {
  }

  /** `q` is the fixed point of the surplus: what the token amounts add, amplified by the damping. */
  lemma BoundStep(damping: real, mass: real, extra: real, q: real)
    requires 0.0 <= damping < 1.0 && q * (1.0 - damping) == extra * damping && mass <= 1.0 + q
    ensures Mix(damping, mass + extra) <= 1.0 + q
  {
    ScaledBound(damping, mass, 1.0 + q);
    assert damping * (1.0 + q) == damping + damping * q;
    assert q * (1.0 - damping) == q - damping * q;
    assert damping * (mass + extra) == damping * mass + damping * extra;
  }

  lemma {:induction false} MassIsBoundedBy(g: Graph, damping: real, iterations: nat, q: real)
    requires Partitioned(g) && TargetsKnown(g) && g.symbols != [] && 0.0 <= damping < 1.0
    requires q >= 0.0 && q * (1.0 - damping) == TokenMass(g.nodes) * damping
    ensures Mass(g, Iterate(g, damping, iterations)) <= 1.0 + q
  {
    if iterations == 0 {
      UniformMass(g);
    } else {
      MassIsBoundedBy(g, damping, iterations - 1, q);
      BoundedStep(g, damping, iterations, q);
    }
  }

  lemma StepStaysBounded(g: Graph, damping: real, rank: map<string, real>, q: real)
    requires Partitioned(g) && TargetsKnown(g) && g.symbols != [] && 0.0 <= damping < 1.0 && Positive(g, rank)
    requires q * (1.0 - damping) == TokenMass(g.nodes) * damping && Mass(g, rank) <= 1.0 + q
    ensures Mass(g, Step(g, damping, rank)) <= 1.0 + q
  {
    NothingRepeats(g, rank);
    StepBalance(g, damping, rank);
    BoundStep(damping, Mass(g, rank) - Dangling(rank, g.nodes), TokenMass(g.nodes), q);
  }

  lemma BoundedStep(g: Graph, damping: real, iterations: nat, q: real)
    requires Partitioned(g) && TargetsKnown(g) && g.symbols != [] && 0.0 <= damping < 1.0 && iterations > 0
    requires q * (1.0 - damping) == TokenMass(g.nodes) * damping
    requires Mass(g, Iterate(g, damping, iterations - 1)) <= 1.0 + q
    ensures Mass(g, Iterate(g, damping, iterations)) <= 1.0 + q
  {
    assert WellDefined(g);
    RanksHaveFloor(g, damping, iterations - 1);
    StepStaysBounded(g, damping, Iterate(g, damping, iterations - 1), q);
  }

  lemma Quotient(a: real, b: real)
    requires a >= 0.0 && b > 0.0
    ensures a / b * b == a && a / b >= 0.0
  {
  }

  /** The most that the token amounts can add up to: each one amplified by d / (1 - d). */
  function Surplus(g: Graph, damping: real): real
    requires damping < 1.0
  {
    TokenMass(g.nodes) * damping / (1.0 - damping)
  }

  /** Rank is bounded: after every iteration the total is at most 1, plus the token amounts of the voiceless nodes
      amplified by at most d / (1 - d). */
  lemma MassIsBounded(g: Graph, damping: real, iterations: nat)
    requires Partitioned(g) && TargetsKnown(g) && g.symbols != [] && 0.0 <= damping < 1.0
    ensures Mass(g, Iterate(g, damping, iterations)) <= 1.0 + Surplus(g, damping)
    ensures TokenMass(g.nodes) == NO_RANK * Voiceless(g.nodes) as real
  {
    TimesIsNonNegative(NO_RANK, Voiceless(g.nodes));
    TimesIsProduct(NO_RANK, Voiceless(g.nodes));
    Quotient(TokenMass(g.nodes) * damping, 1.0 - damping);
    MassIsBoundedBy(g, damping, iterations, Surplus(g, damping));
  }

  /** Every defining node votes, and every voting node defines. */
  ghost predicate Closed(g: Graph) {
    forall i :: 0 <= i < |g.nodes| ==> (g.nodes[i].defs == [] <==> g.nodes[i].targets == [])
  }

  lemma {:induction false} ClosedLosesNothing(rank: map<string, real>, nodes: seq<Node>)
    requires forall i :: 0 <= i < |nodes| ==> (nodes[i].defs == [] <==> nodes[i].targets == [])
    ensures Dangling(rank, nodes) == 0.0 && Voiceless(nodes) == 0
  {
    if nodes != [] { ClosedLosesNothing(rank, nodes[..|nodes| - 1]); }
  }

  lemma ClosedCirculates(g: Graph, rank: map<string, real>)
    requires Closed(g) && Partitioned(g)
    ensures Circulating(g, rank) == Mass(g, rank)
  {
    NothingRepeats(g, rank);
    ClosedLosesNothing(rank, g.nodes);
  }

  lemma ConservedStep(g: Graph, damping: real, rank: map<string, real>)
    requires Partitioned(g) && TargetsKnown(g) && g.symbols != [] && Closed(g) && Positive(g, rank)
    requires Mass(g, rank) == 1.0
    ensures Mass(g, Step(g, damping, rank)) == 1.0
  {
    ClosedCirculates(g, rank);
    NothingRepeats(g, rank);
    StepBalance(g, damping, rank);
    assert Mix(damping, 1.0) == 1.0;
  }

  /** Rank is conserved: when every defining file votes and no other does, the total stays exactly 1. */
  lemma {:induction false} MassIsConserved(g: Graph, damping: real, iterations: nat)
    requires Partitioned(g) && TargetsKnown(g) && g.symbols != [] && 0.0 <= damping < 1.0 && Closed(g)
    ensures Mass(g, Iterate(g, damping, iterations)) == 1.0
  {
    if iterations == 0 {
      UniformMass(g);
    } else {
      MassIsConserved(g, damping, iterations - 1);
      assert WellDefined(g);
      RanksHaveFloor(g, damping, iterations - 1);
      ConservedStep(g, damping, Iterate(g, damping, iterations - 1));
    }
  }

  // ----- the graph of a repository

  /** No file lists a definition twice and no two files share one. */
  ghost predicate DisjointDefinitions(files: seq<RepoFile>) {
    && (forall i :: 0 <= i < |files| ==> NoDup(files[i].defs))
    && (forall i, j, s :: 0 <= i < j < |files| && s in files[i].defs ==> s !in files[j].defs)
  }

  ghost predicate DistinctPaths(files: seq<RepoFile>) {
    forall i, j :: 0 <= i < j < |files| ==> files[i].path != files[j].path
  }

  function Definitions(files: seq<RepoFile>): seq<string> {
    if files == [] then [] else Definitions(files[..|files| - 1]) + files[|files| - 1].defs
  }

  lemma {:induction false} AddAllNew(seen: seq<string>, more: seq<string>)
    requires NoDup(more) && forall x :: x in more ==> x !in seen
    ensures AddNew(seen, more) == seen + more
  {
    if more != [] {
      var k := |more| - 1;
      assert more == more[..k] + [more[k]];
      assert forall x :: x in more[..k] ==> x in more;
      AddAllNew(seen, more[..k]);
    }
  }

  lemma {:induction false} DefinitionMembers(files: seq<RepoFile>)
    ensures forall s :: s in Definitions(files) ==> exists i :: 0 <= i < |files| && s in files[i].defs
  {
    if files != [] {
      var k := |files| - 1;
      DefinitionMembers(files[..k]);
      forall s | s in Definitions(files)
        ensures exists i :: 0 <= i < |files| && s in files[i].defs
      {
        if s in Definitions(files[..k]) {
          var i :| 0 <= i < k && s in files[..k][i].defs;
          assert s in files[i].defs;
        } else {
          assert s in files[k].defs;
        }
      }
    }
  }

  lemma NoDupAppend(a: seq<string>, b: seq<string>)
    requires NoDup(a) && NoDup(b) && forall s :: s in b ==> s !in a
    ensures NoDup(a + b)
  {
    forall i, j | 0 <= i < j < |a + b|
      ensures (a + b)[i] != (a + b)[j]
    {
      if i < |a| <= j { assert a[i] in a && b[j - |a|] in b; }
    }
  }

  lemma {:induction false} SymbolsAreDefinitions(files: seq<RepoFile>)
    requires DisjointDefinitions(files)
    ensures Symbols(files) == Definitions(files) && NoDup(Definitions(files))
  {
    if files != [] {
      var k := |files| - 1;
      var before, f := files[..k], files[k];
      assert DisjointDefinitions(before);
      SymbolsAreDefinitions(before);
      DefinitionMembers(before);
      forall s | s in f.defs
        ensures s !in Definitions(before)
      {
        assert forall i :: 0 <= i < k ==> before[i] == files[i] && s !in files[i].defs;
      }
      AddAllNew(Symbols(before), f.defs);
      NoDupAppend(Definitions(before), f.defs);
    }
  }

  lemma {:induction false} PathsAreAll(files: seq<RepoFile>)
    requires DistinctPaths(files)
    ensures |Paths(files)| == |files| && forall i :: 0 <= i < |files| ==> Paths(files)[i] == files[i].path
  {
    if files != [] {
      var k := |files| - 1;
      PathsAreAll(files[..k]);
      AddOne(Paths(files[..k]), files[k].path);
    }
  }

  lemma {:induction false} DefsOfOwn(files: seq<RepoFile>, i: nat)
    requires DistinctPaths(files) && i < |files|
    ensures DefsOf(files, files[i].path) == files[i].defs
  {
    var k := |files| - 1;
    if i < k {
      assert files[..k][i] == files[i];
      DefsOfOwn(files[..k], i);
    }
  }

  lemma {:induction false} NodeDefinitions(files: seq<RepoFile>, nodes: seq<Node>)
    requires |nodes| == |files| && forall i :: 0 <= i < |files| ==> nodes[i].defs == files[i].defs
    ensures AllDefs(nodes) == Definitions(files)
  {
    if files != [] { NodeDefinitions(files[..|files| - 1], nodes[..|nodes| - 1]); }
  }

  /** Distinct paths and disjoint definitions make the graph one in which every symbol has exactly one defining node. */
  lemma RepositoryIsPartitioned(files: seq<RepoFile>)
    requires DistinctPaths(files) && DisjointDefinitions(files)
    ensures Partitioned(GraphOf(files)) && TargetsKnown(GraphOf(files))
  {
    var g := GraphOf(files);
    SymbolsAreDefinitions(files);
    PathsAreAll(files);
    forall i | 0 <= i < |files|
      ensures g.nodes[i].defs == files[i].defs
    {
      DefsOfOwn(files, i);
    }
    NodeDefinitions(files, g.nodes);
    GraphTargetsKnown(files);
  }

  lemma {:induction false} AddNewOnce(seen: seq<string>, more: seq<string>)
    requires NoDup(seen)
    ensures NoDup(AddNew(seen, more))
  {
    if more != [] {
      var k := |more| - 1;
      AddNewOnce(seen, more[..k]);
      if more[k] !in AddNew(seen, more[..k]) { NoDupAppend(AddNew(seen, more[..k]), [more[k]]); }
    }
  }

  lemma {:induction false} SymbolsListAll(files: seq<RepoFile>)
    ensures NoDup(Symbols(files)) && forall i, s :: 0 <= i < |files| && s in files[i].defs ==> s in Symbols(files)
  {
    if files != [] {
      var k := |files| - 1;
      SymbolsListAll(files[..k]);
      AddNewMembers(Symbols(files[..k]), files[k].defs);
      AddNewOnce(Symbols(files[..k]), files[k].defs);
      assert forall i :: 0 <= i < k ==> files[..k][i] == files[i];
    }
  }

  lemma {:induction false} RecordedDefinitions(files: seq<RepoFile>, path: string)
    ensures forall s :: s in DefsOf(files, path) ==> exists i :: 0 <= i < |files| && s in files[i].defs
  {
    if files != [] && files[|files| - 1].path != path { RecordedDefinitions(files[..|files| - 1], path); }
  }

  lemma {:induction false} AllDefsMembers(nodes: seq<Node>, symbols: seq<string>)
    requires forall i, s :: 0 <= i < |nodes| && s in nodes[i].defs ==> s in symbols
    ensures forall s :: s in AllDefs(nodes) ==> s in symbols
  {
    if nodes != [] { AllDefsMembers(nodes[..|nodes| - 1], symbols); }
  }

  /** The graph of any repository lists each symbol once and has only known definitions and targets, even where files
      share paths or definitions. */
  lemma RepositoryIsWellDefined(files: seq<RepoFile>)
    ensures WellDefined(GraphOf(files)) && TargetsKnown(GraphOf(files))
  {
    var g := GraphOf(files);
    SymbolsListAll(files);
    forall i, s | 0 <= i < |g.nodes| && s in g.nodes[i].defs
      ensures s in g.symbols
    {
      RecordedDefinitions(files, Paths(files)[i]);
    }
    AllDefsMembers(g.nodes, g.symbols);
    GraphTargetsKnown(files);
  }

  /** The ranking is sorted, has one entry for each defined symbol, and names for it the file that defines it and the
      rank it ended with. */
  lemma RankingIsComplete(files: seq<RepoFile>, damping: real, iterations: nat)
    ensures var ranked, rank := RankSymbolsSpec(files, damping, iterations), Iterate(GraphOf(files), damping, iterations);
      && SortedBy(ranked, ByRank()) && |ranked| == |Symbols(files)|
      && (forall r :: r in ranked <==> r.name in Symbols(files) && Owner(files, r.name) == Some(r.path) && r.rank == Get(rank, r.name))
  {
    var rank := Iterate(GraphOf(files), damping, iterations);
    var unsorted := Unsorted(files, Symbols(files), rank);
    var ranked := Sort(unsorted, ByRank());
    SortSorts(unsorted, ByRank());
    SortKeepsElements(unsorted, ByRank());
    SymbolsAreOwned(files);
    forall r
      ensures r in ranked <==> r.name in Symbols(files) && Owner(files, r.name) == Some(r.path) && r.rank == Get(rank, r.name)
    {
      assert r in multiset(ranked) <==> r in multiset(unsorted);
      if r in unsorted {
        var i :| 0 <= i < |unsorted| && unsorted[i] == r;
        assert Symbols(files)[i] in Symbols(files);
      }
      if r.name in Symbols(files) && Owner(files, r.name) == Some(r.path) && r.rank == Get(rank, r.name) {
        var i :| 0 <= i < |Symbols(files)| && Symbols(files)[i] == r.name;
        assert unsorted[i] == r;
      }
    }
  }

  /** For every repository, every rank is at least (1 - d) / n, after any number of iterations, and each iteration
      balances exactly. */
  lemma RepositoryBalance(files: seq<RepoFile>, damping: real, iterations: nat)
    requires 0.0 <= damping < 1.0 && Symbols(files) != []
    ensures var g := GraphOf(files); var rank := Iterate(g, damping, iterations);
      && AboveFloor(g, damping, rank)
      && Mass(g, Step(g, damping, rank)) == Mix(damping, Circulating(g, rank))
  {
    RepositoryIsWellDefined(files);
    RanksHaveFloor(GraphOf(files), damping, iterations);
    StepBalance(GraphOf(files), damping, Iterate(GraphOf(files), damping, iterations));
  }

  /** For a repository with distinct paths and disjoint definitions the total is at most 1 plus the amplified token
      amounts, after any number of iterations. */
  lemma RepositoryRanksAreBounded(files: seq<RepoFile>, damping: real, iterations: nat)
    requires DistinctPaths(files) && DisjointDefinitions(files) && 0.0 <= damping < 1.0 && Symbols(files) != []
    ensures var g := GraphOf(files); Mass(g, Iterate(g, damping, iterations)) <= 1.0 + Surplus(g, damping)
  {
    RepositoryIsPartitioned(files);
    MassIsBounded(GraphOf(files), damping, iterations);
  }

  // ----- disjointness is needed

  /** An instance: a symbol that two files define is emitted by both, nothing dangles, and one iteration exceeds 1. */
  lemma SharedDefinitionGainsMass(damping: real)
    requires 0.0 < damping < 1.0
    ensures var g := GraphOf([RepoFile("a", ["x"], ["y"]), RepoFile("b", ["x", "y"], ["x"])]);
      Voiceless(g.nodes) == 0 && Mass(g, Iterate(g, damping, 1)) > 1.0
  {
    SharedGraph(RepoFile("a", ["x"], ["y"]), RepoFile("b", ["x", "y"], ["x"]));
    SharedMass(Node("a", ["x"], ["y"]), Node("b", ["x", "y"], ["x"]), damping);
    MixGains(damping);
  }

  lemma SharedMass(na: Node, nb: Node, damping: real)
    requires na == Node("a", ["x"], ["y"]) && nb == Node("b", ["x", "y"], ["x"])
    ensures var g := Graph(["x", "y"], [na, nb]);
      Voiceless(g.nodes) == 0 && Mass(g, Iterate(g, damping, 1)) == Mix(damping, 1.5)
  {
    var g := Graph(["x", "y"], [na, nb]);
    var rank := Uniform(g.symbols);
    SharedEmission(rank, na, nb);
    StepMass(g, damping, rank);
    assert Iterate(g, damping, 0) == rank;
    assert [na, nb][..1] == [na] && [na][..0] == [];
    assert Voiceless([na]) == 0;
  }

  lemma MixGains(damping: real)
    requires damping > 0.0
    ensures Mix(damping, 1.5) > 1.0
  {
  }

  lemma SharedEmission(rank: map<string, real>, na: Node, nb: Node)
    requires rank == map["x" := 0.5, "y" := 0.5]
    requires na == Node("a", ["x"], ["y"]) && nb == Node("b", ["x", "y"], ["x"])
    ensures Emitted(rank, [na, nb]) == 1.5
  {
    assert [na, nb][..1] == [na] && [na][..0] == [];
    assert ["x"][..0] == [] && ["x", "y"][..1] == ["x"];
    assert SumRanks(rank, ["x"]) == 0.5;
    assert SumRanks(rank, ["x", "y"]) == 1.0;
    assert Emitted(rank, [na]) == 0.5;
  }

  lemma SharedGraph(a: RepoFile, b: RepoFile)
    requires a == RepoFile("a", ["x"], ["y"]) && b == RepoFile("b", ["x", "y"], ["x"])
    ensures GraphOf([a, b]) == Graph(["x", "y"], [Node("a", ["x"], ["y"]), Node("b", ["x", "y"], ["x"])])
  {
    SharedSymbols(a, b);
    SharedPaths(a, b);
    SharedNodes(a, b);
  }

  lemma SharedPaths(a: RepoFile, b: RepoFile)
    requires a.path == "a" && b.path == "b"
    ensures Paths([a, b]) == ["a", "b"]
  {
    assert [a, b][..1] == [a] && [a][..0] == [];
    AddOne([], "a");
    AddOne(["a"], "b");
    assert Paths([a]) == ["a"];
  }

  lemma SharedRefs(a: RepoFile, b: RepoFile)
    requires a == RepoFile("a", ["x"], ["y"]) && b == RepoFile("b", ["x", "y"], ["x"])
    ensures CrossRefs([a, b], "a", ["y"]) == ["y"] && CrossRefs([a, b], "b", ["x"]) == ["x"]
  {
    var files := [a, b];
    assert files[1..] == [b];
    assert Owner([b], "y") == Some("b") && Owner(files, "y") == Some("b") && Owner(files, "x") == Some("a");
    assert ["x"][..0] == [] && ["y"][..0] == [];
  }

  lemma SharedNodes(a: RepoFile, b: RepoFile)
    requires a == RepoFile("a", ["x"], ["y"]) && b == RepoFile("b", ["x", "y"], ["x"])
    ensures NodeOf([a, b], "a") == Node("a", ["x"], ["y"]) && NodeOf([a, b], "b") == Node("b", ["x", "y"], ["x"])
  {
    var files := [a, b];
    assert files[..1] == [a] && [a][..0] == [];
    SharedRefs(a, b);
    assert EdgesOf(files, [a], "a") == ["y"] && EdgesOf(files, [a], "b") == [];
    assert DefsOf([a], "a") == ["x"] && DefsOf(files, "a") == ["x"];
    assert EdgesOf(files, files, "a") == ["y"] + [] && EdgesOf(files, files, "b") == [] + ["x"];
  }

  lemma SharedSymbols(a: RepoFile, b: RepoFile)
    requires a.defs == ["x"] && b.defs == ["x", "y"]
    ensures Symbols([a, b]) == ["x", "y"]
  {
    assert [a, b][..1] == [a] && [a][..0] == [];
    AddOne([], "x");
    AddOne(["x"], "x");
    assert ["x", "y"][..1] == ["x"];
    assert AddNew(["x"], ["x", "y"]) == ["x", "y"];
    assert Symbols([a]) == ["x"];
  }
}
