/** The band is the best one there is: no selection of the same size that meets every source's floor carries more
    salience. The proof exchanges records along the ranking: above the cut the band holds everything, below it only
    floor picks, and any rival must hold at least as many records of each source there. */
module MemoryBandOptimality {
  import opened Sorting
  import opened MemoryBand

  ghost predicate DistinctIds(s: seq<Record>) {
    forall i, j :: 0 <= i < j < |s| ==> s[i].id != s[j].id
  }

  ghost predicate NoDup<T(!new)>(s: seq<T>) {
    forall i, j :: 0 <= i < j < |s| ==> s[i] != s[j]
  }

  // ----- totals over a sequence, and over the members of a set along a sequence

  function Salience(): Record -> real { (r: Record) => r.salience }
  function Excess(level: real): Record -> real { (r: Record) => r.salience - level }
  function IsFrom(s: Source): Record -> real { (r: Record) => if r.source == s then 1.0 else 0.0 }
  function One(): Record -> real { (r: Record) => 1.0 }

  function Total(s: seq<Record>, f: Record -> real): real {
    if s == [] then 0.0 else f(s[0]) + Total(s[1..], f)
  }

  function TotalSalience(s: seq<Record>): real { Total(s, Salience()) }

  ghost function SumIn(R: seq<Record>, S: set<Record>, f: Record -> real): real {
    if R == [] then 0.0 else (if R[0] in S then f(R[0]) else 0.0) + SumIn(R[1..], S, f)
  }

  ghost function Members(s: seq<Record>): set<Record> { set r | r in s }

  lemma {:induction false} SumInSplit(A: seq<Record>, B: seq<Record>, S: set<Record>, f: Record -> real)
    ensures SumIn(A + B, S, f) == SumIn(A, S, f) + SumIn(B, S, f)
  {
    if A == [] {
      assert A + B == B;
    } else {
      assert (A + B)[1..] == A[1..] + B;
      SumInSplit(A[1..], B, S, f);
    }
  }

  lemma {:induction false} SumInSame(R: seq<Record>, S: set<Record>, S': set<Record>, f: Record -> real)
    requires forall r :: r in R ==> (r in S <==> r in S')
    ensures SumIn(R, S, f) == SumIn(R, S', f)
  {
    if R != [] { SumInSame(R[1..], S, S', f); }
  }

  lemma {:induction false} SumInAdd(R: seq<Record>, S: set<Record>, a: Record, f: Record -> real)
    requires NoDup(R) && a in R && a !in S
    ensures SumIn(R, S + {a}, f) == SumIn(R, S, f) + f(a)
  {
    if R[0] == a {
      SumInSame(R[1..], S + {a}, S, f);
    } else {
      SumInAdd(R[1..], S, a, f);
    }
  }

  lemma {:induction false} SumInExcess(R: seq<Record>, S: set<Record>, level: real)
    ensures SumIn(R, S, Excess(level)) == SumIn(R, S, Salience()) - level * SumIn(R, S, One())
  {
    if R != [] { SumInExcess(R[1..], S, level); }
  }

  /** Along a duplicate-free ranking, a sub-collection's total is the sum over its members. */
  lemma {:induction false} SubTotal(R: seq<Record>, alt: seq<Record>, f: Record -> real)
    requires NoDup(R) && multiset(alt) <= multiset(R)
    ensures SumIn(R, Members(alt), f) == Total(alt, f)
  {
    if alt == [] {
      SumInNone(R, Members(alt), f);
    } else {
      assert alt == [alt[0]] + alt[1..];
      assert multiset(alt[1..]) <= multiset(R);
      AtMostOnce(R, alt[0]);
      assert alt[0] in multiset(alt) && alt[0] in multiset(R);
      assert multiset(alt)[alt[0]] == 1 + multiset(alt[1..])[alt[0]];
      assert alt[0] !in alt[1..];
      SubTotal(R, alt[1..], f);
      SumInAdd(R, Members(alt[1..]), alt[0], f);
      assert Members(alt) == Members(alt[1..]) + {alt[0]};
    }
  }

  lemma {:induction false} SumInNone(R: seq<Record>, S: set<Record>, f: Record -> real)
    requires forall r :: r in R && r in S ==> f(r) == 0.0
    ensures SumIn(R, S, f) == 0.0
  {
    if R != [] { SumInNone(R[1..], S, f); }
  }

  lemma {:induction false} AtMostOnce<T(!new)>(s: seq<T>, x: T)
    requires NoDup(s)
    ensures multiset(s)[x] <= 1
  {
    if s != [] {
      AtMostOnce(s[1..], x);
      assert s == [s[0]] + s[1..];
      if s[0] == x { assert x !in s[1..]; }
    }
  }

  lemma {:induction false} OnceEachIsNoDup<T(!new)>(s: seq<T>)
    requires forall x :: multiset(s)[x] <= 1
    ensures NoDup(s)
  {
    if s != [] {
      assert s == [s[0]] + s[1..];
      forall x
        ensures multiset(s[1..])[x] <= 1
      {
        assert multiset(s)[x] <= 1;
      }
      OnceEachIsNoDup(s[1..]);
      assert multiset(s)[s[0]] <= 1;
      assert s[0] !in multiset(s[1..]);
    }
  }

  // ----- counts per source

  lemma {:induction false} BucketSize(s: seq<Record>, src: Source)
    ensures |Bucket(s, src)| as real == Total(s, IsFrom(src))
  {
    if s != [] { BucketSize(s[1..], src); }
  }

  lemma {:induction false} BucketMultiplicity(s: seq<Record>, src: Source, r: Record)
    ensures multiset(Bucket(s, src))[r] == if r.source == src then multiset(s)[r] else 0
  {
    if s != [] {
      BucketMultiplicity(s[1..], src, r);
      assert s == [s[0]] + s[1..];
    }
  }

  lemma BucketSizeOfPermutation(a: seq<Record>, b: seq<Record>, src: Source)
    requires multiset(a) == multiset(b)
    ensures |Bucket(a, src)| == |Bucket(b, src)|
  {
    forall r
      ensures multiset(Bucket(a, src))[r] == multiset(Bucket(b, src))[r]
    {
      BucketMultiplicity(a, src, r);
      BucketMultiplicity(b, src, r);
    }
    assert multiset(Bucket(a, src)) == multiset(Bucket(b, src));
    assert |multiset(Bucket(a, src))| == |multiset(Bucket(b, src))|;
  }

  function BucketSizes(s: seq<Record>, sources: seq<Source>): nat {
    if sources == [] then 0 else |Bucket(s, sources[0])| + BucketSizes(s, sources[1..])
  }

  lemma {:induction false} BucketSizesOfOneMore(r: Record, s: seq<Record>, sources: seq<Source>)
    requires NoDup(sources)
    ensures BucketSizes([r] + s, sources) == BucketSizes(s, sources) + if r.source in sources then 1 else 0
  {
    if sources != [] {
      BucketSizesOfOneMore(r, s, sources[1..]);
      assert ([r] + s)[1..] == s;
    }
  }

  lemma {:induction false} SourcesCoverEverything(s: seq<Record>)
    ensures BucketSizes(s, SOURCE_ORDER) == |s|
  {
    if s == [] {
      NothingInBuckets(SOURCE_ORDER);
    } else {
      SourcesCoverEverything(s[1..]);
      BucketSizesOfOneMore(s[0], s[1..], SOURCE_ORDER);
      assert s == [s[0]] + s[1..];
      EverySourceListed(s[0].source);
    }
  }

  lemma EverySourceListed(s: Source)
    ensures s in SOURCE_ORDER && NoDup(SOURCE_ORDER)
  {
    assert s == SOURCE_ORDER[match s
      case BasicMemory => 0 case Episodic => 1 case FocusChain => 2 case Procedural => 3
      case Semantic => 4 case Session => 5 case Working => 6];
  }

  lemma {:induction false} NothingInBuckets(sources: seq<Source>)
    ensures BucketSizes([], sources) == 0
  {
    if sources != [] { NothingInBuckets(sources[1..]); }
  }

  // ----- the exchange argument

  /** If a later record of a source is a member, so is every earlier one of that source. */
  ghost predicate SourcePrefix(R: seq<Record>, S: set<Record>) {
    forall i, j :: 0 <= i < j < |R| && R[i].source == R[j].source && R[j] in S ==> R[i] in S
  }

  ghost predicate Descending(R: seq<Record>) {
    forall i, j :: 0 <= i < j < |R| ==> R[i].salience >= R[j].salience
  }

  lemma {:induction false} SomeMemberOf(R: seq<Record>, S: set<Record>, src: Source) returns (j: nat)
    requires SumIn(R, S, IsFrom(src)) > 0.0
    ensures j < |R| && R[j] in S && R[j].source == src
  {
    if R[0] in S && R[0].source == src {
      j := 0;
    } else {
      j := SomeMemberOf(R[1..], S, src);
      j := j + 1;
    }
  }

  lemma {:induction false} CountIsNonNegative(R: seq<Record>, S: set<Record>, src: Source)
    ensures SumIn(R, S, IsFrom(src)) >= 0.0
  {
    if R != [] { CountIsNonNegative(R[1..], S, src); }
  }

  ghost predicate CountsDominate(T: seq<Record>, S: set<Record>, F: set<Record>) {
    forall src :: SumIn(T, S, IsFrom(src)) >= SumIn(T, F, IsFrom(src))
  }

  /** Where every record is worth at most `level`, the cheapest way to meet the counts of `F` is `F` itself. */
  lemma {:induction false} TailDominates(T: seq<Record>, S: set<Record>, F: set<Record>, level: real)
    requires NoDup(T) && Descending(T) && SourcePrefix(T, F)
    requires forall r :: r in T ==> r.salience <= level
    requires CountsDominate(T, S, F)
    ensures SumIn(T, S, Excess(level)) <= SumIn(T, F, Excess(level))
    decreases |T|
  {
    if T != [] {
      var x, T' := T[0], T[1..];
      if x in F && x !in S {
        CountIsNonNegative(T', F, x.source);
        assert SumIn(T, S, IsFrom(x.source)) >= SumIn(T, F, IsFrom(x.source));
        var j := SomeMemberOf(T', S, x.source);
        var y := T'[j];
        var S' := S - {y};
        assert S' + {y} == S;
        SumInAdd(T', S', y, Excess(level));
        forall src
          ensures SumIn(T', S', IsFrom(src)) >= SumIn(T', F, IsFrom(src))
        {
          SumInAdd(T', S', y, IsFrom(src));
          assert SumIn(T, S, IsFrom(src)) >= SumIn(T, F, IsFrom(src));
        }
        TailDominates(T', S', F, level);
        assert y == T[j + 1];
      } else {
        forall src
          ensures SumIn(T', S, IsFrom(src)) >= SumIn(T', F, IsFrom(src))
        {
          assert SumIn(T, S, IsFrom(src)) >= SumIn(T, F, IsFrom(src));
          if x !in F && src == x.source {
            NoLaterPick(T, F);
            CountIsNonNegative(T', S, src);
          }
        }
        TailDominates(T', S, F, level);
      }
    }
  }

  lemma NoLaterPick(T: seq<Record>, F: set<Record>)
    requires T != [] && T[0] !in F && SourcePrefix(T, F)
    ensures SumIn(T[1..], F, IsFrom(T[0].source)) == 0.0
  {
    forall r | r in T[1..] && r in F
      ensures IsFrom(T[0].source)(r) == 0.0
    {
      var j :| 0 <= j < |T[1..]| && T[1..][j] == r;
      assert T[j + 1] == r;
    }
    SumInNone(T[1..], F, IsFrom(T[0].source));
  }

  lemma {:induction false} HeadDominates(H: seq<Record>, S: set<Record>, C: set<Record>, level: real)
    requires forall r :: r in H ==> r in C && r.salience >= level
    ensures SumIn(H, S, Excess(level)) <= SumIn(H, C, Excess(level))
  {
    if H != [] { HeadDominates(H[1..], S, C, level); }
  }

  lemma {:induction false} FullHeadCounts(H: seq<Record>, S: set<Record>, F: set<Record>, src: Source)
    requires forall r :: r in H && r.source == src ==> r in F
    ensures SumIn(H, S, IsFrom(src)) <= SumIn(H, F, IsFrom(src))
  {
    if H != [] { FullHeadCounts(H[1..], S, F, src); }
  }

  /** `C` holds everything before `cut`, and after it exactly the members of `F`. */
  ghost predicate CutAt(R: seq<Record>, C: set<Record>, F: set<Record>, cut: nat) {
    && cut <= |R|
    && (forall i :: 0 <= i < cut ==> R[i] in C)
    && (forall i :: cut <= i < |R| ==> (R[i] in C <==> R[i] in F))
  }

  lemma TailCounts(R: seq<Record>, S: set<Record>, F: set<Record>, cut: nat)
    requires cut <= |R| && SourcePrefix(R, F) && CountsDominate(R, S, F)
    ensures CountsDominate(R[cut..], S, F)
  {
    forall src
      ensures SumIn(R[cut..], S, IsFrom(src)) >= SumIn(R[cut..], F, IsFrom(src))
    {
      CountIsNonNegative(R[cut..], S, src);
      if SumIn(R[cut..], F, IsFrom(src)) > 0.0 {
        var j := SomeMemberOf(R[cut..], F, src);
        assert R[cut..][j] == R[cut + j];
        FullHeadCounts(R[..cut], S, F, src);
        assert R == R[..cut] + R[cut..];
        SumInSplit(R[..cut], R[cut..], S, IsFrom(src));
        SumInSplit(R[..cut], R[cut..], F, IsFrom(src));
        assert SumIn(R, S, IsFrom(src)) >= SumIn(R, F, IsFrom(src));
      }
    }
  }

  lemma SourcePrefixOfTail(R: seq<Record>, F: set<Record>, cut: nat)
    requires cut <= |R| && SourcePrefix(R, F)
    ensures SourcePrefix(R[cut..], F)
  {
    var T := R[cut..];
    forall i, j | 0 <= i < j < |T| && T[i].source == T[j].source && T[j] in F
      ensures T[i] in F
    {
      assert T[i] == R[cut + i] && T[j] == R[cut + j];
    }
  }

  lemma CutIsOptimalAbove(R: seq<Record>, S: set<Record>, C: set<Record>, F: set<Record>, cut: nat, level: real)
    requires NoDup(R) && Descending(R) && SourcePrefix(R, F) && CutAt(R, C, F, cut)
    requires CountsDominate(R, S, F)
    requires forall i :: 0 <= i < cut ==> R[i].salience >= level
    requires forall i :: cut <= i < |R| ==> R[i].salience <= level
    ensures SumIn(R, S, Excess(level)) <= SumIn(R, C, Excess(level))
  {
    var head, tail := R[..cut], R[cut..];
    assert R == head + tail;
    HeadDominates(head, S, C, level);
    TailCounts(R, S, F, cut);
    SourcePrefixOfTail(R, F, cut);
    TailDominates(tail, S, F, level);
    SumInSame(tail, C, F, Excess(level));
    SumInSplit(head, tail, S, Excess(level));
    SumInSplit(head, tail, C, Excess(level));
  }

  lemma CutIsOptimal(R: seq<Record>, S: set<Record>, C: set<Record>, F: set<Record>, cut: nat)
    requires NoDup(R) && Descending(R) && SourcePrefix(R, F) && CutAt(R, C, F, cut)
    requires CountsDominate(R, S, F)
    requires SumIn(R, S, One()) == SumIn(R, C, One())
    ensures SumIn(R, S, Salience()) <= SumIn(R, C, Salience())
  {
    var level := if cut < |R| then R[cut].salience else if R == [] then 0.0 else R[|R| - 1].salience;
    CutIsOptimalAbove(R, S, C, F, cut, level);
    SumInExcess(R, S, level);
    SumInExcess(R, C, level);
  }

  // ----- what the two passes choose

  ghost predicate DistinctFrom(R: seq<Record>, c: seq<Record>) {
    forall r, q :: r in R && q in c && r.id == q.id ==> r == q
  }

  /** The shape of the fill: everything up to a cut, and nothing new after it. */
  lemma {:induction false} FillShape(R: seq<Record>, c: seq<Record>, max: nat) returns (cut: nat)
    requires DistinctIds(R) && DistinctFrom(R, c)
    ensures CutAt(R, Members(Fill(R, c, max)), Members(c), cut)
    ensures |Fill(R, c, max)| >= max || cut == |R|
    ensures forall r :: r in Fill(R, c, max) ==> r in c || r in R
    ensures c <= Fill(R, c, max)
  {
    if R == [] || |c| >= max {
      cut := 0;
    } else {
      var c' := if R[0].id in Ids(c) then c else c + [R[0]];
      assert R[0] in c <==> R[0].id in Ids(c);
      forall i, j | 0 <= i < j < |R[1..]|
        ensures R[1..][i].id != R[1..][j].id
      {
        assert R[i + 1].id != R[j + 1].id;
      }
      cut := FillShape(R[1..], c', max);
      cut := cut + 1;
      var filled := Fill(R, c, max);
      var C := Members(filled);
      assert R[0] in c' && filled == Fill(R[1..], c', max) && c' <= filled;
      var k :| 0 <= k < |c'| && c'[k] == R[0];
      assert filled[k] == R[0];
      forall i | 0 <= i < |R|
        ensures i < cut ==> R[i] in C
        ensures i >= cut ==> (R[i] in C <==> R[i] in Members(c))
      {
        if i > 0 { assert R[i] == R[1..][i - 1]; }
      }
    }
  }

  lemma {:induction false} FillNoDup(R: seq<Record>, c: seq<Record>, max: nat)
    requires NoDup(c)
    ensures NoDup(Fill(R, c, max))
    ensures |c| <= max ==> |Fill(R, c, max)| <= max
  {
    if R != [] && |c| < max {
      FillNoDup(R[1..], if R[0].id in Ids(c) then c else c + [R[0]], max);
    }
  }

  // ----- what the floor pass picks

  lemma {:induction false} BucketMembers(R: seq<Record>, s: Source)
    ensures forall r :: r in Bucket(R, s) ==> r in R && r.source == s
  {
    if R != [] { BucketMembers(R[1..], s); }
  }

  lemma {:induction false} BucketPrefix(R: seq<Record>, s: Source, n: nat, i: nat, j: nat)
    requires NoDup(R) && i < j < |R| && R[i].source == R[j].source == s
    requires R[j] in Take(Bucket(R, s), n)
    ensures R[i] in Take(Bucket(R, s), n)
  {
    BucketMembers(R[1..], s);
    if R[0].source == s {
      assert Take(Bucket(R, s), n) == if n == 0 then [] else [R[0]] + Take(Bucket(R[1..], s), n - 1);
      if i > 0 {
        assert R[i] == R[1..][i - 1] && R[j] == R[1..][j - 1];
        BucketPrefix(R[1..], s, n - 1, i - 1, j - 1);
      }
    } else {
      assert R[i] == R[1..][i - 1] && R[j] == R[1..][j - 1];
      BucketPrefix(R[1..], s, n, i - 1, j - 1);
    }
  }

  lemma {:induction false} FloorPicksPrefix(R: seq<Record>, sources: seq<Source>, floor: nat, n: nat, i: nat, j: nat)
    requires NoDup(R) && i < j < |R| && R[i].source == R[j].source
    requires R[j] in Take(FloorPicks(R, sources, floor), n)
    ensures R[i] in Take(FloorPicks(R, sources, floor), n)
  {
    if sources != [] {
      var head, rest := Take(Bucket(R, sources[0]), floor), FloorPicks(R, sources[1..], floor);
      if |head| >= n {
        assert Take(head + rest, n) == Take(Bucket(R, sources[0]), Min(floor, n));
        BucketMembers(R, sources[0]);
        BucketPrefix(R, sources[0], Min(floor, n), i, j);
      } else {
        assert Take(head + rest, n) == head + Take(rest, n - |head|);
        if R[j] in head {
          BucketMembers(R, sources[0]);
          BucketPrefix(R, sources[0], floor, i, j);
        } else {
          FloorPicksPrefix(R, sources[1..], floor, n - |head|, i, j);
        }
      }
    }
  }

  /** What the floor pass picks of one source is the head of that source's bucket. */
  lemma {:induction false} FloorPicksOf(R: seq<Record>, sources: seq<Source>, floor: nat, s: Source)
    requires NoDup(sources)
    ensures Bucket(FloorPicks(R, sources, floor), s) == if s in sources then Take(Bucket(R, s), floor) else []
  {
    if sources != [] {
      var head := Take(Bucket(R, sources[0]), floor);
      FloorPicksOf(R, sources[1..], floor, s);
      BucketAppend(head, FloorPicks(R, sources[1..], floor), s);
      BucketMembers(R, sources[0]);
      BucketOfOneSource(head, sources[0], s);
    }
  }

  lemma {:induction false} BucketOfOneSource(b: seq<Record>, own: Source, s: Source)
    requires forall r :: r in b ==> r.source == own
    ensures Bucket(b, s) == if s == own then b else []
  {
    if b != [] { BucketOfOneSource(b[1..], own, s); }
  }

  lemma FloorPicksInRanking(R: seq<Record>, floor: nat)
    ensures multiset(FloorPicks(R, SOURCE_ORDER, floor)) <= multiset(R)
  {
    var p := FloorPicks(R, SOURCE_ORDER, floor);
    forall r
      ensures multiset(p)[r] <= multiset(R)[r]
    {
      FloorPicksOf(R, SOURCE_ORDER, floor, r.source);
      EverySourceListed(r.source);
      BucketMultiplicity(p, r.source, r);
      BucketMultiplicity(R, r.source, r);
      TakeMultiplicity(Bucket(R, r.source), floor);
    }
  }

  lemma TakeMultiplicity(s: seq<Record>, n: nat)
    ensures multiset(Take(s, n)) <= multiset(s)
  {
    if |s| > n { assert s == s[..n] + s[n..]; }
  }

  lemma SubMultisetNoDup(a: seq<Record>, R: seq<Record>)
    requires multiset(a) <= multiset(R) && NoDup(R)
    ensures NoDup(a)
  {
    forall x
      ensures multiset(a)[x] <= 1
    {
      AtMostOnce(R, x);
    }
    OnceEachIsNoDup(a);
  }
}
