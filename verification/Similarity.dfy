/** Similarity of memories (`src/chat/chat-memory-store.ts`): cosine of embeddings, or overlap of word sets. */
module Similarity {
  import opened Wrappers

  /** What similarity looks at: a text, its vector if there is one, and the model that made the vector. */
  datatype Item = Item(text: string, embedding: Option<seq<real>>, modelId: Option<string>)

  // ----- cosine

  function Product(x: real, y: real): real { x * y }

  function Dot(a: seq<real>, b: seq<real>): real
    requires |a| == |b|
  {
    if a == [] then 0.0 else Dot(a[..|a| - 1], b[..|b| - 1]) + Product(a[|a| - 1], b[|b| - 1])
  }

  /** `sqrt` is the host's square root, taken as exact. */
  ghost predicate IsSqrt(sqrt: real -> real) {
    forall x :: x >= 0.0 ==> sqrt(x) >= 0.0 && sqrt(x) * sqrt(x) == x
  }

  /** The length of a vector times the length of another; 1 where a zero keeps the quotient from being taken. */
  function Lengths(a: seq<real>, b: seq<real>, sqrt: real -> real): real { sqrt(Dot(a, a)) * sqrt(Dot(b, b)) }

  function Cosine(a: seq<real>, b: seq<real>, sqrt: real -> real): real {
    if a == [] || |a| != |b| || Dot(a, a) == 0.0 || Dot(b, b) == 0.0 || Lengths(a, b, sqrt) == 0.0 then 0.0
    else Dot(a, b) / Lengths(a, b, sqrt)
  }

  method CosineSimilarity(a: seq<real>, b: seq<real>, sqrt: real -> real) returns (r: real)
    requires IsSqrt(sqrt)
    ensures r == Cosine(a, b, sqrt)
  {
    if |a| == 0 || |a| != |b| { return 0.0; }
    var dot, normA, normB := 0.0, 0.0, 0.0;
    for i := 0 to |a|
      invariant dot == Dot(a[..i], b[..i]) && normA == Dot(a[..i], a[..i]) && normB == Dot(b[..i], b[..i])
    {
      assert a[..i + 1][..i] == a[..i] && b[..i + 1][..i] == b[..i];
      var x, y := a[i], b[i];
      dot := dot + Product(x, y);
      normA := normA + Product(x, x);
      normB := normB + Product(y, y);
    }
    assert a[..|a|] == a && b[..|b|] == b;
    if normA == 0.0 || normB == 0.0 { return 0.0; }
    DotSelf(a);
    DotSelf(b);
    LengthsArePositive(a, b, sqrt);
    return dot / (sqrt(normA) * sqrt(normB));
  }

  predicate IsZero(a: seq<real>) { forall i :: 0 <= i < |a| ==> a[i] == 0.0 }

  lemma {:induction false} DotSelf(a: seq<real>)
    ensures if IsZero(a) then Dot(a, a) == 0.0 else Dot(a, a) > 0.0
  {
    if a != [] {
      var n := |a| - 1;
      DotSelf(a[..n]);
      Square(a[n]);
      if IsZero(a[..n]) {
        assert forall i :: 0 <= i < n ==> a[..n][i] == a[i];
      } else {
        var i :| 0 <= i < n && a[..n][i] != 0.0;
        assert a[i] != 0.0;
      }
    }
  }

  lemma SameSigns(x: real, y: real)
    requires (x > 0.0 && y > 0.0) || (x < 0.0 && y < 0.0)
    ensures Product(x, y) > 0.0
  {
  }

  lemma Square(x: real)
    ensures if x == 0.0 then Product(x, x) == 0.0 else Product(x, x) > 0.0
  {
    if x != 0.0 { SameSigns(x, x); }
  }

  lemma {:induction false} DotSymmetric(a: seq<real>, b: seq<real>)
    requires |a| == |b|
    ensures Dot(a, b) == Dot(b, a)
  {
    if a != [] { DotSymmetric(a[..|a| - 1], b[..|b| - 1]); }
  }

  /** `s`, `t` combined with the three products: the squared length of `s * a - t * b`. */
  function Form(s: real, t: real, aa: real, ab: real, bb: real): real { s * s * aa - 2.0 * s * t * ab + t * t * bb }

  lemma FormStep(s: real, t: real, aa: real, ab: real, bb: real, x: real, y: real)
    requires Form(s, t, aa, ab, bb) >= 0.0
    ensures Form(s, t, aa + Product(x, x), ab + Product(x, y), bb + Product(y, y)) >= 0.0
  {
    Square(s * x - t * y);
    Expand(s, t, x, y);
    assert Form(s, t, aa + x * x, ab + x * y, bb + y * y)
        == Form(s, t, aa, ab, bb) + (s * s * (x * x) - 2.0 * s * t * (x * y) + t * t * (y * y));
  }

  lemma Expand(s: real, t: real, x: real, y: real)
    ensures Product(s * x - t * y, s * x - t * y) == s * s * (x * x) - 2.0 * s * t * (x * y) + t * t * (y * y)
  {
    var p, q := s * x, t * y;
    assert (p - q) * (p - q) == p * p - 2.0 * (p * q) + q * q;
    assert p * p == s * s * (x * x);
    assert q * q == t * t * (y * y);
    assert p * q == s * t * (x * y);
  }

  lemma {:induction false} FormIsNonNegative(a: seq<real>, b: seq<real>, s: real, t: real)
    requires |a| == |b|
    ensures Form(s, t, Dot(a, a), Dot(a, b), Dot(b, b)) >= 0.0
  {
    if a != [] {
      var n := |a| - 1;
      FormIsNonNegative(a[..n], b[..n], s, t);
      FormStep(s, t, Dot(a[..n], a[..n]), Dot(a[..n], b[..n]), Dot(b[..n], b[..n]), a[n], b[n]);
    } else {
      assert Dot(a, a) == 0.0 && Dot(a, b) == 0.0 && Dot(b, b) == 0.0;
    }
  }

  lemma NeverNegative(a: seq<real>, b: seq<real>)
    requires |a| == |b|
    ensures forall s, t :: Form(s, t, Dot(a, a), Dot(a, b), Dot(b, b)) >= 0.0
  {
    forall s, t
      ensures Form(s, t, Dot(a, a), Dot(a, b), Dot(b, b)) >= 0.0
    {
      FormIsNonNegative(a, b, s, t);
    }
  }

  lemma Discriminant(aa: real, ab: real, bb: real)
    requires aa > 0.0 && forall s, t :: Form(s, t, aa, ab, bb) >= 0.0
    ensures ab * ab <= aa * bb
  {
    var e := aa * bb - ab * ab;
    assert Form(ab, aa, aa, ab, bb) == aa * e by {
      assert ab * ab * aa - 2.0 * ab * aa * ab == -(aa * (ab * ab));
      assert aa * aa * bb == aa * (aa * bb);
    }
    if e < 0.0 { NegativeProduct(aa, e); }
  }

  lemma NegativeProduct(a: real, e: real)
    requires a > 0.0 && e < 0.0
    ensures a * e < 0.0
  {
  }

  /** The inequality of Cauchy and Schwarz. */
  lemma CauchySchwarz(a: seq<real>, b: seq<real>)
    requires |a| == |b|
    ensures Dot(a, b) * Dot(a, b) <= Dot(a, a) * Dot(b, b)
  {
    DotSelf(a);
    if IsZero(a) {
      ZeroDot(a, b);
    } else {
      NeverNegative(a, b);
      Discriminant(Dot(a, a), Dot(a, b), Dot(b, b));
    }
  }

  lemma {:induction false} ZeroDot(a: seq<real>, b: seq<real>)
    requires |a| == |b| && forall i :: 0 <= i < |a| ==> a[i] == 0.0
    ensures Dot(a, b) == 0.0
  {
    if a != [] { ZeroDot(a[..|a| - 1], b[..|b| - 1]); }
  }

  lemma RootIsPositive(x: real, sqrt: real -> real)
    requires IsSqrt(sqrt) && x > 0.0
    ensures sqrt(x) > 0.0
  {
    assert sqrt(x) * sqrt(x) == x;
  }

  lemma LengthsArePositive(a: seq<real>, b: seq<real>, sqrt: real -> real)
    requires IsSqrt(sqrt) && Dot(a, a) > 0.0 && Dot(b, b) > 0.0
    ensures Lengths(a, b, sqrt) > 0.0
    ensures Lengths(a, b, sqrt) * Lengths(a, b, sqrt) == Dot(a, a) * Dot(b, b)
  {
    RootIsPositive(Dot(a, a), sqrt);
    RootIsPositive(Dot(b, b), sqrt);
    var p, q := sqrt(Dot(a, a)), sqrt(Dot(b, b));
    ProductOfRoots(p, q);
    assert p * p == Dot(a, a) && q * q == Dot(b, b);
  }

  lemma ProductOfRoots(p: real, q: real)
    requires p > 0.0 && q > 0.0
    ensures p * q > 0.0 && (p * q) * (p * q) == (p * p) * (q * q)
  {
    assert (p * q) * (p * q) == p * (q * (p * q));
    assert q * (p * q) == p * (q * q);
    assert p * (p * (q * q)) == (p * p) * (q * q);
  }

  lemma QuotientInRange(d: real, p: real)
    requires p > 0.0 && d * d <= p * p
    ensures -1.0 <= d / p <= 1.0
  {
    if d > p { LargerSquare(d, p); }
    if d < -p { LargerSquare(-d, p); }
  }

  lemma LargerSquare(d: real, p: real)
    requires d > p > 0.0
    ensures d * d > p * p
  {
    assert d * d > d * p;
    assert d * p > p * p;
  }

  /** Cosine similarity lies in [-1, 1] and is symmetric. */
  lemma CosineInRange(a: seq<real>, b: seq<real>, sqrt: real -> real)
    requires IsSqrt(sqrt)
    ensures -1.0 <= Cosine(a, b, sqrt) <= 1.0
    ensures Cosine(a, b, sqrt) == Cosine(b, a, sqrt)
  {
    if a != [] && |a| == |b| && Dot(a, a) != 0.0 && Dot(b, b) != 0.0 {
      DotSelf(a);
      DotSelf(b);
      LengthsArePositive(a, b, sqrt);
      CauchySchwarz(a, b);
      QuotientInRange(Dot(a, b), Lengths(a, b, sqrt));
      DotSymmetric(a, b);
      assert Lengths(a, b, sqrt) == Lengths(b, a, sqrt);
    }
  }

  /** A vector is as similar to itself as can be exactly when it is not zero. */
  lemma CosineOfSelf(a: seq<real>, sqrt: real -> real)
    requires IsSqrt(sqrt)
    ensures Cosine(a, a, sqrt) == if exists i :: 0 <= i < |a| && a[i] != 0.0 then 1.0 else 0.0
  {
    DotSelf(a);
    if Dot(a, a) != 0.0 {
      LengthsArePositive(a, a, sqrt);
      assert Lengths(a, a, sqrt) == Dot(a, a);
      OverItself(Dot(a, a));
    }
  }

  lemma OverItself(x: real)
    requires x > 0.0
    ensures x / x == 1.0
  {
  }

  // ----- word overlap

  predicate IsWordChar(c: char) { 'a' <= c <= 'z' || '0' <= c <= '9' }

  function WordRun(s: string): (n: nat)
    ensures n <= |s|
  {
    if s == "" || !IsWordChar(s[0]) then 0 else 1 + WordRun(s[1..])
  }

  /** The set of maximal runs of word characters: `s.split(/[^a-z0-9]+/)` without empties. */
  function Words(s: string): set<string> {
    if s == "" then {}
    else if !IsWordChar(s[0]) then Words(s[1..])
    else {s[..WordRun(s)]} + Words(s[WordRun(s)..])
  }

  function Jaccard(left: set<string>, right: set<string>): real {
    if left == {} || right == {} then 0.0
    else
      OverlapSizes(left, right);
      |left * right| as real / (|left| + |right| - |left * right|) as real
  }

  lemma OverlapSizes(left: set<string>, right: set<string>)
    requires left != {}
    ensures |left * right| <= |left| && |left * right| <= |right| && |left| + |right| - |left * right| > 0
  {
    Smaller(left * right, left);
    Smaller(left * right, right);
  }

  lemma Smaller(a: set<string>, b: set<string>)
    requires a <= b
    ensures |a| <= |b|
  {
    assert b == a + (b - a);
  }

  method CountCommon(left: set<string>, right: set<string>) returns (count: nat)
    ensures count == |left * right|
  {
    count := 0;
    var rest := left;
    while rest != {}
      invariant rest <= left && count == |(left - rest) * right|
      decreases |rest|
    {
      var token :| token in rest;
      ghost var done := (left - rest) * right;
      rest := rest - {token};
      if token in right {
        assert (left - rest) * right == done + {token};
        count := count + 1;
      } else {
        assert (left - rest) * right == done;
      }
    }
    assert left - rest == left;
  }

  method LexicalSimilarity(a: string, b: string, lower: string -> string) returns (r: real)
    ensures r == Jaccard(Words(lower(a)), Words(lower(b)))
  {
    var left, right := Words(lower(a)), Words(lower(b));
    if left == {} || right == {} { return 0.0; }
    var intersection := CountCommon(left, right);
    OverlapSizes(left, right);
    return intersection as real / (|left| + |right| - intersection) as real;
  }

  lemma JaccardInRange(left: set<string>, right: set<string>)
    ensures 0.0 <= Jaccard(left, right) <= 1.0
    ensures Jaccard(left, right) == Jaccard(right, left)
    ensures Jaccard(left, left) == if left == {} then 0.0 else 1.0
  {
    assert left * right == right * left;
    assert left * left == left;
    if left != {} {
      OverlapSizes(left, left);
      OverItself(|left| as real);
    }
    if left != {} && right != {} {
      OverlapSizes(left, right);
      Ratio(|left * right|, |left| + |right| - |left * right|);
    }
  }

  lemma Ratio(a: nat, b: nat)
    requires a <= b && b > 0
    ensures 0.0 <= a as real / b as real <= 1.0
  {
  }

  // ----- memory similarity

  /** The host functions that similarity uses. */
  datatype Host = Host(sqrt: real -> real, lower: string -> string)

  predicate Truthy(s: Option<string>) { s.Some? && s.value != "" }

  predicate Compatible(a: Item, b: Item) {
    a.embedding.Some? && b.embedding.Some? && Truthy(a.modelId) && Truthy(b.modelId) && a.modelId == b.modelId
  }

  function MemorySimilarity(h: Host, a: Item, b: Item): real {
    if Compatible(a, b) then Cosine(a.embedding.value, b.embedding.value, h.sqrt)
    else Jaccard(Words(h.lower(a.text)), Words(h.lower(b.text)))
  }

  /** The item can recognise itself: a non-zero vector of a named model, or, where vectors are not compared, a word. */
  predicate Recognisable(h: Host, a: Item) {
    if Compatible(a, a) then exists i :: 0 <= i < |a.embedding.value| && a.embedding.value[i] != 0.0
    else Words(h.lower(a.text)) != {}
  }

  /** Similarity is symmetric, never exceeds 1, and an item's similarity to itself is 1 or, when it cannot recognise
      itself, 0. */
  lemma SimilarityFacts(h: Host, a: Item, b: Item)
    requires IsSqrt(h.sqrt)
    ensures -1.0 <= MemorySimilarity(h, a, b) <= 1.0
    ensures MemorySimilarity(h, a, b) == MemorySimilarity(h, b, a)
    ensures MemorySimilarity(h, a, a) == if Recognisable(h, a) then 1.0 else 0.0
  {
    if Compatible(a, b) {
      CosineInRange(a.embedding.value, b.embedding.value, h.sqrt);
    } else {
      JaccardInRange(Words(h.lower(a.text)), Words(h.lower(b.text)));
    }
    if Compatible(a, a) {
      CosineOfSelf(a.embedding.value, h.sqrt);
    } else {
      JaccardInRange(Words(h.lower(a.text)), Words(h.lower(a.text)));
    }
  }
}
