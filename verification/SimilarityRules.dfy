/** What the two similarities measure, said without the loops: the angle between vectors, and the shared part of the
    words. */
module SimilarityRules {
  import opened Wrappers
  import opened Similarity

  // ----- cosine

  /** The sum of the products from place `i` on. */
  function SumOfProducts(a: seq<real>, b: seq<real>, i: nat): real
    requires i <= |a| == |b|
    decreases |a| - i
  {
    if i == |a| then 0.0 else a[i] * b[i] + SumOfProducts(a, b, i + 1)
  }

  lemma {:induction false} DotOfPrefix(a: seq<real>, b: seq<real>, i: nat)
    requires i <= |a| == |b|
    ensures Dot(a, b) == Dot(a[..i], b[..i]) + SumOfProducts(a, b, i)
    decreases |a| - i
  {
    if i < |a| {
      DotOfPrefix(a, b, i + 1);
      assert a[..i + 1][..i] == a[..i] && b[..i + 1][..i] == b[..i];
    } else {
      assert a[..i] == a && b[..i] == b;
    }
  }

  lemma DotIsSum(a: seq<real>, b: seq<real>)
    requires |a| == |b|
    ensures Dot(a, b) == SumOfProducts(a, b, 0)
  {
    DotOfPrefix(a, b, 0);
    assert a[..0] == [] && b[..0] == [];
  }

  function Sign(x: real): int { if x > 0.0 then 1 else if x < 0.0 then -1 else 0 }

  /** The vectors can be compared: equally long, not empty, and neither of them zero. */
  predicate Comparable(a: seq<real>, b: seq<real>) { a != [] && |a| == |b| && !IsZero(a) && !IsZero(b) }

  lemma QuotientSquared(d: real, p: real)
    requires p > 0.0
    ensures (d / p) * (d / p) * (p * p) == d * d && Sign(d / p) == Sign(d)
  {
    var q := d / p;
    assert q * p == d;
    assert q * q * (p * p) == (q * p) * (q * p);
    if q > 0.0 { assert q * p > 0.0; } else if q < 0.0 { assert q * p < 0.0; }
  }

  /** The cosine is the number with the sign of the sum of products and with its square, as a fraction of the squared
      lengths; it is 0 for vectors that cannot be compared. */
  lemma CosineIsTheAngle(a: seq<real>, b: seq<real>, sqrt: real -> real)
    requires IsSqrt(sqrt)
    ensures !Comparable(a, b) ==> Cosine(a, b, sqrt) == 0.0
    ensures Comparable(a, b) ==>
      var c, ab, aa, bb := Cosine(a, b, sqrt), SumOfProducts(a, b, 0), SumOfProducts(a, a, 0), SumOfProducts(b, b, 0);
      aa > 0.0 && bb > 0.0 && c * c * (aa * bb) == ab * ab && Sign(c) == Sign(ab)
  {
    DotSelf(a);
    DotSelf(b);
    DotIsSum(a, a);
    DotIsSum(b, b);
    if Comparable(a, b) {
      DotIsSum(a, b);
      LengthsArePositive(a, b, sqrt);
      QuotientSquared(Dot(a, b), Lengths(a, b, sqrt));
    }
  }

  // ----- words

  /** `w` is a maximal run of word characters, at place `i`. */
  predicate WordAt(s: string, w: string, i: nat) {
    && w != "" && i + |w| <= |s| && s[i..i + |w|] == w
    && (forall k :: 0 <= k < |w| ==> IsWordChar(w[k]))
    && (i > 0 ==> !IsWordChar(s[i - 1]))
    && (i + |w| < |s| ==> !IsWordChar(s[i + |w|]))
  }

  lemma {:induction false} RunIsMaximal(s: string)
    ensures forall k :: 0 <= k < WordRun(s) ==> IsWordChar(s[k])
    ensures WordRun(s) < |s| ==> !IsWordChar(s[WordRun(s)])
  {
    if s != "" && IsWordChar(s[0]) { RunIsMaximal(s[1..]); }
  }

  lemma TailWord(s: string, from: nat, w: string, i: nat)
    requires from <= |s| && (from > 0 ==> !IsWordChar(s[from - 1]) || from == |s| || !IsWordChar(s[from]))
    ensures WordAt(s[from..], w, i) <==> WordAt(s, w, from + i)
  {
    if from + i + |w| <= |s| {
      assert s[from..][i..i + |w|] == s[from + i..from + i + |w|];
      if i == 0 && w != "" && from < |s| { assert s[from..][0] == s[from]; }
      if WordAt(s[from..], w, i) && i == 0 { assert w[0] == s[from..][0]; }
      if WordAt(s, w, from + i) && i == 0 { assert w[0] == s[from]; }
    }
  }

  lemma FirstWord(s: string, w: string, i: nat)
    requires s != "" && IsWordChar(s[0]) && WordAt(s, w, i) && i < WordRun(s)
    ensures i == 0 && w == s[..WordRun(s)]
  {
    RunIsMaximal(s);
    assert i == 0;
    assert forall k :: 0 <= k < |w| ==> w[k] == s[k];
    assert |w| == WordRun(s);
  }

  /** The words of a text are exactly its maximal runs of word characters. */
  lemma {:induction false} WordsAreMaximalRuns(s: string, w: string)
    ensures w in Words(s) <==> exists i: nat :: WordAt(s, w, i)
    decreases |s|
  {
    if s != "" {
      var from := if IsWordChar(s[0]) then WordRun(s) else 1;
      RunIsMaximal(s);
      WordsAreMaximalRuns(s[from..], w);
      forall i: nat
        ensures WordAt(s[from..], w, i) <==> WordAt(s, w, from + i)
      {
        TailWord(s, from, w, i);
      }
      if i: nat :| WordAt(s, w, i) {
        assert w[0] == s[i];
        if i < from {
          FirstWord(s, w, i);
          assert w in Words(s);
        } else {
          assert WordAt(s, w, from + (i - from));
          assert WordAt(s[from..], w, i - from);
        }
      }
      if w in Words(s) {
        if w in Words(s[from..]) {
          var i: nat :| WordAt(s[from..], w, i);
          assert WordAt(s, w, from + i);
        } else {
          assert WordAt(s, w, 0);
        }
      }
    }
  }

  /** Word overlap is the shared part of all words. */
  lemma JaccardIsTheSharedPart(left: set<string>, right: set<string>)
    ensures Jaccard(left, right) * |left + right| as real == |left * right| as real
    ensures left == {} || right == {} ==> Jaccard(left, right) == 0.0
  {
    assert |left + right| == |left| + |right| - |left * right|;
    if left == {} || right == {} {
      assert left * right == {};
    } else {
      OverlapSizes(left, right);
      Undivided(|left * right| as real, |left + right| as real);
    }
  }

  lemma Undivided(x: real, y: real)
    requires y > 0.0
    ensures x / y * y == x
  {
  }

  /** Vectors are compared only when one model made both; otherwise the words decide, and the vectors do not matter. */
  lemma VectorsOfOneModel(h: Host, a: Item, b: Item)
    ensures MemorySimilarity(h, a, b) ==
      if a.embedding.Some? && b.embedding.Some? && a.modelId == b.modelId && a.modelId !in {None, Some("")}
      then Cosine(a.embedding.value, b.embedding.value, h.sqrt)
      else Jaccard(Words(h.lower(a.text)), Words(h.lower(b.text)))
    ensures a.modelId != b.modelId ==>
      MemorySimilarity(h, a, b) == MemorySimilarity(h, a.(embedding := None), b.(embedding := None))
  {
  }
}
