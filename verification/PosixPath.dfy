/** The POSIX path strings of the host library, and what they say as segment lists. */
module PosixPath {

  // ----- strings and segments

  predicate SlashFree(s: string) { '/' !in s }

  /** A segment that names an entry of a directory. */
  predicate Plain(s: string) { SlashFree(s) && s != "" && s != "." && s != ".." }

  predicate AllPlain(segs: seq<string>) { forall s :: s in segs ==> Plain(s) }
  predicate AllSlashFree(segs: seq<string>) { forall s :: s in segs ==> SlashFree(s) }

  /** Each segment followed by a slash. */
  function Terminated(segs: seq<string>): string {
    if segs == [] then "" else segs[0] + "/" + Terminated(segs[1..])
  }

  lemma {:induction false} TerminatedEnds(segs: seq<string>)
    requires segs != []
    ensures Terminated(segs) != "" && Terminated(segs)[|Terminated(segs)| - 1] == '/'
  {
    if |segs| > 1 { TerminatedEnds(segs[1..]); }
  }

  function Join(segs: seq<string>): (r: string)
    ensures segs != [] ==> r + "/" == Terminated(segs)
  {
    if segs == [] then "" else
    TerminatedEnds(segs);
    Terminated(segs)[..|Terminated(segs)| - 1]
  }

  /** The length of the first run without a slash. */
  function FirstSlash(s: string): (n: nat)
    ensures n <= |s| && SlashFree(s[..n]) && (n < |s| ==> s[n] == '/')
  {
    if s == "" || s[0] == '/' then 0
    else
      var n := 1 + FirstSlash(s[1..]);
      assert s[..n] == [s[0]] + s[1..][..n - 1];
      n
  }

  function Split(s: string): (parts: seq<string>)
    ensures parts != []
    decreases |s|
  {
    var n := FirstSlash(s);
    if n == |s| then [s] else [s[..n]] + Split(s[n + 1..])
  }

  lemma {:induction false} FirstSlashAt(head: string, rest: string)
    requires SlashFree(head)
    ensures FirstSlash(head + "/" + rest) == |head| && FirstSlash(head) == |head|
  {
    var s := head + "/" + rest;
    if head != "" {
      assert s[1..] == head[1..] + "/" + rest;
      FirstSlashAt(head[1..], rest);
    }
  }

  lemma SplitHead(head: string, rest: string)
    requires SlashFree(head)
    ensures Split(head + "/" + rest) == [head] + Split(rest)
    ensures Split(head) == [head]
  {
    FirstSlashAt(head, rest);
    var s := head + "/" + rest;
    assert s[..|head|] == head && s[|head| + 1..] == rest;
  }

  lemma {:induction false} SplitParts(s: string)
    ensures AllSlashFree(Split(s))
    decreases |s|
  {
    var n := FirstSlash(s);
    if n < |s| { SplitParts(s[n + 1..]); }
    else { assert s[..n] == s; }
  }

  lemma TerminatedHead(segs: seq<string>, last: string)
    requires segs != []
    ensures Terminated(segs) + last == segs[0] + "/" + (Terminated(segs[1..]) + last)
  {
  }

  lemma HeadAndRest(segs: seq<string>, last: string)
    requires segs != []
    ensures segs + [last] == [segs[0]] + (segs[1..] + [last])
  {
  }

  /** Splitting undoes rendering. */
  lemma {:induction false} SplitTerminated(segs: seq<string>, last: string)
    requires AllSlashFree(segs) && SlashFree(last)
    ensures Split(Terminated(segs) + last) == segs + [last]
  {
    if segs == [] {
      SplitHead(last, "");
      assert Terminated(segs) + last == last;
    } else {
      assert segs[0] in segs && forall s :: s in segs[1..] ==> s in segs;
      SplitTerminated(segs[1..], last);
      TerminatedHead(segs, last);
      SplitHead(segs[0], Terminated(segs[1..]) + last);
      HeadAndRest(segs, last);
    }
  }

  lemma {:induction false} TerminatedSnoc(segs: seq<string>, last: string)
    ensures Terminated(segs + [last]) == Terminated(segs) + last + "/"
  {
    if segs == [] {
      assert segs + [last] == [last];
      assert Terminated([last]) == last + "/" + Terminated([]);
    } else {
      assert (segs + [last])[1..] == segs[1..] + [last];
      TerminatedSnoc(segs[1..], last);
    }
  }

  lemma JoinSnoc(segs: seq<string>, last: string)
    ensures Join(segs + [last]) == Terminated(segs) + last
  {
    TerminatedSnoc(segs, last);
    assert Join(segs + [last]) + "/" == Terminated(segs) + last + "/";
    assert (Join(segs + [last]) + "/")[..|Join(segs + [last])|] == (Terminated(segs) + last + "/")[..|Terminated(segs) + last|];
  }

  lemma SplitJoin(segs: seq<string>)
    requires segs != [] && AllSlashFree(segs)
    ensures Split(Join(segs)) == segs && Split(Join(segs) + "/") == segs + [""]
  {
    var init, last := segs[..|segs| - 1], segs[|segs| - 1];
    assert segs == init + [last];
    JoinSnoc(init, last);
    SplitTerminated(init, last);
    SplitTerminated(segs, "");
    assert Terminated(segs) + "" == Terminated(segs);
  }

  lemma BreakAtSlash(a: string, n: nat)
    requires n < |a| && a[n] == '/'
    ensures a == a[..n] + "/" + a[n + 1..]
  {
  }

  lemma SplitCons(head: string, rest: string, b: string)
    requires SlashFree(head)
    ensures Split(head + "/" + rest + "/" + b) == [head] + Split(rest + "/" + b)
  {
    assert head + "/" + rest + "/" + b == head + "/" + (rest + "/" + b);
    SplitHead(head, rest + "/" + b);
  }

  lemma {:induction false} SplitConcat(a: string, b: string)
    ensures Split(a + "/" + b) == Split(a) + Split(b)
    decreases |a|
  {
    var n := FirstSlash(a);
    if n == |a| {
      assert a[..n] == a;
      SplitHead(a, b);
    } else {
      BreakAtSlash(a, n);
      SplitConcat(a[n + 1..], b);
      SplitCons(a[..n], a[n + 1..], b);
      Regroup(a[..n], Split(a[n + 1..]), Split(b));
    }
  }

  lemma Regroup(head: string, a: seq<string>, b: seq<string>)
    ensures [head] + (a + b) == [head] + a + b
  {
  }

  // ----- a string prefix that ends at a slash is a segment prefix

  lemma SameHead(x: string, s: string, y: string, t: string)
    requires SlashFree(x) && SlashFree(y) && x + "/" + s <= y + "/" + t
    ensures x == y && s <= t
  {
    var whole := y + "/" + t;
    assert whole[|x|] == (x + "/" + s)[|x|] == '/';
    assert forall i :: 0 <= i < |x| ==> whole[i] == x[i];
    assert whole[|y|] == '/';
    assert |x| == |y|;
    assert x == whole[..|x|] == y;
    assert (x + "/" + s)[|x| + 1..] == s && whole[|x| + 1..] == t;
  }

  lemma {:induction false} PrefixesAgree(a: seq<string>, b: seq<string>)
    requires AllSlashFree(a) && AllSlashFree(b)
    ensures Terminated(a) <= Terminated(b) <==> a <= b
  {
    if a == [] {
    } else if b == [] {
      TerminatedEnds(a);
    } else {
      PrefixesAgree(a[1..], b[1..]);
      if Terminated(a) <= Terminated(b) {
        SameHead(a[0], Terminated(a[1..]), b[0], Terminated(b[1..]));
        assert a == [a[0]] + a[1..] && b == [b[0]] + b[1..];
      }
      if a <= b {
        assert a[1..] <= b[1..];
        assert Terminated(b) == b[0] + "/" + Terminated(b[1..]);
      }
    }
  }

  // ----- normalisation

  /** One part further: nowhere for an empty one or a dot, and for ".." back over the segment before it. */
  function Enter(done: seq<string>, part: string, absolute: bool): seq<string> {
    if part == "" || part == "." then done
    else if part == ".." then
      if done != [] && done[|done| - 1] != ".." then done[..|done| - 1]
      else if absolute then done
      else done + [".."]
    else done + [part]
  }

  /** Walk the parts, one after the other. */
  function Resolve(parts: seq<string>, absolute: bool): seq<string> {
    if parts == [] then [] else Enter(Resolve(parts[..|parts| - 1], absolute), parts[|parts| - 1], absolute)
  }

  predicate IsAbsolute(s: string) { s != "" && s[0] == '/' }
  predicate EndsInSlash(s: string) { s != "" && s[|s| - 1] == '/' }

  /** `normalize` of the POSIX path library. */
  function Normalize(s: string): string {
    if s == "" then "."
    else
      var segs := Resolve(Split(s), IsAbsolute(s));
      if segs == [] then (if IsAbsolute(s) then "/" else if EndsInSlash(s) then "./" else ".")
      else (if IsAbsolute(s) then "/" else "") + Join(segs) + (if EndsInSlash(s) then "/" else "")
  }

  /** Once a segment is plain, so are all after it. */
  predicate UpsOrPlain(segs: seq<string>) {
    && (forall i :: 0 <= i < |segs| ==> Plain(segs[i]) || segs[i] == "..")
    && (forall i, j :: 0 <= i < j < |segs| && Plain(segs[i]) ==> Plain(segs[j]))
  }

  lemma {:induction false} ResolvedShape(parts: seq<string>, absolute: bool)
    requires AllSlashFree(parts)
    ensures UpsOrPlain(Resolve(parts, absolute))
    ensures absolute ==> AllPlain(Resolve(parts, absolute))
  {
    if parts != [] { ResolvedShape(parts[..|parts| - 1], absolute); }
  }

  predicate Harmless(part: string) { Plain(part) || part == "" || part == "." }

  function PlainOnes(parts: seq<string>): seq<string> {
    if parts == [] then []
    else PlainOnes(parts[..|parts| - 1]) + if Plain(parts[|parts| - 1]) then [parts[|parts| - 1]] else []
  }

  /** Parts without ".." are simply appended. */
  lemma {:induction false} ResolveOnto(base: seq<string>, parts: seq<string>, absolute: bool)
    requires forall p :: p in parts ==> Harmless(p)
    ensures Resolve(base + parts, absolute) == Resolve(base, absolute) + PlainOnes(parts)
  {
    var all := base + parts;
    if parts == [] {
      assert all == base;
    } else {
      var init, last := parts[..|parts| - 1], parts[|parts| - 1];
      assert all[..|all| - 1] == base + init && all[|all| - 1] == last;
      assert last in parts && forall p :: p in init ==> p in parts;
      ResolveOnto(base, init, absolute);
      assert Resolve(base, absolute) + PlainOnes(init) + [last] == Resolve(base, absolute) + (PlainOnes(init) + [last]);
    }
  }

  lemma {:induction false} PlainOnesOfPlain(segs: seq<string>)
    requires AllPlain(segs)
    ensures PlainOnes(segs) == segs
  {
    if segs != [] {
      var init, last := segs[..|segs| - 1], segs[|segs| - 1];
      assert segs == init + [last] && Plain(last);
      assert AllPlain(init) by {
        assert forall p :: p in init ==> p in segs;
      }
      PlainOnesOfPlain(init);
    }
  }

  lemma PlainOnesSkipEmpty(segs: seq<string>)
    ensures PlainOnes(segs + [""]) == PlainOnes(segs)
  {
    var all := segs + [""];
    assert all[..|all| - 1] == segs && all[|all| - 1] == "";
  }

  // ----- a relative path in normal form

  /** The normal form of a relative path that stays inside: its segments, and whether a slash ends it. */
  function PathOf(segs: seq<string>, slash: bool): string {
    if segs == [] then (if slash then "./" else ".") else Join(segs) + if slash then "/" else ""
  }

  lemma NoPlainOnes()
    ensures PlainOnes([]) == [] && PlainOnes(["."]) == [] && PlainOnes(["."] + [""]) == []
  {
    assert ["."][..0] == [];
    PlainOnesSkipEmpty(["."]);
  }

  lemma PartsOfDot(slash: bool)
    ensures Split(if slash then "./" else ".") == if slash then ["."] + [""] else ["."]
  {
    SplitHead(".", "");
    assert "." + "/" + "" == "./" && Split("") == [""];
  }

  lemma PartsOfNames(segs: seq<string>, slash: bool)
    requires segs != [] && AllPlain(segs)
    ensures var parts := Split(Join(segs) + if slash then "/" else "");
      (forall p :: p in parts ==> Harmless(p)) && PlainOnes(parts) == segs
  {
    PlainOnesOfPlain(segs);
    PlainOnesSkipEmpty(segs);
    SplitJoin(segs);
    assert Join(segs) + "" == Join(segs);
  }

  lemma PartsOfPath(segs: seq<string>, slash: bool)
    requires AllPlain(segs)
    ensures var parts := Split(PathOf(segs, slash));
      (forall p :: p in parts ==> Harmless(p)) && PlainOnes(parts) == segs
  {
    if segs == [] {
      PartsOfDot(slash);
      NoPlainOnes();
    } else {
      PartsOfNames(segs, slash);
    }
  }

  predicate Escapes(normalized: string) { normalized == ".." || "../" <= normalized }

  lemma FirstSegment(segs: seq<string>, slash: bool)
    requires segs != [] && UpsOrPlain(segs)
    ensures Escapes(PathOf(segs, slash)) <==> segs[0] == ".."
    ensures segs[0] != ".." ==> AllPlain(segs)
  {
    var up: seq<string> := [".."];
    assert Terminated(up) == ".." + "/" + Terminated([]);
    PrefixesAgree(up, segs);
    var p := PathOf(segs, slash);
    assert Join(segs) + "/" == Terminated(segs);
    assert "../" <= Terminated(segs) <==> Escapes(Join(segs)) by { TerminatedMeans("..", Join(segs)); }
    if slash {
      assert p == Terminated(segs);
      assert p != "..";
    }
  }

  /** With a slash at the end, prefix is equality or prefix up to a slash. */
  lemma TerminatedMeans(a: string, b: string)
    ensures a + "/" <= b + "/" <==> a == b || a + "/" <= b
  {
    if a + "/" <= b + "/" {
      if |a| == |b| {
        assert a == (a + "/")[..|a|] == (b + "/")[..|a|] == b;
      } else {
        assert a + "/" == (b + "/")[..|a| + 1] == b[..|a| + 1];
      }
    }
    if a + "/" <= b {
      assert b <= b + "/";
    }
  }

  lemma EscapesUp(segs: seq<string>, slash: bool)
    requires UpsOrPlain(segs)
    ensures Escapes(PathOf(segs, slash)) <==> segs != [] && segs[0] == ".."
    ensures !Escapes(PathOf(segs, slash)) ==> AllPlain(segs)
  {
    if segs != [] { FirstSegment(segs, slash); }
  }

  lemma NormalizeIsPath(s: string)
    requires !IsAbsolute(s)
    ensures Normalize(s) == PathOf(Resolve(Split(s), false), EndsInSlash(s))
  {
    if s == "" {
      EmptyComesToNothing();
    } else {
      NothingInFront(Join(Resolve(Split(s), false)), if EndsInSlash(s) then "/" else "");
    }
  }

  lemma NothingInFront(text: string, end: string)
    ensures "" + text + end == text + end
  {
  }

  /** Normalising a relative path gives its normal form, which escapes exactly when it starts with "..". */
  lemma NormalForm(s: string)
    requires !IsAbsolute(s)
    ensures var segs := Resolve(Split(s), false);
      && Normalize(s) == PathOf(segs, EndsInSlash(s))
      && (Escapes(Normalize(s)) <==> segs != [] && segs[0] == "..")
      && (!Escapes(Normalize(s)) ==> AllPlain(segs))
  {
    SplitParts(s);
    ResolvedShape(Split(s), false);
    NormalizeIsPath(s);
    EscapesUp(Resolve(Split(s), false), EndsInSlash(s));
  }

  lemma EmptyComesToNothing()
    ensures Resolve(Split(""), false) == []
  {
    assert Split("") == [""];
    assert [""][..0] == [] && Resolve([], false) == [];
  }

  // ----- parent directories

  /** The last slash at `i` or before it (but not at 0) that has something other than slashes behind it. */
  function LastCut(s: string, i: int, behind: bool): (cut: int)
    requires -1 <= i < |s|
    ensures -1 <= cut <= i || cut == -1
    decreases i + 1
  {
    if i < 1 then -1
    else if s[i] == '/' then (if behind then i else LastCut(s, i - 1, false))
    else LastCut(s, i - 1, true)
  }

  /** `dirname` of the POSIX path library. */
  function Dirname(s: string): string {
    var cut := LastCut(s, |s| - 1, false);
    if cut == -1 then (if IsAbsolute(s) then "/" else ".")
    else if IsAbsolute(s) && cut == 1 then "//"
    else if cut > 0 then s[..cut] else "."
  }

  lemma {:induction false} CutPastSegment(s: string, cut: int, i: int, behind: bool)
    requires 0 <= cut <= i < |s| && SlashFree(s[cut + 1..i + 1]) && s[cut] == '/'
    requires behind || cut < i
    ensures LastCut(s, i, behind) == if cut < 1 then -1 else cut
    decreases i
  {
    if cut < i {
      assert s[i] == s[cut + 1..i + 1][i - cut - 1];
      assert s[cut + 1..i + 1][..i - cut - 1] == s[cut + 1..i];
      CutPastSegment(s, cut, i - 1, true);
    }
  }

  lemma {:induction false} NoCut(s: string, i: int, behind: bool)
    requires -1 <= i < |s| && SlashFree(s[..i + 1])
    ensures LastCut(s, i, behind) == -1
    decreases i + 1
  {
    if i >= 1 {
      assert s[i] == s[..i + 1][i];
      assert s[..i + 1][..i] == s[..i];
      NoCut(s, i - 1, true);
    }
  }

  /** Where the last segment of `init/last` or `init/last/` starts. */
  lemma CutBeforeLast(init: seq<string>, last: string, slash: bool)
    requires init != [] && AllPlain(init) && Plain(last)
    ensures var p := PathOf(init + [last], slash); var cut := |Join(init)|; var end := cut + |last|;
      && 1 <= cut < end < |p|
      && !IsAbsolute(p)
      && p[..cut] == Join(init) && p[cut] == '/' && p[cut + 1..end + 1] == last
      && |p| == end + 1 + (if slash then 1 else 0) && (slash ==> p[end + 1] == '/')
  {
    JoinSnoc(init, last);
    JoinIsLong(init);
    assert init[0] in init;
    var p := PathOf(init + [last], slash);
    assert p == Join(init) + "/" + last + if slash then "/" else "";
    assert p[0] == Join(init)[0] == Terminated(init)[0] == init[0][0];
  }

  lemma DirnameCuts(p: string, cut: nat, end: nat, slash: bool)
    requires 1 <= cut < end < |p| == end + 1 + if slash then 1 else 0
    requires !IsAbsolute(p) && p[cut] == '/' && SlashFree(p[cut + 1..end + 1]) && (slash ==> p[end + 1] == '/')
    ensures Dirname(p) == p[..cut]
  {
    CutPastSegment(p, cut, end, false);
    if slash { assert LastCut(p, |p| - 1, false) == LastCut(p, end, false); }
  }

  lemma ParentOfMany(init: seq<string>, last: string, slash: bool)
    requires init != [] && AllPlain(init) && Plain(last)
    ensures Dirname(PathOf(init + [last], slash)) == Join(init)
  {
    CutBeforeLast(init, last, slash);
    DirnameCuts(PathOf(init + [last], slash), |Join(init)|, |Join(init)| + |last|, slash);
  }

  lemma ParentOfOne(seg: string, slash: bool)
    requires Plain(seg)
    ensures Dirname(PathOf([seg], slash)) == "."
  {
    var p := PathOf([seg], slash);
    JoinSnoc([], seg);
    assert [] + [seg] == [seg];
    assert p == seg + if slash then "/" else "";
    assert p[..|seg| - 1 + 1] == seg && p[0] == seg[0];
    if slash { assert LastCut(p, |p| - 1, false) == LastCut(p, |seg| - 1, false); }
    NoCut(p, |seg| - 1, false);
  }

  /** The parent of a normal form is the normal form of one segment less. */
  lemma ParentOfPath(segs: seq<string>, slash: bool)
    requires AllPlain(segs)
    ensures Dirname(PathOf(segs, slash)) == PathOf(if segs == [] then [] else segs[..|segs| - 1], false)
  {
    if segs != [] {
      var init, last := segs[..|segs| - 1], segs[|segs| - 1];
      assert segs == init + [last] && last in segs && forall s :: s in init ==> s in segs;
      if init == [] {
        assert segs == [last];
        ParentOfOne(last, slash);
      } else {
        ParentOfMany(init, last, slash);
        assert Join(init) + "" == Join(init);
      }
    }
  }

  lemma JoinIsLong(segs: seq<string>)
    requires segs != [] && AllPlain(segs)
    ensures |Join(segs)| >= 1 && |Join(segs)| >= |segs[0]|
  {
    assert segs[0] in segs;
    assert |Terminated(segs)| >= |segs[0]| + 1;
  }
}
