/** What the mounts promise: approvals become directories inside the workspace, prefix tests on strings are prefix tests
    on segments, and both copies of a written file are the same place on the host. */
module WritableMountsGuarantees {
  import opened Wrappers
  import opened Text
  import opened Sorting
  import Chat
  import opened PosixPath
  import opened WritableMounts

  // ----- normal forms name their segments

  lemma JoinedEnds(segs: seq<string>)
    requires segs != [] && AllPlain(segs)
    ensures Join(segs) != "" && !IsAbsolute(Join(segs)) && !EndsInSlash(Join(segs))
  {
    var init, last := segs[..|segs| - 1], segs[|segs| - 1];
    assert segs == init + [last] && last in segs;
    JoinSnoc(init, last);
    LastCharOf(Terminated(init), last);
    JoinStarts(segs);
  }

  lemma LastCharOf(s: string, last: string)
    requires last != ""
    ensures (s + last)[|s + last| - 1] == last[|last| - 1]
  {
  }

  lemma JoinStarts(segs: seq<string>)
    requires segs != [] && AllPlain(segs)
    ensures Join(segs) != "" && !IsAbsolute(Join(segs))
  {
    assert segs[0] in segs;
    JoinIsLong(segs);
    assert Join(segs)[0] == Terminated(segs)[0] == segs[0][0];
  }

  lemma PathNamesItsSegments(segs: seq<string>, slash: bool)
    requires AllPlain(segs)
    ensures PathOf(segs, slash) != "" && !IsAbsolute(PathOf(segs, slash)) && SegmentsOf(PathOf(segs, slash)) == segs
    ensures EndsInSlash(PathOf(segs, slash)) == slash
  {
    if segs != [] { JoinedEnds(segs); }
    PartsOfPath(segs, slash);
    ResolveOnto([], Split(PathOf(segs, slash)), false);
    assert [] + Split(PathOf(segs, slash)) == Split(PathOf(segs, slash));
  }

  // ----- relative places

  lemma {:induction false} CommonPrefixOfPrefix(a: seq<string>, b: seq<string>)
    requires a <= b
    ensures CommonPrefix(a, b) == |a|
  {
    if a != [] { CommonPrefixOfPrefix(a[1..], b[1..]); }
  }

  lemma RelativeInside(from: seq<string>, to: seq<string>)
    requires from <= to
    ensures RelativePath(from, to) == Join(to[|from|..])
  {
    CommonPrefixOfPrefix(from, to);
    assert seq(0, _ => "..") + to[|from|..] == to[|from|..];
  }

  lemma UpsFirst(n: nat, plain: seq<string>)
    requires AllPlain(plain)
    ensures UpsOrPlain(seq(n, _ => "..") + plain)
  {
    var all := seq(n, _ => "..") + plain;
    assert forall i :: n <= i < |all| ==> all[i] in plain;
  }

  lemma RelativeOutside(from: seq<string>, to: seq<string>)
    requires !(from <= to) && AllPlain(to)
    ensures Escapes(RelativePath(from, to))
  {
    var n := CommonPrefix(from, to);
    var rest := to[n..];
    assert forall s :: s in rest ==> s in to;
    assert from[..|from|] == from;
    assert n < |from|;
    UpsFirst(|from| - n, rest);
    var all := seq(|from| - n, _ => "..") + rest;
    FirstSegment(all, false);
    assert Join(all) + "" == Join(all);
  }

  // ----- approvals

  /** The approved directory as segments. */
  function ApprovedSegments(site: Site, value: string): Option<seq<string>> {
    var raw := Trim(value);
    if raw == "" then None
    else if IsAbsolute(raw) then
      var place := SegmentsOf(raw);
      if site.workspace <= place then Some(place[|site.workspace|..]) else None
    else
      var segs := SegmentsOf(BackslashesToSlashes(raw));
      if IsAbsolute(BackslashesToSlashes(raw)) || (segs != [] && segs[0] == "..") then None else Some(segs)
  }

  lemma CanonicalOfPath(segs: seq<string>, slash: bool)
    requires AllPlain(segs)
    ensures CanonicalDir(PathOf(segs, slash)) == PathOf(segs, false)
  {
    PathNamesItsSegments(segs, slash);
    PathNamesItsSegments(segs, false);
    var p := PathOf(segs, slash);
    if slash {
      assert p[..|p| - 1] == PathOf(segs, false);
      assert StripSlashes(p) == StripSlashes(PathOf(segs, false));
    }
    assert StripSlashes(PathOf(segs, false)) == PathOf(segs, false);
  }

  lemma NormalizeKeepsPaths(segs: seq<string>)
    requires AllPlain(segs)
    ensures Normalize(Join(segs)) == PathOf(segs, false)
  {
    if segs != [] {
      JoinedEnds(segs);
      PathNamesItsSegments(segs, false);
      assert Join(segs) + "" == Join(segs);
      NormalForm(Join(segs));
    }
  }

  lemma AbsoluteApproval(site: Site, value: string)
    requires AllPlain(site.workspace) && IsAbsolute(Trim(value))
    ensures NormalizeApproved(site, value)
      == match ApprovedSegments(site, value) case None => None case Some(segs) => Some(PathOf(segs, false))
    ensures match ApprovedSegments(site, value) case None => true case Some(segs) => AllPlain(segs)
  {
    var raw := Trim(value);
    SplitParts(raw);
    ResolvedShape(Split(raw), true);
    var place := SegmentsOf(raw);
    if site.workspace <= place {
      var rest := place[|site.workspace|..];
      assert forall s :: s in rest ==> s in place;
      RelativeInside(site.workspace, place);
      NormalizeKeepsPaths(rest);
      CanonicalOfPath(rest, false);
      StaysInside(rest);
    } else {
      RelativeOutside(site.workspace, place);
    }
  }

  lemma StaysInside(rest: seq<string>)
    requires AllPlain(rest)
    ensures !Escapes(Join(rest)) && !IsAbsolute(Join(rest))
  {
    if rest != [] {
      assert rest[0] in rest;
      JoinedEnds(rest);
      assert forall i :: 0 <= i < |rest| ==> rest[i] in rest;
      FirstSegment(rest, false);
      assert Join(rest) + "" == Join(rest);
    }
  }

  lemma NormalizeKeepsAbsolute(s: string)
    requires IsAbsolute(s)
    ensures IsAbsolute(Normalize(s))
  {
  }

  lemma RelativeApproval(site: Site, value: string)
    requires Trim(value) != "" && !IsAbsolute(Trim(value))
    ensures NormalizeApproved(site, value)
      == match ApprovedSegments(site, value) case None => None case Some(segs) => Some(PathOf(segs, false))
    ensures match ApprovedSegments(site, value) case None => true case Some(segs) => AllPlain(segs)
  {
    var s := BackslashesToSlashes(Trim(value));
    if IsAbsolute(s) {
      NormalizeKeepsAbsolute(s);
    } else {
      NormalForm(s);
      var segs := SegmentsOf(s);
      if !Escapes(Normalize(s)) {
        PathNamesItsSegments(segs, EndsInSlash(s));
        CanonicalOfPath(segs, EndsInSlash(s));
      }
    }
  }

  /** An approval stands for the directory that it names below the workspace, and is dropped exactly when it names none:
      when it is blank or leads outside. */
  lemma ApprovalsAreDirectories(site: Site, value: string)
    requires AllPlain(site.workspace)
    ensures NormalizeApproved(site, value)
      == match ApprovedSegments(site, value) case None => None case Some(segs) => Some(PathOf(segs, false))
    ensures match ApprovedSegments(site, value) case None => true case Some(segs) => AllPlain(segs)
  {
    if Trim(value) != "" {
      if IsAbsolute(Trim(value)) { AbsoluteApproval(site, value); } else { RelativeApproval(site, value); }
    }
  }

  /** A mount as the resolver makes it: a directory in normal form, mounted from its place in the workspace. */
  ghost predicate IsMount(site: Site, m: Mount) {
    var segs := SegmentsOf(m.relativePath);
    AllPlain(segs) && m.relativePath == PathOf(segs, false) && m == MountAt(site, m.relativePath)
  }

  ghost predicate Serves(site: Site, approved: seq<string>, m: Mount) {
    exists i :: 0 <= i < |approved| && NormalizeApproved(site, approved[i]) == Some(m.relativePath)
  }

  ghost predicate DistinctDirs(mounts: seq<Mount>) {
    forall i, j :: 0 <= i < j < |mounts| ==> mounts[i].relativePath != mounts[j].relativePath
  }

  ghost predicate MountsServe(site: Site, approved: seq<string>, mounts: seq<Mount>) {
    && DistinctDirs(mounts)
    && (forall m :: m in mounts ==> IsMount(site, m) && Serves(site, approved, m))
    && forall i :: 0 <= i < |approved| && NormalizeApproved(site, approved[i]).Some? ==>
         HasMount(mounts, NormalizeApproved(site, approved[i]).value)
  }

  lemma NewMount(site: Site, value: string)
    requires AllPlain(site.workspace) && NormalizeApproved(site, value).Some?
    ensures IsMount(site, MountAt(site, NormalizeApproved(site, value).value))
  {
    ApprovalsAreDirectories(site, value);
    PathNamesItsSegments(ApprovedSegments(site, value).value, false);
  }

  lemma ServesMore(site: Site, approved: seq<string>, value: string, mounts: seq<Mount>)
    requires MountsServe(site, approved, mounts)
    ensures forall m :: m in mounts ==> Serves(site, approved + [value], m)
  {
    forall m | m in mounts
      ensures Serves(site, approved + [value], m)
    {
      var i :| 0 <= i < |approved| && NormalizeApproved(site, approved[i]) == Some(m.relativePath);
      assert (approved + [value])[i] == approved[i];
    }
  }

  lemma HasMore(mounts: seq<Mount>, m: Mount, dir: string)
    ensures HasMount(mounts + [m], dir) <==> HasMount(mounts, dir) || m.relativePath == dir
  {
    var more := mounts + [m];
    assert m in more && forall x :: x in more <==> x in mounts || x == m;
    if HasMount(mounts, dir) {
      var x :| x in mounts && x.relativePath == dir;
      assert x in more;
    }
  }

  lemma ApprovalsStillHaveMounts(site: Site, approved: seq<string>, value: string, mounts: seq<Mount>, m: Mount)
    requires MountsServe(site, approved, mounts) && NormalizeApproved(site, value) == Some(m.relativePath)
    ensures forall i :: 0 <= i <= |approved| && NormalizeApproved(site, (approved + [value])[i]).Some? ==>
        HasMount(mounts + [m], NormalizeApproved(site, (approved + [value])[i]).value)
  {
    forall i | 0 <= i <= |approved| && NormalizeApproved(site, (approved + [value])[i]).Some?
      ensures HasMount(mounts + [m], NormalizeApproved(site, (approved + [value])[i]).value)
    {
      HasMore(mounts, m, NormalizeApproved(site, (approved + [value])[i]).value);
    }
  }

  lemma OneMoreApproval(site: Site, approved: seq<string>, value: string, mounts: seq<Mount>)
    requires AllPlain(site.workspace) && MountsServe(site, approved, mounts)
    requires NormalizeApproved(site, value).Some? && !HasMount(mounts, NormalizeApproved(site, value).value)
    ensures MountsServe(site, approved + [value], mounts + [MountAt(site, NormalizeApproved(site, value).value)])
  {
    var m := MountAt(site, NormalizeApproved(site, value).value);
    NewMount(site, value);
    ServesMore(site, approved, value, mounts);
    assert (approved + [value])[|approved|] == value;
    assert Serves(site, approved + [value], m);
    ApprovalsStillHaveMounts(site, approved, value, mounts, m);
    assert forall x :: x in mounts ==> x.relativePath != m.relativePath;
  }

  lemma SameApprovals(site: Site, approved: seq<string>, value: string, mounts: seq<Mount>)
    requires MountsServe(site, approved, mounts)
    requires NormalizeApproved(site, value).None? || HasMount(mounts, NormalizeApproved(site, value).value)
    ensures MountsServe(site, approved + [value], mounts)
  {
    ServesMore(site, approved, value, mounts);
    var more := approved + [value];
    forall i | 0 <= i < |more| && NormalizeApproved(site, more[i]).Some?
      ensures HasMount(mounts, NormalizeApproved(site, more[i]).value)
    {
      assert i < |approved| ==> more[i] == approved[i];
    }
  }

  lemma {:induction false} MountsServeApprovals(site: Site, approved: seq<string>)
    requires AllPlain(site.workspace)
    ensures MountsServe(site, approved, MountsOf(site, approved))
  {
    if approved != [] {
      var init, last := approved[..|approved| - 1], approved[|approved| - 1];
      MountsServeApprovals(site, init);
      assert approved == init + [last];
      var before, dir := MountsOf(site, init), NormalizeApproved(site, last);
      if dir.Some? && !HasMount(before, dir.value) {
        OneMoreApproval(site, init, last, before);
      } else {
        SameApprovals(site, init, last, before);
      }
    }
  }

  /** One mount for each approved directory inside the workspace, and none else. */
  lemma MountsAreTheApprovals(site: Site, approved: seq<string>, dir: string)
    requires AllPlain(site.workspace)
    ensures HasMount(Sort(MountsOf(site, approved), ByName(site)), dir)
      <==> exists i :: 0 <= i < |approved| && NormalizeApproved(site, approved[i]) == Some(dir)
    ensures forall m :: m in Sort(MountsOf(site, approved), ByName(site)) ==> IsMount(site, m)
  {
    var mounts := MountsOf(site, approved);
    MountsServeApprovals(site, approved);
    SortKeepsElements(mounts, ByName(site));
    var sorted := Sort(mounts, ByName(site));
    forall m
      ensures m in sorted <==> m in mounts
    {
      assert m in multiset(sorted) <==> m in multiset(mounts);
    }
    assert HasMount(sorted, dir) <==> HasMount(mounts, dir);
    if HasMount(mounts, dir) {
      var m :| m in mounts && m.relativePath == dir;
      assert Serves(site, approved, m);
    }
  }

  // ----- the prefix test

  lemma RootIsDot(segs: seq<string>)
    requires AllPlain(segs)
    ensures PathOf(segs, false) == "." <==> segs == []
  {
    PathNamesItsSegments(segs, false);
    PathNamesItsSegments([], false);
  }

  lemma NamedPrefix(dir: seq<string>, segs: seq<string>, slash: bool)
    requires dir != [] && segs != [] && AllPlain(dir) && AllPlain(segs)
    ensures var p := PathOf(segs, slash); p == Join(dir) || Join(dir) + "/" <= p <==> dir <= segs
  {
    PrefixesAgree(dir, segs);
    TerminatedMeans(Join(dir), Join(segs));
    JoinedEnds(dir);
    assert Join(segs) + "" == Join(segs);
  }

  lemma OnlyDotIsUnderDot(s: string)
    ensures s + "/" <= "./" ==> s == "."
  {
    if s + "/" <= "./" {
      assert (s + "/")[0] == "./"[0];
    }
  }

  /** The string test is the segment test: a mount matches exactly the paths at or below its directory. */
  lemma WithinIsSegmentPrefix(site: Site, segs: seq<string>, slash: bool, m: Mount)
    requires AllPlain(segs) && IsMount(site, m)
    ensures Within(PathOf(segs, slash), m) <==> SegmentsOf(m.relativePath) <= segs
  {
    var dir := SegmentsOf(m.relativePath);
    RootIsDot(dir);
    if dir != [] {
      assert Join(dir) + "" == Join(dir);
      JoinedEnds(dir);
      if segs != [] {
        NamedPrefix(dir, segs, slash);
      } else {
        OnlyDotIsUnderDot(Join(dir));
      }
    }
  }

  // ----- which mount is chosen

  lemma {:induction false} MatchingMembers(path: string, mounts: seq<Mount>)
    ensures forall m :: m in Matching(path, mounts) <==> m in mounts && Within(path, m)
  {
    if mounts != [] {
      MatchingMembers(path, mounts[1..]);
      assert mounts == [mounts[0]] + mounts[1..];
    }
  }

  /** The first mount with the longest directory string. */
  ghost predicate FirstLongest(mounts: seq<Mount>, i: int) {
    && 0 <= i < |mounts|
    && (forall j :: 0 <= j < |mounts| ==> |mounts[j].relativePath| <= |mounts[i].relativePath|)
    && (forall j :: 0 <= j < i ==> |mounts[j].relativePath| < |mounts[i].relativePath|)
  }

  lemma {:induction false} HeadOfSorted(mounts: seq<Mount>) returns (i: nat)
    requires mounts != []
    ensures FirstLongest(mounts, i) && Sort(mounts, LongestFirst()) != [] && Sort(mounts, LongestFirst())[0] == mounts[i]
  {
    if |mounts| == 1 {
      i := 0;
      assert Sort(mounts[1..], LongestFirst()) == [];
    } else {
      var k := HeadOfSorted(mounts[1..]);
      i := if |mounts[0].relativePath| >= |mounts[1..][k].relativePath| then 0 else k + 1;
      assert forall j :: 1 <= j < |mounts| ==> mounts[j] == mounts[1..][j - 1];
    }
  }

  /** A write is refused exactly when no approved directory is at or above it; otherwise the chosen mount matches and has
      the longest directory string, the first of equally long ones. */
  lemma ChosenMount(path: string, mounts: seq<Mount>)
    ensures FindWritableMount(path, mounts).None? <==> forall m :: m in mounts ==> !Within(path, m)
    ensures FindWritableMount(path, mounts).Some? ==>
      var m := FindWritableMount(path, mounts).value;
      && m in mounts && Within(path, m)
      && (forall x :: x in mounts && Within(path, x) ==> |x.relativePath| <= |m.relativePath|)
      && exists i :: FirstLongest(Matching(path, mounts), i) && Matching(path, mounts)[i] == m
  {
    var matching := Matching(path, mounts);
    MatchingMembers(path, mounts);
    if matching != [] {
      var i := HeadOfSorted(matching);
      assert matching[i] in matching;
      forall x | x in mounts && Within(path, x)
        ensures |x.relativePath| <= |matching[i].relativePath|
      {
        assert x in matching;
        var j :| 0 <= j < |matching| && matching[j] == x;
      }
    } else {
      assert forall m :: m in mounts && Within(path, m) ==> m in matching;
    }
  }

  /** The chosen mount is the deepest one that matches. */
  ghost predicate IsDeepest(m: Mount, path: string, mounts: seq<Mount>) {
    forall x :: x in mounts && Within(path, x) ==> |SegmentsOf(x.relativePath)| <= |SegmentsOf(m.relativePath)|
  }

  ghost predicate AllMounts(site: Site, mounts: seq<Mount>) { forall m :: m in mounts ==> IsMount(site, m) }

  /** The root's "." is as long as a one-character directory: listed first, it is preferred to it. */
  ghost predicate RootShadows(path: string, mounts: seq<Mount>) {
    var matching := Matching(path, mounts);
    && matching != [] && matching[0].relativePath == "."
    && (exists m :: m in matching && m.relativePath != ".")
    && (forall m :: m in matching ==> |m.relativePath| == 1)
  }

  lemma DeeperIsLonger(s: seq<string>, t: seq<string>)
    requires s != [] && s <= t && |s| < |t| && AllSlashFree(s) && AllSlashFree(t)
    ensures |Join(s)| < |Join(t)|
  {
    PrefixesAgree(s, t);
    PrefixesAgree(t, s);
    assert |Terminated(s)| < |Terminated(t)|;
    assert |Join(s)| + 1 == |Terminated(s)| && |Join(t)| + 1 == |Terminated(t)|;
  }

  lemma LongerIsDeeper(site: Site, a: Mount, b: Mount, segs: seq<string>)
    requires IsMount(site, a) && IsMount(site, b)
    requires SegmentsOf(a.relativePath) <= segs && SegmentsOf(b.relativePath) <= segs
    requires SegmentsOf(a.relativePath) != []
    requires |SegmentsOf(a.relativePath)| < |SegmentsOf(b.relativePath)|
    ensures |a.relativePath| < |b.relativePath|
  {
    var s, t := SegmentsOf(a.relativePath), SegmentsOf(b.relativePath);
    assert s == segs[..|s|] == t[..|s|];
    DeeperIsLonger(s, t);
    assert Join(s) + "" == Join(s) && Join(t) + "" == Join(t);
  }

  lemma DotIsRoot(site: Site, m: Mount)
    requires IsMount(site, m)
    ensures m.relativePath == "." <==> SegmentsOf(m.relativePath) == []
    ensures |m.relativePath| >= 1
  {
    RootIsDot(SegmentsOf(m.relativePath));
    PathNamesItsSegments(SegmentsOf(m.relativePath), false);
  }

  lemma ShallowMeansShadowed(site: Site, segs: seq<string>, slash: bool, mounts: seq<Mount>, i: int, x: Mount)
    requires AllPlain(segs) && AllMounts(site, mounts)
    requires FirstLongest(Matching(PathOf(segs, slash), mounts), i) && x in Matching(PathOf(segs, slash), mounts)
    requires |SegmentsOf(Matching(PathOf(segs, slash), mounts)[i].relativePath)| < |SegmentsOf(x.relativePath)|
    ensures RootShadows(PathOf(segs, slash), mounts)
  {
    var path := PathOf(segs, slash);
    var matching := Matching(path, mounts);
    var m := matching[i];
    MatchingMembers(path, mounts);
    assert m in matching;
    WithinIsSegmentPrefix(site, segs, slash, m);
    WithinIsSegmentPrefix(site, segs, slash, x);
    var j :| 0 <= j < |matching| && matching[j] == x;
    if SegmentsOf(m.relativePath) != [] { LongerIsDeeper(site, m, x, segs); }
    DotIsRoot(site, m);
    DotIsRoot(site, x);
    forall y | y in matching
      ensures |y.relativePath| == 1
    {
      DotIsRoot(site, y);
      var k :| 0 <= k < |matching| && matching[k] == y;
    }
    assert |matching[0].relativePath| == 1 && |m.relativePath| == 1;
    assert i == 0;
  }

  lemma ShadowedMeansShallow(site: Site, path: string, mounts: seq<Mount>, i: int)
    requires AllMounts(site, mounts) && RootShadows(path, mounts) && FirstLongest(Matching(path, mounts), i)
    ensures !IsDeepest(Matching(path, mounts)[i], path, mounts)
  {
    var matching := Matching(path, mounts);
    MatchingMembers(path, mounts);
    var m := matching[i];
    assert m in matching && |matching[0].relativePath| == 1;
    assert i == 0;
    var x :| x in matching && x.relativePath != ".";
    DotIsRoot(site, m);
    DotIsRoot(site, x);
    assert x in mounts && Within(path, x);
  }

  /** The chosen mount is the deepest matching one, except where the workspace root shadows a directory with a
      one-character name. */
  lemma ChosenIsDeepestIff(site: Site, segs: seq<string>, slash: bool, mounts: seq<Mount>)
    requires AllPlain(segs) && AllMounts(site, mounts) && FindWritableMount(PathOf(segs, slash), mounts).Some?
    ensures IsDeepest(FindWritableMount(PathOf(segs, slash), mounts).value, PathOf(segs, slash), mounts)
      <==> !RootShadows(PathOf(segs, slash), mounts)
  {
    var path := PathOf(segs, slash);
    var m := FindWritableMount(path, mounts).value;
    ChosenMount(path, mounts);
    MatchingMembers(path, mounts);
    var matching := Matching(path, mounts);
    var i :| FirstLongest(matching, i) && matching[i] == m;
    if !IsDeepest(m, path, mounts) {
      var x :| x in mounts && Within(path, x) && |SegmentsOf(x.relativePath)| > |SegmentsOf(m.relativePath)|;
      ShallowMeansShadowed(site, segs, slash, mounts, i, x);
    }
    if RootShadows(path, mounts) { ShadowedMeansShallow(site, path, mounts, i); }
  }

  /** With the root and "a" approved, "a/x" is written through the root's mount. */
  lemma RootShadowsOneLetter(site: Site)
    ensures FindWritableMount("a/x", [MountAt(site, "."), MountAt(site, "a")]) == Some(MountAt(site, "."))
  {
    var mounts := [MountAt(site, "."), MountAt(site, "a")];
    assert "a" + "/" <= "a/x";
    assert mounts[1..] == [MountAt(site, "a")] && mounts[1..][1..] == [];
    assert Matching("a/x", mounts[1..]) == [MountAt(site, "a")];
    assert Matching("a/x", mounts) == mounts;
    assert Sort(mounts[1..][1..], LongestFirst()) == [];
    assert Sort(mounts[1..], LongestFirst()) == [MountAt(site, "a")];
  }

  // ----- the same file on both sides

  /** Digests name directories: no two share one, and none reads "root". */
  ghost predicate NamesApart(site: Site) {
    && (forall dir :: Plain(site.digest(dir)) && site.digest(dir) != "root")
    && (forall a, b :: site.digest(a) == site.digest(b) ==> a == b)
  }

  lemma PlainName(site: Site, dir: string)
    requires NamesApart(site)
    ensures Plain(MountName(site, dir))
  {
    assert "root"[0] == 'r' && '/' !in "root";
  }

  lemma PlainLiterals()
    ensures Plain(NKLEIN) && Plain(USER_WRITABLE)
  {
    assert forall i :: 0 <= i < |NKLEIN| ==> NKLEIN[i] != '/';
    assert forall i :: 0 <= i < |USER_WRITABLE| ==> USER_WRITABLE[i] != '/';
  }

  lemma SplitTwo(a: string, b: string)
    requires Plain(a) && Plain(b)
    ensures Split("/" + a + "/" + b) == ["", a, b]
    ensures SegmentsOf("/" + a + "/" + b) == [a, b]
  {
    assert "/" + a + "/" + b == "" + "/" + (a + "/" + b);
    SplitHead("", a + "/" + b);
    SplitHead(a, b);
    SplitHead(b, "");
    var plain := [a, b];
    PlainOnesOfPlain(plain);
    ResolveOnto([""], plain, true);
    assert [""] + plain == ["", a, b] && [""][..0] == [];
  }

  lemma ConcatSegments(container: string, path: string)
    requires IsAbsolute(container) && forall p :: p in Split(path) ==> Harmless(p)
    ensures SegmentsOf(container + "/" + path) == SegmentsOf(container) + PlainOnes(Split(path))
  {
    SplitConcat(container, path);
    ResolveOnto(Split(container), Split(path), true);
  }

  function ContainerSegments(site: Site, dir: string): seq<string> { [NKLEIN, USER_WRITABLE, MountName(site, dir)] }

  lemma ContainerPlace(site: Site, dir: string)
    requires NamesApart(site)
    ensures IsAbsolute(MountAt(site, dir).containerPath)
    ensures SegmentsOf(MountAt(site, dir).containerPath) == ContainerSegments(site, dir)
  {
    PlainName(site, dir);
    var name := MountName(site, dir);
    SplitHead(name, "");
    PlainOnesOfPlain([name]);
    ConcatSegments(USER_WRITABLE_MOUNT_ROOT, name);
    PlainLiterals();
    SplitTwo(NKLEIN, USER_WRITABLE);
  }

  lemma MountedSegments(site: Site, segs: seq<string>, slash: bool, m: Mount)
    requires AllPlain(segs) && IsMount(site, m) && NamesApart(site) && Within(PathOf(segs, slash), m)
    ensures SegmentsOf(m.relativePath) <= segs
    ensures SegmentsOf(ToMountedPath(PathOf(segs, slash), m))
         == ContainerSegments(site, m.relativePath) + segs[|SegmentsOf(m.relativePath)|..]
  {
    var path, dir := PathOf(segs, slash), SegmentsOf(m.relativePath);
    WithinIsSegmentPrefix(site, segs, slash, m);
    ContainerPlace(site, m.relativePath);
    DotIsRoot(site, m);
    PathNamesItsSegments(segs, slash);
    if dir == [] {
      PartsOfPath(segs, slash);
      if path != "." { ConcatSegments(m.containerPath, path); } else { PathNamesItsSegments([], false); }
    } else {
      var rest := segs[|dir|..];
      assert forall s :: s in rest ==> s in segs;
      RelativeInside(dir, segs);
      if rest != [] {
        JoinedEnds(rest);
        PartsOfPath(rest, false);
        assert Join(rest) + "" == Join(rest);
        ConcatSegments(m.containerPath, Join(rest));
      }
    }
  }

  /** The bind mounts: a container path below a mount's place is the host path below the directory mounted there. */
  ghost predicate Under(m: Mount, path: string) { SegmentsOf(m.containerPath) <= SegmentsOf(path) }

  ghost function HostPlace(m: Mount, path: string): seq<string>
    requires Under(m, path)
  {
    m.hostPath + SegmentsOf(path)[|SegmentsOf(m.containerPath)|..]
  }

  lemma NamesTellApart(site: Site, a: string, b: string)
    requires NamesApart(site)
    ensures MountName(site, a) == MountName(site, b) ==> a == b
  {
  }

  lemma UnderOneName(path: seq<string>, first: string, second: string, name: string, other: string, rest: seq<string>)
    requires path == [first, second, name] + rest
    ensures [first, second, name] <= path && path[3..] == rest
    ensures [first, second, other] <= path ==> other == name
  {
    if [first, second, other] <= path { assert path[2] == [first, second, other][2]; }
  }

  /** Whichever matching mount is chosen, the mounted path lies under that mount and no other, and is the same host file
      as the workspace path. */
  lemma MountedPathIsTheSameFile(site: Site, segs: seq<string>, slash: bool, m: Mount, other: Mount)
    requires AllPlain(segs) && IsMount(site, m) && IsMount(site, other) && NamesApart(site)
    requires Within(PathOf(segs, slash), m)
    ensures var mounted := ToMountedPath(PathOf(segs, slash), m);
      && Under(m, mounted)
      && (Under(other, mounted) ==> other == m)
      && HostPlace(m, mounted) == site.workspace + segs
  {
    MountedSegments(site, segs, slash, m);
    ContainerPlace(site, m.relativePath);
    ContainerPlace(site, other.relativePath);
    var dir := SegmentsOf(m.relativePath);
    var place := SegmentsOf(ToMountedPath(PathOf(segs, slash), m));
    UnderOneName(place, NKLEIN, USER_WRITABLE, MountName(site, m.relativePath), MountName(site, other.relativePath), segs[|dir|..]);
    assert segs == dir + segs[|dir|..];
    assert m.hostPath + segs[|dir|..] == site.workspace + (dir + segs[|dir|..]);
    NamesTellApart(site, m.relativePath, other.relativePath);
  }

  lemma ResolvedIsNormal(value: Option<Chat.Value>)
    requires ResolveRelativePath(value).Path?
    ensures var p := ResolveRelativePath(value).path;
      AllPlain(SegmentsOf(p)) && p == PathOf(SegmentsOf(p), EndsInSlash(p))
  {
    var raw := Trim(value.value.text);
    NormalForm(raw);
    PathNamesItsSegments(SegmentsOf(raw), EndsInSlash(raw));
  }

  /** End to end: for every approval list and every path that the model asks to write, when the tool writes, both the
      workspace copy and the mounted copy are the one file at or below an approved directory. */
  lemma WritesLandOnOneApprovedFile(site: Site, approved: seq<string>, path: Option<Chat.Value>,
                                    content: Option<Chat.Value>) returns (m: Mount)
    requires AllPlain(site.workspace) && NamesApart(site)
    requires WriteTarget(path, content, Sort(MountsOf(site, approved), ByName(site))).Write?
    ensures var t := WriteTarget(path, content, Sort(MountsOf(site, approved), ByName(site)));
      && Under(m, t.mounted)
      && HostPlace(m, t.mounted) == site.workspace + SegmentsOf(t.path)
      && SegmentsOf(m.relativePath) <= SegmentsOf(t.path)
      && exists i :: 0 <= i < |approved| && NormalizeApproved(site, approved[i]) == Some(m.relativePath)
  {
    var mounts := Sort(MountsOf(site, approved), ByName(site));
    var p := ResolveRelativePath(path).path;
    ResolvedIsNormal(path);
    ChosenMount(p, mounts);
    m := FindWritableMount(p, mounts).value;
    MountsAreTheApprovals(site, approved, m.relativePath);
    assert HasMount(mounts, m.relativePath);
    MountedPathIsTheSameFile(site, SegmentsOf(p), EndsInSlash(p), m, m);
    WithinIsSegmentPrefix(site, SegmentsOf(p), EndsInSlash(p), m);
  }

  // ----- approving and writing

  /** A path is approved beforehand exactly when the tool itself will write some text to it. */
  lemma ApprovalAgreesWithTheTool(path: Option<Chat.Value>, text: string, mounts: seq<Mount>)
    ensures IsApproved(path, mounts) <==> WriteTarget(path, Some(Chat.Str(text)), mounts).Write?
    ensures WriteTarget(path, None, mounts).Refused?
  {
  }

  /** The check against writing the workspace root compares with "." only: the root passes for a file exactly when it is
      spelt with a final slash and is itself approved. */
  lemma RootIsApprovedIff(site: Site, path: Option<Chat.Value>, mounts: seq<Mount>)
    requires AllMounts(site, mounts) && ResolveRelativePath(path).Path?
    requires SegmentsOf(ResolveRelativePath(path).path) == []
    ensures IsApproved(path, mounts) <==> EndsInSlash(ResolveRelativePath(path).path) && HasMount(mounts, ".")
  {
    var p := ResolveRelativePath(path).path;
    ResolvedIsNormal(path);
    ChosenMount(p, mounts);
    forall m | m in mounts
      ensures Within(p, m) <==> m.relativePath == "."
    {
      WithinIsSegmentPrefix(site, [], EndsInSlash(p), m);
      DotIsRoot(site, m);
    }
  }

  // ----- the walk to an existing ancestor

  /** The path and its ancestors up to the workspace, nearest first. */
  function Ancestry(segs: seq<string>, slash: bool): seq<string>
    decreases |segs|, slash
  {
    [PathOf(segs, slash)]
    + if segs != [] then Ancestry(segs[..|segs| - 1], false)
      else if slash then Ancestry([], false)
      else []
  }

  /** The nearest existing one decides. */
  ghost predicate DecidedAt(root: string, places: seq<string>, realpath: string -> Option<string>, v: Verdict, k: int) {
    && 0 <= k < |places|
    && (forall j :: 0 <= j < k ==> realpath(places[j]).None?)
    && realpath(places[k]).Some?
    && v == if IsInside(root, realpath(places[k]).value) then Inside else Outside
  }

  ghost predicate Decided(root: string, places: seq<string>, realpath: string -> Option<string>, v: Verdict) {
    || (v == NotWritable && forall j :: 0 <= j < |places| ==> realpath(places[j]).None?)
    || exists k :: DecidedAt(root, places, realpath, v, k)
  }

  lemma DecidedFurtherUp(root: string, place: string, rest: seq<string>, realpath: string -> Option<string>, v: Verdict)
    requires realpath(place).None? && Decided(root, rest, realpath, v)
    ensures Decided(root, [place] + rest, realpath, v)
  {
    var all := [place] + rest;
    if k :| DecidedAt(root, rest, realpath, v, k) {
      assert all[k + 1] == rest[k];
      assert DecidedAt(root, all, realpath, v, k + 1);
    }
  }

  /** The walk ends, and answers for the nearest existing ancestor: the write goes ahead exactly when that one is inside. */
  lemma {:induction false} WalkFindsNearestAncestor(root: string, segs: seq<string>, slash: bool,
                                                    realpath: string -> Option<string>)
    requires AllPlain(segs)
    ensures PathOf(segs, slash) != ""
    ensures Decided(root, Ancestry(segs, slash), realpath, Walk(root, PathOf(segs, slash), realpath))
    decreases |segs|, slash
  {
    var p := PathOf(segs, slash);
    PathNamesItsSegments(segs, slash);
    ParentOfPath(segs, slash);
    var v := Walk(root, p, realpath);
    if realpath(p).Some? {
      assert DecidedAt(root, Ancestry(segs, slash), realpath, v, 0);
    } else if segs != [] {
      var up := segs[..|segs| - 1];
      assert forall s :: s in up ==> s in segs;
      PathNamesItsSegments(up, false);
      WalkFindsNearestAncestor(root, up, false, realpath);
      DecidedFurtherUp(root, p, Ancestry(up, false), realpath, v);
    } else if slash {
      WalkFindsNearestAncestor(root, [], false, realpath);
      DecidedFurtherUp(root, p, Ancestry([], false), realpath, v);
    }
  }

  /** The containment test on real paths is the segment test, except that nothing but itself counts as inside "/". */
  lemma InsideIsSegmentPrefix(root: seq<string>, place: seq<string>)
    requires AllPlain(root) && AllPlain(place)
    ensures IsInside("/" + Join(root), "/" + Join(place)) <==> root <= place && (root == [] ==> place == [])
  {
    var r, p := "/" + Join(root), "/" + Join(place);
    assert r[1..] == Join(root) && p[1..] == Join(place);
    if place != [] { JoinedEnds(place); }
    if root != [] {
      JoinedEnds(root);
      if place != [] {
        NamedPrefix(root, place, false);
        assert Join(place) + "" == Join(place);
        assert r + "/" <= p <==> Join(root) + "/" <= Join(place) by { UnderSlash(Join(root) + "/", Join(place)); }
      }
    }
  }

  lemma UnderSlash(s: string, t: string)
    ensures "/" + s <= "/" + t <==> s <= t
  {
    assert ("/" + s)[1..] == s && ("/" + t)[1..] == t;
  }
}
