/** What a path that the model asks for denotes, which requests are refused and why, and in which order the mounts are
    listed. */
module WritableMountsRules {
  import opened Wrappers
  import opened Text
  import opened Sorting
  import Chat
  import opened PosixPath
  import opened WritableMounts
  import opened WritableMountsGuarantees

  // ----- what ".." means

  lemma ResolveOneMore(parts: seq<string>, last: string, absolute: bool)
    ensures Resolve(parts + [last], absolute) == Enter(Resolve(parts, absolute), last, absolute)
  {
    assert (parts + [last])[..|parts|] == parts;
  }

  /** Going down and up again is going nowhere. */
  lemma UpUndoesDown(parts: seq<string>, name: string, absolute: bool)
    requires Plain(name)
    ensures Resolve(parts + [name] + [".."], absolute) == Resolve(parts, absolute)
  {
    ResolveOneMore(parts, name, absolute);
    ResolveOneMore(parts + [name], "..", absolute);
    var done := Resolve(parts, absolute);
    assert (done + [name])[..|done|] == done;
  }

  function Ups(n: nat): seq<string> { seq(n, _ => "..") }

  /** Above the start of a relative path every step up counts; above "/" there is nothing. */
  lemma {:induction false} UpsFromTheTop(n: nat)
    ensures Resolve(Ups(n), false) == Ups(n) && Resolve(Ups(n), true) == []
  {
    if n > 0 {
      UpsFromTheTop(n - 1);
      assert Ups(n) == Ups(n - 1) + [".."];
      ResolveOneMore(Ups(n - 1), "..", false);
      ResolveOneMore(Ups(n - 1), "..", true);
    }
  }

  /** What a path comes to depends only on what its beginning comes to. */
  lemma {:induction false} ResolveInSteps(a: seq<string>, b: seq<string>, rest: seq<string>, absolute: bool)
    requires Resolve(a, absolute) == Resolve(b, absolute)
    ensures Resolve(a + rest, absolute) == Resolve(b + rest, absolute)
  {
    if rest == [] {
      assert a + rest == a && b + rest == b;
    } else {
      var init, last := rest[..|rest| - 1], rest[|rest| - 1];
      ResolveInSteps(a, b, init, absolute);
      assert a + rest == a + init + [last] && b + rest == b + init + [last];
      ResolveOneMore(a + init, last, absolute);
      ResolveOneMore(b + init, last, absolute);
    }
  }

  /** So a directory that is left again can be cut out of a path anywhere. */
  lemma DetoursDoNotMatter(before: seq<string>, name: string, after: seq<string>, absolute: bool)
    requires Plain(name)
    ensures Resolve(before + [name] + [".."] + after, absolute) == Resolve(before + after, absolute)
  {
    UpUndoesDown(before, name, absolute);
    ResolveInSteps(before + [name] + [".."], before, after, absolute);
  }

  // ----- approvals

  /** Only backslashes are turned, each into a slash. */
  lemma BackslashesTurn(s: string)
    ensures var t := BackslashesToSlashes(s);
      |t| == |s| && forall i :: 0 <= i < |s| ==> t[i] != '\\' && (s[i] != '\\' ==> t[i] == s[i]) && (s[i] == '\\' ==> t[i] == '/')
  {
  }

  function Dirs(mounts: seq<Mount>): multiset<string> {
    if mounts == [] then multiset{} else multiset{mounts[0].relativePath} + Dirs(mounts[1..])
  }

  lemma {:induction false} DirsOfInsert(m: Mount, mounts: seq<Mount>, le: (Mount, Mount) -> bool)
    ensures Dirs(Insert(m, mounts, le)) == multiset{m.relativePath} + Dirs(mounts)
  {
    if mounts != [] && !le(m, mounts[0]) {
      DirsOfInsert(m, mounts[1..], le);
      assert Insert(m, mounts, le)[1..] == Insert(m, mounts[1..], le);
    } else {
      assert ([m] + mounts)[1..] == mounts;
    }
  }

  lemma {:induction false} DirsOfSort(mounts: seq<Mount>, le: (Mount, Mount) -> bool)
    ensures Dirs(Sort(mounts, le)) == Dirs(mounts)
  {
    if mounts != [] {
      DirsOfSort(mounts[1..], le);
      DirsOfInsert(mounts[0], Sort(mounts[1..], le), le);
    }
  }

  lemma {:induction false} DirAt(mounts: seq<Mount>, i: nat)
    requires i < |mounts|
    ensures Dirs(mounts)[mounts[i].relativePath] >= 1
  {
    if i > 0 { DirAt(mounts[1..], i - 1); }
  }

  lemma {:induction false} DirAtTwo(mounts: seq<Mount>, i: nat, j: nat)
    requires i < j < |mounts| && mounts[i].relativePath == mounts[j].relativePath
    ensures Dirs(mounts)[mounts[i].relativePath] >= 2
  {
    if i == 0 { DirAt(mounts[1..], j - 1); } else { DirAtTwo(mounts[1..], i - 1, j - 1); }
  }

  lemma {:induction false} DistinctDirsOnce(mounts: seq<Mount>, dir: string)
    requires DistinctDirs(mounts)
    ensures Dirs(mounts)[dir] <= 1
    ensures Dirs(mounts)[dir] == 1 ==> exists i :: 0 <= i < |mounts| && mounts[i].relativePath == dir
  {
    if mounts != [] {
      var rest := mounts[1..];
      assert forall i :: 0 <= i < |rest| ==> rest[i] == mounts[i + 1];
      DistinctDirsOnce(rest, dir);
      if Dirs(rest)[dir] == 1 {
        var i :| 0 <= i < |rest| && rest[i].relativePath == dir;
        assert mounts[i + 1].relativePath == dir;
      }
    }
  }

  lemma OnceMeansDistinct(mounts: seq<Mount>)
    requires forall dir :: Dirs(mounts)[dir] <= 1
    ensures DistinctDirs(mounts)
  {
    forall i, j | 0 <= i < j < |mounts|
      ensures mounts[i].relativePath != mounts[j].relativePath
    {
      if mounts[i].relativePath == mounts[j].relativePath { DirAtTwo(mounts, i, j); }
    }
  }

  lemma SortKeepsDistinct(mounts: seq<Mount>, le: (Mount, Mount) -> bool)
    requires DistinctDirs(mounts)
    ensures DistinctDirs(Sort(mounts, le))
  {
    DirsOfSort(mounts, le);
    forall dir
      ensures Dirs(Sort(mounts, le))[dir] <= 1
    {
      DistinctDirsOnce(mounts, dir);
    }
    OnceMeansDistinct(Sort(mounts, le));
  }

  lemma SortOrders(site: Site, mounts: seq<Mount>)
    ensures var sorted := Sort(mounts, ByName(site));
      forall i, j :: 0 <= i < j < |sorted| ==> site.collate(sorted[i].relativePath) <= site.collate(sorted[j].relativePath)
  {
    SortSorts(mounts, ByName(site));
    var sorted := Sort(mounts, ByName(site));
    forall i, j | 0 <= i < j < |sorted|
      ensures site.collate(sorted[i].relativePath) <= site.collate(sorted[j].relativePath)
    {
      assert ByName(site)(sorted[i], sorted[j]);
    }
  }

  /** The mounts are listed by the collation of their directories, each directory once. */
  lemma MountsAreListed(site: Site, approved: seq<string>)
    requires AllPlain(site.workspace)
    ensures var mounts := Sort(MountsOf(site, approved), ByName(site));
      && DistinctDirs(mounts)
      && forall i, j :: 0 <= i < j < |mounts| ==> site.collate(mounts[i].relativePath) <= site.collate(mounts[j].relativePath)
  {
    MountsServeApprovals(site, approved);
    SortKeepsDistinct(MountsOf(site, approved), ByName(site));
    SortOrders(site, MountsOf(site, approved));
  }

  // ----- requests

  /** The text that the model gives as a path. */
  predicate Asked(path: Option<Chat.Value>, raw: string) { path.Some? && path.value.Str? && Trim(path.value.text) == raw != "" }

  /** The request names a place inside the workspace. */
  predicate StaysBelow(raw: string) { !IsAbsolute(raw) && (SegmentsOf(raw) == [] || SegmentsOf(raw)[0] != "..") }

  lemma ResolvedMeans(path: Option<Chat.Value>, raw: string)
    requires Asked(path, raw)
    ensures IsAbsolute(raw) ==> ResolveRelativePath(path) == Bad(NotRelative)
    ensures !IsAbsolute(raw) && !StaysBelow(raw) ==> ResolveRelativePath(path) == Bad(EscapesWorkspace)
    ensures StaysBelow(raw) ==> ResolveRelativePath(path) == Path(PathOf(SegmentsOf(raw), EndsInSlash(raw))) && AllPlain(SegmentsOf(raw))
  {
    if !IsAbsolute(raw) { NormalForm(raw); }
  }

  /** Some mount's directory is at or above the place. */
  ghost predicate Approved(mounts: seq<Mount>, segs: seq<string>) { exists m :: m in mounts && SegmentsOf(m.relativePath) <= segs }

  lemma FoundIffApproved(site: Site, segs: seq<string>, slash: bool, mounts: seq<Mount>)
    requires AllPlain(segs) && AllMounts(site, mounts)
    ensures FindWritableMount(PathOf(segs, slash), mounts).Some? <==> Approved(mounts, segs)
  {
    ChosenMount(PathOf(segs, slash), mounts);
    forall m | m in mounts
      ensures Within(PathOf(segs, slash), m) <==> SegmentsOf(m.relativePath) <= segs
    {
      WithinIsSegmentPrefix(site, segs, slash, m);
    }
  }

  /** What becomes of a request to write, reason by reason, in the order in which they are looked at; and when the tool
      writes, it writes the very place that was asked for. */
  lemma RequestsAreAnswered(site: Site, path: Option<Chat.Value>, content: Option<Chat.Value>, mounts: seq<Mount>, raw: string)
    requires AllMounts(site, mounts) && Asked(path, raw)
    ensures var t, segs := WriteTarget(path, content, mounts), SegmentsOf(raw);
      if IsAbsolute(raw) then t == Refused(NotRelative)
      else if !StaysBelow(raw) then t == Refused(EscapesWorkspace)
      else if segs == [] && !EndsInSlash(raw) then t == Refused(WorkspaceRoot)
      else if content.None? || !content.value.Str? then t == Refused(NoContent)
      else if !Approved(mounts, segs) then t == Refused(NotApproved)
      else t.Write? && SegmentsOf(t.path) == segs && EndsInSlash(t.path) == EndsInSlash(raw)
  {
    ResolvedMeans(path, raw);
    if StaysBelow(raw) {
      var segs := SegmentsOf(raw);
      PathNamesItsSegments(segs, EndsInSlash(raw));
      PathNamesItsSegments([], false);
      FoundIffApproved(site, segs, EndsInSlash(raw), mounts);
      if PathOf(segs, EndsInSlash(raw)) == "." { assert PathOf(segs, EndsInSlash(raw)) == PathOf([], false); }
    }
  }

  /** A request without a path, or with one that is blank or no text, is refused as such. */
  lemma PathlessIsRefused(path: Option<Chat.Value>, content: Option<Chat.Value>, mounts: seq<Mount>)
    requires path.None? || !path.value.Str? || Trim(path.value.text) == ""
    ensures WriteTarget(path, content, mounts) == Refused(NoPath)
  {
  }
}
