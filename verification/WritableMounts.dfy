/** The user-approved writable directories of a sandbox and the paths written through them
    (`src/chat/chat-sandbox-workspace-tools.ts`). Host and container places are lists of segments below "/". */
module WritableMounts {
  import opened Wrappers
  import opened Text
  import opened Sorting
  import Chat
  import opened PosixPath

  /** `relativePath` is the approved directory, "." for the workspace root. */
  datatype Mount = Mount(relativePath: string, hostPath: seq<string>, containerPath: string)

  /** The workspace on the host, the digest that names a mount, and the collation that orders the mounts. */
  datatype Site = Site(workspace: seq<string>, digest: string -> string, collate: string -> real)

  const NKLEIN := "nklein"
  const USER_WRITABLE := "user-writable"
  const USER_WRITABLE_MOUNT_ROOT := "/" + NKLEIN + "/" + USER_WRITABLE

  function MountName(site: Site, relativePath: string): string {
    if relativePath == "." then "root" else site.digest(relativePath)
  }

  function SegmentsOf(path: string): seq<string> { Resolve(Split(path), IsAbsolute(path)) }

  function MountAt(site: Site, relativePath: string): Mount {
    Mount(relativePath, site.workspace + SegmentsOf(relativePath),
          USER_WRITABLE_MOUNT_ROOT + "/" + MountName(site, relativePath))
  }

  // ----- approved directories

  function StripSlashes(s: string): string
    decreases |s|
  {
    if EndsInSlash(s) then StripSlashes(s[..|s| - 1]) else s
  }

  function CanonicalDir(s: string): string {
    if StripSlashes(s) == "" || StripSlashes(s) == "." then "." else StripSlashes(s)
  }

  function BackslashesToSlashes(s: string): string {
    seq(|s|, i requires 0 <= i < |s| => if s[i] == '\\' then '/' else s[i])
  }

  function CommonPrefix(a: seq<string>, b: seq<string>): (n: nat)
    ensures n <= |a| && n <= |b| && a[..n] == b[..n]
  {
    if a == [] || b == [] || a[0] != b[0] then 0
    else
      var n := 1 + CommonPrefix(a[1..], b[1..]);
      assert a[..n] == [a[0]] + a[1..][..n - 1] && b[..n] == [b[0]] + b[1..][..n - 1];
      n
  }

  /** `relative(from, to)` of the path library, for places given by their segments. */
  function RelativePath(from: seq<string>, to: seq<string>): string {
    var n := CommonPrefix(from, to);
    Join(seq(|from| - n, _ => "..") + to[n..])
  }

  function NormalizeApproved(site: Site, value: string): Option<string> {
    var raw := Trim(value);
    if raw == "" then None
    else if IsAbsolute(raw) then
      var relative := RelativePath(site.workspace, SegmentsOf(raw));
      if Escapes(relative) || IsAbsolute(relative) then None else Some(CanonicalDir(Normalize(relative)))
    else
      var normalized := Normalize(BackslashesToSlashes(raw));
      if IsAbsolute(normalized) || Escapes(normalized) then None else Some(CanonicalDir(normalized))
  }

  /** The mounts of the approved directories, each once, in the order first named. */
  function MountsOf(site: Site, approved: seq<string>): seq<Mount> {
    if approved == [] then []
    else
      var before := MountsOf(site, approved[..|approved| - 1]);
      match NormalizeApproved(site, approved[|approved| - 1])
      case None => before
      case Some(dir) => if HasMount(before, dir) then before else before + [MountAt(site, dir)]
  }

  predicate HasMount(mounts: seq<Mount>, dir: string) { exists m :: m in mounts && m.relativePath == dir }

  function ByName(site: Site): (Mount, Mount) -> bool {
    (a: Mount, b: Mount) => site.collate(a.relativePath) <= site.collate(b.relativePath)
  }

  method ResolveSandboxWritablePathMounts(site: Site, approved: seq<string>) returns (mounts: seq<Mount>)
    ensures mounts == Sort(MountsOf(site, approved), ByName(site))
  {
    var found: seq<Mount> := [];
    var keys: set<string> := {};
    for i := 0 to |approved|
      invariant found == MountsOf(site, approved[..i])
      invariant forall dir :: dir in keys <==> HasMount(found, dir)
    {
      ghost var next := approved[..i + 1];
      assert next[..|next| - 1] == approved[..i];
      var dir := NormalizeApproved(site, approved[i]);
      if dir.Some? && dir.value !in keys {
        found := found + [MountAt(site, dir.value)];
        keys := keys + {dir.value};
      }
    }
    assert approved[..|approved|] == approved;
    mounts := Sort(found, ByName(site));
  }

  // ----- paths to write

  datatype Refusal = NoPath | NotRelative | EscapesWorkspace | WorkspaceRoot | NoContent | NotApproved

  datatype Resolved = Path(path: string) | Bad(why: Refusal)

  /** `resolveRelativePath` without a fallback; a path that is no string is as good as none. */
  function ResolveRelativePath(value: Option<Chat.Value>): Resolved {
    if value.None? || !value.value.Str? || Trim(value.value.text) == "" then Bad(NoPath)
    else
      var raw := Trim(value.value.text);
      if IsAbsolute(raw) then Bad(NotRelative)
      else if Escapes(Normalize(raw)) then Bad(EscapesWorkspace)
      else Path(Normalize(raw))
  }

  predicate Within(path: string, m: Mount) {
    m.relativePath == "." || path == m.relativePath || m.relativePath + "/" <= path
  }

  function Matching(path: string, mounts: seq<Mount>): seq<Mount> {
    if mounts == [] then []
    else (if Within(path, mounts[0]) then [mounts[0]] else []) + Matching(path, mounts[1..])
  }

  function LongestFirst(): (Mount, Mount) -> bool {
    (a: Mount, b: Mount) => |a.relativePath| >= |b.relativePath|
  }

  function FindWritableMount(path: string, mounts: seq<Mount>): Option<Mount> {
    var sorted := Sort(Matching(path, mounts), LongestFirst());
    if sorted == [] then None else Some(sorted[0])
  }

  predicate IsApproved(path: Option<Chat.Value>, mounts: seq<Mount>) {
    var resolved := ResolveRelativePath(path);
    resolved.Path? && resolved.path != "." && FindWritableMount(resolved.path, mounts).Some?
  }

  function ToMountedPath(path: string, m: Mount): string {
    if m.relativePath == "." then
      if path == "." then m.containerPath else m.containerPath + "/" + path
    else
      var suffix := RelativePath(SegmentsOf(m.relativePath), SegmentsOf(path));
      if suffix != "" then m.containerPath + "/" + suffix else m.containerPath
  }

  datatype Target = Write(path: string, mounted: string) | Refused(why: Refusal)

  /** Where `write_file` writes: the workspace copy and the mounted one. */
  function WriteTarget(path: Option<Chat.Value>, content: Option<Chat.Value>, mounts: seq<Mount>): Target {
    match ResolveRelativePath(path)
    case Bad(why) => Refused(why)
    case Path(p) =>
      if p == "." then Refused(WorkspaceRoot)
      else if content.None? || !content.value.Str? then Refused(NoContent)
      else match FindWritableMount(p, mounts)
        case None => Refused(NotApproved)
        case Some(m) => Write(p, ToMountedPath(p, m))
  }

  // ----- the walk up to an existing ancestor

  datatype Verdict = Inside | Outside | NotWritable | NoRoot

  predicate IsInside(root: string, target: string) { target == root || root + "/" <= target }

  /** A shorter path, or the dot after a one-character name. */
  lemma ParentIsSmaller(s: string)
    requires s != "" && Dirname(s) != s
    ensures Dirname(s) != ""
    ensures |Dirname(s)| < |s| || (|Dirname(s)| == |s| && Dirname(s) == "." && s != ".")
  {
  }

  /** The verdict on a path, given what `realpath` answers for it and its ancestors. */
  function Walk(root: string, candidate: string, realpath: string -> Option<string>): Verdict
    requires candidate != ""
    decreases |candidate|, if candidate == "." then 0 else 1
  {
    match realpath(candidate)
    case Some(place) => if IsInside(root, place) then Inside else Outside
    case None =>
      if Dirname(candidate) == candidate then NotWritable
      else
        ParentIsSmaller(candidate);
        Walk(root, Dirname(candidate), realpath)
  }

  method AssertWritablePathInside(root: Option<string>, path: string, realpath: string -> Option<string>)
    returns (verdict: Verdict)
    requires path != ""
    ensures verdict == if root.None? then NoRoot else Walk(root.value, path, realpath)
  {
    if root.None? { return NoRoot; }
    var candidate := path;
    while true
      invariant candidate != "" && Walk(root.value, path, realpath) == Walk(root.value, candidate, realpath)
      decreases |candidate|, if candidate == "." then 0 else 1
    {
      var place := realpath(candidate);
      if place.Some? {
        return if IsInside(root.value, place.value) then Inside else Outside;
      }
      var parent := Dirname(candidate);
      if parent == candidate { return NotWritable; }
      ParentIsSmaller(candidate);
      candidate := if parent == "" then "." else parent;
    }
  }
}
