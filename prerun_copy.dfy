/** The current workspace archiver (internal/prerun/copy.go): ignore globs
    are matched against the path relative to the walk root, and the first
    stat, open or write failure ends the archive stream with that error. */
module PrerunCopy {
  import opened Wrappers
  import opened Workspace
  import Parse

  /** The walk callback's ignore test: the glob list applied to the path
      relative to `root` (filepath.Rel's error is dropped, leaving ""). */
  function IgnoredRelative(root: Path, ignore: seq<string>, matches: Matcher): Path -> bool
  {
    p => ShouldIgnore(Rel(root, p).GetOr([]), ignore, matches)
  }

  /** The files getFilesToSend returns: none when the working directory
      cannot be resolved; otherwise what the walk collected, complete or
      cut short by a walk error. */
  function FilesToSend(cwd: Option<Path>, tree: Node, ignore: seq<string>, matches: Matcher): seq<Path>
  {
    match cwd
    case None => []
    case Some(root) => Walk(tree, root, IgnoredRelative(root, ignore, matches)).files
  }

  method GetFilesToSend(cwd: Option<Path>, tree: Node, ignore: seq<string>, matches: Matcher)
    returns (files: seq<Path>)
    ensures files == FilesToSend(cwd, tree, ignore, matches)
  {
    files := [];
    if cwd.None? {
      return;
    }
    var root := cwd.value;
    var ok;
    files, ok := CollectFiles(tree, root, IgnoredRelative(root, ignore, matches), files);
  }

  /** Every file sent lies under the root, and neither its relative path nor
      that of any directory above it (up to the root) matches a glob. */
  lemma FilesNotIgnored(root: Path, tree: Node, ignore: seq<string>, matches: Matcher, f: Path)
    requires f in FilesToSend(Some(root), tree, ignore, matches)
    ensures root <= f
    ensures forall k :: |root| <= k <= |f| ==> !ShouldIgnore(f[|root|..k], ignore, matches)
  {
    var skip := IgnoredRelative(root, ignore, matches);
    WalkSound(tree, root, skip);
    VisibleUnpruned(tree, root, skip, f);
    forall k | |root| <= k <= |f|
      ensures !ShouldIgnore(f[|root|..k], ignore, matches)
    {
      SkipIsIgnoredRelative(root, ignore, matches, f[..k]);
      PrefixNotIgnored(root, ignore, matches, f, k);
    }
  }

  /** The walk's ignore test passing on a prefix of `f` means the globs
      miss that prefix's root-relative path. */
  lemma PrefixNotIgnored(root: Path, ignore: seq<string>, matches: Matcher, f: Path, k: int)
    requires root <= f && |root| <= k <= |f|
    requires !ShouldIgnore(Rel(root, f[..k]).GetOr([]), ignore, matches)
    ensures !ShouldIgnore(f[|root|..k], ignore, matches)
  {
    RelOfPrefix(root, f, k);
  }

  /** The relative path of a prefix of `f` is the matching slice of `f`. */
  lemma RelOfPrefix(root: Path, f: Path, k: int)
    requires root <= f && |root| <= k <= |f|
    ensures Rel(root, f[..k]) == Some(f[|root|..k])
  {
    assert root <= f[..k];
    assert f[..k][|root|..] == f[|root|..k];
  }

  /** Applying the walk's ignore test is matching the relative path. */
  lemma SkipIsIgnoredRelative(root: Path, ignore: seq<string>, matches: Matcher, p: Path)
    ensures IgnoredRelative(root, ignore, matches)(p) == ShouldIgnore(Rel(root, p).GetOr([]), ignore, matches)
  {
  }

  /** A walk without error sends exactly the visible files: each file under
      the root whose relative path, and whose ancestors' relative paths, no
      glob matches. */
  lemma FilesComplete(root: Path, tree: Node, ignore: seq<string>, matches: Matcher, f: Path)
    requires Walk(tree, root, IgnoredRelative(root, ignore, matches)).ok
    ensures f in FilesToSend(Some(root), tree, ignore, matches) <==>
              Visible(tree, root, IgnoredRelative(root, ignore, matches), f)
  {
    var skip := IgnoredRelative(root, ignore, matches);
    WalkSound(tree, root, skip);
    if Visible(tree, root, skip, f) {
      WalkComplete(tree, root, skip, f);
    }
  }

  // ---------------------------------------------------------------------
  // writeToTar and the entry loop of BuildTar
  // ---------------------------------------------------------------------

  datatype IoError =
    | StatFailed(path: Path)
    | OpenFailed(path: Path)
    | HeaderUnsupported(path: Path)
    | HeaderWriteFailed(path: Path)
    | CopyFailed(path: Path)

  /** What writing one file did: the entry whose header reached the stream,
      if any, and the error that stopped it, if any. */
  datatype Written = Written(entry: Option<TarEntry>, err: Option<IoError>)

  /** The size tar.FileInfoHeader records: the file's size for a regular
      file, zero for a directory or any other kind. */
  function HeaderSize(fi: FileInfo): nat
  {
    if fi.regular then fi.size else 0
  }

  /** The Unix mode bits of a tar header: setuid (0o4000), setgid (0o2000)
      and sticky (0o1000); the nine permission bits lie below 0o1000. */
  const TarSetuid: nat := 2048
  const TarSetgid: nat := 1024
  const TarSticky: nat := 512

  /** The mode tar.FileInfoHeader records: the nine permission bits of the
      os.FileMode, with its setuid, setgid and sticky bits moved to the Unix
      positions 0o4000, 0o2000 and 0o1000. Type bits are dropped. */
  function HeaderMode(m: nat): (h: nat)
    ensures h < 2 * TarSetuid
    ensures h % TarSticky == m % TarSticky
    ensures HasBit(h, TarSetuid) <==> HasBit(m, ModeSetuid)
    ensures HasBit(h, TarSetgid) <==> HasBit(m, ModeSetgid)
    ensures HasBit(h, TarSticky) <==> HasBit(m, ModeSticky)
  {
    m % TarSticky
      + (if HasBit(m, ModeSetuid) then TarSetuid else 0)
      + (if HasBit(m, ModeSetgid) then TarSetgid else 0)
      + (if HasBit(m, ModeSticky) then TarSticky else 0)
  }

  /** The directory type bit never reaches the header: a directory and a
      file with the same permissions get the same mode. */
  lemma HeaderModeDropsDirBit(m: nat)
    requires !HasBit(m, ModeDir)
    ensures HeaderMode(m + ModeDir) == HeaderMode(m)
  {
    DirBitKeepsPermissions(m);
    DirBitAboveSetuid(m);
    DirBitAboveSetgid(m);
    DirBitAboveSticky(m);
  }

  /** The directory bit lies above the permission bits. */
  lemma DirBitKeepsPermissions(m: nat)
    ensures (m + ModeDir) % TarSticky == m % TarSticky
  {
  }

  /** The directory bit is an even multiple of the setuid bit. */
  lemma DirBitAboveSetuid(m: nat)
    ensures (m + ModeDir) / ModeSetuid == m / ModeSetuid + 0x100
  {
  }

  /** The directory bit is an even multiple of the setgid bit. */
  lemma DirBitAboveSetgid(m: nat)
    ensures (m + ModeDir) / ModeSetgid == m / ModeSetgid + 0x200
  {
  }

  /** The directory bit is an even multiple of the sticky bit. */
  lemma DirBitAboveSticky(m: nat)
    ensures (m + ModeDir) / ModeSticky == m / ModeSticky + 0x800
  {
  }




  /** writeToTar: open, build the header from the FileInfo with the
      root-relative name, write it, then copy the content of a
      non-directory. Each failure returns at once. */
  function WriteToTar(root: Path, path: Path, fi: FileInfo, io: Io): (w: Written)
    ensures w.err.None? <==>
              io.opens(path) && fi.tarable && io.headerWrites(path) && (fi.isDir || io.contentWrites(path))
    ensures w.err.None? ==> w.entry.Some?
    ensures w.entry.Some? ==>
              && w.entry.value.isDir == fi.isDir
              && w.entry.value.size == (if fi.regular then fi.size else 0)
              && w.entry.value.mode == HeaderMode(fi.mode)
              && (root <= path ==> root + w.entry.value.name == path)
              && (w.entry.value.copied <==> !fi.isDir && w.err.None?)
  {
    if !io.opens(path) then Written(None, Some(OpenFailed(path)))
    else
      var rel := Rel(root, path).GetOr([]);
      if !fi.tarable then Written(None, Some(HeaderUnsupported(path)))
      else if !io.headerWrites(path) then Written(None, Some(HeaderWriteFailed(path)))
      else if !fi.isDir && !io.contentWrites(path) then
        Written(Some(TarEntry(rel, fi.isDir, HeaderSize(fi), HeaderMode(fi.mode), false)), Some(CopyFailed(path)))
      else
        Written(Some(TarEntry(rel, fi.isDir, HeaderSize(fi), HeaderMode(fi.mode), !fi.isDir)), None)
  }

  /** One iteration of the entry loop: os.Stat, then writeToTar. */
  function Attempt(root: Path, path: Path, io: Io): Written
  {
    match io.stat(path)
    case None => Written(None, Some(StatFailed(path)))
    case Some(fi) => WriteToTar(root, path, fi, io)
  }

  datatype StreamEnd = End | Failed(error: IoError)

  /** What the reader of the pipe sees: the entries, then a clean end or the
      error the producer closed the pipe with. */
  datatype Archive = Archive(entries: seq<TarEntry>, end: StreamEnd)

  /** What the producer loop promises about the archive of `files`: it ends
      cleanly iff every file's stat and write succeed, and then holds one
      entry per file; entry j is file j's; and a failed stream carries the
      first failure's error, after exactly the entries of the files before
      it and the failing file's header if that got out. */
  predicate StreamOf(root: Path, files: seq<Path>, io: Io, a: Archive)
  {
    && (a.end == End <==> forall i :: 0 <= i < |files| ==> Attempt(root, files[i], io).err.None?)
    && (a.end == End ==> |a.entries| == |files|)
    && |a.entries| <= |files|
    && (forall j :: 0 <= j < |a.entries| ==>
          j < |files| && Attempt(root, files[j], io).entry == Some(a.entries[j]))
    && (a.end.Failed? ==>
          exists k :: 0 <= k < |files|
            && (forall i :: 0 <= i < k ==> Attempt(root, files[i], io).err.None?)
            && Attempt(root, files[k], io).err == Some(a.end.error)
            && |a.entries| == k + (if Attempt(root, files[k], io).entry.Some? then 1 else 0))
  }

  /** The producer loop of BuildTar: files in list order; the first failure
      closes the stream with that error and nothing after it is written. */
  method StreamEntries(root: Path, files: seq<Path>, io: Io) returns (a: Archive)
    ensures a.end == End <==> forall i :: 0 <= i < |files| ==> Attempt(root, files[i], io).err.None?
    ensures a.end == End ==> |a.entries| == |files|
    ensures |a.entries| <= |files|
    ensures forall j :: 0 <= j < |a.entries| ==>
              j < |files| && Attempt(root, files[j], io).entry == Some(a.entries[j])
    ensures a.end.Failed? ==>
              exists k :: 0 <= k < |files|
                && (forall i :: 0 <= i < k ==> Attempt(root, files[i], io).err.None?)
                && Attempt(root, files[k], io).err == Some(a.end.error)
                && |a.entries| == k + (if Attempt(root, files[k], io).entry.Some? then 1 else 0)
  {
    var entries: seq<TarEntry> := [];
    var i := 0;
    while i < |files|
      invariant 0 <= i <= |files|
      invariant |entries| == i
      invariant forall j :: 0 <= j < i ==> Attempt(root, files[j], io).err.None?
      invariant forall j :: 0 <= j < i ==> Attempt(root, files[j], io).entry == Some(entries[j])
    {
      var file := files[i];
      var fi := io.stat(file);
      if fi.None? {
        return Archive(entries, Failed(StatFailed(file)));
      }
      var w := WriteToTar(root, file, fi.value, io);
      if w.entry.Some? {
        entries := entries + [w.entry.value];
      }
      if w.err.Some? {
        return Archive(entries, Failed(w.err.value));
      }
      i := i + 1;
    }
    return Archive(entries, End);
  }

  /** An entry written for a sent file carries the file's root-relative
      path, which no glob matches. */
  lemma EntryNamedRelative(root: Path, tree: Node, ignore: seq<string>, matches: Matcher, io: Io,
                           f: Path, e: TarEntry)
    requires f in FilesToSend(Some(root), tree, ignore, matches)
    requires Attempt(root, f, io).entry == Some(e)
    ensures root + e.name == f
    ensures !ShouldIgnore(e.name, ignore, matches)
  {
    FilesNotIgnored(root, tree, ignore, matches, f);
    WholeSuffix(f, |root|);
    AttemptNamesRelative(root, f, io, e);
  }

  /** Slicing to the end is slicing to the length. */
  lemma WholeSuffix(f: Path, n: nat)
    requires n <= |f|
    ensures f[n..|f|] == f[n..]
  {
  }

  /** The entry written for a path under the root is named by the rest of
      the path. */
  lemma AttemptNamesRelative(root: Path, f: Path, io: Io, e: TarEntry)
    requires root <= f
    requires Attempt(root, f, io).entry == Some(e)
    ensures root + e.name == f
    ensures e.name == f[|root|..]
  {
    assert io.stat(f).Some?;
  }

  /** Entries written in the order of the sent files are named by those
      files' root-relative paths, which no glob matches. */
  lemma EntriesNamed(root: Path, tree: Node, ignore: seq<string>, matches: Matcher, io: Io,
                     files: seq<Path>, entries: seq<TarEntry>)
    requires forall f :: f in files ==> f in FilesToSend(Some(root), tree, ignore, matches)
    requires |entries| <= |files|
    requires forall j :: 0 <= j < |entries| ==> Attempt(root, files[j], io).entry == Some(entries[j])
    ensures forall j :: 0 <= j < |entries| ==>
              root + entries[j].name == files[j] && !ShouldIgnore(entries[j].name, ignore, matches)
  {
    forall j | 0 <= j < |entries|
      ensures root + entries[j].name == files[j] && !ShouldIgnore(entries[j].name, ignore, matches)
    {
      EntryNamedRelative(root, tree, ignore, matches, io, files[j], entries[j]);
    }
  }

  /** BuildTar: no stream at all when the job file cannot be parsed;
      otherwise the stream of the files the walk selected, each entry named
      by its path relative to the working directory. */
  method BuildTar(mesh: Result<Parse.MeshConfig, Parse.LoadError>, cwd: Option<Path>, tree: Node,
                  matches: Matcher, io: Io)
    returns (r: Option<Archive>)
    ensures r.None? <==> mesh.Err?
    ensures r.Some? ==> StreamOf(cwd.GetOr([]), FilesToSend(cwd, tree, mesh.value.ignore, matches), io, r.value)
    ensures r.Some? ==> forall j :: 0 <= j < |r.value.entries| ==>
              && cwd.Some?
              && j < |FilesToSend(cwd, tree, mesh.value.ignore, matches)|
              && cwd.value + r.value.entries[j].name == FilesToSend(cwd, tree, mesh.value.ignore, matches)[j]
              && !ShouldIgnore(r.value.entries[j].name, mesh.value.ignore, matches)
  {
    if mesh.Err? {
      return None;
    }
    var files := GetFilesToSend(cwd, tree, mesh.value.ignore, matches);
    var root := cwd.GetOr([]);
    var a := StreamEntries(root, files, io);
    assert StreamOf(root, files, io, a);
    if cwd.Some? {
      EntriesNamed(root, tree, mesh.value.ignore, matches, io, files, a.entries);
    }
    return Some(a);
  }
}
