/** The workspace walk that both copy.go files build on: filepath.WalkDir over
    a directory tree with a callback that prunes ignored directories, skips
    ignored files and collects every other non-directory path.

    A path is a list of components (filepath.Join is concatenation); the
    empty list stands for ".". Glob matching (filepath.Match) is a parameter:
    `None` means a malformed pattern. */
module Workspace {
  import opened Wrappers

  type Path = seq<string>

  /** filepath.Match(pattern, path): Some(matched), or None for a bad pattern. */
  type Matcher = (string, Path) -> Option<bool>

  /** A directory entry. Children are listed in the order os.ReadDir returns
      them (sorted by name); `readable` is false when reading the directory
      fails. Symbolic links and other non-directories are `File`s. */
  datatype Node =
    | File(name: string)
    | Dir(name: string, readable: bool, children: seq<Node>)

  /** What os.Stat reports: whether the file is a directory or a regular
      file, its size, and its os.FileMode (type bits and permission bits) as
      a number. `tarable` is false for file types archive/tar cannot
      describe (sockets). */
  datatype FileInfo = FileInfo(isDir: bool, regular: bool, size: nat, mode: nat, tarable: bool)

  /** Bits of os.FileMode: the directory type bit, setuid, setgid, sticky. */
  const ModeDir: nat := 0x8000_0000
  const ModeSetuid: nat := 0x80_0000
  const ModeSetgid: nat := 0x40_0000
  const ModeSticky: nat := 0x10_0000

  /** Whether the bit of value `bit` (a power of two) is set in `m`. */
  predicate HasBit(m: nat, bit: nat)
    requires bit > 0
  {
    (m / bit) % 2 == 1
  }

  /** One archive entry: its header fields, and whether the file's bytes
      were copied after the header. */
  datatype TarEntry = TarEntry(name: Path, isDir: bool, size: nat, mode: nat, copied: bool)

  /** The environment an archive is written in: what os.Stat answers, which
      files os.Open can open, and which header and content writes the
      consumer of the stream accepts. */
  datatype Io = Io(
    stat: Path -> Option<FileInfo>,
    opens: Path -> bool,
    headerWrites: Path -> bool,
    contentWrites: Path -> bool)

  /** filepath.Rel for a root that is an ancestor of `path`. */
  function Rel(root: Path, path: Path): (r: Option<Path>)
    ensures r.Some? <==> root <= path
    ensures r.Some? ==> root + r.value == path
  {
    if root <= path then Some(path[|root|..]) else None
  }

  // ---------------------------------------------------------------------
  // shouldIgnore (identical in internal/prerun/copy.go and internal/build/copy.go)
  // ---------------------------------------------------------------------

  /** True iff some well-formed pattern matches `path`; malformed patterns
      are skipped, not fatal. */
  function ShouldIgnore(path: Path, patterns: seq<string>, matches: Matcher): (r: bool)
    ensures r <==> exists i :: 0 <= i < |patterns| && matches(patterns[i], path) == Some(true)
    decreases |patterns|
  {
    if patterns == [] then false
    else
      match matches(patterns[0], path)
      case None => ShouldIgnore(path, patterns[1..], matches)
      case Some(matched) =>
        if matched then true else ShouldIgnore(path, patterns[1..], matches)
  }

  // ---------------------------------------------------------------------
  // filepath.WalkDir with the collecting callback
  // ---------------------------------------------------------------------

  /** The files collected so far, and whether the walk finished without error. */
  datatype Walked = Walked(files: seq<Path>, ok: bool)

  /** Walk `n`, found at `path`. `skip` is the callback's ignore test: a
      skipped directory is pruned (SkipDir) and a skipped file passed over.
      An unreadable directory makes the callback return the error, which
      stops the whole walk. */
  function Walk(n: Node, path: Path, skip: Path -> bool): Walked
    decreases n
  {
    if skip(path) then Walked([], true)
    else
      match n
      case File(_) => Walked([path], true)
      case Dir(_, readable, cs) =>
        if !readable then Walked([], false) else WalkChildren(cs, path, skip)
  }

  function WalkChildren(cs: seq<Node>, path: Path, skip: Path -> bool): Walked
    decreases cs
  {
    if cs == [] then Walked([], true)
    else
      var first := Walk(cs[0], path + [cs[0].name], skip);
      if !first.ok then first
      else
        var rest := WalkChildren(cs[1..], path, skip);
        Walked(first.files + rest.files, rest.ok)
  }

  /** `f` is a file of the tree at `path` that no ignore test prunes: neither
      `f` nor any directory on the way to it is skipped. */
  predicate Visible(n: Node, path: Path, skip: Path -> bool, f: Path)
    decreases n
  {
    !skip(path) &&
    match n
    case File(_) => f == path
    case Dir(_, _, cs) => exists i :: 0 <= i < |cs| && Visible(cs[i], path + [cs[i].name], skip, f)
  }

  /** The same tree with every directory readable. */
  function Repaired(n: Node): (r: Node)
    decreases n
  {
    match n
    case File(name) => File(name)
    case Dir(name, _, cs) => Dir(name, true, RepairedAll(cs))
  }

  function RepairedAll(cs: seq<Node>): (r: seq<Node>)
    ensures |r| == |cs|
    ensures forall i :: 0 <= i < |cs| ==> r[i].name == cs[i].name
    decreases cs
  {
    if cs == [] then [] else [Repaired(cs[0])] + RepairedAll(cs[1..])
  }

  /** The walk as the source runs it: the callback appends every collected
      path to `files`. */
  method CollectFiles(n: Node, path: Path, skip: Path -> bool, files: seq<Path>)
    returns (collected: seq<Path>, ok: bool)
    ensures collected == files + Walk(n, path, skip).files
    ensures ok == Walk(n, path, skip).ok
    decreases n
  {
    if skip(path) {
      return files, true;
    }
    match n
    case File(_) =>
      return files + [path], true;
    case Dir(_, readable, cs) =>
      if !readable {
        return files, false;
      }
      collected, ok := files, true;
      var i := 0;
      while i < |cs|
        invariant 0 <= i <= |cs|
        invariant files + WalkChildren(cs, path, skip).files == collected + WalkChildren(cs[i..], path, skip).files
        invariant WalkChildren(cs, path, skip).ok == WalkChildren(cs[i..], path, skip).ok
      {
        assert cs[i..][1..] == cs[i + 1..];
        var childOk;
        collected, childOk := CollectFiles(cs[i], path + [cs[i].name], skip, collected);
        if !childOk {
          return collected, false;
        }
        i := i + 1;
      }
      return collected, true;
  }

  // ---------------------------------------------------------------------
  // What the walk collects
  // ---------------------------------------------------------------------

  /** Every collected path is a visible file: a non-directory, not ignored,
      with no ignored ancestor. */
  lemma {:induction false} WalkSound(n: Node, path: Path, skip: Path -> bool)
    ensures forall f :: f in Walk(n, path, skip).files ==> Visible(n, path, skip, f)
    decreases n
  {
    match n
    case File(_) =>
    case Dir(_, readable, cs) =>
      if !skip(path) && readable {
        WalkChildrenSound(cs, path, skip);
      }
  }

  lemma {:induction false} WalkChildrenSound(cs: seq<Node>, path: Path, skip: Path -> bool)
    ensures forall f :: f in WalkChildren(cs, path, skip).files ==>
              exists i :: 0 <= i < |cs| && Visible(cs[i], path + [cs[i].name], skip, f)
    decreases cs
  {
    if cs != [] {
      WalkSound(cs[0], path + [cs[0].name], skip);
      WalkChildrenSound(cs[1..], path, skip);
      forall f | f in WalkChildren(cs, path, skip).files
        ensures exists i :: 0 <= i < |cs| && Visible(cs[i], path + [cs[i].name], skip, f)
      {
        if f in Walk(cs[0], path + [cs[0].name], skip).files {
          assert Visible(cs[0], path + [cs[0].name], skip, f);
        } else {
          assert f in WalkChildren(cs[1..], path, skip).files;
          var j :| 0 <= j < |cs[1..]| && Visible(cs[1..][j], path + [cs[1..][j].name], skip, f);
          assert Visible(cs[j + 1], path + [cs[j + 1].name], skip, f);
        }
      }
    }
  }

  /** A walk that finishes without error collects every visible file. */
  lemma {:induction false} WalkComplete(n: Node, path: Path, skip: Path -> bool, f: Path)
    requires Walk(n, path, skip).ok
    requires Visible(n, path, skip, f)
    ensures f in Walk(n, path, skip).files
    decreases n
  {
    match n
    case File(_) =>
    case Dir(_, _, cs) =>
      var i :| 0 <= i < |cs| && Visible(cs[i], path + [cs[i].name], skip, f);
      WalkChildrenComplete(cs, path, skip, i, f);
  }

  lemma {:induction false} WalkChildrenComplete(cs: seq<Node>, path: Path, skip: Path -> bool, i: nat, f: Path)
    requires WalkChildren(cs, path, skip).ok
    requires i < |cs| && Visible(cs[i], path + [cs[i].name], skip, f)
    ensures f in WalkChildren(cs, path, skip).files
    decreases cs
  {
    var first := Walk(cs[0], path + [cs[0].name], skip);
    if i == 0 {
      WalkComplete(cs[0], path + [cs[0].name], skip, f);
    } else {
      assert cs[1..][i - 1] == cs[i];
      WalkChildrenComplete(cs[1..], path, skip, i - 1, f);
    }
  }

  /** A visible file lies below `path`, and neither it nor any directory
      between `path` and it is skipped. */
  lemma {:induction false} VisibleUnpruned(n: Node, path: Path, skip: Path -> bool, f: Path)
    requires Visible(n, path, skip, f)
    ensures path <= f
    ensures forall k :: |path| <= k <= |f| ==> !skip(f[..k])
    decreases n
  {
    match n
    case File(_) =>
      assert f[..|f|] == f;
    case Dir(_, _, cs) =>
      var i :| 0 <= i < |cs| && Visible(cs[i], path + [cs[i].name], skip, f);
      var child := path + [cs[i].name];
      VisibleUnpruned(cs[i], child, skip, f);
      assert f[..|path|] == path by {
        assert child[..|path|] == path;
        assert f[..|child|] == child;
      }
  }

  /** An ignored directory is pruned: nothing below it is collected. */
  lemma PrunedCollectsNothing(n: Node, path: Path, skip: Path -> bool, f: Path)
    requires exists k :: |path| <= k <= |f| && skip(f[..k])
    ensures f !in Walk(n, path, skip).files
  {
    WalkSound(n, path, skip);
    if f in Walk(n, path, skip).files {
      VisibleUnpruned(n, path, skip, f);
    }
  }

  /** A walk error leaves a partial list: what was collected is a prefix of
      what the same walk collects when every directory can be read, and a
      walk without error collects exactly that. */
  lemma {:induction false} WalkErrorPrefix(n: Node, path: Path, skip: Path -> bool)
    ensures Walk(n, path, skip).files <= Walk(Repaired(n), path, skip).files
    ensures Walk(n, path, skip).ok ==> Walk(n, path, skip) == Walk(Repaired(n), path, skip)
    decreases n
  {
    match n
    case File(_) =>
    case Dir(_, readable, cs) =>
      if !skip(path) && readable {
        WalkChildrenErrorPrefix(cs, path, skip);
      }
  }

  lemma {:induction false} WalkChildrenErrorPrefix(cs: seq<Node>, path: Path, skip: Path -> bool)
    ensures WalkChildren(cs, path, skip).files <= WalkChildren(RepairedAll(cs), path, skip).files
    ensures WalkChildren(cs, path, skip).ok ==>
              WalkChildren(cs, path, skip) == WalkChildren(RepairedAll(cs), path, skip)
    decreases cs
  {
    if cs != [] {
      var rcs := RepairedAll(cs);
      assert rcs[0] == Repaired(cs[0]) && rcs[1..] == RepairedAll(cs[1..]);
      var child := path + [cs[0].name];
      WalkErrorPrefix(cs[0], child, skip);
      WalkChildrenErrorPrefix(cs[1..], path, skip);
      RepairedWalksClean(cs[0], child, skip);
      var first := Walk(cs[0], child, skip);
      var rfirst := Walk(rcs[0], child, skip);
      if first.ok {
        assert first == rfirst;
      } else {
        var rrest := WalkChildren(rcs[1..], path, skip);
        assert WalkChildren(rcs, path, skip).files == rfirst.files + rrest.files;
      }
    }
  }

  /** With every directory readable, the walk never fails. */
  lemma {:induction false} RepairedWalksClean(n: Node, path: Path, skip: Path -> bool)
    ensures Walk(Repaired(n), path, skip).ok
    decreases n
  {
    match n
    case File(_) =>
    case Dir(_, _, cs) =>
      RepairedChildrenWalkClean(cs, path, skip);
  }

  lemma {:induction false} RepairedChildrenWalkClean(cs: seq<Node>, path: Path, skip: Path -> bool)
    ensures WalkChildren(RepairedAll(cs), path, skip).ok
    decreases cs
  {
    if cs != [] {
      var rcs := RepairedAll(cs);
      assert rcs[0] == Repaired(cs[0]) && rcs[1..] == RepairedAll(cs[1..]);
      RepairedWalksClean(cs[0], path + [cs[0].name], skip);
      RepairedChildrenWalkClean(cs[1..], path, skip);
    }
  }
}
