/** The older workspace archiver (internal/build/copy.go): ignore globs are
    matched against the absolute path the walk hands the callback, files
    whose stat fails are skipped, and every other write error is ignored. */
module BuildCopy {
  import opened Wrappers
  import opened Workspace
  import Parse

  /** The walk callback's ignore test: the glob list applied to the path as
      the walk reports it, that is, the absolute path. */
  function IgnoredAbsolute(ignore: seq<string>, matches: Matcher): Path -> bool
  {
    p => ShouldIgnore(p, ignore, matches)
  }

  /** The files getFilesToSend returns: none when the working directory
      cannot be made absolute; otherwise what the walk collected, complete
      or cut short by a walk error. */
  function FilesToSend(root: Option<Path>, tree: Node, ignore: seq<string>, matches: Matcher): seq<Path>
  {
    match root
    case None => []
    case Some(r) => Walk(tree, r, IgnoredAbsolute(ignore, matches)).files
  }

  method GetFilesToSend(root: Option<Path>, tree: Node, ignore: seq<string>, matches: Matcher)
    returns (files: seq<Path>)
    ensures files == FilesToSend(root, tree, ignore, matches)
  {
    files := [];
    if root.None? {
      return;
    }
    var ok;
    files, ok := CollectFiles(tree, root.value, IgnoredAbsolute(ignore, matches), files);
  }

  /** Every file sent lies under the root, and neither its absolute path nor
      that of any directory above it (down from the root) matches a glob. */
  lemma FilesNotIgnored(root: Path, tree: Node, ignore: seq<string>, matches: Matcher, f: Path)
    requires f in FilesToSend(Some(root), tree, ignore, matches)
    ensures root <= f
    ensures forall k :: |root| <= k <= |f| ==> !ShouldIgnore(f[..k], ignore, matches)
  {
    var skip := IgnoredAbsolute(ignore, matches);
    WalkSound(tree, root, skip);
    VisibleUnpruned(tree, root, skip, f);
    forall k | |root| <= k <= |f|
      ensures !ShouldIgnore(f[..k], ignore, matches)
    {
      assert !skip(f[..k]);
    }
  }

  /** A walk without error sends exactly the visible files. */
  lemma FilesComplete(root: Path, tree: Node, ignore: seq<string>, matches: Matcher, f: Path)
    requires Walk(tree, root, IgnoredAbsolute(ignore, matches)).ok
    ensures f in FilesToSend(Some(root), tree, ignore, matches) <==>
              Visible(tree, root, IgnoredAbsolute(ignore, matches), f)
  {
    var skip := IgnoredAbsolute(ignore, matches);
    WalkSound(tree, root, skip);
    if Visible(tree, root, skip, f) {
      WalkComplete(tree, root, skip, f);
    }
  }

  // ---------------------------------------------------------------------
  // The tar.Writer that writeToTar and makeTarStream share
  // ---------------------------------------------------------------------

  /** What reaches mesh.tar, in order: a header, or bytes copied from a file
      into whichever entry is current at the time. */
  datatype Block =
    | Header(name: Path, isDir: bool, size: nat, mode: nat)
    | Data(source: Path, count: nat)

  /** The tar.Writer between calls: the bytes the current entry still
      expects, and whether a write to the underlying file has failed, an
      error the writer keeps and returns from every later call. */
  datatype TarWriter = TarWriter(owed: nat, broken: bool)

  /** The writer tar.NewWriter returns. */
  const Fresh := TarWriter(0, false)

  /** A writer state and the blocks written so far. */
  datatype Progress = Progress(w: TarWriter, out: seq<Block>)

  /** The bytes the entry that `out` ends in still expects. */
  function Remaining(out: seq<Block>): int
    decreases |out|
  {
    if out == [] then 0
    else
      var b := out[|out| - 1];
      if b.Header? then (if b.isDir then 0 else b.size)
      else Remaining(out[..|out| - 1]) - b.count
  }

  /** Tar framing: a header only once the entry before it is complete, and
      data only into an entry that still expects at least that much. */
  predicate Framed(out: seq<Block>)
    decreases |out|
  {
    out == [] ||
    (var init, b := out[..|out| - 1], out[|out| - 1];
     Framed(init) &&
     if b.Header? then Remaining(init) == 0 else 0 < b.count <= Remaining(init))
  }

  /** The header writeToTar fills in: the root-relative name, the directory
      flag, the size as reported and the whole os.FileMode, type bits
      included. */
  function HeaderFor(root: Path, path: Path, fi: FileInfo): (h: Block)
    ensures h.Header? && h.isDir == fi.isDir && h.size == fi.size && h.mode == fi.mode
    ensures root <= path ==> root + h.name == path
  {
    var name := match Rel(root, path) case Some(rel) => rel case None => path;
    Header(name, fi.isDir, fi.size, fi.mode)
  }

  /** tw.WriteHeader: refused, with the writer unchanged, once the writer
      has failed or while the current entry is still owed bytes ("missed
      writing N bytes"); a failed write to the file breaks the writer;
      otherwise the header goes out and its entry expects its size, or
      nothing for a directory. */
  function WriteHeader(h: Block, path: Path, io: Io, w: TarWriter): Progress
    requires h.Header?
  {
    if w.broken || w.owed > 0 then Progress(w, [])
    else if !io.headerWrites(path) then Progress(TarWriter(0, true), [])
    else Progress(TarWriter(if h.isDir then 0 else h.size, false), [h])
  }

  /** io.Copy of `available` bytes into the writer: tw.Write takes at most
      what the current entry is still owed and refuses the rest with
      ErrWriteTooLong, which ends the copy without breaking the writer; a
      failed write to the file breaks it. */
  function Copy(path: Path, available: nat, io: Io, w: TarWriter): Progress
  {
    var n := if available <= w.owed then available else w.owed;
    if w.broken || n == 0 then Progress(w, [])
    else if !io.contentWrites(path) then Progress(TarWriter(w.owed, true), [])
    else Progress(TarWriter(w.owed - n, false), [Data(path, n)])
  }

  /** Whether tw.WriteHeader accepts the header of `path` from state `w`. */
  predicate Accepts(path: Path, io: Io, w: TarWriter)
  {
    !w.broken && w.owed == 0 && io.headerWrites(path)
  }

  /** writeToTar: every error is dropped. The header goes to the shared
      writer, which may refuse it; then a non-directory is copied, and a
      file that could not be opened yields no bytes at all. The copy lands
      in whatever entry is current, so bytes still owed to an earlier entry
      are filled from this file. */
  function WriteToTar(root: Path, path: Path, fi: FileInfo, io: Io, w: TarWriter): (p: Progress)
    ensures w.broken ==> p == Progress(w, [])
    ensures (|p.out| > 0 && p.out[0].Header?) <==> Accepts(path, io, w)
    ensures Accepts(path, io, w) ==> p.out[0] == HeaderFor(root, path, fi)
    ensures forall b :: b in p.out && b.Data? ==>
              b.source == path && !fi.isDir && io.opens(path) && 0 < b.count <= fi.size
    ensures !fi.isDir && !io.opens(path) ==>
              p.w.owed == (if Accepts(path, io, w) then fi.size else w.owed)
    ensures Accepts(path, io, w) && (fi.isDir || (io.opens(path) && io.contentWrites(path))) ==>
              p == Progress(Fresh, Clean(root, path, fi))
  {
    var h := WriteHeader(HeaderFor(root, path, fi), path, io, w);
    if fi.isDir then h
    else
      var c := Copy(path, if io.opens(path) then fi.size else 0, io, h.w);
      Progress(c.w, h.out + c.out)
  }

  /** The blocks of one file when nothing goes wrong: its header, then all
      of its bytes. */
  function Clean(root: Path, path: Path, fi: FileInfo): seq<Block>
  {
    [HeaderFor(root, path, fi)] + (if fi.isDir || fi.size == 0 then [] else [Data(path, fi.size)])
  }

  /** One iteration of makeTarStream: os.Stat, then writeToTar; a failed
      stat leaves the writer alone. */
  function Step(root: Path, path: Path, io: Io, w: TarWriter): Progress
  {
    match io.stat(path)
    case None => Progress(w, [])
    case Some(fi) => WriteToTar(root, path, fi, io, w)
  }

  /** makeTarStream's loop from writer state `w`: the files in list order,
      each continuing from the state the one before left. */
  function Stream(root: Path, w: TarWriter, files: seq<Path>, io: Io): Progress
    decreases |files|
  {
    if files == [] then Progress(w, [])
    else
      var p := Stream(root, w, files[..|files| - 1], io);
      var q := Step(root, files[|files| - 1], io, p.w);
      Progress(q.w, p.out + q.out)
  }

  /** tw.Close writes the trailer only when the writer has not failed and
      the last entry is complete. */
  predicate Closes(w: TarWriter)
  {
    !w.broken && w.owed == 0
  }

  method MakeTarStream(root: Path, files: seq<Path>, io: Io) returns (out: seq<Block>, closed: bool)
    ensures out == Stream(root, Fresh, files, io).out
    ensures closed <==> Closes(Stream(root, Fresh, files, io).w)
    ensures Framed(out)
    ensures closed ==> Remaining(out) == 0
  {
    var w := Fresh;
    out := [];
    var i := 0;
    while i < |files|
      invariant 0 <= i <= |files|
      invariant Progress(w, out) == Stream(root, Fresh, files[..i], io)
    {
      assert files[..i + 1][..i] == files[..i];
      var file := files[i];
      var fi := io.stat(file);
      if fi.None? {
        i := i + 1;
        continue;
      }
      var p := WriteToTar(root, file, fi.value, io, w);
      w, out := p.w, out + p.out;
      i := i + 1;
    }
    assert files[..|files|] == files;
    StreamFramed(root, files, io);
    closed := !w.broken && w.owed == 0;
  }

  /** Appending one block to a sequence. */
  lemma Snoc(init: seq<Block>, b: Block)
    ensures Remaining(init + [b]) == if b.Header? then (if b.isDir then 0 else b.size) else Remaining(init) - b.count
    ensures Framed(init + [b]) <==>
              Framed(init) && if b.Header? then Remaining(init) == 0 else 0 < b.count <= Remaining(init)
  {
    assert (init + [b])[..|init + [b]| - 1] == init;
  }

  /** tw.WriteHeader keeps the framing and the count of owed bytes. */
  lemma HeaderFramed(h: Block, path: Path, io: Io, prior: seq<Block>, w: TarWriter)
    requires h.Header? && Framed(prior) && w.owed == Remaining(prior)
    ensures Framed(prior + WriteHeader(h, path, io, w).out)
    ensures WriteHeader(h, path, io, w).w.owed == Remaining(prior + WriteHeader(h, path, io, w).out)
  {
    var p := WriteHeader(h, path, io, w);
    if p.out == [] {
      assert prior + p.out == prior;
    } else {
      assert p.out == [h];
      Snoc(prior, h);
    }
  }

  /** io.Copy keeps the framing and the count of owed bytes. */
  lemma CopyFramed(path: Path, available: nat, io: Io, prior: seq<Block>, w: TarWriter)
    requires Framed(prior) && w.owed == Remaining(prior)
    ensures Framed(prior + Copy(path, available, io, w).out)
    ensures Copy(path, available, io, w).w.owed == Remaining(prior + Copy(path, available, io, w).out)
  {
    var p := Copy(path, available, io, w);
    if p.out == [] {
      assert prior + p.out == prior;
    } else {
      Snoc(prior, p.out[0]);
      assert p.out == [p.out[0]];
    }
  }

  /** One file keeps the framing, and the writer's count of owed bytes
      agrees with the blocks. */
  lemma StepFramed(root: Path, path: Path, io: Io, prior: seq<Block>, w: TarWriter)
    requires Framed(prior) && w.owed == Remaining(prior)
    ensures Framed(prior + Step(root, path, io, w).out)
    ensures Step(root, path, io, w).w.owed == Remaining(prior + Step(root, path, io, w).out)
  {
    if io.stat(path).Some? {
      var fi := io.stat(path).value;
      var hd := HeaderFor(root, path, fi);
      var h := WriteHeader(hd, path, io, w);
      HeaderFramed(hd, path, io, prior, w);
      if !fi.isDir {
        var available := if io.opens(path) then fi.size else 0;
        var c := Copy(path, available, io, h.w);
        CopyFramed(path, available, io, prior + h.out, h.w);
        Associative(prior, h.out, c.out);
      }
    } else {
      assert prior + [] == prior;
    }
  }

  /** The writer's invariant over the whole stream: every header follows a
      complete entry, no entry receives more than its header declares, and
      what the writer still owes is what the last entry lacks. */
  lemma {:induction false} StreamFramed(root: Path, files: seq<Path>, io: Io)
    ensures Framed(Stream(root, Fresh, files, io).out)
    ensures Stream(root, Fresh, files, io).w.owed == Remaining(Stream(root, Fresh, files, io).out)
    decreases |files|
  {
    if files != [] {
      var p := Stream(root, Fresh, files[..|files| - 1], io);
      StreamFramed(root, files[..|files| - 1], io);
      StepFramed(root, files[|files| - 1], io, p.out, p.w);
    }
  }

  /** The stream of a list with one more file is that file's step from
      where the list left the writer. */
  lemma StreamSnoc(root: Path, w: TarWriter, files: seq<Path>, f: Path, io: Io)
    ensures Stream(root, w, files + [f], io) ==
              Progress(Step(root, f, io, Stream(root, w, files, io).w).w,
                       Stream(root, w, files, io).out + Step(root, f, io, Stream(root, w, files, io).w).out)
  {
    assert (files + [f])[..|files|] == files;
  }

  /** The stream of a concatenation: the second list continues from the
      writer state the first one left, so files are not independent. */
  lemma {:induction false} StreamAppend(root: Path, w: TarWriter, a: seq<Path>, b: seq<Path>, io: Io)
    ensures Stream(root, w, a + b, io) ==
              Progress(Stream(root, Stream(root, w, a, io).w, b, io).w,
                       Stream(root, w, a, io).out + Stream(root, Stream(root, w, a, io).w, b, io).out)
    decreases |b|
  {
    var p := Stream(root, w, a, io);
    if b == [] {
      assert a + b == a;
    } else {
      var b', f := b[..|b| - 1], b[|b| - 1];
      assert a + b == (a + b') + [f];
      assert b == b' + [f];
      StreamAppend(root, w, a, b', io);
      var q := Stream(root, p.w, b', io);
      StreamSnoc(root, w, a + b', f, io);
      StreamSnoc(root, p.w, b', f, io);
      Associative(p.out, q.out, Step(root, f, io, q.w).out);
    }
  }

  /** Concatenation of block sequences is associative. */
  lemma Associative(x: seq<Block>, y: seq<Block>, z: seq<Block>)
    ensures (x + y) + z == x + (y + z)
  {
  }

  /** Once a write to the file has failed, nothing more reaches it. */
  lemma {:induction false} BrokenStaysBroken(root: Path, owed: nat, files: seq<Path>, io: Io)
    ensures Stream(root, TarWriter(owed, true), files, io) == Progress(TarWriter(owed, true), [])
    decreases |files|
  {
    if files != [] {
      BrokenStaysBroken(root, owed, files[..|files| - 1], io);
    }
  }

  /** A file whose stat fails is skipped: the stream is that of the list
      without it, from any writer state. */
  lemma StatFailureSkipped(root: Path, w: TarWriter, files: seq<Path>, i: nat, io: Io)
    requires i < |files| && io.stat(files[i]).None?
    ensures Stream(root, w, files, io) == Stream(root, w, files[..i] + files[i + 1..], io)
  {
    var pre, post := files[..i], files[i + 1..];
    assert files == (pre + [files[i]]) + post;
    var p := Stream(root, w, pre, io);
    assert Stream(root, p.w, [files[i]], io) == Progress(p.w, []) by {
      assert [files[i]][..0] == [];
    }
    StreamAppend(root, w, pre + [files[i]], post, io);
    StreamAppend(root, w, pre, [files[i]], io);
    assert p.out + [] == p.out;
    StreamAppend(root, w, pre, post, io);
  }

  /** The archive when nothing goes wrong: each file's header followed by
      all of its bytes, in list order. */
  function CleanStream(root: Path, files: seq<Path>, io: Io): seq<Block>
    requires forall f :: f in files ==> io.stat(f).Some?
    decreases |files|
  {
    if files == [] then []
    else
      var last := files[|files| - 1];
      assert last in files;
      CleanStream(root, files[..|files| - 1], io) + Clean(root, last, io.stat(last).value)
  }

  /** When every stat, open and write succeeds, mesh.tar holds each file's
      header and content in list order, and the trailer is written. */
  lemma {:induction false} StreamComplete(root: Path, files: seq<Path>, io: Io)
    requires forall f :: f in files ==> io.stat(f).Some? && io.headerWrites(f)
    requires forall f :: f in files ==> io.stat(f).value.isDir || (io.opens(f) && io.contentWrites(f))
    ensures Stream(root, Fresh, files, io) == Progress(Fresh, CleanStream(root, files, io))
    decreases |files|
  {
    if files != [] {
      var init, last := files[..|files| - 1], files[|files| - 1];
      assert forall f :: f in init ==> f in files;
      StreamComplete(root, init, io);
      assert last in files;
    }
  }

  /** Every header is the one writeToTar made for a listed file whose stat
      succeeded, and every byte comes from a listed file that opened. */
  lemma {:induction false} StreamFromFiles(root: Path, w: TarWriter, files: seq<Path>, io: Io, b: Block)
    requires b in Stream(root, w, files, io).out
    ensures exists i :: 0 <= i < |files| && io.stat(files[i]).Some? &&
              if b.Header? then b == HeaderFor(root, files[i], io.stat(files[i]).value)
              else b.source == files[i] && io.opens(files[i])
    decreases |files|
  {
    var last := |files| - 1;
    var p := Stream(root, w, files[..last], io);
    if b in p.out {
      StreamFromFiles(root, w, files[..last], io, b);
      var i :| 0 <= i < |files[..last]| && io.stat(files[..last][i]).Some? &&
                if b.Header? then b == HeaderFor(root, files[..last][i], io.stat(files[..last][i]).value)
                else b.source == files[..last][i] && io.opens(files[..last][i]);
      assert files[..last][i] == files[i];
    } else {
      var fi := io.stat(files[last]).value;
      var q := WriteToTar(root, files[last], fi, io, p.w);
      assert b in q.out;
      if b.Header? {
        assert b == q.out[0];
      }
    }
  }

  /** A regular file that cannot be opened still gets its header, and then
      the entry waits for bytes that never come: the next file's header is
      refused and its content fills the earlier entry instead. */
  lemma UnopenedFileAbsorbsNext(root: Path, a: Path, b: Path, io: Io)
    requires io.stat(a).Some? && !io.stat(a).value.isDir && io.stat(a).value.size > 0
    requires !io.opens(a) && io.headerWrites(a)
    requires io.stat(b).Some? && !io.stat(b).value.isDir && io.stat(b).value.size > 0
    requires io.opens(b) && io.contentWrites(b)
    ensures var fa, fb := io.stat(a).value, io.stat(b).value;
            var n := if fb.size <= fa.size then fb.size else fa.size;
            Stream(root, Fresh, [a, b], io) ==
              Progress(TarWriter(fa.size - n, false), [HeaderFor(root, a, fa), Data(b, n)])
  {
    var fa, fb := io.stat(a).value, io.stat(b).value;
    assert [a, b][..1] == [a];
    assert [a][..0] == [];
    var ha := HeaderFor(root, a, fa);
    assert Stream(root, Fresh, [a], io) == Progress(TarWriter(fa.size, false), [ha]);
  }

  // ---------------------------------------------------------------------
  // BuildTar
  // ---------------------------------------------------------------------

  /** What BuildTar leaves behind: a panic, no archive, or the blocks of
      mesh.tar and whether tw.Close wrote the trailer. */
  datatype BuildOutcome = Panicked | NotWritten | Archived(blocks: seq<Block>, trailer: bool)

  /** The archive makeTarStream writes for the selected files. */
  function Archive(root: Option<Path>, files: seq<Path>, io: Io): BuildOutcome
  {
    var s := Stream(root.GetOr([]), Fresh, files, io);
    Archived(s.out, Closes(s.w))
  }

  /** BuildTar as written: after reporting a parse failure it goes on to
      read the Ignore field of the nil configuration, which panics. When
      mesh.tar cannot be created there is no archive at all: every write to
      the nil file fails and is ignored. */
  method BuildTarAsWritten(mesh: Result<Parse.MeshConfig, Parse.LoadError>, root: Option<Path>,
                           tree: Node, matches: Matcher, created: bool, io: Io)
    returns (o: BuildOutcome)
    ensures mesh.Err? ==> o == Panicked
    ensures mesh.Ok? && !created ==> o == NotWritten
    ensures mesh.Ok? && created ==>
              o == Archive(root, FilesToSend(root, tree, mesh.value.ignore, matches), io)
  {
    if mesh.Err? {
      return Panicked;
    }
    var files := GetFilesToSend(root, tree, mesh.value.ignore, matches);
    if !created {
      return NotWritten;
    }
    var blocks, trailer := MakeTarStream(root.GetOr([]), files, io);
    return Archived(blocks, trailer);
  }

  /** BuildTar with the early return its sibling in internal/prerun/copy.go
      has: a parse failure writes nothing and never panics. */
  method BuildTar(mesh: Result<Parse.MeshConfig, Parse.LoadError>, root: Option<Path>,
                  tree: Node, matches: Matcher, created: bool, io: Io)
    returns (o: BuildOutcome)
    ensures o != Panicked
    ensures o == NotWritten <==> mesh.Err? || !created
    ensures mesh.Ok? && created ==>
              o == Archive(root, FilesToSend(root, tree, mesh.value.ignore, matches), io)
    ensures o.Archived? ==> Framed(o.blocks) && (o.trailer ==> Remaining(o.blocks) == 0)
  {
    if mesh.Err? {
      return NotWritten;
    }
    var files := GetFilesToSend(root, tree, mesh.value.ignore, matches);
    if !created {
      return NotWritten;
    }
    var blocks, trailer := MakeTarStream(root.GetOr([]), files, io);
    return Archived(blocks, trailer);
  }
}
