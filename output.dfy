/** Per-host output attribution (internal/ui/output.go).

    Go strings are byte strings; here a `string` holds one char per byte, so
    `|p|` is Go's `len(p)`. The destination writer is a `Sink` whose log holds
    one entry per formatted write. */
module Output {
  import opened Wrappers

  /** The ANSI "reset attributes" sequence written after every line. */
  const Reset: string := "\U{1B}[0m"
  const Cyan: string := "\U{1B}[36m"
  const Green: string := "\U{1B}[32m"
  const Red: string := "\U{1B}[31m"
  const Yellow: string := "\U{1B}[33m"
  const Bold: string := "\U{1B}[1m"

  // ---------------------------------------------------------------------
  // strings.Split(s, "\n") and strings.Join(parts, "\n")
  // ---------------------------------------------------------------------

  /** The pieces of `s` between newlines; always at least one piece. */
  function Split(s: string): (r: seq<string>)
    ensures |r| >= 1
    decreases |s|
  {
    if s == [] then [""]
    else
      var rest := Split(s[1..]);
      if s[0] == '\n' then [""] + rest
      else [[s[0]] + rest[0]] + rest[1..]
  }

  function Join(parts: seq<string>): string
  {
    if |parts| == 0 then ""
    else if |parts| == 1 then parts[0]
    else parts[0] + "\n" + Join(parts[1..])
  }

  function CountNewlines(s: string): nat
  {
    if s == [] then 0
    else (if s[0] == '\n' then 1 else 0) + CountNewlines(s[1..])
  }

  predicate NewlineFree(s: string)
  {
    forall i :: 0 <= i < |s| ==> s[i] != '\n'
  }

  /** Joining the pieces with "\n" gives the input back. */
  lemma {:induction false} JoinSplit(s: string)
    ensures Join(Split(s)) == s
    decreases |s|
  {
    if s != [] {
      JoinSplit(s[1..]);
      var rest := Split(s[1..]);
      if s[0] == '\n' {
        assert ([""] + rest)[1..] == rest;
      } else if |rest| > 1 {
        assert ([[s[0]] + rest[0]] + rest[1..])[1..] == rest[1..];
        assert s == [s[0]] + s[1..];
      } else {
        assert s == [s[0]] + s[1..];
      }
    }
  }

  /** No piece contains a newline. */
  lemma {:induction false} SplitPiecesNewlineFree(s: string)
    ensures forall i :: 0 <= i < |Split(s)| ==> NewlineFree(Split(s)[i])
    decreases |s|
  {
    if s != [] {
      SplitPiecesNewlineFree(s[1..]);
      var rest := Split(s[1..]);
      if s[0] != '\n' {
        var first := [s[0]] + rest[0];
        assert NewlineFree(rest[0]);
        assert NewlineFree(first) by {
          forall j | 0 <= j < |first| ensures first[j] != '\n' {
            if j > 0 { assert first[j] == rest[0][j - 1]; }
          }
        }
        var r := Split(s);
        forall i | 0 <= i < |r| ensures NewlineFree(r[i]) {
          if i > 0 { assert r[i] == rest[i]; }
        }
      } else {
        var r := Split(s);
        forall i | 0 <= i < |r| ensures NewlineFree(r[i]) {
          if i > 0 { assert r[i] == rest[i - 1]; }
        }
      }
    }
  }

  /** There is one piece more than there are newlines. */
  lemma {:induction false} SplitCount(s: string)
    ensures |Split(s)| == CountNewlines(s) + 1
    decreases |s|
  {
    if s != [] {
      SplitCount(s[1..]);
    }
  }

  /** The last piece is empty exactly when `s` is empty or ends in a newline. */
  lemma {:induction false} SplitLastEmpty(s: string)
    ensures Split(s)[|Split(s)| - 1] == "" <==> (s == "" || s[|s| - 1] == '\n')
    decreases |s|
  {
    if s != [] {
      var t := s[1..];
      var rest := Split(t);
      var last := Split(s)[|Split(s)| - 1];
      var endsInNewline := s[|s| - 1] == '\n';
      SplitLastPiece(s);
      if t == "" {
        assert s == [s[0]];
        assert rest == [""];
        assert last == "" <==> endsInNewline;
      } else {
        assert s[|s| - 1] == t[|t| - 1];
        SplitLastEmpty(t);
        if s[0] == '\n' || |rest| > 1 {
          assert last == rest[|rest| - 1];
        } else {
          assert last == [s[0]] + rest[0];
          SplitCount(t);
          NoNewlineCounted(t);
          assert !endsInNewline;
        }
      }
    }
  }

  /** The last piece of a non-empty string, in terms of the pieces of its
      tail: the tail's last piece, or the first character glued to the
      tail's only piece. */
  lemma SplitLastPiece(s: string)
    requires s != []
    ensures var rest := Split(s[1..]);
            Split(s)[|Split(s)| - 1] ==
              if s[0] == '\n' || |rest| > 1 then rest[|rest| - 1] else [s[0]] + rest[0]
  {
  }

  /** A string with no newline counted has no newline. */
  lemma {:induction false} NoNewlineCounted(s: string)
    requires CountNewlines(s) == 0
    ensures NewlineFree(s)
    decreases |s|
  {
    if s != [] {
      NoNewlineCounted(s[1..]);
      forall i | 0 <= i < |s| ensures s[i] != '\n' {
        if i > 0 { assert s[i] == s[1..][i - 1]; }
      }
    }
  }

  /** Splitting a newline-free string gives that string alone. */
  lemma {:induction false} SplitNewlineFree(a: string)
    requires NewlineFree(a)
    ensures Split(a) == [a]
    decreases |a|
  {
    if a != [] {
      SplitNewlineFree(a[1..]);
      assert a == [a[0]] + a[1..];
    }
  }

  /** Splitting `a + "\n" + t` for a newline-free `a` peels off `a`. */
  lemma {:induction false} SplitAfterLine(a: string, t: string)
    requires NewlineFree(a)
    ensures Split(a + "\n" + t) == [a] + Split(t)
    decreases |a|
  {
    if a == [] {
      assert a + "\n" + t == "\n" + t;
      assert ("\n" + t)[1..] == t;
    } else {
      var s := a + "\n" + t;
      assert s[1..] == a[1..] + "\n" + t;
      SplitAfterLine(a[1..], t);
      assert a == [a[0]] + a[1..];
    }
  }

  /** Join and Split are inverse: splitting the join of newline-free pieces
      gives the pieces back. */
  lemma {:induction false} SplitJoin(parts: seq<string>)
    requires |parts| >= 1
    requires forall i :: 0 <= i < |parts| ==> NewlineFree(parts[i])
    ensures Split(Join(parts)) == parts
    decreases |parts|
  {
    if |parts| == 1 {
      SplitNewlineFree(parts[0]);
    } else {
      SplitJoin(parts[1..]);
      SplitAfterLine(parts[0], Join(parts[1..]));
      assert parts == [parts[0]] + parts[1..];
    }
  }

  /** Dropping an empty last piece costs exactly its separating newline. */
  lemma {:induction false} JoinDropLast(parts: seq<string>)
    requires |parts| >= 2
    ensures Join(parts) == Join(parts[..|parts| - 1]) + "\n" + parts[|parts| - 1]
    decreases |parts|
  {
    if |parts| > 2 {
      var rest := parts[1..];
      JoinDropLast(rest);
      assert rest[..|rest| - 1] == parts[1..|parts| - 1];
      assert parts[..|parts| - 1][1..] == parts[1..|parts| - 1];
    }
  }

  // ---------------------------------------------------------------------
  // What PrefixWriter.Write emits
  // ---------------------------------------------------------------------

  /** The pieces Write emits a line for: all of Split(p) except an empty
      last piece. Only that one piece can be dropped. */
  function Pieces(p: string): (r: seq<string>)
    ensures r <= Split(p)
    ensures |Split(p)| - |r| <= 1
    ensures |r| < |Split(p)| ==> Split(p)[|r|] == ""
  {
    var parts := Split(p);
    if parts[|parts| - 1] == "" then parts[..|parts| - 1] else parts
  }

  /** One emitted line: prefix, body, attribute reset, newline. */
  function Line(prefix: string, body: string): string
  {
    prefix + body + Reset + "\n"
  }

  function Emitted(prefix: string, bodies: seq<string>): (r: seq<string>)
    ensures |r| == |bodies|
    ensures forall i :: 0 <= i < |bodies| ==> r[i] == Line(prefix, bodies[i])
  {
    seq(|bodies|, i requires 0 <= i < |bodies| => Line(prefix, bodies[i]))
  }

  /** The number of lines written is the number of newlines, plus one for a
      non-empty input that does not end in a newline. */
  lemma PiecesCount(p: string)
    ensures |Pieces(p)| == CountNewlines(p) + (if p != "" && p[|p| - 1] != '\n' then 1 else 0)
  {
    SplitCount(p);
    SplitLastEmpty(p);
  }

  /** Joining the emitted bodies with "\n" gives back `p` with at most one
      trailing newline removed. */
  lemma PiecesJoin(p: string)
    ensures p != "" && p[|p| - 1] == '\n' ==> Join(Pieces(p)) + "\n" == p
    ensures !(p != "" && p[|p| - 1] == '\n') ==> Join(Pieces(p)) == p
  {
    var parts := Split(p);
    JoinSplit(p);
    SplitLastEmpty(p);
    if p != "" && p[|p| - 1] == '\n' {
      SplitCount(p);
      LastNewlineCounted(p);
      assert Pieces(p) == parts[..|parts| - 1];
      JoinDropLast(parts);
      assert parts[|parts| - 1] == "";
      assert Join(Pieces(p)) + "\n" + "" == Join(Pieces(p)) + "\n";
    } else if p == "" {
      assert Pieces(p) == [];
    } else {
      assert parts[|parts| - 1] != "";
      assert Pieces(p) == parts;
    }
  }

  lemma {:induction false} LastNewlineCounted(s: string)
    requires s != "" && s[|s| - 1] == '\n'
    ensures CountNewlines(s) >= 1
    decreases |s|
  {
    if s[0] != '\n' {
      LastNewlineCounted(s[1..]);
    }
  }

  /** Every emitted body is newline-free, so every emitted line holds
      exactly one newline, at its end. */
  lemma PiecesNewlineFree(p: string)
    ensures forall i :: 0 <= i < |Pieces(p)| ==> NewlineFree(Pieces(p)[i])
  {
    SplitPiecesNewlineFree(p);
  }

  // ---------------------------------------------------------------------
  // The destination and the writer
  // ---------------------------------------------------------------------

  datatype WriteError = DestinationClosed

  /** An io.Writer destination. Every successful write appends one entry to
      `log`; once `log` holds `failAfter` entries, writes fail. */
  class Sink {
    var log: seq<string>
    var failAfter: Option<nat>

    constructor (failAfter: Option<nat>)
      ensures this.log == [] && this.failAfter == failAfter
    {
      this.log := [];
      this.failAfter := failAfter;
    }

    /** The destination will accept `k` more writes. */
    predicate Takes(k: nat)
      reads this
    {
      k == 0 || failAfter.None? || |log| + k <= failAfter.value
    }

    /** How many more writes a failing destination accepts. */
    function Room(): nat
      reads this
      requires failAfter.Some?
    {
      if |log| <= failAfter.value then failAfter.value - |log| else 0
    }

    method Fprint(s: string) returns (err: Option<WriteError>)
      modifies this
      ensures failAfter == old(failAfter)
      ensures old(Takes(1)) ==> err == None && log == old(log) + [s]
      ensures !old(Takes(1)) ==> err == Some(DestinationClosed) && log == old(log)
    {
      if Takes(1) {
        log := log + [s];
        err := None;
      } else {
        err := Some(DestinationClosed);
      }
    }
  }

  /** A writer that tags each line with `prefix`; only the writer for host 0
      forwards to the destination. Its fields are never reassigned. */
  class PrefixWriter {
    const prefix: string
    const out: Sink
    const hostId: int

    constructor (prefix: string, out: Sink, hostId: int)
      ensures this.prefix == prefix && this.out == out && this.hostId == hostId
    {
      this.prefix := prefix;
      this.out := out;
      this.hostId := hostId;
    }

    /** Emits one line per piece of `p` (host 0 only) and reports `len(p)`;
        a write error ends the loop and is returned with a count of 0. */
    method Write(p: string) returns (n: int, err: Option<WriteError>)
      modifies out
      ensures out.failAfter == old(out.failAfter)
      ensures hostId != 0 ==> n == |p| && err == None && out.log == old(out.log)
      ensures hostId == 0 && old(out.Takes(|Pieces(p)|)) ==>
                n == |p| && err == None && out.log == old(out.log) + Emitted(prefix, Pieces(p))
      ensures hostId == 0 && !old(out.Takes(|Pieces(p)|)) ==>
                n == 0 && err == Some(DestinationClosed) &&
                old(out.Room()) < |Pieces(p)| &&
                out.log == old(out.log) + Emitted(prefix, Pieces(p))[..old(out.Room())]
    {
      var lines := Split(p);
      ghost var pieces := Pieces(p);
      var i := 0;
      while i < |lines|
        invariant 0 <= i <= |lines|
        invariant i <= |pieces|
        invariant out.failAfter == old(out.failAfter)
        invariant hostId != 0 ==> out.log == old(out.log)
        invariant hostId == 0 ==> out.log == old(out.log) + Emitted(prefix, lines[..i])
        invariant hostId == 0 ==> old(out.Takes(i))
      {
        if i == |lines| - 1 && lines[i] == "" {
          break;
        }
        if hostId == 0 {
          var e := out.Fprint(prefix + lines[i] + Reset + "\n");
          if e.Some? {
            assert lines[..i] == pieces[..i];
            return 0, e;
          }
          assert lines[..i + 1] == lines[..i] + [lines[i]];
        }
        i := i + 1;
      }
      assert lines[..i] == pieces;
      return |p|, None;
    }
  }
}
