/** The parts of Go's strings package the model relies on: unicode.IsSpace,
    strings.Fields, strings.Join with a single space, and strings.TrimSpace. */
module Strings {

  /** unicode.IsSpace. */
  predicate IsSpace(c: char)
  {
    || c == '\t' || c == '\n' || c == '\U{0B}' || c == '\U{0C}' || c == '\r' || c == ' '
    || c == '\U{85}' || c == '\U{A0}' || c == '\U{1680}'
    || ('\U{2000}' <= c <= '\U{200A}') || c == '\U{2028}' || c == '\U{2029}'
    || c == '\U{202F}' || c == '\U{205F}' || c == '\U{3000}'
  }

  predicate SpaceFree(s: string)
  {
    forall i :: 0 <= i < |s| ==> !IsSpace(s[i])
  }

  /** A field in the making: `cur` holds the non-space characters read since
      the last space. */
  function Scan(s: string, cur: string): seq<string>
    decreases |s|
  {
    if s == [] then (if cur == [] then [] else [cur])
    else if IsSpace(s[0]) then
      (if cur == [] then Scan(s[1..], []) else [cur] + Scan(s[1..], []))
    else Scan(s[1..], cur + [s[0]])
  }

  /** strings.Fields: the maximal runs of non-space characters, in order. */
  function Fields(s: string): seq<string>
  {
    Scan(s, [])
  }

  /** Fields are never empty and never contain a space. */
  lemma {:induction false} ScanFields(s: string, cur: string)
    requires SpaceFree(cur)
    ensures forall i :: 0 <= i < |Scan(s, cur)| ==> |Scan(s, cur)[i]| > 0 && SpaceFree(Scan(s, cur)[i])
    decreases |s|
  {
    if s != [] {
      if IsSpace(s[0]) {
        ScanFields(s[1..], []);
      } else {
        ScanFields(s[1..], cur + [s[0]]);
      }
    }
  }

  /** Fields joined by single spaces (strings.Join(fields, " ")). */
  function JoinSpace(fs: seq<string>): string
  {
    if fs == [] then "" else if |fs| == 1 then fs[0] else fs[0] + " " + JoinSpace(fs[1..])
  }

  lemma {:induction false} ScanWord(w: string, rest: string, cur: string)
    requires SpaceFree(w)
    ensures Scan(w + rest, cur) == Scan(rest, cur + w)
    decreases |w|
  {
    if w != [] {
      assert (w + rest)[1..] == w[1..] + rest;
      ScanWord(w[1..], rest, cur + [w[0]]);
      assert cur + [w[0]] + w[1..] == cur + w;
    } else {
      assert w + rest == rest;
      assert cur + w == cur;
    }
  }

  /** Splitting space-joined fields gives back the fields. */
  lemma {:induction false} FieldsJoinSpace(fs: seq<string>)
    requires forall i :: 0 <= i < |fs| ==> |fs[i]| > 0 && SpaceFree(fs[i])
    ensures Fields(JoinSpace(fs)) == fs
  {
    if |fs| == 1 {
      ScanWord(fs[0], "", []);
      assert fs[0] + "" == fs[0];
      assert [] + fs[0] == fs[0];
    } else if |fs| > 1 {
      var rest := JoinSpace(fs[1..]);
      ScanWord(fs[0], " " + rest, []);
      assert fs[0] + " " + rest == fs[0] + (" " + rest);
      assert (" " + rest)[1..] == rest;
      assert [] + fs[0] == fs[0];
      assert Scan(" " + rest, fs[0]) == [fs[0]] + Scan(rest, []);
      FieldsJoinSpace(fs[1..]);
      assert fs == [fs[0]] + fs[1..];
    }
  }

  /** strings.TrimSpace. */
  function TrimSpace(s: string): string
    decreases |s|
  {
    if s != [] && IsSpace(s[0]) then TrimSpace(s[1..])
    else if s != [] && IsSpace(s[|s| - 1]) then TrimSpace(s[..|s| - 1])
    else s
  }

  lemma TrimSpaceField(s: string)
    requires SpaceFree(s)
    ensures TrimSpace(s) == s
  {
  }
}
