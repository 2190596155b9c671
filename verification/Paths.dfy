/** Relative paths of the bundle manifest: what is accepted, and what it denotes. */
module Paths {
  import opened Lists
  import opened Framing

  /** The pieces of a value between its slashes. */
  function Split(s: string): (parts: seq<string>)
    ensures |parts| >= 1
  {
    Frame(s, '/').lines + [Frame(s, '/').tail]
  }

  function Join(parts: seq<string>): string
    requires |parts| >= 1
  {
    Flat(Framed(parts[..|parts| - 1], parts[|parts| - 1]), '/')
  }

  predicate Barred(part: string)
  {
    part == "" || part == "." || part == ".." || part == ".git"
  }

  /** The components of a relative POSIX path: empty and `.` pieces vanish. */
  function PosixParts(parts: seq<string>): seq<string>
  {
    if parts == [] then []
    else (if parts[0] == "" || parts[0] == "." then [] else [parts[0]]) + PosixParts(parts[1..])
  }

  /** The checker's `relative_path`; None is a BundleError. */
  function RelativePath(value: string): Option<seq<string>>
  {
    if value == "" || '\\' in value || '\0' in value then None
    else if value[0] == '/' || exists i :: 0 <= i < |Split(value)| && Barred(Split(value)[i]) then None
    else Some(PosixParts(Split(value)))
  }

  /** A component the manifest may use. */
  predicate Permitted(part: string)
  {
    !Barred(part) && '/' !in part && '\\' !in part && '\0' !in part
  }

  ghost predicate AllPermitted(parts: seq<string>)
  {
    forall i :: 0 <= i < |parts| ==> Permitted(parts[i])
  }

  /** Joining the components of a string gives it back. */
  lemma JoinSplit(s: string)
    ensures Join(Split(s)) == s
  {
    FrameRoundTrip(s, '/');
    assert Split(s)[..|Split(s)| - 1] == Frame(s, '/').lines;
  }

  /** Splitting a join of slash-free components gives them back. */
  lemma SplitJoin(parts: seq<string>)
    requires |parts| >= 1 && forall i :: 0 <= i < |parts| ==> '/' !in parts[i]
    ensures Split(Join(parts)) == parts
  {
    FlatRoundTrip(Framed(parts[..|parts| - 1], parts[|parts| - 1]), '/');
  }

  /** The components contain no slash. */
  lemma SlashFree(s: string)
    ensures forall i :: 0 <= i < |Split(s)| ==> '/' !in Split(s)[i]
  {
    FrameRoundTrip(s, '/');
  }

  ghost predicate Occurs(parts: seq<string>, c: char)
  {
    exists i :: 0 <= i < |parts| && c in parts[i]
  }

  /** Between them the components hold exactly the other characters. */
  lemma SplitOccurs(s: string, c: char)
    requires c != '/'
    ensures c in s <==> Occurs(Split(s), c)
  {
    var f := Frame(s, '/');
    FrameRoundTrip(s, '/');
    UnlinesOccurs(f.lines, c);
    if Occurs(f.lines, c) {
      var i :| 0 <= i < |f.lines| && c in f.lines[i];
      assert c in Split(s)[i];
    }
    assert Split(s)[|f.lines|] == f.tail;
  }

  lemma {:induction false} UnlinesOccurs(lines: seq<string>, c: char)
    requires c != '/'
    ensures c in Unlines(lines, '/') <==> Occurs(lines, c)
  {
    if lines != [] {
      var n := |lines| - 1;
      UnlinesOccurs(lines[..n], c);
      if i :| 0 <= i < n && c in lines[..n][i] { assert c in lines[i]; }
    }
  }

  lemma {:induction false} UnlinesStart(lines: seq<string>)
    requires lines != [] && lines[0] != ""
    ensures Unlines(lines, '/') != "" && Unlines(lines, '/')[0] == lines[0][0]
  {
    if |lines| > 1 { UnlinesStart(lines[..|lines| - 1]); }
  }

  lemma JoinStart(parts: seq<string>)
    requires parts != [] && parts[0] != ""
    ensures Join(parts) != "" && Join(parts)[0] == parts[0][0]
  {
    if |parts| > 1 { UnlinesStart(parts[..|parts| - 1]); }
  }

  lemma {:induction false} PosixKeeps(parts: seq<string>)
    requires forall i :: 0 <= i < |parts| ==> !Barred(parts[i])
    ensures PosixParts(parts) == parts
  {
    if parts != [] { PosixKeeps(parts[1..]); }
  }

  lemma AcceptedIsJoin(value: string)
    requires RelativePath(value).Some?
    ensures var parts := RelativePath(value).value; parts != [] && AllPermitted(parts) && value == Join(parts)
  {
    PosixKeeps(Split(value));
    JoinSplit(value);
    SlashFree(value);
    SplitOccurs(value, '\\');
    SplitOccurs(value, '\0');
  }

  lemma JoinIsAccepted(parts: seq<string>)
    requires parts != [] && AllPermitted(parts)
    ensures RelativePath(Join(parts)) == Some(parts)
  {
    SplitJoin(parts);
    PosixKeeps(parts);
    SplitOccurs(Join(parts), '\\');
    SplitOccurs(Join(parts), '\0');
    assert Permitted(parts[0]);
    JoinStart(parts);
    assert parts[0][0] in parts[0];
  }

  /** Exactly the slash-joins of permitted components are accepted, and the path is those components. */
  lemma AcceptsExactly(value: string, parts: seq<string>)
    ensures RelativePath(value) == Some(parts) <==>
      && parts != [] && value == Join(parts)
      && forall i :: 0 <= i < |parts| ==>
           && parts[i] != "" && parts[i] != "." && parts[i] != ".." && parts[i] != ".git"
           && '/' !in parts[i] && '\\' !in parts[i] && '\0' !in parts[i]
  {
    assert AllPermitted(parts) <==> forall i :: 0 <= i < |parts| ==>
      && parts[i] != "" && parts[i] != "." && parts[i] != ".." && parts[i] != ".git"
      && '/' !in parts[i] && '\\' !in parts[i] && '\0' !in parts[i];
    if RelativePath(value).Some? { AcceptedIsJoin(value); }
    if parts != [] && AllPermitted(parts) { JoinIsAccepted(parts); }
  }

  /** Distinct accepted names denote distinct paths. */
  lemma Injective(a: string, b: string)
    requires RelativePath(a).Some? && RelativePath(a) == RelativePath(b)
    ensures a == b
  {
    AcceptsExactly(a, RelativePath(a).value);
    AcceptsExactly(b, RelativePath(a).value);
  }

  /** Path resolution one component at a time, `..` leading to the parent. */
  function Walk(at: seq<string>, parts: seq<string>): seq<string>
  {
    if parts == [] then at
    else
      var here := Walk(at, parts[..|parts| - 1]);
      var part := parts[|parts| - 1];
      if part == "" || part == "." then here
      else if part == ".." then (if here == [] then [] else here[..|here| - 1])
      else here + [part]
  }

  /** Walking an accepted path from any root descends one component per step and so never leaves it. */
  lemma {:induction false} NeverLeavesRoot(root: seq<string>, value: string, k: nat)
    requires RelativePath(value).Some? && k <= |RelativePath(value).value|
    ensures Walk(root, RelativePath(value).value[..k]) == root + RelativePath(value).value[..k]
  {
    var parts := RelativePath(value).value;
    AcceptsExactly(value, parts);
    if k > 0 {
      NeverLeavesRoot(root, value, k - 1);
      assert parts[..k][..k - 1] == parts[..k - 1];
      assert Permitted(parts[k - 1]);
    }
  }
}
