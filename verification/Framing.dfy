/** Cutting a sequence at every separator, as one pass over its elements. */
module Framing {

  /** The terminated frames so far, and the elements after the last separator. */
  datatype Framed<T> = Framed(lines: seq<seq<T>>, tail: seq<T>)

  function Push<T(==)>(f: Framed<T>, sep: T, c: T): Framed<T>
  {
    if c == sep then Framed(f.lines + [f.tail], []) else Framed(f.lines, f.tail + [c])
  }

  function Frame<T(==)>(s: seq<T>, sep: T): Framed<T>
  {
    if s == [] then Framed([], []) else Push(Frame(s[..|s| - 1], sep), sep, s[|s| - 1])
  }

  function Unlines<T>(lines: seq<seq<T>>, sep: T): seq<T>
  {
    if lines == [] then [] else Unlines(lines[..|lines| - 1], sep) + lines[|lines| - 1] + [sep]
  }

  /** What a framing was cut from. */
  function Flat<T>(f: Framed<T>, sep: T): seq<T>
  {
    Unlines(f.lines, sep) + f.tail
  }

  ghost predicate Free<T>(f: Framed<T>, sep: T)
  {
    sep !in f.tail && forall i :: 0 <= i < |f.lines| ==> sep !in f.lines[i]
  }

  /** A framing that follows other lines. */
  function After<T>(lines: seq<seq<T>>, f: Framed<T>): Framed<T>
  {
    Framed(lines + f.lines, f.tail)
  }

  lemma FrameSnoc<T>(s: seq<T>, sep: T, c: T)
    ensures Frame(s + [c], sep) == Push(Frame(s, sep), sep, c)
  {
    assert (s + [c])[..|s|] == s;
  }

  lemma PushFlat<T>(f: Framed<T>, sep: T, c: T)
    ensures Flat(Push(f, sep, c), sep) == Flat(f, sep) + [c]
  {
    if c == sep { assert (f.lines + [f.tail])[..|f.lines|] == f.lines; }
  }

  lemma PushFree<T>(f: Framed<T>, sep: T, c: T)
    requires Free(f, sep)
    ensures Free(Push(f, sep, c), sep)
  {
  }

  lemma PushAfter<T>(lines: seq<seq<T>>, f: Framed<T>, sep: T, c: T)
    ensures Push(After(lines, f), sep, c) == After(lines, Push(f, sep, c))
  {
    assert lines + f.lines + [f.tail] == lines + (f.lines + [f.tail]);
  }

  /** The frames contain no separator and determine the sequence. */
  lemma {:induction false} FrameRoundTrip<T>(s: seq<T>, sep: T)
    ensures Flat(Frame(s, sep), sep) == s
    ensures Free(Frame(s, sep), sep)
  {
    if s != [] {
      var init, c := s[..|s| - 1], s[|s| - 1];
      FrameRoundTrip(init, sep);
      PushFlat(Frame(init, sep), sep, c);
      PushFree(Frame(init, sep), sep, c);
      assert init + [c] == s;
    }
  }

  lemma {:induction false} NoLine<T>(s: seq<T>, sep: T)
    requires sep !in s
    ensures Frame(s, sep) == Framed([], s)
  {
    if s != [] {
      var init, c := s[..|s| - 1], s[|s| - 1];
      assert init + [c] == s;
      assert c != sep;
      NoLine(init, sep);
      assert Frame(s, sep) == Push(Framed([], init), sep, c);
    }
  }

  /** Cutting may stop anywhere and resume from the tail. */
  lemma {:induction false} FrameAppend<T>(a: seq<T>, b: seq<T>, sep: T)
    ensures Frame(a + b, sep) == After(Frame(a, sep).lines, Frame(Frame(a, sep).tail + b, sep))
  {
    var f := Frame(a, sep);
    if b == [] {
      assert a + b == a && f.tail + b == f.tail && f.lines + [] == f.lines;
      FrameRoundTrip(a, sep);
      NoLine(f.tail, sep);
    } else {
      var init, c := b[..|b| - 1], b[|b| - 1];
      FrameAppend(a, init, sep);
      PushAfter(f.lines, Frame(f.tail + init, sep), sep, c);
      FrameSnoc(a + init, sep, c);
      FrameSnoc(f.tail + init, sep, c);
      assert a + init + [c] == a + b && f.tail + init + [c] == f.tail + b;
    }
  }

  /** A first line is cut off by its separator. */
  lemma TakeLine<T>(line: seq<T>, rest: seq<T>, sep: T)
    requires sep !in line
    ensures Frame(line + [sep] + rest, sep) == After([line], Frame(rest, sep))
  {
    NoLine(line, sep);
    FrameSnoc(line, sep, sep);
    FrameAppend(line + [sep], rest, sep);
    assert [] + rest == rest && [] + [line] == [line];
  }

  /** Separator-free frames are what their concatenation is cut into. */
  lemma {:induction false} FlatRoundTrip<T>(f: Framed<T>, sep: T)
    requires Free(f, sep)
    ensures Frame(Flat(f, sep), sep) == f
    decreases |f.lines|
  {
    var front := Unlines(f.lines, sep);
    if f.lines == [] {
      assert front + f.tail == f.tail;
      NoLine(f.tail, sep);
    } else {
      var n := |f.lines| - 1;
      var init := Framed(f.lines[..n], f.lines[n]);
      FlatRoundTrip(init, sep);
      FrameSnoc(Flat(init, sep), sep, sep);
      assert init.lines + [init.tail] == f.lines;
      FrameAppend(front, f.tail, sep);
      assert [] + f.tail == f.tail && f.lines + [] == f.lines;
      NoLine(f.tail, sep);
    }
  }
}
