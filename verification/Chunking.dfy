/**
 Which byte streams the host driver reads alike however they are chunked and
 interleaved. The bound on a stream is tested before the bytes of a read are
 framed, so whether LOADED is answered in a run that raises may depend on where
 the reads end; one read returns at most READ_LIMIT bytes.
 */
module Chunking {
  import opened Bytes
  import opened Framing
  import opened HostControl

  const READ_LIMIT: nat := 65536

  /** One way of reading the three streams. */
  ghost predicate Reading(chunks: seq<Read>, control: seq<Byte>, stdout: seq<Byte>, stderr: seq<Byte>)
  {
    && Total(chunks, Control) == control && Total(chunks, Stdout) == stdout && Total(chunks, Stderr) == stderr
    && forall i :: 0 <= i < |chunks| ==> |chunks[i].data| <= READ_LIMIT
  }

  /** All ways of reading the streams have the same outcome. */
  ghost predicate ReadAlike(valid: seq<Byte> -> bool, control: seq<Byte>, stdout: seq<Byte>, stderr: seq<Byte>)
  {
    forall a, b :: Reading(a, control, stdout, stderr) && Reading(b, control, stdout, stderr) ==>
      Expected(valid, a) == Expected(valid, b)
  }

  /** These control bytes contain a LOADED line that decodes with all lines before it. */
  ghost predicate Calls(valid: seq<Byte> -> bool, control: seq<Byte>)
  {
    LoadedAndDecodable(valid, Lines(control))
  }

  function Least(a: nat, b: nat): nat { if a < b then a else b }

  /** Reading alike, from the streams alone: no stream is too long, or the bytes that can be heard
      at most do not call, or only the control stream is too long and calls within the bytes that
      are heard at least. */
  ghost predicate Unambiguous(valid: seq<Byte> -> bool, control: seq<Byte>, stdout: seq<Byte>, stderr: seq<Byte>)
  {
    || InBounds(control, stdout, stderr)
    || !Calls(valid, control[..Least(|control|, OBSERVER_BOUND)])
    || (&& |stdout| <= OBSERVER_BOUND && |stderr| <= OBSERVER_BOUND && |control| > OBSERVER_BOUND
        && Calls(valid, control[..OBSERVER_BOUND - READ_LIMIT + 1]))
  }

  // ----- What a run has heard -----

  lemma CallsGrow(valid: seq<Byte> -> bool, a: seq<Byte>, b: seq<Byte>)
    requires a <= b && Calls(valid, a)
    ensures Calls(valid, b)
  {
    var more := b[|a|..];
    assert b == a + more;
    SplitAppend(a, more);
    var la, lb := Lines(a), Lines(b);
    var j :| 0 <= j < |la| && la[j] == LOADED && AllValid(valid, la[..j + 1]);
    assert lb[..j + 1] == la[..j + 1] && lb[j] == LOADED;
  }

  /** The control bytes before the read that crosses a bound. */
  function Heard(chunks: seq<Read>): seq<Byte>
  {
    Total(Bounded(chunks), Control)
  }

  lemma HeardAtMost(chunks: seq<Read>)
    ensures Heard(chunks) <= Total(chunks, Control) && |Heard(chunks)| <= OBSERVER_BOUND
  {
    var b := Bounded(chunks);
    assert chunks[..|b|] == b;
    var more := TotalGrows(chunks, |b|, Control);
  }

  /** When the other streams stay within their bounds, the control bytes do up to one read's length. */
  lemma HeardAtLeast(chunks: seq<Read>, control: seq<Byte>, stdout: seq<Byte>, stderr: seq<Byte>)
    requires Reading(chunks, control, stdout, stderr)
    requires |stdout| <= OBSERVER_BOUND && |stderr| <= OBSERVER_BOUND && |control| > OBSERVER_BOUND
    ensures |Heard(chunks)| >= OBSERVER_BOUND - READ_LIMIT + 1
  {
    var b := Bounded(chunks);
    var i := |b|;
    assert chunks[..i] == b && b != chunks;
    if ReadsInBounds(chunks[..i + 1]) { BoundedEnds(chunks, i + 1); }
    var o := TotalGrows(chunks, i + 1, Stdout);
    var e := TotalGrows(chunks, i + 1, Stderr);
    ReadStep(chunks, i);
  }

  lemma SameOutcomeIff(valid: seq<Byte> -> bool, a: seq<Read>, b: seq<Read>,
                       control: seq<Byte>, stdout: seq<Byte>, stderr: seq<Byte>)
    requires Reading(a, control, stdout, stderr) && Reading(b, control, stdout, stderr)
    ensures InBounds(control, stdout, stderr) ==> Expected(valid, a) == Expected(valid, b)
    ensures Expected(valid, a) == Expected(valid, b) <==> (Calls(valid, Heard(a)) <==> Calls(valid, Heard(b)))
  {
    forall stream ensures Total(a, stream) == Total(b, stream) { match stream case _ => }
    ChunkingIrrelevantIff(valid, a, b);
    SendsOfRun(valid, a);
    SendsOfRun(valid, b);
    AnsweredIff(valid, a);
    AnsweredIff(valid, b);
  }

  lemma UnambiguousSuffices(valid: seq<Byte> -> bool, control: seq<Byte>, stdout: seq<Byte>, stderr: seq<Byte>)
    requires Unambiguous(valid, control, stdout, stderr)
    ensures ReadAlike(valid, control, stdout, stderr)
  {
    forall a, b | Reading(a, control, stdout, stderr) && Reading(b, control, stdout, stderr)
      ensures Expected(valid, a) == Expected(valid, b)
    {
      SameOutcomeIff(valid, a, b, control, stdout, stderr);
      if !InBounds(control, stdout, stderr) {
        HeardIsDecided(valid, a, control, stdout, stderr);
        HeardIsDecided(valid, b, control, stdout, stderr);
      }
    }
  }

  lemma HeardIsDecided(valid: seq<Byte> -> bool, a: seq<Read>,
                       control: seq<Byte>, stdout: seq<Byte>, stderr: seq<Byte>)
    requires Reading(a, control, stdout, stderr) && Unambiguous(valid, control, stdout, stderr)
    requires !InBounds(control, stdout, stderr)
    ensures Calls(valid, Heard(a)) <==> Calls(valid, control[..Least(|control|, OBSERVER_BOUND)])
  {
    HeardAtMost(a);
    var most := control[..Least(|control|, OBSERVER_BOUND)];
    assert Heard(a) <= most;
    if Calls(valid, Heard(a)) { CallsGrow(valid, Heard(a), most); }
    if Calls(valid, most) {
      HeardAtLeast(a, control, stdout, stderr);
      CallsGrow(valid, control[..OBSERVER_BOUND - READ_LIMIT + 1], Heard(a));
    }
  }

  // ----- Readings that differ -----

  /** One read per byte. */
  function Bytewise(s: seq<Byte>, stream: Stream): (r: seq<Read>)
    ensures |r| == |s| && forall i :: 0 <= i < |r| ==> |r[i].data| == 1
  {
    if s == [] then [] else Bytewise(s[..|s| - 1], stream) + [Read(stream, [s[|s| - 1]])]
  }

  lemma {:induction false} BytewiseTotal(s: seq<Byte>, stream: Stream, x: Stream)
    ensures Total(Bytewise(s, stream), x) == if x == stream then s else []
  {
    if s != [] {
      var init, last := s[..|s| - 1], s[|s| - 1];
      BytewiseTotal(init, stream, x);
      TotalSnoc(Bytewise(init, stream), Read(stream, [last]));
      assert init + [last] == s;
    }
  }

  lemma {:induction false} TotalAppend(a: seq<Read>, b: seq<Read>, stream: Stream)
    ensures Total(a + b, stream) == Total(a, stream) + Total(b, stream)
  {
    if b == [] {
      assert a + b == a;
    } else {
      var init, last := b[..|b| - 1], b[|b| - 1];
      TotalAppend(a, init, stream);
      TotalSnoc(a + init, last);
      ExtendAfter(Total(a, stream), Total(init, stream), last.stream == stream, last.data);
      assert a + b == a + init + [last];
    }
  }

  lemma ExtendAfter(a: seq<Byte>, b: seq<Byte>, selected: bool, data: seq<Byte>)
    ensures Extend(a + b, selected, data) == a + Extend(b, selected, data)
  {
    assert a + b + data == a + (b + data);
  }

  /** Readings of parts of the streams, one after the other. */
  lemma ReadingAppend(a: seq<Read>, c: seq<Byte>, o: seq<Byte>, e: seq<Byte>,
                      b: seq<Read>, c': seq<Byte>, o': seq<Byte>, e': seq<Byte>)
    requires Reading(a, c, o, e) && Reading(b, c', o', e')
    ensures Reading(a + b, c + c', o + o', e + e')
  {
    TotalAppend(a, b, Control);
    TotalAppend(a, b, Stdout);
    TotalAppend(a, b, Stderr);
  }

  lemma BytewiseReading(s: seq<Byte>)
    ensures Reading(Bytewise(s, Control), s, [], []) && Reading(Bytewise(s, Stdout), [], s, [])
    ensures Reading(Bytewise(s, Stderr), [], [], s)
  {
    forall stream, x: Stream ensures Total(Bytewise(s, stream), x) == if x == stream then s else [] {
      BytewiseTotal(s, stream, x);
    }
  }

  /** After `first` everything else, byte by byte, control last. */
  lemma Complete(first: seq<Read>, c: seq<Byte>, o: seq<Byte>, e: seq<Byte>,
                 c': seq<Byte>, o': seq<Byte>, e': seq<Byte>)
      returns (chunks: seq<Read>)
    requires Reading(first, c, o, e)
    ensures first <= chunks && Reading(chunks, c + c', o + o', e + e')
  {
    BytewiseReading(c');
    BytewiseReading(o');
    BytewiseReading(e');
    ReadingAppend(Bytewise(o', Stdout), [], o', [], Bytewise(e', Stderr), [], [], e');
    var none: seq<Byte> := [];
    assert none + none == none && o' + none == o' && none + e' == e';
    var outputs := Bytewise(o', Stdout) + Bytewise(e', Stderr);
    ReadingAppend(outputs, [], o', e', Bytewise(c', Control), c', [], []);
    assert [] + c' == c' && e' + [] == e';
    var rest := outputs + Bytewise(c', Control);
    ReadingAppend(first, c, o, e, rest, c', o', e');
    chunks := first + rest;
  }

  lemma HeardFirst(chunks: seq<Read>, first: seq<Read>)
    requires first <= chunks && ReadsInBounds(first)
    ensures Total(first, Control) <= Heard(chunks)
  {
    assert chunks[..|first|] == first;
    BoundedEnds(chunks, |first|);
    var b := Bounded(chunks);
    assert b[..|first|] == first;
    var more := TotalGrows(b, |first|, Control);
  }

  /** Nothing of the last read of an out-of-bounds start, or after it, is heard. */
  lemma HeardBefore(chunks: seq<Read>, first: seq<Read>, last: Read)
    requires first + [last] <= chunks && !ReadsInBounds(first + [last])
    ensures Heard(chunks) <= Total(first, Control)
  {
    var b, n := Bounded(chunks), |first|;
    assert chunks[..n + 1] == first + [last];
    if |b| > n {
      assert b[..n + 1] == first + [last];
      EarlierInBounds(b, n + 1);
    }
    assert first[..|b|] == b;
    var more := TotalGrows(first, |b|, Control);
  }

  /** Control first, byte by byte: as much as possible is heard. */
  lemma ControlFirst(control: seq<Byte>, stdout: seq<Byte>, stderr: seq<Byte>) returns (chunks: seq<Read>)
    ensures Reading(chunks, control, stdout, stderr)
    ensures control[..Least(|control|, OBSERVER_BOUND)] <= Heard(chunks)
  {
    var n := Least(|control|, OBSERVER_BOUND);
    var first := Bytewise(control[..n], Control);
    BytewiseReading(control[..n]);
    chunks := Complete(first, control[..n], [], [], control[n..], stdout, stderr);
    assert control[..n] + control[n..] == control && [] + stdout == stdout && [] + stderr == stderr;
    HeardFirst(chunks, first);
  }

  lemma HeardNothing(chunks: seq<Read>, s: seq<Byte>, stream: Stream)
    requires |s| > OBSERVER_BOUND && stream != Control && Bytewise(s, stream) <= chunks
    ensures Heard(chunks) == []
  {
    var init, last := s[..|s| - 1], Read(stream, [s[|s| - 1]]);
    BytewiseTotal(s, stream, stream);
    BytewiseTotal(init, stream, Control);
    HeardBefore(chunks, Bytewise(init, stream), last);
  }

  /** An output stream that exceeds the bound, read first. */
  lemma OutputFirst(control: seq<Byte>, stdout: seq<Byte>, stderr: seq<Byte>) returns (chunks: seq<Read>)
    requires |stdout| > OBSERVER_BOUND || |stderr| > OBSERVER_BOUND
    ensures Reading(chunks, control, stdout, stderr) && Heard(chunks) == []
  {
    assert [] + control == control && [] + stdout == stdout && [] + stderr == stderr;
    assert stdout + [] == stdout && stderr + [] == stderr;
    if |stdout| > OBSERVER_BOUND {
      BytewiseReading(stdout);
      chunks := Complete(Bytewise(stdout, Stdout), [], stdout, [], control, [], stderr);
      HeardNothing(chunks, stdout, Stdout);
    } else {
      BytewiseReading(stderr);
      chunks := Complete(Bytewise(stderr, Stderr), [], [], stderr, control, stdout, []);
      HeardNothing(chunks, stderr, Stderr);
    }
  }

  /** One read of full length across the bound: as little as possible is heard. */
  lemma AcrossTheBound(control: seq<Byte>, stdout: seq<Byte>, stderr: seq<Byte>) returns (chunks: seq<Read>)
    requires |control| > OBSERVER_BOUND
    ensures Reading(chunks, control, stdout, stderr)
    ensures Heard(chunks) <= control[..OBSERVER_BOUND - READ_LIMIT + 1]
  {
    var m, n := OBSERVER_BOUND - READ_LIMIT + 1, OBSERVER_BOUND + 1;
    var first, last := Bytewise(control[..m], Control), Read(Control, control[m..n]);
    BytewiseReading(control[..m]);
    TotalSnoc(first, last);
    assert control[..m] + control[m..n] == control[..n];
    chunks := Complete(first + [last], control[..n], [], [], control[n..], stdout, stderr);
    assert control[..n] + control[n..] == control && [] + stdout == stdout && [] + stderr == stderr;
    HeardBefore(chunks, first, last);
  }

  /** Ambiguous streams have two readings, of which one answers and the other does not. */
  lemma AmbiguousDiffers(valid: seq<Byte> -> bool, control: seq<Byte>, stdout: seq<Byte>, stderr: seq<Byte>)
      returns (a: seq<Read>, b: seq<Read>)
    requires !Unambiguous(valid, control, stdout, stderr)
    ensures Reading(a, control, stdout, stderr) && Reading(b, control, stdout, stderr)
    ensures |Expected(valid, a).sends| == 1 && Expected(valid, b).sends == []
  {
    a := ControlFirst(control, stdout, stderr);
    CallsGrow(valid, control[..Least(|control|, OBSERVER_BOUND)], Heard(a));
    if |stdout| > OBSERVER_BOUND || |stderr| > OBSERVER_BOUND {
      b := OutputFirst(control, stdout, stderr);
    } else {
      b := AcrossTheBound(control, stdout, stderr);
      if Calls(valid, Heard(b)) { CallsGrow(valid, Heard(b), control[..OBSERVER_BOUND - READ_LIMIT + 1]); }
    }
    AnsweredIff(valid, a);
    AnsweredIff(valid, b);
    SendsAreDue(valid, a);
  }

  /** Streams are read alike in every way if and only if they are unambiguous. */
  lemma ReadAlikeIff(valid: seq<Byte> -> bool, control: seq<Byte>, stdout: seq<Byte>, stderr: seq<Byte>)
    ensures ReadAlike(valid, control, stdout, stderr) <==> Unambiguous(valid, control, stdout, stderr)
  {
    if Unambiguous(valid, control, stdout, stderr) {
      UnambiguousSuffices(valid, control, stdout, stderr);
    } else {
      var a, b := AmbiguousDiffers(valid, control, stdout, stderr);
    }
  }

  // ----- One stream that is read in two ways -----

  predicate Ascii(line: seq<Byte>)
  {
    forall i :: 0 <= i < |line| ==> line[i] < 128
  }

  /** `n` times the letter a. */
  function Letters(n: nat): (s: seq<Byte>)
    ensures |s| == n && forall i :: 0 <= i < n ==> s[i] == 97
  {
    if n == 0 then [] else Letters(n - 1) + [97]
  }

  lemma LongLine(first: seq<Byte>)
    requires NEWLINE !in first
    ensures Lines(first + [NEWLINE] + LOADED + [NEWLINE]) == [first, LOADED] && Lines(first) == []
  {
    var rest := LOADED + [NEWLINE];
    assert first + [NEWLINE] + LOADED + [NEWLINE] == first + [NEWLINE] + rest;
    TakeLine(first, rest, NEWLINE);
    assert rest == LOADED + [NEWLINE] + [];
    TakeLine(LOADED, [], NEWLINE);
    NoLine(first, NEWLINE);
    assert [first] + ([LOADED] + []) == [first, LOADED];
  }

  /** ASCII lines decode. A long first line, the LOADED line and one byte too many: in one reading
      LOADED is answered before the last byte raises, in another it is not. */
  lemma OneStreamTwoAnswers(valid: seq<Byte> -> bool) returns (control: seq<Byte>, a: seq<Read>, b: seq<Read>)
    requires forall line :: Ascii(line) ==> valid(line)
    ensures Reading(a, control, [], []) && Reading(b, control, [], [])
    ensures |Expected(valid, a).sends| == 1 && Expected(valid, b).sends == []
  {
    var first := Letters(OBSERVER_BOUND - 8);
    var heard := first + [NEWLINE] + LOADED + [NEWLINE];
    control := heard + [97];
    LongLine(first);
    assert control[..OBSERVER_BOUND] == heard;
    LoadedSecond(valid, first);
    var m := OBSERVER_BOUND - READ_LIMIT + 1;
    assert control[..m] == first[..m];
    NoLine(first[..m], NEWLINE);
    assert !Calls(valid, control[..m]);
    a, b := AmbiguousDiffers(valid, control, [], []);
  }

  lemma LoadedSecond(valid: seq<Byte> -> bool, first: seq<Byte>)
    requires valid(first) && valid(LOADED)
    ensures LoadedAndDecodable(valid, [first, LOADED])
  {
    var lines := [first, LOADED];
    assert lines[1] == LOADED && lines[..2] == lines;
  }
}
