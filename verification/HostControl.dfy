/**
 The driver of one host process: three byte streams arrive in arbitrary chunks,
 control bytes are framed into lines as they come, and the controlled input is
 sent in answer to the LOADED line.
 */
module HostControl {
  import opened Bytes
  import opened Framing

  datatype Stream = Control | Stdout | Stderr
  /** One `os.read` of any length; no data means end of file. */
  datatype Read = Read(stream: Stream, data: seq<Byte>)

  const OBSERVER_BOUND: nat := 1048576
  const LOADED: seq<Byte> := [76, 79, 65, 68, 69, 68]

  // ----- Lines of a whole stream -----

  /** The newline-terminated lines, without their newlines. */
  function Lines(s: seq<Byte>): seq<seq<Byte>> { Frame(s, NEWLINE).lines }

  /** The unterminated rest. */
  function Tail(s: seq<Byte>): seq<Byte> { Frame(s, NEWLINE).tail }

  ghost predicate NewlineFree(lines: seq<seq<Byte>>)
  {
    forall i :: 0 <= i < |lines| ==> NEWLINE !in lines[i]
  }

  /** Lines and rest contain no newline and determine the stream. */
  lemma SplitRoundTrip(s: seq<Byte>)
    ensures Unlines(Lines(s), NEWLINE) + Tail(s) == s
    ensures NEWLINE !in Tail(s) && NewlineFree(Lines(s))
  {
    FrameRoundTrip(s, NEWLINE);
  }

  /** Conversely any newline-free lines and rest are what their concatenation splits into. */
  lemma JoinRoundTrip(lines: seq<seq<Byte>>, tail: seq<Byte>)
    requires NEWLINE !in tail && NewlineFree(lines)
    ensures Lines(Unlines(lines, NEWLINE) + tail) == lines && Tail(Unlines(lines, NEWLINE) + tail) == tail
  {
    FlatRoundTrip(Framed(lines, tail), NEWLINE);
  }

  /** Splitting may stop anywhere and resume from the rest. */
  lemma SplitAppend(a: seq<Byte>, b: seq<Byte>)
    ensures Lines(a + b) == Lines(a) + Lines(Tail(a) + b)
    ensures Tail(a + b) == Tail(Tail(a) + b)
  {
    FrameAppend(a, b, NEWLINE);
  }

  // ----- What a run must produce, from the reads alone -----

  function Extend(s: seq<Byte>, selected: bool, data: seq<Byte>): seq<Byte>
  {
    if selected then s + data else s
  }

  /** All bytes read from one stream. */
  function Total(chunks: seq<Read>, stream: Stream): seq<Byte>
  {
    if chunks == [] then []
    else
      var last := chunks[|chunks| - 1];
      Extend(Total(chunks[..|chunks| - 1], stream), last.stream == stream, last.data)
  }

  predicate InBounds(control: seq<Byte>, stdout: seq<Byte>, stderr: seq<Byte>)
  {
    |control| <= OBSERVER_BOUND && |stdout| <= OBSERVER_BOUND && |stderr| <= OBSERVER_BOUND
  }

  predicate ReadsInBounds(chunks: seq<Read>)
  {
    InBounds(Total(chunks, Control), Total(chunks, Stdout), Total(chunks, Stderr))
  }

  /** The reads before the first one that makes a stream too long. */
  function Bounded(chunks: seq<Read>): (r: seq<Read>)
    ensures r <= chunks && ReadsInBounds(r)
  {
    if ReadsInBounds(chunks) then chunks else Bounded(chunks[..|chunks| - 1])
  }

  /** Position just after the first LOADED line, or nothing. */
  function SendLog(lines: seq<seq<Byte>>): (log: seq<nat>)
    ensures |log| <= 1
  {
    if lines == [] then []
    else
      var n := |lines| - 1;
      var log := SendLog(lines[..n]);
      if log == [] && lines[n] == LOADED then [n + 1] else log
  }

  lemma {:induction false} SendIffLoaded(lines: seq<seq<Byte>>)
    ensures SendLog(lines) != [] <==> LOADED in lines
  {
    if lines != [] {
      var n := |lines| - 1;
      SendIffLoaded(lines[..n]);
      assert lines == lines[..n] + [lines[n]];
    }
  }

  /** The send follows the first LOADED line. */
  lemma {:induction false} SendFollowsFirst(lines: seq<seq<Byte>>)
    requires LOADED in lines
    ensures |SendLog(lines)| == 1
    ensures var at := SendLog(lines)[0]; 0 < at <= |lines| && lines[at - 1] == LOADED && LOADED !in lines[..at - 1]
  {
    var n := |lines| - 1;
    SendIffLoaded(lines);
    SendIffLoaded(lines[..n]);
    if LOADED in lines[..n] {
      SendFollowsFirst(lines[..n]);
      var at := SendLog(lines)[0];
      assert lines[..n][..at - 1] == lines[..at - 1];
    }
  }

  predicate AllValid(valid: seq<Byte> -> bool, lines: seq<seq<Byte>>)
  {
    forall i :: 0 <= i < |lines| ==> valid(lines[i])
  }

  /** The lines before the first one that is not UTF-8. */
  function Decodable(valid: seq<Byte> -> bool, lines: seq<seq<Byte>>): (r: seq<seq<Byte>>)
    ensures r <= lines && AllValid(valid, r)
    ensures |r| < |lines| ==> !valid(lines[|r|])
  {
    if lines == [] then []
    else
      var n := |lines| - 1;
      var init := Decodable(valid, lines[..n]);
      if |init| == n && valid(lines[n]) then lines else init
  }

  /** The run raises: some stream is too long or some control line is not UTF-8. */
  predicate Raises(valid: seq<Byte> -> bool, control: seq<Byte>, stdout: seq<Byte>, stderr: seq<Byte>)
  {
    !InBounds(control, stdout, stderr) || !AllValid(valid, Lines(control))
  }

  predicate RaisesAfter(valid: seq<Byte> -> bool, chunks: seq<Read>)
  {
    Raises(valid, Total(chunks, Control), Total(chunks, Stdout), Total(chunks, Stderr))
  }

  /** The sends of a run, whether or not it raises: a line is answered when its end was read before
      the read that makes a stream too long, and no line up to it is undecodable. */
  function Sends(valid: seq<Byte> -> bool, chunks: seq<Read>): seq<nat>
  {
    SendLog(Decodable(valid, Lines(Total(Bounded(chunks), Control))))
  }

  datatype Outcome = Raised(sends: seq<nat>) | Observed(seen: seq<seq<Byte>>, framing: seq<Byte>, sends: seq<nat>)

  function Expected(valid: seq<Byte> -> bool, chunks: seq<Read>): Outcome
  {
    var control := Total(chunks, Control);
    if RaisesAfter(valid, chunks) then Raised(Sends(valid, chunks))
    else Observed(Lines(control), Tail(control), SendLog(Lines(control)))
  }

  // ----- Lists of lines -----

  lemma BothValid(valid: seq<Byte> -> bool, a: seq<seq<Byte>>, b: seq<seq<Byte>>)
    ensures AllValid(valid, a + b) <==> AllValid(valid, a) && AllValid(valid, b)
  {
    assert forall i :: 0 <= i < |a| ==> (a + b)[i] == a[i];
    assert forall i :: 0 <= i < |b| ==> (a + b)[|a| + i] == b[i];
  }

  /** A decodable start, undecodable at its end, is all there is to decode. */
  lemma DecodableIs(valid: seq<Byte> -> bool, lines: seq<seq<Byte>>, r: seq<seq<Byte>>)
    requires r <= lines && AllValid(valid, r) && (|r| < |lines| ==> !valid(lines[|r|]))
    ensures Decodable(valid, lines) == r
  {
    var d := Decodable(valid, lines);
    assert forall i :: 0 <= i < |r| ==> r[i] == lines[i] && valid(lines[i]);
    assert forall i :: 0 <= i < |d| ==> d[i] == lines[i] && valid(lines[i]);
  }

  lemma AllDecodable(valid: seq<Byte> -> bool, lines: seq<seq<Byte>>)
    ensures AllValid(valid, lines) <==> Decodable(valid, lines) == lines
  {
    if AllValid(valid, lines) { DecodableIs(valid, lines, lines); }
  }

  /** What follows a decodable start is decoded on its own. */
  lemma DecodableAfter(valid: seq<Byte> -> bool, a: seq<seq<Byte>>, b: seq<seq<Byte>>)
    requires AllValid(valid, a)
    ensures Decodable(valid, a + b) == a + Decodable(valid, b)
  {
    BothValid(valid, a, Decodable(valid, b));
    DecodableIs(valid, a + b, a + Decodable(valid, b));
  }

  /** Nothing after an undecodable line matters. */
  lemma DecodableStops(valid: seq<Byte> -> bool, a: seq<seq<Byte>>, b: seq<seq<Byte>>)
    requires !AllValid(valid, a)
    ensures Decodable(valid, a + b) == Decodable(valid, a)
  {
    var d := Decodable(valid, a);
    AllDecodable(valid, a);
    assert |d| < |a| && (a + b)[|d|] == a[|d|];
    DecodableIs(valid, a + b, d);
  }

  lemma SendLogStep(lines: seq<seq<Byte>>, line: seq<Byte>)
    ensures SendLog(lines + [line]) == if SendLog(lines) == [] && line == LOADED then [|lines| + 1] else SendLog(lines)
  {
    assert (lines + [line])[..|lines|] == lines;
  }

  lemma {:induction false} SendLogGrows(a: seq<seq<Byte>>, b: seq<seq<Byte>>)
    requires a <= b
    ensures SendLog(a) <= SendLog(b)
  {
    if |a| == |b| {
      assert a == b;
    } else {
      var init, last := b[..|b| - 1], b[|b| - 1];
      SendLogGrows(a, init);
      SendLogStep(init, last);
      assert b == init + [last];
    }
  }

  // ----- Reads -----

  /** A stream is the data of its reads, in order. */
  lemma TotalSnoc(chunks: seq<Read>, last: Read)
    ensures forall stream ::
      Total(chunks + [last], stream) == Total(chunks, stream) + if last.stream == stream then last.data else []
    ensures forall stream :: Total([], stream) == []
  {
    assert (chunks + [last])[..|chunks|] == chunks;
  }

  /** More reads only append. */
  lemma {:induction false} TotalGrows(chunks: seq<Read>, i: nat, stream: Stream) returns (more: seq<Byte>)
    requires i <= |chunks|
    ensures Total(chunks, stream) == Total(chunks[..i], stream) + more
  {
    if i == |chunks| {
      more := [];
      assert chunks[..i] == chunks;
    } else {
      var init, last := chunks[..|chunks| - 1], chunks[|chunks| - 1];
      assert init[..i] == chunks[..i];
      more := TotalGrows(init, i, stream);
      more := Extend(more, last.stream == stream, last.data);
    }
  }

  lemma LinesGrow(chunks: seq<Read>, i: nat) returns (more: seq<seq<Byte>>)
    requires i <= |chunks|
    ensures Lines(Total(chunks, Control)) == Lines(Total(chunks[..i], Control)) + more
  {
    var data := TotalGrows(chunks, i, Control);
    SplitAppend(Total(chunks[..i], Control), data);
    more := Lines(Tail(Total(chunks[..i], Control)) + data);
  }

  lemma EarlierInBounds(chunks: seq<Read>, i: nat)
    requires i <= |chunks| && ReadsInBounds(chunks)
    ensures ReadsInBounds(chunks[..i])
  {
    var c := TotalGrows(chunks, i, Control);
    var o := TotalGrows(chunks, i, Stdout);
    var e := TotalGrows(chunks, i, Stderr);
  }

  /** `Bounded` ends exactly before the crossing read. */
  lemma {:induction false} BoundedEnds(chunks: seq<Read>, i: nat)
    requires i <= |chunks| && ReadsInBounds(chunks[..i])
    ensures i <= |Bounded(chunks)|
    ensures i < |chunks| && !ReadsInBounds(chunks[..i + 1]) ==> Bounded(chunks) == chunks[..i]
  {
    if ReadsInBounds(chunks) {
      if i < |chunks| { EarlierInBounds(chunks, i + 1); }
    } else {
      var init := chunks[..|chunks| - 1];
      assert chunks[..|chunks|] == chunks;
      assert init[..i] == chunks[..i];
      BoundedEnds(init, i);
      assert i < |init| ==> init[..i + 1] == chunks[..i + 1];
      assert i == |init| ==> init[..i] == init;
    }
  }

  /** A raise is never undone by what arrives later. */
  lemma RaiseIsFinal(valid: seq<Byte> -> bool, chunks: seq<Read>, i: nat)
    requires i <= |chunks| && RaisesAfter(valid, chunks[..i])
    ensures RaisesAfter(valid, chunks)
  {
    if ReadsInBounds(chunks) { EarlierInBounds(chunks, i); }
    var more := LinesGrow(chunks, i);
    BothValid(valid, Lines(Total(chunks[..i], Control)), more);
  }

  /** The sends up to a read that ends the run are the sends of the run. */
  lemma SendsAreFinal(valid: seq<Byte> -> bool, chunks: seq<Read>, i: nat)
    requires i < |chunks| && !RaisesAfter(valid, chunks[..i]) && RaisesAfter(valid, chunks[..i + 1])
    ensures Sends(valid, chunks) ==
      SendLog(Decodable(valid, Lines(Total(chunks[..if ReadsInBounds(chunks[..i + 1]) then i + 1 else i], Control))))
  {
    BoundedEnds(chunks, i);
    if ReadsInBounds(chunks[..i + 1]) {
      BoundedEnds(chunks, i + 1);
      var b := Bounded(chunks);
      assert b[..i + 1] == chunks[..i + 1];
      var more := LinesGrow(b, i + 1);
      DecodableStops(valid, Lines(Total(chunks[..i + 1], Control)), more);
    }
  }

  // ----- At most one answer, and when -----

  /** Whatever happens, at most one send, and only the one the whole control stream calls for. */
  lemma SendsAreDue(valid: seq<Byte> -> bool, chunks: seq<Read>)
    ensures |Expected(valid, chunks).sends| <= 1
    ensures Expected(valid, chunks).sends <= SendLog(Lines(Total(chunks, Control)))
  {
    var b := Bounded(chunks);
    assert chunks[..|b|] == b;
    var more := LinesGrow(chunks, |b|);
    SendLogGrows(Decodable(valid, Lines(Total(b, Control))), Lines(Total(chunks, Control)));
  }

  /** Some line is LOADED, and it and all lines before it decode. */
  ghost predicate LoadedAndDecodable(valid: seq<Byte> -> bool, lines: seq<seq<Byte>>)
  {
    exists j :: 0 <= j < |lines| && lines[j] == LOADED && AllValid(valid, lines[..j + 1])
  }

  /** A run, raising or not, has sent exactly when some LOADED line ends before the read that makes
      a stream too long and every line up to it decodes. */
  lemma AnsweredIff(valid: seq<Byte> -> bool, chunks: seq<Read>)
    ensures var lines := Lines(Total(Bounded(chunks), Control));
      Expected(valid, chunks).sends != [] <==> LoadedAndDecodable(valid, lines)
  {
    SendsOfRun(valid, chunks);
    LoadedDecodes(valid, Lines(Total(Bounded(chunks), Control)));
    SendIffLoaded(Decodable(valid, Lines(Total(Bounded(chunks), Control))));
  }

  lemma LoadedDecodes(valid: seq<Byte> -> bool, lines: seq<seq<Byte>>)
    ensures LOADED in Decodable(valid, lines) <==> LoadedAndDecodable(valid, lines)
  {
    var d := Decodable(valid, lines);
    if j :| 0 <= j < |lines| && lines[j] == LOADED && AllValid(valid, lines[..j + 1]) {
      assert forall i :: 0 <= i <= j ==> lines[..j + 1][i] == lines[i] && valid(lines[i]);
      assert d[j] == LOADED;
    }
    if LOADED in d {
      var j :| 0 <= j < |d| && d[j] == LOADED;
      assert lines[..j + 1] == d[..j + 1];
    }
  }

  /** After `n` reads no stream is too long, and the control bytes contain a LOADED line that decodes
      with all lines before it. */
  ghost predicate AnsweredBy(valid: seq<Byte> -> bool, chunks: seq<Read>, n: int)
  {
    && 0 <= n <= |chunks|
    && |Total(chunks[..n], Control)| <= 1048576
    && |Total(chunks[..n], Stdout)| <= 1048576 && |Total(chunks[..n], Stderr)| <= 1048576
    && var lines := Lines(Total(chunks[..n], Control));
       exists j ::
         0 <= j < |lines| && lines[j] == [76, 79, 65, 68, 69, 68] && forall i :: 0 <= i <= j ==> valid(lines[i])
  }

  lemma LoadedMeans(valid: seq<Byte> -> bool, lines: seq<seq<Byte>>)
    ensures LoadedAndDecodable(valid, lines) <==>
      exists j ::
        0 <= j < |lines| && lines[j] == [76, 79, 65, 68, 69, 68] && forall i :: 0 <= i <= j ==> valid(lines[i])
  {
    forall j | 0 <= j < |lines| && lines[j] == LOADED
      ensures AllValid(valid, lines[..j + 1]) <==> forall i :: 0 <= i <= j ==> valid(lines[i])
    {
      assert forall i :: 0 <= i <= j ==> lines[..j + 1][i] == lines[i];
    }
  }

  lemma LoadedGrows(valid: seq<Byte> -> bool, a: seq<seq<Byte>>, more: seq<seq<Byte>>)
    requires LoadedAndDecodable(valid, a)
    ensures LoadedAndDecodable(valid, a + more)
  {
    var j :| 0 <= j < |a| && a[j] == LOADED && AllValid(valid, a[..j + 1]);
    assert (a + more)[..j + 1] == a[..j + 1] && (a + more)[j] == LOADED;
  }

  /** A run has sent exactly when after some number of reads it had to. */
  lemma AnsweredByIff(valid: seq<Byte> -> bool, chunks: seq<Read>)
    ensures Expected(valid, chunks).sends != [] <==> exists n :: AnsweredBy(valid, chunks, n)
  {
    AnsweredIff(valid, chunks);
    var b := Bounded(chunks);
    var lines := Lines(Total(b, Control));
    LoadedMeans(valid, lines);
    assert chunks[..|b|] == b;
    if LoadedAndDecodable(valid, lines) { assert AnsweredBy(valid, chunks, |b|); }
    if n :| AnsweredBy(valid, chunks, n) {
      BoundedEnds(chunks, n);
      LoadedMeans(valid, Lines(Total(chunks[..n], Control)));
      assert b[..n] == chunks[..n];
      var more := LinesGrow(b, n);
      LoadedGrows(valid, Lines(Total(chunks[..n], Control)), more);
    }
  }

  ghost predicate SameStreams(a: seq<Read>, b: seq<Read>)
  {
    forall stream :: Total(a, stream) == Total(b, stream)
  }

  /** Two ways of reading the same streams agree on everything but possibly on whether a run that
      raises had answered; within the bounds they agree altogether. */
  lemma ChunkingIrrelevantIff(valid: seq<Byte> -> bool, a: seq<Read>, b: seq<Read>)
    requires SameStreams(a, b)
    ensures RaisesAfter(valid, a) <==> RaisesAfter(valid, b)
    ensures Expected(valid, a) == Expected(valid, b) <==> (Sends(valid, a) != [] <==> Sends(valid, b) != [])
    ensures ReadsInBounds(a) || !RaisesAfter(valid, a) ==> Expected(valid, a) == Expected(valid, b)
  {
    SendsOfRun(valid, a);
    SendsOfRun(valid, b);
    SendsAreDue(valid, a);
    SendsAreDue(valid, b);
  }

  lemma SendsOfRun(valid: seq<Byte> -> bool, chunks: seq<Read>)
    ensures Expected(valid, chunks).sends == Sends(valid, chunks)
    ensures ReadsInBounds(chunks) ==> Sends(valid, chunks) == SendLog(Decodable(valid, Lines(Total(chunks, Control))))
  {
    AllDecodable(valid, Lines(Total(chunks, Control)));
  }

  // ----- The loop as written -----

  /** The local variables of the loop. */
  datatype Locals = Locals(control: seq<Byte>, stdout: seq<Byte>, stderr: seq<Byte>,
                           framing: seq<Byte>, seen: seq<seq<Byte>>, sent: bool, sends: seq<nat>)

  /** They agree with the whole streams read so far. */
  ghost predicate Agrees(valid: seq<Byte> -> bool, l: Locals)
  {
    && !Raises(valid, l.control, l.stdout, l.stderr)
    && l.seen == Lines(l.control) && l.framing == Tail(l.control)
    && l.sends == SendLog(l.seen) && l.sent == (l.sends != [])
  }

  /** As long as the buffer has a newline, takes lines off the front, sending at the first LOADED; a line that
      does not decode raises, with the sends made before it. */
  method Drain(valid: seq<Byte> -> bool, buffer: seq<Byte>,
               before: seq<seq<Byte>>, sentBefore: bool, sendsBefore: seq<nat>)
      returns (ok: bool, framing: seq<Byte>, seen: seq<seq<Byte>>, sent: bool, sends: seq<nat>)
    requires sendsBefore == SendLog(before) && sentBefore == (sendsBefore != [])
    ensures ok == AllValid(valid, Lines(buffer))
    ensures ok ==> framing == Tail(buffer)
    ensures seen == before + Decodable(valid, Lines(buffer))
    ensures sends == SendLog(seen) && sent == (sends != [])
  {
    framing, seen, sent, sends := buffer, before, sentBefore, sendsBefore;
    ghost var goal := Goal(Tail(buffer), AllValid(valid, Lines(buffer)), before + Decodable(valid, Lines(buffer)));
    while FirstNewline(framing) < |framing|
      invariant OnCourse(valid, goal, framing, seen, sent, sends)
      decreases |framing|
    {
      var i := FirstNewline(framing);
      var line, tail := framing[..i], framing[i + 1..];
      LineTaken(valid, goal, framing, seen, sent, sends);
      framing := tail;
      if !valid(line) { return false, framing, seen, sent, sends; }
      seen := seen + [line];
      if line == LOADED && !sent {
        sent := true;
        sends := sends + [|seen|];
      }
    }
    NothingLeft(valid, framing, seen);
    return true, framing, seen, sent, sends;
  }

  lemma NothingLeft(valid: seq<Byte> -> bool, framing: seq<Byte>, seen: seq<seq<Byte>>)
    requires FirstNewline(framing) == |framing|
    ensures Tail(framing) == framing && AllValid(valid, Lines(framing))
    ensures seen + Decodable(valid, Lines(framing)) == seen
  {
    assert framing[..|framing|] == framing;
    NoLine(framing, NEWLINE);
  }

  /** What draining a buffer must leave: the rest, whether all lines decode, and the lines seen. */
  datatype Goal = Goal(rest: seq<Byte>, all: bool, seen: seq<seq<Byte>>)

  ghost predicate OnCourse(valid: seq<Byte> -> bool, goal: Goal,
                           framing: seq<Byte>, seen: seq<seq<Byte>>, sent: bool, sends: seq<nat>)
  {
    && goal.rest == Tail(framing) && goal.all == AllValid(valid, Lines(framing))
    && goal.seen == seen + Decodable(valid, Lines(framing))
    && sends == SendLog(seen) && sent == (sends != [])
  }

  lemma LineTaken(valid: seq<Byte> -> bool, goal: Goal,
                  framing: seq<Byte>, seen: seq<seq<Byte>>, sent: bool, sends: seq<nat>)
    requires OnCourse(valid, goal, framing, seen, sent, sends) && FirstNewline(framing) < |framing|
    ensures var line, tail := framing[..FirstNewline(framing)], framing[FirstNewline(framing) + 1..];
      if valid(line) then
        OnCourse(valid, goal, tail, seen + [line], sent || line == LOADED, Answer(seen, line, sent, sends))
      else
        !goal.all && goal.seen == seen
  {
    DrainStep(valid, framing, seen);
    AnswerLogged(seen, framing[..FirstNewline(framing)], sent, sends);
  }

  function Answer(seen: seq<seq<Byte>>, line: seq<Byte>, sent: bool, sends: seq<nat>): seq<nat>
  {
    if line == LOADED && !sent then sends + [|seen| + 1] else sends
  }

  lemma AnswerLogged(seen: seq<seq<Byte>>, line: seq<Byte>, sent: bool, sends: seq<nat>)
    requires sends == SendLog(seen) && sent == (sends != [])
    ensures Answer(seen, line, sent, sends) == SendLog(seen + [line])
    ensures (sent || line == LOADED) == (SendLog(seen + [line]) != [])
  {
    SendLogStep(seen, line);
  }

  /** Taking one line off the buffer. */
  lemma DrainStep(valid: seq<Byte> -> bool, framing: seq<Byte>, seen: seq<seq<Byte>>)
    requires FirstNewline(framing) < |framing|
    ensures var line, tail := framing[..FirstNewline(framing)], framing[FirstNewline(framing) + 1..];
      && Tail(framing) == Tail(tail)
      && (AllValid(valid, Lines(framing)) <==> valid(line) && AllValid(valid, Lines(tail)))
      && seen + Decodable(valid, Lines(framing)) ==
           if valid(line) then (seen + [line]) + Decodable(valid, Lines(tail)) else seen
  {
    var line, tail := framing[..FirstNewline(framing)], framing[FirstNewline(framing) + 1..];
    assert framing == line + [NEWLINE] + tail;
    TakeLine(line, tail, NEWLINE);
    OneMore(valid, line, Lines(tail));
    assert seen + ([line] + Decodable(valid, Lines(tail))) == (seen + [line]) + Decodable(valid, Lines(tail));
  }

  lemma OneMore(valid: seq<Byte> -> bool, line: seq<Byte>, rest: seq<seq<Byte>>)
    ensures AllValid(valid, [line] + rest) <==> valid(line) && AllValid(valid, rest)
    ensures Decodable(valid, [line] + rest) == if valid(line) then [line] + Decodable(valid, rest) else []
  {
    BothValid(valid, [line], rest);
    assert [line][0] == line;
    if valid(line) { DecodableAfter(valid, [line], rest); } else { DecodableIs(valid, [line] + rest, []); }
  }

  /** What a read leaves of the loop variables, whether or not it raises. */
  ghost predicate AfterRead(valid: seq<Byte> -> bool, before: Locals, name: Stream, data: seq<Byte>, ok: bool,
      l: Locals)
  {
    && l.control == Extend(before.control, name == Control, data)
    && l.stdout == Extend(before.stdout, name == Stdout, data)
    && l.stderr == Extend(before.stderr, name == Stderr, data)
    && ok == !Raises(valid, l.control, l.stdout, l.stderr)
    && (ok ==> Agrees(valid, l))
    && l.sends == SendLog(Decodable(valid, Lines(
         if InBounds(l.control, l.stdout, l.stderr) then l.control else before.control)))
  }

  /** One nonempty read. */
  method Chunk(valid: seq<Byte> -> bool, l: Locals, name: Stream, data: seq<Byte>) returns (ok: bool, l': Locals)
    requires Agrees(valid, l)
    ensures AfterRead(valid, l, name, data, ok, l')
  {
    l' := l.(control := Extend(l.control, name == Control, data),
             stdout := Extend(l.stdout, name == Stdout, data),
             stderr := Extend(l.stderr, name == Stderr, data));
    AllDecodable(valid, l.seen);
    if !InBounds(l'.control, l'.stdout, l'.stderr) { return false, l'; }
    if name != Control { return true, l'; }
    SplitAppend(l.control, data);
    BothValid(valid, l.seen, Lines(l.framing + data));
    DecodableAfter(valid, l.seen, Lines(l.framing + data));
    AllDecodable(valid, Lines(l'.control));
    var framing, seen, sent, sends;
    ok, framing, seen, sent, sends := Drain(valid, l.framing + data, l.seen, l.sent, l.sends);
    l' := l'.(framing := framing, seen := seen, sent := sent, sends := sends);
  }

  lemma ReadStep(chunks: seq<Read>, i: nat)
    requires i < |chunks|
    ensures forall stream ::
              Total(chunks[..i + 1], stream) ==
                Extend(Total(chunks[..i], stream), chunks[i].stream == stream, chunks[i].data)
    ensures forall r :: r in chunks[..i + 1] <==> r in chunks[..i] || r == chunks[i]
  {
    assert chunks[..i + 1] == chunks[..i] + [chunks[i]];
    TotalSnoc(chunks[..i], chunks[i]);
  }

  /** For every chunking and interleaving of the reads the outcome is the expected one: raised or
      not, the seen lines, the unterminated rest, and in either case the sends. */
  method Observe(valid: seq<Byte> -> bool, chunks: seq<Read>) returns (outcome: Outcome, eof: set<Stream>)
    ensures outcome == Expected(valid, chunks)
    ensures var lines := Lines(Total(chunks, Control));
      outcome.Raised? <==>
        || |Total(chunks, Control)| > 1048576 || |Total(chunks, Stdout)| > 1048576 || |Total(chunks, Stderr)| > 1048576
        || exists i :: 0 <= i < |lines| && !valid(lines[i])
    ensures outcome.Observed? ==>
      outcome.seen == Lines(Total(chunks, Control)) && outcome.framing == Tail(Total(chunks, Control))
    ensures outcome.sends != [] <==> exists n :: AnsweredBy(valid, chunks, n)
    ensures |outcome.sends| <= 1 && outcome.sends <= SendLog(Lines(Total(chunks, Control)))
    ensures outcome.Observed? ==> forall s :: s in eof <==> Read(s, []) in chunks
  {
    var l := Locals([], [], [], [], [], false, []);
    eof := {};
    for i := 0 to |chunks|
      invariant Agrees(valid, l)
      invariant l.control == Total(chunks[..i], Control)
      invariant l.stdout == Total(chunks[..i], Stdout) && l.stderr == Total(chunks[..i], Stderr)
      invariant forall s :: s in eof <==> Read(s, []) in chunks[..i]
    {
      var data, name := chunks[i].data, chunks[i].stream;
      ReadStep(chunks, i);
      if data == [] {
        eof := eof + {name};
      } else {
        var ok;
        ok, l := Chunk(valid, l, name, data);
        if !ok {
          RaiseIsFinal(valid, chunks, i + 1);
          SendsAreFinal(valid, chunks, i);
          SendsAreDue(valid, chunks);
          AnsweredByIff(valid, chunks);
          return Raised(l.sends), eof;
        }
      }
    }
    assert chunks[..|chunks|] == chunks;
    SendsAreDue(valid, chunks);
    AnsweredByIff(valid, chunks);
    outcome := Observed(l.seen, l.framing, l.sends);
  }
}
