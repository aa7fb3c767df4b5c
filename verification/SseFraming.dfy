/** Server-sent events as lines, in the dialect of internal/proxy: a line is an
  event name ("event: "), a piece of data ("data: "), the end of an event (blank)
  or ignored, and an event left open at the end of input is still dispatched.
  The WHATWG HTML Living Standard, section 9.2.6, is the wider format. */
module SseFraming {
  import opened Lines
  import opened Text

  datatype SseEvent = SseEvent(name: string, data: string)

  /** The scan state of aggregateSSE, and what it has dispatched. */
  datatype Frame = Frame(name: string, buf: string, started: bool, out: seq<SseEvent>)

  const EVENT := "event: "
  const DATA := "data: "

  function Flush(f: Frame): Frame {
    Frame("", "", false, if f.started then f.out + [SseEvent(f.name, f.buf)] else f.out)
  }

  function OnLine(f: Frame, line: string): Frame {
    if line == "" then Flush(f)
    else if EVENT <= line then f.(name := line[7..], started := true)
    else if DATA <= line then
      f.(buf := (if f.buf == "" then "" else f.buf + "\n") + line[6..], started := true)
    else f
  }

  function RunLines(f: Frame, lines: seq<string>): Frame
    decreases |lines|
  {
    if lines == [] then f else RunLines(OnLine(f, lines[0]), lines[1..])
  }

  function Dispatch(lines: seq<string>): seq<SseEvent> {
    Flush(RunLines(Frame("", "", false, []), lines)).out
  }

  // ----- printing -----

  /** One data line for each line of the data. */
  function PrintData(data: string): seq<string> {
    var i := IndexLF(data);
    if i == |data| then [DATA + data] else [DATA + data[..i]] + PrintData(data[i + 1..])
  }

  /** One event without its closing blank line. */
  function OpenEvent(e: SseEvent): seq<string> {
    [EVENT + e.name] + PrintData(e.data)
  }

  function PrintEvents(es: seq<SseEvent>): seq<string> {
    if es == [] then [] else OpenEvent(es[0]) + ([""] + PrintEvents(es[1..]))
  }

  /** What scanning makes of the data: an empty buffer takes no separator, so
    leading newlines are lost. */
  function DropLeadingLF(s: string): string {
    if s != "" && s[0] == '\n' then DropLeadingLF(s[1..]) else s
  }

  function Received(es: seq<SseEvent>): (r: seq<SseEvent>)
    ensures |r| == |es|
    ensures forall i :: 0 <= i < |es| ==> r[i] == SseEvent(es[i].name, DropLeadingLF(es[i].data))
  {
    if es == [] then [] else [SseEvent(es[0].name, DropLeadingLF(es[0].data))] + Received(es[1..])
  }

  lemma {:induction false} RunSplit(f: Frame, a: seq<string>, b: seq<string>)
    ensures RunLines(f, a + b) == RunLines(RunLines(f, a), b)
    decreases |a|
  {
    if a == [] {
      assert a + b == b;
    } else {
      assert (a + b)[1..] == a[1..] + b;
      RunSplit(OnLine(f, a[0]), a[1..], b);
    }
  }

  /** One data line, as OnLine sees it. */
  lemma DataLine(f: Frame, l: string)
    ensures OnLine(f, DATA + l) == f.(buf := (if f.buf == "" then "" else f.buf + "\n") + l, started := true)
  {
    assert (DATA + l)[6..] == l;
    assert (DATA + l)[0] == 'd';
  }

  /** Reading data lines into a buffer that already holds text. */
  lemma {:induction false} RunDataOnto(f: Frame, data: string)
    requires f.buf != ""
    ensures RunLines(f, PrintData(data)) == f.(buf := f.buf + "\n" + data, started := true)
    decreases |data|
  {
    var i := IndexLF(data);
    if i < |data| {
      var rest := PrintData(data[i + 1..]);
      DataLine(f, data[..i]);
      var g := OnLine(f, DATA + data[..i]);
      RunDataOnto(g, data[i + 1..]);
      assert ([DATA + data[..i]] + rest)[1..] == rest;
      Rejoin(f.buf, data, i);
    } else {
      DataLine(f, data);
      assert [DATA + data][1..] == [];
    }
  }

  lemma Rejoin(buf: string, data: string, i: nat)
    requires i < |data| && data[i] == '\n'
    ensures (buf + "\n" + data[..i]) + "\n" + data[i + 1..] == buf + "\n" + data
    ensures data[..i] + "\n" + data[i + 1..] == data
  {}

  lemma {:induction false} RunFirstData(f: Frame, data: string)
    requires f.buf == ""
    ensures var i := IndexLF(data);
            var g := f.(buf := data[..i], started := true);
            RunLines(f, PrintData(data)) == if i == |data| then g else RunLines(g, PrintData(data[i + 1..]))
  {
    var i := IndexLF(data);
    DataLine(f, data[..i]);
    assert "" + data[..i] == data[..i];
    if i == |data| {
      assert data[..i] == data;
      assert [DATA + data][1..] == [];
    } else {
      assert ([DATA + data[..i]] + PrintData(data[i + 1..]))[1..] == PrintData(data[i + 1..]);
    }
  }

  lemma {:induction false} RunData(f: Frame, data: string)
    requires f.buf == ""
    ensures RunLines(f, PrintData(data)) == f.(buf := DropLeadingLF(data), started := true)
    decreases |data|
  {
    var i := IndexLF(data);
    RunFirstData(f, data);
    if i == |data| {
      assert data[..i] == data;
    } else if i == 0 {
      RunData(f.(started := true), data[1..]);
    } else {
      RunDataOnto(f.(buf := data[..i], started := true), data[i + 1..]);
      Rejoin("", data, i);
    }
  }

  lemma {:induction false} RunOpenEvent(f: Frame, e: SseEvent)
    requires f.buf == ""
    ensures RunLines(f, OpenEvent(e)) == Frame(e.name, DropLeadingLF(e.data), true, f.out)
  {
    var g := OnLine(f, EVENT + e.name);
    assert (EVENT + e.name)[7..] == e.name;
    assert OpenEvent(e)[1..] == PrintData(e.data);
    RunData(g, e.data);
  }

  lemma {:induction false} RunEvents(f: Frame, es: seq<SseEvent>)
    requires f.name == "" && f.buf == "" && !f.started
    ensures RunLines(f, PrintEvents(es)) == Frame("", "", false, f.out + Received(es))
    decreases |es|
  {
    if es == [] {
      assert f.out + Received(es) == f.out;
    } else {
      var g := RunLines(f, OpenEvent(es[0]));
      RunOpenEvent(f, es[0]);
      RunSplit(f, OpenEvent(es[0]), [""] + PrintEvents(es[1..]));
      assert ([""] + PrintEvents(es[1..]))[1..] == PrintEvents(es[1..]);
      var h := Flush(g);
      RunEvents(h, es[1..]);
      ConsAssociates2(f.out, SseEvent(es[0].name, DropLeadingLF(es[0].data)), Received(es[1..]));
    }
  }

  lemma ConsAssociates2<T>(a: seq<T>, x: T, b: seq<T>)
    ensures (a + [x]) + b == a + ([x] + b)
  {}

  predicate StartsWithLF(s: string) {
    s != "" && s[0] == '\n'
  }

  lemma {:induction false} DropsOnlyLeading(s: string)
    ensures DropLeadingLF(s) == s <==> !StartsWithLF(s)
    ensures |DropLeadingLF(s)| <= |s|
  {
    if StartsWithLF(s) {
      DropsOnlyLeading(s[1..]);
    }
  }

  lemma {:induction false} ReceivedIsSent(es: seq<SseEvent>)
    ensures Received(es) == es <==> forall e :: e in es ==> !StartsWithLF(e.data)
  {
    forall i | 0 <= i < |es| ensures Received(es)[i] == es[i] <==> !StartsWithLF(es[i].data) {
      DropsOnlyLeading(es[i].data);
    }
    if forall e :: e in es ==> !StartsWithLF(e.data) {
      assert forall i :: 0 <= i < |es| ==> es[i] in es;
    }
  }

  /** Printed lines dispatch the same events in order, with or without the last
    blank line, exactly when no event's data begins with a newline. */
  lemma {:induction false} LinesRoundTrip(es: seq<SseEvent>)
    ensures Dispatch(PrintEvents(es)) == Received(es)
    ensures es != [] ==> PrintEvents(es) != [] && PrintEvents(es)[|PrintEvents(es)| - 1] == ""
                         && Dispatch(PrintEvents(es)[..|PrintEvents(es)| - 1]) == Received(es)
    ensures Dispatch(PrintEvents(es)) == es <==> forall e :: e in es ==> !StartsWithLF(e.data)
  {
    DispatchPrinted(es);
    ReceivedIsSent(es);
    if es != [] {
      LastBlank(es);
      LastBlankIsOptional(PrintEvents(es));
    }
  }

  lemma DispatchPrinted(es: seq<SseEvent>)
    ensures Dispatch(PrintEvents(es)) == Received(es)
  {
    RunEvents(Frame("", "", false, []), es);
    assert [] + Received(es) == Received(es);
  }

  /** A blank line at the very end only does what the end of input does anyway. */
  lemma {:induction false} LastBlankIsOptional(p: seq<string>)
    requires p != [] && p[|p| - 1] == ""
    ensures Dispatch(p) == Dispatch(p[..|p| - 1])
  {
    var f := Frame("", "", false, []);
    var q := p[..|p| - 1];
    assert p == q + [""];
    RunSplit(f, q, [""]);
    FlushOnce(RunLines(f, q));
  }

  lemma FlushOnce(g: Frame)
    ensures RunLines(g, [""]) == Flush(g) && Flush(Flush(g)).out == Flush(g).out
  {
    assert [""][1..] == [];
  }

  lemma {:induction false} LastBlank(es: seq<SseEvent>)
    requires es != []
    ensures PrintEvents(es) != [] && PrintEvents(es)[|PrintEvents(es)| - 1] == ""
  {
    var rest := PrintEvents(es[1..]);
    var p := OpenEvent(es[0]) + ([""] + rest);
    assert p[|p| - 1] == ([""] + rest)[|rest|];
    if |es| > 1 {
      LastBlank(es[1..]);
    }
  }

  // ----- comments -----

  predicate Ignored(line: string) {
    line != "" && !(EVENT <= line) && !(DATA <= line)
  }

  function WithoutIgnored(lines: seq<string>): seq<string> {
    if lines == [] then []
    else (if Ignored(lines[0]) then [] else [lines[0]]) + WithoutIgnored(lines[1..])
  }

  /** Comment lines, wherever they stand, change nothing. */
  lemma {:induction false} IgnoredLinesAreIgnored(f: Frame, lines: seq<string>)
    ensures RunLines(f, lines) == RunLines(f, WithoutIgnored(lines))
    decreases |lines|
  {
    if lines != [] {
      IgnoredLinesAreIgnored(OnLine(f, lines[0]), lines[1..]);
      var rest := WithoutIgnored(lines[1..]);
      assert WithoutIgnored(lines) == if Ignored(lines[0]) then rest else [lines[0]] + rest;
      assert ([lines[0]] + rest)[1..] == rest;
    }
  }

  // ----- bytes -----

  lemma {:induction false} PrintedDataHasNoLF(data: string)
    ensures AllNoLF(PrintData(data))
    decreases |data|
  {
    var i := IndexLF(data);
    if i < |data| {
      PrintedDataHasNoLF(data[i + 1..]);
    } else {
      assert data[..i] == data;
    }
  }

  /** Names without newlines print as lines without newlines. */
  lemma {:induction false} PrintedHaveNoLF(es: seq<SseEvent>)
    requires forall e :: e in es ==> NoLF(e.name)
    ensures AllNoLF(PrintEvents(es))
  {
    if es != [] {
      assert es[0] in es;
      assert forall e :: e in es[1..] ==> e in es;
      PrintedHaveNoLF(es[1..]);
      PrintedDataHasNoLF(es[0].data);
    }
  }

  lemma {:induction false} IgnoredOrNot(lines: seq<string>, l: string)
    requires l in lines
    ensures Ignored(l) || l in WithoutIgnored(lines)
  {
    if l != lines[0] {
      IgnoredOrNot(lines[1..], l);
    }
  }

  /** A stream whose names and comments hold no newline is a list of lines. */
  lemma {:induction false} StreamHasNoLF(es: seq<SseEvent>, lines: seq<string>)
    requires WithoutIgnored(lines) == PrintEvents(es)
    requires (forall e :: e in es ==> NoLF(e.name)) && (forall l :: l in lines && Ignored(l) ==> NoLF(l))
    ensures AllNoLF(lines)
  {
    PrintedHaveNoLF(es);
    forall l | l in lines ensures NoLF(l) {
      IgnoredOrNot(lines, l);
    }
  }

  /** Bytes on the wire: a stream with comment lines mixed in, no name or comment
    holding a newline and no line ending in CR, scans back to the printed events,
    newlines in the data included. */
  lemma {:induction false} FramingRoundTrip(es: seq<SseEvent>, lines: seq<string>)
    requires WithoutIgnored(lines) == PrintEvents(es)
    requires (forall e :: e in es ==> NoLF(e.name)) && (forall l :: l in lines && Ignored(l) ==> NoLF(l))
    requires forall l :: l in lines ==> !EndsInCR(l)
    ensures Dispatch(ScanLines(Unlines(lines))) == Received(es)
    ensures Dispatch(ScanLines(Unlines(lines))) == es <==> forall e :: e in es ==> !StartsWithLF(e.data)
  {
    StreamHasNoLF(es, lines);
    ScanUndoesUnlines(lines);
    IgnoredLinesAreIgnored(Frame("", "", false, []), lines);
    LinesRoundTrip(es);
  }

  // ----- the relay -----

  predicate IsStop(line: string) {
    EVENT <= line && TrimBlanks(line[7..]) == "message_stop"
  }

  /** streamSSE: every scanned line goes to the accumulator and to the client;
    fault(i) says where the write of line i fails, which ends the relay. */
  method StreamSse(upstream: string, fault: nat -> Option<nat>)
    returns (acc: string, client: string, chunks: nat, sawStop: bool, failed: bool)
    ensures chunks <= |ScanLines(upstream)| && acc == Unlines(ScanLines(upstream)[..chunks])
    ensures forall i :: 0 <= i < chunks - (if failed then 1 else 0) ==> fault(i).None?
    ensures failed ==> chunks > 0 && fault(chunks - 1).Some?
                       && client == Unlines(ScanLines(upstream)[..chunks - 1])
                                    + CutAt(ScanLines(upstream)[chunks - 1], fault(chunks - 1).value)
    ensures !failed ==> chunks == |ScanLines(upstream)| && client == acc == Unlines(ScanLines(upstream))
    ensures sawStop <==> exists l :: l in ScanLines(upstream)[..chunks - (if failed then 1 else 0)]
                                     && "event: " <= l && TrimBlanks(l[7..]) == "message_stop"
  {
    acc, client, chunks, sawStop, failed := "", "", 0, false, false;
    var lines := ScanLines(upstream);
    while chunks < |lines|
      invariant chunks <= |lines| && acc == client == Unlines(lines[..chunks])
      invariant forall i :: 0 <= i < chunks ==> fault(i).None?
      invariant sawStop <==> exists l :: l in lines[..chunks] && IsStop(l)
    {
      var line := lines[chunks];
      OneMoreLine(lines, chunks);
      acc := acc + line + "\n";
      chunks := chunks + 1;
      if fault(chunks - 1).Some? {
        client := client + CutAt(line, fault(chunks - 1).value);
        failed := true;
        return;
      }
      client := client + line + "\n";
      if IsStop(line) {
        sawStop := true;
      }
    }
    assert lines[..chunks] == lines;
  }

  lemma OneMoreLine(lines: seq<string>, n: nat)
    requires n < |lines|
    ensures lines[..n + 1] == lines[..n] + [lines[n]]
    ensures Unlines(lines[..n + 1]) == Unlines(lines[..n]) + lines[n] + "\n"
  {
    assert lines[..n + 1] == lines[..n] + [lines[n]];
    UnlinesConcat(lines[..n], [lines[n]]);
    assert Unlines([lines[n]]) == lines[n] + "\n";
  }

  /** The accumulated body scans to the upstream's lines exactly when no line,
    once stripped, still ends in CR. */
  lemma {:induction false} RelayKeepsLines(upstream: string)
    ensures ScanLines(Unlines(ScanLines(upstream))) == ScanLines(upstream)
            <==> forall l :: l in ScanLines(upstream) ==> !EndsInCR(l)
  {
    ScannedLinesHaveNoLF(upstream);
    ScanUndoesUnlines(ScanLines(upstream));
  }
}
