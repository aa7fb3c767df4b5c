/** The run ledger and the streak of abnormal runs it remembers
  (internal/clauderun/ledger.go). */
module Ledger {
  import opened Lines

  datatype RunRecord = RunRecord(
    ts: string, cwd: string, resume: bool, exitCode: int, signal: int, reason: string, durationMs: int)

  /** json.Marshal and json.Unmarshal of one record. */
  datatype Codec = Codec(encode: RunRecord -> string, decode: string -> Option<RunRecord>)

  const LEDGER_MAX_LINES := 500

  predicate Abnormal(r: RunRecord) {
    r.reason != "ok" && r.reason != ""
  }

  // ----- the meaning of a ledger's lines -----

  /** The records of one directory, oldest first; lines that do not parse are skipped. */
  function Recent(c: Codec, lines: seq<string>, cwd: string): seq<RunRecord> {
    if lines == [] then []
    else
      var r := c.decode(lines[|lines| - 1]);
      Recent(c, lines[..|lines| - 1], cwd) + if r.Some? && r.value.cwd == cwd then [r.value] else []
  }

  /** The abnormal runs at the end. */
  function Streak(rs: seq<RunRecord>): nat {
    if rs == [] || !Abnormal(rs[|rs| - 1]) then 0 else 1 + Streak(rs[..|rs| - 1])
  }

  function Pruned(lines: seq<string>): seq<string> {
    if |lines| <= LEDGER_MAX_LINES * 2 then lines else lines[|lines| - LEDGER_MAX_LINES..]
  }

  /** At most 1000 lines stay as they are; of more, the last 500 stay. */
  lemma {:induction false} PrunedSays(lines: seq<string>)
    ensures |lines| <= 1000 ==> Pruned(lines) == lines
    ensures |lines| > 1000 ==> |Pruned(lines)| == 500 && IsSuffix(Pruned(lines), lines)
  {
  }

  // ----- the code -----

  class Ledger {
    const c: Codec
    var text: string

    constructor (c: Codec, text: string)
      ensures this.c == c && this.text == text
    {
      this.c := c;
      this.text := text;
    }

    /** Writes one line, then prunes. A write may fail after some of the line's
      bytes, and closing may fail after all of them; pruning works on a temporary
      file and may fail at any point before the rename. */
    method AppendRun(rec: RunRecord, failedAfter: Option<nat>, closeFault: bool, pruneFault: bool) returns (ok: bool)
      modifies this
      ensures ok == (failedAfter.None? && !closeFault)
      ensures text == AfterCall(c, old(text), Call(rec, failedAfter, closeFault, pruneFault))
      ensures ok && !pruneFault ==>
                var grown := old(text) + (c.encode(rec) + "\n");
                var all := Records(grown);
                text == if |all| <= 1000 then grown else Unlines(all[|all| - 500..])
    {
      var line := c.encode(rec);
      if failedAfter.Some? {
        text := text + CutAt(line, failedAfter.value);
        return false;
      }
      text := text + (line + "\n");
      assert line + "\n" == Unlines([line]);
      if closeFault {
        return false;
      }
      PruneLedger(pruneFault);
      ok := true;
    }

    method PruneLedger(fault: bool)
      modifies this
      ensures text == if fault then old(text) else PrunedText(old(text))
      // A file is rewritten once it holds more than 1000 records, as its last 500.
      ensures var all := Records(old(text));
              text == if fault || |all| <= 1000 then old(text) else Unlines(all[|all| - 500..])
    {
      var all := Records(text);
      if |all| <= LEDGER_MAX_LINES * 2 {
        return;
      }
      var keep := all[|all| - LEDGER_MAX_LINES..];
      if fault {
        return;
      }
      var tmp := "";
      var i := 0;
      while i < |keep|
        invariant 0 <= i <= |keep| && tmp == Unlines(keep[..i])
      {
        assert keep[..i + 1] == keep[..i] + [keep[i]];
        UnlinesConcat(keep[..i], [keep[i]]);
        assert Unlines([keep[i]]) == keep[i] + "\n";
        tmp := tmp + (keep[i] + "\n");
        i := i + 1;
      }
      assert keep[..i] == keep;
      text := tmp;
    }

    method RecentForCwd(cwd: string) returns (out: seq<RunRecord>)
      ensures out == Recent(c, Records(text), cwd)
    {
      var lines := Records(text);
      out := [];
      var i := 0;
      while i < |lines|
        invariant 0 <= i <= |lines| && out == Recent(c, lines[..i], cwd)
      {
        assert lines[..i + 1][..i] == lines[..i];
        var r := c.decode(lines[i]);
        if r.Some? && r.value.cwd == cwd {
          out := out + [r.value];
        }
        i := i + 1;
      }
      assert lines[..i] == lines;
    }

    method AbnormalStreak(cwd: string) returns (streak: nat)
      ensures streak == Streak(Recent(c, Records(text), cwd))
    {
      var recs := RecentForCwd(cwd);
      streak := 0;
      var i := |recs|;
      assert recs[..|recs|] == recs;
      while i > 0
        invariant 0 <= i <= |recs| && Streak(recs) == streak + Streak(recs[..i])
      {
        assert recs[..i][..i - 1] == recs[..i - 1];
        if !Abnormal(recs[i - 1]) {
          break;
        }
        streak := streak + 1;
        i := i - 1;
      }
    }
  }

  /** What pruning leaves in the file. */
  function PrunedText(text: string): string {
    if |Records(text)| <= LEDGER_MAX_LINES * 2 then text else Unlines(Pruned(Records(text)))
  }

  // ----- from text to lines -----

  /** A file whose last line is complete. */
  predicate Complete(text: string) {
    text == "" || text[|text| - 1] == '\n'
  }

  /** A line that reads back as it was written. */
  predicate Plain(line: string) {
    line != "" && NoLF(line) && !EndsInCR(line)
  }

  lemma {:induction false} ScanAppend(text: string, rest: string)
    requires Complete(text)
    ensures ScanLines(text + rest) == ScanLines(text) + ScanLines(rest)
    decreases |text|
  {
    if text == "" {
      assert text + rest == rest;
    } else {
      var i := IndexLF(text);
      NotTooFar(text, i);
      CompleteTail(text, i);
      ScanAppend(text[i + 1..], rest);
      ScanFirst(text[..i], text[i + 1..], rest);
      Regroup(text[..i], text[i + 1..], rest);
    }
  }

  lemma CompleteTail(text: string, i: nat)
    requires Complete(text) && i < |text| && text[i] == '\n'
    ensures Complete(text[i + 1..]) && text == text[..i] + "\n" + text[i + 1..]
  {}

  lemma ScanFirst(l: string, tail: string, rest: string)
    requires NoLF(l) && ScanLines(tail + rest) == ScanLines(tail) + ScanLines(rest)
    ensures ScanLines(l + "\n" + (tail + rest)) == ScanLines(l + "\n" + tail) + ScanLines(rest)
  {
    ScanOne(l, tail);
    ScanOne(l, tail + rest);
    ConsAssociates(StripCR(l), ScanLines(tail), ScanLines(rest));
  }

  lemma Regroup(l: string, tail: string, rest: string)
    ensures (l + "\n" + tail) + rest == l + "\n" + (tail + rest)
  {}

  lemma NotTooFar(text: string, i: nat)
    requires text != "" && Complete(text) && i == IndexLF(text)
    ensures i < |text|
  {
    assert text[|text| - 1] in text && text[..|text|] == text;
  }

  lemma {:induction false} AppendOneLine(text: string, line: string)
    requires Complete(text) && Plain(line)
    ensures Records(text + Unlines([line])) == Records(text) + [line]
    ensures Complete(text + Unlines([line]))
  {
    ScanAppend(text, Unlines([line]));
    ScanUndoesUnlines([line]);
    NonBlankConcat(ScanLines(text), [line]);
    NonBlankKeepsAll([line]);
    assert Unlines([line]) == line + "\n";
    assert (text + (line + "\n"))[|text| + |line|] == '\n';
  }

  lemma {:induction false} UnlinesComplete(ls: seq<string>)
    ensures Complete(Unlines(ls))
  {
    if ls != [] {
      UnlinesComplete(ls[1..]);
      var s, t := ls[0] + "\n", Unlines(ls[1..]);
      assert (s + t)[|s| - 1] == '\n';
      assert t != "" ==> (s + t)[|s + t| - 1] == t[|t| - 1];
    }
  }

  /** Every record of a file is plain if its lines end as this program writes them. */
  predicate AllPlain(ls: seq<string>) {
    forall l :: l in ls ==> Plain(l)
  }

  /** Pruning a file of plain lines keeps the last 500 lines and their order. */
  lemma {:induction false} PruneReadsBack(text: string)
    requires AllPlain(Records(text))
    ensures Records(PrunedText(text)) == Pruned(Records(text)) && AllPlain(Records(PrunedText(text)))
    ensures Complete(text) ==> Complete(PrunedText(text))
    ensures |Records(PrunedText(text))| <= LEDGER_MAX_LINES * 2
  {
    var ls := Pruned(Records(text));
    assert forall l :: l in ls ==> l in Records(text);
    ScanUndoesUnlines(ls);
    NonBlankKeepsAll(ls);
    UnlinesComplete(ls);
  }

  // ----- what pruning does to a streak -----

  lemma {:induction false} RecentSplit(c: Codec, a: seq<string>, b: seq<string>, cwd: string)
    ensures Recent(c, a + b, cwd) == Recent(c, a, cwd) + Recent(c, b, cwd)
  {
    if b == [] {
      assert a + b == a;
    } else {
      var p, last := b[..|b| - 1], b[|b| - 1];
      assert (a + b)[..|a + b| - 1] == a + p;
      RecentSplit(c, a, p, cwd);
      var r := c.decode(last);
      Associate(Recent(c, a, cwd), Recent(c, p, cwd), if r.Some? && r.value.cwd == cwd then [r.value] else []);
    }
  }

  lemma Associate<T>(a: seq<T>, b: seq<T>, x: seq<T>)
    ensures (a + b) + x == a + (b + x)
  {}

  lemma {:induction false} StreakSplit(a: seq<RunRecord>, b: seq<RunRecord>)
    ensures Streak(b) <= |b|
    ensures Streak(a + b) == if Streak(b) < |b| then Streak(b) else |b| + Streak(a)
  {
    if b == [] {
      assert a + b == a;
    } else {
      assert (a + b)[..|a + b| - 1] == a + b[..|b| - 1];
      StreakSplit(a, b[..|b| - 1]);
    }
  }

  function Min(a: nat, b: nat): nat {
    if a < b then a else b
  }

  /** After pruning, a directory's streak is the smaller of what it was and the
    number of its records that were kept. */
  lemma {:induction false} PruningKeepsTheStreak(c: Codec, lines: seq<string>, cwd: string)
    ensures var kept := Recent(c, Pruned(lines), cwd);
            Streak(kept) == Min(Streak(Recent(c, lines, cwd)), |kept|)
  {
    var k := if |lines| <= LEDGER_MAX_LINES * 2 then 0 else |lines| - LEDGER_MAX_LINES;
    assert lines == lines[..k] + lines[k..] && Pruned(lines) == lines[k..];
    RecentSplit(c, lines[..k], lines[k..], cwd);
    StreakSplit(Recent(c, lines[..k], cwd), Recent(c, lines[k..], cwd));
  }

  /** The streak reaches n exactly when there are n records at the end, all abnormal. */
  lemma {:induction false} StreakReaches(rs: seq<RunRecord>, n: nat)
    ensures Streak(rs) <= |rs|
    ensures Streak(rs) >= n <==> |rs| >= n && forall i :: |rs| - n <= i < |rs| ==> rs[i].reason !in {"", "ok"}
    decreases n
  {
    StreakSplit([], rs);
    if n > 0 && rs != [] {
      var p := rs[..|rs| - 1];
      StreakReaches(p, n - 1);
      assert forall i :: 0 <= i < |p| ==> p[i] == rs[i];
    }
  }

  // ----- whole runs of the ledger -----

  /** One call of appendRun. */
  datatype Call = Call(rec: RunRecord, failedAfter: Option<nat>, closeFault: bool, pruneFault: bool)

  function AfterCall(c: Codec, text: string, k: Call): string {
    if k.failedAfter.Some? then text + CutAt(c.encode(k.rec), k.failedAfter.value)
    else if k.closeFault || k.pruneFault then text + Unlines([c.encode(k.rec)])
    else PrunedText(text + Unlines([c.encode(k.rec)]))
  }

  /** The record survives JSON and its line survives the file. */
  predicate Faithful(c: Codec, rec: RunRecord) {
    Plain(c.encode(rec)) && c.decode(c.encode(rec)) == Some(rec)
  }

  predicate TextOk(text: string) {
    Complete(text) && AllPlain(Records(text))
  }

  predicate IsSuffix<T(==)>(a: seq<T>, b: seq<T>) {
    |a| <= |b| && a == b[|b| - |a|..]
  }

  lemma OneLine(line: string)
    ensures Unlines([line]) == line + "\n"
  {
    assert [line][1..] == [];
    assert line + "\n" + "" == line + "\n";
  }

  /** The record that readers make of an unterminated rest. */
  function Tail(rest: string): seq<string> {
    if StripCR(rest) == "" then [] else [StripCR(rest)]
  }

  lemma {:induction false} TailIsRead(body: string, rest: string)
    requires Complete(body) && NoLF(rest)
    ensures Records(body + rest) == Records(body) + Tail(rest)
  {
    ScanAppend(body, rest);
    if rest == "" {
      assert body + rest == body;
      assert Records(body) + [] == Records(body);
    } else {
      assert forall i :: 0 <= i < |rest| ==> rest[i] in rest;
      assert ScanLines(rest) == [StripCR(rest)];
      NonBlankConcat(ScanLines(body), [StripCR(rest)]);
      assert NonBlank([StripCR(rest)]) == Tail(rest);
    }
  }

  /** What a call leaves unterminated behind the rest it found. */
  function NextRest(c: Codec, rest: string, k: Call): string {
    if k.failedAfter.Some? then rest + CutAt(c.encode(k.rec), k.failedAfter.value) else ""
  }

  /** The complete lines after a call: a line that is written goes on from the rest. */
  function NextLines(c: Codec, lines: seq<string>, rest: string, k: Call): seq<string> {
    if k.failedAfter.Some? then lines
    else
      var all := lines + [rest + c.encode(k.rec)];
      if k.closeFault || k.pruneFault then all else Pruned(all)
  }

  lemma {:induction false} PartKeepsPlain(rest: string, line: string)
    requires NoLF(rest) && Plain(line)
    ensures Plain(rest + line)
  {
    assert (rest + line)[|rest + line| - 1] == line[|line| - 1];
  }

  /** One call on any ledger, torn or not: what is complete and what is not
    afterwards, and what of it is read. */
  lemma {:induction false} CallGoesOn(c: Codec, body: string, rest: string, k: Call) returns (body': string)
    requires TextOk(body) && NoLF(rest) && Plain(c.encode(k.rec))
    ensures AfterCall(c, body + rest, k) == body' + NextRest(c, rest, k)
    ensures TextOk(body') && Records(body') == NextLines(c, Records(body), rest, k)
    ensures NoLF(NextRest(c, rest, k))
  {
    var line := c.encode(k.rec);
    if k.failedAfter.Some? {
      body' := body;
      assert (body + rest) + CutAt(line, k.failedAfter.value) == body + NextRest(c, rest, k);
    } else {
      PartKeepsPlain(rest, line);
      AppendOneLine(body, rest + line);
      OneLine(line);
      OneLine(rest + line);
      body' := body + Unlines([rest + line]);
      assert (body + rest) + (line + "\n") == body + ((rest + line) + "\n");
      if !k.closeFault && !k.pruneFault {
        PruneReadsBack(body');
        body' := PrunedText(body');
      }
      assert body' + "" == body';
    }
  }

  /** What one call does to a directory's records, on any ledger: it adds the record
    of the line it wrote, which goes on from what a torn write had left, or the
    record of what it left itself; and only a prune takes any away, from the front,
    down to at most 1000 lines, of which the new one is the last. */
  lemma {:induction false} AppendIsRemembered(c: Codec, body: string, rest: string, k: Call, cwd: string)
    requires TextOk(body) && NoLF(rest) && Plain(c.encode(k.rec))
    ensures var after := Records(AfterCall(c, body + rest, k));
            var more := if k.failedAfter.Some? then Tail(NextRest(c, rest, k)) else [rest + c.encode(k.rec)];
            var all := Records(body) + more;
            && IsSuffix(Recent(c, after, cwd), Recent(c, all, cwd))
            && (k.failedAfter.Some? || k.closeFault || k.pruneFault ==> after == all)
            && (k.failedAfter.None? ==> after != [] && after[|after| - 1] == rest + c.encode(k.rec))
            && (k.failedAfter.None? && !k.closeFault && !k.pruneFault ==> |after| <= 1000)
  {
    var body' := CallGoesOn(c, body, rest, k);
    TailIsRead(body', NextRest(c, rest, k));
    if k.failedAfter.None? {
      var all := Records(body) + [rest + c.encode(k.rec)];
      assert Records(body') + [] == Records(body');
      PrunedIsSuffix(c, all, cwd);
    }
  }

  /** A torn write swallows the next run: the two lines read as one, and the next
    run is forgotten exactly when what they make together does not parse as its record. */
  lemma {:induction false} TornWriteSwallowsNext(c: Codec, body: string, torn: Call, k: Call)
    requires TextOk(body) && Plain(c.encode(torn.rec)) && Plain(c.encode(k.rec))
    requires torn.failedAfter.Some? && k.failedAfter.None?
    ensures var glued := CutAt(c.encode(torn.rec), torn.failedAfter.value) + c.encode(k.rec);
            var after := Records(AfterCall(c, AfterCall(c, body, torn), k));
            var all := Records(body) + [glued];
            && after == (if k.closeFault || k.pruneFault then all else Pruned(all))
            && (Recent(c, all, k.rec.cwd) == Recent(c, Records(body), k.rec.cwd) + [k.rec]
                <==> c.decode(glued) == Some(k.rec))
  {
    var rest := NextRest(c, "", torn);
    assert rest == CutAt(c.encode(torn.rec), torn.failedAfter.value);
    assert AfterCall(c, body, torn) == body + rest;
    var body' := CallGoesOn(c, body, rest, k);
    assert body' + "" == body';
    OneMoreLine(c, Records(body), rest + c.encode(k.rec), k.rec);
  }

  lemma {:induction false} OneMoreLine(c: Codec, lines: seq<string>, line: string, rec: RunRecord)
    ensures Recent(c, lines + [line], rec.cwd) == Recent(c, lines, rec.cwd) + [rec] <==> c.decode(line) == Some(rec)
  {
    assert (lines + [line])[..|lines|] == lines;
    var r, rs := c.decode(line), Recent(c, lines, rec.cwd);
    if r.Some? && r.value.cwd == rec.cwd {
      assert (rs + [r.value])[|rs|] == r.value && (rs + [rec])[|rs|] == rec;
    } else {
      assert |rs + []| < |rs + [rec]|;
    }
  }

  lemma {:induction false} PrunedIsSuffix(c: Codec, ls: seq<string>, cwd: string)
    ensures IsSuffix(Recent(c, Pruned(ls), cwd), Recent(c, ls, cwd))
  {
    var k := if |ls| <= LEDGER_MAX_LINES * 2 then 0 else |ls| - LEDGER_MAX_LINES;
    assert ls == ls[..k] + ls[k..] && Pruned(ls) == ls[k..];
    RecentSplit(c, ls[..k], ls[k..], cwd);
  }

  function AfterCalls(c: Codec, text: string, ks: seq<Call>): string {
    if ks == [] then text else AfterCall(c, AfterCalls(c, text, ks[..|ks| - 1]), ks[|ks| - 1])
  }

  /** What a run of calls from an empty ledger leaves unterminated. */
  function Rest(c: Codec, ks: seq<Call>): string {
    if ks == [] then "" else NextRest(c, Rest(c, ks[..|ks| - 1]), ks[|ks| - 1])
  }

  /** The complete lines it leaves in the file. */
  function KeptLines(c: Codec, ks: seq<Call>): seq<string> {
    if ks == [] then []
    else
      var p := ks[..|ks| - 1];
      NextLines(c, KeptLines(c, p), Rest(c, p), ks[|ks| - 1])
  }

  /** The complete lines it would leave if nothing were ever pruned. */
  function Written(c: Codec, ks: seq<Call>): seq<string> {
    if ks == [] then []
    else
      var p, k := ks[..|ks| - 1], ks[|ks| - 1];
      Written(c, p) + if k.failedAfter.Some? then [] else [Rest(c, p) + c.encode(k.rec)]
  }

  /** Everything a reader would see if nothing were ever pruned. */
  function Seen(c: Codec, ks: seq<Call>): seq<string> {
    Written(c, ks) + Tail(Rest(c, ks))
  }

  lemma {:induction false} RunLeaves(c: Codec, ks: seq<Call>) returns (body: string)
    requires forall k :: k in ks ==> Plain(c.encode(k.rec))
    ensures AfterCalls(c, "", ks) == body + Rest(c, ks)
    ensures TextOk(body) && Records(body) == KeptLines(c, ks) && NoLF(Rest(c, ks))
  {
    if ks == [] {
      body := "";
    } else {
      var p, k := ks[..|ks| - 1], ks[|ks| - 1];
      var before := RunLeaves(c, p);
      body := CallGoesOn(c, before, Rest(c, p), k);
    }
  }

  lemma {:induction false} KeptIsSuffix(c: Codec, ks: seq<Call>)
    ensures IsSuffix(KeptLines(c, ks), Written(c, ks))
  {
    if ks != [] {
      var p, k := ks[..|ks| - 1], ks[|ks| - 1];
      KeptIsSuffix(c, p);
      if k.failedAfter.Some? {
        assert Written(c, ks) == Written(c, p);
      } else {
        var line := [Rest(c, p) + c.encode(k.rec)];
        SuffixOfSuffix(Written(c, p), KeptLines(c, p), line, KeptLines(c, ks));
      }
    }
  }

  lemma SuffixOfSuffix<T>(all: seq<T>, some: seq<T>, x: seq<T>, kept: seq<T>)
    requires IsSuffix(some, all) && IsSuffix(kept, some + x)
    ensures IsSuffix(kept, all + x)
  {}

  /** Over any run of appends and prunes, failed and torn writes included, what is
    read is the end of everything ever written, each line going on from what a torn
    write had left; and a directory's streak is that of all of it, cut off at the
    number of records kept. */
  lemma {:induction false} StreakOverRuns(c: Codec, ks: seq<Call>, cwd: string)
    requires forall k :: k in ks ==> Plain(c.encode(k.rec))
    ensures IsSuffix(Records(AfterCalls(c, "", ks)), Seen(c, ks))
    ensures var kept, all := Recent(c, Records(AfterCalls(c, "", ks)), cwd), Recent(c, Seen(c, ks), cwd);
            IsSuffix(kept, all) && Streak(kept) == Min(Streak(all), |kept|)
  {
    var body := RunLeaves(c, ks);
    var rest := Tail(Rest(c, ks));
    TailIsRead(body, Rest(c, ks));
    KeptIsSuffix(c, ks);
    SuffixOfSuffix(Written(c, ks), KeptLines(c, ks), rest, KeptLines(c, ks) + rest);
    RecentOfSuffix(c, KeptLines(c, ks) + rest, Seen(c, ks), cwd);
  }

  lemma {:induction false} RecentOfSuffix(c: Codec, kept: seq<string>, all: seq<string>, cwd: string)
    requires IsSuffix(kept, all)
    ensures var rs, qs := Recent(c, kept, cwd), Recent(c, all, cwd);
            IsSuffix(rs, qs) && Streak(rs) == Min(Streak(qs), |rs|)
  {
    var gone := all[..|all| - |kept|];
    assert all == gone + kept;
    RecentSplit(c, gone, kept, cwd);
    StreakSplit(Recent(c, gone, cwd), Recent(c, kept, cwd));
  }

  // ----- where no write was torn -----

  /** The call wrote its whole line or nothing of it. */
  predicate Untorn(k: Call) {
    k.failedAfter.Some? ==> k.failedAfter.value == 0
  }

  /** The records a directory's calls were given, failed writes left out. */
  function History(ks: seq<Call>, cwd: string): seq<RunRecord> {
    if ks == [] then []
    else
      var k := ks[|ks| - 1];
      History(ks[..|ks| - 1], cwd) + if k.failedAfter.None? && k.rec.cwd == cwd then [k.rec] else []
  }

  /** Then everything written reads back as the records the calls were given. */
  lemma {:induction false} UntornRunsReadBack(c: Codec, ks: seq<Call>, cwd: string)
    requires forall k :: k in ks ==> Faithful(c, k.rec) && Untorn(k)
    ensures Rest(c, ks) == "" && Recent(c, Seen(c, ks), cwd) == History(ks, cwd)
  {
    if ks != [] {
      var p, k := ks[..|ks| - 1], ks[|ks| - 1];
      UntornRunsReadBack(c, p, cwd);
      assert Seen(c, p) == Written(c, p) && Seen(c, ks) == Written(c, ks);
      if k.failedAfter.None? {
        assert "" + c.encode(k.rec) == c.encode(k.rec);
        RecentOneMore(c, Written(c, p), k.rec, cwd);
      }
    }
  }

  lemma RecentOneMore(c: Codec, lines: seq<string>, rec: RunRecord, cwd: string)
    requires c.decode(c.encode(rec)) == Some(rec)
    ensures Recent(c, lines + [c.encode(rec)], cwd) == Recent(c, lines, cwd) + if rec.cwd == cwd then [rec] else []
  {
    assert (lines + [c.encode(rec)])[..|lines|] == lines;
  }
}
