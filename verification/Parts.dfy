/** What the bytes of an appended file are made of: whole lines, and the pieces
  that abandoned writes left behind. A piece has no newline, so the next line
  continues it. */
module Parts {
  import opened Lines

  /** What json.Marshal returns for an event: non-empty text in which control
    characters are escaped. */
  predicate EventLine(ev: string) {
    ev != "" && NoBreak(ev)
  }

  predicate NoBreak(s: string) {
    NoLF(s) && '\r' !in s
  }

  function Line(ev: string): string {
    ev + "\n"
  }

  /** One append that wrote its whole line: bytes lo..hi of its file. */
  datatype Rec = Rec(ev: string, lo: nat, hi: nat, openedAt: nat, doneAt: nat)

  datatype Part = Whole(ev: string) | Piece(text: string)

  function TextOf(p: Part): string {
    if p.Whole? then Line(p.ev) else p.text
  }

  function Bytes(parts: seq<Part>): string {
    if parts == [] then "" else Bytes(parts[..|parts| - 1]) + TextOf(parts[|parts| - 1])
  }

  predicate PartOk(p: Part) {
    if p.Whole? then EventLine(p.ev) else p.text != "" && NoBreak(p.text)
  }

  predicate PartsOk(parts: seq<Part>) {
    forall p :: p in parts ==> PartOk(p)
  }

  predicate Torn(parts: seq<Part>) {
    exists p :: p in parts && p.Piece?
  }

  /** The log tells which parts are whole lines, and where they lie. */
  predicate Laid(parts: seq<Part>, log: seq<Rec>) {
    if parts == [] then log == []
    else
      var init, last := parts[..|parts| - 1], parts[|parts| - 1];
      if last.Piece? then Laid(init, log)
      else
        && log != []
        && log[|log| - 1].ev == last.ev && log[|log| - 1].lo == |Bytes(init)| && log[|log| - 1].hi == |Bytes(parts)|
        && Laid(init, log[..|log| - 1])
  }

  function Events(log: seq<Rec>): (r: seq<string>)
    ensures |r| == |log|
    ensures forall k :: 0 <= k < |log| ==> r[k] == log[k].ev
  {
    seq(|log|, k requires 0 <= k < |log| => log[k].ev)
  }

  /** What a reader makes of the parts: the lines so far, and the text of the
    pieces that the next line will continue. */
  function Reader(parts: seq<Part>): (seq<string>, string) {
    if parts == [] then ([], "")
    else
      var r := Reader(parts[..|parts| - 1]);
      match parts[|parts| - 1]
      case Whole(ev) => (r.0 + [r.1 + ev], "")
      case Piece(text) => (r.0, r.1 + text)
  }

  // ----- one more part -----

  lemma OneMore(parts: seq<Part>, p: Part)
    ensures Bytes(parts + [p]) == Bytes(parts) + TextOf(p)
    ensures (parts + [p])[..|parts + [p]| - 1] == parts
  {
    assert (parts + [p])[..|parts|] == parts;
  }

  lemma {:induction false} AddWhole(parts: seq<Part>, log: seq<Rec>, r: Rec)
    requires PartsOk(parts) && Laid(parts, log) && EventLine(r.ev)
    requires r.lo == |Bytes(parts)| && r.hi == r.lo + |Line(r.ev)|
    ensures PartsOk(parts + [Whole(r.ev)]) && Laid(parts + [Whole(r.ev)], log + [r])
  {
    OneMore(parts, Whole(r.ev));
    assert (log + [r])[..|log|] == log;
  }

  lemma {:induction false} AddPiece(parts: seq<Part>, log: seq<Rec>, text: string)
    requires PartsOk(parts) && Laid(parts, log) && text != "" && NoBreak(text)
    ensures PartsOk(parts + [Piece(text)]) && Laid(parts + [Piece(text)], log)
  {
    OneMore(parts, Piece(text));
  }

  // ----- reading -----

  lemma UnlinesOne(ls: seq<string>, l: string)
    ensures Unlines(ls + [l]) == Unlines(ls) + Line(l)
  {
    UnlinesConcat(ls, [l]);
    assert Unlines([l]) == Line(l);
  }

  lemma Regroup(a: string, b: string, c: string)
    ensures (a + b) + c == a + (b + c)
  {}

  /** The bytes are the reader's lines and its carry. */
  lemma {:induction false} BytesAreLines(parts: seq<Part>)
    requires PartsOk(parts)
    ensures var r := Reader(parts);
            && Bytes(parts) == Unlines(r.0) + r.1 && NoBreak(r.1)
            && forall l :: l in r.0 ==> EventLine(l)
  {
    if parts != [] {
      var init, last := parts[..|parts| - 1], parts[|parts| - 1];
      BytesAreLines(init);
      assert last in parts;
      var r := Reader(init);
      Regroup(Unlines(r.0), r.1, TextOf(last));
      if last.Whole? {
        UnlinesOne(r.0, r.1 + last.ev);
        Regroup(r.1, last.ev, "\n");
      }
    }
  }

  lemma {:induction false} ReadingBack(evs: seq<string>, rest: string)
    requires forall e :: e in evs ==> EventLine(e)
    ensures Records(Unlines(evs) + rest) == evs + Records(rest)
  {
    ScanUnlines(evs, rest);
    forall k | 0 <= k < |evs| ensures StripCR(evs[k]) == evs[k] {
      assert evs[k] in evs;
    }
    assert StripAll(evs) == evs;
    NonBlankConcat(evs, ScanLines(rest));
    NonBlankKeepsAll(evs);
  }

  lemma {:induction false} OneRecord(s: string)
    requires NoBreak(s)
    ensures Records(s) == if s == "" then [] else [s]
  {
    if s != "" {
      assert IndexLF(s) == |s|;
      assert StripCR(s) == s;
      NonBlankKeepsAll([s]);
    }
  }

  /** Exactly what a file reads back as: every whole line gives one record, which
    continues the pieces before it, and pieces at the end give one more. */
  lemma {:induction false} ReadsBack(parts: seq<Part>)
    requires PartsOk(parts)
    ensures Records(Bytes(parts)) == Reader(parts).0 + if Reader(parts).1 == "" then [] else [Reader(parts).1]
  {
    BytesAreLines(parts);
    ReadingBack(Reader(parts).0, Reader(parts).1);
    OneRecord(Reader(parts).1);
  }

  lemma {:induction false} OneLinePerRec(parts: seq<Part>, log: seq<Rec>)
    requires Laid(parts, log)
    ensures |Reader(parts).0| == |log|
  {
    if parts != [] {
      var last := parts[|parts| - 1];
      OneLinePerRec(parts[..|parts| - 1], if last.Piece? then log else log[..|log| - 1]);
    }
  }

  // ----- torn or not -----

  lemma TornOneMore(parts: seq<Part>)
    requires parts != []
    ensures Torn(parts) <==> Torn(parts[..|parts| - 1]) || parts[|parts| - 1].Piece?
  {
    assert parts == parts[..|parts| - 1] + [parts[|parts| - 1]];
  }

  lemma {:induction false} PiecesAddLength(parts: seq<Part>, log: seq<Rec>)
    requires PartsOk(parts) && Laid(parts, log)
    ensures |Bytes(parts)| >= |Unlines(Events(log))|
    ensures |Bytes(parts)| == |Unlines(Events(log))| <==> !Torn(parts)
  {
    if parts == [] {
      assert Events(log) == [];
    } else {
      var init, last := parts[..|parts| - 1], parts[|parts| - 1];
      TornOneMore(parts);
      assert last in parts;
      if last.Piece? {
        PiecesAddLength(init, log);
      } else {
        var prev := log[..|log| - 1];
        PiecesAddLength(init, prev);
        EventsOneMore(log);
        UnlinesOne(Events(prev), last.ev);
      }
    }
  }

  lemma {:induction false} UntornIsLines(parts: seq<Part>, log: seq<Rec>)
    requires PartsOk(parts) && Laid(parts, log) && !Torn(parts)
    ensures Bytes(parts) == Unlines(Events(log))
  {
    if parts == [] {
      assert Events(log) == [];
    } else {
      var prev := log[..|log| - 1];
      TornOneMore(parts);
      UntornIsLines(parts[..|parts| - 1], prev);
      EventsOneMore(log);
      UnlinesOne(Events(prev), log[|log| - 1].ev);
    }
  }

  lemma EventsOneMore(log: seq<Rec>)
    requires log != []
    ensures Events(log) == Events(log[..|log| - 1]) + [log[|log| - 1].ev]
  {}

  /** The file is the logged lines, and reads back as the logged events, exactly
    when no write was abandoned part of the way. */
  lemma {:induction false} WholeExactly(parts: seq<Part>, log: seq<Rec>)
    requires PartsOk(parts) && Laid(parts, log)
    ensures Bytes(parts) == Unlines(Events(log)) <==> !Torn(parts)
    ensures Records(Bytes(parts)) == Events(log) <==> !Torn(parts)
  {
    PiecesAddLength(parts, log);
    ReadsBack(parts);
    OneLinePerRec(parts, log);
    var r := Reader(parts);
    if Records(Bytes(parts)) == Events(log) {
      BytesAreLines(parts);
      assert r.0 == Events(log);
    }
    if !Torn(parts) {
      UntornIsLines(parts, log);
      EventsAreLines(parts, log);
      ReadingBack(Events(log), "");
      assert Unlines(Events(log)) + "" == Unlines(Events(log));
    }
  }

  lemma {:induction false} EventsAreLines(parts: seq<Part>, log: seq<Rec>)
    requires PartsOk(parts) && Laid(parts, log)
    ensures forall e :: e in Events(log) ==> EventLine(e)
  {
    forall e | e in Events(log) ensures EventLine(e) {
      var k :| 0 <= k < |log| && Events(log)[k] == e;
      EventIsLine(parts, log, k);
    }
  }

  lemma {:induction false} EventIsLine(parts: seq<Part>, log: seq<Rec>, j: nat)
    requires PartsOk(parts) && Laid(parts, log) && j < |log|
    ensures EventLine(log[j].ev)
    decreases |parts|
  {
    var init, last := parts[..|parts| - 1], parts[|parts| - 1];
    assert last in parts;
    if last.Piece? {
      EventIsLine(init, log, j);
    } else if j < |log| - 1 {
      EventIsLine(init, log[..|log| - 1], j);
    }
  }

  // ----- one record -----

  /** The append began at the start of a line. */
  predicate StartsLine(s: string, r: Rec)
    requires r.lo <= |s|
  {
    r.lo == 0 || s[r.lo - 1] == '\n'
  }

  predicate ReadBackAt(s: string, j: nat, ev: string) {
    j < |Records(s)| && Records(s)[j] == ev
  }

  lemma {:induction false} CarryIsMidLine(parts: seq<Part>, s: string)
    requires PartsOk(parts) && Bytes(parts) <= s
    ensures Reader(parts).1 == "" <==> |Bytes(parts)| == 0 || s[|Bytes(parts)| - 1] == '\n'
  {
    BytesAreLines(parts);
    var r := Reader(parts);
    if r.1 != "" {
      assert Bytes(parts)[|Bytes(parts)| - 1] == r.1[|r.1| - 1];
    } else if r.0 != [] {
      var p := r.0[..|r.0| - 1];
      assert r.0 == p + [r.0[|r.0| - 1]];
      UnlinesOne(p, r.0[|r.0| - 1]);
    }
  }

  lemma Lengthens(carry: string, ev: string)
    ensures carry + ev == ev <==> carry == ""
  {
    assert |carry + ev| == |carry| + |ev|;
  }

  /** A logged line is read as the event it is exactly when it starts a line. */
  lemma {:induction false} LineReadExactly(parts: seq<Part>, log: seq<Rec>, s: string, j: nat)
    requires PartsOk(parts) && Laid(parts, log) && j < |log| && Bytes(parts) <= s
    ensures |Reader(parts).0| == |log| && log[j].hi <= |Bytes(parts)| && log[j].lo < log[j].hi
    ensures Reader(parts).0[j] == log[j].ev <==> StartsLine(s, log[j])
  {
    OneLinePerRec(parts, log);
    var init, last := parts[..|parts| - 1], parts[|parts| - 1];
    assert Bytes(init) <= s;
    if last.Piece? {
      LineReadExactly(init, log, s, j);
    } else if j < |log| - 1 {
      LineReadExactly(init, log[..|log| - 1], s, j);
    } else {
      CarryIsMidLine(init, s);
      Lengthens(Reader(init).1, last.ev);
      OneLinePerRec(init, log[..|log| - 1]);
    }
  }

  // ----- a prefix of a file -----

  /** The first n logged lines are those that lie within s. */
  predicate Fits(log: seq<Rec>, s: string, n: nat) {
    n <= |log| && forall j :: 0 <= j < |log| ==> (j < n <==> log[j].hi <= |s|)
  }

  /** cut is what s is made of; if the next line lacks only its newline, its
    event is the last piece. */
  predicate IsCut(log: seq<Rec>, s: string, cut: seq<Part>, n: nat) {
    && Fits(log, s, n) && PartsOk(cut) && s == Bytes(cut) && Laid(cut, log[..n])
    && (n < |log| && log[n].hi == |s| + 1 ==>
          cut != [] && cut[|cut| - 1] == Piece(log[n].ev) && |Bytes(cut[..|cut| - 1])| == log[n].lo)
  }

  lemma {:induction false} NoneOfTheLast(log: seq<Rec>, r: Rec, s: string, cut: seq<Part>, n: nat)
    requires IsCut(log, s, cut, n) && r.hi > |s| + 1
    ensures IsCut(log + [r], s, cut, n)
  {
    assert (log + [r])[..n] == log[..n];
  }

  lemma {:induction false} CutNowhere(parts: seq<Part>, log: seq<Rec>)
    requires PartsOk(parts) && Laid(parts, log)
    ensures IsCut(log, Bytes(parts), parts, |log|)
  {
    HisGrow(parts, log);
    assert log[..|log|] == log;
  }

  lemma PrefixOfFirst(s: string, a: string, b: string)
    requires s <= a + b && |s| <= |a|
    ensures s <= a
  {}

  /** A prefix of the file has parts of its own: those that fit, and a piece of the next. */
  lemma {:induction false} CutParts(parts: seq<Part>, log: seq<Rec>, s: string) returns (cut: seq<Part>, n: nat)
    requires PartsOk(parts) && Laid(parts, log) && s <= Bytes(parts)
    ensures IsCut(log, s, cut, n)
    decreases |parts|, 0
  {
    if s == Bytes(parts) {
      CutNowhere(parts, log);
      return parts, |log|;
    }
    var init, last := parts[..|parts| - 1], parts[|parts| - 1];
    assert last in parts && PartsOk(init);
    if last.Piece? {
      cut, n := CutBefore(init, log, last, s);
    } else {
      var prev, r := log[..|log| - 1], log[|log| - 1];
      assert log == prev + [r];
      cut, n := CutBefore(init, prev, last, s);
      if |s| <= |Bytes(init)| {
        NoneOfTheLast(prev, r, s, cut, n);
      } else {
        PieceOfTheLast(init, prev, r, s, cut);
      }
    }
  }

  lemma {:induction false} CutBefore(init: seq<Part>, prev: seq<Rec>, last: Part, s: string)
    returns (cut: seq<Part>, n: nat)
    requires PartsOk(init) && Laid(init, prev) && PartOk(last) && s < Bytes(init) + TextOf(last)
    ensures IsCut(prev, s, cut, n)
    ensures |s| > |Bytes(init)| ==> n == |prev| && cut == init + [Piece(s[|Bytes(init)|..])]
    ensures |s| > |Bytes(init)| && last.Whole? && |s| + 1 == |Bytes(init)| + |TextOf(last)| ==>
            s[|Bytes(init)|..] == last.ev
    decreases |init|, 1
  {
    if |s| <= |Bytes(init)| {
      PrefixOfFirst(s, Bytes(init), TextOf(last));
      cut, n := CutParts(init, prev, s);
    } else {
      cut, n := CutLast(init, prev, last, s);
    }
  }

  /** The cut falls into the part after init. */
  lemma {:induction false} CutLast(init: seq<Part>, prev: seq<Rec>, last: Part, s: string)
    returns (cut: seq<Part>, n: nat)
    requires PartsOk(init) && Laid(init, prev) && PartOk(last)
    requires s < Bytes(init) + TextOf(last) && |s| > |Bytes(init)|
    ensures IsCut(prev, s, cut, n) && n == |prev| && cut == init + [Piece(s[|Bytes(init)|..])]
    ensures last.Whole? && |s| + 1 == |Bytes(init)| + |TextOf(last)| ==> s[|Bytes(init)|..] == last.ev
  {
    HisGrow(init, prev);
    CutText(Bytes(init), last, s);
    AddPiece(init, prev, s[|Bytes(init)|..]);
    OneMore(init, Piece(s[|Bytes(init)|..]));
    cut, n := init + [Piece(s[|Bytes(init)|..])], |prev|;
    assert prev[..n] == prev;
  }

  lemma {:induction false} PieceOfTheLast(init: seq<Part>, prev: seq<Rec>, r: Rec, s: string, cut: seq<Part>)
    requires IsCut(prev, s, cut, |prev|) && r.hi > |s| > |Bytes(init)| == r.lo && cut == init + [Piece(s[r.lo..])]
    requires r.hi == |s| + 1 ==> s[r.lo..] == r.ev
    ensures IsCut(prev + [r], s, cut, |prev|)
  {
    assert (prev + [r])[..|prev|] == prev && prev[..|prev|] == prev;
    assert cut[..|cut| - 1] == init;
  }

  /** Lines end where they end, and in order. */
  lemma {:induction false} HisGrow(parts: seq<Part>, log: seq<Rec>)
    requires Laid(parts, log)
    ensures forall j :: 0 <= j < |log| ==> log[j].hi <= |Bytes(parts)|
  {
    forall j | 0 <= j < |log| ensures log[j].hi <= |Bytes(parts)| {
      HiWithin(parts, log, j);
    }
  }

  lemma {:induction false} HiWithin(parts: seq<Part>, log: seq<Rec>, j: nat)
    requires Laid(parts, log) && j < |log|
    ensures log[j].hi <= |Bytes(parts)|
    decreases |parts|
  {
    var init, last := parts[..|parts| - 1], parts[|parts| - 1];
    if last.Piece? {
      HiWithin(init, log, j);
    } else if j < |log| - 1 {
      HiWithin(init, log[..|log| - 1], j);
    }
  }

  /** What is left of a part that was cut has no line end. */
  lemma CutText(before: string, last: Part, s: string)
    requires PartOk(last) && s <= before + TextOf(last) && |before| < |s| < |before + TextOf(last)|
    ensures before <= s && s == before + s[|before|..]
    ensures s[|before|..] != "" && NoBreak(s[|before|..])
    ensures last.Whole? && |s| + 1 == |before + TextOf(last)| ==> s[|before|..] == last.ev
  {
    var rest := s[|before|..];
    var t := if last.Whole? then last.ev else last.text;
    assert forall k :: 0 <= k < |rest| ==> rest[k] == t[k];
    assert rest <= t;
  }

  /** Any copy of the file from its start that holds the text of a logged line,
    with or without its newline, reads it back as the event it is, in the same
    place, exactly when the line starts a line. */
  lemma {:induction false} CopyReadsExactly(parts: seq<Part>, log: seq<Rec>, s: string, j: nat)
    requires PartsOk(parts) && Laid(parts, log) && s <= Bytes(parts) && j < |log| && log[j].hi <= |s| + 1
    ensures log[j].lo <= |s| && (ReadBackAt(s, j, log[j].ev) <==> StartsLine(s, log[j]))
  {
    var cut, n := CutParts(parts, log, s);
    if j < n {
      WholeReadExactly(cut, log[..n], j);
    } else {
      AfterTheLast(parts, log, s, n, j);
      PieceReadExactly(cut, log[..n], log[n]);
    }
  }

  lemma {:induction false} WholeReadExactly(parts: seq<Part>, log: seq<Rec>, j: nat)
    requires PartsOk(parts) && Laid(parts, log) && j < |log|
    ensures log[j].lo <= |Bytes(parts)|
    ensures ReadBackAt(Bytes(parts), j, log[j].ev) <==> StartsLine(Bytes(parts), log[j])
  {
    ReadsBack(parts);
    LineReadExactly(parts, log, Bytes(parts), j);
  }

  /** A line that lacks only its newline is the last record of the copy. */
  lemma {:induction false} PieceReadExactly(parts: seq<Part>, log: seq<Rec>, r: Rec)
    requires PartsOk(parts) && Laid(parts, log) && parts != [] && parts[|parts| - 1] == Piece(r.ev)
    requires |Bytes(parts[..|parts| - 1])| == r.lo
    ensures r.lo <= |Bytes(parts)|
    ensures ReadBackAt(Bytes(parts), |log|, r.ev) <==> StartsLine(Bytes(parts), r)
  {
    var init := parts[..|parts| - 1];
    assert parts[|parts| - 1] in parts && PartsOk(init);
    ReadsBack(parts);
    OneLinePerRec(parts, log);
    CarryIsMidLine(init, Bytes(parts));
    Lengthens(Reader(init).1, r.ev);
  }

  /** Only the first line that does not fit can lack nothing but its newline. */
  lemma {:induction false} AfterTheLast(parts: seq<Part>, log: seq<Rec>, s: string, n: nat, j: nat)
    requires PartsOk(parts) && Laid(parts, log) && n <= j < |log| && log[j].hi <= |s| + 1
    requires forall k :: 0 <= k < |log| ==> (k < n <==> log[k].hi <= |s|)
    ensures j == n && log[n].hi == |s| + 1
  {
    if n < j {
      HisIncrease(parts, log, n, j);
    }
  }

  lemma {:induction false} HisIncrease(parts: seq<Part>, log: seq<Rec>, i: nat, j: nat)
    requires PartsOk(parts) && Laid(parts, log) && i < j < |log|
    ensures log[i].hi < log[j].hi
  {
    var init, last := parts[..|parts| - 1], parts[|parts| - 1];
    if last.Piece? {
      HisIncrease(init, log, i, j);
    } else if j < |log| - 1 {
      HisIncrease(init, log[..|log| - 1], i, j);
    } else {
      HisGrow(init, log[..|log| - 1]);
    }
  }
}
