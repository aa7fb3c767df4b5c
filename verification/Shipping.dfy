/** What the client side guarantees over every run of CaptureFile: which lines
  stay whole, what every file and object reads back as, and which finished
  appends can be lost, exactly. */
module Shipping {
  import opened Lines
  import opened CaptureFile
  import opened Parts

  // ----- locked appends stay whole -----

  /** The flock admits one writer per file, whatever processes they run in. */
  lemma {:induction false} OneWriterPerFile(c: Config, w: World, t: nat, u: nat)
    requires Reachable(c, w) && t < |w.threads| && u < |w.threads|
    requires w.threads[t].Writing? && w.threads[u].Writing? && w.threads[t].ino == w.threads[u].ino
    ensures t == u
  {
    ReachableInv(c, w);
    assert ThreadOk(c, w, t) && ThreadOk(c, w, u);
  }

  /** appendMu admits one thread per process. */
  lemma {:induction false} OneThreadPerProcess(c: Config, w: World, t: nat, u: nat)
    requires Reachable(c, w) && t < |w.threads| && u < |w.threads| && |c.proc| == |w.threads|
    requires !w.threads[t].Idle? && !w.threads[u].Idle? && c.proc[t] == c.proc[u]
    ensures t == u
  {
    ReachableInv(c, w);
    assert ThreadOk(c, w, t) && ThreadOk(c, w, u);
  }

  /** Every file is its parts plus a prefix of the lock holder's line, and it is
    whole lines plus that prefix exactly when no write on it was abandoned part
    of the way. */
  lemma {:induction false} LinesStayWhole(c: Config, w: World, i: nat)
    requires Reachable(c, w) && i < |w.inodes|
    ensures var f := w.inodes[i];
            && f.bytes == Bytes(f.parts) + Partial(w.threads, f)
            && (f.bytes == Unlines(Events(f.log)) + Partial(w.threads, f) <==> !Torn(f.parts))
    ensures Partial(w.threads, w.inodes[i]) != "" ==>
              exists t :: 0 <= t < |w.threads| && w.threads[t].Writing? && w.threads[t].ino == i
                          && w.inodes[i].holder == Some(t)
                          && Partial(w.threads, w.inodes[i]) < Line(w.threads[t].ev)
  {
    ReachableInv(c, w);
    assert InodeOk(w, i);
    var f := w.inodes[i];
    WholeExactly(f.parts, f.log);
    SameTail(Bytes(f.parts), Unlines(Events(f.log)), Partial(w.threads, f));
    if Partial(w.threads, f) != "" {
      var t := f.holder.value;
      assert Partial(w.threads, f) < Line(w.threads[t].ev);
    }
  }

  lemma SameTail(a: string, b: string, tail: string)
    ensures a + tail == b + tail <==> a == b
  {
    if a + tail == b + tail {
      assert a == (a + tail)[..|a|] && b == (b + tail)[..|b|];
    }
  }

  /** A writer gives up with part of its line written. */
  predicate Tears(w: World, a: Action, i: nat) {
    a.Fail? && a.t < |w.threads| && w.threads[a.t].Writing? && w.threads[a.t].ino == i
    && 0 < w.threads[a.t].done < |Line(w.threads[a.t].ev)|
  }

  predicate TornAt(w: World, i: nat) {
    i < |w.inodes| && Torn(w.inodes[i].parts)
  }

  /** Only such a step tears a file, and every such step does. */
  lemma {:induction false} TornExactlyBy(c: Config, w: World, a: Action, i: nat)
    requires Inv(c, w) && Enabled(c, w, a)
    ensures TornAt(Step(c, w, a), i) <==> TornAt(w, i) || Tears(w, a, i)
  {
    var z := Step(c, w, a);
    if a.Open? || a.Write? || a.Fail? {
      assert ThreadOk(c, w, a.t);
    }
    if i < |w.inodes| {
      if a.Write? && w.threads[a.t].ino == i && z.inodes[i].parts != w.inodes[i].parts {
        TornOneMore(z.inodes[i].parts);
        OneMore(w.inodes[i].parts, Whole(w.threads[a.t].ev));
      } else if Tears(w, a, i) {
        TornOneMore(z.inodes[i].parts);
      } else {
        assert z.inodes[i].parts == w.inodes[i].parts;
      }
    }
  }

  predicate TearsIn(c: Config, w: World, acts: seq<Action>, i: nat)
    decreases |acts|
  {
    acts != [] && |w.threads| == |c.proc| && Enabled(c, w, acts[0])
    && (Tears(w, acts[0], i) || TearsIn(c, Step(c, w, acts[0]), acts[1..], i))
  }

  /** Over every run: a file is torn exactly when some write on it was abandoned
    part of the way. */
  lemma {:induction false} TornExactly(c: Config, w: World, acts: seq<Action>, z: World, i: nat)
    requires Inv(c, w) && Leads(c, w, acts, z)
    ensures TornAt(z, i) <==> TornAt(w, i) || TearsIn(c, w, acts, i)
    decreases |acts|
  {
    if acts != [] {
      TornExactlyBy(c, w, acts[0], i);
      StepKeepsInv(c, w, acts[0]);
      TornExactly(c, Step(c, w, acts[0]), acts[1..], z, i);
    }
  }

  /** A quiescent file reads back as what the reader makes of its parts, for every
    reachable file, and as exactly the appended events when it is not torn and
    only then. */
  lemma {:induction false} QuietFileReadsBack(c: Config, w: World, i: nat)
    requires Reachable(c, w) && i < |w.inodes| && w.inodes[i].holder.None?
    ensures var f := w.inodes[i];
            && Records(f.bytes) == Reader(f.parts).0 + (if Reader(f.parts).1 == "" then [] else [Reader(f.parts).1])
            && (Records(f.bytes) == Events(f.log) <==> !Torn(f.parts))
  {
    ReachableInv(c, w);
    assert InodeOk(w, i);
    var f := w.inodes[i];
    assert Bytes(f.parts) + "" == Bytes(f.parts);
    ReadsBack(f.parts);
    WholeExactly(f.parts, f.log);
  }

  /** The parts of a file with the unfinished line as a piece. */
  function AllParts(threads: seq<Appender>, f: Inode): seq<Part> {
    if Partial(threads, f) == "" then f.parts else f.parts + [Piece(Partial(threads, f))]
  }

  lemma {:induction false} AllPartsOk(c: Config, w: World, i: nat)
    requires Inv(c, w) && i < |w.inodes|
    ensures var f := w.inodes[i]; var all := AllParts(w.threads, f);
            f.bytes == Bytes(all) && PartsOk(all) && Laid(all, f.log)
  {
    assert InodeOk(w, i);
    var f := w.inodes[i];
    var p := Partial(w.threads, f);
    if p == "" {
      assert Bytes(f.parts) + p == Bytes(f.parts);
    } else {
      assert ThreadOk(c, w, f.holder.value);
      assert forall k :: 0 <= k < |p| ==> p[k] == w.threads[f.holder.value].ev[k];
      AddPiece(f.parts, f.log, p);
      OneMore(f.parts, Piece(p));
    }
  }

  /** In every reachable file, and every copy of it from its start that holds the
    line's text, a finished append is read back as the event it is, at its place
    among the records, exactly when it did not begin in the middle of a line that
    an abandoned write had left. */
  lemma {:induction false} AppendReadsBackExactly(c: Config, w: World, i: nat, j: nat, s: string)
    requires Reachable(c, w) && i < |w.inodes| && j < |w.inodes[i].log|
    requires s <= w.inodes[i].bytes && w.inodes[i].log[j].hi <= |s| + 1
    ensures var r := w.inodes[i].log[j];
            && r.lo <= |s| && r.lo <= |w.inodes[i].bytes|
            && (ReadBackAt(s, j, r.ev) <==> StartsLine(w.inodes[i].bytes, r))
  {
    ReachableInv(c, w);
    AllPartsOk(c, w, i);
    var f := w.inodes[i];
    CopyReadsExactly(AllParts(w.threads, f), f.log, s, j);
  }

  /** No write fails and no writer dies between taking the flock and releasing it. */
  predicate CleanRun(c: Config, w: World, acts: seq<Action>, z: World)
    decreases |acts|
  {
    if acts == [] then w == z
    else
      && |w.threads| == |c.proc| && Enabled(c, w, acts[0])
      && (acts[0].Fail? ==> !w.threads[acts[0].t].Writing?)
      && CleanRun(c, Step(c, w, acts[0]), acts[1..], z)
  }

  /** The events whose flock call on inode i returned during the run, in that order. */
  function LockOrder(c: Config, w: World, acts: seq<Action>, i: nat): seq<string>
    decreases |acts|
  {
    if acts == [] || |w.threads| != |c.proc| || !Enabled(c, w, acts[0]) then []
    else
      Granted(w, acts[0], i) + LockOrder(c, Step(c, w, acts[0]), acts[1..], i)
  }

  /** The event of the thread that holds the flock of inode i with its line unfinished. */
  function Pending(w: World, i: nat): seq<string> {
    if i < |w.inodes| && w.inodes[i].holder.Some? && w.inodes[i].holder.value < |w.threads|
       && w.threads[w.inodes[i].holder.value].Writing?
       && w.threads[w.inodes[i].holder.value].done < |Line(w.threads[w.inodes[i].holder.value].ev)|
    then [w.threads[w.inodes[i].holder.value].ev] else []
  }

  function Logged(w: World, i: nat): seq<string> {
    if i < |w.inodes| then Events(w.inodes[i].log) else []
  }

  /** What one step adds to the lines and the pending line of inode i. */
  function Granted(w: World, a: Action, i: nat): seq<string> {
    if a.Flock? && a.t < |w.threads| && w.threads[a.t].Opened? && w.threads[a.t].ino == i
    then [w.threads[a.t].ev]
    else []
  }

  lemma {:induction false} LockStepLogs(c: Config, w: World, a: Action, i: nat)
    requires Inv(c, w) && Enabled(c, w, a) && (a.Flock? || a.Write? || a.Unlock?) && i < |w.inodes|
    ensures var z := Step(c, w, a);
            Logged(z, i) + Pending(z, i) == Logged(w, i) + Pending(w, i) + Granted(w, a, i)
  {
    var z := Step(c, w, a);
    assert InodeOk(w, i) && ThreadOk(c, w, a.t);
    if w.threads[a.t].ino == i {
      if a.Write? && w.threads[a.t].done + a.n == |Line(w.threads[a.t].ev)| {
        assert Logged(z, i) == Logged(w, i) + [w.threads[a.t].ev];
      } else {
        assert z.inodes[i].log == w.inodes[i].log;
      }
    }
  }

  lemma {:induction false} StepLogsInLockOrder(c: Config, w: World, a: Action, i: nat)
    requires Inv(c, w) && Enabled(c, w, a) && (a.Fail? ==> !w.threads[a.t].Writing?)
    ensures var z := Step(c, w, a);
            Logged(z, i) + Pending(z, i) == Logged(w, i) + Pending(w, i) + Granted(w, a, i)
  {
    var z := Step(c, w, a);
    if i < |w.inodes| {
      if a.Flock? || a.Write? || a.Unlock? {
        LockStepLogs(c, w, a, i);
      } else if a.Enter? || a.Open? || a.Leave? || a.Fail? {
        ThreadStepLogs(c, w, a, i);
      } else {
        assert z.inodes[i].log == w.inodes[i].log && z.inodes[i].holder == w.inodes[i].holder;
      }
    } else {
      if a.Flock? {
        assert ThreadOk(c, w, a.t);
      }
    }
  }

  lemma {:induction false} ThreadStepLogs(c: Config, w: World, a: Action, i: nat)
    requires Inv(c, w) && Enabled(c, w, a) && (a.Enter? || a.Open? || a.Leave? || a.Fail?) && i < |w.inodes|
    requires a.Fail? ==> !w.threads[a.t].Writing?
    ensures Logged(Step(c, w, a), i) == Logged(w, i) && Pending(Step(c, w, a), i) == Pending(w, i)
  {
    assert InodeOk(w, i) && ThreadOk(c, w, a.t);
  }

  lemma {:induction false} CleanStepTearsNothing(c: Config, w: World, a: Action, i: nat)
    requires Inv(c, w) && Enabled(c, w, a) && (a.Fail? ==> !w.threads[a.t].Writing?)
    ensures TornAt(Step(c, w, a), i) ==> TornAt(w, i)
  {
    TornExactlyBy(c, w, a, i);
  }

  /** Along a clean run the file's lines are the events in lock order, and no line is torn. */
  lemma {:induction false} LinesFollowLockOrder(c: Config, w: World, acts: seq<Action>, z: World, i: nat)
    requires Inv(c, w) && CleanRun(c, w, acts, z)
    ensures Logged(z, i) + Pending(z, i) == Logged(w, i) + Pending(w, i) + LockOrder(c, w, acts, i)
    ensures TornAt(z, i) ==> TornAt(w, i)
    decreases |acts|
  {
    if acts != [] {
      var y := Step(c, w, acts[0]);
      StepLogsInLockOrder(c, w, acts[0], i);
      CleanStepTearsNothing(c, w, acts[0], i);
      StepKeepsInv(c, w, acts[0]);
      LinesFollowLockOrder(c, y, acts[1..], z, i);
      Associate(Logged(w, i) + Pending(w, i), Granted(w, acts[0], i), LockOrder(c, y, acts[1..], i));
    }
  }

  lemma Associate(a: seq<string>, b: seq<string>, x: seq<string>)
    ensures (a + b) + x == a + (b + x)
  {}

  /** From the empty state, without write errors: the quiescent file read back is
    exactly the appended events in lock order. */
  lemma {:induction false} CleanFileReadsBackInLockOrder(c: Config, w: World, acts: seq<Action>, z: World, i: nat)
    requires Init(c, w) && CleanRun(c, w, acts, z) && i < |z.inodes| && z.inodes[i].holder.None?
    ensures Records(z.inodes[i].bytes) == LockOrder(c, w, acts, i)
  {
    CleanRunLeads(c, w, acts, z);
    LinesFollowLockOrder(c, w, acts, z, i);
    assert Logged(w, i) == [] && Pending(w, i) == [] && Pending(z, i) == [];
    QuietFileReadsBack(c, z, i);
    calc {
      Records(z.inodes[i].bytes);
      Logged(z, i);
      Logged(z, i) + Pending(z, i);
      [] + [] + LockOrder(c, w, acts, i);
      LockOrder(c, w, acts, i);
    }
  }

  lemma {:induction false} CleanRunLeads(c: Config, w: World, acts: seq<Action>, z: World)
    requires CleanRun(c, w, acts, z)
    ensures Leads(c, w, acts, z)
    decreases |acts|
  {
    if acts != [] {
      CleanRunLeads(c, Step(c, w, acts[0]), acts[1..], z);
    }
  }

  // ----- no loss, with its exact exceptions -----

  /** The object u holds the whole line of r, which went to inode i. */
  predicate Covers(u: Upload, i: nat, r: Rec) {
    u.ino == i && r.hi <= |u.bytes|
  }

  ghost predicate Kept(w: World, i: nat, r: Rec) {
    w.capture == Some(i) || w.shipping == Some(i) || exists u :: u in w.uploads && Covers(u, i, r)
  }

  predicate Uploaded(w: World, i: nat) {
    exists u :: u in w.uploads && u.ino == i
  }

  /** The file was renamed over while still waiting, and no put of it had succeeded. */
  predicate Clobbered(w: World, i: nat)
    requires i < |w.inodes|
  {
    w.inodes[i].fate.Overwritten? && !Uploaded(w, i)
  }

  /** The append opened its handle before the rename and finished writing only
    after the shipper had read the file for an upload that succeeded. */
  ghost predicate LateWrite(w: World, i: nat, r: Rec)
    requires i < |w.inodes|
  {
    && w.inodes[i].renamedAt.Some? && r.openedAt < w.inodes[i].renamedAt.value
    && exists u :: u in w.uploads && u.ino == i && w.inodes[i].renamedAt.value < u.readAt < r.doneAt
  }

  /** Every finished append is in capture.jsonl, in .shipping or in an object,
    or it is one of the two exceptions. */
  lemma {:induction false} NoLoss(c: Config, w: World, i: nat, r: Rec)
    requires Reachable(c, w) && i < |w.inodes| && r in w.inodes[i].log
    ensures Kept(w, i, r) || Clobbered(w, i) || LateWrite(w, i, r)
  {
    ReachableInv(c, w);
    assert InodeOk(w, i) && RecOk(w.inodes[i], r, w.now);
    if !Kept(w, i, r) && Uploaded(w, i) {
      var u :| u in w.uploads && u.ino == i;
      assert UploadOk(w, u) && !Covers(u, i, r);
    }
  }

  /** Exactly: a finished append is gone when its file has no name left and every
    successful upload of the file was read before the append finished. */
  lemma {:induction false} LostExactly(c: Config, w: World, i: nat, r: Rec)
    requires Reachable(c, w) && i < |w.inodes| && r in w.inodes[i].log
    ensures !Kept(w, i, r) <==>
            !w.inodes[i].fate.Live? && forall u :: u in w.uploads && u.ino == i ==> u.readAt < r.doneAt
  {
    ReachableInv(c, w);
    assert InodeOk(w, i);
    forall u | u in w.uploads && u.ino == i ensures Covers(u, i, r) <==> r.doneAt < u.readAt {
      assert UploadOk(w, u);
    }
    if !Kept(w, i, r) {
      forall u | u in w.uploads && u.ino == i ensures u.readAt < r.doneAt {
        assert UploadOk(w, u) && !Covers(u, i, r);
      }
    }
  }

  /** What reading any object yields: its parts are the lines it covers, which are
    those finished before the read, and perhaps a piece of the next. */
  lemma {:induction false} ObjectReadsBack(c: Config, w: World, u: Upload) returns (cut: seq<Part>, n: nat)
    requires Reachable(c, w) && u in w.uploads && u.ino < |w.inodes|
    ensures n <= |w.inodes[u.ino].log| && PartsOk(cut) && u.bytes == Bytes(cut) && Laid(cut, w.inodes[u.ino].log[..n])
    ensures Records(u.bytes) == Reader(cut).0 + (if Reader(cut).1 == "" then [] else [Reader(cut).1])
    ensures |Reader(cut).0| == n
    ensures forall j :: 0 <= j < |w.inodes[u.ino].log| ==>
              (j < n <==> Covers(u, u.ino, w.inodes[u.ino].log[j]))
              && (j < n <==> w.inodes[u.ino].log[j].doneAt < u.readAt)
  {
    ReachableInv(c, w);
    var f := w.inodes[u.ino];
    assert UploadOk(w, u);
    AllPartsOk(c, w, u.ino);
    cut, n := CutParts(AllParts(w.threads, f), f.log, u.bytes);
    ReadsBack(cut);
    OneLinePerRec(cut, f.log[..n]);
  }

  // ----- which finished appends a reader can recover -----

  /** s is the file, or what the store has of it. */
  ghost predicate HeldAs(w: World, i: nat, s: string)
    requires i < |w.inodes|
  {
    || ((w.capture == Some(i) || w.shipping == Some(i)) && s == w.inodes[i].bytes)
    || exists u :: u in w.uploads && u.ino == i && s == u.bytes
  }

  /** Some copy holds the text of the j-th append and reads it back as that event. */
  ghost predicate Recoverable(w: World, i: nat, j: nat)
    requires i < |w.inodes| && j < |w.inodes[i].log|
  {
    exists s :: HeldAs(w, i, s) && w.inodes[i].log[j].hi <= |s| + 1 && ReadBackAt(s, j, w.inodes[i].log[j].ev)
  }

  /** Some copy holds the text, perhaps without the newline. */
  ghost predicate TextKept(w: World, i: nat, r: Rec) {
    w.capture == Some(i) || w.shipping == Some(i) || exists u :: u in w.uploads && u.ino == i && r.hi <= |u.bytes| + 1
  }

  /** A finished append can be read back, by anyone, from anywhere, exactly when it
    started a line and its text is still held. */
  lemma {:induction false} RecoverableExactly(c: Config, w: World, i: nat, j: nat)
    requires Reachable(c, w) && i < |w.inodes| && j < |w.inodes[i].log|
    ensures var r := w.inodes[i].log[j];
            r.lo <= |w.inodes[i].bytes|
            && (Recoverable(w, i, j) <==> StartsLine(w.inodes[i].bytes, r) && TextKept(w, i, r))
  {
    ReachableInv(c, w);
    var f := w.inodes[i];
    var r := f.log[j];
    assert InodeOk(w, i) && RecOk(f, r, w.now);
    forall s | HeldAs(w, i, s) && r.hi <= |s| + 1
      ensures s <= f.bytes && (ReadBackAt(s, j, r.ev) <==> StartsLine(f.bytes, r))
    {
      HeldIsPrefix(c, w, i, s);
      AppendReadsBackExactly(c, w, i, j, s);
    }
    if TextKept(w, i, r) {
      var s := HolderOf(w, i, r);
    }
  }

  lemma {:induction false} HeldIsPrefix(c: Config, w: World, i: nat, s: string)
    requires Inv(c, w) && i < |w.inodes| && HeldAs(w, i, s)
    ensures s <= w.inodes[i].bytes
  {
    if u :| u in w.uploads && u.ino == i && s == u.bytes {
      assert UploadOk(w, u);
    }
  }

  lemma {:induction false} HolderOf(w: World, i: nat, r: Rec) returns (s: string)
    requires i < |w.inodes| && TextKept(w, i, r) && r.hi <= |w.inodes[i].bytes|
    ensures HeldAs(w, i, s) && r.hi <= |s| + 1
  {
    s := w.inodes[i].bytes;
    if !(w.capture == Some(i) || w.shipping == Some(i)) {
      var u :| u in w.uploads && u.ino == i && r.hi <= |u.bytes| + 1;
      s := u.bytes;
    }
  }

  /** Every finished append can be read back, or it is one of three exceptions:
    the two ways of losing it, and having continued an abandoned line. */
  lemma {:induction false} NoRecordLost(c: Config, w: World, i: nat, j: nat)
    requires Reachable(c, w) && i < |w.inodes| && j < |w.inodes[i].log|
    ensures var r := w.inodes[i].log[j];
            r.lo <= |w.inodes[i].bytes|
            && (Recoverable(w, i, j) || !StartsLine(w.inodes[i].bytes, r) || Clobbered(w, i) || LateWrite(w, i, r))
  {
    RecoverableExactly(c, w, i, j);
    NoLoss(c, w, i, w.inodes[i].log[j]);
  }

  /** Which single steps lose an append. */
  predicate LosingStep(w: World, a: Action, i: nat)
    requires i < |w.inodes|
  {
    || (a.DoRename? && a.ok && w.shipping == Some(i))
    || (a.DoRemove? && a.ok && w.shipping == Some(i))
  }

  /** A finished append that is safe before a step and lost after it was in the
    .shipping file when that file was renamed over or removed, and no object
    held it; and every such step does lose it. */
  lemma {:induction false} LossHappensExactlyAt(c: Config, w: World, a: Action, i: nat, r: Rec)
    requires Reachable(c, w) && |w.threads| == |c.proc| && Enabled(c, w, a)
    requires i < |w.inodes| && r in w.inodes[i].log && Kept(w, i, r)
    ensures !Kept(Step(c, w, a), i, r) <==>
            LosingStep(w, a, i) && forall u :: u in w.uploads ==> !Covers(u, i, r)
  {
    ReachableInv(c, w);
    LossAt(c, w, a, i, r);
  }

  lemma {:induction false} LossAt(c: Config, w: World, a: Action, i: nat, r: Rec)
    requires Inv(c, w) && Enabled(c, w, a) && i < |w.inodes| && r in w.inodes[i].log && Kept(w, i, r)
    ensures !Kept(Step(c, w, a), i, r) <==>
            LosingStep(w, a, i) && forall u :: u in w.uploads ==> !Covers(u, i, r)
  {
    UploadsStay(c, w, a);
    if u :| u in w.uploads && Covers(u, i, r) {
      assert u in Step(c, w, a).uploads;
    } else {
      UncoveredStep(c, w, a, i, r);
    }
  }

  lemma UploadsStay(c: Config, w: World, a: Action)
    requires |w.threads| == |c.proc| && NamesOk(w) && Enabled(c, w, a)
    ensures w.uploads <= Step(c, w, a).uploads
  {}

  lemma {:induction false} UncoveredStep(c: Config, w: World, a: Action, i: nat, r: Rec)
    requires Inv(c, w) && Enabled(c, w, a) && i < |w.inodes| && r in w.inodes[i].log && Kept(w, i, r)
    requires forall u :: u in w.uploads ==> !Covers(u, i, r)
    ensures !Kept(Step(c, w, a), i, r) <==> LosingStep(w, a, i)
  {
    if w.capture.Some? {
      assert InodeOk(w, w.capture.value);
    }
  }

  /** A line finished on a file that already lost its name is lost at once, and
    on any other file it is kept. */
  lemma {:induction false} FinishingTooLateLoses(c: Config, w: World, t: nat, n: nat)
    requires Reachable(c, w) && |w.threads| == |c.proc| && Enabled(c, w, Write(t, n))
    requires w.threads[t].done + n == |Line(w.threads[t].ev)|
    ensures var i := w.threads[t].ino;
            var z := Step(c, w, Write(t, n));
            z.inodes[i].log != []
            && (!Kept(z, i, z.inodes[i].log[|z.inodes[i].log| - 1]) <==> !w.inodes[i].fate.Live?)
  {
    ReachableInv(c, w);
    FinishingLine(c, w, t, n);
  }

  lemma {:induction false} FinishingLine(c: Config, w: World, t: nat, n: nat)
    requires Inv(c, w) && Enabled(c, w, Write(t, n)) && w.threads[t].done + n == |Line(w.threads[t].ev)|
    ensures var i := w.threads[t].ino;
            var z := Step(c, w, Write(t, n));
            z.inodes[i].log != [] && z.inodes[i].log[..|z.inodes[i].log| - 1] == w.inodes[i].log
            && (!Kept(z, i, z.inodes[i].log[|z.inodes[i].log| - 1]) <==> !w.inodes[i].fate.Live?)
  {
    var i := w.threads[t].ino;
    assert ThreadOk(c, w, t) && InodeOk(w, i);
    var z := Step(c, w, Write(t, n));
    var r := z.inodes[i].log[|z.inodes[i].log| - 1];
    ChunkEnds(w.inodes[i], w.threads[t], n, w.now);
    forall u | u in z.uploads ensures !Covers(u, i, r) {
      assert UploadOk(w, u);
    }
  }

  /** Lost is lost: no later step brings an append back. */
  lemma {:induction false} LostForever(c: Config, w: World, acts: seq<Action>, z: World, i: nat, r: Rec)
    requires Inv(c, w) && Leads(c, w, acts, z) && i < |w.inodes| && r in w.inodes[i].log && !Kept(w, i, r)
    ensures i < |z.inodes| && r in z.inodes[i].log && !Kept(z, i, r)
    decreases |acts|
  {
    if acts != [] {
      LostStaysLost(c, w, acts[0], i, r);
      StepKeepsInv(c, w, acts[0]);
      LostForever(c, Step(c, w, acts[0]), acts[1..], z, i, r);
    }
  }

  lemma {:induction false} LostStaysLost(c: Config, w: World, a: Action, i: nat, r: Rec)
    requires Inv(c, w) && Enabled(c, w, a) && i < |w.inodes| && r in w.inodes[i].log && !Kept(w, i, r)
    ensures var y := Step(c, w, a); i < |y.inodes| && r in y.inodes[i].log && !Kept(y, i, r)
  {
    var y := Step(c, w, a);
    assert InodeOk(w, i);
    if a.Write? {
      assert ThreadOk(c, w, a.t);
      assert w.inodes[i].log <= y.inodes[i].log;
    }
    forall u | u in y.uploads ensures !Covers(u, i, r) {
      if u !in w.uploads {
        assert u == w.ship.up;
      }
    }
    assert r in y.inodes[i].log;
  }

  ghost predicate NothingLost(w: World) {
    forall i: nat, r :: i < |w.inodes| && r in w.inodes[i].log ==> Kept(w, i, r)
  }

  /** The step meets a line no object holds when it takes its file's last name
    away, or finishes a line on a file that has none. */
  ghost predicate Loses(w: World, a: Action) {
    || (exists i: nat, r :: i < |w.inodes| && r in w.inodes[i].log && LosingStep(w, a, i)
                            && forall u :: u in w.uploads ==> !Covers(u, i, r))
    || (a.Write? && a.t < |w.threads| && w.threads[a.t].Writing? && w.threads[a.t].ino < |w.inodes|
        && w.threads[a.t].done + a.n == |Line(w.threads[a.t].ev)| && !w.inodes[w.threads[a.t].ino].fate.Live?)
  }

  lemma {:induction false} StepLosesExactly(c: Config, w: World, a: Action)
    requires Inv(c, w) && Enabled(c, w, a) && NothingLost(w)
    ensures NothingLost(Step(c, w, a)) <==> !Loses(w, a)
  {
    var z := Step(c, w, a);
    if a.Write? {
      WriteLosesExactly(c, w, a);
    } else {
      forall i: nat, r | i < |z.inodes| && r in z.inodes[i].log
        ensures i < |w.inodes| && r in w.inodes[i].log
        ensures !Kept(z, i, r) <==> LosingStep(w, a, i) && forall u :: u in w.uploads ==> !Covers(u, i, r)
      {
        NoNewLines(c, w, a, i);
        LossAt(c, w, a, i, r);
      }
      if Loses(w, a) {
        var i: nat, r :| i < |w.inodes| && r in w.inodes[i].log && LosingStep(w, a, i)
                         && forall u :: u in w.uploads ==> !Covers(u, i, r);
        assert r in z.inodes[i].log;
      }
    }
  }

  lemma NoNewLines(c: Config, w: World, a: Action, i: nat)
    requires Inv(c, w) && Enabled(c, w, a) && !a.Write? && i < |Step(c, w, a).inodes|
    ensures if i < |w.inodes| then Step(c, w, a).inodes[i].log == w.inodes[i].log else Step(c, w, a).inodes[i].log == []
  {}

  lemma {:induction false} WriteLosesExactly(c: Config, w: World, a: Action)
    requires Inv(c, w) && Enabled(c, w, a) && NothingLost(w) && a.Write?
    ensures NothingLost(Step(c, w, a)) <==> !Loses(w, a)
  {
    var z := Step(c, w, a);
    var i := w.threads[a.t].ino;
    assert ThreadOk(c, w, a.t) && InodeOk(w, i);
    forall k: nat, r | k < |w.inodes| && r in w.inodes[k].log ensures Kept(z, k, r) {
      LossAt(c, w, a, k, r);
    }
    if w.threads[a.t].done + a.n == |Line(w.threads[a.t].ev)| {
      var r := z.inodes[i].log[|z.inodes[i].log| - 1];
      FinishingLine(c, w, a.t, a.n);
      assert r in z.inodes[i].log;
    }
  }

  /** The steps of a run that lose something, if any. */
  ghost predicate LossFree(c: Config, w: World, acts: seq<Action>)
    decreases |acts|
  {
    acts == [] || (|w.threads| == |c.proc| && Enabled(c, w, acts[0]) && !Loses(w, acts[0])
                   && LossFree(c, Step(c, w, acts[0]), acts[1..]))
  }

  /** Over whole runs: no finished append is lost exactly when no rename or removal
    met a line that no object held, and no line was finished on a nameless file. */
  lemma {:induction false} NothingLostExactly(c: Config, w: World, acts: seq<Action>, z: World)
    requires Inv(c, w) && NothingLost(w) && Leads(c, w, acts, z)
    ensures NothingLost(z) <==> LossFree(c, w, acts)
    decreases |acts|
  {
    if acts != [] {
      var y := Step(c, w, acts[0]);
      StepLosesExactly(c, w, acts[0]);
      StepKeepsInv(c, w, acts[0]);
      if NothingLost(y) {
        NothingLostExactly(c, y, acts[1..], z);
      } else {
        var i: nat, r :| i < |y.inodes| && r in y.inodes[i].log && !Kept(y, i, r);
        LostForever(c, y, acts[1..], z, i, r);
      }
    }
  }

  // ----- the two guards that would make loss impossible -----

  /** The rename waits until .shipping is gone, and the read until no handle on
    .shipping has an unfinished write. The program checks neither. */
  predicate GuardedStep(w: World, a: Action) {
    && (a.DoRename? && a.ok ==> w.shipping.None?)
    && (a.DoRead? && a.ok ==> w.shipping.Some? && NoOpenWriter(w, w.shipping.value))
  }

  predicate NoOpenWriter(w: World, i: nat) {
    forall t :: 0 <= t < |w.threads| && Holds(w.threads[t]) && w.threads[t].ino == i ==>
                  w.threads[t].Writing? && w.threads[t].done == |Line(w.threads[t].ev)|
  }

  predicate GuardedRun(c: Config, w: World, acts: seq<Action>, z: World)
    decreases |acts|
  {
    if acts == [] then w == z
    else
      && |w.threads| == |c.proc| && Enabled(c, w, acts[0]) && GuardedStep(w, acts[0])
      && GuardedRun(c, Step(c, w, acts[0]), acts[1..], z)
  }

  /** A snapshot that is final: it holds every line its file will ever get. */
  predicate Final(w: World, u: Upload) {
    && u.ino < |w.inodes| && NoOpenWriter(w, u.ino)
    && forall r :: r in w.inodes[u.ino].log ==> r.hi <= |u.bytes|
  }

  predicate GuardInv(c: Config, w: World) {
    && Inv(c, w)
    && (forall i :: 0 <= i < |w.inodes| ==> !w.inodes[i].fate.Overwritten?)
    && (forall u :: u in w.uploads ==> Final(w, u))
    && (w.ship.Put? ==> Final(w, w.ship.up))
    && (w.ship.Read? && !w.ship.rec ==> w.shipping.Some?)
  }

  lemma {:induction false} GuardedStepKeepsFinal(c: Config, w: World, a: Action, u: Upload)
    requires Inv(c, w) && Enabled(c, w, a) && Final(w, u) && UploadOk(w, u)
    ensures Final(Step(c, w, a), u)
  {
    var z := Step(c, w, a);
    assert InodeOk(w, u.ino);
    if a.Enter? || a.Open? || a.Flock? || a.Write? || a.Unlock? || a.Leave? || a.Fail? {
      assert ThreadOk(c, w, a.t);
    }
  }

  lemma {:induction false} GuardedStepKeepsInv(c: Config, w: World, a: Action)
    requires GuardInv(c, w) && Enabled(c, w, a) && GuardedStep(w, a)
    ensures GuardInv(c, Step(c, w, a))
  {
    StepKeepsInv(c, w, a);
    GuardedStepKeepsFates(c, w, a);
    GuardedStepKeepsUploads(c, w, a);
  }

  lemma {:induction false} GuardedStepKeepsFates(c: Config, w: World, a: Action)
    requires GuardInv(c, w) && Enabled(c, w, a) && GuardedStep(w, a)
    ensures var z := Step(c, w, a);
            && (forall i :: 0 <= i < |z.inodes| ==> !z.inodes[i].fate.Overwritten?)
            && (z.ship.Read? && !z.ship.rec ==> z.shipping.Some?)
  {}

  lemma {:induction false} GuardedStepKeepsUploads(c: Config, w: World, a: Action)
    requires GuardInv(c, w) && Enabled(c, w, a) && GuardedStep(w, a)
    ensures var z := Step(c, w, a);
            (forall u :: u in z.uploads ==> Final(z, u)) && (z.ship.Put? ==> Final(z, z.ship.up))
  {
    var z := Step(c, w, a);
    forall u | UploadOk(w, u) && Final(w, u) ensures Final(z, u) {
      GuardedStepKeepsFinal(c, w, a, u);
    }
    if a.DoRead? && a.ok {
      assert InodeOk(w, w.shipping.value);
    }
  }

  lemma {:induction false} GuardedRunKeeps(c: Config, w: World, acts: seq<Action>, z: World, i: nat, r: Rec)
    requires GuardInv(c, w) && GuardedRun(c, w, acts, z) && i < |z.inodes| && r in z.inodes[i].log
    ensures Kept(z, i, r)
    decreases |acts|
  {
    if acts == [] {
      assert InodeOk(z, i);
      if z.inodes[i].fate.Removed? {
        var u :| u in z.uploads && u.ino == i;
        assert Final(z, u) && Covers(u, i, r);
      }
    } else {
      GuardedStepKeepsInv(c, w, acts[0]);
      GuardedRunKeeps(c, Step(c, w, acts[0]), acts[1..], z, i, r);
    }
  }

  /** From the empty state, with both guards kept at every step, no finished
    append is ever lost. */
  lemma {:induction false} GuardedRunLosesNothing(c: Config, w: World, acts: seq<Action>, z: World, i: nat, r: Rec)
    requires Init(c, w) && GuardedRun(c, w, acts, z) && i < |z.inodes| && r in z.inodes[i].log
    ensures Kept(z, i, r)
  {
    GuardedRunKeeps(c, w, acts, z, i, r);
  }

  lemma {:induction false} LeadsOneMore(c: Config, w: World, acts: seq<Action>, z: World, a: Action)
    requires Leads(c, w, acts, z) && |z.threads| == |c.proc| && Enabled(c, z, a)
    ensures Leads(c, w, acts + [a], Step(c, z, a))
    decreases |acts|
  {
    if acts != [] {
      assert (acts + [a])[1..] == acts[1..] + [a];
      LeadsOneMore(c, Step(c, w, acts[0]), acts[1..], z, a);
    }
  }
}
