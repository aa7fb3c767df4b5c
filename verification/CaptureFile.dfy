/** The client side as a step system: any number of AppendEvent calls in any
  number of processes, and one shipper, over files that are inodes with open
  handles (internal/jsonl/append.go, internal/ship).

  A step is one system call or one store request. Steps of different threads
  interleave freely, a write may be split into chunks, every call may fail, and
  the shipper may crash between any two steps. The fields log, parts, renamedAt,
  fate, openedAt, doneAt and readAt record history; no step looks at them. */
module CaptureFile {
  import opened Lines
  import opened Parts

  /** Where one thread is inside AppendEvent. From Entered on it holds its
    process's mutex; in Writing it also holds the flock of its inode. */
  datatype Appender =
    | Idle
    | Entered(ev: string)
    | Opened(ev: string, ino: nat, openedAt: nat)
    | Writing(ev: string, ino: nat, openedAt: nat, done: nat)
    | Closing

  datatype Fate = Live | Removed | Overwritten

  datatype Inode = Inode(bytes: string, holder: Option<nat>,
                         log: seq<Rec>, parts: seq<Part>, renamedAt: Option<nat>, fate: Fate)

  /** An object the store accepted, always under a key of its own. */
  datatype Upload = Upload(ino: nat, bytes: string, readAt: nat)

  /** The shipper's position in runOnce; `rec` tells the recovery upload from
    the one after the rename. */
  datatype ShipPc =
    | Top
    | Read(rec: bool)
    | Put(rec: bool, up: Upload)
    | Remove(rec: bool)
    | StatCapture
    | Rename

  datatype World = World(now: nat, mutex: map<nat, nat>, threads: seq<Appender>, inodes: seq<Inode>,
                         capture: Option<nat>, shipping: Option<nat>, uploads: seq<Upload>, ship: ShipPc)

  /** proc[t] is the process of thread t; rotate is the rotation size in bytes. */
  datatype Config = Config(proc: seq<nat>, rotate: nat)

  datatype Action =
    | Enter(t: nat, ev: string)
    | Open(t: nat)
    | Flock(t: nat)
    | Write(t: nat, n: nat)
    | Unlock(t: nat)
    | Leave(t: nat)
    | Fail(t: nat)
    | DoStatShipping(err: bool)
    | DoRead(ok: bool)
    | DoPut(stored: bool, ok: bool)
    | DoRemove(ok: bool)
    | DoStatCapture(err: bool)
    | DoRename(ok: bool)
    | Crash

  predicate Holds(a: Appender) {
    a.Opened? || a.Writing?
  }

  predicate Enabled(c: Config, w: World, a: Action)
    requires |w.threads| == |c.proc|
  {
    match a
    case Enter(t, ev) => t < |w.threads| && w.threads[t].Idle? && EventLine(ev) && c.proc[t] !in w.mutex
    case Open(t) => t < |w.threads| && w.threads[t].Entered?
    case Flock(t) => t < |w.threads| && w.threads[t].Opened? && w.threads[t].ino < |w.inodes|
                     && w.inodes[w.threads[t].ino].holder.None?
    case Write(t, n) => t < |w.threads| && w.threads[t].Writing? && w.threads[t].ino < |w.inodes|
                        && 0 < n <= |Line(w.threads[t].ev)| - w.threads[t].done
    case Unlock(t) => t < |w.threads| && w.threads[t].Writing? && w.threads[t].ino < |w.inodes|
                      && w.threads[t].done == |Line(w.threads[t].ev)|
    case Leave(t) => t < |w.threads| && w.threads[t].Closing?
    case Fail(t) => t < |w.threads| && !w.threads[t].Idle?
                    && (w.threads[t].Writing? ==> w.threads[t].ino < |w.inodes|)
    case DoStatShipping(_) => w.ship.Top?
    case DoRead(ok) => w.ship.Read? && (ok ==> w.shipping.Some? && w.shipping.value < |w.inodes|)
    case DoPut(stored, ok) => w.ship.Put? && (ok ==> stored)
    case DoRemove(ok) => w.ship.Remove? && (ok ==> w.shipping.Some? && w.shipping.value < |w.inodes|)
    case DoStatCapture(_) => w.ship.StatCapture?
    case DoRename(ok) => w.ship.Rename?
                         && (ok ==> w.capture.Some? && w.capture.value < |w.inodes|)
                         && (w.shipping.Some? ==> w.shipping.value < |w.inodes|)
    case Crash => true
  }

  /** One step. Every step advances the clock, so event times are distinct. */
  function Step(c: Config, w: World, a: Action): World
    requires |w.threads| == |c.proc| && Enabled(c, w, a)
  {
    if a.Enter? || a.Open? || a.Flock? || a.Write? || a.Unlock? || a.Leave? || a.Fail? then AppendStep(c, w, a)
    else ShipStep(c, w, a)
  }

  function AppendStep(c: Config, w: World, a: Action): World
    requires |w.threads| == |c.proc| && Enabled(c, w, a)
    requires a.Enter? || a.Open? || a.Flock? || a.Write? || a.Unlock? || a.Leave? || a.Fail?
  {
    var th := w.threads[a.t];
    var w1 := w.(now := w.now + 1);
    match a
    case Enter(t, ev) => w1.(mutex := w.mutex[c.proc[t] := t], threads := w.threads[t := Entered(ev)])
    case Open(t) =>
      if w.capture.Some? then w1.(threads := w.threads[t := Opened(th.ev, w.capture.value, w.now)])
      else
        w1.(threads := w.threads[t := Opened(th.ev, |w.inodes|, w.now)],
            inodes := w.inodes + [Inode("", None, [], [], None, Live)],
            capture := Some(|w.inodes|))
    case Flock(t) =>
      w1.(threads := w.threads[t := Writing(th.ev, th.ino, th.openedAt, 0)],
          inodes := w.inodes[th.ino := w.inodes[th.ino].(holder := Some(t))])
    case Write(t, n) =>
      w1.(threads := w.threads[t := th.(done := th.done + n)],
          inodes := w.inodes[th.ino := WriteChunk(w.inodes[th.ino], th, n, w.now)])
    case Unlock(t) =>
      w1.(threads := w.threads[t := Closing],
          inodes := w.inodes[th.ino := w.inodes[th.ino].(holder := None)])
    case Leave(t) => w1.(mutex := w.mutex - {c.proc[t]}, threads := w.threads[t := Idle])
    case Fail(t) =>
      var w2 := w1.(mutex := w.mutex - {c.proc[t]}, threads := w.threads[t := Idle]);
      if th.Writing? then w2.(inodes := w.inodes[th.ino := AbandonWrite(w.inodes[th.ino], th)]) else w2
  }

  /** O_APPEND: a chunk of n bytes goes to the current end of the file. */
  function WriteChunk(f: Inode, th: Appender, n: nat, now: nat): Inode
    requires th.Writing? && th.done + n <= |Line(th.ev)|
  {
    var g := f.(bytes := f.bytes + Line(th.ev)[th.done..th.done + n]);
    if th.done + n < |Line(th.ev)| then g
    else
      var lo := if |g.bytes| >= |Line(th.ev)| then |g.bytes| - |Line(th.ev)| else 0;
      g.(log := f.log + [Rec(th.ev, lo, |g.bytes|, th.openedAt, now)], parts := f.parts + [Whole(th.ev)])
  }

  /** A writer that fails or dies; what it wrote of its line stays. */
  function AbandonWrite(f: Inode, th: Appender): Inode
    requires th.Writing?
  {
    f.(holder := None,
       parts := if 0 < th.done < |Line(th.ev)| then f.parts + [Piece(Line(th.ev)[..th.done])] else f.parts)
  }

  function AfterUpload(rec: bool): ShipPc {
    if rec then StatCapture else Top
  }

  function ShipStep(c: Config, w: World, a: Action): World
    requires |w.threads| == |c.proc| && Enabled(c, w, a)
    requires !(a.Enter? || a.Open? || a.Flock? || a.Write? || a.Unlock? || a.Leave? || a.Fail?)
  {
    var w1 := w.(now := w.now + 1);
    match a
    case DoStatShipping(err) =>
      // Only "does not exist" skips recovery; any other error goes on to the upload.
      w1.(ship := if w.shipping.Some? || err then Read(true) else StatCapture)
    case DoRead(ok) =>
      if ok then w1.(ship := Put(w.ship.rec, Upload(w.shipping.value, w.inodes[w.shipping.value].bytes, w.now)))
      else w1.(ship := AfterUpload(w.ship.rec))
    case DoPut(stored, ok) =>
      w1.(uploads := if stored then w.uploads + [w.ship.up] else w.uploads,
          ship := if ok then Remove(w.ship.rec) else AfterUpload(w.ship.rec))
    case DoRemove(ok) =>
      if ok then
        w1.(shipping := None, ship := AfterUpload(w.ship.rec),
            inodes := w.inodes[w.shipping.value := w.inodes[w.shipping.value].(fate := Removed)])
      else w1.(ship := AfterUpload(w.ship.rec))
    case DoStatCapture(err) =>
      w1.(ship := if !err && w.capture.Some? && w.capture.value < |w.inodes|
                     && |w.inodes[w.capture.value].bytes| >= c.rotate then Rename else Top)
    case DoRename(ok) =>
      if !ok then w1.(ship := Top)
      else
        var i := w.capture.value;
        var nodes := if w.shipping.Some?
                     then w.inodes[w.shipping.value := w.inodes[w.shipping.value].(fate := Overwritten)]
                     else w.inodes;
        w1.(ship := Read(false), capture := None, shipping := Some(i),
            inodes := nodes[i := nodes[i].(renamedAt := Some(w.now))])
    case Crash => w1.(ship := Top)
  }

  predicate Init(c: Config, w: World) {
    && w.mutex == map[] && w.inodes == [] && w.uploads == [] && w.ship == Top
    && w.capture == None && w.shipping == None
    && |w.threads| == |c.proc| && forall t :: 0 <= t < |w.threads| ==> w.threads[t] == Idle
  }

  /** States reached from w by the listed steps, in order. */
  predicate Leads(c: Config, w: World, acts: seq<Action>, z: World)
    decreases |acts|
  {
    if acts == [] then w == z
    else
      |w.threads| == |c.proc| && Enabled(c, w, acts[0]) && Leads(c, Step(c, w, acts[0]), acts[1..], z)
  }

  ghost predicate Reachable(c: Config, z: World) {
    exists w, acts :: Init(c, w) && Leads(c, w, acts, z)
  }

  // ----- the invariant -----

  /** The unfinished line of the lock holder, if any. */
  function Partial(threads: seq<Appender>, f: Inode): string {
    if f.holder.Some? && f.holder.value < |threads| && threads[f.holder.value].Writing?
       && threads[f.holder.value].done < |Line(threads[f.holder.value].ev)|
    then Line(threads[f.holder.value].ev)[..threads[f.holder.value].done]
    else ""
  }

  predicate RecOk(f: Inode, r: Rec, now: nat) {
    && EventLine(r.ev)
    && r.lo + |Line(r.ev)| == r.hi <= |f.bytes|
    && f.bytes[r.lo..r.hi] == Line(r.ev)
    && r.openedAt < r.doneAt < now
    && (f.renamedAt.Some? ==> r.openedAt < f.renamedAt.value)
  }

  predicate InodeOk(w: World, i: nat)
    requires i < |w.inodes|
  {
    var f := w.inodes[i];
    && (f.holder.Some? ==> f.holder.value < |w.threads| && w.threads[f.holder.value].Writing?
                           && w.threads[f.holder.value].ino == i)
    && (forall r :: r in f.log ==> RecOk(f, r, w.now))
    && f.bytes == Bytes(f.parts) + Partial(w.threads, f)
    && PartsOk(f.parts) && Laid(f.parts, f.log)
    && (f.renamedAt.Some? ==> f.renamedAt.value < w.now)
    && (f.renamedAt.None? <==> w.capture == Some(i))
    && (f.fate.Live? <==> w.capture == Some(i) || w.shipping == Some(i))
    && (f.fate.Removed? ==> exists u :: u in w.uploads && u.ino == i)
  }

  predicate ThreadOk(c: Config, w: World, t: nat)
    requires t < |w.threads| == |c.proc|
  {
    var th := w.threads[t];
    && (!th.Idle? ==> c.proc[t] in w.mutex && w.mutex[c.proc[t]] == t)
    && (th.Entered? || Holds(th) ==> EventLine(th.ev))
    && (Holds(th) ==> th.ino < |w.inodes| && th.openedAt < w.now
                      && (w.inodes[th.ino].renamedAt.Some? ==> th.openedAt < w.inodes[th.ino].renamedAt.value))
    && (th.Writing? ==>
          && w.inodes[th.ino].holder == Some(t)
          && th.done <= |Line(th.ev)|
          && EndsWith(w.inodes[th.ino].bytes, Line(th.ev)[..th.done]))
  }

  predicate EndsWith(s: string, e: string) {
    |e| <= |s| && s[|s| - |e|..] == e
  }

  /** u is what the file held at u.readAt, some time after its rename. */
  predicate UploadOk(w: World, u: Upload) {
    && u.ino < |w.inodes|
    && var f := w.inodes[u.ino];
    && u.bytes <= f.bytes
    && f.renamedAt.Some? && f.renamedAt.value < u.readAt < w.now
    && (forall r :: r in f.log ==> (r.doneAt < u.readAt <==> r.hi <= |u.bytes|) && r.doneAt != u.readAt)
  }

  predicate NamesOk(w: World) {
    && (w.capture.Some? ==> w.capture.value < |w.inodes|)
    && (w.shipping.Some? ==> w.shipping.value < |w.inodes|)
    && (w.capture.Some? ==> w.capture != w.shipping)
  }

  predicate ShipOk(w: World) {
    && (w.ship.Put? ==> w.shipping == Some(w.ship.up.ino) && UploadOk(w, w.ship.up))
    && (w.ship.Remove? ==> w.shipping.Some? && exists u :: u in w.uploads && u.ino == w.shipping.value)
    && (w.ship.Rename? ==> w.capture.Some?)
  }

  predicate Inv(c: Config, w: World) {
    && |w.threads| == |c.proc|
    && NamesOk(w)
    && (forall i :: 0 <= i < |w.inodes| ==> InodeOk(w, i))
    && (forall t :: 0 <= t < |w.threads| ==> ThreadOk(c, w, t))
    && (forall u :: u in w.uploads ==> UploadOk(w, u))
    && ShipOk(w)
  }

  lemma {:induction false} ChunkExtends(f: Inode, th: Appender, n: nat, now: nat, r: Rec)
    requires th.Writing? && 0 < n && th.done + n <= |Line(th.ev)| && EventLine(th.ev)
    requires EndsWith(f.bytes, Line(th.ev)[..th.done]) && th.openedAt < now
    requires f.renamedAt.Some? ==> th.openedAt < f.renamedAt.value
    requires forall q :: q in f.log ==> RecOk(f, q, now)
    requires r in WriteChunk(f, th, n, now).log
    ensures RecOk(WriteChunk(f, th, n, now), r, now + 1)
  {
    var g := WriteChunk(f, th, n, now);
    if r in f.log {
      assert RecOk(f, r, now);
      assert g.bytes[r.lo..r.hi] == f.bytes[r.lo..r.hi];
    } else {
      ChunkEnds(f, th, n, now);
      assert g.bytes[r.lo..] == Line(th.ev)[..];
      assert g.bytes[r.lo..r.hi] == g.bytes[r.lo..];
    }
  }

  lemma {:induction false} ChunkEnds(f: Inode, th: Appender, n: nat, now: nat)
    requires th.Writing? && th.done + n <= |Line(th.ev)|
    requires EndsWith(f.bytes, Line(th.ev)[..th.done])
    ensures EndsWith(WriteChunk(f, th, n, now).bytes, Line(th.ev)[..th.done + n])
  {
    ChunkJoins(f.bytes, Line(th.ev), th.done, n);
  }

  lemma ChunkJoins(s: string, l: string, done: nat, n: nat)
    requires done + n <= |l| && EndsWith(s, l[..done])
    ensures EndsWith(s + l[done..done + n], l[..done + n])
  {
    var g := s + l[done..done + n];
    assert l[..done + n] == l[..done] + l[done..done + n];
    assert g[|g| - (done + n)..] == s[|s| - done..] + l[done..done + n];
  }

  lemma NextChunk(before: string, l: string, done: nat, n: nat)
    requires done + n <= |l|
    ensures (before + l[..done]) + l[done..done + n] == before + l[..done + n]
  {}

  /** The parts across one chunk: a finished line is one part more. */
  lemma {:induction false} ChunkKeepsParts(f: Inode, th: Appender, n: nat, now: nat)
    requires th.Writing? && th.done + n <= |Line(th.ev)| && 0 < n && EventLine(th.ev)
    requires f.bytes == Bytes(f.parts) + Line(th.ev)[..th.done] && PartsOk(f.parts) && Laid(f.parts, f.log)
    ensures var g := WriteChunk(f, th, n, now);
            && g.bytes == Bytes(g.parts) + (if th.done + n < |Line(th.ev)| then Line(th.ev)[..th.done + n] else "")
            && PartsOk(g.parts) && Laid(g.parts, g.log)
  {
    var l := Line(th.ev);
    var g := WriteChunk(f, th, n, now);
    NextChunk(Bytes(f.parts), l, th.done, n);
    if th.done + n == |l| {
      assert l[..|l|] == l;
      OneMore(f.parts, Whole(th.ev));
      AddWhole(f.parts, f.log, g.log[|f.log|]);
    }
  }

  /** The parts when a write is abandoned: what was written is a piece. */
  lemma {:induction false} AbandonKeepsParts(f: Inode, th: Appender)
    requires th.Writing? && th.done <= |Line(th.ev)| && EventLine(th.ev) && PartsOk(f.parts) && Laid(f.parts, f.log)
    requires f.bytes == Bytes(f.parts) + if th.done < |Line(th.ev)| then Line(th.ev)[..th.done] else ""
    ensures var g := AbandonWrite(f, th);
            g.bytes == Bytes(g.parts) && PartsOk(g.parts) && Laid(g.parts, g.log)
  {
    if 0 < th.done < |Line(th.ev)| {
      var text := Line(th.ev)[..th.done];
      assert forall k :: 0 <= k < |text| ==> text[k] == th.ev[k];
      AddPiece(f.parts, f.log, text);
      OneMore(f.parts, Piece(text));
    }
  }

  // ----- every step keeps the invariant -----

  lemma {:induction false} EnterOpenLeaveKeepInode(c: Config, w: World, a: Action, i: nat)
    requires Inv(c, w) && Enabled(c, w, a) && (a.Enter? || a.Open? || a.Leave?)
    requires i < |Step(c, w, a).inodes|
    ensures InodeOk(Step(c, w, a), i)
  {
    var z := Step(c, w, a);
    if i < |w.inodes| {
      assert InodeOk(w, i);
      assert Partial(z.threads, z.inodes[i]) == Partial(w.threads, w.inodes[i]);
    } else {
      assert Bytes(z.inodes[i].parts) == "";
    }
  }

  lemma {:induction false} EnterOpenLeaveKeepInv(c: Config, w: World, a: Action)
    requires Inv(c, w) && Enabled(c, w, a)
    requires a.Enter? || a.Open? || a.Leave?
    ensures Inv(c, Step(c, w, a))
  {
    var z := Step(c, w, a);
    if w.capture.Some? {
      assert InodeOk(w, w.capture.value);
    }
    forall t | 0 <= t < |z.threads| ensures ThreadOk(c, z, t) {
      assert ThreadOk(c, w, t) && ThreadOk(c, w, a.t);
    }
    forall i | 0 <= i < |z.inodes| ensures InodeOk(z, i) {
      EnterOpenLeaveKeepInode(c, w, a, i);
    }
    forall u | u in z.uploads ensures UploadOk(z, u) {
      assert UploadOk(w, u);
    }
  }

  lemma {:induction false} FlockUnlockFailKeepInode(c: Config, w: World, a: Action, i: nat)
    requires Inv(c, w) && Enabled(c, w, a) && i < |w.inodes|
    requires a.Flock? || a.Unlock? || a.Fail?
    ensures InodeOk(Step(c, w, a), i)
  {
    var z := Step(c, w, a);
    assert ThreadOk(c, w, a.t) && InodeOk(w, i);
    if a.Fail? {
      FailKeepsInode(c, w, a, i);
    } else {
      if w.inodes[i].holder != Some(a.t) && z.inodes[i].holder != Some(a.t) {
        assert Partial(z.threads, z.inodes[i]) == Partial(w.threads, w.inodes[i]);
      }
      forall r | r in z.inodes[i].log ensures RecOk(z.inodes[i], r, z.now) {
        assert RecOk(w.inodes[i], r, w.now);
      }
    }
  }

  lemma {:induction false} FailKeepsInode(c: Config, w: World, a: Action, i: nat)
    requires Inv(c, w) && Enabled(c, w, a) && i < |w.inodes| && a.Fail?
    ensures InodeOk(Step(c, w, a), i)
  {
    var z := Step(c, w, a);
    assert ThreadOk(c, w, a.t) && InodeOk(w, i);
    assert z.inodes[i].log == w.inodes[i].log;
    if w.inodes[i].holder == Some(a.t) {
      AbandonKeepsParts(w.inodes[i], w.threads[a.t]);
    } else {
      assert Partial(z.threads, z.inodes[i]) == Partial(w.threads, w.inodes[i]);
    }
    forall r | r in z.inodes[i].log ensures RecOk(z.inodes[i], r, z.now) {
      assert RecOk(w.inodes[i], r, w.now);
    }
  }

  lemma {:induction false} FlockUnlockFailKeepInv(c: Config, w: World, a: Action)
    requires Inv(c, w) && Enabled(c, w, a)
    requires a.Flock? || a.Unlock? || a.Fail?
    ensures Inv(c, Step(c, w, a))
  {
    var z := Step(c, w, a);
    assert ThreadOk(c, w, a.t);
    forall t | 0 <= t < |z.threads| ensures ThreadOk(c, z, t) {
      assert ThreadOk(c, w, t);
    }
    forall i | 0 <= i < |z.inodes| ensures InodeOk(z, i) {
      FlockUnlockFailKeepInode(c, w, a, i);
    }
    forall u | UploadOk(w, u) ensures UploadOk(z, u) {
      SnapshotFrame(w, z, u);
    }
  }

  /** A snapshot survives any step that leaves its inode's bytes and history alone. */
  lemma SnapshotFrame(w: World, z: World, u: Upload)
    requires UploadOk(w, u) && z.now >= w.now && u.ino < |z.inodes|
    requires z.inodes[u.ino].bytes == w.inodes[u.ino].bytes && z.inodes[u.ino].log == w.inodes[u.ino].log
    requires z.inodes[u.ino].renamedAt == w.inodes[u.ino].renamedAt
    ensures UploadOk(z, u)
  {}

  lemma {:induction false} WriteKeepsInodes(c: Config, w: World, a: Action, i: nat)
    requires Inv(c, w) && Enabled(c, w, a) && a.Write? && i < |w.inodes|
    ensures InodeOk(Step(c, w, a), i)
  {
    var z := Step(c, w, a);
    var th := w.threads[a.t];
    assert ThreadOk(c, w, a.t) && InodeOk(w, i);
    if i == th.ino {
      forall r | r in z.inodes[i].log ensures RecOk(z.inodes[i], r, z.now) {
        ChunkExtends(w.inodes[i], th, a.n, w.now, r);
      }
      ChunkKeepsParts(w.inodes[i], th, a.n, w.now);
    } else {
      assert Partial(z.threads, z.inodes[i]) == Partial(w.threads, w.inodes[i]);
      forall r | r in z.inodes[i].log ensures RecOk(z.inodes[i], r, z.now) {
        assert RecOk(w.inodes[i], r, w.now);
      }
    }
  }

  /** A snapshot stays a prefix of its file, and a line finished later is not in it. */
  lemma {:induction false} WriteKeepsUpload(c: Config, w: World, a: Action, u: Upload)
    requires Inv(c, w) && Enabled(c, w, a) && a.Write? && UploadOk(w, u)
    ensures UploadOk(Step(c, w, a), u)
  {
    var th := w.threads[a.t];
    assert ThreadOk(c, w, a.t);
    if u.ino == th.ino {
      ChunkEnds(w.inodes[th.ino], th, a.n, w.now);
    }
  }

  lemma {:induction false} WriteKeepsInv(c: Config, w: World, a: Action)
    requires Inv(c, w) && Enabled(c, w, a) && a.Write?
    ensures Inv(c, Step(c, w, a))
  {
    var z := Step(c, w, a);
    var th := w.threads[a.t];
    assert ThreadOk(c, w, a.t);
    ChunkEnds(w.inodes[th.ino], th, a.n, w.now);
    forall t | 0 <= t < |z.threads| ensures ThreadOk(c, z, t) {
      assert ThreadOk(c, w, t);
    }
    forall i | 0 <= i < |z.inodes| ensures InodeOk(z, i) {
      WriteKeepsInodes(c, w, a, i);
    }
    forall u | u in z.uploads ensures UploadOk(z, u) {
      WriteKeepsUpload(c, w, a, u);
    }
    if w.ship.Put? {
      WriteKeepsUpload(c, w, a, w.ship.up);
    }
  }

  lemma {:induction false} ShipStepKeepsInodes(c: Config, w: World, a: Action, i: nat)
    requires Inv(c, w) && Enabled(c, w, a) && i < |w.inodes|
    requires a.DoStatShipping? || a.DoRead? || a.DoPut? || a.DoRemove? || a.DoStatCapture? || a.DoRename? || a.Crash?
    ensures InodeOk(Step(c, w, a), i)
  {
    if a.DoRename? {
      RenameKeepsInodes(c, w, a, i);
    } else {
      var z := Step(c, w, a);
      assert InodeOk(w, i);
      assert z.inodes[i].log == w.inodes[i].log && z.inodes[i].bytes == w.inodes[i].bytes;
      assert Partial(z.threads, z.inodes[i]) == Partial(w.threads, w.inodes[i]);
      forall r | r in z.inodes[i].log ensures RecOk(z.inodes[i], r, z.now) {
        assert RecOk(w.inodes[i], r, w.now);
      }
      if w.inodes[i].fate.Removed? {
        var u :| u in w.uploads && u.ino == i;
        assert u in z.uploads;
      }
    }
  }

  lemma {:induction false} RenameKeepsInodes(c: Config, w: World, a: Action, i: nat)
    requires Inv(c, w) && Enabled(c, w, a) && i < |w.inodes| && a.DoRename?
    ensures InodeOk(Step(c, w, a), i)
  {
    var z := Step(c, w, a);
    assert InodeOk(w, i);
    assert z.inodes[i].log == w.inodes[i].log && z.inodes[i].bytes == w.inodes[i].bytes;
    assert Partial(z.threads, z.inodes[i]) == Partial(w.threads, w.inodes[i]);
    forall r | r in z.inodes[i].log ensures RecOk(z.inodes[i], r, z.now) {
      assert RecOk(w.inodes[i], r, w.now);
    }
  }

  lemma {:induction false} ShipStepKeepsThread(c: Config, w: World, a: Action, t: nat)
    requires Inv(c, w) && Enabled(c, w, a) && t < |w.threads|
    requires a.DoStatShipping? || a.DoRead? || a.DoPut? || a.DoRemove? || a.DoStatCapture? || a.DoRename? || a.Crash?
    ensures ThreadOk(c, Step(c, w, a), t)
  {
    assert ThreadOk(c, w, t);
    if w.capture.Some? {
      assert InodeOk(w, w.capture.value);
    }
  }

  lemma {:induction false} ShipStepKeepsUpload(c: Config, w: World, a: Action, u: Upload)
    requires Inv(c, w) && Enabled(c, w, a) && UploadOk(w, u)
    requires a.DoStatShipping? || a.DoRead? || a.DoPut? || a.DoRemove? || a.DoStatCapture? || a.DoRename? || a.Crash?
    ensures UploadOk(Step(c, w, a), u)
  {
    assert InodeOk(w, u.ino);
    SnapshotFrame(w, Step(c, w, a), u);
  }

  /** What DoRead takes is a snapshot: the read comes after every line already finished. */
  lemma {:induction false} ReadTakesSnapshot(c: Config, w: World, a: Action)
    requires Inv(c, w) && Enabled(c, w, a) && a.DoRead? && a.ok
    ensures UploadOk(Step(c, w, a), Step(c, w, a).ship.up)
  {
    var i := w.shipping.value;
    assert InodeOk(w, i);
    forall r | r in w.inodes[i].log ensures RecOk(w.inodes[i], r, w.now) {
    }
  }

  lemma {:induction false} ShipStepKeepsInv(c: Config, w: World, a: Action)
    requires Inv(c, w) && Enabled(c, w, a)
    requires a.DoStatShipping? || a.DoRead? || a.DoPut? || a.DoRemove? || a.DoStatCapture? || a.DoRename? || a.Crash?
    ensures Inv(c, Step(c, w, a))
  {
    var z := Step(c, w, a);
    forall i | 0 <= i < |z.inodes| ensures InodeOk(z, i) {
      ShipStepKeepsInodes(c, w, a, i);
    }
    forall t | 0 <= t < |z.threads| ensures ThreadOk(c, z, t) {
      ShipStepKeepsThread(c, w, a, t);
    }
    forall u | UploadOk(w, u) ensures UploadOk(z, u) {
      ShipStepKeepsUpload(c, w, a, u);
    }
    ShipStepKeepsPc(c, w, a);
  }

  lemma {:induction false} ShipStepKeepsPc(c: Config, w: World, a: Action)
    requires Inv(c, w) && Enabled(c, w, a)
    requires a.DoStatShipping? || a.DoRead? || a.DoPut? || a.DoRemove? || a.DoStatCapture? || a.DoRename? || a.Crash?
    ensures ShipOk(Step(c, w, a)) && NamesOk(Step(c, w, a))
  {
    var z := Step(c, w, a);
    if a.DoRead? && a.ok {
      ReadTakesSnapshot(c, w, a);
    }
    if z.ship.Remove? && a.DoPut? {
      assert w.ship.up in z.uploads;
    }
  }

  lemma {:induction false} StepKeepsInv(c: Config, w: World, a: Action)
    requires Inv(c, w) && Enabled(c, w, a)
    ensures Inv(c, Step(c, w, a))
  {
    if a.Enter? || a.Open? || a.Leave? {
      EnterOpenLeaveKeepInv(c, w, a);
    } else if a.Flock? || a.Unlock? || a.Fail? {
      FlockUnlockFailKeepInv(c, w, a);
    } else if a.Write? {
      WriteKeepsInv(c, w, a);
    } else {
      ShipStepKeepsInv(c, w, a);
    }
  }

  lemma {:induction false} LeadsKeepsInv(c: Config, w: World, acts: seq<Action>, z: World)
    requires Inv(c, w) && Leads(c, w, acts, z)
    ensures Inv(c, z)
    decreases |acts|
  {
    if acts != [] {
      StepKeepsInv(c, w, acts[0]);
      LeadsKeepsInv(c, Step(c, w, acts[0]), acts[1..], z);
    }
  }

  lemma {:induction false} ReachableInv(c: Config, z: World)
    requires Reachable(c, z)
    ensures Inv(c, z)
  {
    var w, acts :| Init(c, w) && Leads(c, w, acts, z);
    LeadsKeepsInv(c, w, acts, z);
  }
}
