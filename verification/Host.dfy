/** AppendEvent and the shipper loop body as imperative code over the step
  system: each system call is one step, and any other thread may run between
  two calls. Because every method keeps Valid, whatever Shipping proves of
  reachable states holds at every point inside them, crash points included. */
module Host {
  import opened Lines
  import opened CaptureFile
  import opened Parts
  import Shipping

  /** The shipper's own calls within a run. */
  function ShipCalls(acts: seq<Action>): seq<Action> {
    if acts == [] then []
    else if IsAppend(acts[|acts| - 1]) then ShipCalls(acts[..|acts| - 1])
    else ShipCalls(acts[..|acts| - 1]) + [acts[|acts| - 1]]
  }

  predicate IsAppend(a: Action) {
    a.Enter? || a.Open? || a.Flock? || a.Write? || a.Unlock? || a.Leave? || a.Fail?
  }

  /** What the system and the store answer during one upload; stored says
    whether the bytes arrived, also when the put reports an error. */
  datatype Io = Io(readable: bool, stored: bool, acked: bool, removed: bool)

  /** put, then remove only after a put that succeeded. */
  function PutCalls(io: Io): seq<Action> {
    if io.stored && io.acked then [DoPut(true, true), DoRemove(io.removed)] else [DoPut(io.stored, false)]
  }

  /** read, then put and remove only after a read that succeeded. */
  function UploadCalls(present: bool, io: Io): seq<Action> {
    if present && io.readable then [DoRead(true)] + PutCalls(io) else [DoRead(false)]
  }

  predicate AllWell(io: Io) {
    io.readable && io.stored && io.acked && io.removed
  }

  /** The stat of .shipping, then an upload unless the file was not there. */
  function RecoveryCalls(present: bool, statErr: bool, io: Io): seq<Action> {
    [DoStatShipping(statErr)] + if present || statErr then UploadCalls(present, io) else []
  }

  predicate LargeEnough(c: Config, w: World) {
    w.capture.Some? && w.capture.value < |w.inodes| && |w.inodes[w.capture.value].bytes| >= c.rotate
  }

  /** The stat of the capture file, and if it was large enough the rename and the
    upload of what was renamed. */
  function RotationCalls(large: bool, statErr: bool, renamed: bool, io: Io): seq<Action> {
    [DoStatCapture(statErr)] + if large && !statErr then RenameCalls(renamed, io) else []
  }

  function RenameCalls(renamed: bool, io: Io): seq<Action> {
    [DoRename(renamed)] + if renamed then UploadCalls(true, io) else []
  }

  class Machine {
    const c: Config
    var w: World
    ghost const start: World
    ghost var trace: seq<Action>

    ghost predicate Valid() reads this {
      Init(c, start) && Leads(c, start, trace, w) && |w.threads| == |c.proc| && NamesOk(w)
    }

    constructor (c: Config)
      ensures Valid() && this.c == c && Init(c, w) && trace == []
    {
      this.c := c;
      var w0 := World(0, map[], seq(|c.proc|, _ => Idle), [], None, None, [], Top);
      w := w0;
      start := w0;
      trace := [];
    }

    lemma Safe()
      requires Valid()
      ensures Inv(c, w)
    {
      LeadsKeepsInv(c, start, trace, w);
    }

    method Do(a: Action)
      requires Valid() && Enabled(c, w, a)
      modifies this
      ensures Valid() && w == Step(c, old(w), a) && trace == old(trace) + [a]
      ensures ShipCalls(trace) == ShipCalls(old(trace)) + if IsAppend(a) then [] else [a]
      ensures forall t :: Written(trace, t) == Written(old(trace), t) + if a.Write? && a.t == t then a.n else 0
    {
      Shipping.LeadsOneMore(c, start, trace, w, a);
      LeadsKeepsInv(c, start, trace + [a], Step(c, w, a));
      w := Step(c, w, a);
      trace := trace + [a];
      assert trace[..|trace| - 1] == old(trace);
    }

    /** Other threads run while the shipper is between two calls. */
    method LetWritersRun()
      requires Valid()
      modifies this
      ensures Valid() && old(trace) <= trace
      ensures ShipCalls(trace) == ShipCalls(old(trace))
      ensures w.ship == old(w.ship) && w.shipping == old(w.shipping) && w.uploads == old(w.uploads)
      ensures old(w.capture.Some?) ==> w.capture == old(w.capture)
    {
      var n: int := *;
      while n > 0
        invariant Valid() && old(trace) <= trace
        invariant ShipCalls(trace) == ShipCalls(old(trace))
        invariant w.ship == old(w.ship) && w.shipping == old(w.shipping) && w.uploads == old(w.uploads)
        invariant old(w.capture.Some?) ==> w.capture == old(w.capture)
      {
        var a: Action := *;
        if IsAppend(a) && Enabled(c, w, a) {
          Do(a);
        }
        n := n - 1;
      }
    }

    /** Everything but thread t runs while t is between two calls, or waits. */
    method LetOthersRun(t: nat)
      requires Valid() && t < |w.threads|
      modifies this
      ensures Valid() && old(trace) <= trace && t < |w.threads| && w.threads[t] == old(w.threads[t])
      ensures LogsExtend(old(w), w) && Written(trace, t) == Written(old(trace), t)
      ensures w.now >= old(w.now)
    {
      var n: int := *;
      while n > 0
        invariant Valid() && old(trace) <= trace && t < |w.threads| && w.threads[t] == old(w.threads[t])
        invariant LogsExtend(old(w), w) && Written(trace, t) == Written(old(trace), t)
        invariant w.now >= old(w.now)
      {
        var a: Action := *;
        var mine := IsAppend(a) && a.t == t;
        if !mine && Enabled(c, w, a) {
          Safe();
          LogsGrow(c, w, a);
          Do(a);
        }
        n := n - 1;
      }
    }

    /** uploadAndRemove: read, put, remove, leaving at the first failure. */
    method UploadAndRemove(rec: bool, io: Io) returns (ok: bool)
      requires Valid() && w.ship == Read(rec)
      modifies this
      ensures Valid() && old(trace) <= trace && w.ship == AfterUpload(rec)
      ensures ShipCalls(trace) == ShipCalls(old(trace)) + UploadCalls(old(w.shipping.Some?), io)
      ensures ok <==> old(w.shipping.Some?) && AllWell(io)
      ensures old(w.uploads) <= w.uploads && |w.uploads| <= |old(w.uploads)| + 1
      ensures ok ==> w.shipping.None?
                     && w.uploads != old(w.uploads) && w.uploads[|w.uploads| - 1].ino == old(w.shipping.value)
      ensures !ok ==> w.shipping == old(w.shipping)
    {
      LetWritersRun();
      if w.shipping.None? || !io.readable {
        Do(DoRead(false));
        return false;
      }
      Do(DoRead(true));
      ok := PutAndRemove(io);
      Associate(ShipCalls(old(trace)), [DoRead(true)], PutCalls(io));
    }

    method PutAndRemove(io: Io) returns (ok: bool)
      requires Valid() && w.ship.Put? && w.shipping == Some(w.ship.up.ino)
      modifies this
      ensures Valid() && old(trace) <= trace && w.ship == AfterUpload(old(w.ship.rec))
      ensures ShipCalls(trace) == ShipCalls(old(trace)) + PutCalls(io)
      ensures ok <==> io.stored && io.acked && io.removed
      ensures w.uploads == if io.stored then old(w.uploads) + [old(w.ship.up)] else old(w.uploads)
      ensures w.shipping == if ok then None else old(w.shipping)
    {
      LetWritersRun();
      if !io.stored || !io.acked {
        Do(DoPut(io.stored, false));
        return false;
      }
      Do(DoPut(true, true));
      LetWritersRun();
      Do(DoRemove(io.removed));
      ok := io.removed;
    }

    /** recoverShipping: any stat result but "does not exist" tries the upload. */
    method RecoverShipping(statErr: bool, io: Io) returns (ok: bool)
      requires Valid() && w.ship.Top?
      modifies this
      ensures Valid() && old(trace) <= trace && w.ship.StatCapture?
      ensures ShipCalls(trace) == ShipCalls(old(trace)) + RecoveryCalls(old(w.shipping.Some?), statErr, io)
      ensures ok <==> if old(w.shipping.Some?) then AllWell(io) else !statErr
      ensures old(w.uploads) <= w.uploads && |w.uploads| <= |old(w.uploads)| + 1
      ensures ok ==> w.shipping.None? && (old(w.shipping.Some?) ==> w.uploads != old(w.uploads))
      ensures !ok ==> w.shipping == old(w.shipping)
    {
      LetWritersRun();
      Do(DoStatShipping(statErr));
      ok := true;
      if !w.ship.StatCapture? {
        ok := UploadAndRemove(true, io);
        Associate(ShipCalls(old(trace)), [DoStatShipping(statErr)], UploadCalls(old(w.shipping.Some?), io));
      }
    }

    /** runOnce: recovery first, then the rotation, whether or not recovery worked.
      `at` is the state in which the capture file was looked at: the rotation
      follows exactly when the file was large enough then. */
    method RunOnce(statErr1: bool, io1: Io, statErr2: bool, renamed: bool, io2: Io)
      returns (ghost n: nat, ghost at: World)
      requires Valid() && w.ship.Top?
      modifies this
      ensures Valid() && old(trace) <= trace && w.ship.Top?
      ensures n < |trace| && trace[n] == DoStatCapture(statErr2) && Leads(c, start, trace[..n], at)
      ensures ShipCalls(trace)
              == ShipCalls(old(trace)) + RecoveryCalls(old(w.shipping.Some?), statErr1, io1)
                 + RotationCalls(LargeEnough(c, at), statErr2, renamed, io2)
      ensures old(w.uploads) <= w.uploads && |w.uploads| <= |old(w.uploads)| + 2
    {
      var recovered := RecoverShipping(statErr1, io1);
      n, at := StatAndRotate(statErr2, renamed, io2);
    }

    /** The second half of runOnce. */
    method StatAndRotate(statErr: bool, renamed: bool, io: Io) returns (ghost n: nat, ghost at: World)
      requires Valid() && w.ship.StatCapture?
      modifies this
      ensures Valid() && old(trace) <= trace && w.ship.Top?
      ensures n < |trace| && trace[n] == DoStatCapture(statErr) && Leads(c, start, trace[..n], at)
      ensures ShipCalls(trace) == ShipCalls(old(trace)) + RotationCalls(LargeEnough(c, at), statErr, renamed, io)
      ensures old(w.uploads) <= w.uploads && |w.uploads| <= |old(w.uploads)| + 1
    {
      LetWritersRun();
      n, at := |trace|, w;
      ghost var before := trace;
      Do(DoStatCapture(statErr));
      assert trace[..n] == before;
      if w.ship.Rename? {
        ghost var here := trace;
        Rotate(renamed, io);
        assert trace[..n] == here[..n] && trace[n] == here[n];
        Associate(ShipCalls(old(trace)), [DoStatCapture(statErr)], RenameCalls(renamed, io));
      }
    }

    method Rotate(renamed: bool, io: Io)
      requires Valid() && w.ship.Rename?
      modifies this
      ensures Valid() && old(trace) <= trace && w.ship.Top?
      ensures ShipCalls(trace) == ShipCalls(old(trace)) + RenameCalls(renamed, io)
      ensures old(w.uploads) <= w.uploads && |w.uploads| <= |old(w.uploads)| + 1
      ensures !renamed ==> w.uploads == old(w.uploads) && w.shipping == old(w.shipping)
      ensures renamed ==> (w.shipping.None? <==> AllWell(io))
    {
      LetWritersRun();
      Safe();
      Do(DoRename(renamed));
      if renamed {
        var ok := UploadAndRemove(false, io);
        Associate(ShipCalls(old(trace)), [DoRename(true)], UploadCalls(true, io));
      }
    }

    /** AppendEvent by thread t. `patience` bounds how long it waits for a lock
      before the wait is interrupted and reported as an error. */
    method AppendEvent(t: nat, ev: string, patience: nat, canOpen: bool, writeFault: bool)
      returns (r: Result, ghost ino: nat)
      requires Valid() && t < |w.threads| && w.threads[t].Idle? && EventLine(ev)
      modifies this
      ensures Valid() && old(trace) <= trace && t < |w.threads| && w.threads[t].Idle?
      ensures r.Appended? ==> exists q :: ino < |w.inodes| && q in w.inodes[ino].log && q.ev == ev
                                          && old(w.now) <= q.openedAt < q.doneAt
      ensures r.MutexTaken? ==> c.proc[t] in w.mutex
      ensures r.OpenFailed? <==> !r.MutexTaken? && !canOpen
      ensures r.FlockTaken? ==> ino < |w.inodes| && w.inodes[ino].holder.Some?
      ensures r.WriteFailed? ==> writeFault && LeftBehind(w, ino, ev, Written(trace, t) - Written(old(trace), t))
      // Success has written the line once; a failure before the write, nothing.
      ensures r.Appended? ==> Written(trace, t) == Written(old(trace), t) + |ev| + 1
      ensures r.MutexTaken? || r.OpenFailed? || r.FlockTaken? ==> Written(trace, t) == Written(old(trace), t)
    {
      ino := 0;
      var entered := TakeMutex(t, ev, patience);
      if !entered {
        return MutexTaken, 0;
      }
      if !canOpen {
        Do(Fail(t));
        return OpenFailed, 0;
      }
      Do(Open(t));
      ino := w.threads[t].ino;
      var locked := TakeFlock(t, patience);
      if !locked {
        return FlockTaken, ino;
      }
      var ok := WriteLine(t, writeFault);
      r := if ok then Appended else WriteFailed;
    }

    /** Waits for the mutex; on giving up, holds nothing. */
    method TakeMutex(t: nat, ev: string, patience: nat) returns (ok: bool)
      requires Valid() && t < |w.threads| && w.threads[t].Idle? && EventLine(ev)
      modifies this
      ensures Valid() && old(trace) <= trace && t < |w.threads| && w.now >= old(w.now)
      ensures ok ==> w.threads[t] == Entered(ev)
      ensures !ok ==> w.threads[t].Idle? && c.proc[t] in w.mutex
      ensures Written(trace, t) == Written(old(trace), t)
    {
      var tries := patience;
      while c.proc[t] in w.mutex && tries > 0
        invariant Valid() && old(trace) <= trace && t < |w.threads| && w.threads[t].Idle? && w.now >= old(w.now)
        invariant Written(trace, t) == Written(old(trace), t)
      {
        LetOthersRun(t);
        tries := tries - 1;
      }
      ok := c.proc[t] !in w.mutex;
      if ok {
        Do(Enter(t, ev));
        LetOthersRun(t);
      }
    }

    /** Waits for the flock; on giving up, closes and releases what is held. */
    method TakeFlock(t: nat, patience: nat) returns (ok: bool)
      requires Valid() && t < |w.threads| && w.threads[t].Opened?
      modifies this
      ensures Valid() && old(trace) <= trace && t < |w.threads|
      ensures ok ==> w.threads[t] == Writing(old(w.threads[t].ev), old(w.threads[t].ino), old(w.threads[t].openedAt), 0)
      ensures !ok ==> w.threads[t].Idle? && old(w.threads[t].ino) < |w.inodes|
                      && w.inodes[old(w.threads[t].ino)].holder.Some?
      ensures Written(trace, t) == Written(old(trace), t)
    {
      ghost var me := w.threads[t];
      Safe();
      assert ThreadOk(c, w, t);
      var tries := patience;
      while w.inodes[w.threads[t].ino].holder.Some? && tries > 0
        invariant Valid() && old(trace) <= trace && t < |w.threads| && w.threads[t] == me && me.ino < |w.inodes|
        invariant Written(trace, t) == Written(old(trace), t)
      {
        LetOthersRun(t);
        Safe();
        assert ThreadOk(c, w, t);
        tries := tries - 1;
      }
      ok := w.inodes[w.threads[t].ino].holder.None?;
      Do(if ok then Flock(t) else Fail(t));
    }

    /** The write itself, in as many chunks as the system makes of it, then the
      deferred unlock, close and mutex release. */
    method WriteLine(t: nat, fault: bool) returns (ok: bool)
      requires Valid() && t < |w.threads| && w.threads[t].Writing? && w.threads[t].done == 0
      modifies this
      ensures Valid() && old(trace) <= trace && t < |w.threads| && w.threads[t].Idle?
      ensures ok ==> Landed(w, old(w.threads[t]))
      ensures ok ==> Written(trace, t) == Written(old(trace), t) + |Line(old(w.threads[t].ev))|
      ensures !ok ==> fault && LeftBehind(w, old(w.threads[t].ino), old(w.threads[t].ev),
                                          Written(trace, t) - Written(old(trace), t))
    {
      ghost var me := w.threads[t];
      Safe();
      assert ThreadOk(c, w, t);
      while w.threads[t].done < |Line(w.threads[t].ev)|
        invariant Valid() && old(trace) <= trace && t < |w.threads|
        invariant w.threads[t].Writing? && w.threads[t] == me.(done := w.threads[t].done)
        invariant w.threads[t].done == Written(trace, t) - Written(old(trace), t) <= |Line(me.ev)|
        invariant w.threads[t].done == |Line(me.ev)| ==> Landed(w, me)
        decreases |Line(me.ev)| - w.threads[t].done
      {
        Safe();
        assert ThreadOk(c, w, t);
        var now: bool := *;
        if fault && now {
          Do(Fail(t));
          return false;
        }
        WriteChunkOf(t, me);
      }
      Release(t);
      ok := true;
    }

    /** The deferred calls once the whole line is written. */
    method Release(t: nat)
      requires Valid() && t < |w.threads| && w.threads[t].Writing?
      requires w.threads[t].done == |Line(w.threads[t].ev)| && Landed(w, w.threads[t])
      modifies this
      ensures Valid() && old(trace) <= trace && t < |w.threads| && w.threads[t].Idle?
      ensures Landed(w, old(w.threads[t])) && Written(trace, t) == Written(old(trace), t)
    {
      Safe();
      assert ThreadOk(c, w, t);
      Do(Unlock(t));
      Do(Leave(t));
    }

    /** One chunk of any size, and whatever the other threads do after it. */
    method WriteChunkOf(t: nat, ghost me: Appender)
      requires Valid() && t < |w.threads| && w.threads[t].Writing? && me.Writing?
      requires w.threads[t] == me.(done := w.threads[t].done) && w.threads[t].done < |Line(me.ev)|
      modifies this
      ensures Valid() && old(trace) <= trace && t < |w.threads|
      ensures w.threads[t].Writing? && w.threads[t] == me.(done := w.threads[t].done)
      ensures old(w.threads[t].done) < w.threads[t].done <= |Line(me.ev)|
      ensures w.threads[t].done - old(w.threads[t].done) == Written(trace, t) - Written(old(trace), t)
      ensures w.threads[t].done == |Line(me.ev)| ==> Landed(w, me)
    {
      Safe();
      assert ThreadOk(c, w, t);
      var left := |Line(w.threads[t].ev)| - w.threads[t].done;
      var some: int := *;
      var n := if 0 < some <= left then some else left;
      ghost var before := w;
      Do(Write(t, n));
      if w.threads[t].done == |Line(me.ev)| {
        var log := w.inodes[me.ino].log;
        assert log[|log| - 1] == Rec(me.ev, log[|log| - 1].lo, log[|log| - 1].hi, me.openedAt, before.now);
      }
      LetOthersRun(t);
    }
  }

  /** What AppendEvent reports. */
  datatype Result = Appended | MutexTaken | OpenFailed | FlockTaken | WriteFailed

  lemma Associate(a: seq<Action>, b: seq<Action>, x: seq<Action>)
    ensures (a + b) + x == a + (b + x)
  {}

  /** How many bytes thread t writes along a run. */
  function Written(acts: seq<Action>, t: nat): nat {
    if acts == [] then 0
    else
      var a := acts[|acts| - 1];
      Written(acts[..|acts| - 1], t) + if a.Write? && a.t == t then a.n else 0
  }

  /** What a failed write wrote, if anything, stays in the file as a piece. */
  predicate LeftBehind(w: World, ino: nat, ev: string, written: int) {
    && 0 <= written < |Line(ev)| && ino < |w.inodes|
    && (written > 0 ==> Piece(Line(ev)[..written]) in w.inodes[ino].parts)
  }

  /** The line of `me` is in the log of its inode. */
  ghost predicate Landed(w: World, me: Appender)
    requires me.Writing?
  {
    exists r :: me.ino < |w.inodes| && r in w.inodes[me.ino].log
                && r.ev == me.ev && r.openedAt == me.openedAt && r.openedAt < r.doneAt
  }

  /** No finished append disappears from the history of its inode. */
  ghost predicate LogsExtend(w: World, z: World) {
    |w.inodes| <= |z.inodes| && forall i :: 0 <= i < |w.inodes| ==> w.inodes[i].log <= z.inodes[i].log
  }

  lemma {:induction false} LogsGrow(c: Config, w: World, a: Action)
    requires Inv(c, w) && Enabled(c, w, a)
    ensures LogsExtend(w, Step(c, w, a))
  {
  }
}
