/** The proxy's bounded event channel, its many senders and its one writer
  (internal/proxy/proxy.go, internal/proxy/writer.go), as a step system. A sender
  never blocks; the writer drains until the channel is closed and empty. */
module EventChannel {
  import opened Lines
  import opened Json

  /** What became of a submitted event at the channel. */
  datatype Fate = Enqueued | Dropped | Panicked

  /** senders are the handlers still running. The history: every submission with
    its fate, and every event the writer has dealt with and whether it was appended. */
  datatype State = State(
    queue: seq<CaptureEvent>, closed: bool, stopped: bool, senders: nat, hand: Option<CaptureEvent>, returned: bool,
    submitted: seq<(CaptureEvent, Fate)>, consumed: seq<(CaptureEvent, bool)>, late: nat)

  datatype Action =
    | Arrive
    | Send(e: CaptureEvent)
    | Leave
    | Stop
    | Close(outlived: bool)
    | Take
    | Append(ok: bool)
    | Return

  predicate Enabled(cap: nat, s: State, a: Action) {
    match a
    case Arrive => !s.stopped
    case Send(_) => s.senders > 0
    case Leave => s.senders > 0
    case Stop => !s.stopped
    // After Shutdown has seen every handler out, or its 30 s are over, or the
    // listener has failed: in the last two cases handlers may outlive the channel.
    case Close(outlived) => s.stopped && !s.closed && (outlived || s.senders == 0)
    case Take => !s.returned && s.hand.None? && s.queue != []
    case Append(_) => s.hand.Some?
    case Return => !s.returned && s.hand.None? && s.queue == [] && s.closed
  }

  /** A send on a closed channel panics, also in a select with a default case. */
  function FateOf(cap: nat, s: State): Fate {
    if s.closed then Panicked else if |s.queue| < cap then Enqueued else Dropped
  }

  function Step(cap: nat, s: State, a: Action): State
    requires Enabled(cap, s, a)
  {
    match a
    case Arrive => s.(senders := s.senders + 1)
    case Send(e) =>
      var fate := FateOf(cap, s);
      s.(senders := s.senders - 1, submitted := s.submitted + [(e, fate)],
         queue := if fate.Enqueued? then s.queue + [e] else s.queue,
         late := s.late + if s.closed then 1 else 0)
    case Leave => s.(senders := s.senders - 1)
    case Stop => s.(stopped := true)
    case Close(_) => s.(closed := true)
    case Take => s.(hand := Some(s.queue[0]), queue := s.queue[1..])
    case Append(ok) => s.(hand := None, consumed := s.consumed + [(s.hand.value, ok)])
    case Return => s.(returned := true)
  }

  predicate Init(s: State) {
    s.queue == [] && !s.closed && !s.stopped && s.senders == 0 && s.hand.None? && !s.returned
    && s.submitted == [] && s.consumed == [] && s.late == 0
  }

  predicate Leads(cap: nat, s: State, acts: seq<Action>, z: State)
    decreases |acts|
  {
    if acts == [] then s == z
    else Enabled(cap, s, acts[0]) && Leads(cap, Step(cap, s, acts[0]), acts[1..], z)
  }

  // ----- counting and order -----

  /** The submitted events that went into the channel, in order. */
  function Entered(submitted: seq<(CaptureEvent, Fate)>): seq<CaptureEvent> {
    if submitted == [] then []
    else
      var last := submitted[|submitted| - 1];
      Entered(submitted[..|submitted| - 1]) + if last.1.Enqueued? then [last.0] else []
  }

  function CountFate(submitted: seq<(CaptureEvent, Fate)>, fate: Fate): nat {
    if submitted == [] then 0
    else CountFate(submitted[..|submitted| - 1], fate) + if submitted[|submitted| - 1].1 == fate then 1 else 0
  }

  function Events(consumed: seq<(CaptureEvent, bool)>): (r: seq<CaptureEvent>)
    ensures |r| == |consumed|
  {
    if consumed == [] then []
    else Events(consumed[..|consumed| - 1]) + [consumed[|consumed| - 1].0]
  }

  /** What the file holds: the appended events, in order. */
  function File(consumed: seq<(CaptureEvent, bool)>): seq<CaptureEvent> {
    if consumed == [] then []
    else File(consumed[..|consumed| - 1]) + if consumed[|consumed| - 1].1 then [consumed[|consumed| - 1].0] else []
  }

  function Failed(consumed: seq<(CaptureEvent, bool)>): nat {
    if consumed == [] then 0
    else Failed(consumed[..|consumed| - 1]) + if consumed[|consumed| - 1].1 then 0 else 1
  }

  function InHand(s: State): seq<CaptureEvent> {
    if s.hand.Some? then [s.hand.value] else []
  }

  predicate Inv(cap: nat, s: State) {
    && Entered(s.submitted) == Events(s.consumed) + (InHand(s) + s.queue)
    && |s.queue| <= cap
    && (s.closed ==> s.stopped)
    && (s.returned ==> s.closed && s.hand.None? && s.queue == [])
    && CountFate(s.submitted, Panicked) == s.late
    && (s.late > 0 ==> s.closed)
  }

  lemma EnteredOneMore(submitted: seq<(CaptureEvent, Fate)>, e: CaptureEvent, fate: Fate)
    ensures Entered(submitted + [(e, fate)]) == Entered(submitted) + if fate.Enqueued? then [e] else []
    ensures forall f :: CountFate(submitted + [(e, fate)], f) == CountFate(submitted, f) + if fate == f then 1 else 0
  {
    assert (submitted + [(e, fate)])[..|submitted|] == submitted;
  }

  lemma ConsumedOneMore(consumed: seq<(CaptureEvent, bool)>, e: CaptureEvent, ok: bool)
    ensures Events(consumed + [(e, ok)]) == Events(consumed) + [e]
  {
    assert (consumed + [(e, ok)])[..|consumed|] == consumed;
  }

  lemma SendKeepsInv(cap: nat, s: State, e: CaptureEvent)
    requires Inv(cap, s) && s.senders > 0
    ensures Inv(cap, Step(cap, s, Send(e)))
  {
    EnteredOneMore(s.submitted, e, FateOf(cap, s));
    Join(Events(s.consumed), InHand(s), s.queue, [e]);
  }

  lemma TakeKeepsInv(cap: nat, s: State)
    requires Inv(cap, s) && Enabled(cap, s, Take)
    ensures Inv(cap, Step(cap, s, Take))
  {
    assert InHand(s) + s.queue == [s.queue[0]] + s.queue[1..];
  }

  lemma AppendKeepsInv(cap: nat, s: State, ok: bool)
    requires Inv(cap, s) && s.hand.Some?
    ensures Inv(cap, Step(cap, s, Append(ok)))
  {
    ConsumedOneMore(s.consumed, s.hand.value, ok);
    Regroup(Events(s.consumed), s.hand.value, s.queue);
  }

  lemma Regroup<T>(a: seq<T>, x: T, b: seq<T>)
    ensures a + ([x] + b) == (a + [x]) + ([] + b)
  {}

  lemma {:induction false} StepKeepsInv(cap: nat, s: State, a: Action)
    requires Inv(cap, s) && Enabled(cap, s, a)
    ensures Inv(cap, Step(cap, s, a))
  {
    match a
    case Send(e) => SendKeepsInv(cap, s, e);
    case Take => TakeKeepsInv(cap, s);
    case Append(ok) => AppendKeepsInv(cap, s, ok);
    case _ =>
  }

  lemma Join<T>(a: seq<T>, b: seq<T>, c: seq<T>, d: seq<T>)
    ensures (a + (b + c)) + d == a + (b + (c + d))
    ensures a + ((b + c) + d) == (a + (b + c)) + d
  {}

  lemma {:induction false} LeadsKeepsInv(cap: nat, s: State, acts: seq<Action>, z: State)
    requires Inv(cap, s) && Leads(cap, s, acts, z)
    ensures Inv(cap, z)
    decreases |acts|
  {
    if acts != [] {
      StepKeepsInv(cap, s, acts[0]);
      LeadsKeepsInv(cap, Step(cap, s, acts[0]), acts[1..], z);
    }
  }

  // ----- the theorems -----

  lemma {:induction false} FatesSum(submitted: seq<(CaptureEvent, Fate)>)
    ensures |submitted| == CountFate(submitted, Enqueued) + CountFate(submitted, Dropped)
            + CountFate(submitted, Panicked)
    ensures |Entered(submitted)| == CountFate(submitted, Enqueued)
  {
    if submitted != [] {
      FatesSum(submitted[..|submitted| - 1]);
    }
  }

  lemma {:induction false} FileOrFailed(consumed: seq<(CaptureEvent, bool)>)
    ensures |consumed| == |File(consumed)| + Failed(consumed)
  {
    if consumed != [] {
      FileOrFailed(consumed[..|consumed| - 1]);
    }
  }

  /** Submitted = written + failed + in hand + queued + dropped + panicked, at
    every moment of every interleaving. */
  lemma {:induction false} Conservation(cap: nat, s: State, acts: seq<Action>, z: State)
    requires Init(s) && Leads(cap, s, acts, z)
    ensures |z.submitted| == |File(z.consumed)| + Failed(z.consumed) + |InHand(z)| + |z.queue|
                             + CountFate(z.submitted, Dropped) + CountFate(z.submitted, Panicked)
  {
    LeadsKeepsInv(cap, s, acts, z);
    FatesSum(z.submitted);
    FileOrFailed(z.consumed);
  }

  /** The writer deals with events in the order they entered the channel, so the
    file is that order without the failed appends. */
  lemma {:induction false} FileOrderIsEnqueueOrder(cap: nat, s: State, acts: seq<Action>, z: State)
    requires Init(s) && Leads(cap, s, acts, z)
    ensures Events(z.consumed) <= Entered(z.submitted)
    ensures Failed(z.consumed) == 0 ==> File(z.consumed) <= Entered(z.submitted)
    ensures z.returned ==> Events(z.consumed) == Entered(z.submitted)
  {
    LeadsKeepsInv(cap, s, acts, z);
    if Failed(z.consumed) == 0 {
      NoneFailed(z.consumed);
    }
    assert Events(z.consumed) + ([] + []) == Events(z.consumed);
  }

  lemma {:induction false} NoneFailed(consumed: seq<(CaptureEvent, bool)>)
    requires Failed(consumed) == 0
    ensures File(consumed) == Events(consumed)
  {
    if consumed != [] {
      NoneFailed(consumed[..|consumed| - 1]);
    }
  }

  /** Once the writer has returned nothing is queued or in hand, and everything
    submitted was written, failed, dropped, or sent after the close; the last
    happens exactly when some handler sends on the closed channel. */
  lemma {:induction false} ReturnedMeansDrained(cap: nat, s: State, acts: seq<Action>, z: State)
    requires Init(s) && Leads(cap, s, acts, z) && z.returned
    ensures z.queue == [] && z.hand.None? && z.closed
    ensures |z.submitted| == |File(z.consumed)| + Failed(z.consumed) + CountFate(z.submitted, Dropped) + z.late
  {
    Conservation(cap, s, acts, z);
    LeadsKeepsInv(cap, s, acts, z);
  }

  /** A close that waited for every handler: no send comes after it. */
  lemma {:induction false} CleanCloseLosesNothing(cap: nat, s: State, acts: seq<Action>, z: State)
    requires s.closed && s.stopped && s.senders == 0 && Leads(cap, s, acts, z)
    ensures z.late == s.late && z.submitted == s.submitted && z.senders == 0
    decreases |acts|
  {
    if acts != [] {
      CleanCloseLosesNothing(cap, Step(cap, s, acts[0]), acts[1..], z);
    }
  }

  /** The handlers that run at the end of a run are those that came and have not
    sent their event or left without one. */
  function Running(acts: seq<Action>): int {
    if acts == [] then 0
    else
      var a := acts[|acts| - 1];
      Running(acts[..|acts| - 1]) + if a.Arrive? then 1 else if a.Send? || a.Leave? then -1 else 0
  }

  /** When the channel was closed without waiting for a handler. */
  predicate ClosedOn(acts: seq<Action>, i: int) {
    0 <= i < |acts| && acts[i].Close? && Running(acts[..i]) > 0
  }

  lemma {:induction false} LeadsSplit(cap: nat, s: State, acts: seq<Action>, z: State) returns (y: State)
    requires acts != [] && Leads(cap, s, acts, z)
    ensures var n := |acts| - 1;
            Leads(cap, s, acts[..n], y) && Enabled(cap, y, acts[n]) && z == Step(cap, y, acts[n])
    decreases |acts|
  {
    var n := |acts| - 1;
    if n == 0 {
      y := s;
    } else {
      y := LeadsSplit(cap, Step(cap, s, acts[0]), acts[1..], z);
      assert acts[1..][..n - 1] == acts[..n][1..];
    }
  }

  /** No event is sent on the closed channel unless it was closed on a running handler. */
  lemma {:induction false} PanicNeedsRunning(cap: nat, s: State, acts: seq<Action>, z: State)
    requires Init(s) && Leads(cap, s, acts, z)
    ensures z.senders == Running(acts)
    ensures z.late == CountFate(z.submitted, Panicked)
    ensures (forall i :: !ClosedOn(acts, i)) ==> z.late == 0 && (z.closed ==> z.senders == 0)
    decreases |acts|
  {
    LeadsKeepsInv(cap, s, acts, z);
    if acts != [] {
      var n := |acts| - 1;
      var y := LeadsSplit(cap, s, acts, z);
      PanicNeedsRunning(cap, s, acts[..n], y);
      LeadsKeepsInv(cap, s, acts[..n], y);
      if forall i :: !ClosedOn(acts, i) {
        forall i ensures !ClosedOn(acts[..n], i) {
          assert !ClosedOn(acts, i);
          assert 0 <= i < n ==> acts[..n][..i] == acts[..i];
        }
        assert !ClosedOn(acts, n);
      }
    }
  }

  /** A shutdown that saw every handler out closes no channel under one. */
  lemma {:induction false} WaitedForHandlers(cap: nat, s: State, acts: seq<Action>, z: State)
    requires Init(s) && Leads(cap, s, acts, z) && forall a :: a in acts && a.Close? ==> !a.outlived
    ensures forall i :: !ClosedOn(acts, i)
    decreases |acts|
  {
    if acts != [] {
      var n := |acts| - 1;
      var y := LeadsSplit(cap, s, acts, z);
      WaitedForHandlers(cap, s, acts[..n], y);
      PanicNeedsRunning(cap, s, acts[..n], y);
      forall i ensures !ClosedOn(acts, i) {
        assert !ClosedOn(acts[..n], i);
        assert 0 <= i < n ==> acts[..n][..i] == acts[..i];
      }
    }
  }

  /** A handler that outlives the close loses its event. */
  lemma {:induction false} OutlivedCloseLoses(cap: nat, s: State, e: CaptureEvent)
    requires Inv(cap, s) && s.stopped && !s.closed && s.senders > 0
    ensures var y := Step(cap, s, Close(true));
            && Enabled(cap, s, Close(true)) && Enabled(cap, y, Send(e))
            && Step(cap, y, Send(e)).late == s.late + 1
            && Entered(Step(cap, y, Send(e)).submitted) == Entered(s.submitted)
  {
    EnteredOneMore(s.submitted, e, Panicked);
  }

  /** An event is dropped exactly when it finds the channel open and full. */
  lemma {:induction false} DroppedExactly(cap: nat, s: State, e: CaptureEvent)
    requires Inv(cap, s) && s.senders > 0
    ensures var z := Step(cap, s, Send(e));
            && (CountFate(z.submitted, Dropped) == CountFate(s.submitted, Dropped) + 1
                <==> !s.closed && |s.queue| == cap)
            && (Entered(z.submitted) == Entered(s.submitted) + [e] <==> !s.closed && |s.queue| < cap)
  {
    EnteredOneMore(s.submitted, e, FateOf(cap, s));
    assert |Entered(s.submitted) + [e]| != |Entered(s.submitted)|;
  }

  /** After the close the writer, left alone, drains the channel and returns. */
  lemma {:induction false} WriterDrains(cap: nat, s: State) returns (acts: seq<Action>, z: State)
    requires s.closed && !s.returned
    ensures Leads(cap, s, acts, z) && z.returned && |acts| == 2 * |s.queue| + |InHand(s)| + 1
    ensures z.submitted == s.submitted
    decreases 2 * |s.queue| + |InHand(s)|
  {
    var a: Action := if s.hand.Some? then Append(true) else if s.queue != [] then Take else Return;
    var y := Step(cap, s, a);
    acts, z := [], y;
    if !a.Return? {
      acts, z := WriterDrains(cap, y);
    }
    assert ([a] + acts)[1..] == acts;
    acts := [a] + acts;
  }

  // ----- the code -----

  /** The channel with its writer; handlers run between any two steps. */
  class Proxy {
    const cap: nat
    var s: State
    ghost const start: State
    ghost var trace: seq<Action>

    ghost predicate Valid() reads this {
      Init(start) && Leads(cap, start, trace, s)
    }

    constructor (eventChanCap: int)
      ensures Valid() && Init(s) && cap == if eventChanCap <= 0 then 256 else eventChanCap
    {
      cap := if eventChanCap <= 0 then 256 else eventChanCap;
      var empty: State := State([], false, false, 0, None, false, [], [], 0);
      s := empty;
      start := empty;
      trace := [];
    }

    lemma Safe()
      requires Valid()
      ensures Inv(cap, s)
    {
      LeadsKeepsInv(cap, start, trace, s);
    }

    method Do(a: Action)
      requires Valid() && Enabled(cap, s, a)
      modifies this
      ensures Valid() && s == Step(cap, old(s), a) && trace == old(trace) + [a]
    {
      LeadsOneMore(cap, start, trace, s, a);
      s := Step(cap, s, a);
      trace := trace + [a];
    }

    /** sendEvent, by one of the running handlers. */
    method SendEvent(e: CaptureEvent) returns (fate: Fate)
      requires Valid() && s.senders > 0
      modifies this
      ensures Valid() && s == Step(cap, old(s), Send(e)) && fate == FateOf(cap, old(s))
      ensures trace == old(trace) + [Send(e)]
    {
      if s.closed {
        fate := Panicked;
      } else if |s.queue| < cap {
        fate := Enqueued;
      } else {
        fate := Dropped;
      }
      Do(Send(e));
    }

    /** Handlers arrive, send and leave, and Run stops the server and closes the channel. */
    method LetOthersRun()
      requires Valid()
      modifies this
      ensures Valid() && old(trace) <= trace
      ensures s.hand == old(s.hand) && s.returned == old(s.returned) && s.consumed == old(s.consumed)
      ensures old(s.closed) ==> s.closed && s.queue == old(s.queue)
    {
      var n: int := *;
      while n > 0
        invariant Valid() && old(trace) <= trace
        invariant s.hand == old(s.hand) && s.returned == old(s.returned) && s.consumed == old(s.consumed)
        invariant old(s.closed) ==> s.closed && s.queue == old(s.queue)
      {
        if * {
          if s.senders > 0 {
            var e: CaptureEvent := *;
            var fate := SendEvent(e);
          }
        } else {
          var a: Action := *;
          if (a.Arrive? || a.Leave? || a.Stop? || a.Close?) && Enabled(cap, s, a) {
            Do(a);
          }
        }
        n := n - 1;
      }
    }

    /** runWriter: receive, append, go on whether or not the append worked, and
      return when the channel is closed and drained. `turns` bounds how often it
      looks; looking finds nothing when the context ended or nobody has sent. */
    method RunWriter(turns: nat, appendFails: nat -> bool) returns (done: bool)
      requires Valid() && s.hand.None? && !s.returned
      modifies this
      ensures Valid() && old(trace) <= trace && s.hand.None? && done == s.returned
      ensures old(s.consumed) <= s.consumed && Events(s.consumed) <= Entered(s.submitted)
      ensures forall i :: |old(s.consumed)| <= i < |s.consumed| ==> s.consumed[i].1 == !appendFails(i)
      ensures done ==> s.closed && s.queue == [] && Events(s.consumed) == Entered(s.submitted)
    {
      var left := turns;
      while left > 0
        invariant Valid() && old(trace) <= trace && s.hand.None? && !s.returned && old(s.consumed) <= s.consumed
        invariant forall i :: |old(s.consumed)| <= i < |s.consumed| ==> s.consumed[i].1 == !appendFails(i)
      {
        LetOthersRun();
        if s.queue != [] {
          Do(Take);
          LetOthersRun();
          Do(Append(!appendFails(|s.consumed|)));
        } else if s.closed {
          Do(Return);
          FileOrderIsEnqueueOrder(cap, start, trace, s);
          Safe();
          return true;
        }
        left := left - 1;
      }
      FileOrderIsEnqueueOrder(cap, start, trace, s);
      done := false;
    }
  }

  lemma {:induction false} LeadsOneMore(cap: nat, s: State, acts: seq<Action>, z: State, a: Action)
    requires Leads(cap, s, acts, z) && Enabled(cap, z, a)
    ensures Leads(cap, s, acts + [a], Step(cap, z, a))
    decreases |acts|
  {
    if acts == [] {
      assert [a][1..] == [];
      assert acts + [a] == [a];
    } else {
      assert (acts + [a])[1..] == acts[1..] + [a];
      LeadsOneMore(cap, Step(cap, s, acts[0]), acts[1..], z, a);
    }
  }
}
