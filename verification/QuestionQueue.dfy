/** The status queue under the generator's backpressure, as a step system: a
  generation cycle counts the ready questions once, then inserts its survivors
  one by one, while the sender and the user change statuses at any moment. */
module QuestionQueue {
  import opened Questions

  /** cap is MaxReadyQueue as resolved, b bounds the survivors of one cycle. */
  datatype Config = Config(cap: nat, b: nat)

  function ResolveCap(maxReadyQueue: int): (cap: nat)
    ensures cap > 0
  {
    if maxReadyQueue <= 0 then 40 else maxReadyQueue
  }

  /** left is what the running cycle may still insert; failedCounts, requeued and
    inserted are history. */
  datatype State = State(rows: seq<Question>, left: nat, failedCounts: nat, requeued: nat, inserted: nat)

  datatype Action =
    | Begin(survivors: nat)
    | BeginUncounted(survivors: nat)
    | Insert(q: Question, ok: bool)
    | Finish
    | Update(id: nat, status: string, cols: map<string, Column>)

  function ReadyCount(s: State): nat {
    CountOf(s.rows, "ready")
  }

  predicate Enabled(c: Config, s: State, a: Action) {
    match a
    case Begin(n) => s.left == 0 && n <= c.b && ReadyCount(s) < c.cap
    // The count failed: the cycle proceeds without backpressure.
    case BeginUncounted(n) => s.left == 0 && n <= c.b
    case Insert(_, _) => s.left > 0
    case Finish => true
    case Update(id, status, _) => 1 <= id <= |s.rows| && ValidStatus(status)
  }

  function Step(c: Config, s: State, a: Action): State
    requires Enabled(c, s, a)
  {
    match a
    case Begin(n) => s.(left := n)
    case BeginUncounted(n) => s.(left := n, failedCounts := s.failedCounts + 1)
    case Insert(q, ok) =>
      if ok then s.(rows := s.rows + [Fresh(q, |s.rows| + 1)], left := s.left - 1, inserted := s.inserted + 1)
      else s.(left := s.left - 1)
    case Finish => s.(left := 0)
    case Update(id, status, cols) =>
      var requeues := status == "ready" && s.rows[id - 1].status != "ready";
      s.(rows := Updated(s.rows, id, status, cols), requeued := s.requeued + if requeues then 1 else 0)
  }

  predicate Init(s: State) {
    s == State([], 0, 0, 0, 0)
  }

  predicate Leads(c: Config, s: State, acts: seq<Action>, z: State)
    decreases |acts|
  {
    if acts == [] then s == z
    else Enabled(c, s, acts[0]) && Leads(c, Step(c, s, acts[0]), acts[1..], z)
  }

  // ----- what every step keeps -----

  /** One cycle's worth, and one more for each cycle that ran uncounted. */
  function Slack(c: Config, failedCounts: nat): nat {
    if failedCounts == 0 then c.b else Slack(c, failedCounts - 1) + c.b
  }

  lemma {:induction false} SlackIs(c: Config, failedCounts: nat)
    ensures Slack(c, failedCounts) == c.b + c.b * failedCounts
  {
    if failedCounts > 0 {
      SlackIs(c, failedCounts - 1);
      assert c.b * failedCounts == c.b * (failedCounts - 1) + c.b;
    }
  }

  lemma {:induction false} SlackAtLeast(c: Config, failedCounts: nat)
    ensures Slack(c, failedCounts) >= c.b
  {
    if failedCounts > 0 {
      SlackAtLeast(c, failedCounts - 1);
    }
  }

  predicate Bounded(c: Config, s: State) {
    ReadyCount(s) + s.left <= c.cap - 1 + Slack(c, s.failedCounts) + s.requeued
  }

  predicate Inv(c: Config, s: State) {
    c.cap > 0 && TableOk(s.rows) && s.inserted == |s.rows| && Bounded(c, s)
  }

  lemma {:induction false} UpdateMoves(s: State, c: Config, id: nat, status: string, cols: map<string, Column>)
    requires 1 <= id <= |s.rows|
    ensures ReadyCount(s.(rows := Updated(s.rows, id, status, cols)))
            == ReadyCount(s) - (if s.rows[id - 1].status == "ready" then 1 else 0)
               + (if status == "ready" then 1 else 0)
  {
    CountUpdate(s.rows, id - 1, SetColumns(s.rows[id - 1], status, cols), "ready");
  }

  lemma {:induction false} InsertKeepsInv(c: Config, s: State, a: Action)
    requires Inv(c, s) && Enabled(c, s, a) && a.Insert?
    ensures Inv(c, Step(c, s, a))
  {
    CountAppend(s.rows, Fresh(a.q, |s.rows| + 1), "ready");
  }

  lemma {:induction false} UpdateKeepsInv(c: Config, s: State, a: Action)
    requires Inv(c, s) && Enabled(c, s, a) && a.Update?
    ensures Inv(c, Step(c, s, a))
  {
    UpdateMoves(s, c, a.id, a.status, a.cols);
  }

  lemma {:induction false} StepKeepsInv(c: Config, s: State, a: Action)
    requires Inv(c, s) && Enabled(c, s, a)
    ensures Inv(c, Step(c, s, a))
  {
    match a
    case Begin(n) =>
      SlackAtLeast(c, s.failedCounts);
    case BeginUncounted(n) =>
    case Insert(_, _) =>
      InsertKeepsInv(c, s, a);
    case Finish =>
    case Update(_, _, _) =>
      UpdateKeepsInv(c, s, a);
  }

  lemma {:induction false} LeadsKeepsInv(c: Config, s: State, acts: seq<Action>, z: State)
    requires Inv(c, s) && Leads(c, s, acts, z)
    ensures Inv(c, z)
    decreases |acts|
  {
    if acts != [] {
      StepKeepsInv(c, s, acts[0]);
      LeadsKeepsInv(c, Step(c, s, acts[0]), acts[1..], z);
    }
  }

  /** The cycles of a run that went ahead although the count had failed. */
  function Uncounted(acts: seq<Action>): nat {
    if acts == [] then 0 else Uncounted(acts[1..]) + if acts[0].BeginUncounted? then 1 else 0
  }

  /** The updates of a run that put a question back to ready. */
  function Requeues(c: Config, s: State, acts: seq<Action>, z: State): nat
    requires Leads(c, s, acts, z)
    decreases |acts|
  {
    if acts == [] then 0
    else
      var a, more := acts[0], Requeues(c, Step(c, s, acts[0]), acts[1..], z);
      if a.Update? && a.status == "ready" && s.rows[a.id - 1].status != "ready" then more + 1 else more
  }

  lemma {:induction false} HistoryCounts(c: Config, s: State, acts: seq<Action>, z: State)
    requires Leads(c, s, acts, z)
    ensures z.failedCounts == s.failedCounts + Uncounted(acts)
    ensures z.requeued == s.requeued + Requeues(c, s, acts, z)
    decreases |acts|
  {
    if acts != [] {
      HistoryCounts(c, Step(c, s, acts[0]), acts[1..], z);
    }
  }

  /** Backpressure: whatever the interleaving, the ready queue never exceeds
    cap - 1 + b, except by one cycle's worth for each count that failed and by
    one for each update that put a question back to ready. */
  lemma {:induction false} ReadyQueueBound(c: Config, s: State, acts: seq<Action>, z: State)
    requires c.cap > 0 && Init(s) && Leads(c, s, acts, z)
    ensures CountOf(z.rows, "ready") <= c.cap - 1 + c.b + c.b * Uncounted(acts) + Requeues(c, s, acts, z)
  {
    LeadsKeepsInv(c, s, acts, z);
    HistoryCounts(c, s, acts, z);
    SlackIs(c, z.failedCounts);
  }

  function Successes(acts: seq<Action>): nat {
    if acts == [] then 0 else (if acts[0].Insert? && acts[0].ok then 1 else 0) + Successes(acts[1..])
  }

  lemma {:induction false} InsertsCounted(c: Config, s: State, acts: seq<Action>, z: State)
    requires Leads(c, s, acts, z)
    ensures z.inserted == s.inserted + Successes(acts)
    decreases |acts|
  {
    if acts != [] {
      InsertsCounted(c, Step(c, s, acts[0]), acts[1..], z);
    }
  }

  /** No question is lost or duplicated: at every moment the five status counts
    add up to the number of successful inserts. */
  lemma {:induction false} Conservation(c: Config, s: State, acts: seq<Action>, z: State)
    requires c.cap > 0 && Init(s) && Leads(c, s, acts, z)
    ensures CountOf(z.rows, "ready") + CountOf(z.rows, "sent") + CountOf(z.rows, "answered")
            + CountOf(z.rows, "skipped") + CountOf(z.rows, "discarded") == Successes(acts)
  {
    LeadsKeepsInv(c, s, acts, z);
    InsertsCounted(c, s, acts, z);
    CountsSum(z.rows);
  }

  /** A larger bound on survivors admits the same run. */
  lemma {:induction false} LeadsWider(c: Config, d: Config, s: State, acts: seq<Action>, z: State)
    requires Leads(c, s, acts, z) && d.cap == c.cap && d.b >= c.b
    ensures Leads(d, s, acts, z)
    decreases |acts|
  {
    if acts != [] {
      LeadsWider(c, d, Step(c, s, acts[0]), acts[1..], z);
    }
  }

  // ----- the bound is met -----

  lemma {:induction false} LeadsJoin(c: Config, s: State, acts1: seq<Action>, y: State, acts2: seq<Action>, z: State)
    requires Leads(c, s, acts1, y) && Leads(c, y, acts2, z)
    ensures Leads(c, s, acts1 + acts2, z)
    decreases |acts1|
  {
    if acts1 == [] {
      assert acts1 + acts2 == acts2;
    } else {
      assert (acts1 + acts2)[1..] == acts1[1..] + acts2;
      LeadsJoin(c, Step(c, s, acts1[0]), acts1[1..], y, acts2, z);
    }
  }

  /** The rest of a cycle whose inserts all succeed. */
  lemma {:induction false} InsertAll(c: Config, s: State, q: Question) returns (acts: seq<Action>, z: State)
    ensures Leads(c, s, acts, z) && z.left == 0 && ReadyCount(z) == ReadyCount(s) + s.left
    ensures z.failedCounts == s.failedCounts && z.requeued == s.requeued
    decreases s.left
  {
    acts, z := [], s;
    if s.left > 0 {
      var a := Insert(q, true);
      CountAppend(s.rows, Fresh(q, |s.rows| + 1), "ready");
      acts, z := InsertAll(c, Step(c, s, a), q);
      assert ([a] + acts)[1..] == acts;
      acts := [a] + acts;
    }
  }

  lemma {:induction false} OneCycle(c: Config, s: State, n: nat, q: Question) returns (acts: seq<Action>, z: State)
    requires s.left == 0 && n <= c.b && ReadyCount(s) < c.cap
    ensures Leads(c, s, acts, z) && z.left == 0 && ReadyCount(z) == ReadyCount(s) + n
    ensures z.failedCounts == s.failedCounts && z.requeued == s.requeued
  {
    acts, z := InsertAll(c, Step(c, s, Begin(n)), q);
    assert ([Begin(n)] + acts)[1..] == acts;
    acts := [Begin(n)] + acts;
  }

  lemma {:induction false} FillTo(c: Config, s: State, n: nat, q: Question) returns (acts: seq<Action>, z: State)
    requires s.left == 0 && c.b > 0 && ReadyCount(s) <= n < c.cap
    ensures Leads(c, s, acts, z) && z.left == 0 && ReadyCount(z) == n
    ensures z.failedCounts == s.failedCounts && z.requeued == s.requeued
    decreases n - ReadyCount(s)
  {
    acts, z := [], s;
    if ReadyCount(s) < n {
      var first, y := OneCycle(c, s, 1, q);
      var rest, end := FillTo(c, y, n, q);
      LeadsJoin(c, s, first, y, rest, end);
      acts, z := first + rest, end;
    }
  }

  /** The bound is exact: with no failed count and no requeue it is reached. */
  lemma {:induction false} BoundIsReached(c: Config, q: Question) returns (s: State, acts: seq<Action>, z: State)
    requires c.cap > 0 && c.b > 0
    ensures Init(s) && Leads(c, s, acts, z) && Uncounted(acts) == 0 && Requeues(c, s, acts, z) == 0
    ensures CountOf(z.rows, "ready") == c.cap - 1 + c.b
  {
    s := State([], 0, 0, 0, 0);
    var fill, y := FillTo(c, s, c.cap - 1, q);
    var last, end := OneCycle(c, y, c.b, q);
    LeadsJoin(c, s, fill, y, last, end);
    acts, z := fill + last, end;
    HistoryCounts(c, s, acts, z);
  }
}
