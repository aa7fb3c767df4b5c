/** The question generator's cursor over whole runs (internal/generate/generate.go,
  internal/sqlitedb/db.go): stored in whole seconds, compared with millisecond
  timestamps, moved past the newest row of queries that LIMIT bounds. The event
  table is fixed and the one-month window is left out. */
module GenerationCursor {

  /** captured_at, in ms since 1970, of each decision-bearing event. */
  type Table = map<string, int>

  /** The rows of "captured_at > cursor ORDER BY captured_at ASC LIMIT limit":
    rows with equal timestamps come in any order, and any of them may be cut off. */
  ghost predicate IsBatch(t: Table, cursor: int, limit: nat, b: seq<string>) {
    && |b| <= limit
    && (forall i :: 0 <= i < |b| ==> b[i] in t && t[b[i]] > 1000 * cursor)
    && (forall i, j :: 0 <= i < j < |b| ==> b[i] != b[j] && t[b[i]] <= t[b[j]])
    && (forall e :: e in t && t[e] > 1000 * cursor && e !in b ==>
          |b| == limit && forall i :: 0 <= i < |b| ==> t[b[i]] <= t[e])
  }

  /** One cycle of Run: the cursor it read, the rows it got, whether it got as
    far as a cursor update that succeeded, and the cursor it left. */
  datatype Cycle = Cycle(before: int, batch: seq<string>, updated: bool, after: int)

  function Last(b: seq<string>): string
    requires b != []
  {
    b[|b| - 1]
  }

  /** An update stores the whole seconds of the newest row. */
  ghost predicate CycleOk(t: Table, limit: nat, c: Cycle) {
    && IsBatch(t, c.before, limit, c.batch)
    && (c.updated ==> c.batch != [] && c.after == t[Last(c.batch)] / 1000)
    && (!c.updated ==> c.after == c.before)
  }

  ghost predicate RunOk(t: Table, limit: nat, run: seq<Cycle>) {
    && (forall k :: 0 <= k < |run| ==> CycleOk(t, limit, run[k]))
    && (forall k, m :: 0 <= k && m == k + 1 && m < |run| ==> run[k].after == run[m].before)
  }

  /** The cursor before cycle k, and after the last one. */
  function CursorAt(run: seq<Cycle>, k: nat): int
    requires run != [] && k <= |run|
  {
    if k < |run| then run[k].before else run[k - 1].after
  }

  predicate Queried(run: seq<Cycle>, e: string) {
    exists k :: 0 <= k < |run| && e in run[k].batch
  }

  lemma {:induction false} CycleNeverDecreases(t: Table, limit: nat, c: Cycle)
    requires CycleOk(t, limit, c)
    ensures c.before <= c.after
  {
    if c.updated {
      assert t[Last(c.batch)] > 1000 * c.before;
    }
  }

  lemma OneMoreCycle(t: Table, limit: nat, run: seq<Cycle>, c: Cycle)
    requires RunOk(t, limit, run) && CycleOk(t, limit, c) && (run != [] ==> run[|run| - 1].after == c.before)
    ensures RunOk(t, limit, run + [c])
  {
    var next := run + [c];
    forall k, m | 0 <= k && m == k + 1 && m < |next| ensures next[k].after == next[m].before {
      if m < |run| {
        assert run[k].after == run[m].before;
      }
    }
  }

  /** The stored cursor never decreases. */
  lemma {:induction false} CursorNeverDecreases(t: Table, limit: nat, run: seq<Cycle>, j: nat, k: nat)
    requires run != [] && RunOk(t, limit, run) && j <= k <= |run|
    ensures CursorAt(run, j) <= CursorAt(run, k)
    decreases k - j
  {
    if j < k {
      CursorNeverDecreases(t, limit, run, j, k - 1);
      CycleNeverDecreases(t, limit, run[k - 1]);
      if k < |run| {
        assert run[k - 1].after == run[k].before;
      }
    }
  }

  /** LIMIT cut e off a tie that sits exactly on the second the cycle stored. */
  ghost predicate CutTie(t: Table, limit: nat, c: Cycle, e: string) {
    && c.updated && c.batch != [] && Last(c.batch) in t && e in t && e !in c.batch
    && |c.batch| == limit && t[e] == t[Last(c.batch)] == 1000 * c.after
  }

  /** One cycle either queries everything its update passes, or cuts a tie. */
  lemma {:induction false} CycleCovers(t: Table, limit: nat, c: Cycle, e: string)
    requires CycleOk(t, limit, c) && e in t && 1000 * c.before < t[e] <= 1000 * c.after
    ensures e in c.batch <==> !CutTie(t, limit, c, e)
  {
    if e !in c.batch {
      assert t[Last(c.batch)] <= t[e];
    }
  }

  lemma {:induction false} FindPassing(t: Table, limit: nat, run: seq<Cycle>, ts: int) returns (k: nat)
    requires run != [] && RunOk(t, limit, run) && 1000 * CursorAt(run, 0) < ts <= 1000 * CursorAt(run, |run|)
    ensures k < |run| && 1000 * run[k].before < ts <= 1000 * run[k].after
  {
    k := 0;
    while ts > 1000 * run[k].after
      invariant k < |run| && 1000 * run[k].before < ts
      decreases |run| - k
    {
      assert k + 1 < |run| ==> run[k].after == run[k + 1].before;
      k := k + 1;
    }
  }

  /** An event the cursor has passed was never queried exactly when some cycle cut
    it off a tie on a whole second and no earlier cycle had queried it. */
  lemma {:induction false} PassedEventsWereQueried(t: Table, limit: nat, run: seq<Cycle>, e: string)
    requires run != [] && RunOk(t, limit, run)
    requires e in t && 1000 * CursorAt(run, 0) < t[e] <= 1000 * CursorAt(run, |run|)
    ensures !Queried(run, e) <==>
            exists k :: 0 <= k < |run| && CutTie(t, limit, run[k], e) && !Queried(run[..k], e)
  {
    if !Queried(run, e) {
      var k := FindPassing(t, limit, run, t[e]);
      CycleCovers(t, limit, run[k], e);
      assert e !in run[k].batch;
      assert forall j :: 0 <= j < k ==> run[..k][j] == run[j];
    }
    if k :| 0 <= k < |run| && CutTie(t, limit, run[k], e) && !Queried(run[..k], e) {
      forall j | 0 <= j < |run| ensures e !in run[j].batch {
        if j < k {
          assert run[..k][j] == run[j];
        } else if j > k {
          NotBelow(t, limit, run, k, j, e);
        }
      }
    }
  }

  /** Once the cursor has reached an event, no later cycle queries it. */
  lemma {:induction false} NotBelow(t: Table, limit: nat, run: seq<Cycle>, k: nat, j: nat, e: string)
    requires run != [] && RunOk(t, limit, run) && k < j < |run|
    requires e in t && t[e] <= 1000 * run[k].after
    ensures e !in run[j].batch
  {
    assert run[k].after == run[k + 1].before;
    CursorNeverDecreases(t, limit, run, k + 1, j);
    if i :| 0 <= i < |run[j].batch| && run[j].batch[i] == e {
      assert false;
    }
  }

  /** Where no two events share a timestamp on a whole second, none is missed. */
  lemma {:induction false} NoTiesNoneMissed(t: Table, limit: nat, run: seq<Cycle>, e: string)
    requires run != [] && RunOk(t, limit, run)
    requires e in t && 1000 * CursorAt(run, 0) < t[e] <= 1000 * CursorAt(run, |run|)
    requires forall x :: x in t && x != e ==> t[x] != t[e] || t[e] % 1000 != 0
    ensures Queried(run, e)
  {
    PassedEventsWereQueried(t, limit, run, e);
    if k :| 0 <= k < |run| && CutTie(t, limit, run[k], e) {
      assert Last(run[k].batch) in run[k].batch;
    }
  }

  /** ... and where two do, a LIMIT of one misses the other for good. */
  lemma {:induction false} CutTieMisses(second: int, a: string, b: string) returns (t: Table, run: seq<Cycle>)
    requires a != b && second > 0
    ensures t == map[a := 1000 * second, b := 1000 * second] && RunOk(t, 1, run) && run != []
    ensures CursorAt(run, 0) == 0 && CursorAt(run, |run|) == second && !Queried(run, b)
  {
    t := map[a := 1000 * second, b := 1000 * second];
    run := [Cycle(0, [a], true, second)];
    assert IsBatch(t, 0, 1, [a]);
  }

  /** An event queried again after a cursor update lies in the last second
    reached, and the cursor has not moved since. */
  lemma {:induction false} RequeriedOnlyInLastSecond(t: Table, limit: nat, run: seq<Cycle>, k: nat, j: nat, e: string)
    requires run != [] && RunOk(t, limit, run) && k < j < |run|
    requires e in run[k].batch && run[k].updated && e in run[j].batch
    ensures t[e] / 1000 == run[k].after == run[j].before && t[e] % 1000 != 0
  {
    var i :| 0 <= i < |run[k].batch| && run[k].batch[i] == e;
    assert t[e] <= t[Last(run[k].batch)];
    var h :| 0 <= h < |run[j].batch| && run[j].batch[h] == e;
    assert t[e] > 1000 * run[j].before;
    assert run[k].after == run[k + 1].before;
    CursorNeverDecreases(t, limit, run, k + 1, j);
  }

  // ----- when the cursor stands still -----

  /** Events strictly inside the second the cursor names. */
  function Inside(t: Table, cursor: int): set<string> {
    set e | e in t && 1000 * cursor < t[e] < 1000 * cursor + 1000
  }

  predicate SomeBeyond(t: Table, cursor: int) {
    exists e :: e in t && t[e] >= 1000 * cursor + 1000
  }

  lemma {:induction false} DistinctCount(b: seq<string>)
    requires forall i, j :: 0 <= i < j < |b| ==> b[i] != b[j]
    ensures |set x | x in b| == |b|
  {
    if b != [] {
      var p := b[..|b| - 1];
      DistinctCount(p);
      assert b == p + [b[|b| - 1]];
      assert (set x | x in b) == (set x | x in p) + {b[|b| - 1]};
    }
  }

  lemma {:induction false} CountBelow(small: set<string>, big: set<string>)
    requires small <= big
    ensures |small| <= |big| && (small != big ==> |small| < |big|)
  {
    assert big == small + (big - small);
    assert small != big ==> big - small != {};
  }

  /** A successful update leaves the cursor where it was exactly when its second
    holds at least LIMIT events, or nothing lies beyond that second. */
  lemma {:induction false} StandsStillExactly(t: Table, limit: nat, c: Cycle)
    requires CycleOk(t, limit, c) && c.updated
    ensures c.after == c.before <==> |Inside(t, c.before)| >= limit || !SomeBeyond(t, c.before)
  {
    var got := set x | x in c.batch;
    DistinctCount(c.batch);
    var last := Last(c.batch);
    if c.after == c.before {
      forall x | x in c.batch ensures x in Inside(t, c.before) {
        var i :| 0 <= i < |c.batch| && c.batch[i] == x;
        assert t[x] <= t[last];
      }
      CountBelow(got, Inside(t, c.before));
      if e :| e in t && t[e] >= 1000 * c.before + 1000 {
        assert e !in c.batch;
      }
    } else {
      assert t[last] >= 1000 * c.before + 1000;
      forall e | e in Inside(t, c.before) ensures e in got - {last} {
        assert !(t[last] <= t[e]);
      }
      assert last in got;
      CountBelow(Inside(t, c.before), got - {last});
      CountBelow(got - {last}, got);
    }
  }

  /** With LIMIT events or more inside one second the generator never gets past it. */
  lemma {:induction false} StuckForever(t: Table, limit: nat, run: seq<Cycle>, k: nat)
    requires run != [] && RunOk(t, limit, run) && k <= |run|
    requires |Inside(t, CursorAt(run, 0))| >= limit
    ensures CursorAt(run, k) == CursorAt(run, 0)
  {
    if k > 0 {
      StuckForever(t, limit, run, k - 1);
      assert CycleOk(t, limit, run[k - 1]);
      if run[k - 1].updated {
        StandsStillExactly(t, limit, run[k - 1]);
      }
      if k < |run| {
        assert run[k - 1].after == run[k].before;
      }
    }
  }

  /** Otherwise every successful update moves on until nothing is left beyond. */
  lemma {:induction false} MovesOn(t: Table, limit: nat, c: Cycle)
    requires CycleOk(t, limit, c) && c.updated && |Inside(t, c.before)| < limit && SomeBeyond(t, c.before)
    ensures c.after > c.before
  {
    StandsStillExactly(t, limit, c);
    CycleNeverDecreases(t, limit, c);
  }
}
