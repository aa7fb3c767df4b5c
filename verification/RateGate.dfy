/** The denoise rate cap (internal/process/process.go): consecutive starts are
  held an interval apart. Times are nanoseconds of a clock that never runs back. */
module RateGate {
  import opened Lines

  const MINUTE := 60_000_000_000

  /** time.Minute / n, which truncates; zero switches the gate off. */
  function Interval(maxCallsPerMinute: int): (i: int)
    ensures i >= 0
  {
    if maxCallsPerMinute > 0 then MINUTE / maxCallsPerMinute else 0
  }

  predicate Spaced(starts: seq<int>, interval: int) {
    forall i :: 0 < i < |starts| ==> starts[i - 1] + interval <= starts[i]
  }

  /** When a call made at `now` starts, given the start before it: at once, or when
    the rest of the interval is over and the timer has fired, `late` or not. */
  function StartAt(interval: int, last: Option<int>, now: int, late: int): (t: int)
    ensures t >= now
  {
    if interval <= 0 || last.None? || now >= last.value + interval then now
    else last.value + interval + if late > 0 then late else 0
  }

  /** daemon's denoiseInterval and lastDenoise; lastDenoise is None before the
    first start, when the zero time is longer ago than any interval. With the gate
    off, lastDenoise is not kept. */
  class Gate {
    const interval: int
    var lastDenoise: Option<int>
    var now: int
    ghost var starts: seq<int>

    ghost predicate Valid() reads this {
      && Spaced(starts, interval) && interval >= 0
      && (starts != [] ==> starts[|starts| - 1] <= now)
      && (interval > 0 ==> lastDenoise == LastOf(starts))
    }

    constructor (maxCallsPerMinute: int, now: int)
      ensures Valid() && starts == [] && interval == Interval(maxCallsPerMinute) && this.now == now
    {
      interval := Interval(maxCallsPerMinute);
      lastDenoise, starts := None, [];
      this.now := now;
    }

    /** Time passes, by `elapsed` or not at all. */
    method Sleep(elapsed: int)
      modifies this`now
      ensures now == old(now) + if elapsed > 0 then elapsed else 0
    {
      if elapsed > 0 {
        now := now + elapsed;
      }
    }

    /** Waits out the rest of the interval unless the context ends first; `late` is
      what the timer adds. A call that returns true starts one denoise, now. */
    method ThrottleDenoise(cancelled: bool, late: int) returns (ok: bool)
      requires Valid()
      modifies this`now, this`lastDenoise, this`starts
      ensures Valid() && old(now) <= now
      ensures ok ==> now == StartAt(interval, LastOf(old(starts)), old(now), late) && starts == old(starts) + [now]
      ensures !ok ==> cancelled && now == old(now) && starts == old(starts) && lastDenoise == old(lastDenoise)
      // Nothing is due before the first start, or once the interval since the last
      // one is over; otherwise the call waits for that, and for the timer.
      ensures var rest := if old(starts) == [] then 0 else old(starts)[|old(starts)| - 1] + interval - old(now);
              && (ok <==> rest <= 0 || interval == 0 || !cancelled)
              && (ok && (rest <= 0 || interval == 0) ==> now == old(now))
              && (ok && rest > 0 && interval > 0 ==> now == old(now) + rest + if late >= 0 then late else 0)
      ensures interval == 0 ==> lastDenoise == old(lastDenoise)
    {
      if interval <= 0 {
        starts := starts + [now];
        return true;
      }
      if lastDenoise.Some? {
        var wait := interval - (now - lastDenoise.value);
        if wait > 0 {
          if cancelled {
            return false;
          }
          now := now + wait;
          Sleep(late);
        }
      }
      lastDenoise := Some(now);
      starts := starts + [now];
      ok := true;
    }
  }

  function LastOf(starts: seq<int>): Option<int> {
    if starts == [] then None else Some(starts[|starts| - 1])
  }

  // ----- whole runs of the gate -----

  /** A call of ThrottleDenoise that was let through: when it was made, or later if
    the call before it was not over, and how late the timer fired. */
  datatype Call = Call(at: int, late: int)

  /** The starts of a run of calls. */
  function Starts(interval: int, calls: seq<Call>): (starts: seq<int>)
    ensures |starts| == |calls|
  {
    if calls == [] then []
    else
      var p, k := Starts(interval, calls[..|calls| - 1]), calls[|calls| - 1];
      var now := if p != [] && k.at < p[|p| - 1] then p[|p| - 1] else k.at;
      p + [StartAt(interval, LastOf(p), now, k.late)]
  }

  lemma {:induction false} StartsAreSpaced(interval: int, calls: seq<Call>)
    requires interval >= 0
    ensures Spaced(Starts(interval, calls), interval)
  {
    if calls != [] {
      StartsAreSpaced(interval, calls[..|calls| - 1]);
    }
  }

  // ----- how many starts a window can hold -----

  /** Starts in the window of one minute from lo. */
  function InWindow(starts: seq<int>, lo: int): nat {
    if starts == [] then 0
    else InWindow(starts[..|starts| - 1], lo) + if lo <= starts[|starts| - 1] < lo + MINUTE then 1 else 0
  }

  /** The starts of a minute at their closest: MINUTE / interval, rounded up. */
  function Most(interval: int): int
    requires interval > 0
  {
    (MINUTE + interval - 1) / interval
  }

  /** The last start in the window is at least (count - 1) intervals into it. */
  lemma {:induction false} LastInWindow(starts: seq<int>, interval: int, lo: int) returns (x: int)
    requires interval > 0 && Spaced(starts, interval)
    ensures InWindow(starts, lo) > 0 ==>
              lo + (InWindow(starts, lo) - 1) * interval <= x < lo + MINUTE && x <= starts[|starts| - 1]
  {
    x := lo;
    if starts != [] {
      var p, last := starts[..|starts| - 1], starts[|starts| - 1];
      x := LastInWindow(p, interval, lo);
      var c := InWindow(p, lo);
      if lo <= last < lo + MINUTE {
        if c > 0 {
          assert p[|p| - 1] + interval <= last;
          OneMore(c, interval);
        }
        x := last;
      } else if c > 0 {
        assert p[|p| - 1] + interval <= last;
      }
    }
  }

  lemma OneMore(c: int, interval: int)
    ensures (c - 1) * interval + interval == c * interval
  {}

  lemma CeilDiv(count: int, interval: int)
    requires interval > 0
    ensures (count - 1) * interval < MINUTE <==> count <= Most(interval)
  {
    var m := Most(interval);
    assert MINUTE <= m * interval < MINUTE + interval;
    if count <= m {
      Below(count - 1, m - 1, interval);
      OneMore(m, interval);
    } else {
      Below(m, count - 1, interval);
    }
  }

  lemma Below(a: int, b: int, k: int)
    requires a <= b && k > 0
    ensures a * k <= b * k
  {}

  lemma {:induction false} SpacedBound(starts: seq<int>, interval: int, lo: int)
    requires interval > 0 && Spaced(starts, interval)
    ensures InWindow(starts, lo) <= Most(interval)
  {
    var x := LastInWindow(starts, interval, lo);
    CeilDiv(InWindow(starts, lo), interval);
    Positive(interval);
  }

  /** No minute holds more than Most(interval) starts, over any run of the gate. */
  lemma {:induction false} WindowBound(calls: seq<Call>, interval: int, lo: int)
    requires interval > 0
    ensures InWindow(Starts(interval, calls), lo) <= Most(interval)
  {
    StartsAreSpaced(interval, calls);
    SpacedBound(Starts(interval, calls), interval, lo);
  }

  lemma Positive(interval: int)
    requires interval > 0
    ensures Most(interval) >= 0
  {}

  /** k calls back to back from lo, none of them late. */
  function BackToBack(k: nat, lo: int): (calls: seq<Call>)
    ensures |calls| == k
  {
    if k == 0 then [] else BackToBack(k - 1, lo) + [Call(lo, 0)]
  }

  /** When the k-th of them starts. */
  function EvenStart(k: nat, interval: int, lo: int): int { lo + (k - 1) * interval }

  lemma {:induction false} BackToBackStep(k: nat, interval: int, lo: int)
    requires interval > 0 && k > 0
    requires k > 1 ==> LastOf(Starts(interval, BackToBack(k - 1, lo))) == Some(EvenStart(k - 1, interval, lo))
    ensures Starts(interval, BackToBack(k, lo))
            == Starts(interval, BackToBack(k - 1, lo)) + [EvenStart(k, interval, lo)]
  {
    assert BackToBack(k, lo)[..k - 1] == BackToBack(k - 1, lo);
    if k > 1 {
      Below(0, k - 2, interval);
      OneMore(k - 1, interval);
    }
  }

  /** They start one every interval. */
  lemma {:induction false} BackToBackStarts(k: nat, interval: int, lo: int)
    requires interval > 0 && k > 0
    ensures Starts(interval, BackToBack(k, lo))
            == Starts(interval, BackToBack(k - 1, lo)) + [EvenStart(k, interval, lo)]
  {
    if k > 1 {
      BackToBackStarts(k - 1, interval, lo);
    }
    BackToBackStep(k, interval, lo);
  }

  lemma {:induction false} BackToBackFit(k: nat, interval: int, lo: int)
    requires interval > 0 && (k - 1) * interval < MINUTE
    ensures InWindow(Starts(interval, BackToBack(k, lo)), lo) == k
  {
    if k > 0 {
      Below(k - 2, k - 1, interval);
      Below(0, k - 1, interval);
      BackToBackFit(k - 1, interval, lo);
      BackToBackStarts(k, interval, lo);
      var s := Starts(interval, BackToBack(k, lo));
      assert s[..k - 1] == Starts(interval, BackToBack(k - 1, lo));
      assert s[k - 1] == EvenStart(k, interval, lo);
    }
  }

  /** ... and calls made back to back reach that number. */
  lemma {:induction false} WindowBoundIsReached(interval: int, lo: int) returns (calls: seq<Call>)
    requires interval > 0
    ensures InWindow(Starts(interval, calls), lo) == Most(interval)
  {
    Positive(interval);
    CeilDiv(Most(interval), interval);
    calls := BackToBack(Most(interval), lo);
    BackToBackFit(Most(interval), interval, lo);
  }

  ghost predicate AlwaysWithin(interval: int, limit: int) {
    forall calls: seq<Call>, lo: int :: InWindow(Starts(interval, calls), lo) <= limit
  }

  lemma {:induction false} WithinExactly(interval: int, limit: int)
    requires interval > 0
    ensures AlwaysWithin(interval, limit) <==> Most(interval) <= limit
  {
    var calls := WindowBoundIsReached(interval, 0);
    if Most(interval) <= limit {
      forall k: seq<Call>, lo: int ensures InWindow(Starts(interval, k), lo) <= limit {
        WindowBound(k, interval, lo);
      }
    }
    if AlwaysWithin(interval, limit) {
      assert InWindow(Starts(interval, calls), 0) <= limit;
    }
  }

  lemma MostFor(n: int)
    requires 0 < n <= MINUTE
    ensures Interval(n) > 0
    ensures Most(Interval(n)) <= n <==> MINUTE % n == 0
    ensures Most(Interval(n)) <= n + 1 <==> Interval(n) >= MINUTE % n
  {
    var i := MINUTE / n;
    assert MINUTE == n * i + MINUTE % n;
    CeilDiv(n + 1, i);
    assert (n + 1 - 1) * i == n * i;
    CeilDiv(n + 2, i);
    assert (n + 2 - 1) * i == n * i + i;
  }

  /** A cap of n per minute holds in every minute of every run exactly when n
    divides a minute; one start more can fit exactly when the remainder does not
    exceed the interval, and always when n * n is at most a minute. */
  lemma {:induction false} RateCap(n: int)
    requires 0 < n <= MINUTE
    ensures Interval(n) == 60_000_000_000 / n
    ensures AlwaysWithin(Interval(n), n) <==> 60_000_000_000 % n == 0
    ensures AlwaysWithin(Interval(n), n + 1) <==> Interval(n) >= 60_000_000_000 % n
    ensures n * n <= 60_000_000_000 ==> AlwaysWithin(Interval(n), n + 1)
  {
    MostFor(n);
    WithinExactly(Interval(n), n);
    WithinExactly(Interval(n), n + 1);
    if n * n <= MINUTE {
      SquareFits(n);
    }
  }

  lemma SquareFits(n: int)
    requires 0 < n && n * n <= MINUTE
    ensures MINUTE / n >= n > MINUTE % n
  {
    var i := MINUTE / n;
    assert MINUTE == n * i + MINUTE % n;
    if i < n {
      Below(i + 1, n, n);
    }
  }

  /** Above 60,000,000,000 calls per minute the gate is off. */
  lemma GateOff(n: int)
    requires n > 0
    ensures Interval(n) == 0 <==> n > 60_000_000_000
  {
    if n <= MINUTE {
      Below(1, MINUTE / n, 1);
    }
  }
}
