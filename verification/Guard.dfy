/** The crash-loop guard in front of a resumed session
  (internal/clauderun/guard.go). */
module Guard {
  import opened Lines
  import opened Text
  import opened Int64
  import opened Backoff
  import L = Ledger

  // ----- resume flags -----

  predicate IsResumeFlag(a: string) {
    a == "--continue" || a == "-c" || a == "--resume" || "--resume=" <= a
  }

  method WantsResume(args: seq<string>) returns (r: bool)
    ensures r <==> exists a :: a in args && (a in ["--continue", "-c", "--resume"] || "--resume=" <= a)
  {
    var i := 0;
    while i < |args|
      invariant 0 <= i <= |args| && forall j :: 0 <= j < i ==> !IsResumeFlag(args[j])
    {
      if IsResumeFlag(args[i]) {
        assert args[i] in args;
        return true;
      }
      i := i + 1;
    }
    return false;
  }

  /** A session id follows --resume: the next argument, unless it is an option. */
  function Stripped(args: seq<string>): seq<string> {
    if args == [] then []
    else if args[0] == "--continue" || args[0] == "-c" then Stripped(args[1..])
    else if args[0] == "--resume" then
      if |args| > 1 && !("-" <= args[1]) then Stripped(args[2..]) else Stripped(args[1..])
    else if "--resume=" <= args[0] then Stripped(args[1..])
    else [args[0]] + Stripped(args[1..])
  }

  method StripResumeFlags(args: seq<string>) returns (out: seq<string>)
    ensures out == Stripped(args)
  {
    out := [];
    var skipNext := false;
    var i := 0;
    while i < |args|
      invariant 0 <= i <= |args| && (skipNext ==> i < |args|)
      invariant out + Stripped(args[if skipNext then i + 1 else i..]) == Stripped(args)
    {
      ghost var rest := args[i..];
      assert rest[1..] == args[i + 1..];
      if skipNext {
        skipNext := false;
      } else if args[i] == "--continue" || args[i] == "-c" {
      } else if args[i] == "--resume" {
        if i + 1 < |args| && !("-" <= args[i + 1]) {
          assert rest[2..] == args[i + 2..];
          skipNext := true;
        }
      } else if "--resume=" <= args[i] {
      } else {
        Append(out, args[i], Stripped(args[i + 1..]));
        out := out + [args[i]];
      }
      i := i + 1;
    }
  }

  lemma Append(out: seq<string>, a: string, rest: seq<string>)
    ensures (out + [a]) + rest == out + ([a] + rest)
  {}

  /** Whether argument i survives depends on it and the one before it only. */
  predicate Kept(args: seq<string>, i: nat)
    requires i < |args|
  {
    && args[i] !in ["--continue", "-c", "--resume"] && !("--resume=" <= args[i])
    && !(i > 0 && args[i - 1] == "--resume" && !("-" <= args[i]))
  }

  function KeptFrom(args: seq<string>, i: nat): seq<string>
    requires i <= |args|
    decreases |args| - i
  {
    if i == |args| then [] else (if Kept(args, i) then [args[i]] else []) + KeptFrom(args, i + 1)
  }

  lemma {:induction false} StrippedFrom(args: seq<string>, i: nat)
    requires i <= |args|
    requires i > 0 && i < |args| && args[i - 1] == "--resume" ==> "-" <= args[i]
    ensures Stripped(args[i..]) == KeptFrom(args, i)
    decreases |args| - i
  {
    if i < |args| {
      var rest := args[i..];
      assert rest[1..] == args[i + 1..];
      if args[i] == "--resume" && i + 1 < |args| && !("-" <= args[i + 1]) {
        assert rest[2..] == args[i + 2..];
        NotAnOption(args[i + 1]);
        StrippedFrom(args, i + 2);
      } else {
        StrippedFrom(args, i + 1);
      }
    }
  }

  lemma NotAnOption(a: string)
    requires !("-" <= a)
    ensures !IsResumeFlag(a)
  {
    assert "--continue"[0] == '-' && "-c"[0] == '-' && "--resume"[0] == '-' && "--resume="[0] == '-';
  }

  /** The arguments that stay are, in order, those that are neither a resume flag
    nor the session id after one. */
  lemma {:induction false} StripKeepsTheRest(args: seq<string>)
    ensures Stripped(args) == KeptFrom(args, 0)
  {
    assert args[0..] == args;
    StrippedFrom(args, 0);
  }

  /** No resume flag is left, nothing else is lost when there was none, and
    stripping twice is stripping once. */
  lemma {:induction false} StripRemovesResume(args: seq<string>)
    ensures forall a :: a in Stripped(args) ==> !IsResumeFlag(a) && a in args
    ensures Stripped(args) == args <==> !(exists a :: a in args && IsResumeFlag(a))
    ensures Stripped(Stripped(args)) == Stripped(args)
  {
    StripFlags(args);
    if forall a :: a in args ==> !IsResumeFlag(a) {
      StripNothing(args);
    }
    StripNothing(Stripped(args));
  }

  lemma {:induction false} StripFlags(args: seq<string>)
    ensures forall a :: a in Stripped(args) ==> !IsResumeFlag(a) && a in args
  {
    if args != [] {
      StripFlags(args[1..]);
      if |args| > 1 {
        StripFlags(args[2..]);
      }
    }
  }

  lemma {:induction false} StripNothing(args: seq<string>)
    requires forall a :: a in args ==> !IsResumeFlag(a)
    ensures Stripped(args) == args
  {
    if args != [] {
      assert args[0] in args && forall a :: a in args[1..] ==> a in args;
      StripNothing(args[1..]);
      assert args == [args[0]] + args[1..];
    }
  }

  /** --force-continue is taken out wherever it stands, and only that. */
  function WithoutForce(args: seq<string>): (r: seq<string>)
    ensures "--force-continue" !in r
    ensures "--force-continue" !in args ==> r == args
    ensures |r| <= |args| && forall a :: a in r ==> a in args
  {
    if args == [] then []
    else
      var p := WithoutForce(args[..|args| - 1]);
      if args[|args| - 1] == "--force-continue" then p else p + [args[|args| - 1]]
  }

  method ParseForceContinue(args: seq<string>) returns (force: bool, rest: seq<string>)
    ensures force <==> "--force-continue" in args
    ensures rest == WithoutForce(args)
  {
    force, rest := false, [];
    var i := 0;
    while i < |args|
      invariant 0 <= i <= |args| && rest == WithoutForce(args[..i]) && (force <==> "--force-continue" in args[..i])
    {
      assert args[..i + 1][..i] == args[..i];
      if args[i] == "--force-continue" {
        force := true;
      } else {
        rest := rest + [args[i]];
      }
      i := i + 1;
    }
    assert args[..i] == args;
  }

  // ----- settings -----

  datatype Settings = Settings(enabled: bool, threshold: int, mode: string, base: int, cap: int, jitter: Float)

  /** As configured; durations in seconds. */
  datatype Config = Config(
    threshold: int, onCrashLoop: string, baseSeconds: Float, capSeconds: Float, jitter: Float)

  function Lower(s: string): (r: string)
    ensures |r| == |s|
  {
    if s == "" then ""
    else [if 'A' <= s[0] <= 'Z' then (s[0] as int + 32) as char else s[0]] + Lower(s[1..])
  }

  predicate IsMode(m: string) {
    m in ["warn", "backoff", "prompt", "fresh", "block"]
  }

  /** time.Duration of a number of seconds. */
  function Nanoseconds(seconds: Float, beyond: Float -> Word): Word {
    ToInt64(Times(seconds, 1_000_000_000.0), beyond)
  }

  /** Whatever is configured, NaN and infinities included, the resolved settings are
    usable: positive durations that fit an int64, and a jitter that is positive or
    NaN, which adds nothing. `beyond` converts floats that no int64 holds. */
  function ResolveGuard(g: Config, beyond: Float -> Word): (s: Settings)
    ensures s.enabled <==> g.threshold >= 0
    ensures s.enabled ==> s.threshold >= 1
    ensures IsMode(s.mode) && 0 < s.base < TWO_63 && 0 < s.cap < TWO_63
    ensures Positive(s.jitter) || s.jitter.NaN?
    ensures g.threshold > 0 ==> s.threshold == g.threshold
  {
    var mode := Lower(TrimBlanks(g.onCrashLoop));
    var base, cap := Nanoseconds(g.baseSeconds, beyond), Nanoseconds(g.capSeconds, beyond);
    Settings(
      g.threshold >= 0,
      if g.threshold == 0 then 2 else g.threshold,
      if IsMode(mode) then mode else "warn",
      if base <= 0 then 5 * SECOND else base,
      if cap <= 0 then 120 * SECOND else cap,
      if AtMostZero(g.jitter) then Finite(0.5) else g.jitter)
  }

  lemma {:induction false} LowerSays(s: string)
    ensures |Lower(s)| == |s|
    ensures forall i :: 0 <= i < |s| ==>
              Lower(s)[i] as int == if 65 <= s[i] as int <= 90 then s[i] as int + 32 else s[i] as int
  {
    if s != "" {
      LowerSays(s[1..]);
      forall i | 0 <= i < |s|
        ensures Lower(s)[i] as int == if 65 <= s[i] as int <= 90 then s[i] as int + 32 else s[i] as int
      {
        if i > 0 {
          assert Lower(s)[i] == Lower(s[1..])[i - 1];
        }
      }
    }
  }

  /** A duration of whole nanoseconds that is configured, or else the default. */
  predicate Configured(seconds: Float, fallback: int, duration: int) {
    seconds.Finite? ==>
      var n := seconds.r * 1_000_000_000.0;
      && (1.0 <= n < 9_223_372_036_854_775_808.0 ==> duration as real <= n < (duration + 1) as real)
      && (-9_223_372_036_854_775_808.0 <= n < 1.0 ==> duration == fallback)
  }

  /** The settings as configured, and the default for each that is not: threshold 2,
    mode "warn", base 5 s, cap 120 s, jitter 0.5. */
  lemma {:induction false} ResolvedSays(g: Config, beyond: Float -> Word)
    ensures var s := ResolveGuard(g, beyond);
            && (g.threshold == 0 ==> s.threshold == 2) && (g.threshold != 0 ==> s.threshold == g.threshold)
            && (s.enabled <==> g.threshold >= 0)
            && (var mode := Lower(TrimBlanks(g.onCrashLoop));
                s.mode == if mode in ["backoff", "block", "fresh", "prompt"] then mode else "warn")
            && Configured(g.baseSeconds, 5_000_000_000, s.base)
            && Configured(g.capSeconds, 120_000_000_000, s.cap)
            && (g.jitter.Finite? ==> s.jitter == Finite(if g.jitter.r > 0.0 then g.jitter.r else 0.5))
            && (g.jitter.NegInf? ==> s.jitter == Finite(0.5))
            && (g.jitter.NaN? || g.jitter.PosInf? ==> s.jitter == g.jitter)
  {
    ConfiguredSays(g.baseSeconds, 5_000_000_000, beyond);
    ConfiguredSays(g.capSeconds, 120_000_000_000, beyond);
  }

  lemma {:induction false} ConfiguredSays(seconds: Float, fallback: int, beyond: Float -> Word)
    ensures var n := Nanoseconds(seconds, beyond); Configured(seconds, fallback, if n <= 0 then fallback else n)
  {
    if seconds.Finite? {
      var n := seconds.r * 1_000_000_000.0;
      assert Times(seconds, 1_000_000_000.0) == Finite(n);
      if 0.0 <= n < 9_223_372_036_854_775_808.0 {
        assert Truncated(n) == n.Floor;
        assert n.Floor as real <= n < (n.Floor + 1) as real;
      } else if -9_223_372_036_854_775_808.0 <= n < 0.0 {
        assert Truncated(n) == -((-n).Floor);
        assert -9_223_372_036_854_775_808 <= Truncated(n) <= 0;
      }
    }
  }

  // ----- the guard -----

  /** Standard input, and the random number backoff draws. */
  datatype Terminal = Terminal(isTty: bool, answer: string, u: real)

  /** Whether to launch, with which arguments, and the duration it was told to sleep
    first; a negative one is no wait. */
  datatype Decision = Decision(proceed: bool, args: seq<string>, slept: int)

  predicate SaysYes(t: Terminal) {
    t.isTty && Lower(TrimBlanks(t.answer)) in ["y", "yes"]
  }

  method GuardResume(s: Settings, ledger: L.Ledger, cwd: string, args: seq<string>, t: Terminal,
                     beyond: Float -> Word)
    returns (d: Decision)
    requires IsMode(s.mode)
    ensures d == Decided(s, L.Streak(L.Recent(ledger.c, Records(ledger.text), cwd)), args, t, beyond)
  {
    if !s.enabled {
      return Decision(true, args, 0);
    }
    var streak := ledger.AbnormalStreak(cwd);
    if streak < s.threshold {
      return Decision(true, args, 0);
    }
    if s.mode == "backoff" {
      var delay := JitteredBackoff(streak, s.base, s.cap, s.jitter, t.u, beyond);
      return Decision(true, args, delay);
    } else if s.mode == "prompt" {
      if !t.isTty {
        return Decision(false, args, 0);
      }
      var answer := Lower(TrimBlanks(t.answer));
      return Decision(answer == "y" || answer == "yes", args, 0);
    } else if s.mode == "fresh" {
      var stripped := StripResumeFlags(args);
      return Decision(true, stripped, 0);
    } else if s.mode == "block" {
      return Decision(false, args, 0);
    }
    return Decision(true, args, 0);
  }

  predicate Trips(s: Settings, streak: nat) {
    s.enabled && streak >= s.threshold
  }

  function Decided(s: Settings, streak: nat, args: seq<string>, t: Terminal, beyond: Float -> Word): Decision
    requires IsMode(s.mode)
  {
    if !Trips(s, streak) then Decision(true, args, 0)
    else
      match s.mode
      case "backoff" => Decision(true, args, JitteredBackoff(streak, s.base, s.cap, s.jitter, t.u, beyond))
      case "prompt" => Decision(SaysYes(t), args, 0)
      case "fresh" => Decision(true, Stripped(args), 0)
      case "block" => Decision(false, args, 0)
      case _ => Decision(true, args, 0)
  }

  /** With resolved settings the guard trips exactly when it is enabled and the
    last `threshold` records kept for the directory exist and are all abnormal. */
  lemma {:induction false} TripsExactly(g: Config, beyond: Float -> Word, c: L.Codec, lines: seq<string>, cwd: string)
    ensures var s := ResolveGuard(g, beyond);
            var recs := L.Recent(c, lines, cwd);
            Trips(s, L.Streak(recs)) <==>
            && g.threshold >= 0
            && |recs| >= s.threshold
            && forall i :: |recs| - s.threshold <= i < |recs| ==> L.Abnormal(recs[i])
  {
    var s := ResolveGuard(g, beyond);
    if s.enabled {
      L.StreakReaches(L.Recent(c, lines, cwd), s.threshold);
    }
  }

  /** Over any run of appends and prunes, failed and torn writes included, the guard
    trips on what is left of the ledger exactly when it would on everything ever
    written and at least `threshold` of its records are kept. */
  lemma {:induction false} TripsOverRuns(g: Config, beyond: Float -> Word, c: L.Codec, ks: seq<L.Call>, cwd: string)
    requires forall k :: k in ks ==> L.Plain(c.encode(k.rec))
    ensures var s := ResolveGuard(g, beyond);
            var kept := L.Recent(c, Records(L.AfterCalls(c, "", ks)), cwd);
            Trips(s, L.Streak(kept))
            <==> Trips(s, L.Streak(L.Recent(c, L.Seen(c, ks), cwd))) && |kept| >= s.threshold
  {
    L.StreakOverRuns(c, ks, cwd);
    L.StreakReaches(L.Recent(c, Records(L.AfterCalls(c, "", ks)), cwd), 0);
  }

  /** What is decided, by mode: nothing stops a launch below the threshold; then
    "prompt" asks, "fresh" drops the resume flags, "block" refuses, and all others
    launch as asked, "backoff" after a wait. */
  lemma {:induction false} DecisionSays(s: Settings, streak: nat, args: seq<string>, t: Terminal, beyond: Float -> Word)
    requires IsMode(s.mode)
    ensures var d := Decided(s, streak, args, t, beyond);
            var yes := t.isTty && Lower(TrimBlanks(t.answer)) in ["y", "yes"];
            if !s.enabled || streak < s.threshold || s.mode == "warn" then d == Decision(true, args, 0)
            else if s.mode == "prompt" then d == Decision(yes, args, 0)
            else if s.mode == "fresh" then d == Decision(true, KeptFrom(args, 0), 0)
            else if s.mode == "block" then d == Decision(false, args, 0)
            else s.mode == "backoff" && d.proceed && d.args == args
                 && d.slept == JitteredBackoff(streak, s.base, s.cap, s.jitter, t.u, beyond)
  {
    StripKeepsTheRest(args);
  }

  /** The wait is an int64 whatever is drawn. */
  predicate Roomy(delay: int, jitter: Float) {
    jitter.NaN? || (jitter.Finite? && RoomFor(delay, jitter.r))
  }

  /** What a tripped guard allows: a session is resumed only when warned about,
    after a wait, or on a yes typed at a terminal; "fresh" launches without any
    resume flag, and nothing is launched otherwise. Only backoff sleeps, for a
    positive time within the jittered cap where there is room for the jitter. */
  lemma {:induction false} TrippedGuard(s: Settings, streak: nat, args: seq<string>, t: Terminal, beyond: Float -> Word)
    requires IsMode(s.mode) && Trips(s, streak) && 0 < s.base < TWO_63 && 0 < s.cap < TWO_63
    requires Positive(s.jitter) || s.jitter.NaN?
    requires 0.0 <= t.u < 1.0 && exists a :: a in args && IsResumeFlag(a)
    ensures var d := Decided(s, streak, args, t, beyond);
            && (d.proceed && (exists a :: a in d.args && IsResumeFlag(a)) <==>
                  s.mode == "warn" || s.mode == "backoff" || (s.mode == "prompt" && SaysYes(t)))
            && (d.proceed && !(exists a :: a in d.args && IsResumeFlag(a)) <==> s.mode == "fresh")
            && (s.mode != "backoff" ==> d.slept == 0)
            && (s.mode == "backoff" && Roomy(Delay(streak, s.base, s.cap), s.jitter) ==>
                  0 < d.slept && (s.jitter.Finite? ==> d.slept as real < (s.cap as real) * (1.0 + s.jitter.r))
                  && (s.jitter.NaN? ==> d.slept <= s.cap))
  {
    StripRemovesResume(args);
    if s.mode == "backoff" && Roomy(Delay(streak, s.base, s.cap), s.jitter) {
      BackoffIsBounded(s, streak, t.u, beyond);
    }
  }

  lemma {:induction false} BackoffIsBounded(s: Settings, streak: nat, u: real, beyond: Float -> Word)
    requires 0 < s.base < TWO_63 && 0 < s.cap < TWO_63 && 0.0 <= u < 1.0
    requires Positive(s.jitter) || s.jitter.NaN?
    requires Roomy(Delay(streak, s.base, s.cap), s.jitter)
    ensures var wait := JitteredBackoff(streak, s.base, s.cap, s.jitter, u, beyond);
            && 0 < wait && (s.jitter.Finite? ==> wait as real < (s.cap as real) * (1.0 + s.jitter.r))
            && (s.jitter.NaN? ==> wait <= s.cap)
  {
    DelayInRange(streak, s.base, s.cap);
    JitterIsBounded(Delay(streak, s.base, s.cap), s.cap, s.jitter, u, beyond);
  }

  lemma {:induction false} JitterIsBounded(delay: int, cap: int, jitter: Float, u: real, beyond: Float -> Word)
    requires 0 < delay <= cap < TWO_63 && 0.0 <= u < 1.0
    requires (Positive(jitter) || jitter.NaN?) && Roomy(delay, jitter)
    ensures var wait := Jittered(delay, jitter, u, beyond);
            && 0 < wait && (jitter.Finite? ==> wait as real < (cap as real) * (1.0 + jitter.r))
            && (jitter.NaN? ==> wait <= cap)
  {
    if jitter.Finite? {
      JitterInRange(delay, jitter.r, u, beyond);
      WithinCap(Jittered(delay, jitter, u, beyond), delay, cap, jitter.r);
    }
  }

  lemma {:induction false} WithinCap(wait: int, delay: int, cap: int, ratio: real)
    requires delay <= cap && ratio > 0.0 && WithinRatio(wait, delay, ratio)
    ensures wait as real < (cap as real) * (1.0 + ratio)
  {
    Scales(delay as real, cap as real, 1.0 + ratio);
  }

  lemma Scales(a: real, b: real, k: real)
    requires a <= b && k > 0.0
    ensures a * k <= b * k
  {}

  /** Backoff waits at every streak that trips the guard, whatever is drawn, exactly
    when there is room for the jittered cap. */
  lemma {:induction false} BackoffWaitsExactly(s: Settings, args: seq<string>, beyond: Float -> Word)
    requires s.enabled && s.mode == "backoff" && 0 < s.base < TWO_63 && 0 < s.cap < TWO_63
    requires s.jitter.NaN? || (s.jitter.Finite? && s.jitter.r > 0.0)
    ensures (forall streak: nat, t: Terminal :: Trips(s, streak) && 0.0 <= t.u < 1.0 ==>
               Decided(s, streak, args, t, beyond).slept > 0)
            <==> Roomy(s.cap, s.jitter)
  {
    if Roomy(s.cap, s.jitter) {
      forall streak: nat, t: Terminal | Trips(s, streak) && 0.0 <= t.u < 1.0
        ensures Decided(s, streak, args, t, beyond).slept > 0
      {
        DelayInRange(streak, s.base, s.cap);
        if s.jitter.Finite? {
          RoomShrinks(Delay(streak, s.base, s.cap), s.cap, s.jitter.r);
        }
        BackoffIsBounded(s, streak, t.u, beyond);
      }
    } else {
      var u := JitterCanWrap(s.cap, s.jitter.r, beyond);
      var streak: nat := if s.threshold > 63 then s.threshold else 63;
      var t := Terminal(false, "", u);
      assert Delay(streak, s.base, s.cap) == s.cap;
      assert Trips(s, streak) && Decided(s, streak, args, t, beyond).slept == -TWO_63;
    }
  }

  /** Accepted settings that do not wait: nine billion seconds for base and cap and the default jitter. */
  lemma {:induction false} NineBillionSecondsDoNotWait(args: seq<string>, beyond: Float -> Word)
    ensures var g := Config(0, "backoff", Finite(9_000_000_000.0), Finite(9_000_000_000.0), Finite(0.0));
            var s := ResolveGuard(g, beyond);
            s.mode == "backoff" && Trips(s, 2) && Decided(s, 2, args, Terminal(false, "", 0.9), beyond).slept < 0
  {
    LargeCapWraps(beyond);
    NineBillionSeconds(beyond);
    ModeStays("backoff");
  }

  lemma {:induction false} NineBillionSeconds(beyond: Float -> Word)
    ensures Nanoseconds(Finite(9_000_000_000.0), beyond) == 9_000_000_000 * SECOND
  {
    assert Times(Finite(9_000_000_000.0), 1_000_000_000.0) == Finite(9_000_000_000_000_000_000.0);
  }

  lemma {:induction false} ModeStays(mode: string)
    requires mode == "backoff"
    ensures Lower(TrimBlanks(mode)) == mode
  {
    TrimTight(mode);
    LowerStays(mode);
  }

  lemma {:induction false} LowerStays(s: string)
    requires forall i :: 0 <= i < |s| ==> !('A' <= s[i] <= 'Z')
    ensures Lower(s) == s
  {
    if s != "" {
      LowerStays(s[1..]);
      assert s == [s[0]] + s[1..];
    }
  }
}
