/** The upload order the cursor relies on: an upload that breaks it can be lost to
  the daemon for good without any failure, and uploads in strictly later seconds keep it. */
module Stranding {
  import opened Lines
  import opened Lex
  import opened Store
  import opened Ingest
  import opened IngestSafety
  import opened EventBuilder
  import UploadKey

  /** Raw, at or below the cursor, not reported, and not in the batch in hand. */
  predicate Stranded(s: State, k: string) {
    && k in s.store && IsRaw(k) && Leq(k, CursorOf(s, MachineOf(k).value)) && k !in s.reported
    && (s.pc.Idle? || k !in s.pc.keys)
  }

  /** A stranded object stays so: no listing ever returns it again. */
  lemma {:induction false} StrandedForever(cfg: Config, s: State, a: Action, k: string)
    requires Inv(cfg, s) && Stranded(s, k) && Enabled(s, a)
    ensures Stranded(Step(cfg, s, a), k)
  {
    var z := Step(cfg, s, a);
    var m := MachineOf(k).value;
    CursorNeverDecreases(cfg, s, a, m);
    if Less(k, CursorOf(s, m)) && Less(CursorOf(s, m), CursorOf(z, m)) {
      Transitive(k, CursorOf(s, m), CursorOf(z, m));
    }
    if a.List? && k in a.keys {
      PrefixMeansMachine(a.machine, k);
      Asymmetric(k, CursorOf(s, m));
      Irreflexive(k);
    }
    if a.CopyObject? || a.RemoveObject? || a.Fetch? {
      assert s.pc.keys[0] in s.pc.keys;
    }
    if a.AdvanceCursor? && z.pc.Batch? {
      assert forall j :: j in z.pc.keys ==> j in s.pc.keys;
    }
  }

  lemma {:induction false} LeadsJoin(cfg: Config, s: State, acts1: seq<Action>, y: State, acts2: seq<Action>, z: State)
    requires Leads(cfg, s, acts1, y) && Leads(cfg, y, acts2, z)
    ensures Leads(cfg, s, acts1 + acts2, z)
    decreases |acts1|
  {
    if acts1 == [] {
      assert acts1 + acts2 == acts2;
    } else {
      assert (acts1 + acts2)[1..] == acts1[1..] + acts2;
      LeadsJoin(cfg, Step(cfg, s, acts1[0]), acts1[1..], y, acts2, z);
    }
  }

  // ----- the batch in hand passes what slipped in below it -----

  /** A step of an undisturbed batch: the body arrives whole, every line is judged
    and stored, and copy, removal and cursor succeed. */
  predicate Ordinary(a: Action) {
    match a
    case Fetch(res) => res.Fetched?
    case Judge(out, _, _, stored, ok) => out.Ok? && stored && ok
    case EndLines => true
    case CopyObject(done, ok) => done && ok
    case RemoveObject(done, ok) => done && ok
    case AdvanceCursor(done, ok) => done && ok
    case _ => false
  }

  /** A raw object that is not in the batch, though the batch ends above it or the cursor is past it. */
  predicate Slipped(s: State, k: string) {
    && !s.pc.Idle? && k in s.store && IsRaw(k) && k !in s.reported && k !in s.pc.keys
    && MachineOf(k) == Some(s.pc.machine)
    && (Leq(k, CursorOf(s, s.pc.machine)) || exists j :: j in s.pc.keys && Less(k, j))
  }

  function NextStep(s: State, d: Denoised): Action
    requires !s.pc.Idle? && HasHead(s)
  {
    match s.pc
    case Batch(_, _) => Fetch(Fetched)
    case Reading(_, _, vs) => if |vs| < |CurrentLines(s)| then Judge(Ok(d), "", 0, true, true) else EndLines
    case Copying(_, _, _) => CopyObject(true, true)
    case Removing(_, _) => RemoveObject(true, true)
    case Advancing(_, _) => AdvanceCursor(true, true)
  }

  /** Where the daemon is within one object, counted down. */
  function Stage(s: State): nat {
    match s.pc
    case Batch(_, _) => 5
    case Reading(_, _, _) => 4
    case Copying(_, _, _) => 3
    case Removing(_, _) => 2
    case Advancing(_, _) => 1
    case Idle => 0
  }

  function LinesLeft(s: State): nat {
    if s.pc.Reading? && HasHead(s) && |s.pc.vs| <= |CurrentLines(s)| then |CurrentLines(s)| - |s.pc.vs| else 0
  }

  lemma {:induction false} NextStepIsEnabled(cfg: Config, s: State, k: string, d: Denoised)
    requires Inv(cfg, s) && Slipped(s, k) && !Leq(k, CursorOf(s, s.pc.machine))
    ensures HasHead(s) && Enabled(s, NextStep(s, d)) && Ordinary(NextStep(s, d))
  {
    assert s.pc.keys[0] in s.pc.keys;
  }

  /** The batch got shorter, or the object in hand got further. */
  predicate Further(s: State, z: State)
    requires !s.pc.Idle? && !z.pc.Idle?
  {
    || |z.pc.keys| < |s.pc.keys|
    || (z.pc.keys == s.pc.keys && (Stage(z) < Stage(s) || (Stage(z) == Stage(s) && LinesLeft(z) < LinesLeft(s))))
  }

  lemma {:induction false} AdvancingKeepsSlipped(cfg: Config, s: State, k: string)
    requires Inv(cfg, s) && Slipped(s, k) && !Leq(k, CursorOf(s, s.pc.machine)) && s.pc.Advancing?
    ensures var z := Step(cfg, s, AdvanceCursor(true, true)); Slipped(z, k) && Further(s, z)
  {
    var j :| j in s.pc.keys && Less(k, j);
    var head := s.pc.keys[0];
    assert head in s.pc.keys;
    Total(k, head);
    if !Less(k, head) {
      Asymmetric(j, k);
      LaterInBatch(s.pc.keys, j);
    }
    var z := Step(cfg, s, AdvanceCursor(true, true));
    assert CursorOf(z, z.pc.machine) == head;
  }

  lemma {:induction false} JudgingKeepsSlipped(cfg: Config, s: State, k: string, d: Denoised)
    requires PcOk(cfg, s) && Slipped(s, k) && s.pc.Reading? && |s.pc.vs| < |CurrentLines(s)|
    ensures var z := Step(cfg, s, Judge(Ok(d), "", 0, true, true)); Slipped(z, k) && Further(s, z)
  {
    assert JudgeLine(cfg, JudgedLine(s), Ok(d), "", 0, true, true).1.Some?;
  }

  lemma {:induction false} RemovingKeepsSlipped(cfg: Config, s: State, k: string)
    requires PcOk(cfg, s) && Slipped(s, k) && s.pc.Removing?
    ensures var z := Step(cfg, s, RemoveObject(true, true)); Slipped(z, k) && Further(s, z)
  {
    assert s.pc.keys[0] in s.pc.keys;
  }

  lemma {:induction false} CopyingKeepsSlipped(cfg: Config, s: State, k: string)
    requires PcOk(cfg, s) && Slipped(s, k) && s.pc.Copying?
    ensures Enabled(s, CopyObject(true, true))
    ensures var z := Step(cfg, s, CopyObject(true, true)); Slipped(z, k) && Further(s, z)
  {
    assert s.pc.keys[0] in s.pc.keys;
  }

  lemma {:induction false} ReadingKeepsSlipped(cfg: Config, s: State, k: string, d: Denoised)
    requires PcOk(cfg, s) && Slipped(s, k) && s.pc.Reading?
    ensures Enabled(s, NextStep(s, d))
    ensures var z := Step(cfg, s, NextStep(s, d)); Slipped(z, k) && Further(s, z)
  {
    if |s.pc.vs| < |CurrentLines(s)| {
      JudgingKeepsSlipped(cfg, s, k, d);
    }
  }

  lemma {:induction false} NextStepKeepsSlipped(cfg: Config, s: State, k: string, d: Denoised)
    requires Inv(cfg, s) && Slipped(s, k) && !Leq(k, CursorOf(s, s.pc.machine))
    requires Enabled(s, NextStep(s, d))
    ensures var z := Step(cfg, s, NextStep(s, d)); Slipped(z, k) && Further(s, z)
  {
    match s.pc
    case Batch(_, _) =>
    case Reading(_, _, _) => ReadingKeepsSlipped(cfg, s, k, d);
    case Copying(_, _, _) => CopyingKeepsSlipped(cfg, s, k);
    case Removing(_, _) => RemovingKeepsSlipped(cfg, s, k);
    case Advancing(_, _) => AdvancingKeepsSlipped(cfg, s, k);
  }

  /** Ordinary steps carry the cursor past it. */
  lemma {:induction false} BatchPasses(cfg: Config, s: State, k: string, d: Denoised)
    returns (acts: seq<Action>, z: State)
    requires Inv(cfg, s) && Slipped(s, k)
    ensures Leads(cfg, s, acts, z) && Stranded(z, k) && forall a :: a in acts ==> Ordinary(a)
    decreases |s.pc.keys|, Stage(s), LinesLeft(s)
  {
    if Leq(k, CursorOf(s, s.pc.machine)) {
      return [], s;
    }
    NextStepIsEnabled(cfg, s, k, d);
    NextStepKeepsSlipped(cfg, s, k, d);
    var a := NextStep(s, d);
    StepKeepsInv(cfg, s, a);
    acts, z := BatchPasses(cfg, Step(cfg, s, a), k, d);
    assert ([a] + acts)[1..] == acts;
    acts := [a] + acts;
  }

  /** Wherever the daemon is, an upload that is not above the cursor and the batch
    in hand can be lost to it for good, with no failure and nothing reported,
    even though the key may be above the cursor: the condition in CursorSafety
    cannot be weakened to "above the cursor". */
  lemma {:induction false} LowUploadCanStrand(cfg: Config, s: State, key: string, body: string, d: Denoised)
    returns (acts: seq<Action>, z: State)
    requires Inv(cfg, s) && FreshKey(s, key) && !AboveAll(s, key)
    ensures Leads(cfg, s, [Upload(key, body)] + acts, z) && Stranded(z, key)
    ensures forall a :: a in acts ==> Ordinary(a)
  {
    var up := Upload(key, body);
    var s1 := Step(cfg, s, up);
    StepKeepsInv(cfg, s, up);
    var m := MachineOf(key).value;
    Total(CursorOf(s, m), key);
    assert s.pc.Idle? || key !in s.pc.keys;
    if Leq(key, CursorOf(s, m)) {
      acts, z := [], s1;
    } else {
      var j :| j in s.pc.keys && !Less(j, key);
      Total(j, key);
      acts, z := BatchPasses(cfg, s1, key, d);
    }
    assert ([up] + acts)[1..] == acts;
  }

  // ----- it happens -----

  // One machine's first two uploads fall into one second, and the daemon lists
  // between them: a recovery upload and the rotation upload right after it. The
  // second key sorts below the first by its UUID alone.

  lemma {:induction false} KeyOfMachine(machine: string, key: string)
    requires machine != "" && '/' !in machine && RawPrefix(machine) <= key
    ensures IsRaw(key) && MachineOf(key) == Some(machine) && Less("", key)
  {
    PrefixMeansMachine(machine, key);
  }

  /** Two uploads and the listing between them, from the start. */
  lemma {:induction false} TwoUploadsLead(cfg: Config, s0: State, machine: string, first: string, body1: string)
    returns (mid: State)
    requires Init(s0) && machine != "" && '/' !in machine && RawPrefix(machine) <= first
    ensures Leads(cfg, s0, [Upload(first, body1), List(machine, [first])], mid) && Inv(cfg, mid)
    ensures mid.pc == Batch(machine, [first]) && mid.cursor == map[]
    ensures mid.store == map[first := body1] == mid.uploads
  {
    var a1, a2 := Upload(first, body1), List(machine, [first]);
    KeyOfMachine(machine, first);
    StepKeepsInv(cfg, s0, a1);
    var s1 := Step(cfg, s0, a1);
    assert IsListing(s1.store, RawPrefix(machine), "", [first]);
    StepKeepsInv(cfg, s1, a2);
    mid := Step(cfg, s1, a2);
    assert [a1, a2][1..] == [a2] && [a2][1..] == [];
  }

  lemma {:induction false} SecondIsFresh(cfg: Config, mid: State, machine: string, first: string, second: string)
    requires Inv(cfg, mid) && mid.pc == Batch(machine, [first]) && mid.cursor == map[]
    requires mid.store.Keys == mid.uploads.Keys == {first}
    requires machine != "" && '/' !in machine && RawPrefix(machine) <= first && RawPrefix(machine) <= second
    requires Less(second, first)
    ensures FreshKey(mid, second) && !AboveAll(mid, second) && Less(CursorOf(mid, machine), second)
  {
    KeyOfMachine(machine, first);
    KeyOfMachine(machine, second);
    Irreflexive(second);
    Asymmetric(second, first);
    assert RAW <= first && !(RAW <= ArchiveKey(second));
  }

  lemma {:induction false} TwoKeysCanStrand(cfg: Config, s0: State, machine: string, first: string, second: string,
                                            body1: string, body2: string, d: Denoised)
    returns (mid: State, acts: seq<Action>, z: State)
    requires Init(s0) && machine != "" && '/' !in machine
    requires RawPrefix(machine) <= first && RawPrefix(machine) <= second && Less(second, first)
    ensures Leads(cfg, s0, [Upload(first, body1), List(machine, [first])], mid)
    ensures mid.pc == Batch(machine, [first]) && Less(CursorOf(mid, machine), second)
    ensures Leads(cfg, s0, [Upload(first, body1), List(machine, [first])] + ([Upload(second, body2)] + acts), z)
    ensures (forall a :: a in acts ==> Ordinary(a)) && Stranded(z, second)
  {
    mid := TwoUploadsLead(cfg, s0, machine, first, body1);
    SecondIsFresh(cfg, mid, machine, first, second);
    acts, z := LowUploadCanStrand(cfg, mid, second, body2, d);
    LeadsJoin(cfg, s0, [Upload(first, body1), List(machine, [first])], mid, [Upload(second, body2)] + acts, z);
  }

  /** The second upload is above the cursor when it is made, every step of the
    daemon succeeds, and no listing will ever return it. */
  lemma {:induction false} OneSecondCanStrand(cfg: Config, s0: State, machine: string, t: int, high: string,
                                              low: string, body1: string, body2: string, d: Denoised)
    returns (mid: State, acts: seq<Action>, z: State)
    requires Init(s0) && machine != "" && '/' !in machine && UploadKey.InRange(t)
    requires |low| == |high| && Less(low, high)
    ensures var first, second := UploadKey.FormatKey(machine, t, high), UploadKey.FormatKey(machine, t, low);
            var early := [Upload(first, body1), List(machine, [first])];
            && Leads(cfg, s0, early, mid)
            && mid.pc == Batch(machine, [first]) && Less(CursorOf(mid, machine), second) && Less(second, first)
            && Leads(cfg, s0, early + ([Upload(second, body2)] + acts), z)
            && (forall a :: a in acts ==> Ordinary(a)) && Stranded(z, second)
  {
    var first, second := UploadKey.FormatKey(machine, t, high), UploadKey.FormatKey(machine, t, low);
    Irreflexive(low);
    UploadKey.SameSecondSortsByUuid(machine, t, low, high);
    mid, acts, z := TwoKeysCanStrand(cfg, s0, machine, first, second, body1, body2, d);
  }

  // ----- where the order comes from -----

  /** Cursors only ever hold keys that were uploaded. */
  predicate CursorsKnown(s: State) {
    forall m :: m in s.cursor ==> s.cursor[m] in s.uploads && MachineOf(s.cursor[m]) == Some(m)
  }

  lemma {:induction false} StepKeepsCursorsKnown(cfg: Config, s: State, a: Action)
    requires Inv(cfg, s) && CursorsKnown(s) && Enabled(s, a)
    ensures CursorsKnown(Step(cfg, s, a))
  {
    HistoryGrows(cfg, s, a);
    if a.AdvanceCursor? {
      assert s.pc.keys[0] in s.pc.keys;
    }
  }

  /** Every object so far of this machine was keyed in an earlier second. */
  ghost predicate AllEarlier(s: State, machine: string, t: int) {
    forall k :: k in s.uploads && MachineOf(k) == Some(machine) ==>
      exists t1, u1 :: 1_000_000_000 <= t1 < t && UploadKey.InRange(t1) && k == UploadKey.FormatKey(machine, t1, u1)
  }

  lemma {:induction false} EarlierSortsBelow(s: State, machine: string, t: int, uuid: string, k: string)
    requires AllEarlier(s, machine, t) && 1_000_000_000 <= t < 10_000_000_000
    requires k in s.uploads && MachineOf(k) == Some(machine)
    ensures UploadKey.InRange(t) && Less(k, UploadKey.FormatKey(machine, t, uuid))
  {
    var t1, u1 :| 1_000_000_000 <= t1 < t && UploadKey.InRange(t1) && k == UploadKey.FormatKey(machine, t1, u1);
    UploadKey.KeysSortInPractice(machine, t1, t, u1, uuid);
  }

  /** One machine uploading in strictly later seconds, between 2001 and 2286,
    keeps the order CursorSafety asks for. */
  lemma {:induction false} LaterSecondsAreAboveAll(cfg: Config, s: State, machine: string, t: int, uuid: string)
    requires Inv(cfg, s) && CursorsKnown(s) && machine != "" && '/' !in machine
    requires 1_000_000_000 <= t < 10_000_000_000 && AllEarlier(s, machine, t)
    ensures UploadKey.InRange(t) && MachineOf(UploadKey.FormatKey(machine, t, uuid)) == Some(machine)
    ensures AboveAll(s, UploadKey.FormatKey(machine, t, uuid))
  {
    UploadKey.RangeInSeconds(t);
    var key := UploadKey.FormatKey(machine, t, uuid);
    assert RawPrefix(machine) <= key;
    PrefixMeansMachine(machine, key);
    if machine in s.cursor {
      EarlierSortsBelow(s, machine, t, uuid, s.cursor[machine]);
    }
    if !s.pc.Idle? && s.pc.machine == machine {
      forall k | k in s.pc.keys ensures Less(k, key) {
        EarlierSortsBelow(s, machine, t, uuid, k);
      }
    }
  }

  /** The key of an upload by this machine in a second later than all before. */
  ghost predicate Timed(s: State, key: string, machine: string, t: int, uuid: string) {
    && machine != "" && '/' !in machine && 1_000_000_000 <= t < 10_000_000_000 && UploadKey.InRange(t)
    && key == UploadKey.FormatKey(machine, t, uuid) && AllEarlier(s, machine, t)
  }

  /** A run of shippers that key their uploads by the second, never twice in one. */
  ghost predicate TimedRun(cfg: Config, s: State, acts: seq<Action>, z: State)
    decreases |acts|
  {
    if acts == [] then s == z
    else
      && Enabled(s, acts[0]) && (acts[0].Upload? ==> exists m, t, u :: Timed(s, acts[0].key, m, t, u))
      && TimedRun(cfg, Step(cfg, s, acts[0]), acts[1..], z)
  }

  lemma {:induction false} TimedRunIsOrdered(cfg: Config, s: State, acts: seq<Action>, z: State)
    requires Inv(cfg, s) && CursorsKnown(s) && TimedRun(cfg, s, acts, z)
    ensures OrderedRun(cfg, s, acts, z)
    decreases |acts|
  {
    if acts != [] {
      var a := acts[0];
      if a.Upload? {
        var m, t, u :| Timed(s, a.key, m, t, u);
        LaterSecondsAreAboveAll(cfg, s, m, t, u);
      }
      StepKeepsInv(cfg, s, a);
      StepKeepsCursorsKnown(cfg, s, a);
      TimedRunIsOrdered(cfg, Step(cfg, s, a), acts[1..], z);
    }
  }

  /** Key format and cursor together: over every such run nothing is stranded;
    each raw object not reported corrupt is in its machine's next listing. */
  lemma {:induction false} TimedUploadsAreSafe(cfg: Config, s: State, acts: seq<Action>, z: State, k: string,
                                               keys: seq<string>)
    requires Init(s) && TimedRun(cfg, s, acts, z)
    requires k in z.store && IsRaw(k) && k !in z.reported
    requires IsListing(z.store, RawPrefix(MachineOf(k).value), CursorOf(z, MachineOf(k).value), keys)
    ensures k in keys
  {
    TimedRunIsOrdered(cfg, s, acts, z);
    CursorSafety(cfg, s, acts, z, k, keys);
  }
}
