/** The daemon's methods as imperative code over the step system of Ingest.
  Each request is one step, shippers may upload between any two, and a cancelled
  context is the Crash step. Valid makes every state inside them reachable. While
  `quiet`, no request fails, the denoiser never halts and nothing is cancelled. */
module Daemon {
  import opened Lines
  import opened Lex
  import opened Store
  import opened Ingest
  import IngestSafety
  import Stranding

  datatype ObjectResult = Done | CorruptObject | Failed

  class Processor {
    const cfg: Config
    var s: State
    ghost const start: State
    ghost var trace: seq<Action>

    ghost predicate Valid() reads this {
      Init(start) && Leads(cfg, start, trace, s) && HasHead(s)
    }

    constructor (cfg: Config)
      ensures Valid() && this.cfg == cfg && Init(s) && trace == []
    {
      this.cfg := cfg;
      s := State(map[], map[], [], {}, map[], map[], Idle);
      start := State(map[], map[], [], {}, map[], map[], Idle);
      trace := [];
    }

    lemma Safe()
      requires Valid()
      ensures Inv(cfg, s) && OriginsOk(s)
    {
      IngestSafety.LeadsKeepsInv(cfg, start, trace, s);
    }

    method Do(a: Action)
      requires Valid() && Enabled(s, a)
      modifies this
      ensures Valid() && s == Step(cfg, old(s), a) && trace == old(trace) + [a] && Later(old(s), s)
    {
      Safe();
      StepIsLater(cfg, s, a);
      assert Leads(cfg, s, [a], Step(cfg, s, a));
      Stranding.LeadsJoin(cfg, start, trace, s, [a], Step(cfg, s, a));
      IngestSafety.LeadsKeepsInv(cfg, start, trace + [a], Step(cfg, s, a));
      s := Step(cfg, s, a);
      trace := trace + [a];
    }

    method LetShippersUpload()
      requires Valid()
      modifies this
      ensures Valid() && old(trace) <= trace && OnlyUploads(old(s), s)
    {
      var n: int := *;
      while n > 0
        invariant Valid() && old(trace) <= trace && OnlyUploads(old(s), s)
      {
        var key: string, body: string := *, *;
        if FreshKey(s, key) {
          Do(Upload(key, body));
        }
        n := n - 1;
      }
    }

    /** listMachines: the machines that have an object under raw/, in order. */
    method ListMachines(fail: bool) returns (machines: Option<seq<string>>)
      ensures machines.None? <==> fail
      ensures machines.Some? ==> Ascending(machines.value) && forall m :: m in machines.value ==> m != "" && '/' !in m
      ensures machines.Some? ==>
                forall m :: m in machines.value <==> exists k :: k in s.store && RAW <= k && MachineOf(k) == Some(m)
    {
      if fail {
        return None;
      }
      var found: seq<string> := [];
      var todo := s.store.Keys;
      while todo != {}
        invariant todo <= s.store.Keys && Ascending(found) && forall m :: m in found ==> m != "" && '/' !in m
        invariant forall m :: m in found <==>
                    exists k :: k in s.store && k !in todo && RAW <= k && MachineOf(k) == Some(m)
        decreases |todo|
      {
        var k :| k in todo;
        todo := todo - {k};
        if RAW <= k && MachineOf(k).Some? && MachineOf(k).value !in found {
          MachineHasNoSlash(k);
          found := SortedInsert(found, MachineOf(k).value);
        }
      }
      return Some(found);
    }

    /** processJSONL: one verdict per line, in order, until a batch-halting error. */
    method ProcessJsonl(quiet: bool) returns (ok: bool)
      requires Valid() && s.pc.Reading? && s.pc.vs == []
      modifies this
      ensures Valid() && old(trace) <= trace && Later(old(s), s) && s.cursor == old(s.cursor)
              && s.reported == old(s.reported)
      ensures !ok ==> s.pc.Idle? && !quiet
      ensures ok ==> s.pc.Reading? && s.pc.machine == old(s.pc.machine) && s.pc.keys == old(s.pc.keys)
                     && Accounted(cfg, s.uploads[s.pc.keys[0]], s.pc.vs, s.rows)
    {
      var i := 0;
      while i < |CurrentLines(s)|
        invariant Valid() && old(trace) <= trace && Later(old(s), s) && s.cursor == old(s.cursor)
                  && s.reported == old(s.reported)
        invariant s.pc.Reading? && s.pc.machine == old(s.pc.machine) && s.pc.keys == old(s.pc.keys)
        invariant CurrentLines(s) == old(CurrentLines(s)) && i == |s.pc.vs| <= |CurrentLines(s)|
        decreases |old(CurrentLines(s))| - i
      {
        var going := JudgeNext(quiet);
        if !going {
          return false;
        }
        i := i + 1;
      }
      Safe();
      return true;
    }

    /** One line: filtered out, denoised and inserted, skipped, or the end of the batch. */
    method JudgeNext(quiet: bool) returns (going: bool)
      requires Valid() && s.pc.Reading? && |s.pc.vs| < |CurrentLines(s)|
      modifies this
      ensures Valid() && old(trace) <= trace && Later(old(s), s) && s.cursor == old(s.cursor)
              && s.reported == old(s.reported)
      ensures !going ==> s.pc.Idle? && !quiet
      ensures going ==> s.pc.Reading? && s.pc.machine == old(s.pc.machine) && s.pc.keys == old(s.pc.keys)
                        && CurrentLines(s) == old(CurrentLines(s))
                        && |s.pc.vs| == |old(s.pc.vs)| + 1 && old(s.pc.vs) <= s.pc.vs
    {
      LetShippersUpload();
      var cancelled: bool := *;
      if cancelled && !quiet {
        Do(Crash);
        return false;
      }
      var out: Outcome := *;
      if out.Halt? && quiet {
        out := Timeout;
      }
      var spare: string, now: int := *, *;
      var stored: bool, acked: bool := *, *;
      ghost var before := s;
      Do(Judge(out, spare, now, stored || acked || quiet, acked || quiet));
      JudgeAdvances(cfg, before, out, spare, now, stored || acked || quiet, acked || quiet);
      return s.pc.Reading?;
    }

    /** downloadToStaging. */
    method Download(quiet: bool) returns (res: FetchResult)
      requires Valid() && s.pc.Batch? && s.pc.keys != []
      modifies this
      ensures Valid() && old(trace) <= trace && Later(old(s), s)
      ensures s.cursor == old(s.cursor)
      ensures res.Fetched? ==> s.pc == Reading(old(s.pc.machine), old(s.pc.keys), []) && s.reported == old(s.reported)
      ensures res.Corrupt? ==> s.pc == Advancing(old(s.pc.machine), old(s.pc.keys))
                               && s.reported == old(s.reported) + {old(s.pc.keys)[0]}
      ensures res.FetchError? ==> s.pc.Idle? && s.reported == old(s.reported) && !quiet
    {
      LetShippersUpload();
      res := *;
      if res.FetchError? && quiet {
        res := Fetched;
      }
      Safe();
      assert s.pc.keys[0] in s.pc.keys;
      Do(Fetch(res));
    }

    /** MoveObject: copy, then remove only after a copy that succeeded. */
    method MoveToArchive(quiet: bool) returns (ok: bool)
      requires Valid() && s.pc.Copying?
      modifies this
      ensures Valid() && old(trace) <= trace && Later(old(s), s)
      ensures s.cursor == old(s.cursor) && s.reported == old(s.reported)
      ensures !ok ==> s.pc.Idle? && !quiet
      ensures ok ==> s.pc == Advancing(old(s.pc.machine), old(s.pc.keys))
                     && old(s.pc.keys)[0] !in s.store && ArchiveKey(old(s.pc.keys)[0]) in s.store
    {
      LetShippersUpload();
      Safe();
      assert s.pc.keys[0] in s.pc.keys;
      var copied: bool, acked: bool := *, *;
      Do(CopyObject(copied || acked || quiet, acked || quiet));
      if s.pc.Idle? {
        return false;
      }
      ok := RemoveSource(quiet);
    }

    method RemoveSource(quiet: bool) returns (ok: bool)
      requires Valid() && s.pc.Removing?
      modifies this
      ensures Valid() && old(trace) <= trace && Later(old(s), s)
      ensures s.cursor == old(s.cursor) && s.reported == old(s.reported)
      ensures !ok ==> s.pc.Idle? && !quiet
      ensures ok ==> s.pc == Advancing(old(s.pc.machine), old(s.pc.keys))
                     && old(s.pc.keys)[0] !in s.store && ArchiveKey(old(s.pc.keys)[0]) in s.store
    {
      LetShippersUpload();
      Safe();
      assert s.pc.keys[0] in s.pc.keys;
      ArchiveKeepsApart(s.pc.keys[0], s.pc.keys[0]);
      var removed: bool, acked: bool := *, *;
      ok := acked || quiet;
      Do(RemoveObject(removed || ok, ok));
    }

    method UpsertCursor(quiet: bool) returns (ok: bool)
      requires Valid() && s.pc.Advancing?
      modifies this
      ensures Valid() && old(trace) <= trace && Later(old(s), s) && s.reported == old(s.reported)
      ensures s.cursor == old(s.cursor) || s.cursor == old(s.cursor)[old(s.pc.machine) := old(s.pc.keys)[0]]
      ensures ok ==> s.pc == Batch(old(s.pc.machine), old(s.pc.keys)[1..])
                     && s.cursor == old(s.cursor)[old(s.pc.machine) := old(s.pc.keys)[0]]
      ensures !ok ==> s.pc.Idle? && !quiet
    {
      LetShippersUpload();
      var stored: bool, acked: bool := *, *;
      ok := acked || quiet;
      Do(AdvanceCursor(stored || ok, ok));
    }

    /** The first half of processObject: the object is downloaded and judged to its last line. */
    method JudgeObject(quiet: bool) returns (res: FetchResult)
      requires Valid() && s.pc.Batch? && s.pc.keys != []
      modifies this
      ensures Valid() && old(trace) <= trace && Later(old(s), s) && s.cursor == old(s.cursor)
      ensures res.Fetched? ==> s.pc.Copying? && s.pc.machine == old(s.pc.machine) && s.pc.keys == old(s.pc.keys)
                               && s.reported == old(s.reported)
      ensures res.Corrupt? ==> s.pc == Advancing(old(s.pc.machine), old(s.pc.keys))
                               && s.reported == old(s.reported) + {old(s.pc.keys)[0]}
      ensures res.FetchError? ==> s.pc.Idle? && s.reported == old(s.reported) && !quiet
    {
      res := Download(quiet);
      if res.Fetched? {
        var ok := ProcessJsonl(quiet);
        if !ok {
          return FetchError;
        }
        Do(EndLines);
      }
    }

    /** processObject. */
    method ProcessObject(quiet: bool) returns (res: ObjectResult)
      requires Valid() && s.pc.Batch? && s.pc.keys != []
      modifies this
      ensures Valid() && old(trace) <= trace && Later(old(s), s)
      ensures s.cursor == old(s.cursor) || s.cursor == old(s.cursor)[old(s.pc.machine) := old(s.pc.keys)[0]]
      ensures res.Done? ==>
                && s.pc == Batch(old(s.pc.machine), old(s.pc.keys)[1..]) && s.reported == old(s.reported)
                && s.cursor == old(s.cursor)[old(s.pc.machine) := old(s.pc.keys)[0]]
                && old(s.pc.keys)[0] in s.uploads && old(s.pc.keys)[0] !in s.store
                // Its copy is archived with a fitting verdict for every line and a row for each inserted one.
                && ArchiveOk(cfg, s, old(s.pc.keys)[0])
      ensures res.CorruptObject? ==> s.pc == Advancing(old(s.pc.machine), old(s.pc.keys)) && s.cursor == old(s.cursor)
                                     && s.reported == old(s.reported) + {old(s.pc.keys)[0]}
      ensures res.Failed? ==> s.pc.Idle? && s.reported == old(s.reported) && !quiet
    {
      var got := JudgeObject(quiet);
      if got.Corrupt? {
        return CorruptObject;
      }
      if got.FetchError? {
        return Failed;
      }
      var ok := MoveToArchive(quiet);
      if !ok {
        return Failed;
      }
      ok := UpsertCursor(quiet);
      if ok {
        Safe();
        ArchivedIsAccounted(cfg, s, old(s.pc.keys)[0]);
        return Done;
      }
      return Failed;
    }

    /** processMachine: the listed keys in order; a corrupt object is passed over,
      any other error leaves the rest for the next tick. When it finishes, every
      object that was waiting above the cursor is archived or reported. */
    method ProcessMachine(m: string, listFails: bool, quiet: bool) returns (finished: bool)
      requires Valid() && s.pc.Idle? && m != "" && '/' !in m
      modifies this
      ensures Valid() && old(trace) <= trace && s.pc.Idle? && Later(old(s), s) && OtherCursors(old(s), s, m)
      ensures finished ==>
                forall k :: k in old(s.store) && RawPrefix(m) <= k && Less(CursorOf(old(s), m), k) ==> Handled(s, k)
      ensures quiet && !listFails ==> finished
    {
      if listFails {
        return false;
      }
      var keys := CollectKeys(s.store, RawPrefix(m), CursorOf(s, m));
      Do(List(m, keys));
      finished := DrainBatch(quiet, keys);
    }

    /** The loop of processMachine. */
    method DrainBatch(quiet: bool, ghost keys: seq<string>) returns (finished: bool)
      requires Valid() && s.pc.Batch? && s.pc.keys == keys
      modifies this
      ensures Valid() && old(trace) <= trace && s.pc.Idle? && Later(old(s), s)
              && OtherCursors(old(s), s, old(s.pc.machine))
      ensures finished ==> forall k :: k in keys ==> Handled(s, k)
      ensures quiet ==> finished
    {
      ghost var done := 0;
      while s.pc.Batch? && s.pc.keys != []
        invariant Valid() && old(trace) <= trace && Later(old(s), s) && OtherCursors(old(s), s, old(s.pc.machine))
        invariant s.pc.Batch? || (s.pc.Idle? && !quiet)
        invariant 0 <= done <= |keys|
        invariant s.pc.Batch? ==> s.pc.machine == old(s.pc.machine) && s.pc.keys == keys[done..]
                                  && forall j :: 0 <= j < done ==> Handled(s, keys[j])
        decreases if s.pc.Batch? then 1 + |s.pc.keys| else 0
      {
        ghost var before := s;
        var cancelled: bool := *;
        if cancelled && !quiet {
          Do(Crash);
        } else {
          StepObject(quiet);
          if s.pc.Batch? {
            assert forall j :: 0 <= j < done ==> Handled(before, keys[j]);
            done := done + 1;
          }
        }
      }
      if s.pc.Idle? {
        return false;
      }
      Do(EndBatch);
      return true;
    }

    /** One turn of that loop. */
    method StepObject(quiet: bool)
      requires Valid() && s.pc.Batch? && s.pc.keys != []
      modifies this
      ensures Valid() && old(trace) <= trace && Later(old(s), s) && OtherCursors(old(s), s, old(s.pc.machine))
      ensures (s.pc.Idle? && !quiet)
              || (s.pc == Batch(old(s.pc.machine), old(s.pc.keys)[1..]) && Handled(s, old(s.pc.keys)[0]))
    {
      var head := s.pc.keys[0];
      var res := ProcessObject(quiet);
      if res.CorruptObject? {
        var ok := UpsertCursor(quiet);
        Safe();
      }
    }

    /** tick: every machine found, one after the other. A quiet tick drains: every
      object that was waiting above its machine's cursor is archived or reported. */
    method Tick(listFails: bool, quiet: bool)
      requires Valid() && s.pc.Idle?
      modifies this
      ensures Valid() && old(trace) <= trace && s.pc.Idle? && Later(old(s), s)
      ensures listFails ==> s == old(s) && trace == old(trace)
      ensures quiet && !listFails ==> forall k :: Waiting(old(s), k) ==> Handled(s, k)
    {
      var machines := ListMachines(listFails);
      if machines.None? {
        return;
      }
      ghost var start := s;
      Safe();
      var ms := machines.value;
      var i := 0;
      while i < |ms|
        invariant Valid() && old(trace) <= trace && s.pc.Idle? && Later(start, s) && 0 <= i <= |ms|
        invariant forall j :: i <= j < |ms| ==> CursorOf(s, ms[j]) == CursorOf(start, ms[j])
        invariant quiet ==>
                    forall j, k :: 0 <= j < i && Waiting(start, k) && MachineOf(k) == Some(ms[j]) ==> Handled(s, k)
      {
        assert ms[i] in ms;
        var fails: bool := *;
        ghost var before := s;
        var finished := ProcessMachine(ms[i], fails && !quiet, quiet);
        if quiet {
          NextMachineHandled(start, before, s, ms, i);
        }
        AscendingDistinct(ms, i);
        i := i + 1;
      }
      if quiet {
        forall k | Waiting(start, k) ensures Handled(s, k) {
          assert MachineOf(k).value in ms;
        }
      }
    }
  }

  /** One line gets its verdict, or the batch is given up; without an outage or a
    failed insert it is the former. */
  lemma JudgeAdvances(cfg: Config, s: State, out: Outcome, spare: string, now: int, stored: bool, ok: bool)
    requires Enabled(s, Judge(out, spare, now, stored, ok))
    ensures var z := Step(cfg, s, Judge(out, spare, now, stored, ok));
            && z.cursor == s.cursor && z.reported == s.reported && z.uploads == s.uploads
            && (z.pc.Idle? || (z.pc.Reading? && z.pc.machine == s.pc.machine && z.pc.keys == s.pc.keys
                               && |z.pc.vs| == |s.pc.vs| + 1 && s.pc.vs <= z.pc.vs))
            && (!out.Halt? && ok ==> z.pc.Reading?)
  {
    match out
    case Ok(_) =>
    case BadOutput =>
    case Timeout =>
    case Halt =>
  }

  lemma {:induction false} ArchivedIsAccounted(cfg: Config, s: State, k: string)
    requires StoreOk(cfg, s) && k in s.uploads && k !in s.store
    ensures ArchiveOk(cfg, s, k)
  {
  }

  /** No cursor but that of machine m has moved. */
  ghost predicate OtherCursors(s: State, z: State, m: string) {
    forall x :: x != m ==> CursorOf(z, x) == CursorOf(s, x)
  }

  /** Raw, uploaded, and above the machine's cursor. */
  predicate Waiting(s: State, k: string) {
    IsRaw(k) && k in s.store && k in s.uploads && Less(CursorOf(s, MachineOf(k).value), k)
  }

  lemma AscendingDistinct(ms: seq<string>, i: nat)
    requires Ascending(ms) && i < |ms|
    ensures forall j :: i < j < |ms| ==> ms[j] != ms[i]
  {
    forall j | i < j < |ms| ensures ms[j] != ms[i] {
      Irreflexive(ms[i]);
    }
  }

  /** Whatever was waiting for the machine now finished has been handled, and what
    was handled before still is. */
  lemma NextMachineHandled(start: State, before: State, z: State, ms: seq<string>, i: nat)
    requires i < |ms| && Later(start, before) && Later(before, z) && ms[i] != "" && '/' !in ms[i]
    requires CursorOf(before, ms[i]) == CursorOf(start, ms[i])
    requires forall k :: k in before.store && RawPrefix(ms[i]) <= k && Less(CursorOf(before, ms[i]), k) ==>
             Handled(z, k)
    requires forall j, k :: 0 <= j < i && Waiting(start, k) && MachineOf(k) == Some(ms[j]) ==> Handled(before, k)
    ensures forall j, k :: 0 <= j < i + 1 && Waiting(start, k) && MachineOf(k) == Some(ms[j]) ==> Handled(z, k)
  {
    forall j, k | 0 <= j < i + 1 && Waiting(start, k) && MachineOf(k) == Some(ms[j]) ensures Handled(z, k) {
      if j == i {
        PrefixMeansMachine(ms[i], k);
      } else {
        assert Handled(before, k);
      }
    }
  }

  /** The object was archived, or reported corrupt and passed over. */
  predicate Handled(s: State, k: string) {
    k in s.uploads && (k in s.reported || k !in s.store)
  }

  /** Only uploads happened between s and z. */
  predicate OnlyUploads(s: State, z: State) {
    && z.pc == s.pc && z.cursor == s.cursor && z.rows == s.rows && z.reported == s.reported
    && Later(s, z) && forall k :: k in s.store ==> k in z.store
  }

  /** Uploads are kept as they were, rows and reports accumulate, and an object
    taken out of the raw area does not come back. */
  predicate Later(s: State, z: State) {
    && (forall k :: k in s.uploads ==> k in z.uploads && z.uploads[k] == s.uploads[k])
    && (forall k :: k in s.uploads && k in z.store ==> k in s.store)
    && s.rows <= z.rows && s.reported <= z.reported
  }

  lemma {:induction false} StepIsLater(cfg: Config, s: State, a: Action)
    requires Inv(cfg, s) && Enabled(s, a)
    ensures Later(s, Step(cfg, s, a))
  {
    if a.CopyObject? {
      assert s.pc.keys[0] in s.pc.keys;
      ArchiveKeepsApart(s.pc.keys[0], s.pc.keys[0]);
    }
  }
}
