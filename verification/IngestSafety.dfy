/** What the ingest daemon guarantees over every run of Ingest, crashes included. */
module IngestSafety {
  import opened Lines
  import opened Lex
  import opened Store
  import opened EventBuilder
  import opened Ingest

  // ----- every step keeps the invariant -----

  lemma {:induction false} AccountedGrows(cfg: Config, body: string, vs: seq<Verdict>, r1: seq<Row>, r2: seq<Row>)
    requires AccountedSoFar(cfg, body, vs, r1) && r1 <= r2
    ensures AccountedSoFar(cfg, body, vs, r2)
  {
    forall i | 0 <= i < |vs| && vs[i].Inserted? ensures vs[i].row in r2 {
      assert vs[i].row in r1;
    }
  }

  /** Rows only accumulate, uploads only accumulate and never change. */
  lemma {:induction false} HistoryGrows(cfg: Config, s: State, a: Action)
    requires Enabled(s, a)
    ensures var z := Step(cfg, s, a);
            s.rows <= z.rows && s.uploads.Keys <= z.uploads.Keys
            && forall k :: k in s.uploads ==> z.uploads[k] == s.uploads[k]
  {
  }

  lemma {:induction false} SourcedStays(cfg: Config, s: State, z: State, row: Row)
    requires Sourced(cfg, s, row) && s.uploads.Keys <= z.uploads.Keys
    requires forall k :: k in s.uploads ==> z.uploads[k] == s.uploads[k]
    ensures Sourced(cfg, z, row)
  {
    var k, line :| k in s.uploads && line in Records(s.uploads[k]) && Gate(cfg, line).None? && RowOf(cfg, line, row);
    assert k in z.uploads;
  }

  /** The stores are as before and rows were only added. */
  lemma {:induction false} StoreFrame(cfg: Config, s: State, z: State)
    requires StoreOk(cfg, s) && z.store == s.store && z.uploads == s.uploads && z.accounts == s.accounts
    requires s.rows <= z.rows && z.reported <= z.uploads.Keys
    ensures StoreOk(cfg, z)
  {
    forall k | k in z.uploads && ArchiveKey(k) in z.store ensures ArchiveOk(cfg, z, k) {
      assert ArchiveOk(cfg, s, k);
      AccountedGrows(cfg, s.uploads[k], s.accounts[ArchiveKey(k)].vs, s.rows, z.rows);
    }
  }

  lemma {:induction false} RowForIsRowOf(cfg: Config, line: string, d: Denoised, spare: string, now: int)
    requires cfg.codec.event(line).Some?
    ensures RowOf(cfg, line, RowFor(cfg, line, d, spare, now))
  {
  }

  /** Judging a line adds at most one row, its own, and either gives the line a
    fitting verdict or gives up the batch. */
  lemma {:induction false} JudgementFits(cfg: Config, line: string, out: Outcome, spare: string, now: int,
                                         stored: bool, ok: bool)
    requires ok ==> stored
    ensures var r := JudgeLine(cfg, line, out, spare, now, stored, ok);
            && |r.0| <= 1
            && (forall row :: row in r.0 ==> Gate(cfg, line).None? && RowOf(cfg, line, row))
            && (r.1.Some? ==> Fits(cfg, line, r.1.value) && (r.1.value.Inserted? ==> r.1.value.row in r.0))
  {
    if Gate(cfg, line).None? && out.Ok? {
      RowForIsRowOf(cfg, line, out.d, spare, now);
    }
  }

  /** The line a Judge step is about. */
  function JudgedLine(s: State): string
    requires s.pc.Reading? && HasHead(s) && |s.pc.vs| < |CurrentLines(s)|
  {
    CurrentLines(s)[|s.pc.vs|]
  }

  lemma {:induction false} JudgedRowIsSourced(cfg: Config, s: State, a: Action, row: Row)
    requires Inv(cfg, s) && Enabled(s, a) && a.Judge? && row in Step(cfg, s, a).rows
    ensures Sourced(cfg, Step(cfg, s, a), row)
  {
    var z := Step(cfg, s, a);
    JudgementFits(cfg, JudgedLine(s), a.out, a.spare, a.now, a.stored, a.ok);
    if row in s.rows {
      SourcedStays(cfg, s, z, row);
    } else {
      var head := s.pc.keys[0];
      assert head in z.uploads && JudgedLine(s) in Records(z.uploads[head]);
    }
  }

  lemma {:induction false} VerdictsGrow(cfg: Config, body: string, vs: seq<Verdict>, ws: seq<Verdict>, r1: seq<Row>,
                                        r2: seq<Row>)
    requires AccountedSoFar(cfg, body, vs, r1) && r1 <= r2 && vs <= ws && |ws| == |vs| + 1 <= |Records(body)|
    requires Fits(cfg, Records(body)[|vs|], ws[|vs|]) && (ws[|vs|].Inserted? ==> ws[|vs|].row in r2)
    ensures AccountedSoFar(cfg, body, ws, r2)
  {
    AccountedGrows(cfg, body, vs, r1, r2);
    forall i | 0 <= i < |ws|
      ensures Fits(cfg, Records(body)[i], ws[i]) && (ws[i].Inserted? ==> ws[i].row in r2)
    {
      if i < |vs| {
        assert ws[i] == vs[i];
      }
    }
  }

  lemma {:induction false} JudgeKeepsPc(cfg: Config, s: State, a: Action)
    requires PcOk(cfg, s) && Enabled(s, a) && a.Judge?
    ensures PcOk(cfg, Step(cfg, s, a)) && s.rows <= Step(cfg, s, a).rows
  {
    var z := Step(cfg, s, a);
    JudgementFits(cfg, JudgedLine(s), a.out, a.spare, a.now, a.stored, a.ok);
    if z.pc.Reading? {
      VerdictsGrow(cfg, s.uploads[s.pc.keys[0]], s.pc.vs, z.pc.vs, s.rows, z.rows);
    }
  }

  lemma {:induction false} JudgeKeepsInv(cfg: Config, s: State, a: Action)
    requires Inv(cfg, s) && Enabled(s, a) && a.Judge?
    ensures Inv(cfg, Step(cfg, s, a))
  {
    var z := Step(cfg, s, a);
    JudgeKeepsPc(cfg, s, a);
    StoreFrame(cfg, s, z);
    forall row | row in z.rows ensures Sourced(cfg, z, row) {
      JudgedRowIsSourced(cfg, s, a, row);
    }
  }

  lemma {:induction false} UploadKeepsStore(cfg: Config, s: State, a: Action)
    requires StoreOk(cfg, s) && Enabled(s, a) && a.Upload?
    ensures StoreOk(cfg, Step(cfg, s, a))
  {
    var z := Step(cfg, s, a);
    forall k | k in s.uploads ensures ArchiveKey(k) != a.key && (ArchiveKey(k) == ArchiveKey(a.key) <==> k == a.key) {
      ArchiveKeepsApart(k, a.key);
    }
    ArchiveKeepsApart(a.key, a.key);
    forall k | k in z.uploads && ArchiveKey(k) in z.store ensures ArchiveOk(cfg, z, k) {
      assert ArchiveOk(cfg, s, k);
    }
  }

  lemma {:induction false} UploadKeepsPc(cfg: Config, s: State, a: Action)
    requires PcOk(cfg, s) && Enabled(s, a) && a.Upload?
    ensures PcOk(cfg, Step(cfg, s, a))
  {
  }

  lemma {:induction false} UploadKeepsInv(cfg: Config, s: State, a: Action)
    requires Inv(cfg, s) && Enabled(s, a) && a.Upload?
    ensures Inv(cfg, Step(cfg, s, a))
  {
    var z := Step(cfg, s, a);
    UploadKeepsStore(cfg, s, a);
    UploadKeepsPc(cfg, s, a);
    forall row | row in z.rows ensures Sourced(cfg, z, row) {
      SourcedStays(cfg, s, z, row);
    }
  }

  lemma {:induction false} MoveKeepsStore(cfg: Config, s: State, a: Action)
    requires Inv(cfg, s) && Enabled(s, a) && (a.CopyObject? || a.RemoveObject?)
    ensures StoreOk(cfg, Step(cfg, s, a))
  {
    var z := Step(cfg, s, a);
    var head := s.pc.keys[0];
    assert head in s.pc.keys;
    forall k | k in s.uploads ensures !(RAW <= ArchiveKey(k)) && (ArchiveKey(k) == ArchiveKey(head) <==> k == head) {
      ArchiveKeepsApart(k, head);
    }
    forall k | k in z.uploads && ArchiveKey(k) in z.store ensures ArchiveOk(cfg, z, k) {
      assert k == head || ArchiveOk(cfg, s, k);
    }
  }

  lemma {:induction false} MoveKeepsPc(cfg: Config, s: State, a: Action)
    requires PcOk(cfg, s) && Enabled(s, a) && (a.CopyObject? || a.RemoveObject?)
    ensures PcOk(cfg, Step(cfg, s, a))
  {
  }

  lemma {:induction false} MoveKeepsInv(cfg: Config, s: State, a: Action)
    requires Inv(cfg, s) && Enabled(s, a) && (a.CopyObject? || a.RemoveObject?)
    ensures Inv(cfg, Step(cfg, s, a))
  {
    MoveKeepsStore(cfg, s, a);
    MoveKeepsPc(cfg, s, a);
    SourcesStay(cfg, s, Step(cfg, s, a));
  }

  lemma {:induction false} QuietStepsKeepInv(cfg: Config, s: State, a: Action)
    requires Inv(cfg, s) && Enabled(s, a)
    requires a.List? || a.Fetch? || a.EndLines? || a.EndBatch? || a.Crash?
    ensures Inv(cfg, Step(cfg, s, a))
  {
    QuietStepsKeepPc(cfg, s, a);
    StoreFrame(cfg, s, Step(cfg, s, a));
    SourcesStay(cfg, s, Step(cfg, s, a));
  }

  lemma {:induction false} SourcesStay(cfg: Config, s: State, z: State)
    requires (forall row :: row in s.rows ==> Sourced(cfg, s, row)) && z.rows == s.rows && z.uploads == s.uploads
    ensures forall row :: row in z.rows ==> Sourced(cfg, z, row)
  {
    forall row | row in z.rows ensures Sourced(cfg, z, row) {
      SourcedStays(cfg, s, z, row);
    }
  }

  lemma {:induction false} ListKeepsPc(cfg: Config, s: State, a: Action)
    requires Inv(cfg, s) && Enabled(s, a) && a.List?
    ensures PcOk(cfg, Step(cfg, s, a))
  {
    forall k | k in a.keys ensures k in s.uploads && MachineOf(k) == Some(a.machine) {
      PrefixMeansMachine(a.machine, k);
      assert RAW <= RawPrefix(a.machine) <= k;
    }
  }

  lemma {:induction false} QuietStepsKeepPc(cfg: Config, s: State, a: Action)
    requires Inv(cfg, s) && Enabled(s, a)
    requires a.List? || a.Fetch? || a.EndLines? || a.EndBatch? || a.Crash?
    ensures PcOk(cfg, Step(cfg, s, a)) && Step(cfg, s, a).reported <= s.uploads.Keys
  {
    if a.List? {
      ListKeepsPc(cfg, s, a);
    } else if a.Fetch? {
      assert s.pc.keys[0] in s.pc.keys;
    }
  }

  /** What is left of a batch lies above its first key. */
  lemma {:induction false} RestOfBatch(keys: seq<string>, k: string)
    requires Ascending(keys) && keys != [] && k in keys[1..]
    ensures k in keys && k != keys[0] && Less(keys[0], k)
  {
    var i :| 0 <= i < |keys[1..]| && keys[1..][i] == k;
    assert k == keys[i + 1];
    Irreflexive(k);
  }

  lemma {:induction false} AdvanceKeepsPc(cfg: Config, s: State, a: Action)
    requires PcOk(cfg, s) && Enabled(s, a) && a.AdvanceCursor?
    ensures PcOk(cfg, Step(cfg, s, a))
  {
    var z := Step(cfg, s, a);
    if z.pc.Batch? {
      forall k | k in z.pc.keys ensures k in s.pc.keys && k != s.pc.keys[0] && Less(s.pc.keys[0], k) {
        RestOfBatch(s.pc.keys, k);
      }
      assert Ascending(z.pc.keys);
    }
  }

  lemma {:induction false} AdvanceKeepsInv(cfg: Config, s: State, a: Action)
    requires Inv(cfg, s) && Enabled(s, a) && a.AdvanceCursor?
    ensures Inv(cfg, Step(cfg, s, a))
  {
    StoreFrame(cfg, s, Step(cfg, s, a));
    SourcesStay(cfg, s, Step(cfg, s, a));
    AdvanceKeepsPc(cfg, s, a);
  }

  lemma {:induction false} StepKeepsInv(cfg: Config, s: State, a: Action)
    requires Inv(cfg, s) && Enabled(s, a)
    ensures Inv(cfg, Step(cfg, s, a))
  {
    match a
    case Upload(_, _) => UploadKeepsInv(cfg, s, a);
    case Judge(_, _, _, _, _) => JudgeKeepsInv(cfg, s, a);
    case CopyObject(_, _) => MoveKeepsInv(cfg, s, a);
    case RemoveObject(_, _) => MoveKeepsInv(cfg, s, a);
    case AdvanceCursor(_, _) => AdvanceKeepsInv(cfg, s, a);
    case _ => QuietStepsKeepInv(cfg, s, a);
  }

  lemma {:induction false} StepKeepsOrigins(cfg: Config, s: State, a: Action)
    requires HasHead(s) && OriginsOk(s) && Enabled(s, a)
    ensures OriginsOk(Step(cfg, s, a))
  {
    var z := Step(cfg, s, a);
    assert s.uploads.Keys <= z.uploads.Keys;
    forall x | x in z.store && !(RAW <= x)
      ensures x in z.accounts && z.accounts[x].key in z.uploads && x == ArchiveKey(z.accounts[x].key)
    {
      if x in s.store {
        assert s.accounts[x].key in s.uploads;
      }
    }
  }

  lemma {:induction false} LeadsKeepsInv(cfg: Config, s: State, acts: seq<Action>, z: State)
    requires Inv(cfg, s) && OriginsOk(s) && Leads(cfg, s, acts, z)
    ensures Inv(cfg, z) && OriginsOk(z)
    decreases |acts|
  {
    if acts != [] {
      StepKeepsInv(cfg, s, acts[0]);
      StepKeepsOrigins(cfg, s, acts[0]);
      LeadsKeepsInv(cfg, Step(cfg, s, acts[0]), acts[1..], z);
    }
  }

  lemma {:induction false} ReachableInv(cfg: Config, z: State)
    requires Reachable(cfg, z)
    ensures Inv(cfg, z) && OriginsOk(z)
  {
    var s, acts :| Init(s) && Leads(cfg, s, acts, z);
    LeadsKeepsInv(cfg, s, acts, z);
  }

  // ----- archived means accounted for -----

  /** Each non-blank line of an archived object has one verdict that fits it: it
    was inserted, and its row is in the table, or it belongs to a skip class. */
  lemma {:induction false} ArchivedMeansAccounted(cfg: Config, z: State, x: string, i: nat)
    requires Reachable(cfg, z) && x in z.store && !(RAW <= x) && i < |Records(z.store[x])|
    ensures x in z.accounts && |z.accounts[x].vs| == |Records(z.store[x])|
    ensures var v := z.accounts[x].vs[i];
            Fits(cfg, Records(z.store[x])[i], v) && (v.Inserted? ==> v.row in z.rows)
    ensures z.accounts[x].key in z.uploads && x == ArchiveKey(z.accounts[x].key)
            && z.store[x] == z.uploads[z.accounts[x].key]
  {
    ReachableInv(cfg, z);
    assert ArchiveOk(cfg, z, z.accounts[x].key);
  }

  datatype Class = Malformed | Internal | Oversized | Unparseable | Timeout | Inserted

  function ClassOf(v: Verdict): Class {
    match v
    case Malformed => Class.Malformed
    case Internal => Class.Internal
    case Oversized => Class.Oversized
    case Unparseable => Class.Unparseable
    case TimedOut => Class.Timeout
    case Inserted(_) => Class.Inserted
  }

  /** The filter classes are decided by the line alone; a line that passes the
    filters is in one of the three classes the denoiser decides. */
  lemma {:induction false} ClassesExclude(cfg: Config, line: string, v: Verdict, w: Verdict)
    requires Fits(cfg, line, v) && Fits(cfg, line, w)
    ensures ClassOf(v) == ClassOf(w) || (ClassOf(v) in DENOISER_CLASSES && ClassOf(w) in DENOISER_CLASSES)
    ensures Gate(cfg, line).None? <==> ClassOf(v) in DENOISER_CLASSES
  {
  }

  const DENOISER_CLASSES: set<Class> := {Class.Unparseable, Class.Timeout, Class.Inserted}

  /** No uploaded object disappears, whatever fails or crashes. */
  lemma {:induction false} NothingVanishes(cfg: Config, z: State, k: string)
    requires Reachable(cfg, z) && k in z.uploads
    ensures (k in z.store && z.store[k] == z.uploads[k])
            || (ArchiveKey(k) in z.store && z.store[ArchiveKey(k)] == z.uploads[k])
  {
    ReachableInv(cfg, z);
    if k !in z.store {
      assert ArchiveOk(cfg, z, k);
    }
  }

  // ----- the cursor -----

  /** No step moves a machine's cursor back. */
  lemma {:induction false} CursorNeverDecreases(cfg: Config, s: State, a: Action, m: string)
    requires Inv(cfg, s) && Enabled(s, a)
    ensures Leq(CursorOf(s, m), CursorOf(Step(cfg, s, a), m))
  {
    if a.AdvanceCursor? {
      assert s.pc.keys[0] in s.pc.keys;
    }
  }

  function OrEmpty(o: Option<string>): string {
    if o.Some? then o.value else ""
  }

  /** The uploaded key sorts above the machine's cursor and above every key of
    the batch being worked on for that machine. */
  predicate AboveAll(s: State, key: string) {
    && Less(CursorOf(s, OrEmpty(MachineOf(key))), key)
    && (!s.pc.Idle? && MachineOf(key) == Some(s.pc.machine) ==> forall k :: k in s.pc.keys ==> Less(k, key))
  }

  /** Everything of machine m at or below its cursor that is still raw was reported corrupt. */
  ghost predicate Passed(s: State, m: string) {
    forall k :: k in s.store && RAW <= k && MachineOf(k) == Some(m) && Leq(k, CursorOf(s, m)) ==> k in s.reported
  }

  /** The batch in hand misses nothing between the cursor and its own keys. */
  ghost predicate BatchComplete(s: State) {
    && (!s.pc.Idle? ==>
          forall k :: k in s.store && RAW <= k && MachineOf(k) == Some(s.pc.machine)
                      && Less(CursorOf(s, s.pc.machine), k)
                      ==> InOrAbove(k, s.pc.keys))
    && (s.pc.Advancing? && s.pc.keys != [] && s.pc.keys[0] in s.store ==> s.pc.keys[0] in s.reported)
  }

  ghost predicate CursorOk(s: State) {
    (forall m :: Passed(s, m)) && BatchComplete(s)
  }

  predicate InOrAbove(k: string, keys: seq<string>) {
    k in keys || forall j :: j in keys ==> Less(j, k)
  }

  lemma {:induction false} LaterInBatch(keys: seq<string>, k: string)
    requires Ascending(keys) && k in keys && k != keys[0]
    ensures Less(keys[0], k) && k in keys[1..]
  {
    var i :| 0 <= i < |keys| && keys[i] == k;
    assert keys[1..][i - 1] == k;
  }

  /** Moving the cursor to the batch's first key passes only that key. */
  lemma {:induction false} AdvancePasses(cfg: Config, s: State, k: string)
    requires Inv(cfg, s) && CursorOk(s) && s.pc.Advancing?
    requires k in s.store && RAW <= k && MachineOf(k) == Some(s.pc.machine) && Leq(k, s.pc.keys[0])
    ensures k in s.reported
  {
    var m, head := s.pc.machine, s.pc.keys[0];
    assert head in s.pc.keys && Passed(s, m);
    Total(CursorOf(s, m), k);
    if Less(CursorOf(s, m), k) && k != head {
      assert InOrAbove(k, s.pc.keys);
      Asymmetric(k, head);
      if k in s.pc.keys {
        LaterInBatch(s.pc.keys, k);
      }
    }
  }

  lemma {:induction false} AdvanceKeepsBatch(cfg: Config, s: State, a: Action, k: string)
    requires Inv(cfg, s) && CursorOk(s) && Enabled(s, a) && a.AdvanceCursor? && a.ok
    requires k in s.store && RAW <= k && MachineOf(k) == Some(s.pc.machine) && Less(s.pc.keys[0], k)
    ensures InOrAbove(k, s.pc.keys[1..])
  {
    var head := s.pc.keys[0];
    assert head in s.pc.keys;
    Transitive(CursorOf(s, s.pc.machine), head, k);
    assert InOrAbove(k, s.pc.keys);
    if k in s.pc.keys {
      Irreflexive(head);
      LaterInBatch(s.pc.keys, k);
    } else {
      assert forall j :: j in s.pc.keys[1..] ==> j in s.pc.keys;
    }
  }

  lemma {:induction false} AdvanceKeepsCursorOk(cfg: Config, s: State, a: Action)
    requires Inv(cfg, s) && CursorOk(s) && Enabled(s, a) && a.AdvanceCursor?
    ensures CursorOk(Step(cfg, s, a))
  {
    var z := Step(cfg, s, a);
    forall m ensures Passed(z, m) {
      assert Passed(s, m);
      if m == s.pc.machine && a.done {
        forall k | k in z.store && RAW <= k && MachineOf(k) == Some(m) && Leq(k, CursorOf(z, m))
          ensures k in z.reported
        {
          AdvancePasses(cfg, s, k);
        }
      }
    }
    if a.ok {
      forall k | k in z.store && RAW <= k && MachineOf(k) == Some(z.pc.machine) && Less(CursorOf(z, z.pc.machine), k)
        ensures InOrAbove(k, z.pc.keys)
      {
        AdvanceKeepsBatch(cfg, s, a, k);
      }
    }
  }

  lemma {:induction false} UploadKeepsCursorOk(cfg: Config, s: State, a: Action)
    requires Inv(cfg, s) && CursorOk(s) && Enabled(s, a) && a.Upload? && AboveAll(s, a.key)
    ensures CursorOk(Step(cfg, s, a))
  {
    var z := Step(cfg, s, a);
    forall m ensures Passed(z, m) {
      assert Passed(s, m);
      Asymmetric(a.key, CursorOf(s, m));
      Irreflexive(a.key);
    }
    if s.pc.Advancing? {
      assert s.pc.keys[0] in s.pc.keys;
    }
  }

  /** No other step puts a raw key into the store or moves a cursor. */
  lemma {:induction false} OthersAddNoRawKey(cfg: Config, s: State, a: Action)
    requires Inv(cfg, s) && Enabled(s, a) && !a.Upload? && !a.AdvanceCursor?
    ensures var z := Step(cfg, s, a);
            z.cursor == s.cursor && s.reported <= z.reported && forall k :: k in z.store && RAW <= k ==> k in s.store
  {
    if s.pc.Copying? {
      assert s.pc.keys[0] in s.pc.keys;
      ArchiveKeepsApart(s.pc.keys[0], s.pc.keys[0]);
    }
  }

  lemma {:induction false} OthersKeepCursorOk(cfg: Config, s: State, a: Action)
    requires Inv(cfg, s) && CursorOk(s) && Enabled(s, a) && !a.Upload? && !a.AdvanceCursor?
    ensures CursorOk(Step(cfg, s, a))
  {
    var z := Step(cfg, s, a);
    OthersAddNoRawKey(cfg, s, a);
    forall m ensures Passed(z, m) {
      assert Passed(s, m);
    }
    OthersKeepBatch(cfg, s, a);
  }

  /** The same batch stays complete while no raw key comes and no cursor moves. */
  lemma {:induction false} BatchStaysComplete(s: State, z: State)
    requires BatchComplete(s) && z.cursor == s.cursor && s.reported <= z.reported
    requires forall k :: k in z.store && RAW <= k ==> k in s.store
    requires !s.pc.Idle? && !z.pc.Idle? && z.pc.machine == s.pc.machine && z.pc.keys == s.pc.keys
    requires z.pc.Advancing? && z.pc.keys != [] && z.pc.keys[0] in z.store ==> z.pc.keys[0] in z.reported
    ensures BatchComplete(z)
  {
    forall k | k in z.store && RAW <= k && MachineOf(k) == Some(z.pc.machine) && Less(CursorOf(z, z.pc.machine), k)
      ensures InOrAbove(k, z.pc.keys)
    {
      assert k in s.store;
    }
  }

  lemma {:induction false} AdvancingIsSettled(cfg: Config, s: State, a: Action)
    requires HasHead(s) && BatchComplete(s) && Enabled(s, a) && !a.Upload? && !a.AdvanceCursor?
    ensures var z := Step(cfg, s, a);
            z.pc.Advancing? && z.pc.keys != [] && z.pc.keys[0] in z.store ==> z.pc.keys[0] in z.reported
  {
  }

  lemma {:induction false} OthersKeepBatch(cfg: Config, s: State, a: Action)
    requires Inv(cfg, s) && BatchComplete(s) && Enabled(s, a) && !a.Upload? && !a.AdvanceCursor?
    ensures BatchComplete(Step(cfg, s, a))
  {
    var z := Step(cfg, s, a);
    if a.List? {
      ListCompletes(cfg, s, a);
    } else if !z.pc.Idle? {
      OthersAddNoRawKey(cfg, s, a);
      AdvancingIsSettled(cfg, s, a);
      BatchStaysComplete(s, z);
    }
  }

  lemma {:induction false} ListCompletes(cfg: Config, s: State, a: Action)
    requires Inv(cfg, s) && Enabled(s, a) && a.List?
    ensures BatchComplete(Step(cfg, s, a))
  {
    var z := Step(cfg, s, a);
    forall k | k in z.store && RAW <= k && MachineOf(k) == Some(a.machine) && Less(CursorOf(z, a.machine), k)
      ensures InOrAbove(k, z.pc.keys)
    {
      PrefixMeansMachine(a.machine, k);
    }
  }

  /** A run whose uploads all sort above the machine's cursor and current batch. */
  ghost predicate OrderedRun(cfg: Config, s: State, acts: seq<Action>, z: State)
    decreases |acts|
  {
    if acts == [] then s == z
    else
      && Enabled(s, acts[0]) && (acts[0].Upload? ==> AboveAll(s, acts[0].key))
      && OrderedRun(cfg, Step(cfg, s, acts[0]), acts[1..], z)
  }

  lemma {:induction false} OrderedRunKeepsCursorOk(cfg: Config, s: State, acts: seq<Action>, z: State)
    requires Inv(cfg, s) && CursorOk(s) && OrderedRun(cfg, s, acts, z)
    ensures Inv(cfg, z) && CursorOk(z)
    decreases |acts|
  {
    if acts != [] {
      var a := acts[0];
      if a.Upload? {
        UploadKeepsCursorOk(cfg, s, a);
      } else if a.AdvanceCursor? {
        AdvanceKeepsCursorOk(cfg, s, a);
      } else {
        OthersKeepCursorOk(cfg, s, a);
      }
      StepKeepsInv(cfg, s, a);
      OrderedRunKeepsCursorOk(cfg, Step(cfg, s, a), acts[1..], z);
    }
  }

  /** Over every run with ordered uploads: what is still raw at or below the
    cursor was reported corrupt, and everything else raw is in the next listing. */
  lemma {:induction false} CursorSafety(cfg: Config, s: State, acts: seq<Action>, z: State, k: string,
                                        keys: seq<string>)
    requires Init(s) && OrderedRun(cfg, s, acts, z)
    requires k in z.store && IsRaw(k) && k !in z.reported
    requires IsListing(z.store, RawPrefix(MachineOf(k).value), CursorOf(z, MachineOf(k).value), keys)
    ensures Less(CursorOf(z, MachineOf(k).value), k) && k in keys
  {
    OrderedRunKeepsCursorOk(cfg, s, acts, z);
    assert Passed(z, MachineOf(k).value);
    Total(k, CursorOf(z, MachineOf(k).value));
    MachineHasNoSlash(k);
  }
}
