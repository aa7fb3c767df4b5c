/** At-least-once delivery with a merging table: repeats change nothing. */
module Redelivery {
  import opened Lines
  import opened Store
  import opened EventBuilder
  import opened Ingest
  import opened IngestSafety

  /** The denoiser's answer as a function of the line; only an outage (Halt) may
    come in between. */
  type Denoiser = string -> Outcome

  predicate Steady(cfg: Config, den: Denoiser, s: State, a: Action) {
    && (a.Judge? && s.pc.Reading? && HasHead(s) && |s.pc.vs| < |CurrentLines(s)| ==>
          a.out == Halt || a.out == den(JudgedLine(s)))
    && (a.Upload? ==> forall line :: line in Records(a.body) ==> IdParses(cfg, line))
  }

  predicate IdParses(cfg: Config, line: string) {
    cfg.codec.event(line).Some? ==> cfg.codec.uuid(cfg.codec.event(line).value.eventId).Some?
  }

  ghost predicate SteadyRun(cfg: Config, den: Denoiser, s: State, acts: seq<Action>, z: State)
    decreases |acts|
  {
    if acts == [] then s == z
    else
      && Enabled(s, acts[0]) && Steady(cfg, den, s, acts[0])
      && SteadyRun(cfg, den, Step(cfg, s, acts[0]), acts[1..], z)
  }

  // ----- the reference: one pass without crashes -----

  predicate Kept(cfg: Config, den: Denoiser, line: string) {
    Gate(cfg, line).None? && den(line).Ok?
  }

  function KeyOf(cfg: Config, line: string): RowKey
    requires Gate(cfg, line).None?
  {
    var ev := cfg.codec.event(line).value;
    RowKey(ProjectId(cfg.codec, ev.request), ev.capturedAt,
           if cfg.codec.uuid(ev.eventId).Some? then cfg.codec.uuid(ev.eventId).value else "")
  }

  /** The keys a single uninterrupted pass over the lines puts into the table. */
  function OnePass(cfg: Config, den: Denoiser, lines: seq<string>): set<RowKey> {
    if lines == [] then {}
    else OnePass(cfg, den, lines[..|lines| - 1])
         + if Kept(cfg, den, lines[|lines| - 1]) then {KeyOf(cfg, lines[|lines| - 1])} else {}
  }

  /** The merged table: one row per sort key. */
  function MergedKeys(rows: seq<Row>): set<RowKey> {
    set r | r in rows :: r.key
  }

  // ----- the invariant -----

  predicate VerdictSteady(cfg: Config, den: Denoiser, line: string, v: Verdict) {
    v.Inserted? <==> Kept(cfg, den, line)
  }

  predicate VerdictsSteady(cfg: Config, den: Denoiser, body: string, vs: seq<Verdict>) {
    && |vs| <= |Records(body)|
    && forall i :: 0 <= i < |vs| ==> VerdictSteady(cfg, den, Records(body)[i], vs[i])
  }

  ghost predicate FromKept(cfg: Config, den: Denoiser, s: State, row: Row) {
    exists k, line :: k in s.uploads && line in Records(s.uploads[k]) && Kept(cfg, den, line)
                      && row.key == KeyOf(cfg, line)
  }

  predicate IdsOk(cfg: Config, s: State) {
    forall k, line :: k in s.uploads && line in Records(s.uploads[k]) ==> IdParses(cfg, line)
  }

  ghost predicate RowsKept(cfg: Config, den: Denoiser, s: State) {
    forall row :: row in s.rows ==> FromKept(cfg, den, s, row)
  }

  predicate AccountSteady(cfg: Config, den: Denoiser, s: State, acc: Account) {
    acc.key in s.uploads && VerdictsSteady(cfg, den, s.uploads[acc.key], acc.vs)
  }

  predicate AccountsSteady(cfg: Config, den: Denoiser, s: State) {
    forall x :: x in s.accounts ==> AccountSteady(cfg, den, s, s.accounts[x])
  }

  predicate ArchivesKnown(s: State) {
    forall k :: k in s.uploads && ArchiveKey(k) in s.store ==>
      ArchiveKey(k) in s.accounts && s.accounts[ArchiveKey(k)].key == k
  }

  predicate PcSteady(cfg: Config, den: Denoiser, s: State) {
    HasHead(s) && (s.pc.Reading? || s.pc.Copying? ==> VerdictsSteady(cfg, den, s.uploads[s.pc.keys[0]], s.pc.vs))
  }

  ghost predicate SteadyInv(cfg: Config, den: Denoiser, s: State) {
    IdsOk(cfg, s) && RowsKept(cfg, den, s) && AccountsSteady(cfg, den, s) && ArchivesKnown(s) && PcSteady(cfg, den, s)
  }

  lemma {:induction false} RowKeyIsKeyOf(cfg: Config, line: string, row: Row)
    requires Gate(cfg, line).None? && IdParses(cfg, line) && RowOf(cfg, line, row)
    ensures row.key == KeyOf(cfg, line)
  {
  }

  lemma {:induction false} FromKeptStays(cfg: Config, den: Denoiser, s: State, z: State, row: Row)
    requires FromKept(cfg, den, s, row) && s.uploads.Keys <= z.uploads.Keys
    requires forall k :: k in s.uploads ==> z.uploads[k] == s.uploads[k]
    ensures FromKept(cfg, den, z, row)
  {
    var k, line :| k in s.uploads && line in Records(s.uploads[k]) && Kept(cfg, den, line)
                       && row.key == KeyOf(cfg, line);
    assert k in z.uploads;
  }

  lemma {:induction false} SteadyJudgement(cfg: Config, den: Denoiser, line: string, a: Action)
    requires a.Judge? && (a.out == Halt || a.out == den(line)) && IdParses(cfg, line) && (a.ok ==> a.stored)
    ensures var r := JudgeLine(cfg, line, a.out, a.spare, a.now, a.stored, a.ok);
            && (r.1.Some? ==> VerdictSteady(cfg, den, line, r.1.value))
            && (forall row :: row in r.0 ==> Kept(cfg, den, line) && row.key == KeyOf(cfg, line))
  {
    var r := JudgeLine(cfg, line, a.out, a.spare, a.now, a.stored, a.ok);
    JudgementFits(cfg, line, a.out, a.spare, a.now, a.stored, a.ok);
    forall row | row in r.0 ensures Kept(cfg, den, line) && row.key == KeyOf(cfg, line) {
      RowKeyIsKeyOf(cfg, line, row);
    }
  }

  lemma {:induction false} SteadyJudgeKeepsRows(cfg: Config, den: Denoiser, s: State, a: Action)
    requires IdsOk(cfg, s) && RowsKept(cfg, den, s) && Enabled(s, a) && a.Judge? && Steady(cfg, den, s, a)
    ensures RowsKept(cfg, den, Step(cfg, s, a))
  {
    var z := Step(cfg, s, a);
    var head := s.pc.keys[0];
    var line := JudgedLine(s);
    assert head in s.uploads && line in Records(s.uploads[head]);
    SteadyJudgement(cfg, den, line, a);
    forall row | row in z.rows ensures FromKept(cfg, den, z, row) {
      if row in s.rows {
        FromKeptStays(cfg, den, s, z, row);
      } else {
        assert row in JudgeLine(cfg, line, a.out, a.spare, a.now, a.stored, a.ok).0;
        assert head in z.uploads && line in Records(z.uploads[head]);
      }
    }
  }

  lemma {:induction false} SteadyJudgeKeepsInv(cfg: Config, den: Denoiser, s: State, a: Action)
    requires SteadyInv(cfg, den, s) && Enabled(s, a) && a.Judge? && Steady(cfg, den, s, a)
    ensures SteadyInv(cfg, den, Step(cfg, s, a))
  {
    var z := Step(cfg, s, a);
    var line := JudgedLine(s);
    assert s.pc.keys[0] in s.uploads && line in Records(s.uploads[s.pc.keys[0]]);
    SteadyJudgement(cfg, den, line, a);
    SteadyJudgeKeepsRows(cfg, den, s, a);
    forall x | x in z.accounts ensures AccountSteady(cfg, den, z, z.accounts[x]) {
      assert AccountSteady(cfg, den, s, s.accounts[x]);
    }
  }

  lemma {:induction false} UploadKeepsAccounts(cfg: Config, den: Denoiser, s: State, a: Action)
    requires AccountsSteady(cfg, den, s) && Enabled(s, a) && a.Upload?
    ensures AccountsSteady(cfg, den, Step(cfg, s, a))
  {
    var z := Step(cfg, s, a);
    forall x | x in z.accounts ensures AccountSteady(cfg, den, z, z.accounts[x]) {
      assert AccountSteady(cfg, den, s, s.accounts[x]);
    }
  }

  lemma {:induction false} UploadKeepsArchives(cfg: Config, s: State, a: Action)
    requires StoreOk(cfg, s) && ArchivesKnown(s) && Enabled(s, a) && a.Upload?
    ensures ArchivesKnown(Step(cfg, s, a))
  {
    forall k | k in s.uploads ensures ArchiveKey(k) != a.key {
      ArchiveKeepsApart(k, a.key);
    }
    ArchiveKeepsApart(a.key, a.key);
  }

  lemma {:induction false} SteadyUploadKeepsInv(cfg: Config, den: Denoiser, s: State, a: Action)
    requires StoreOk(cfg, s) && SteadyInv(cfg, den, s) && Enabled(s, a) && a.Upload? && Steady(cfg, den, s, a)
    ensures SteadyInv(cfg, den, Step(cfg, s, a))
  {
    var z := Step(cfg, s, a);
    forall row | row in z.rows ensures FromKept(cfg, den, z, row) {
      FromKeptStays(cfg, den, s, z, row);
    }
    UploadKeepsAccounts(cfg, den, s, a);
    UploadKeepsArchives(cfg, s, a);
  }

  lemma {:induction false} OtherStepsKeepArchives(cfg: Config, s: State, a: Action)
    requires ArchivesKnown(s) && Enabled(s, a) && !a.Judge? && !a.Upload? && forall k :: k in s.uploads ==> RAW <= k
    ensures ArchivesKnown(Step(cfg, s, a))
  {
    if a.CopyObject? {
      forall k | k in s.uploads ensures ArchiveKey(k) == ArchiveKey(s.pc.keys[0]) <==> k == s.pc.keys[0] {
        ArchiveKeepsApart(k, s.pc.keys[0]);
      }
    }
  }

  lemma {:induction false} OtherStepsKeepPc(cfg: Config, den: Denoiser, s: State, a: Action)
    requires PcSteady(cfg, den, s) && Enabled(s, a) && !a.Judge? && !a.Upload?
    requires !s.pc.Idle? && s.pc.keys != [] ==> s.pc.keys[0] in s.uploads
    ensures PcSteady(cfg, den, Step(cfg, s, a))
  {
    assert Step(cfg, s, a).uploads == s.uploads;
  }

  lemma {:induction false} OtherStepsKeepAccounts(cfg: Config, den: Denoiser, s: State, a: Action)
    requires PcSteady(cfg, den, s) && AccountsSteady(cfg, den, s) && Enabled(s, a) && !a.Judge? && !a.Upload?
    requires !s.pc.Idle? && s.pc.keys != [] ==> s.pc.keys[0] in s.uploads
    ensures AccountsSteady(cfg, den, Step(cfg, s, a))
  {
    var z := Step(cfg, s, a);
    forall x | x in z.accounts ensures AccountSteady(cfg, den, z, z.accounts[x]) {
      assert x in s.accounts ==> AccountSteady(cfg, den, s, s.accounts[x]);
    }
  }

  lemma {:induction false} RowsStayKept(cfg: Config, den: Denoiser, s: State, z: State)
    requires RowsKept(cfg, den, s) && z.rows == s.rows && z.uploads == s.uploads
    ensures RowsKept(cfg, den, z)
  {
    forall row | row in z.rows ensures FromKept(cfg, den, z, row) {
      FromKeptStays(cfg, den, s, z, row);
    }
  }

  lemma {:induction false} OtherStepsKeepHistory(cfg: Config, s: State, a: Action)
    requires Enabled(s, a) && !a.Judge? && !a.Upload?
    ensures Step(cfg, s, a).uploads == s.uploads && Step(cfg, s, a).rows == s.rows
  {
  }

  lemma {:induction false} OtherStepsKeepSteadyInv(cfg: Config, den: Denoiser, s: State, a: Action)
    requires SteadyInv(cfg, den, s) && Enabled(s, a) && !a.Judge? && !a.Upload?
    requires (forall k :: k in s.uploads ==> RAW <= k) && (!s.pc.Idle? && s.pc.keys != [] ==> s.pc.keys[0] in s.uploads)
    ensures SteadyInv(cfg, den, Step(cfg, s, a))
  {
    OtherStepsKeepHistory(cfg, s, a);
    OtherStepsKeepArchives(cfg, s, a);
    OtherStepsKeepPc(cfg, den, s, a);
    OtherStepsKeepAccounts(cfg, den, s, a);
    RowsStayKept(cfg, den, s, Step(cfg, s, a));
  }

  lemma {:induction false} SteadyRunKeepsInv(cfg: Config, den: Denoiser, s: State, acts: seq<Action>, z: State)
    requires Inv(cfg, s) && OriginsOk(s) && SteadyInv(cfg, den, s) && SteadyRun(cfg, den, s, acts, z)
    ensures Inv(cfg, z) && OriginsOk(z) && SteadyInv(cfg, den, z)
    decreases |acts|
  {
    if acts != [] {
      var a := acts[0];
      StepKeepsInv(cfg, s, a);
      StepKeepsOrigins(cfg, s, a);
      if a.Judge? {
        SteadyJudgeKeepsInv(cfg, den, s, a);
      } else if a.Upload? {
        SteadyUploadKeepsInv(cfg, den, s, a);
      } else {
        assert !s.pc.Idle? && s.pc.keys != [] ==> s.pc.keys[0] in s.pc.keys;
        OtherStepsKeepSteadyInv(cfg, den, s, a);
      }
      SteadyRunKeepsInv(cfg, den, Step(cfg, s, a), acts[1..], z);
    }
  }

  // ----- the theorem -----

  /** The reference pass depends only on which lines it sees. */
  lemma {:induction false} OnePassKeys(cfg: Config, den: Denoiser, lines: seq<string>, key: RowKey)
    ensures key in OnePass(cfg, den, lines) <==>
            exists line :: line in lines && Kept(cfg, den, line) && key == KeyOf(cfg, line)
  {
    if lines != [] {
      var last := lines[|lines| - 1];
      OnePassKeys(cfg, den, lines[..|lines| - 1], key);
      assert lines == lines[..|lines| - 1] + [last];
    }
  }

  /** `feed` lists the events of all uploads: any order, any repetition. */
  ghost predicate ListsUploads(s: State, feed: seq<string>) {
    forall line :: line in feed <==> exists k :: k in s.uploads && line in Records(s.uploads[k])
  }

  /** After any crashes, halts, retries and duplicate uploads, once every object
    is archived the merged table has exactly the keys of one uninterrupted pass. */
  lemma {:induction false} RedeliveryIsIdempotent(cfg: Config, den: Denoiser, s: State, acts: seq<Action>, z: State,
                                                  feed: seq<string>)
    requires Init(s) && SteadyRun(cfg, den, s, acts, z) && ListsUploads(z, feed)
    requires forall k :: k in z.uploads ==> ArchiveKey(k) in z.store
    ensures MergedKeys(z.rows) == OnePass(cfg, den, feed)
  {
    SteadyRunKeepsInv(cfg, den, s, acts, z);
    forall key ensures key in MergedKeys(z.rows) <==> key in OnePass(cfg, den, feed) {
      OnePassKeys(cfg, den, feed, key);
      if key in MergedKeys(z.rows) {
        MergedKeyWasKept(cfg, den, z, feed, key);
      }
      if key in OnePass(cfg, den, feed) {
        KeptKeyIsMerged(cfg, den, z, feed, key);
      }
    }
  }

  lemma {:induction false} MergedKeyWasKept(cfg: Config, den: Denoiser, z: State, feed: seq<string>, key: RowKey)
    requires RowsKept(cfg, den, z) && ListsUploads(z, feed) && key in MergedKeys(z.rows)
    ensures key in OnePass(cfg, den, feed)
  {
    OnePassKeys(cfg, den, feed, key);
    var row :| row in z.rows && row.key == key;
    assert FromKept(cfg, den, z, row);
    var k, line :| k in z.uploads && line in Records(z.uploads[k]) && Kept(cfg, den, line)
                       && row.key == KeyOf(cfg, line);
    assert line in feed;
  }

  lemma {:induction false} KeptKeyIsMerged(cfg: Config, den: Denoiser, z: State, feed: seq<string>, key: RowKey)
    requires Inv(cfg, z) && SteadyInv(cfg, den, z) && ListsUploads(z, feed) && key in OnePass(cfg, den, feed)
    requires forall k :: k in z.uploads ==> ArchiveKey(k) in z.store
    ensures key in MergedKeys(z.rows)
  {
    OnePassKeys(cfg, den, feed, key);
    var line :| line in feed && Kept(cfg, den, line) && key == KeyOf(cfg, line);
    var k :| k in z.uploads && line in Records(z.uploads[k]);
    assert ArchiveOk(cfg, z, k) && AccountSteady(cfg, den, z, z.accounts[ArchiveKey(k)]);
    assert IdParses(cfg, line);
    KeptLineIsMerged(cfg, den, z.uploads[k], z.accounts[ArchiveKey(k)].vs, z.rows, line);
  }

  lemma {:induction false} KeptLineIsMerged(cfg: Config, den: Denoiser, body: string, vs: seq<Verdict>,
                                            rows: seq<Row>, line: string)
    requires Accounted(cfg, body, vs, rows) && VerdictsSteady(cfg, den, body, vs)
    requires line in Records(body) && Kept(cfg, den, line) && IdParses(cfg, line)
    ensures KeyOf(cfg, line) in MergedKeys(rows)
  {
    var i :| 0 <= i < |Records(body)| && Records(body)[i] == line;
    assert VerdictSteady(cfg, den, line, vs[i]) && Fits(cfg, line, vs[i]);
    RowKeyIsKeyOf(cfg, line, vs[i].row);
  }
}
