/** The server's ingest daemon as a step system (internal/process/process.go):
  list after the cursor, download, judge each line, move to the archive, advance
  the cursor. Shippers upload at any time, every request may fail, also after
  taking effect, and a crash may come between any two steps. */
module Ingest {
  import opened Lines
  import opened Lex
  import opened Store
  import opened Json
  import opened EventBuilder
  import Trim

  datatype Config = Config(codec: Codec, model: string, maxEventBytes: int)

  function ByteLimit(cfg: Config): int {
    if cfg.maxEventBytes <= 0 then 80 * 1024 else cfg.maxEventBytes
  }

  /** What the denoiser answers for one event. */
  datatype Outcome = Ok(d: Denoised) | BadOutput | Timeout | Halt

  datatype Verdict = Malformed | Internal | Oversized | Unparseable | TimedOut | Inserted(row: Row)

  /** The text handed to the denoiser for a parsed event. */
  function DenoiseInput(cfg: Config, line: string, ev: CaptureEvent): string {
    var t := Trim.TrimText(cfg.codec, line);
    if |ev.request| > 0 && !t.failed && t.n > 1 then t.text else line
  }

  /** The classes decided before the denoiser is asked; None means it is asked. */
  function Gate(cfg: Config, line: string): Option<Verdict> {
    match cfg.codec.event(line)
    case None => Some(Malformed)
    case Some(ev) =>
      if ev.isInternal then Some(Internal)
      else if |DenoiseInput(cfg, line, ev)| > ByteLimit(cfg) then Some(Oversized)
      else None
  }

  /** Where the daemon is; keys[0] is the object in hand. */
  datatype Pc =
    | Idle
    | Batch(machine: string, keys: seq<string>)
    | Reading(machine: string, keys: seq<string>, vs: seq<Verdict>)
    | Copying(machine: string, keys: seq<string>, vs: seq<Verdict>)
    | Removing(machine: string, keys: seq<string>)
    | Advancing(machine: string, keys: seq<string>)

  /** One finished pass over the object `key`. */
  datatype Account = Account(key: string, vs: seq<Verdict>)

  /** uploads is every object ever stored by a shipper; accounts keeps, for an
    archive key, the verdicts of the pass that last put it there; reported holds
    the keys logged as corrupt. Only reported and the two real stores (bucket,
    cursor table) and the event table survive a crash; uploads and accounts are history. */
  datatype State = State(
    store: map<string, string>, cursor: map<string, string>, rows: seq<Row>, reported: set<string>,
    uploads: map<string, string>, accounts: map<string, Account>, pc: Pc)

  datatype FetchResult = Fetched | Corrupt | FetchError

  datatype Action =
    | Upload(key: string, body: string)
    | List(machine: string, keys: seq<string>)
    | Fetch(res: FetchResult)
    | Judge(out: Outcome, spare: string, now: int, stored: bool, ok: bool)
    | EndLines
    | CopyObject(done: bool, ok: bool)
    | RemoveObject(done: bool, ok: bool)
    | AdvanceCursor(done: bool, ok: bool)
    | EndBatch
    | Crash

  function CursorOf(s: State, m: string): string {
    if m in s.cursor then s.cursor[m] else ""
  }

  function CurrentLines(s: State): seq<string>
    requires s.pc.Reading? && s.pc.keys != [] && s.pc.keys[0] in s.uploads
  {
    Records(s.uploads[s.pc.keys[0]])
  }

  predicate HasHead(s: State) {
    (s.pc.Reading? || s.pc.Copying? || s.pc.Removing? || s.pc.Advancing?) ==>
      s.pc.keys != [] && s.pc.keys[0] in s.uploads
  }

  /** A key a shipper may use: fresh, and of some machine. */
  predicate FreshKey(s: State, key: string) {
    IsRaw(key) && key !in s.uploads && key !in s.store && ArchiveKey(key) !in s.store
  }

  predicate Enabled(s: State, a: Action) {
    HasHead(s) &&
    match a
    case Upload(key, _) => FreshKey(s, key)
    case List(m, keys) => s.pc.Idle? && m != "" && '/' !in m && IsListing(s.store, RawPrefix(m), CursorOf(s, m), keys)
    case Fetch(res) => s.pc.Batch? && s.pc.keys != []
                       && (res.Fetched? ==> s.pc.keys[0] in s.store && s.pc.keys[0] in s.uploads)
    case Judge(_, _, _, stored, ok) => s.pc.Reading? && |s.pc.vs| < |CurrentLines(s)| && (ok ==> stored)
    case EndLines => s.pc.Reading? && |s.pc.vs| == |CurrentLines(s)|
    case CopyObject(done, ok) => s.pc.Copying? && (ok ==> done) && (done ==> s.pc.keys[0] in s.store)
    case RemoveObject(done, ok) => s.pc.Removing? && (ok ==> done)
    case AdvanceCursor(done, ok) => s.pc.Advancing? && (ok ==> done)
    case EndBatch => s.pc.Batch? && s.pc.keys == []
    case Crash => true
  }

  /** The row for a line that reached the denoiser and came back with d. */
  function RowFor(cfg: Config, line: string, d: Denoised, spare: string, now: int): Row
    requires cfg.codec.event(line).Some?
  {
    BuildRow(cfg.codec, cfg.codec.event(line).value, d, cfg.model, spare, now)
  }

  function Step(cfg: Config, s: State, a: Action): State
    requires Enabled(s, a)
  {
    match a
    case Upload(key, body) => s.(store := s.store[key := body], uploads := s.uploads[key := body])
    case List(m, keys) => s.(pc := Batch(m, keys))
    case Fetch(res) =>
      (match res
       case Fetched => s.(pc := Reading(s.pc.machine, s.pc.keys, []))
       // A body shorter than its listed size: skipped for good, cursor moves on.
       case Corrupt => s.(reported := s.reported + {s.pc.keys[0]}, pc := Advancing(s.pc.machine, s.pc.keys))
       case FetchError => s.(pc := Idle))
    case Judge(out, spare, now, stored, ok) => JudgeStep(cfg, s, out, spare, now, stored, ok)
    case EndLines => s.(pc := Copying(s.pc.machine, s.pc.keys, s.pc.vs))
    case CopyObject(done, ok) =>
      var dst := ArchiveKey(s.pc.keys[0]);
      var s1 :=
        if done then s.(store := s.store[dst := s.store[s.pc.keys[0]]],
                        accounts := s.accounts[dst := Account(s.pc.keys[0], s.pc.vs)])
        else s;
      s1.(pc := if ok then Removing(s.pc.machine, s.pc.keys) else Idle)
    case RemoveObject(done, ok) =>
      s.(store := if done then s.store - {s.pc.keys[0]} else s.store,
         pc := if ok then Advancing(s.pc.machine, s.pc.keys) else Idle)
    case AdvanceCursor(done, ok) =>
      s.(cursor := if done then s.cursor[s.pc.machine := s.pc.keys[0]] else s.cursor,
         pc := if ok then Batch(s.pc.machine, s.pc.keys[1..]) else Idle)
    case EndBatch => s.(pc := Idle)
    case Crash => s.(pc := Idle)
  }

  /** One turn of the loop in processJSONL: the rows it stored and the verdict,
    or None when the batch is given up. */
  function JudgeLine(cfg: Config, line: string, out: Outcome, spare: string, now: int, stored: bool, ok: bool)
    : (r: (seq<Row>, Option<Verdict>))
  {
    var gate := Gate(cfg, line);
    if gate.Some? then ([], gate)
    else
      match out
      case BadOutput => ([], Some(Unparseable))
      case Timeout => ([], Some(TimedOut))
      case Halt => ([], None)
      case Ok(d) =>
        var row := RowFor(cfg, line, d, spare, now);
        (if stored then [row] else [], if ok then Some(Inserted(row)) else None)
  }

  function JudgeStep(cfg: Config, s: State, out: Outcome, spare: string, now: int, stored: bool, ok: bool): State
    requires s.pc.Reading? && HasHead(s) && |s.pc.vs| < |CurrentLines(s)|
  {
    var r := JudgeLine(cfg, CurrentLines(s)[|s.pc.vs|], out, spare, now, stored, ok);
    s.(rows := s.rows + r.0,
       pc := if r.1.Some? then Reading(s.pc.machine, s.pc.keys, s.pc.vs + [r.1.value]) else Idle)
  }

  // ----- what a verdict claims -----

  predicate Fits(cfg: Config, line: string, v: Verdict) {
    match v
    case Malformed => cfg.codec.event(line).None?
    case Internal => cfg.codec.event(line).Some? && cfg.codec.event(line).value.isInternal
    case Oversized => cfg.codec.event(line).Some? && !cfg.codec.event(line).value.isInternal
                      && |DenoiseInput(cfg, line, cfg.codec.event(line).value)| > ByteLimit(cfg)
    case Unparseable => Gate(cfg, line).None?
    case TimedOut => Gate(cfg, line).None?
    case Inserted(row) => Gate(cfg, line).None? && RowOf(cfg, line, row)
  }

  /** The row is the event of this line, whatever the denoiser said about it. */
  predicate RowOf(cfg: Config, line: string, row: Row) {
    cfg.codec.event(line).Some?
    && row == RowFor(cfg, line, row.text, row.key.eventId, row.denoisedAt)
  }

  /** Every line of the body has a verdict that fits it, and inserted rows are in the table. */
  predicate Accounted(cfg: Config, body: string, vs: seq<Verdict>, rows: seq<Row>) {
    |vs| == |Records(body)| && AccountedSoFar(cfg, body, vs, rows)
  }

  predicate AccountedSoFar(cfg: Config, body: string, vs: seq<Verdict>, rows: seq<Row>) {
    && |vs| <= |Records(body)|
    && forall i :: 0 <= i < |vs| ==>
         Fits(cfg, Records(body)[i], vs[i]) && (vs[i].Inserted? ==> vs[i].row in rows)
  }

  predicate Init(s: State) {
    s.store == map[] && s.cursor == map[] && s.rows == [] && s.reported == {}
    && s.uploads == map[] && s.accounts == map[] && s.pc == Idle
  }

  predicate Leads(cfg: Config, s: State, acts: seq<Action>, z: State)
    decreases |acts|
  {
    if acts == [] then s == z
    else Enabled(s, acts[0]) && Leads(cfg, Step(cfg, s, acts[0]), acts[1..], z)
  }

  ghost predicate Reachable(cfg: Config, z: State) {
    exists s, acts :: Init(s) && Leads(cfg, s, acts, z)
  }

  // ----- the invariant -----

  /** Nothing uploaded vanishes, and nothing is archived unaccounted. */
  ghost predicate StoreOk(cfg: Config, s: State) {
    && (forall k :: k in s.uploads ==> IsRaw(k))
    && (forall k :: k in s.uploads ==> k in s.store || ArchiveKey(k) in s.store)
    && (forall k :: k in s.uploads && k in s.store ==> s.store[k] == s.uploads[k])
    && (forall k :: k in s.uploads && ArchiveKey(k) in s.store ==> ArchiveOk(cfg, s, k))
    && (forall x :: x in s.store && RAW <= x ==> x in s.uploads)
    && s.reported <= s.uploads.Keys
  }

  predicate ArchiveOk(cfg: Config, s: State, k: string) {
    && k in s.uploads && ArchiveKey(k) in s.store && ArchiveKey(k) in s.accounts
    && s.store[ArchiveKey(k)] == s.uploads[k]
    && Accounted(cfg, s.uploads[k], s.accounts[ArchiveKey(k)].vs, s.rows)
  }

  /** Whatever is not raw is the archived copy of an uploaded object. */
  ghost predicate OriginsOk(s: State) {
    forall x :: x in s.store && !(RAW <= x) ==>
      x in s.accounts && s.accounts[x].key in s.uploads && x == ArchiveKey(s.accounts[x].key)
  }

  /** Some uploaded line that was not filtered out gave this row. */
  ghost predicate Sourced(cfg: Config, s: State, row: Row) {
    exists k, line :: k in s.uploads && line in Records(s.uploads[k]) && Gate(cfg, line).None? && RowOf(cfg, line, row)
  }

  predicate PcOk(cfg: Config, s: State) {
    && HasHead(s)
    && (s.pc.Reading? ==> AccountedSoFar(cfg, s.uploads[s.pc.keys[0]], s.pc.vs, s.rows))
    && (s.pc.Copying? ==> Accounted(cfg, s.uploads[s.pc.keys[0]], s.pc.vs, s.rows))
    && (s.pc.Removing? ==> ArchiveKey(s.pc.keys[0]) in s.store)
    && (!s.pc.Idle? ==>
          && Ascending(s.pc.keys)
          && (forall k :: k in s.pc.keys ==> k in s.uploads && Less(CursorOf(s, s.pc.machine), k))
          && (forall k :: k in s.pc.keys && (s.pc.Advancing? ==> k != s.pc.keys[0]) ==> k in s.store)
          && (forall k :: k in s.pc.keys ==> MachineOf(k) == Some(s.pc.machine)))
  }

  ghost predicate Inv(cfg: Config, s: State) {
    StoreOk(cfg, s) && PcOk(cfg, s) && forall row :: row in s.rows ==> Sourced(cfg, s, row)
  }
}
