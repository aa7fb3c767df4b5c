/** What the verdict of each archived line says of that line, and each stored row
  of its event, column by column (internal/process/process.go, event_builder.go). */
module Verdicts {
  import opened Lines
  import opened Store
  import opened Json
  import opened EventBuilder
  import opened Ingest
  import IngestSafety
  import Trim

  // ----- the class of a line -----

  /** The text measured is the trimmed one if the event has a request body and
    trimming it worked on two messages or more, and otherwise the line. The limit
    is 80 KiB unless a positive one is set. */
  predicate TooLarge(cfg: Config, line: string, ev: CaptureEvent) {
    var limit := if cfg.maxEventBytes > 0 then cfg.maxEventBytes else 81_920;
    var t := Trim.TrimText(cfg.codec, line);
    if ev.request != "" && !t.failed && t.n >= 2 then |t.text| > limit else |line| > limit
  }

  /** Parsed, not marc's own, and small enough: the line goes to the denoiser. */
  predicate HandedOn(cfg: Config, line: string) {
    var ev := cfg.codec.event(line);
    ev.Some? && !ev.value.isInternal && !TooLarge(cfg, line, ev.value)
  }

  predicate VerdictSays(cfg: Config, line: string, v: Verdict) {
    var ev := cfg.codec.event(line);
    && (v.Malformed? <==> ev.None?)
    && (v.Internal? <==> ev.Some? && ev.value.isInternal)
    && (v.Oversized? <==> ev.Some? && !ev.value.isInternal && TooLarge(cfg, line, ev.value))
    && (v.Unparseable? || v.TimedOut? || v.Inserted? <==> HandedOn(cfg, line))
    && (v.Inserted? ==> RowSays(cfg.codec, ev.value, v.row) && v.row.denoiseModel == cfg.model)
  }

  lemma {:induction false} FittingVerdictSays(cfg: Config, line: string, v: Verdict)
    requires Fits(cfg, line, v)
    ensures VerdictSays(cfg, line, v)
  {
    if v.Inserted? {
      var ev := cfg.codec.event(line).value;
      BuiltRowSays(cfg.codec, ev, v.row.text, cfg.model, v.row.key.eventId, v.row.denoisedAt);
    }
  }

  /** In every reachable state the recorded verdict of each line of each archived
    object says exactly what that line is, and the row of an inserted one is in the
    table and holds its event. */
  lemma {:induction false} ArchivedVerdictsSay(cfg: Config, z: State, x: string, i: nat)
    requires Reachable(cfg, z) && x in z.store && !(RAW <= x) && i < |Records(z.store[x])|
    ensures x in z.accounts && |z.accounts[x].vs| == |Records(z.store[x])|
    ensures VerdictSays(cfg, Records(z.store[x])[i], z.accounts[x].vs[i])
    ensures z.accounts[x].vs[i].Inserted? ==> z.accounts[x].vs[i].row in z.rows
  {
    IngestSafety.ArchivedMeansAccounted(cfg, z, x, i);
    FittingVerdictSays(cfg, Records(z.store[x])[i], z.accounts[x].vs[i]);
  }

  /** Conversely, every row in the table holds the event of some uploaded line that
    was handed on. */
  lemma {:induction false} EveryRowSays(cfg: Config, z: State, row: Row) returns (k: string, line: string)
    requires Reachable(cfg, z) && row in z.rows
    ensures k in z.uploads && line in Records(z.uploads[k]) && HandedOn(cfg, line)
    ensures RowSays(cfg.codec, cfg.codec.event(line).value, row) && row.denoiseModel == cfg.model
  {
    IngestSafety.ReachableInv(cfg, z);
    assert Sourced(cfg, z, row);
    k, line :| k in z.uploads && line in Records(z.uploads[k]) && Gate(cfg, line).None? && RowOf(cfg, line, row);
    FittingVerdictSays(cfg, line, Inserted(row));
  }

  /** Judging one line: what is not handed on gets its class and no row, whatever
    the denoiser says; of the rest, output that cannot be parsed and a timeout get
    theirs, an outage ends the batch, and an answer becomes a row, which ends the
    batch too unless its insert is acknowledged. */
  lemma {:induction false} JudgingSays(cfg: Config, s: State, a: Action)
    requires Enabled(s, a) && a.Judge?
    ensures var z, line := Step(cfg, s, a), IngestSafety.JudgedLine(s);
            && (!HandedOn(cfg, line) ==>
                  && z.rows == s.rows && Judged(s, z)
                  && !LastVerdict(s, z).Inserted? && VerdictSays(cfg, line, LastVerdict(s, z)))
            && (HandedOn(cfg, line) && a.out.BadOutput? ==>
                  z.rows == s.rows && Judged(s, z) && LastVerdict(s, z).Unparseable?)
            && (HandedOn(cfg, line) && a.out.Timeout? ==>
                  z.rows == s.rows && Judged(s, z) && LastVerdict(s, z).TimedOut?)
            && (HandedOn(cfg, line) && a.out.Halt? ==> z.rows == s.rows && z.pc.Idle?)
            && (HandedOn(cfg, line) && a.out.Ok? ==>
                  && (!a.stored ==> z.rows == s.rows)
                  && (a.stored ==>
                        && |z.rows| == |s.rows| + 1 && s.rows <= z.rows
                        && RowOfAnswer(cfg, line, a, z.rows[|s.rows|]))
                  && (!a.ok ==> z.pc.Idle?)
                  && (a.ok ==>
                        && Judged(s, z) && LastVerdict(s, z).Inserted?
                        && RowOfAnswer(cfg, line, a, LastVerdict(s, z).row)))
  {
    var line := IngestSafety.JudgedLine(s);
    IngestSafety.JudgementFits(cfg, line, a.out, a.spare, a.now, a.stored, a.ok);
    var r := JudgeLine(cfg, line, a.out, a.spare, a.now, a.stored, a.ok);
    if r.1.Some? {
      FittingVerdictSays(cfg, line, r.1.value);
    }
    if HandedOn(cfg, line) && a.out.Ok? {
      BuiltRowSays(cfg.codec, cfg.codec.event(line).value, a.out.d, cfg.model, a.spare, a.now);
    }
  }

  predicate Judged(s: State, z: State)
    requires s.pc.Reading?
  {
    z.pc.Reading? && z.pc.machine == s.pc.machine && z.pc.keys == s.pc.keys
    && |z.pc.vs| == |s.pc.vs| + 1 && s.pc.vs <= z.pc.vs
  }

  function LastVerdict(s: State, z: State): Verdict
    requires s.pc.Reading? && Judged(s, z)
  {
    z.pc.vs[|s.pc.vs|]
  }

  predicate RowOfAnswer(cfg: Config, line: string, a: Action, row: Row)
    requires cfg.codec.event(line).Some? && a.Judge? && a.out.Ok?
  {
    && RowSays(cfg.codec, cfg.codec.event(line).value, row)
    && row.text == a.out.d && row.denoisedAt == a.now && row.denoiseModel == cfg.model
  }

  // ----- the columns of a row -----

  /** A named field; null when it is absent. */
  function At(f: map<string, Json>, name: string): Json {
    if name in f then f[name] else Null
  }

  /** The fields of a body that is a JSON object, or null as an empty one. */
  function Body(c: Codec, text: string): Option<map<string, Json>> {
    if text == "" then None
    else
      match c.decode(text)
      case Some(Obj(f)) => Some(f)
      case Some(Null) => Some(map[])
      case _ => None
  }

  predicate TextOrNone(j: Json) { j.Str? || j.Null? }

  /** Absent, null, or a whole number below 2^32. */
  predicate CountOrNone(j: Json) {
    j.Null? || (j.Num? && 0.0 <= j.n < 4_294_967_296.0 && j.n == j.n.Floor as real)
  }

  function UsageOf(f: map<string, Json>): map<string, Json> {
    if At(f, "usage").Obj? then At(f, "usage").fields else map[]
  }

  /** Every field of the response that is read has its type. */
  predicate ReplyTyped(f: map<string, Json>) {
    && TextOrNone(At(f, "model")) && TextOrNone(At(f, "stop_reason"))
    && (At(f, "usage").Obj? || At(f, "usage").Null?)
    && CountOrNone(At(UsageOf(f), "input_tokens")) && CountOrNone(At(UsageOf(f), "output_tokens"))
    && CountOrNone(At(UsageOf(f), "cache_creation_input_tokens"))
    && CountOrNone(At(UsageOf(f), "cache_read_input_tokens"))
  }

  predicate Holds(j: Json, s: string) {
    if j.Str? then s == j.s else s == ""
  }

  predicate Counts(j: Json, n: nat) {
    if j.Num? then n as real == j.n else n == 0
  }

  /** The columns taken from the response: all of them from its fields if they are
    all typed, and none otherwise; the request names the model if the response does not. */
  predicate ReplySays(c: Codec, ev: CaptureEvent, r: Reply) {
    var body := Body(c, ev.response);
    if body.Some? && ReplyTyped(body.value) then
      var f, u := body.value, UsageOf(body.value);
      && Holds(At(f, "stop_reason"), r.stopReason)
      && Counts(At(u, "input_tokens"), r.inputTokens) && Counts(At(u, "output_tokens"), r.outputTokens)
      && Counts(At(u, "cache_creation_input_tokens"), r.cacheWrite)
      && Counts(At(u, "cache_read_input_tokens"), r.cacheRead)
      && if At(f, "model") in [Null, Str("")] then ModelFromRequest(c, ev, r.model)
         else At(f, "model") == Str(r.model)
    else
      && r.stopReason == "" && r.inputTokens == r.outputTokens == r.cacheWrite == r.cacheRead == 0
      && ModelFromRequest(c, ev, r.model)
  }

  predicate ModelFromRequest(c: Codec, ev: CaptureEvent, model: string) {
    var body := Body(c, ev.request);
    if body.Some? && TextOrNone(At(body.value, "model")) then Holds(At(body.value, "model"), model) else model == ""
  }

  /** The text the project is known by: a string as it is, anything else as JSON text. */
  function ProjectText(c: Codec, request: string): string {
    var body := Body(c, request);
    if body.None? || At(body.value, "system").Null? then ""
    else if At(body.value, "system").Str? then At(body.value, "system").s
    else if c.encode(At(body.value, "system")) in ["null", "[]"] then ""
    else c.encode(At(body.value, "system"))
  }

  /** The project is the hash of the first 64 bytes of that text. */
  predicate ProjectSays(c: Codec, request: string, id: string) {
    var text := ProjectText(c, request);
    if text == "" then id == "unknown" else id == c.hash(if |text| <= 64 then text else text[..64])
  }

  predicate RowSays(c: Codec, ev: CaptureEvent, row: Row) {
    && row.key.capturedAt == ev.capturedAt && ProjectSays(c, ev.request, row.key.projectId)
    && (c.uuid(ev.eventId).Some? ==> row.key.eventId == c.uuid(ev.eventId).value)
    && row.machine == ev.machine
    && row.source == (if |ev.source| > 0 then ev.source else "anthropic_api")
    && row.isInternal == ev.isInternal
    && row.sessionHint == (if ev.sessionHint.Some? then ev.sessionHint.value else "")
    && row.request == ev.request && row.response == ev.response
    && ReplySays(c, ev, row.reply)
    && row.firstChunkMs == (if ev.streamMeta.Some? then ev.streamMeta.value.firstChunkMs else 0)
    && row.totalMs == (if ev.streamMeta.Some? then ev.streamMeta.value.totalMs else 0)
    && row.errorType == (if ev.error.Some? then ev.error.value.kind else "")
    && row.errorMessage == (if ev.error.Some? then ev.error.value.message else "")
  }

  lemma {:induction false} BodyIsObject(c: Codec, text: string)
    ensures Body(c, text) == ObjectOf(c, text)
  {
  }

  lemma {:induction false} FieldIsText(f: map<string, Json>, name: string)
    ensures TextOrNone(At(f, name)) <==> StringField(f, name).Some?
    ensures TextOrNone(At(f, name)) ==> Holds(At(f, name), StringField(f, name).value)
  {
  }

  lemma {:induction false} FieldIsCount(u: map<string, Json>, name: string)
    ensures CountOrNone(At(u, name)) <==> CountField(u, name).Some?
    ensures CountOrNone(At(u, name)) ==> Counts(At(u, name), CountField(u, name).value)
  {
  }

  lemma {:induction false} RequestModelSays(c: Codec, ev: CaptureEvent)
    ensures ModelFromRequest(c, ev, RequestModel(c, ev.request))
  {
    BodyIsObject(c, ev.request);
    var body := ObjectOf(c, ev.request);
    if body.Some? {
      FieldIsText(body.value, "model");
    }
  }

  lemma {:induction false} ParsedReplySays(c: Codec, response: string, f: map<string, Json>)
    requires ObjectOf(c, response) == Some(f)
    ensures ParseReply(c, response).Some? <==> ReplyTyped(f)
    ensures ReplyTyped(f) ==>
              var r := ParseReply(c, response).value;
              && Holds(At(f, "model"), r.model) && Holds(At(f, "stop_reason"), r.stopReason)
              && Counts(At(UsageOf(f), "input_tokens"), r.inputTokens)
              && Counts(At(UsageOf(f), "output_tokens"), r.outputTokens)
              && Counts(At(UsageOf(f), "cache_creation_input_tokens"), r.cacheWrite)
              && Counts(At(UsageOf(f), "cache_read_input_tokens"), r.cacheRead)
  {
    FieldIsText(f, "model");
    FieldIsText(f, "stop_reason");
    FieldIsCount(UsageOf(f), "input_tokens");
    FieldIsCount(UsageOf(f), "output_tokens");
    FieldIsCount(UsageOf(f), "cache_creation_input_tokens");
    FieldIsCount(UsageOf(f), "cache_read_input_tokens");
  }

  lemma {:induction false} BuiltReplySays(c: Codec, ev: CaptureEvent, d: Denoised, model: string, spare: string,
                                          now: int)
    ensures ReplySays(c, ev, BuildRow(c, ev, d, model, spare, now).reply)
  {
    BodyIsObject(c, ev.response);
    RequestModelSays(c, ev);
    var body := ObjectOf(c, ev.response);
    if body.Some? {
      ParsedReplySays(c, ev.response, body.value);
    }
  }

  lemma {:induction false} BuiltProjectSays(c: Codec, request: string)
    ensures ProjectSays(c, request, ProjectId(c, request))
  {
    BodyIsObject(c, request);
  }

  lemma {:induction false} BuiltRowSays(c: Codec, ev: CaptureEvent, d: Denoised, model: string, spare: string, now: int)
    ensures var row := BuildRow(c, ev, d, model, spare, now);
            RowSays(c, ev, row) && row.text == d && row.denoisedAt == now && row.denoiseModel == model
  {
    BuiltReplySays(c, ev, d, model, spare, now);
    BuiltProjectSays(c, ev.request);
  }
}
