/** From a captured event to a table row (internal/process/event_builder.go). */
module EventBuilder {
  import opened Lines
  import opened Json

  datatype Denoised = Denoised(userText: string, assistantText: string, summary: string, hasDecision: bool,
                               skipReason: string)

  /** The sort key the table merges on. */
  datatype RowKey = RowKey(projectId: string, capturedAt: int, eventId: string)

  datatype Row = Row(key: RowKey, machine: string, source: string, isInternal: bool, sessionHint: string,
                     request: string, response: string, reply: Reply,
                     firstChunkMs: nat, totalMs: nat, errorType: string, errorMessage: string,
                     text: Denoised, denoisedAt: int, denoiseModel: string)

  function First64(s: string): string {
    if |s| > 64 then s[..64] else s
  }

  /** The text the project id is derived from; None stands for "unknown". */
  function SystemText(c: Codec, request: string): Option<string> {
    var body := ObjectOf(c, request);
    if body.None? then None
    else
      var f := body.value;
      if "system" !in f || f["system"].Null? then None
      else if f["system"].Str? then (if f["system"].s == "" then None else Some(f["system"].s))
      else
        var raw := c.encode(f["system"]);
        if raw == "null" || raw == "" || raw == "[]" then None else Some(raw)
  }

  function ProjectId(c: Codec, request: string): string {
    match SystemText(c, request)
    case None => "unknown"
    case Some(s) => c.hash(First64(s))
  }

  /** What is taken from the response body. */
  datatype Reply = Reply(model: string, stopReason: string,
                         inputTokens: nat, outputTokens: nat, cacheWrite: nat, cacheRead: nat)

  const NO_REPLY := Reply("", "", 0, 0, 0, 0)

  /** A struct field of type uint32. */
  function CountField(f: map<string, Json>, name: string): Option<nat> {
    if name !in f || f[name].Null? then Some(0)
    else if f[name].Num? && 0.0 <= f[name].n < 4294967296.0 && f[name].n.Floor as real == f[name].n
    then Some(f[name].n.Floor)
    else None
  }

  /** One ill-typed field rejects the whole body. */
  function ParseReply(c: Codec, response: string): Option<Reply> {
    var body := ObjectOf(c, response);
    if body.None? then None
    else
      var f := body.value;
      var usage := if "usage" !in f then Some(map[]) else AsObject(f["usage"]);
      if usage.None? then None
      else
        var u := usage.value;
        var model, stop := StringField(f, "model"), StringField(f, "stop_reason");
        var i, o := CountField(u, "input_tokens"), CountField(u, "output_tokens");
        var w, r := CountField(u, "cache_creation_input_tokens"), CountField(u, "cache_read_input_tokens");
        if model.None? || stop.None? || i.None? || o.None? || w.None? || r.None? then None
        else Some(Reply(model.value, stop.value, i.value, o.value, w.value, r.value))
  }

  function ObjectOf(c: Codec, text: string): Option<map<string, Json>> {
    if text == "" then None
    else match c.decode(text) case None => None case Some(j) => AsObject(j)
  }

  function RequestModel(c: Codec, request: string): string {
    var f := ObjectOf(c, request);
    if f.Some? && StringField(f.value, "model").Some? then StringField(f.value, "model").value else ""
  }

  /** buildEvent. `spare` is the UUID used when the stored one does not parse. */
  function BuildRow(c: Codec, ev: CaptureEvent, d: Denoised, denoiseModel: string, spare: string, now: int): Row {
    var id := match c.uuid(ev.eventId) case Some(u) => u case None => spare;
    var parsed := ParseReply(c, ev.response);
    var reply := if parsed.Some? then parsed.value else NO_REPLY;
    Row(RowKey(ProjectId(c, ev.request), ev.capturedAt, id),
        ev.machine,
        if ev.source == "" then "anthropic_api" else ev.source,
        ev.isInternal,
        match ev.sessionHint case Some(h) => h case None => "",
        ev.request, ev.response,
        if reply.model == "" then reply.(model := RequestModel(c, ev.request)) else reply,
        match ev.streamMeta case Some(m) => m.firstChunkMs case None => 0,
        match ev.streamMeta case Some(m) => m.totalMs case None => 0,
        match ev.error case Some(e) => e.kind case None => "",
        match ev.error case Some(e) => e.message case None => "",
        d, now, denoiseModel)
  }

  /** The merge key of a parseable event is fixed by the event: neither the
    denoiser, nor the clock, nor the fallback UUID enters it. */
  lemma KeyFixedByEvent(c: Codec, ev: CaptureEvent, d1: Denoised, d2: Denoised, m1: string, m2: string,
                        f1: string, f2: string, t1: int, t2: int)
    ensures var k1 := BuildRow(c, ev, d1, m1, f1, t1).key;
            var k2 := BuildRow(c, ev, d2, m2, f2, t2).key;
            k1 == k2 <==> c.uuid(ev.eventId).Some? || f1 == f2
  {}

  /** The project id says "unknown" exactly when there is no system text, unless
    the hash of some text happens to be that word. */
  lemma ProjectUnknownExactly(c: Codec, request: string)
    requires forall s :: c.hash(s) != "unknown"
    ensures ProjectId(c, request) == "unknown" <==>
            || ObjectOf(c, request).None?
            || (var f := ObjectOf(c, request).value;
                || "system" !in f || f["system"] == Null || f["system"] == Str("")
                || (!f["system"].Str? && c.encode(f["system"]) in ["null", "", "[]"]))
  {}

  /** Requests whose system texts agree on 64 bytes belong to one project. */
  lemma ProjectReads64Bytes(c: Codec, r1: string, r2: string)
    requires SystemText(c, r1).Some? && SystemText(c, r2).Some?
    requires First64(SystemText(c, r1).value) == First64(SystemText(c, r2).value)
    ensures ProjectId(c, r1) == ProjectId(c, r2)
  {}
}
