/** Rebuilding a message from its stream of deltas (internal/proxy/sse_aggregate.go). */
module SseAggregate {
  import opened Lines
  import opened Json
  import opened SseFraming

  type Object = map<string, Json>

  // ----- what one event means to the aggregator -----

  datatype Piece = Text(s: string) | Thinking(s: string) | Signature(s: string) | Partial(s: string) | OtherPiece

  datatype Ev =
    | MessageStart(msg: Object)
    | Start(idx: int, block: Option<Object>)
    | Delta(idx: int, piece: Piece)
    | MessageDelta(delta: Option<Object>, usage: Option<Object>)
    | Noise

  /** int(f): a float64 truncated toward zero. */
  function Truncate(r: real): int {
    if r >= 0.0 then r.Floor else -((-r).Floor)
  }

  function IndexOf(p: Object): int {
    if "index" in p && p["index"].Num? then Truncate(p["index"].n) else 0
  }

  /** A type assertion to map[string]any, which null fails. */
  function ObjectAt(p: Object, name: string): Option<Object> {
    if name in p && p[name].Obj? then Some(p[name].fields) else None
  }

  function TextAt(p: Object, name: string): Option<string> {
    if name in p && p[name].Str? then Some(p[name].s) else None
  }

  function PieceOf(d: Object): Piece {
    var kind := TextAt(d, "type");
    if kind == Some("text_delta") && TextAt(d, "text").Some? then Text(TextAt(d, "text").value)
    else if kind == Some("thinking_delta") && TextAt(d, "thinking").Some? then Thinking(TextAt(d, "thinking").value)
    else if kind == Some("signature_delta") && TextAt(d, "signature").Some? then Signature(TextAt(d, "signature").value)
    else if kind == Some("input_json_delta") && TextAt(d, "partial_json").Some? then
      Partial(TextAt(d, "partial_json").value)
    else OtherPiece
  }

  /** Malformed data, pings and unknown events are all Noise. */
  function Classify(c: Codec, e: SseEvent): Ev {
    var j := if e.data == "" then None else c.decode(e.data);
    if j.None? || AsObject(j.value).None? then Noise
    else
      var p := AsObject(j.value).value;
      if e.name == "message_start" then
        (if ObjectAt(p, "message").Some? then MessageStart(ObjectAt(p, "message").value) else Noise)
      else if e.name == "content_block_start" then Start(IndexOf(p), ObjectAt(p, "content_block"))
      else if e.name == "content_block_delta" then
        (if ObjectAt(p, "delta").Some? then Delta(IndexOf(p), PieceOf(ObjectAt(p, "delta").value)) else Noise)
      else if e.name == "message_delta" then MessageDelta(ObjectAt(p, "delta"), ObjectAt(p, "usage"))
      else Noise
  }

  // ----- the fold -----

  /** response, blocks and toolPartials; crashed is the index panic of a negative index. */
  datatype Agg = Agg(response: Option<Object>, blocks: seq<Option<Object>>, partials: map<int, string>, crashed: bool)

  const EMPTY := Agg(None, [], map[], false)

  function Grow(blocks: seq<Option<Object>>, n: int): (r: seq<Option<Object>>)
    ensures |r| == if |blocks| < n then n else |blocks|
    ensures forall i :: 0 <= i < |r| ==> r[i] == if i < |blocks| then blocks[i] else None
    decreases n - |blocks|
  {
    if |blocks| < n then Grow(blocks + [None], n) else blocks
  }

  function IsToolUse(block: Option<Object>): bool {
    block.Some? && "type" in block.value && block.value["type"] == Str("tool_use")
  }

  function TextOr(b: Object, key: string): string {
    if key in b && b[key].Str? then b[key].s else ""
  }

  function ApplyPiece(b: Object, p: Piece): Object {
    match p
    case Text(s) => b["text" := Str(TextOr(b, "text") + s)]
    case Thinking(s) => b["thinking" := Str(TextOr(b, "thinking") + s)]
    case Signature(s) => b["signature" := Str(s)]
    case Partial(_) => b
    case OtherPiece => b
  }

  function MergeDelta(response: Object, delta: Option<Object>, usage: Option<Object>): Object {
    var r1 := if delta.Some? && "stop_reason" in delta.value
              then response["stop_reason" := delta.value["stop_reason"]] else response;
    var r2 := if delta.Some? && "stop_sequence" in delta.value
              then r1["stop_sequence" := delta.value["stop_sequence"]] else r1;
    if usage.None? then r2
    else r2["usage" := Obj((if ObjectAt(r2, "usage").Some? then ObjectAt(r2, "usage").value else map[]) + usage.value)]
  }

  function OnEvent(a: Agg, e: Ev): Agg {
    if a.crashed then a
    else
      match e
      case MessageStart(m) => a.(response := Some(m))
      case MessageDelta(d, u) =>
        if a.response.None? then a else a.(response := Some(MergeDelta(a.response.value, d, u)))
      case Start(i, b) =>
        if i < 0 then a.(crashed := true)
        else
          a.(blocks := Grow(a.blocks, i + 1)[i := b],
             partials := if IsToolUse(b) then a.partials[i := ""] else a.partials)
      case Delta(i, p) =>
        if i < 0 then a.(crashed := true)
        else
          var grown := Grow(a.blocks, i + 1);
          var b := if grown[i].Some? then grown[i].value else map[];
          a.(blocks := grown[i := Some(ApplyPiece(b, p))],
             partials := if p.Partial? && i in a.partials then a.partials[i := a.partials[i] + p.s] else a.partials)
      case Noise => a
  }

  function Fold(es: seq<Ev>): Agg {
    if es == [] then EMPTY else OnEvent(Fold(es[..|es| - 1]), es[|es| - 1])
  }

  /** The partial JSON of a block replaces its input when it parses. */
  function Finish(c: Codec, a: Agg, i: int): Option<Object>
    requires 0 <= i < |a.blocks|
  {
    if a.blocks[i].Some? && i in a.partials && c.decode(a.partials[i]).Some?
    then Some(a.blocks[i].value["input" := c.decode(a.partials[i]).value])
    else a.blocks[i]
  }

  function Finished(c: Codec, a: Agg): (r: seq<Option<Object>>)
    ensures |r| == |a.blocks| && forall i :: 0 <= i < |r| ==> r[i] == Finish(c, a, i)
  {
    seq(|a.blocks|, i requires 0 <= i < |a.blocks| => Finish(c, a, i))
  }

  /** The content array: a slot that was never filled leaves no element. */
  function Collect(slots: seq<Option<Object>>): seq<Json> {
    if slots == [] then []
    else
      Collect(slots[..|slots| - 1])
      + if slots[|slots| - 1].Some? then [Obj(slots[|slots| - 1].value)] else []
  }

  datatype Result = Nothing | Message(msg: Object) | Panic

  function Assemble(c: Codec, a: Agg): Result {
    if a.crashed then Panic
    else if a.response.None? then Nothing
    else Message(a.response.value["content" := Arr(Collect(Finished(c, a)))])
  }

  function Classified(c: Codec, es: seq<SseEvent>): (r: seq<Ev>)
    ensures |r| == |es| && forall i :: 0 <= i < |es| ==> r[i] == Classify(c, es[i])
  {
    if es == [] then [] else Classified(c, es[..|es| - 1]) + [Classify(c, es[|es| - 1])]
  }

  function Aggregate(c: Codec, raw: string): Result {
    Assemble(c, Fold(Classified(c, Dispatch(ScanLines(raw)))))
  }
}
