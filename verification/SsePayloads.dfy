/** What a rebuilt message says in terms of the JSON payloads of its stream
  (internal/proxy/sse_aggregate.go): every field of the output, read off the
  payloads by name and type. */
module SsePayloads {
  import opened Lines
  import opened Json
  import opened SseFraming
  import opened SseAggregate
  import opened SseRebuild

  // ----- reading a payload -----

  function At(p: Object, name: string): Json {
    if name in p then p[name] else Null
  }

  /** The data of an event as an object; the JSON null is an empty one. */
  function Payload(c: Codec, e: SseEvent): Option<Object> {
    if e.data == "" then None
    else
      match c.decode(e.data)
      case Some(Obj(f)) => Some(f)
      case Some(Null) => Some(map[])
      case _ => None
  }

  predicate Carries(c: Codec, e: SseEvent, name: string) {
    e.name == name && Payload(c, e).Some?
  }

  /** The payload is about block i: its index, cut towards zero, or 0 without one. */
  predicate Place(p: Object, i: int) {
    if At(p, "index").Num? then
      var n := At(p, "index").n;
      if i > 0 then i as real <= n < (i + 1) as real
      else if i < 0 then (i - 1) as real < n <= i as real
      else -1.0 < n < 1.0
    else i == 0
  }

  lemma {:induction false} PlaceIsIndex(p: Object, i: int)
    ensures Place(p, i) <==> IndexOf(p) == i
  {
    if At(p, "index").Num? {
      var n := p["index"].n;
      if n >= 0.0 {
        assert n.Floor as real <= n < (n.Floor + 1) as real;
      } else {
        var m := -n;
        assert m.Floor as real <= m < (m.Floor + 1) as real;
      }
    }
  }

  // ----- what is said to a block -----

  /** A content_block_delta for block i whose delta has this type and this text. */
  predicate Says(c: Codec, e: SseEvent, i: int, kind: string, field: string) {
    Carries(c, e, "content_block_delta")
    && var p := Payload(c, e).value;
    && Place(p, i) && At(p, "delta").Obj?
    && At(At(p, "delta").fields, "type") == Str(kind) && At(At(p, "delta").fields, field).Str?
  }

  function Said(c: Codec, e: SseEvent, i: int, kind: string, field: string): string
    requires Says(c, e, i, kind, field)
  {
    At(At(Payload(c, e).value, "delta").fields, field).s
  }

  predicate Speaks(c: Codec, es: seq<SseEvent>, i: int, kind: string, field: string) {
    exists k :: 0 <= k < |es| && Says(c, es[k], i, kind, field)
  }

  /** All that is said, one after the other. */
  function Spoken(c: Codec, es: seq<SseEvent>, i: int, kind: string, field: string): string {
    if es == [] then ""
    else
      var e := es[|es| - 1];
      Spoken(c, es[..|es| - 1], i, kind, field)
      + if Says(c, e, i, kind, field) then Said(c, e, i, kind, field) else ""
  }

  function LastSpoken(c: Codec, es: seq<SseEvent>, i: int, kind: string, field: string): string {
    if es == [] then ""
    else if Says(c, es[|es| - 1], i, kind, field) then Said(c, es[|es| - 1], i, kind, field)
    else LastSpoken(c, es[..|es| - 1], i, kind, field)
  }

  /** A content_block_start for block i. */
  predicate Begins(c: Codec, e: SseEvent, i: int) {
    Carries(c, e, "content_block_start") && Place(Payload(c, e).value, i)
  }

  /** ... that starts a tool call. */
  predicate BeginsTool(c: Codec, e: SseEvent, i: int) {
    Begins(c, e, i)
    && var b := At(Payload(c, e).value, "content_block");
       b.Obj? && At(b.fields, "type") == Str("tool_use")
  }

  /** A content_block_delta for block i, whatever its delta says. */
  predicate Addresses(c: Codec, e: SseEvent, i: int) {
    Carries(c, e, "content_block_delta") && Place(Payload(c, e).value, i) && At(Payload(c, e).value, "delta").Obj?
  }

  /** The value block i starts with: that of the last content_block_start for it,
    if that is an object. */
  function StartBlock(c: Codec, es: seq<SseEvent>, i: int): Option<Object> {
    if es == [] then None
    else if Begins(c, es[|es| - 1], i) then
      var b := At(Payload(c, es[|es| - 1]).value, "content_block");
      if b.Obj? then Some(b.fields) else None
    else StartBlock(c, es[..|es| - 1], i)
  }

  /** The events since then; all of them if there was no start. */
  function Since(c: Codec, es: seq<SseEvent>, i: int): seq<SseEvent> {
    if es == [] || Begins(c, es[|es| - 1], i) then [] else Since(c, es[..|es| - 1], i) + [es[|es| - 1]]
  }

  /** The events since the last start of a tool call at i. */
  function SinceTool(c: Codec, es: seq<SseEvent>, i: int): seq<SseEvent> {
    if es == [] || BeginsTool(c, es[|es| - 1], i) then [] else SinceTool(c, es[..|es| - 1], i) + [es[|es| - 1]]
  }

  predicate HadTool(c: Codec, es: seq<SseEvent>, i: int) {
    exists k :: 0 <= k < |es| && BeginsTool(c, es[k], i)
  }

  /** Block i is in the output: its last start gave an object, or a delta came since. */
  predicate Present(c: Codec, es: seq<SseEvent>, i: int) {
    StartBlock(c, es, i).Some? || exists e :: e in Since(c, es, i) && Addresses(c, e, i)
  }

  // ----- payloads and the events they are classified as -----

  lemma {:induction false} PayloadIsObject(c: Codec, e: SseEvent)
    ensures var j := if e.data == "" then None else c.decode(e.data);
            Payload(c, e) == if j.None? then None else AsObject(j.value)
  {
  }

  lemma {:induction false} PieceSays(d: Object)
    ensures PieceOf(d).Text? <==> At(d, "type") == Str("text_delta") && At(d, "text").Str?
    ensures PieceOf(d).Thinking? <==> At(d, "type") == Str("thinking_delta") && At(d, "thinking").Str?
    ensures PieceOf(d).Signature? <==> At(d, "type") == Str("signature_delta") && At(d, "signature").Str?
    ensures PieceOf(d).Partial? <==> At(d, "type") == Str("input_json_delta") && At(d, "partial_json").Str?
    ensures PieceOf(d).Text? ==> PieceOf(d).s == At(d, "text").s
    ensures PieceOf(d).Thinking? ==> PieceOf(d).s == At(d, "thinking").s
    ensures PieceOf(d).Signature? ==> PieceOf(d).s == At(d, "signature").s
    ensures PieceOf(d).Partial? ==> PieceOf(d).s == At(d, "partial_json").s
  {
  }

  lemma {:induction false} DeltaSays(c: Codec, e: SseEvent)
    ensures Classify(c, e).Delta? <==> Carries(c, e, "content_block_delta") && At(Payload(c, e).value, "delta").Obj?
    ensures Classify(c, e).Delta? ==>
              && Classify(c, e).idx == IndexOf(Payload(c, e).value)
              && Classify(c, e).piece == PieceOf(At(Payload(c, e).value, "delta").fields)
  {
    PayloadIsObject(c, e);
  }

  lemma {:induction false} StartSays(c: Codec, e: SseEvent)
    ensures Classify(c, e).Start? <==> Carries(c, e, "content_block_start")
    ensures Classify(c, e).Start? ==>
              && Classify(c, e).idx == IndexOf(Payload(c, e).value)
              && var b := At(Payload(c, e).value, "content_block");
                 Classify(c, e).block == if b.Obj? then Some(b.fields) else None
  {
    PayloadIsObject(c, e);
  }

  /** Which events are about block i. */
  lemma {:induction false} PlacedEvents(c: Codec, e: SseEvent, i: int)
    ensures var v := Classify(c, e);
            && (v.Start? && v.idx == i <==> Begins(c, e, i))
            && (v.Delta? && v.idx == i <==> Addresses(c, e, i))
            && (Begins(c, e, i) && IsToolUse(v.block) <==> BeginsTool(c, e, i))
  {
    StartSays(c, e);
    DeltaSays(c, e);
    if Payload(c, e).Some? {
      PlaceIsIndex(Payload(c, e).value, i);
    }
  }

  /** A block event that is read and whose index is -1 or below. */
  predicate AtNegative(c: Codec, e: SseEvent) {
    && (Carries(c, e, "content_block_start")
        || (Carries(c, e, "content_block_delta") && At(Payload(c, e).value, "delta").Obj?))
    && At(Payload(c, e).value, "index").Num? && At(Payload(c, e).value, "index").n <= -1.0
  }

  lemma {:induction false} BelowZero(p: Object)
    ensures IndexOf(p) < 0 <==> At(p, "index").Num? && At(p, "index").n <= -1.0
  {
  }

  lemma {:induction false} NegativeSays(c: Codec, e: SseEvent)
    ensures Negative(Classify(c, e)) <==> AtNegative(c, e)
  {
    StartSays(c, e);
    DeltaSays(c, e);
    if Payload(c, e).Some? {
      BelowZero(Payload(c, e).value);
    }
  }

  lemma {:induction false} ClassifiedOneMore(c: Codec, es: seq<SseEvent>)
    requires es != []
    ensures Classified(c, es)[..|es| - 1] == Classified(c, es[..|es| - 1])
    ensures Classified(c, es)[|es| - 1] == Classify(c, es[|es| - 1])
  {
  }

  lemma {:induction false} SpokenOneMore(c: Codec, es: seq<SseEvent>, e: SseEvent, i: int, kind: string, field: string)
    ensures var after, says := es + [e], Says(c, e, i, kind, field);
            && Spoken(c, after, i, kind, field) == Spoken(c, es, i, kind, field)
                                                   + (if says then Said(c, e, i, kind, field) else "")
            && LastSpoken(c, after, i, kind, field)
               == (if says then Said(c, e, i, kind, field) else LastSpoken(c, es, i, kind, field))
            && (Speaks(c, after, i, kind, field) <==> Speaks(c, es, i, kind, field) || says)
  {
    var after := es + [e];
    assert after[..|after| - 1] == es && after[|after| - 1] == e;
    if k :| 0 <= k < |es| && Says(c, es[k], i, kind, field) {
      assert after[k] == es[k];
    }
  }

  lemma {:induction false} NothingSpoken(c: Codec, es: seq<SseEvent>, i: int, kind: string, field: string)
    requires !Speaks(c, es, i, kind, field)
    ensures Spoken(c, es, i, kind, field) == ""
  {
    if es != [] {
      var p := es[..|es| - 1];
      assert forall k :: 0 <= k < |p| ==> p[k] == es[k];
      assert !Says(c, es[|es| - 1], i, kind, field);
      NothingSpoken(c, p, i, kind, field);
    }
  }

  // ----- a block of the output -----

  predicate Same(b: Object, start: Object, name: string) {
    (name in b <==> name in start) && (name in b ==> b[name] == start[name])
  }

  /** The field is the start text followed by all that was said; untouched if nothing was. */
  predicate Grown(c: Codec, es: seq<SseEvent>, i: int, start: Object, b: Object, kind: string, field: string) {
    if Speaks(c, es, i, kind, field) then
      field in b
      && b[field] == Str((if At(start, field).Str? then At(start, field).s else "") + Spoken(c, es, i, kind, field))
    else Same(b, start, field)
  }

  predicate SignedLast(c: Codec, es: seq<SseEvent>, i: int, start: Object, b: Object) {
    if Speaks(c, es, i, "signature_delta", "signature") then
      "signature" in b && b["signature"] == Str(LastSpoken(c, es, i, "signature_delta", "signature"))
    else Same(b, start, "signature")
  }

  function Begun(c: Codec, es: seq<SseEvent>, i: int): Object {
    match StartBlock(c, es, i)
    case Some(b) => b
    case None => map[]
  }

  /** Every field of block i: since its last start, text and thinking grow and the
    signature is the last one; the input is the parse of the partial JSON joined
    since the last tool call started there, if that parses; all else is as it started. */
  ghost predicate BlockSays(c: Codec, es: seq<SseEvent>, i: int, b: Object) {
    var start, since := Begun(c, es, i), Since(c, es, i);
    && Grown(c, since, i, start, b, "text_delta", "text")
    && Grown(c, since, i, start, b, "thinking_delta", "thinking")
    && SignedLast(c, since, i, start, b)
    && (var input := c.decode(Spoken(c, SinceTool(c, es, i), i, "input_json_delta", "partial_json"));
        if HadTool(c, es, i) && input.Some? then "input" in b && b["input"] == input.value
        else Same(b, start, "input"))
    && forall f :: f !in {"text", "thinking", "signature", "input"} ==> Same(b, start, f)
  }

  /** The same before the input is put in. */
  ghost predicate BodySays(c: Codec, since: seq<SseEvent>, i: int, start: Object, b: Object) {
    && Grown(c, since, i, start, b, "text_delta", "text")
    && Grown(c, since, i, start, b, "thinking_delta", "thinking")
    && SignedLast(c, since, i, start, b)
    && forall f :: f !in {"text", "thinking", "signature"} ==> Same(b, start, f)
  }

  function TextBefore(start: Object, field: string): string {
    if At(start, field).Str? then At(start, field).s else ""
  }

  /** What the field reads as before an event. */
  lemma {:induction false} GrownText(c: Codec, es: seq<SseEvent>, i: int, start: Object, b: Object, kind: string,
                                     field: string)
    requires Grown(c, es, i, start, b, kind, field)
    ensures TextOr(b, field) == TextBefore(start, field) + Spoken(c, es, i, kind, field)
  {
    if !Speaks(c, es, i, kind, field) {
      NothingSpoken(c, es, i, kind, field);
      assert TextBefore(start, field) + "" == TextBefore(start, field);
    }
  }

  lemma {:induction false} GrownOneMore(c: Codec, es: seq<SseEvent>, e: SseEvent, i: int, start: Object, b: Object,
                                        z: Object, kind: string, field: string)
    requires Grown(c, es, i, start, b, kind, field)
    requires if Says(c, e, i, kind, field)
             then field in z && z[field] == Str(TextOr(b, field) + Said(c, e, i, kind, field)) else Same(z, b, field)
    ensures Grown(c, es + [e], i, start, z, kind, field)
  {
    SpokenOneMore(c, es, e, i, kind, field);
    if Says(c, e, i, kind, field) {
      GrownText(c, es, i, start, b, kind, field);
      Associate(TextBefore(start, field), Spoken(c, es, i, kind, field), Said(c, e, i, kind, field));
    } else {
      assert Spoken(c, es + [e], i, kind, field) == Spoken(c, es, i, kind, field);
    }
  }

  lemma Associate(a: string, b: string, x: string)
    ensures (a + b) + x == a + (b + x)
  {}

  /** What a delta does to its block. */
  lemma {:induction false} DeltaGrows(c: Codec, since: seq<SseEvent>, e: SseEvent, i: int, start: Object, b: Object)
    requires BodySays(c, since, i, start, b) && Addresses(c, e, i)
    ensures Classify(c, e).Delta? && BodySays(c, since + [e], i, start, ApplyPiece(b, Classify(c, e).piece))
  {
    DeltaSays(c, e);
    PieceSays(At(Payload(c, e).value, "delta").fields);
    var z := ApplyPiece(b, Classify(c, e).piece);
    GrownOneMore(c, since, e, i, start, b, z, "text_delta", "text");
    GrownOneMore(c, since, e, i, start, b, z, "thinking_delta", "thinking");
    SpokenOneMore(c, since, e, i, "signature_delta", "signature");
    forall f | f !in {"text", "thinking", "signature"} ensures Same(z, start, f) {
      assert Same(b, start, f) && Same(z, b, f);
    }
  }

  /** An event about something else says nothing to a block. */
  lemma {:induction false} OtherLeaves(c: Codec, since: seq<SseEvent>, e: SseEvent, i: int, start: Object, b: Object)
    requires BodySays(c, since, i, start, b) && !Addresses(c, e, i)
    ensures BodySays(c, since + [e], i, start, b)
  {
    GrownOneMore(c, since, e, i, start, b, b, "text_delta", "text");
    GrownOneMore(c, since, e, i, start, b, b, "thinking_delta", "thinking");
    SpokenOneMore(c, since, e, i, "signature_delta", "signature");
  }

  /** The slot of a block, an empty object if it is not filled. */
  function Slot(a: Agg, i: nat): Object {
    if i < |a.blocks| && a.blocks[i].Some? then a.blocks[i].value else map[]
  }

  ghost predicate SlotSays(c: Codec, es: seq<SseEvent>, a: Agg, i: nat) {
    && (i < |a.blocks| && a.blocks[i].Some? <==> Present(c, es, i))
    && BodySays(c, Since(c, es, i), i, Begun(c, es, i), Slot(a, i))
  }

  ghost predicate InputSays(c: Codec, es: seq<SseEvent>, a: Agg, i: nat) {
    && (i in a.partials <==> HadTool(c, es, i))
    && (i in a.partials ==>
          a.partials[i] == Spoken(c, SinceTool(c, es, i), i, "input_json_delta", "partial_json"))
  }

  lemma {:induction false} PresentOneMore(c: Codec, es: seq<SseEvent>, i: nat)
    requires es != [] && !Begins(c, es[|es| - 1], i)
    ensures Present(c, es, i) <==> Present(c, es[..|es| - 1], i) || Addresses(c, es[|es| - 1], i)
  {
    var x, e := Since(c, es[..|es| - 1], i), es[|es| - 1];
    assert Since(c, es, i) == x + [e] && e in x + [e];
    assert forall d :: d in x + [e] <==> d in x || d == e;
  }

  lemma {:induction false} BeginningSays(c: Codec, es: seq<SseEvent>, a: Agg, i: nat)
    requires es != [] && !a.crashed && Begins(c, es[|es| - 1], i)
    ensures SlotSays(c, es, OnEvent(a, Classify(c, es[|es| - 1])), i)
  {
    PlacedEvents(c, es[|es| - 1], i);
    StartSays(c, es[|es| - 1]);
    assert Since(c, es, i) == [];
  }

  lemma {:induction false} AddressingSays(c: Codec, es: seq<SseEvent>, a: Agg, i: nat)
    requires es != [] && !a.crashed && Addresses(c, es[|es| - 1], i) && SlotSays(c, es[..|es| - 1], a, i)
    ensures SlotSays(c, es, OnEvent(a, Classify(c, es[|es| - 1])), i)
  {
    var p, e, v := es[..|es| - 1], es[|es| - 1], Classify(c, es[|es| - 1]);
    PlacedEvents(c, e, i);
    PresentOneMore(c, es, i);
    DeltaGrows(c, Since(c, p, i), e, i, Begun(c, p, i), Slot(a, i));
    assert Slot(OnEvent(a, v), i) == ApplyPiece(Slot(a, i), v.piece);
  }

  /** An event about something else leaves the slot as it was. */
  lemma {:induction false} SlotStays(c: Codec, a: Agg, e: SseEvent, i: nat)
    requires !a.crashed && !AtNegative(c, e) && !Begins(c, e, i) && !Addresses(c, e, i)
    ensures var z := OnEvent(a, Classify(c, e));
            && Slot(z, i) == Slot(a, i)
            && (i < |z.blocks| && z.blocks[i].Some? <==> i < |a.blocks| && a.blocks[i].Some?)
  {
    PlacedEvents(c, e, i);
    NegativeSays(c, e);
  }

  lemma {:induction false} NextSlotSays(c: Codec, es: seq<SseEvent>, a: Agg, i: nat)
    requires es != [] && !a.crashed && !AtNegative(c, es[|es| - 1]) && SlotSays(c, es[..|es| - 1], a, i)
    ensures SlotSays(c, es, OnEvent(a, Classify(c, es[|es| - 1])), i)
  {
    var p, e := es[..|es| - 1], es[|es| - 1];
    if Begins(c, e, i) {
      BeginningSays(c, es, a, i);
    } else if Addresses(c, e, i) {
      AddressingSays(c, es, a, i);
    } else {
      SlotStays(c, a, e, i);
      PresentOneMore(c, es, i);
      OtherLeaves(c, Since(c, p, i), e, i, Begun(c, p, i), Slot(a, i));
    }
  }

  lemma {:induction false} HadToolOneMore(c: Codec, es: seq<SseEvent>, i: nat)
    requires es != []
    ensures HadTool(c, es, i) <==> HadTool(c, es[..|es| - 1], i) || BeginsTool(c, es[|es| - 1], i)
  {
    var p := es[..|es| - 1];
    if k :| 0 <= k < |p| && BeginsTool(c, p[k], i) {
      assert es[k] == p[k];
    }
    if k :| 0 <= k < |es| && BeginsTool(c, es[k], i) {
      assert k < |p| ==> p[k] == es[k];
    }
  }

  /** What an event does to the partial JSON kept for block i. */
  lemma {:induction false} PartialsSay(c: Codec, a: Agg, e: SseEvent, i: nat)
    requires !a.crashed && !AtNegative(c, e)
    ensures var z, says := OnEvent(a, Classify(c, e)), Says(c, e, i, "input_json_delta", "partial_json");
            && (i in z.partials <==> i in a.partials || BeginsTool(c, e, i))
            && (BeginsTool(c, e, i) ==> z.partials[i] == "")
            && (!BeginsTool(c, e, i) && i in a.partials ==>
                  z.partials[i]
                  == if says then a.partials[i] + Said(c, e, i, "input_json_delta", "partial_json") else a.partials[i])
  {
    PlacedEvents(c, e, i);
    NegativeSays(c, e);
    if Addresses(c, e, i) {
      DeltaSays(c, e);
      PieceSays(At(Payload(c, e).value, "delta").fields);
    }
  }

  lemma {:induction false} NextInputSays(c: Codec, es: seq<SseEvent>, a: Agg, i: nat)
    requires es != [] && !a.crashed && !AtNegative(c, es[|es| - 1]) && InputSays(c, es[..|es| - 1], a, i)
    ensures InputSays(c, es, OnEvent(a, Classify(c, es[|es| - 1])), i)
  {
    var p, e := es[..|es| - 1], es[|es| - 1];
    PartialsSay(c, a, e, i);
    HadToolOneMore(c, es, i);
    if BeginsTool(c, e, i) {
      assert SinceTool(c, es, i) == [];
    } else {
      SpokenOneMore(c, SinceTool(c, p, i), e, i, "input_json_delta", "partial_json");
      if i in a.partials && !Says(c, e, i, "input_json_delta", "partial_json") {
        assert a.partials[i] + "" == a.partials[i];
      }
    }
  }

  ghost predicate NoneNegative(c: Codec, es: seq<SseEvent>) {
    forall k :: 0 <= k < |es| ==> !AtNegative(c, es[k])
  }

  lemma {:induction false} NoneNegativeBefore(c: Codec, es: seq<SseEvent>)
    requires es != [] && NoneNegative(c, es)
    ensures NoneNegative(c, es[..|es| - 1]) && !AtNegative(c, es[|es| - 1]) && !Negative(Classify(c, es[|es| - 1]))
  {
    var p := es[..|es| - 1];
    forall k | 0 <= k < |p| ensures !AtNegative(c, p[k]) {
      assert p[k] == es[k];
    }
    NegativeSays(c, es[|es| - 1]);
  }

  lemma {:induction false} FoldNext(c: Codec, es: seq<SseEvent>)
    requires es != []
    ensures Fold(Classified(c, es)) == OnEvent(Fold(Classified(c, es[..|es| - 1])), Classify(c, es[|es| - 1]))
  {
    ClassifiedOneMore(c, es);
  }

  lemma {:induction false} NothingCrashes(c: Codec, es: seq<SseEvent>)
    requires NoneNegative(c, es)
    ensures !Fold(Classified(c, es)).crashed
  {
    if es != [] {
      NoneNegativeBefore(c, es);
      NothingCrashes(c, es[..|es| - 1]);
      FoldNext(c, es);
    }
  }

  /** The aggregator's state after any stream that does not make it panic. */
  lemma {:induction false} StateSays(c: Codec, es: seq<SseEvent>, i: nat)
    requires NoneNegative(c, es)
    ensures SlotSays(c, es, Fold(Classified(c, es)), i) && InputSays(c, es, Fold(Classified(c, es)), i)
  {
    if es == [] {
      assert Classified(c, es) == [];
    } else {
      var p := es[..|es| - 1];
      NoneNegativeBefore(c, es);
      NothingCrashes(c, p);
      StateSays(c, p, i);
      FoldNext(c, es);
      NextSlotSays(c, es, Fold(Classified(c, p)), i);
      NextInputSays(c, es, Fold(Classified(c, p)), i);
    }
  }

  lemma {:induction false} FinishedSays(c: Codec, es: seq<SseEvent>, a: Agg, i: nat)
    requires SlotSays(c, es, a, i) && InputSays(c, es, a, i) && Present(c, es, i)
    ensures Finish(c, a, i).Some? && BlockSays(c, es, i, Finish(c, a, i).value)
  {
    var b, z := a.blocks[i].value, Finish(c, a, i).value;
    assert Same(b, Begun(c, es, i), "input");
    forall f | f !in {"text", "thinking", "signature", "input"} ensures Same(z, Begun(c, es, i), f) {
      assert Same(b, Begun(c, es, i), f) && Same(z, b, f);
    }
  }

  /** How many blocks below n are present: the place of block n in the output. */
  function PresentBelow(c: Codec, es: seq<SseEvent>, n: nat): nat {
    if n == 0 then 0
    else PresentBelow(c, es, n - 1) + if Present(c, es, n - 1) then 1 else 0
  }

  lemma {:induction false} CollectedSays(c: Codec, es: seq<SseEvent>, slots: seq<Option<Object>>, i: nat)
    requires forall k :: 0 <= k < |slots| ==> (slots[k].Some? <==> Present(c, es, k))
    ensures |Collect(slots)| == PresentBelow(c, es, |slots|)
    ensures i < |slots| && slots[i].Some? ==>
              PresentBelow(c, es, i) < |Collect(slots)| && Collect(slots)[PresentBelow(c, es, i)] == Obj(slots[i].value)
  {
    if slots != [] {
      CollectedSays(c, es, slots[..|slots| - 1], i);
    }
  }

  lemma {:induction false} NonePresentAbove(c: Codec, es: seq<SseEvent>, m: nat, n: nat)
    requires m <= n && forall k :: k >= m ==> !Present(c, es, k)
    ensures PresentBelow(c, es, n) == PresentBelow(c, es, m)
  {
    if m < n {
      NonePresentAbove(c, es, m, n - 1);
    }
  }

  // ----- the envelope of the output -----

  /** The message object of a message_start. */
  predicate Opens(c: Codec, e: SseEvent) {
    Carries(c, e, "message_start") && At(Payload(c, e).value, "message").Obj?
  }

  predicate HasMessage(c: Codec, es: seq<SseEvent>) {
    exists k :: 0 <= k < |es| && Opens(c, es[k])
  }

  predicate Updates(c: Codec, e: SseEvent, name: string) {
    && Carries(c, e, "message_delta") && name in {"stop_reason", "stop_sequence"}
    && At(Payload(c, e).value, "delta").Obj? && name in At(Payload(c, e).value, "delta").fields
  }

  predicate Counts(c: Codec, e: SseEvent) {
    Carries(c, e, "message_delta") && At(Payload(c, e).value, "usage").Obj?
  }

  /** A field of the message: from the last message_start, or a later message_delta
    if it is one of the two stop fields. */
  function FieldOf(c: Codec, es: seq<SseEvent>, name: string): Option<Json> {
    if es == [] then None
    else
      var e := es[|es| - 1];
      if Opens(c, e) then
        var m := At(Payload(c, e).value, "message").fields;
        if name in m then Some(m[name]) else None
      else if Updates(c, e, name) then Some(At(Payload(c, e).value, "delta").fields[name])
      else FieldOf(c, es[..|es| - 1], name)
  }

  /** Some message_delta brought usage since the last message_start. */
  predicate Counted(c: Codec, es: seq<SseEvent>) {
    es != [] && !Opens(c, es[|es| - 1]) && (Counts(c, es[|es| - 1]) || Counted(c, es[..|es| - 1]))
  }

  /** One usage figure: the latest one given. */
  function FigureOf(c: Codec, es: seq<SseEvent>, key: string): Option<Json> {
    if es == [] then None
    else
      var e := es[|es| - 1];
      if Opens(c, e) then
        var u := At(At(Payload(c, e).value, "message").fields, "usage");
        if u.Obj? && key in u.fields then Some(u.fields[key]) else None
      else if Counts(c, e) && key in At(Payload(c, e).value, "usage").fields then
        Some(At(Payload(c, e).value, "usage").fields[key])
      else FigureOf(c, es[..|es| - 1], key)
  }

  /** Every field of the envelope but usage, and usage where no delta brought any. */
  ghost predicate FieldsSay(c: Codec, es: seq<SseEvent>, r: Object) {
    && (forall f :: f != "usage" ==>
          (f in r <==> FieldOf(c, es, f).Some?) && (f in r ==> FieldOf(c, es, f) == Some(r[f])))
    && (!Counted(c, es) ==>
          ("usage" in r <==> FieldOf(c, es, "usage").Some?)
          && ("usage" in r ==> FieldOf(c, es, "usage") == Some(r["usage"])))
  }

  function Figure(r: Object, key: string): Option<Json> {
    if At(r, "usage").Obj? && key in At(r, "usage").fields then Some(At(r, "usage").fields[key]) else None
  }

  /** Every figure of the usage. */
  ghost predicate UsageSays(c: Codec, es: seq<SseEvent>, r: Object) {
    (Counted(c, es) ==> At(r, "usage").Obj?) && forall k :: FigureOf(c, es, k) == Figure(r, k)
  }

  ghost predicate EnvelopeSays(c: Codec, es: seq<SseEvent>, r: Object) {
    FieldsSay(c, es, r) && UsageSays(c, es, r)
  }

  lemma {:induction false} OpensIs(c: Codec, e: SseEvent)
    ensures Opens(c, e) <==> Classify(c, e).MessageStart?
    ensures Opens(c, e) ==> Classify(c, e).msg == At(Payload(c, e).value, "message").fields
  {
    PayloadIsObject(c, e);
  }

  lemma {:induction false} MessageDeltaIs(c: Codec, e: SseEvent)
    ensures Carries(c, e, "message_delta") <==> Classify(c, e).MessageDelta?
    ensures Classify(c, e).MessageDelta? ==>
              var p := Payload(c, e).value;
              && Classify(c, e).delta == (if At(p, "delta").Obj? then Some(At(p, "delta").fields) else None)
              && Classify(c, e).usage == (if At(p, "usage").Obj? then Some(At(p, "usage").fields) else None)
  {
    PayloadIsObject(c, e);
  }

  lemma {:induction false} OpeningSays(c: Codec, es: seq<SseEvent>)
    requires es != [] && Opens(c, es[|es| - 1])
    ensures EnvelopeSays(c, es, At(Payload(c, es[|es| - 1]).value, "message").fields)
  {
  }

  lemma {:induction false} MergedFields(r: Object, delta: Option<Object>, usage: Option<Object>, f: string)
    requires f != "usage"
    ensures var z := MergeDelta(r, delta, usage);
            if f in {"stop_reason", "stop_sequence"} && delta.Some? && f in delta.value
            then f in z && z[f] == delta.value[f] else Same(z, r, f)
  {
  }

  lemma {:induction false} MergedUsage(r: Object, delta: Option<Object>, usage: Option<Object>)
    ensures var z := MergeDelta(r, delta, usage);
            && (usage.None? ==> Same(z, r, "usage"))
            && (usage.Some? ==> At(z, "usage").Obj?)
            && forall k :: Figure(z, k)
                           == if usage.Some? && k in usage.value then Some(usage.value[k]) else Figure(r, k)
  {
  }

  lemma {:induction false} UpdateSaysFields(c: Codec, es: seq<SseEvent>, r: Object)
    requires es != [] && Carries(c, es[|es| - 1], "message_delta") && FieldsSay(c, es[..|es| - 1], r)
    ensures Classify(c, es[|es| - 1]).MessageDelta?
    ensures FieldsSay(c, es, MergeDelta(r, Classify(c, es[|es| - 1]).delta, Classify(c, es[|es| - 1]).usage))
  {
    var e, before := es[|es| - 1], es[..|es| - 1];
    MessageDeltaIs(c, e);
    var v := Classify(c, e);
    var z := MergeDelta(r, v.delta, v.usage);
    MergedUsage(r, v.delta, v.usage);
    forall f | f != "usage"
      ensures (f in z <==> FieldOf(c, es, f).Some?) && (f in z ==> FieldOf(c, es, f) == Some(z[f]))
    {
      MergedFields(r, v.delta, v.usage, f);
      assert (f in r <==> FieldOf(c, before, f).Some?) && (f in r ==> FieldOf(c, before, f) == Some(r[f]));
    }
  }

  lemma {:induction false} UpdateSaysUsage(c: Codec, es: seq<SseEvent>, r: Object)
    requires es != [] && Carries(c, es[|es| - 1], "message_delta") && UsageSays(c, es[..|es| - 1], r)
    ensures Classify(c, es[|es| - 1]).MessageDelta?
    ensures UsageSays(c, es, MergeDelta(r, Classify(c, es[|es| - 1]).delta, Classify(c, es[|es| - 1]).usage))
  {
    var e, before := es[|es| - 1], es[..|es| - 1];
    MessageDeltaIs(c, e);
    var v := Classify(c, e);
    var z := MergeDelta(r, v.delta, v.usage);
    MergedUsage(r, v.delta, v.usage);
    forall k ensures FigureOf(c, es, k) == Figure(z, k) {
      assert FigureOf(c, before, k) == Figure(r, k);
    }
  }

  lemma {:induction false} OtherSays(c: Codec, es: seq<SseEvent>, r: Object)
    requires es != [] && !Opens(c, es[|es| - 1]) && !Carries(c, es[|es| - 1], "message_delta")
    requires EnvelopeSays(c, es[..|es| - 1], r)
    ensures EnvelopeSays(c, es, r)
  {
    var e, before := es[|es| - 1], es[..|es| - 1];
    forall f ensures FieldOf(c, es, f) == FieldOf(c, before, f) && FigureOf(c, es, f) == FigureOf(c, before, f) {
    }
    assert Counted(c, es) == Counted(c, before);
  }

  lemma {:induction false} HasMessageOneMore(c: Codec, es: seq<SseEvent>)
    requires es != []
    ensures HasMessage(c, es) <==> HasMessage(c, es[..|es| - 1]) || Opens(c, es[|es| - 1])
  {
    var p := es[..|es| - 1];
    if k :| 0 <= k < |p| && Opens(c, p[k]) {
      assert es[k] == p[k];
    }
    if k :| 0 <= k < |es| && Opens(c, es[k]) {
      assert k < |p| ==> p[k] == es[k];
    }
  }

  ghost predicate StateOpens(c: Codec, es: seq<SseEvent>, a: Agg) {
    && (a.response.Some? <==> HasMessage(c, es))
    && (a.response.Some? ==> EnvelopeSays(c, es, a.response.value))
  }

  lemma {:induction false} NextResponse(c: Codec, es: seq<SseEvent>, a: Agg)
    requires es != [] && !a.crashed && StateOpens(c, es[..|es| - 1], a)
    requires !Negative(Classify(c, es[|es| - 1]))
    ensures StateOpens(c, es, OnEvent(a, Classify(c, es[|es| - 1])))
  {
    var e := es[|es| - 1];
    HasMessageOneMore(c, es);
    OpensIs(c, e);
    MessageDeltaIs(c, e);
    if Opens(c, e) {
      OpeningSays(c, es);
    } else if a.response.Some? && Carries(c, e, "message_delta") {
      UpdateSaysFields(c, es, a.response.value);
      UpdateSaysUsage(c, es, a.response.value);
    } else if a.response.Some? {
      OtherSays(c, es, a.response.value);
    }
  }

  lemma {:induction false} ResponseSays(c: Codec, es: seq<SseEvent>)
    requires NoneNegative(c, es)
    ensures StateOpens(c, es, Fold(Classified(c, es)))
  {
    if es == [] {
      assert Classified(c, es) == [];
    } else {
      NoneNegativeBefore(c, es);
      NothingCrashes(c, es[..|es| - 1]);
      ResponseSays(c, es[..|es| - 1]);
      FoldNext(c, es);
      NextResponse(c, es, Fold(Classified(c, es[..|es| - 1])));
    }
  }

  // ----- the output -----

  /** Over every stream that does not make it panic there is a message exactly when one
    was started, with the fields of the envelope beside its content. */
  lemma {:induction false} MessageSays(c: Codec, raw: string)
    requires NoneNegative(c, Dispatch(ScanLines(raw)))
    ensures var es, r := Dispatch(ScanLines(raw)), Aggregate(c, raw);
            && (HasMessage(c, es) <==> r.Message?) && !r.Panic?
            && (r.Message? ==> "content" in r.msg && r.msg["content"].Arr?)
            && (r.Message? ==> UsageSays(c, es, r.msg))
            && (r.Message? ==> forall f :: f !in {"content", "usage"} ==>
                  (f in r.msg <==> FieldOf(c, es, f).Some?) && (f in r.msg ==> FieldOf(c, es, f) == Some(r.msg[f])))
            && (r.Message? && !Counted(c, es) ==>
                  ("usage" in r.msg <==> FieldOf(c, es, "usage").Some?)
                  && ("usage" in r.msg ==> FieldOf(c, es, "usage") == Some(r.msg["usage"])))
  {
    var es := Dispatch(ScanLines(raw));
    NothingCrashes(c, es);
    ResponseSays(c, es);
    if HasMessage(c, es) {
      var a := Fold(Classified(c, es));
      WithContent(c, es, a.response.value, Arr(Collect(Finished(c, a))));
    }
  }

  /** Content put beside an envelope leaves what the envelope says. */
  lemma {:induction false} WithContent(c: Codec, es: seq<SseEvent>, was: Object, content: Json)
    requires EnvelopeSays(c, es, was)
    ensures var r := was["content" := content];
            && UsageSays(c, es, r)
            && (forall f :: f !in {"content", "usage"} ==>
                  (f in r <==> FieldOf(c, es, f).Some?) && (f in r ==> FieldOf(c, es, f) == Some(r[f])))
            && (!Counted(c, es) ==>
                  ("usage" in r <==> FieldOf(c, es, "usage").Some?)
                  && ("usage" in r ==> FieldOf(c, es, "usage") == Some(r["usage"])))
  {
    var r := was["content" := content];
    assert At(r, "usage") == At(was, "usage");
    forall k ensures FigureOf(c, es, k) == Figure(r, k) {
      assert Figure(r, k) == Figure(was, k);
    }
    forall f | f !in {"content", "usage"}
      ensures (f in r <==> FieldOf(c, es, f).Some?) && (f in r ==> FieldOf(c, es, f) == Some(r[f]))
    {
      assert f in r <==> f in was;
    }
  }

  /** Its content has one element for each block that is present, in index order. */
  lemma {:induction false} ContentHasEveryBlock(c: Codec, raw: string, n: nat)
    requires NoneNegative(c, Dispatch(ScanLines(raw))) && HasMessage(c, Dispatch(ScanLines(raw)))
    requires forall k :: k >= n ==> !Present(c, Dispatch(ScanLines(raw)), k)
    ensures var r := Aggregate(c, raw);
            && r.Message? && "content" in r.msg && r.msg["content"].Arr?
            && |r.msg["content"].items| == PresentBelow(c, Dispatch(ScanLines(raw)), n)
  {
    var es := Dispatch(ScanLines(raw));
    MessageSays(c, raw);
    SlotsSay(c, es, 0);
    var m := |Fold(Classified(c, es)).blocks|;
    forall k | k >= m ensures !Present(c, es, k) {
      StateSays(c, es, k);
    }
    if n <= m {
      NonePresentAbove(c, es, n, m);
    } else {
      NonePresentAbove(c, es, m, n);
    }
  }

  /** Block i of the output says what its payloads said. */
  lemma {:induction false} ContentSays(c: Codec, raw: string, i: nat)
    requires var es := Dispatch(ScanLines(raw)); NoneNegative(c, es) && HasMessage(c, es) && Present(c, es, i)
    ensures var es, r := Dispatch(ScanLines(raw)), Aggregate(c, raw);
            && r.Message? && "content" in r.msg && r.msg["content"].Arr?
            && var items, k := r.msg["content"].items, PresentBelow(c, es, i);
               k < |items| && items[k].Obj? && BlockSays(c, es, i, items[k].fields)
  {
    var es := Dispatch(ScanLines(raw));
    NothingCrashes(c, es);
    ResponseSays(c, es);
    SlotsSay(c, es, i);
    StateSays(c, es, i);
    FinishedSays(c, es, Fold(Classified(c, es)), i);
  }

  /** The finished slots are the blocks that are present. */
  lemma {:induction false} SlotsSay(c: Codec, es: seq<SseEvent>, i: nat)
    requires NoneNegative(c, es)
    ensures var a := Fold(Classified(c, es));
            var items := Collect(Finished(c, a));
            && |items| == PresentBelow(c, es, |a.blocks|)
            && (Present(c, es, i) ==>
                  && i < |a.blocks| && Finish(c, a, i).Some? && PresentBelow(c, es, i) < |items|
                  && items[PresentBelow(c, es, i)] == Obj(Finish(c, a, i).value))
  {
    var a := Fold(Classified(c, es));
    forall k | 0 <= k < |a.blocks| ensures Finish(c, a, k).Some? <==> Present(c, es, k) {
      StateSays(c, es, k);
    }
    StateSays(c, es, i);
    CollectedSays(c, es, Finished(c, a), i);
  }

  lemma {:induction false} NegativesSay(c: Codec, es: seq<SseEvent>, vs: seq<Ev>)
    requires vs == Classified(c, es)
    ensures forall k :: 0 <= k < |vs| ==> (Negative(vs[k]) <==> AtNegative(c, es[k]))
  {
    forall k | 0 <= k < |vs| ensures Negative(vs[k]) <==> AtNegative(c, es[k]) {
      NegativeSays(c, es[k]);
    }
  }

  /** The aggregator panics exactly when there is such an event. */
  lemma {:induction false} PanicSays(c: Codec, raw: string)
    ensures var es := Dispatch(ScanLines(raw));
            Aggregate(c, raw).Panic? <==> exists k :: 0 <= k < |es| && AtNegative(c, es[k])
  {
    var es := Dispatch(ScanLines(raw));
    var vs := Classified(c, es);
    PanicsOnNegativeIndex(c, vs);
    NegativesSay(c, es, vs);
  }

  // ----- the bytes of a stream -----

  /** Events on the wire. */
  function Wire(es: seq<SseEvent>): string {
    if es == [] then ""
    else "event: " + es[0].name + "\n" + "data: " + es[0].data + "\n" + "\n" + Wire(es[1..])
  }

  predicate OneLine(s: string) { NoLF(s) && !EndsInCR(s) }

  /** They are dispatched as what they are. */
  lemma {:induction false} WireIsRead(es: seq<SseEvent>)
    requires forall e :: e in es ==> OneLine(e.name) && OneLine(e.data)
    ensures Dispatch(ScanLines(Wire(es))) == es
  {
    var lines := PrintEvents(es);
    WireIsPrinted(es);
    forall l | l in lines ensures !Ignored(l) && !EndsInCR(l) {
      PrintedLine(es, l);
    }
    NoneIgnored(lines);
    forall e | e in es ensures !StartsWithLF(e.data) {
      assert e.data != "" ==> e.data[0] in e.data;
    }
    FramingRoundTrip(es, lines);
  }

  lemma {:induction false} OneLineOfData(data: string)
    requires NoLF(data)
    ensures PrintData(data) == ["data: " + data]
  {
    assert forall k :: 0 <= k < |data| ==> data[k] in data;
    assert data[..|data|] == data;
  }

  lemma OneMoreEvent(e: SseEvent, rest: seq<string>)
    ensures Unlines(["event: " + e.name] + ["data: " + e.data] + ([""] + rest))
            == "event: " + e.name + "\n" + "data: " + e.data + "\n" + "\n" + Unlines(rest)
  {
    var a, b := "event: " + e.name, "data: " + e.data;
    var all := [a] + [b] + ([""] + rest);
    assert all == [a, b, ""] + rest && all[1..] == [b, ""] + rest && all[1..][1..] == [""] + rest;
    assert all[1..][1..][1..] == rest;
    assert Unlines([""] + rest) == "\n" + Unlines(rest);
    assert Unlines([b, ""] + rest) == b + "\n" + ("\n" + Unlines(rest));
    assert Unlines(all) == a + "\n" + (b + "\n" + ("\n" + Unlines(rest)));
  }

  lemma {:induction false} WireIsPrinted(es: seq<SseEvent>)
    requires forall e :: e in es ==> OneLine(e.name) && OneLine(e.data)
    ensures Unlines(PrintEvents(es)) == Wire(es)
  {
    if es != [] {
      assert es[0] in es && forall e :: e in es[1..] ==> e in es;
      WireIsPrinted(es[1..]);
      OneLineOfData(es[0].data);
      OneMoreEvent(es[0], PrintEvents(es[1..]));
    }
  }

  /** The lines of one printed event. */
  lemma {:induction false} PrintedLine(es: seq<SseEvent>, l: string)
    requires (forall e :: e in es ==> OneLine(e.name) && OneLine(e.data)) && l in PrintEvents(es)
    ensures !Ignored(l) && !EndsInCR(l)
  {
    var e := es[0];
    assert e in es && forall x :: x in es[1..] ==> x in es;
    OneLineOfData(e.data);
    var rest := PrintEvents(es[1..]);
    assert l in [EVENT + e.name] + ["data: " + e.data] || l in [""] + rest;
    if l == EVENT + e.name {
      assert e.name != "" ==> l[|l| - 1] == e.name[|e.name| - 1];
    } else if l == "data: " + e.data {
      assert e.data != "" ==> l[|l| - 1] == e.data[|e.data| - 1];
    } else if l in rest {
      PrintedLine(es[1..], l);
    }
  }

  lemma {:induction false} NoneIgnored(lines: seq<string>)
    requires forall l :: l in lines ==> !Ignored(l)
    ensures WithoutIgnored(lines) == lines
  {
    if lines != [] {
      assert lines[0] in lines && forall l :: l in lines[1..] ==> l in lines;
      NoneIgnored(lines[1..]);
      assert lines == [lines[0]] + lines[1..];
    }
  }
}
