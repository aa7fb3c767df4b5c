/** trimToLastMessage (internal/process/process.go): an event's request keeps
  only the last of its cumulative messages before it is denoised. */
module Trim {
  import opened Lines
  import opened Json

  datatype Trimmed = Trimmed(text: string, n: nat, failed: bool)

  /** The elements of request.messages, when the event has such an array. */
  function Messages(j: Json): Option<seq<Json>> {
    var top := AsObject(j);
    if top.None? || "request" !in top.value then None
    else
      var req := AsObject(top.value["request"]);
      if req.None? || "messages" !in req.value then None
      else if req.value["messages"].Arr? then Some(req.value["messages"].items)
      else if req.value["messages"].Null? then Some([])
      else None
  }

  /** The same tree with request.messages replaced. */
  function WithMessages(j: Json, items: seq<Json>): Json
    requires Messages(j).Some?
  {
    var top := AsObject(j).value;
    var req := AsObject(top["request"]).value;
    Obj(top["request" := Obj(req["messages" := Arr(items)])])
  }

  /** The tree whose text trimming writes when there are at least two messages. */
  function LastMessageOnly(j: Json): Json
    requires Messages(j).Some? && |Messages(j).value| > 1
  {
    WithMessages(j, [Messages(j).value[|Messages(j).value| - 1]])
  }

  function TrimText(c: Codec, raw: string): Trimmed {
    match c.decode(raw)
    case None => Trimmed(raw, 0, true)
    case Some(j) =>
      if AsObject(j).None? then Trimmed(raw, 0, true)
      else if Messages(j).None? then Trimmed(raw, 0, false)
      else
        var items := Messages(j).value;
        if |items| <= 1 then Trimmed(raw, |items|, false)
        else Trimmed(c.encode(LastMessageOnly(j)), |items|, false)
  }

  method TrimToLastMessage(c: Codec, raw: string) returns (r: Trimmed)
    ensures r == TrimText(c, raw)
  {
    var decoded := c.decode(raw);
    if decoded.None? || AsObject(decoded.value).None? {
      return Trimmed(raw, 0, true);
    }
    var obj := AsObject(decoded.value).value;
    if "request" !in obj || AsObject(obj["request"]).None? {
      return Trimmed(raw, 0, false);
    }
    var req := AsObject(obj["request"]).value;
    if "messages" !in req || !(req["messages"].Arr? || req["messages"].Null?) {
      return Trimmed(raw, 0, false);
    }
    var messages := if req["messages"].Arr? then req["messages"].items else [];
    var n := |messages|;
    if n <= 1 {
      return Trimmed(raw, n, false);
    }
    req := req["messages" := Arr([messages[n - 1]])];
    obj := obj["request" := Obj(req)];
    return Trimmed(c.encode(Obj(obj)), n, false);
  }

  /** What is asked of the codec: the tree that trimming writes, if it writes one,
    reads back as itself. */
  predicate RewriteReadsBack(c: Codec, raw: string) {
    TrimText(c, raw).n > 1 ==> Faithful(c, LastMessageOnly(c.decode(raw).value))
  }

  /** Every event with at least two messages has a text and a codec of that kind. */
  lemma {:induction false} EveryEventCanBeTrimmed(j: Json) returns (c: Codec, raw: string)
    requires Messages(j).Some? && |Messages(j).value| > 1
    ensures c.decode(raw) == Some(j) && TrimText(c, raw).n == |Messages(j).value| && RewriteReadsBack(c, raw)
  {
    c := FaithfulCodec(j, LastMessageOnly(j));
    raw := c.encode(j);
  }

  /** Nothing but request.messages changes, and it keeps exactly its last element. */
  lemma {:induction false} OnlyMessagesChange(c: Codec, raw: string)
    requires TrimText(c, raw).n > 1 && RewriteReadsBack(c, raw)
    ensures c.decode(raw).Some? && c.decode(TrimText(c, raw).text).Some?
    ensures var j, k := c.decode(raw).value, c.decode(TrimText(c, raw).text).value;
            && Messages(j).Some? && Messages(k) == Some([Messages(j).value[|Messages(j).value| - 1]])
            && k.Obj? && AsObject(j).value.Keys == k.fields.Keys
            && (forall f :: f in k.fields && f != "request" ==> k.fields[f] == AsObject(j).value[f])
            && k.fields["request"].Obj?
            && (forall f :: f != "messages" ==>
                  (f in k.fields["request"].fields <==> f in AsObject(AsObject(j).value["request"]).value)
                  && (f in k.fields["request"].fields ==>
                        k.fields["request"].fields[f] == AsObject(AsObject(j).value["request"]).value[f]))
  {
    assert c.decode(TrimText(c, raw).text) == Some(LastMessageOnly(c.decode(raw).value));
  }

  /** Trimming twice is trimming once. */
  lemma {:induction false} TrimIdempotent(c: Codec, raw: string)
    requires RewriteReadsBack(c, raw)
    ensures var t := TrimText(c, raw);
            TrimText(c, t.text).text == t.text && TrimText(c, t.text).n == if t.n > 1 then 1 else t.n
  {
    if TrimText(c, raw).n > 1 {
      OnlyMessagesChange(c, raw);
    }
  }
}
