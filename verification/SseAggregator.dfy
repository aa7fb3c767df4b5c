/** aggregateSSE as the imperative code it is (internal/proxy/sse_aggregate.go):
  its captured variables are fields, its flush closure and processSSEEvent are
  methods. The result is SseAggregate.Aggregate of the same bytes. */
module SseAggregator {
  import opened Lines
  import opened Json
  import opened Maps
  import opened SseFraming
  import opened SseAggregate

  class Aggregator {
    const c: Codec
    var response: Option<Object>
    var blocks: seq<Option<Object>>
    var toolPartials: map<int, string>
    var panicked: bool
    var currentEvent: string
    var dataBuf: string
    var started: bool
    ghost var dispatched: seq<SseEvent>

    ghost function Message(): Agg reads this {
      Agg(response, blocks, toolPartials, panicked)
    }

    ghost function Scan(): Frame reads this {
      Frame(currentEvent, dataBuf, started, dispatched)
    }

    /** The message state is the fold of what was dispatched so far. */
    ghost predicate Valid() reads this {
      Message() == Fold(Classified(c, dispatched))
    }

    constructor (c: Codec)
      ensures Valid() && Scan() == Frame("", "", false, []) && this.c == c
    {
      this.c := c;
      response, blocks, toolPartials, panicked := None, [], map[], false;
      currentEvent, dataBuf, started, dispatched := "", "", false, [];
    }

    method EnsureBlocks(n: int)
      modifies this`blocks
      ensures blocks == Grow(old(blocks), n)
    {
      while |blocks| < n
        invariant Grow(blocks, n) == Grow(old(blocks), n)
      {
        blocks := blocks + [None];
      }
    }

    /** processSSEEvent; indexing with a negative index is a panic. */
    method ProcessEvent(name: string, data: string)
      requires !panicked
      modifies this`response, this`blocks, this`toolPartials, this`panicked
      ensures Message() == OnEvent(old(Message()), Classify(c, SseEvent(name, data)))
    {
      if data == "" {
        return;
      }
      var parsed := c.decode(data);
      if parsed.None? || AsObject(parsed.value).None? {
        return;
      }
      var payload := AsObject(parsed.value).value;
      if name == "message_start" {
        var msg := ObjectAt(payload, "message");
        if msg.Some? {
          response := msg;
        }
      } else if name == "content_block_start" {
        StartBlock(IndexOf(payload), ObjectAt(payload, "content_block"));
      } else if name == "content_block_delta" {
        var delta := ObjectAt(payload, "delta");
        if delta.Some? {
          ExtendBlock(IndexOf(payload), delta.value);
        }
      } else if name == "message_delta" && response.Some? {
        MergeEnvelope(ObjectAt(payload, "delta"), ObjectAt(payload, "usage"));
      }
    }

    method StartBlock(idx: int, block: Option<Object>)
      requires !panicked
      modifies this`blocks, this`toolPartials, this`panicked
      ensures Message() == OnEvent(old(Message()), Start(idx, block))
    {
      if idx < 0 {
        panicked := true;
        return;
      }
      EnsureBlocks(idx + 1);
      blocks := blocks[idx := block];
      if block.Some? && "type" in block.value && block.value["type"] == Str("tool_use") {
        toolPartials := toolPartials[idx := ""];
      }
    }

    method ExtendBlock(idx: int, delta: Object)
      requires !panicked
      modifies this`blocks, this`toolPartials, this`panicked
      ensures Message() == OnEvent(old(Message()), Delta(idx, PieceOf(delta)))
    {
      if idx < 0 {
        panicked := true;
        return;
      }
      EnsureBlocks(idx + 1);
      if blocks[idx].None? {
        blocks := blocks[idx := Some(map[])];
      }
      var block := blocks[idx].value;
      var kind := TextAt(delta, "type");
      if kind == Some("text_delta") {
        var t := TextAt(delta, "text");
        if t.Some? {
          block := block["text" := Str(TextOr(block, "text") + t.value)];
        }
      } else if kind == Some("thinking_delta") {
        var t := TextAt(delta, "thinking");
        if t.Some? {
          block := block["thinking" := Str(TextOr(block, "thinking") + t.value)];
        }
      } else if kind == Some("signature_delta") {
        var sig := TextAt(delta, "signature");
        if sig.Some? {
          block := block["signature" := Str(sig.value)];
        }
      } else if kind == Some("input_json_delta") {
        var pj := TextAt(delta, "partial_json");
        if pj.Some? && idx in toolPartials {
          toolPartials := toolPartials[idx := toolPartials[idx] + pj.value];
        }
      }
      blocks := blocks[idx := Some(block)];
    }

    method MergeEnvelope(delta: Option<Object>, usage: Option<Object>)
      requires !panicked && response.Some?
      modifies this`response
      ensures Message() == OnEvent(old(Message()), MessageDelta(delta, usage))
    {
      var r := response.value;
      if delta.Some? {
        if "stop_reason" in delta.value {
          r := r["stop_reason" := delta.value["stop_reason"]];
        }
        if "stop_sequence" in delta.value {
          r := r["stop_sequence" := delta.value["stop_sequence"]];
        }
      }
      if usage.Some? {
        var merged := Overlay(if "usage" in r && r["usage"].Obj? then r["usage"].fields else map[], usage.value);
        r := r["usage" := Obj(merged)];
      }
      response := Some(r);
    }

    /** The flush closure. */
    method FlushEvent()
      requires Valid() && !panicked
      modifies this
      ensures Valid() && Scan() == Flush(old(Scan()))
    {
      if started {
        Dispatch();
        started := false;
      }
      currentEvent := "";
      dataBuf := "";
    }

    /** The event scanned so far is processed. */
    method Dispatch()
      requires Valid() && !panicked
      modifies this`response, this`blocks, this`toolPartials, this`panicked, this`dispatched
      ensures Valid() && dispatched == old(dispatched) + [SseEvent(currentEvent, dataBuf)]
    {
      ghost var e := SseEvent(currentEvent, dataBuf);
      ghost var more := dispatched + [e];
      FoldOneMore(c, dispatched, e);
      ProcessEvent(currentEvent, dataBuf);
      dispatched := more;
    }

    method ScanLine(line: string)
      requires Valid() && !panicked
      modifies this
      ensures Valid() && Scan() == OnLine(old(Scan()), line)
    {
      if |line| == 0 {
        FlushEvent();
      } else if EVENT <= line {
        currentEvent := line[7..];
        started := true;
      } else if DATA <= line {
        if |dataBuf| > 0 {
          dataBuf := dataBuf + "\n";
        }
        dataBuf := dataBuf + line[6..];
        started := true;
      }
    }

    /** Parse each tool call's joined partials into its input. */
    method FinishTools()
      modifies this`blocks
      ensures blocks == Finished(c, old(Message()))
    {
      ghost var was := Message();
      var todo := toolPartials.Keys;
      while todo != {}
        invariant todo <= toolPartials.Keys && |blocks| == |was.blocks|
        invariant forall i :: 0 <= i < |blocks| ==> blocks[i] == if i in todo then was.blocks[i] else Finish(c, was, i)
        decreases |todo|
      {
        var i := AnyOf(todo);
        todo := todo - {i};
        if 0 <= i < |blocks| && blocks[i].Some? {
          var parsed := c.decode(toolPartials[i]);
          if parsed.Some? {
            blocks := blocks[i := Some(blocks[i].value["input" := parsed.value])];
          }
        }
      }
    }

    method Contents() returns (content: seq<Json>)
      ensures content == Collect(blocks)
    {
      content := [];
      var i := 0;
      while i < |blocks|
        invariant 0 <= i <= |blocks| && content == Collect(blocks[..i])
      {
        assert blocks[..i + 1][..i] == blocks[..i];
        if blocks[i].Some? {
          content := content + [Obj(blocks[i].value)];
        }
        i := i + 1;
      }
      assert blocks[..i] == blocks;
    }

    method Result() returns (r: Result)
      requires !panicked
      modifies this
      ensures r == Assemble(c, old(Message()))
    {
      if response.None? {
        return Nothing;
      }
      FinishTools();
      var content := Contents();
      return SseAggregate.Message(response.value["content" := Arr(content)]);
    }
  }

  method AggregateSse(c: Codec, raw: string) returns (r: Result)
    ensures r == Aggregate(c, raw)
  {
    if |raw| == 0 {
      return Nothing;
    }
    var agg := new Aggregator(c);
    var lines := ScanLines(raw);
    ghost var blank := Frame("", "", false, []);
    var i := 0;
    while i < |lines|
      invariant 0 <= i <= |lines| && agg.Valid() && agg.c == c
      invariant agg.Scan() == RunLines(blank, lines[..i]) && !agg.panicked
    {
      agg.ScanLine(lines[i]);
      RunOneMore(blank, lines, i);
      if agg.panicked {
        PanicIsFinal(c, lines, i + 1, agg.Scan());
        return Panic;
      }
      i := i + 1;
    }
    assert lines[..i] == lines;
    agg.FlushEvent();
    if agg.panicked {
      return Panic;
    }
    r := agg.Result();
  }

  /** Lines still to come only add to what was dispatched. */
  lemma {:induction false} DispatchedStays(f: Frame, lines: seq<string>)
    ensures f.out <= Flush(RunLines(f, lines)).out
    decreases |lines|
  {
    if lines != [] {
      DispatchedStays(OnLine(f, lines[0]), lines[1..]);
    }
  }

  lemma {:induction false} PanicStays(c: Codec, some: seq<SseEvent>, all: seq<SseEvent>)
    requires some <= all && Fold(Classified(c, some)).crashed
    ensures Fold(Classified(c, all)).crashed
    decreases |all|
  {
    if some != all {
      PanicStays(c, some, all[..|all| - 1]);
      assert Classified(c, all)[..|all| - 1] == Classified(c, all[..|all| - 1]);
    } else {
      assert some == all;
    }
  }

  lemma FoldOneMore(c: Codec, es: seq<SseEvent>, e: SseEvent)
    ensures Fold(Classified(c, es + [e])) == OnEvent(Fold(Classified(c, es)), Classify(c, e))
  {
    assert (es + [e])[..|es|] == es;
    assert Classified(c, es + [e]) == Classified(c, es) + [Classify(c, e)];
    assert (Classified(c, es) + [Classify(c, e)])[..|es|] == Classified(c, es);
  }

  lemma RunOneMore(f: Frame, lines: seq<string>, i: nat)
    requires i < |lines|
    ensures RunLines(f, lines[..i + 1]) == OnLine(RunLines(f, lines[..i]), lines[i])
  {
    assert lines[..i + 1] == lines[..i] + [lines[i]];
    RunSplit(f, lines[..i], [lines[i]]);
    assert [lines[i]][1..] == [];
  }

  /** A panic part of the way through is the outcome of the whole. */
  lemma {:induction false} PanicIsFinal(c: Codec, lines: seq<string>, n: nat, f: Frame)
    requires n <= |lines| && f == RunLines(Frame("", "", false, []), lines[..n])
    requires Fold(Classified(c, f.out)).crashed
    ensures Fold(Classified(c, Dispatch(lines))).crashed
  {
    assert lines == lines[..n] + lines[n..];
    RunSplit(Frame("", "", false, []), lines[..n], lines[n..]);
    DispatchedStays(f, lines[n..]);
    PanicStays(c, f.out, Dispatch(lines));
  }
}
