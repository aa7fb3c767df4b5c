/** The LLM-free denoiser (internal/passthrough/client.go) on the JSON tree, and
  what trimming an event does to its result. */
module Passthrough {
  import opened Lines
  import opened Json
  import opened Text
  import Trim

  const MAX_TEXT: nat := 8192
  const SUBSTANTIVE: nat := 160

  /** A continuation byte of a UTF-8 sequence. */
  predicate RuneStart(ch: char) { ch as int / 64 % 4 != 2 }

  /** The longest prefix of at most n bytes that does not cut a rune. */
  method Clip(s: string, n: nat) returns (r: string)
    ensures r == Clipped(s, n)
  {
    if |s| <= n {
      return s;
    }
    var k := n;
    while k > 0 && !RuneStart(s[k])
      invariant 0 <= k <= n && Clipped(s, n) == Clipped(s, k) && |s| > k
    {
      k := k - 1;
    }
    return s[..k];
  }

  function Clipped(s: string, n: nat): string {
    if |s| <= n then s else if n == 0 || RuneStart(s[n]) then s[..n] else Clipped(s, n - 1)
  }

  lemma {:induction false} ClippedIsLongestWholePrefix(s: string, n: nat)
    ensures Clipped(s, n) <= s && |Clipped(s, n)| <= n
    ensures |s| <= n ==> Clipped(s, n) == s
    ensures |s| > n ==> |Clipped(s, n)| == 0 || RuneStart(s[|Clipped(s, n)|])
    ensures |s| > n ==> forall k :: |Clipped(s, n)| < k <= n ==> !RuneStart(s[k])
  {
    if |s| > n && n > 0 && !RuneStart(s[n]) {
      ClippedIsLongestWholePrefix(s, n - 1);
    }
  }

  // ----- content to text -----

  /** An array element decoded into a struct: an object, or null as an empty one,
    whose named string fields are strings. */
  predicate StructOk(j: Json, names: set<string>) {
    AsObject(j).Some? && forall n :: n in names ==> StringField(AsObject(j).value, n).Some?
  }

  predicate AllStructs(items: seq<Json>, names: set<string>) {
    forall j :: j in items ==> StructOk(j, names)
  }

  function Field(j: Json, name: string): string
    requires StructOk(j, {name})
  {
    StringField(AsObject(j).value, name).value
  }

  /** A string, or text and tool_result blocks joined by newlines until there is
    plenty; true when a tool_use block was met on the way. An absent field reads as null. */
  function BlocksText(content: Json): (r: (string, bool))
    decreases content, 1
  {
    match content
    case Str(s) => (s, false)
    case Arr(items) =>
      if AllStructs(items, {"type", "text"}) then
        var r := Gather(items, "", false);
        (TrimBlanks(r.0), r.1)
      else ("", false)
    case _ => ("", false)
  }

  function Joined(acc: string, s: string): string {
    if s == "" then acc else if acc == "" then s else acc + "\n" + s
  }

  function Kind(block: Json): string
    requires StructOk(block, {"type", "text"})
  {
    StringField(AsObject(block).value, "type").value
  }

  predicate ToolUse(block: Json)
    requires StructOk(block, {"type", "text"})
  {
    Kind(block) == "tool_use"
  }

  /** The text one block adds. */
  function BlockText(block: Json): string
    requires StructOk(block, {"type", "text"})
    decreases block, 0
  {
    var f := AsObject(block).value;
    if Kind(block) == "text" then StringField(f, "text").value
    else if Kind(block) == "tool_result" && "content" in f then BlocksText(f["content"]).0
    else ""
  }

  function Gather(items: seq<Json>, acc: string, used: bool): (r: (string, bool))
    requires AllStructs(items, {"type", "text"})
    decreases items, 0
  {
    if items == [] then (acc, used)
    else
      assert items[0] in items;
      var text, tool := Joined(acc, BlockText(items[0])), used || ToolUse(items[0]);
      if |text| >= MAX_TEXT then (text, tool) else Gather(items[1..], text, tool)
  }

  /** blocksToText as its loop: append, note tool use, stop when there is plenty. */
  method BlocksToText(content: Json) returns (text: string, usedTool: bool)
    ensures (text, usedTool) == BlocksText(content)
    decreases content, 1
  {
    if content.Str? {
      return content.s, false;
    }
    if !content.Arr? || !AllStructs(content.items, {"type", "text"}) {
      return "", false;
    }
    var b := "";
    usedTool := false;
    var i := 0;
    while i < |content.items|
      invariant 0 <= i <= |content.items|
      invariant Gather(content.items, "", false) == Gather(content.items[i..], b, usedTool)
    {
      assert content.items[i] in content.items;
      assert content.items[i..][1..] == content.items[i + 1..];
      b, usedTool := AddBlock(content.items[i], b, usedTool);
      i := i + 1;
      if |b| >= MAX_TEXT {
        return TrimBlanks(b), usedTool;
      }
    }
    return TrimBlanks(b), usedTool;
  }

  method AddBlock(block: Json, b: string, usedTool: bool) returns (b': string, usedTool': bool)
    requires StructOk(block, {"type", "text"})
    ensures b' == Joined(b, BlockText(block)) && usedTool' == (usedTool || ToolUse(block))
    decreases block, 0
  {
    b', usedTool' := b, usedTool;
    var f := AsObject(block).value;
    var kind := StringField(f, "type").value;
    if kind == "text" {
      b' := Joined(b, StringField(f, "text").value);
    } else if kind == "tool_result" {
      if "content" in f {
        var nested, tool := BlocksToText(f["content"]);
        b' := Joined(b, nested);
      }
    } else if kind == "tool_use" {
      usedTool' := true;
    }
  }

  // ----- the two extractions -----

  /** request.messages decoded into structs; an ill-typed one rejects them all. */
  function DecodeMessages(request: Json): Option<seq<Json>> {
    var req := AsObject(request);
    if req.None? then None
    else if "messages" !in req.value || req.value["messages"].Null? then Some([])
    else if req.value["messages"].Arr? && AllStructs(req.value["messages"].items, {"role"}) then
      Some(req.value["messages"].items)
    else None
  }

  function Content(message: Json): Json {
    var f := AsObject(message);
    if f.Some? && "content" in f.value then f.value["content"] else Null
  }

  predicate FromUser(message: Json) {
    StructOk(message, {"role"}) && Field(message, "role") == "user"
  }

  function LastUser(items: seq<Json>): Option<Json> {
    if items == [] then None
    else if FromUser(items[|items| - 1]) then Some(items[|items| - 1])
    else LastUser(items[..|items| - 1])
  }

  /** The content that the user text is read from; null when there is none. */
  function UserContent(request: Json): Json {
    var items := DecodeMessages(request);
    if items.None? || items.value == [] then Null
    else if LastUser(items.value).Some? then Content(LastUser(items.value).value)
    else Content(items.value[|items.value| - 1])
  }

  function LastUserText(request: Json): string {
    BlocksText(UserContent(request)).0
  }

  method ExtractLastUserText(request: Json) returns (text: string)
    ensures text == LastUserText(request)
  {
    var decoded := DecodeMessages(request);
    if decoded.None? {
      return "";
    }
    var items := decoded.value;
    var i := |items| - 1;
    assert items[..i + 1] == items;
    while i >= 0
      invariant -1 <= i < |items| && LastUser(items) == LastUser(items[..i + 1])
    {
      assert items[..i + 1][..i] == items[..i];
      if FromUser(items[i]) {
        var used;
        text, used := BlocksToText(Content(items[i]));
        return;
      }
      i := i - 1;
    }
    if items != [] {
      var used;
      text, used := BlocksToText(Content(items[|items| - 1]));
      return;
    }
    return "";
  }

  function Part(f: map<string, Json>, name: string): Json {
    if name in f then f[name] else Null
  }

  /** The response decodes into a struct. */
  predicate ReplyOk(response: Json) { StructOk(response, {"stop_reason"}) }

  function ReplyContent(response: Json): Json {
    if ReplyOk(response) then Part(AsObject(response).value, "content") else Null
  }

  predicate StoppedForTool(response: Json) {
    ReplyOk(response) && Field(response, "stop_reason") == "tool_use"
  }

  function AssistantText(response: Json): (string, bool) {
    var (text, used) := BlocksText(ReplyContent(response));
    (text, used || StoppedForTool(response))
  }

  /** A tool was used, or the reply is long enough to matter. */
  predicate Decided(reply: (string, bool)) {
    reply.1 || |TrimBlanks(reply.0)| > SUBSTANTIVE
  }

  datatype Extracted = Extracted(userText: string, assistantText: string, hasDecision: bool)

  /** Denoise; None is the unparseable-output error. */
  function Denoise(c: Codec, rawEvent: string): Option<Extracted> {
    var j := c.decode(rawEvent);
    if j.None? || AsObject(j.value).None? then None
    else
      var f := AsObject(j.value).value;
      var reply := AssistantText(Part(f, "response"));
      Some(Extracted(Clipped(LastUserText(Part(f, "request")), MAX_TEXT), Clipped(reply.0, MAX_TEXT),
                     Decided(reply)))
  }

  // ----- trimming preserves meaning -----

  lemma {:induction false} LastUserIsLast(items: seq<Json>)
    requires items != [] && FromUser(items[|items| - 1])
    ensures LastUser(items) == LastUser([items[|items| - 1]]) == Some(items[|items| - 1])
  {
    assert [items[|items| - 1]][0] == items[|items| - 1];
  }

  lemma {:induction false} UserTextOf(request: Json, items: seq<Json>)
    requires AsObject(request).Some? && "messages" in AsObject(request).value
    requires AsObject(request).value["messages"] == Arr(items)
    requires items != [] && FromUser(items[|items| - 1])
    ensures LastUserText(request)
            == if AllStructs(items, {"role"}) then BlocksText(Content(items[|items| - 1])).0 else ""
  {
    LastUserIsLast(items);
  }

  /** When the conversation ends with a user turn, the trimmed event gives the
    same assistant text and decision flag, and the same user text exactly
    when no earlier message is ill-typed or the last one has no text; an ill-typed
    one silences the untrimmed event. */
  lemma {:induction false} TrimmingKeepsTheExtraction(c: Codec, raw: string)
    requires Trim.TrimText(c, raw).n > 1 && Trim.RewriteReadsBack(c, raw)
    requires var items := Trim.Messages(c.decode(raw).value).value; FromUser(items[|items| - 1])
    ensures Denoise(c, raw).Some? && Denoise(c, Trim.TrimText(c, raw).text).Some?
    ensures var a, b := Denoise(c, raw).value, Denoise(c, Trim.TrimText(c, raw).text).value;
            var items := Trim.Messages(c.decode(raw).value).value;
            && a.assistantText == b.assistantText && a.hasDecision == b.hasDecision
            && (a.userText == b.userText <==>
                  AllStructs(items, {"role"}) || Clipped(BlocksText(Content(items[|items| - 1])).0, MAX_TEXT) == "")
            && (!AllStructs(items, {"role"}) ==> a.userText == "")
            && b.userText == Clipped(BlocksText(Content(items[|items| - 1])).0, MAX_TEXT)
  {
    var j := c.decode(raw).value;
    var items := Trim.Messages(j).value;
    var last := items[|items| - 1];
    var t := Trim.LastMessageOnly(j);
    assert c.decode(Trim.TrimText(c, raw).text) == Some(t);
    assert AllStructs([last], {"role"});
    assert [last][0] == last;
    UserTextOf(AsObject(j).value["request"], items);
    UserTextOf(t.fields["request"], [last]);
  }

  /** Two messages, the earlier one with a number for its role. */
  function IllTyped(): Json {
    Obj(map["request" := Obj(map["messages" := Arr([
      Obj(map["role" := Num(5.0)]),
      Obj(map["role" := Str("user"), "content" := Str("hi")])])])])
  }

  /** The exception happens: the untrimmed event gives no user text, the trimmed one does. */
  lemma {:induction false} IllTypedMessageSilencesUntrimmed(c: Codec)
    requires Faithful(c, IllTyped()) && Faithful(c, Trim.LastMessageOnly(IllTyped()))
    ensures var raw := c.encode(IllTyped());
            && Trim.TrimText(c, raw).n == 2
            && Denoise(c, raw).Some? && Denoise(c, raw).value.userText == ""
            && Denoise(c, Trim.TrimText(c, raw).text).Some?
            && Denoise(c, Trim.TrimText(c, raw).text).value.userText == "hi"
  {
    var raw := c.encode(IllTyped());
    assert c.decode(raw) == Some(IllTyped());
    var items := Trim.Messages(IllTyped()).value;
    assert items[0] in items && !StructOk(items[0], {"role"});
    TrimmingKeepsTheExtraction(c, raw);
    assert Content(items[1]) == Str("hi");
  }
}
