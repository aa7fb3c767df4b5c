/** What the denoiser's three outputs are, read off the event's JSON fields
  (internal/passthrough/client.go). */
module Extraction {
  import opened Lines
  import opened Json
  import opened Text
  import opened Passthrough
  import EarlyStop

  // ----- the fields of an event -----

  /** A field of an object; absent reads as null. */
  function At(j: Json, name: string): Json {
    if j.Obj? && name in j.fields then j.fields[name] else Null
  }

  /** An object, or null, in which the named field is a string, null or absent. */
  predicate Typed(j: Json, name: string) {
    (j.Obj? || j.Null?) && (At(j, name).Str? || At(j, name).Null?)
  }

  predicate BlocksTyped(content: Json) {
    content.Arr? && forall b :: b in content.items ==> Typed(b, "type") && Typed(b, "text")
  }

  // ----- the decision -----

  /** The text of the first k blocks, behind what was there before. */
  function TextAfter(items: seq<Json>, acc: string, k: nat): string
    requires AllStructs(items, {"type", "text"}) && k <= |items|
  {
    if k == 0 then acc
    else
      assert items[0] in items;
      TextAfter(items[1..], Joined(acc, BlockText(items[0])), k - 1)
  }

  lemma {:induction false} TextGrows(items: seq<Json>, acc: string, k: nat)
    requires AllStructs(items, {"type", "text"}) && k <= |items|
    ensures |acc| <= |TextAfter(items, acc, k)|
    decreases items
  {
    if k > 0 {
      assert items[0] in items;
      TextGrows(items[1..], Joined(acc, BlockText(items[0])), k - 1);
    }
  }

  /** A block is read exactly when the text before it is short of 8192 bytes. */
  lemma {:induction false} ReadWhileShort(items: seq<Json>, acc: string, k: nat)
    requires AllStructs(items, {"type", "text"}) && k < |items| && |acc| < 8192
    ensures k < EarlyStop.Walked(items, acc) <==> |TextAfter(items, acc, k)| < 8192
    decreases items
  {
    assert items[0] in items;
    var text := Joined(acc, BlockText(items[0]));
    if k > 0 {
      if |text| >= 8192 {
        TextGrows(items[1..], text, k - 1);
      } else {
        ReadWhileShort(items[1..], text, k - 1);
      }
    }
  }

  lemma {:induction false} TypedIsStruct(j: Json)
    ensures StructOk(j, {"type", "text"}) <==> Typed(j, "type") && Typed(j, "text")
    ensures StructOk(j, {"stop_reason"}) <==> Typed(j, "stop_reason")
    ensures StructOk(j, {"role"}) <==> Typed(j, "role")
  {
    if j.Obj? || j.Null? {
      var f := AsObject(j).value;
      assert forall n :: StringField(f, n).Some? <==> At(j, n).Str? || At(j, n).Null?;
      assert "type" in {"type", "text"} && "text" in {"type", "text"};
    }
  }

  /** A tool_use block with less than 8192 bytes of text before it. */
  predicate ToolRead(content: Json)
    requires BlocksTyped(content) ==> AllStructs(content.items, {"type", "text"})
  {
    BlocksTyped(content)
    && exists k :: 0 <= k < |content.items| && At(content.items[k], "type") == Str("tool_use")
                   && |TextAfter(content.items, "", k)| < 8192
  }

  lemma {:induction false} BlocksAreStructs(content: Json)
    ensures BlocksTyped(content) <==> content.Arr? && AllStructs(content.items, {"type", "text"})
  {
    if content.Arr? {
      forall b | b in content.items
        ensures StructOk(b, {"type", "text"}) <==> Typed(b, "type") && Typed(b, "text")
      {
        TypedIsStruct(b);
      }
    }
  }

  lemma {:induction false} KindIsType(b: Json)
    requires StructOk(b, {"type", "text"})
    ensures ToolUse(b) <==> At(b, "type") == Str("tool_use")
  {
    TypedIsStruct(b);
  }

  /** blocksToText reports a tool use exactly for such a block. */
  lemma {:induction false} ToolReadExactly(content: Json)
    ensures BlocksTyped(content) ==> AllStructs(content.items, {"type", "text"})
    ensures BlocksText(content).1 <==> ToolRead(content)
  {
    BlocksAreStructs(content);
    if BlocksTyped(content) {
      var items := content.items;
      var n := EarlyStop.Walked(items, "");
      EarlyStop.StoppedFindsTool(items, "", false);
      forall k: nat | k < |items|
        ensures k < n <==> |TextAfter(items, "", k)| < 8192
        ensures ToolUse(items[k]) <==> At(items[k], "type") == Str("tool_use")
      {
        ReadWhileShort(items, "", k);
        assert items[k] in items;
        KindIsType(items[k]);
      }
      assert EarlyStop.HasToolUse(items[..n]) <==> exists k :: 0 <= k < n && ToolUse(items[k]) by {
        if k :| 0 <= k < n && ToolUse(items[k]) {
          assert ToolUse(items[..n][k]);
        }
      }
    }
  }

  /** The response of an event, and the content of its reply: null unless it is typed. */
  function ContentOf(response: Json): Json {
    if Typed(response, "stop_reason") then At(response, "content") else Null
  }

  /** The output counts as unparseable exactly for an event that is no JSON object. */
  lemma {:induction false} RefusedExactly(c: Codec, raw: string)
    ensures Denoise(c, raw).None? <==>
            forall j :: c.decode(raw) == Some(j) ==> !j.Obj? && !j.Null?
  {
    if c.decode(raw).Some? {
      assert c.decode(raw) == Some(c.decode(raw).value);
    }
  }

  /** A decision was made exactly when the response is well typed and stopped for
    "tool_use", or a tool_use block was read, or the trimmed text has more than 160 bytes. */
  lemma {:induction false} DecisionSays(c: Codec, raw: string, event: Json)
    requires c.decode(raw) == Some(event) && (event.Obj? || event.Null?)
    ensures Denoise(c, raw).Some?
    ensures var response := At(event, "response");
            var content := ContentOf(response);
            && (BlocksTyped(content) ==> AllStructs(content.items, {"type", "text"}))
            && (Denoise(c, raw).value.hasDecision <==>
                  || (Typed(response, "stop_reason") && At(response, "stop_reason") == Str("tool_use"))
                  || ToolRead(content)
                  || |TrimBlanks(BlocksText(content).0)| > 160)
  {
    var response := At(event, "response");
    TypedIsStruct(response);
    ToolReadExactly(ContentOf(response));
    assert ContentOf(response) == ReplyContent(response);
  }

  // ----- the two texts -----

  /** out is the longest beginning of text, of at most 8192 bytes, that cuts no rune. */
  predicate IsClip(out: string, text: string) {
    && out <= text && |out| <= 8192
    && (|text| <= 8192 ==> out == text)
    && (|text| > 8192 ==>
          && (out == "" || text[|out|] as int / 64 != 2)
          && forall k :: |out| < k <= 8192 ==> text[k] as int / 64 == 2)
  }

  /** Bytes, not characters. */
  predicate AllBytes(s: string) {
    forall i :: 0 <= i < |s| ==> s[i] as int < 256
  }

  lemma {:induction false} ClippedIsClip(text: string)
    requires AllBytes(text)
    ensures IsClip(Clipped(text, 8192), text)
  {
    ClippedIsLongestWholePrefix(text, 8192);
    forall k | 0 <= k < |text| ensures RuneStart(text[k]) <==> text[k] as int / 64 != 2 {
    }
  }

  predicate MessagesTyped(request: Json) {
    && (request.Obj? || request.Null?)
    && (At(request, "messages").Arr? || At(request, "messages").Null?)
    && (At(request, "messages").Arr? ==> forall m :: m in At(request, "messages").items ==> Typed(m, "role"))
  }

  /** The last message whose role is "user", or else the last one. */
  predicate IsChosen(items: seq<Json>, k: nat) {
    && k < |items|
    && (At(items[k], "role") == Str("user") || forall m :: m in items ==> At(m, "role") != Str("user"))
    && (forall j :: k < j < |items| ==> At(items[j], "role") != Str("user"))
    && (At(items[k], "role") != Str("user") ==> k == |items| - 1)
  }

  lemma {:induction false} LastUserIsChosen(items: seq<Json>) returns (k: nat)
    requires AllStructs(items, {"role"})
    ensures LastUser(items).None? ==> forall m :: m in items ==> At(m, "role") != Str("user")
    ensures LastUser(items).Some? ==>
              && k < |items| && LastUser(items) == Some(items[k]) && At(items[k], "role") == Str("user")
              && forall j :: k < j < |items| ==> At(items[j], "role") != Str("user")
  {
    k := 0;
    if items != [] {
      var p, last := items[..|items| - 1], items[|items| - 1];
      assert last in items;
      TypedIsStruct(last);
      assert FromUser(last) <==> At(last, "role") == Str("user");
      if FromUser(last) {
        k := |items| - 1;
      } else {
        k := LastUserIsChosen(p);
        forall m | m in items ensures m in p || m == last {
        }
      }
    }
  }

  lemma {:induction false} MessagesDecode(request: Json)
    ensures DecodeMessages(request)
            == if !MessagesTyped(request) then None
               else if At(request, "messages").Arr? then Some(At(request, "messages").items) else Some([])
  {
    var ms := At(request, "messages");
    if ms.Arr? {
      forall m | m in ms.items ensures StructOk(m, {"role"}) <==> Typed(m, "role") {
        TypedIsStruct(m);
      }
    }
  }

  predicate HasMessages(request: Json) {
    MessagesTyped(request) && At(request, "messages").Arr? && At(request, "messages").items != []
  }

  lemma {:induction false} ContentIsChosen(request: Json) returns (k: nat)
    ensures if HasMessages(request)
            then IsChosen(At(request, "messages").items, k)
                 && UserContent(request) == At(At(request, "messages").items[k], "content")
            else UserContent(request) == Null
  {
    MessagesDecode(request);
    k := 0;
    if HasMessages(request) {
      var items := At(request, "messages").items;
      k := LastUserIsChosen(items);
      if LastUser(items).None? {
        k := |items| - 1;
      }
      assert items[k] in items;
    }
  }

  /** The user text is the clipped text of the chosen message's content. There is
    none when a message is ill-typed or there are no messages. */
  lemma {:induction false} UserTextSays(c: Codec, raw: string, event: Json) returns (k: nat)
    requires c.decode(raw) == Some(event) && (event.Obj? || event.Null?)
    ensures Denoise(c, raw).Some?
    ensures var request := At(event, "request");
            var out := Denoise(c, raw).value.userText;
            if !HasMessages(request) then out == ""
            else
              var items := At(request, "messages").items;
              IsChosen(items, k)
              && var text := BlocksText(At(items[k], "content")).0;
                 AllBytes(text) ==> IsClip(out, text)
  {
    var request := At(event, "request");
    k := ContentIsChosen(request);
    var text := BlocksText(UserContent(request)).0;
    assert Denoise(c, raw).value.userText == Clipped(text, 8192);
    if AllBytes(text) {
      ClippedIsClip(text);
    }
  }

  /** The assistant text is the clipped text of the reply's content. */
  lemma {:induction false} AssistantTextSays(c: Codec, raw: string, event: Json)
    requires c.decode(raw) == Some(event) && (event.Obj? || event.Null?)
    ensures Denoise(c, raw).Some?
    ensures var text := BlocksText(ContentOf(At(event, "response"))).0;
            AllBytes(text) ==> IsClip(Denoise(c, raw).value.assistantText, text)
  {
    var response := At(event, "response");
    TypedIsStruct(response);
    assert ContentOf(response) == ReplyContent(response);
    if AllBytes(BlocksText(ContentOf(response)).0) {
      ClippedIsClip(BlocksText(ContentOf(response)).0);
    }
  }

  // ----- the text of a list and of one block -----

  /** The text of a list is that of the blocks read, trimmed. */
  lemma {:induction false} ListSays(items: seq<Json>)
    requires AllStructs(items, {"type", "text"})
    ensures BlocksText(Arr(items)).0 == TrimBlanks(TextAfter(items, "", EarlyStop.Walked(items, "")))
  {
    WalkedText(items, "", false);
  }

  lemma {:induction false} WalkedText(items: seq<Json>, acc: string, used: bool)
    requires AllStructs(items, {"type", "text"})
    ensures Gather(items, acc, used).0 == TextAfter(items, acc, EarlyStop.Walked(items, acc))
    decreases items
  {
    if items != [] {
      assert items[0] in items;
      var text := Joined(acc, BlockText(items[0]));
      if |text| < MAX_TEXT {
        WalkedText(items[1..], text, used || ToolUse(items[0]));
      }
    }
  }

  /** Texts are put on lines of their own, and empty ones leave no line. */
  lemma {:induction false} NextText(items: seq<Json>, acc: string, k: nat)
    requires AllStructs(items, {"type", "text"}) && k < |items|
    ensures StructOk(items[k], {"type", "text"})
    ensures var t := BlockText(items[k]);
            TextAfter(items, acc, k + 1)
            == if t == "" then TextAfter(items, acc, k)
               else if TextAfter(items, acc, k) == "" then t
               else TextAfter(items, acc, k) + "\n" + t
    decreases k
  {
    assert items[k] in items && items[0] in items;
    if k > 0 {
      NextText(items[1..], Joined(acc, BlockText(items[0])), k - 1);
    }
  }

  /** A string is its own text; what is neither that nor a well-typed list has none. */
  lemma {:induction false} PlainSays(content: Json)
    ensures content.Str? ==> BlocksText(content) == (content.s, false)
    ensures !content.Str? && !BlocksTyped(content) ==> BlocksText(content) == ("", false)
  {
    BlocksAreStructs(content);
  }

  /** What a block adds, by its type; anything else adds nothing. */
  lemma {:induction false} BlockSays(b: Json)
    requires Typed(b, "type") && Typed(b, "text")
    ensures StructOk(b, {"type", "text"})
    ensures At(b, "type") == Str("text") ==> BlockText(b) == if At(b, "text").Str? then At(b, "text").s else ""
    ensures At(b, "type") == Str("tool_result") ==> BlockText(b) == BlocksText(At(b, "content")).0
    ensures At(b, "type") !in [Str("text"), Str("tool_result")] ==> BlockText(b) == ""
  {
    TypedIsStruct(b);
  }
}
