/** What the early stop of blocksToText (internal/passthrough/client.go) costs:
  the walk is compared with the one that reads every block at every depth. */
module EarlyStop {
  import opened Lines
  import opened Json
  import opened Text
  import opened Passthrough

  // ----- the walk without the stop -----

  function WholeText(content: Json): (r: (string, bool))
    decreases content, 1
  {
    match content
    case Str(s) => (s, false)
    case Arr(items) =>
      if AllStructs(items, {"type", "text"}) then
        var r := WholeGather(items, "", false);
        (TrimBlanks(r.0), r.1)
      else ("", false)
    case _ => ("", false)
  }

  function WholeBlockText(block: Json): string
    requires StructOk(block, {"type", "text"})
    decreases block, 0
  {
    var f := AsObject(block).value;
    if Kind(block) == "text" then StringField(f, "text").value
    else if Kind(block) == "tool_result" && "content" in f then WholeText(f["content"]).0
    else ""
  }

  function WholeGather(items: seq<Json>, acc: string, used: bool): (r: (string, bool))
    requires AllStructs(items, {"type", "text"})
    decreases items, 0
  {
    if items == [] then (acc, used)
    else
      assert items[0] in items;
      WholeGather(items[1..], Joined(acc, WholeBlockText(items[0])), used || ToolUse(items[0]))
  }

  function WholeReply(response: Json): (string, bool) {
    var (text, used) := WholeText(ReplyContent(response));
    (text, used || StoppedForTool(response))
  }

  function WholeDenoise(c: Codec, rawEvent: string): Option<Extracted> {
    var j := c.decode(rawEvent);
    if j.None? || AsObject(j.value).None? then None
    else
      var f := AsObject(j.value).value;
      var reply := WholeReply(Part(f, "response"));
      Some(Extracted(Clipped(WholeText(UserContent(Part(f, "request"))).0, MAX_TEXT), Clipped(reply.0, MAX_TEXT),
                     Decided(reply)))
  }

  // ----- the text is complete exactly when no non-blank byte is missing -----

  /** Non-blank bytes of the text in the blocks, at every depth. */
  function Weight(content: Json): nat
    decreases content, 1
  {
    match content
    case Str(s) => NonBlanks(s)
    case Arr(items) => if AllStructs(items, {"type", "text"}) then Weights(items) else 0
    case _ => 0
  }

  function BlockWeight(block: Json): nat
    requires StructOk(block, {"type", "text"})
    decreases block, 0
  {
    var f := AsObject(block).value;
    if Kind(block) == "text" then NonBlanks(StringField(f, "text").value)
    else if Kind(block) == "tool_result" && "content" in f then Weight(f["content"])
    else 0
  }

  function Weights(items: seq<Json>): nat
    requires AllStructs(items, {"type", "text"})
    decreases items, 0
  {
    if items == [] then 0
    else
      assert items[0] in items;
      BlockWeight(items[0]) + Weights(items[1..])
  }

  /** The stopped walk has every non-blank byte. */
  predicate Complete(content: Json) {
    NonBlanks(BlocksText(content).0) == Weight(content)
  }

  lemma {:induction false} JoinedWeight(acc: string, s: string)
    ensures NonBlanks(Joined(acc, s)) == NonBlanks(acc) + NonBlanks(s)
  {
    if acc != "" && s != "" {
      NonBlanksConcat(acc + "\n", s);
      NonBlanksConcat(acc, "\n");
    }
  }

  lemma {:induction false} WholeWeight(content: Json)
    ensures NonBlanks(WholeText(content).0) == Weight(content)
    decreases content, 1
  {
    if content.Arr? && AllStructs(content.items, {"type", "text"}) {
      WholeGatherWeight(content.items, "", false);
      TrimKeepsNonBlanks(WholeGather(content.items, "", false).0);
    }
  }

  lemma {:induction false} WholeBlockWeight(block: Json)
    requires StructOk(block, {"type", "text"})
    ensures NonBlanks(WholeBlockText(block)) == BlockWeight(block)
    decreases block, 0
  {
    var f := AsObject(block).value;
    if Kind(block) == "tool_result" && "content" in f {
      WholeWeight(f["content"]);
    }
  }

  lemma {:induction false} WholeGatherWeight(items: seq<Json>, acc: string, used: bool)
    requires AllStructs(items, {"type", "text"})
    ensures NonBlanks(WholeGather(items, acc, used).0) == NonBlanks(acc) + Weights(items)
    decreases items, 0
  {
    if items != [] {
      assert items[0] in items;
      WholeBlockWeight(items[0]);
      var s := WholeBlockText(items[0]);
      JoinedWeight(acc, s);
      WholeGatherWeight(items[1..], Joined(acc, s), used || ToolUse(items[0]));
    }
  }

  /** Walking on adds to the text at its end, behind a newline. */
  lemma {:induction false} WalkingOnGrows(items: seq<Json>, acc: string, used: bool)
    requires AllStructs(items, {"type", "text"})
    ensures Continues(acc, WholeGather(items, acc, used).0)
    decreases items
  {
    if items != [] {
      assert items[0] in items;
      var s := WholeBlockText(items[0]);
      WalkingOnGrows(items[1..], Joined(acc, s), used || ToolUse(items[0]));
    }
  }

  /** t goes on from s with a blank, if s has anything and t has more. */
  predicate Continues(s: string, t: string) {
    s <= t && (s != "" && s != t ==> IsBlank(t[|s|]))
  }

  lemma {:induction false} BlankTail(s: string, t: string)
    requires s <= t && NonBlanks(s) == NonBlanks(t)
    ensures TrimBlanks(s) == TrimBlanks(t)
  {
    assert t == s + t[|s|..];
    NonBlanksConcat(s, t[|s|..]);
    NoneNonBlank(t[|s|..]);
    TrimOfBlankGrowth(s, t[|s|..]);
  }

  lemma {:induction false} StoppedWeight(content: Json)
    ensures NonBlanks(BlocksText(content).0) <= Weight(content)
    ensures Complete(content) ==> BlocksText(content).0 == WholeText(content).0
    decreases content, 1
  {
    if content.Arr? && AllStructs(content.items, {"type", "text"}) {
      GatherWeight(content.items, "", false);
      TrimKeepsNonBlanks(Gather(content.items, "", false).0);
    }
  }

  lemma {:induction false} StoppedBlockWeight(block: Json)
    requires StructOk(block, {"type", "text"})
    ensures NonBlanks(BlockText(block)) <= BlockWeight(block)
    ensures NonBlanks(BlockText(block)) == BlockWeight(block) ==> BlockText(block) == WholeBlockText(block)
    decreases block, 0
  {
    var f := AsObject(block).value;
    if Kind(block) == "tool_result" && "content" in f {
      StoppedWeight(f["content"]);
    }
  }

  lemma {:induction false} GatherWeight(items: seq<Json>, acc: string, used: bool)
    requires AllStructs(items, {"type", "text"})
    ensures var n := NonBlanks(Gather(items, acc, used).0);
            && n <= NonBlanks(acc) + Weights(items)
            && (n == NonBlanks(acc) + Weights(items) ==>
                  TrimBlanks(Gather(items, acc, used).0) == TrimBlanks(WholeGather(items, acc, used).0))
    decreases items, 0
  {
    if items != [] {
      assert items[0] in items;
      StoppedBlockWeight(items[0]);
      var s, tool := Joined(acc, BlockText(items[0])), used || ToolUse(items[0]);
      JoinedWeight(acc, BlockText(items[0]));
      if |s| >= MAX_TEXT {
        WalkingOnGrows(items[1..], s, tool);
        WholeGatherWeight(items[1..], s, tool);
        if NonBlanks(s) == NonBlanks(acc) + Weights(items) {
          BlankTail(s, WholeGather(items[1..], s, tool).0);
        }
      } else {
        GatherWeight(items[1..], s, tool);
      }
    }
  }

  /** The stop changes the text exactly when it leaves out something that is not blank. */
  lemma {:induction false} TextCompleteExactly(content: Json)
    ensures BlocksText(content).0 == WholeText(content).0 <==> Complete(content)
  {
    WholeWeight(content);
    StoppedWeight(content);
  }

  // ----- a text cut at the limit -----

  /** Every nested list before the block that stops the walk is complete, and the
    nested list in that block, if any, was itself read this way. */
  predicate InTime(content: Json)
    decreases content, 1
  {
    content.Arr? && AllStructs(content.items, {"type", "text"}) ==> AllInTime(content.items, "")
  }

  predicate BlockInTime(block: Json)
    requires StructOk(block, {"type", "text"})
    decreases block, 0
  {
    var f := AsObject(block).value;
    Kind(block) == "tool_result" && "content" in f ==> InTime(f["content"])
  }

  predicate AllInTime(items: seq<Json>, acc: string)
    requires AllStructs(items, {"type", "text"})
    decreases items, 0
  {
    if items == [] then true
    else
      assert items[0] in items;
      var text := Joined(acc, BlockText(items[0]));
      if |text| >= MAX_TEXT then BlockInTime(items[0])
      else NonBlanks(BlockText(items[0])) == BlockWeight(items[0]) && AllInTime(items[1..], text)
  }

  lemma {:induction false} ContinuesTrans(s: string, t: string, u: string)
    requires Continues(s, t) && Continues(t, u)
    ensures Continues(s, u)
  {
    if s != "" && s != t {
      assert u[|s|] == t[|s|];
    }
  }

  lemma {:induction false} JoinedContinues(acc: string, s: string, t: string)
    requires Continues(s, t) && s != ""
    ensures Continues(Joined(acc, s), Joined(acc, t))
  {
    if acc != "" && s != t {
      assert (acc + "\n" + t)[|acc + "\n" + s|] == t[|s|];
    }
  }

  lemma {:induction false} TrimContinues(s: string, t: string)
    requires Continues(s, t)
    ensures Continues(TrimBlanks(s), TrimBlanks(t))
  {
    var more := t[|s|..];
    assert t == s + more;
    if AllBlank(more) {
      TrimOfBlankGrowth(s, more);
    } else if TrimBlanks(s) != "" {
      TrimOfGrowth(s, more);
    }
  }

  lemma {:induction false} InTimeContinues(content: Json)
    requires InTime(content)
    ensures Continues(BlocksText(content).0, WholeText(content).0)
    decreases content, 1
  {
    if content.Arr? && AllStructs(content.items, {"type", "text"}) {
      GatherContinues(content.items, "", false);
      TrimContinues(Gather(content.items, "", false).0, WholeGather(content.items, "", false).0);
    }
  }

  lemma {:induction false} BlockContinues(block: Json)
    requires StructOk(block, {"type", "text"}) && BlockInTime(block)
    ensures Continues(BlockText(block), WholeBlockText(block))
    decreases block, 0
  {
    var f := AsObject(block).value;
    if Kind(block) == "tool_result" && "content" in f {
      InTimeContinues(f["content"]);
    }
  }

  lemma {:induction false} GatherContinues(items: seq<Json>, acc: string, used: bool)
    requires AllStructs(items, {"type", "text"}) && AllInTime(items, acc) && |acc| < MAX_TEXT
    ensures Continues(Gather(items, acc, used).0, WholeGather(items, acc, used).0)
    decreases items, 0
  {
    if items != [] {
      assert items[0] in items;
      var s, t := BlockText(items[0]), WholeBlockText(items[0]);
      var tool := used || ToolUse(items[0]);
      if |Joined(acc, s)| >= MAX_TEXT {
        BlockContinues(items[0]);
        JoinedContinues(acc, s, t);
        WalkingOnGrows(items[1..], Joined(acc, t), tool);
        ContinuesTrans(Joined(acc, s), Joined(acc, t), WholeGather(items, acc, used).0);
      } else {
        StoppedBlockWeight(items[0]);
        GatherContinues(items[1..], Joined(acc, s), tool);
      }
    }
  }

  lemma {:induction false} ClippedAlike(s: string, t: string, n: nat)
    requires s <= t && n < |s|
    ensures Clipped(s, n) == Clipped(t, n)
  {
    if n > 0 && !RuneStart(s[n]) {
      ClippedAlike(s, t, n - 1);
    }
  }

  /** Clipping t backs off from the limit through continuation bytes to exactly s. */
  predicate BacksOffTo(s: string, t: string) {
    && |s| < MAX_TEXT < |t| && s <= t
    && (s == "" || RuneStart(t[|s|]))
    && forall k :: |s| < k <= MAX_TEXT ==> !RuneStart(t[k])
  }

  lemma {:induction false} BackingOff(t: string, m: nat, n: nat)
    requires m <= n < |t| && (m == 0 || RuneStart(t[m]))
    requires forall k :: m < k <= n ==> !RuneStart(t[k])
    ensures Clipped(t, n) == t[..m]
  {
    if m < n {
      BackingOff(t, m, n - 1);
    }
  }

  lemma {:induction false} ClippedToExactly(s: string, t: string)
    requires |s| < MAX_TEXT
    ensures Clipped(s, MAX_TEXT) == Clipped(t, MAX_TEXT) <==> s == t || BacksOffTo(s, t)
  {
    ClippedIsLongestWholePrefix(t, MAX_TEXT);
    if BacksOffTo(s, t) {
      BackingOff(t, |s|, MAX_TEXT);
    }
  }

  lemma {:induction false} ClippedPastTheLimit(s: string, t: string)
    requires |s| >= MAX_TEXT && Continues(s, t)
    ensures Clipped(s, MAX_TEXT) == Clipped(t, MAX_TEXT)
  {
    if |s| > MAX_TEXT {
      ClippedAlike(s, t, MAX_TEXT);
    } else if s != t {
      assert RuneStart(t[MAX_TEXT]);
    }
  }

  /** The stopped text is below the limit, or no nested list left something out
    before the block that reached it. */
  predicate Settled(content: Json) {
    |BlocksText(content).0| < MAX_TEXT || InTime(content)
  }

  /** The trimmed text still reaches the limit, or nothing but blanks was left out,
    or the limit falls inside a rune that begins right behind the text. */
  predicate OutputKept(content: Json) {
    var s := BlocksText(content).0;
    |s| >= MAX_TEXT || Complete(content) || BacksOffTo(s, WholeText(content).0)
  }

  lemma {:induction false} OutputKeptExactly(content: Json)
    requires Settled(content)
    ensures Clipped(BlocksText(content).0, MAX_TEXT) == Clipped(WholeText(content).0, MAX_TEXT)
            <==> OutputKept(content)
  {
    var s, t := BlocksText(content).0, WholeText(content).0;
    TextCompleteExactly(content);
    if |s| < MAX_TEXT {
      ClippedToExactly(s, t);
    } else {
      InTimeContinues(content);
      ClippedPastTheLimit(s, t);
    }
  }

  // ----- the decision flag -----

  /** The blocks of a list that decodes. */
  function Blocks(content: Json): (items: seq<Json>)
    ensures AllStructs(items, {"type", "text"})
  {
    if content.Arr? && AllStructs(content.items, {"type", "text"}) then content.items else []
  }

  /** How many blocks the walk reads. */
  function Walked(items: seq<Json>, acc: string): (k: nat)
    requires AllStructs(items, {"type", "text"})
    ensures k <= |items|
  {
    if items == [] then 0
    else
      assert items[0] in items;
      var text := Joined(acc, BlockText(items[0]));
      if |text| >= MAX_TEXT then 1 else 1 + Walked(items[1..], text)
  }

  predicate HasToolUse(items: seq<Json>)
    requires AllStructs(items, {"type", "text"})
  {
    exists i :: 0 <= i < |items| && ToolUse(items[i])
  }

  lemma {:induction false} ToolInFirstOrRest(items: seq<Json>)
    requires AllStructs(items, {"type", "text"}) && items != []
    ensures HasToolUse(items) <==> ToolUse(items[0]) || HasToolUse(items[1..])
  {
    if HasToolUse(items[1..]) {
      var i :| 0 <= i < |items[1..]| && ToolUse(items[1..][i]);
      assert ToolUse(items[i + 1]);
    }
    if HasToolUse(items) && !ToolUse(items[0]) {
      var i :| 0 <= i < |items| && ToolUse(items[i]);
      assert ToolUse(items[1..][i - 1]);
    }
  }

  lemma {:induction false} StoppedFindsTool(items: seq<Json>, acc: string, used: bool)
    requires AllStructs(items, {"type", "text"})
    ensures Gather(items, acc, used).1 <==> used || HasToolUse(items[..Walked(items, acc)])
    decreases items
  {
    if items != [] {
      assert items[0] in items;
      var text, k := Joined(acc, BlockText(items[0])), Walked(items, acc);
      ToolInFirstOrRest(items[..k]);
      assert items[..k][1..] == items[1..][..k - 1];
      if |text| < MAX_TEXT {
        StoppedFindsTool(items[1..], text, used || ToolUse(items[0]));
      }
    }
  }

  lemma {:induction false} WholeFindsTool(items: seq<Json>, acc: string, used: bool)
    requires AllStructs(items, {"type", "text"})
    ensures WholeGather(items, acc, used).1 <==> used || HasToolUse(items)
    decreases items
  {
    if items != [] {
      assert items[0] in items;
      ToolInFirstOrRest(items);
      WholeFindsTool(items[1..], Joined(acc, WholeBlockText(items[0])), used || ToolUse(items[0]));
    }
  }

  lemma {:induction false} ToolBeforeOrAfter(items: seq<Json>, k: nat)
    requires AllStructs(items, {"type", "text"}) && k <= |items|
    ensures HasToolUse(items) <==> HasToolUse(items[..k]) || HasToolUse(items[k..])
  {
    if HasToolUse(items) {
      var i :| 0 <= i < |items| && ToolUse(items[i]);
      if i < k {
        assert ToolUse(items[..k][i]);
      } else {
        assert ToolUse(items[k..][i - k]);
      }
    }
    if HasToolUse(items[k..]) {
      var i :| 0 <= i < |items[k..]| && ToolUse(items[k..][i]);
      assert ToolUse(items[k + i]);
    }
  }

  lemma {:induction false} WithinEither(s: string, t: string, u: string)
    requires Within(s, t)
    ensures Within(s, u + t) && Within(s, t + u)
  {
    WithinPadded(u, t, "");
    assert u + t + "" == u + t;
    WithinPadded("", t, u);
    assert "" + t + u == t + u;
    WithinTrans(s, t, u + t);
    WithinTrans(s, t, t + u);
  }

  lemma {:induction false} JoinedWithin(acc: string, acc': string, s: string, s': string)
    requires Within(acc, acc') && Within(s, s')
    ensures Within(Joined(acc, s), Joined(acc', s'))
  {
    if s == "" {
      WithinEither(acc, acc', "\n" + s');
      assert acc' + ("\n" + s') == acc' + "\n" + s';
    } else if acc == "" {
      WithinEither(s, s', acc' + "\n");
    } else {
      WithinConcat("\n", "\n", s, s');
      WithinConcat(acc, acc', "\n" + s, "\n" + s');
      assert acc + ("\n" + s) == acc + "\n" + s;
      assert acc' + ("\n" + s') == acc' + "\n" + s';
    }
  }

  /** The stopped text is what is left of the whole text after striking some of it out. */
  lemma {:induction false} StoppedWithinWhole(content: Json)
    ensures Within(BlocksText(content).0, WholeText(content).0)
    decreases content, 1
  {
    if content.Arr? && AllStructs(content.items, {"type", "text"}) {
      GatherWithin(content.items, "", "", false);
      WithinTrim(Gather(content.items, "", false).0, WholeGather(content.items, "", false).0);
    } else {
      WithinPadded("", BlocksText(content).0, "");
      assert "" + BlocksText(content).0 + "" == BlocksText(content).0;
    }
  }

  lemma {:induction false} BlockWithin(block: Json)
    requires StructOk(block, {"type", "text"})
    ensures Within(BlockText(block), WholeBlockText(block))
    decreases block, 0
  {
    var f := AsObject(block).value;
    if Kind(block) == "tool_result" && "content" in f {
      StoppedWithinWhole(f["content"]);
    } else {
      WithinPadded("", BlockText(block), "");
      assert "" + BlockText(block) + "" == BlockText(block);
    }
  }

  lemma {:induction false} GatherWithin(items: seq<Json>, acc: string, acc': string, used: bool)
    requires AllStructs(items, {"type", "text"}) && Within(acc, acc')
    ensures Within(Gather(items, acc, used).0, WholeGather(items, acc', used).0)
    decreases items, 0
  {
    if items != [] {
      assert items[0] in items;
      BlockWithin(items[0]);
      var s, s' := Joined(acc, BlockText(items[0])), Joined(acc', WholeBlockText(items[0]));
      var tool := used || ToolUse(items[0]);
      JoinedWithin(acc, acc', BlockText(items[0]), WholeBlockText(items[0]));
      if |s| >= MAX_TEXT {
        WalkingOnGrows(items[1..], s', tool);
        var t := WholeGather(items[1..], s', tool).0;
        WithinPadded("", s', t[|s'|..]);
        assert "" + s' + t[|s'|..] == t;
        WithinTrans(s, s', t);
      } else {
        GatherWithin(items[1..], s, s', tool);
      }
    }
  }

  /** The reply did not stop for a tool, no block up to the stop uses one, the text up
    to the stop is short once trimmed, and a later block uses a tool or the whole text is long. */
  predicate LosesDecision(response: Json) {
    var content := ReplyContent(response);
    var items := Blocks(content);
    var k := Walked(items, "");
    && !StoppedForTool(response) && !HasToolUse(items[..k])
    && |TrimBlanks(BlocksText(content).0)| <= SUBSTANTIVE
    && (HasToolUse(items[k..]) || |TrimBlanks(WholeText(content).0)| > SUBSTANTIVE)
  }

  /** Stopping early never makes a decision, and costs one exactly in that case. */
  lemma {:induction false} DecisionLostExactly(response: Json)
    ensures Decided(AssistantText(response)) ==> Decided(WholeReply(response))
    ensures Decided(AssistantText(response)) != Decided(WholeReply(response)) <==> LosesDecision(response)
  {
    var content := ReplyContent(response);
    var items := Blocks(content);
    StoppedFindsTool(items, "", false);
    WholeFindsTool(items, "", false);
    ToolBeforeOrAfter(items, Walked(items, ""));
    StoppedWithinWhole(content);
    WithinTrim(BlocksText(content).0, WholeText(content).0);
  }

  function UserOf(c: Codec, raw: string): Json
    requires Denoise(c, raw).Some?
  {
    UserContent(Part(AsObject(c.decode(raw).value).value, "request"))
  }

  function ReplyOf(c: Codec, raw: string): Json
    requires Denoise(c, raw).Some?
  {
    Part(AsObject(c.decode(raw).value).value, "response")
  }

  /** Of the three outputs of Denoise, all are as without the stop exactly when both
    texts are kept and no decision is lost. */
  lemma {:induction false} StoppingCostsNothingExactly(c: Codec, raw: string)
    requires Denoise(c, raw).Some?
    requires Settled(UserOf(c, raw)) && Settled(ReplyContent(ReplyOf(c, raw)))
    ensures Denoise(c, raw) == WholeDenoise(c, raw) <==>
            OutputKept(UserOf(c, raw)) && OutputKept(ReplyContent(ReplyOf(c, raw))) && !LosesDecision(ReplyOf(c, raw))
  {
    OutputKeptExactly(UserOf(c, raw));
    OutputKeptExactly(ReplyContent(ReplyOf(c, raw)));
    DecisionLostExactly(ReplyOf(c, raw));
  }

  // ----- what it costs -----

  function TextBlock(text: string): Json {
    Obj(map["type" := Str("text"), "text" := Str(text)])
  }

  function ToolBlock(): Json {
    Obj(map["type" := Str("tool_use")])
  }

  function ResultBlock(items: seq<Json>): Json {
    Obj(map["type" := Str("tool_result"), "content" := Arr(items)])
  }

  function Reply(items: seq<Json>): Json {
    Obj(map["content" := Arr(items)])
  }

  lemma {:induction false} StoppedPair(x: Json, y: Json)
    requires AllStructs([x, y], {"type", "text"})
    ensures StructOk(x, {"type", "text"}) && StructOk(y, {"type", "text"})
    ensures Gather([x, y], "", false)
            == if |BlockText(x)| >= MAX_TEXT then (BlockText(x), ToolUse(x))
               else (Joined(BlockText(x), BlockText(y)), ToolUse(x) || ToolUse(y))
  {
    var items, rest := [x, y], [y];
    assert x in items && y in items;
    assert items[1..] == rest && rest[1..] == [];
    assert Gather(rest, BlockText(x), ToolUse(x)) == (Joined(BlockText(x), BlockText(y)), ToolUse(x) || ToolUse(y));
    assert Joined("", BlockText(x)) == BlockText(x);
  }

  lemma {:induction false} WholePair(x: Json, y: Json)
    requires AllStructs([x, y], {"type", "text"})
    ensures StructOk(x, {"type", "text"}) && StructOk(y, {"type", "text"})
    ensures WholeGather([x, y], "", false)
            == (Joined(WholeBlockText(x), WholeBlockText(y)), ToolUse(x) || ToolUse(y))
    ensures Weights([x, y]) == BlockWeight(x) + BlockWeight(y)
  {
    var items, rest := [x, y], [y];
    assert x in items && y in items;
    assert items[1..] == rest && rest[1..] == [];
    var s, t := WholeBlockText(x), WholeBlockText(y);
    assert WholeGather(rest, s, ToolUse(x)) == (Joined(s, t), ToolUse(x) || ToolUse(y));
    assert Joined("", s) == s;
    assert Weights(rest) == BlockWeight(y);
  }

  /** A reply that opens with enough blanks loses the tool use behind them. */
  lemma {:induction false} BlanksHideToolUse(blanks: string)
    requires AllBlank(blanks) && |blanks| >= MAX_TEXT
    ensures var response := Reply([TextBlock(blanks), ToolBlock()]);
            && AssistantText(response) == ("", false) && WholeReply(response) == ("", true)
            && !Decided(AssistantText(response)) && Decided(WholeReply(response))
            && LosesDecision(response)
  {
    var response := Reply([TextBlock(blanks), ToolBlock()]);
    assert ReplyContent(response) == Arr([TextBlock(blanks), ToolBlock()]);
    StoppedPair(TextBlock(blanks), ToolBlock());
    WholePair(TextBlock(blanks), ToolBlock());
    TrimOfBlanks(blanks);
    DecisionLostExactly(response);
  }

  /** Blanks up to the limit, then a line. */
  function Padded(blanks: string): Json {
    ResultBlock([TextBlock(blanks), TextBlock("y")])
  }

  lemma {:induction false} PaddedIsEmptied(blanks: string)
    requires AllBlank(blanks) && |blanks| >= MAX_TEXT
    ensures BlockText(Padded(blanks)) == ""
  {
    StoppedPair(TextBlock(blanks), TextBlock("y"));
    TrimOfBlanks(blanks);
  }

  lemma {:induction false} LineBehindBlanks(blanks: string)
    requires AllBlank(blanks) && blanks != ""
    ensures TrimBlanks(Joined(blanks, "y")) == "y" && NonBlanks(blanks) + NonBlanks("y") == 1
  {
    NoneNonBlank(blanks);
    TrimLeft(blanks + "\n", "y");
  }

  lemma {:induction false} PaddedHasALine(blanks: string)
    requires AllBlank(blanks) && blanks != ""
    ensures WholeBlockText(Padded(blanks)) == "y" && BlockWeight(Padded(blanks)) == 1
  {
    var items := [TextBlock(blanks), TextBlock("y")];
    WholePair(TextBlock(blanks), TextBlock("y"));
    LineBehindBlanks(blanks);
    assert WholeText(Arr(items)).0 == "y" && Weight(Arr(items)) == 1;
  }

  /** A nested list that opens with enough blanks loses the text behind them, whatever follows. */
  lemma {:induction false} BlanksHideNestedText(blanks: string, e: string)
    requires AllBlank(blanks) && |blanks| >= MAX_TEXT && e != "" && Tight(e)
    ensures var content := Arr([Padded(blanks), TextBlock(e)]);
            && BlocksText(content) == (e, false) && WholeText(content) == ("y\n" + e, false)
            && !Complete(content) && !InTime(content)
  {
    var x, y := Padded(blanks), TextBlock(e);
    var items := [x, y];
    PaddedIsEmptied(blanks);
    PaddedHasALine(blanks);
    StoppedPair(x, y);
    WholePair(x, y);
    assert BlocksText(Arr(items)) == (e, false) by {
      TrimTight(e);
    }
    assert WholeText(Arr(items)) == ("y\n" + e, false) by {
      assert Joined("y", e) == "y\n" + e;
      assert ("y\n" + e)[|e| + 1] == e[|e| - 1];
      TrimTight("y\n" + e);
    }
    TextCompleteExactly(Arr(items));
    assert items[0] == x && !AllInTime(items, "");
  }

  lemma {:induction false} ClippedHere(t: string)
    requires |t| > MAX_TEXT && RuneStart(t[MAX_TEXT])
    ensures Clipped(t, MAX_TEXT) == t[..MAX_TEXT]
  {
  }

  lemma {:induction false} EchoLooksTheSame(echo: string)
    requires |echo| == MAX_TEXT + 1 && forall i :: 0 <= i <= MAX_TEXT ==> echo[i] == if i % 2 == 0 then 'y' else '\n'
    ensures Clipped(echo, MAX_TEXT) == Clipped("y\n" + echo, MAX_TEXT)
  {
    var t := "y\n" + echo;
    ClippedHere(echo);
    ClippedHere(t);
    forall i | 0 <= i < MAX_TEXT ensures echo[i] == t[i] {
      if i >= 2 {
        assert t[i] == echo[i - 2];
      }
    }
  }

  /** Past the limit such a loss shows in the output of one text and not of another:
    a text of other lines shows it, one that repeats the lost line does not. */
  lemma {:induction false} LossMayShowOrNot(blanks: string, plain: string, echo: string)
    requires AllBlank(blanks) && |blanks| >= MAX_TEXT
    requires |plain| == |echo| == MAX_TEXT + 1
    requires forall i :: 0 <= i <= MAX_TEXT ==> plain[i] == 'z'
    requires forall i :: 0 <= i <= MAX_TEXT ==> echo[i] == if i % 2 == 0 then 'y' else '\n'
    ensures var shows, hides := Arr([Padded(blanks), TextBlock(plain)]), Arr([Padded(blanks), TextBlock(echo)]);
            && !Settled(shows) && !Settled(hides)
            && Clipped(BlocksText(shows).0, MAX_TEXT) != Clipped(WholeText(shows).0, MAX_TEXT)
            && Clipped(BlocksText(hides).0, MAX_TEXT) == Clipped(WholeText(hides).0, MAX_TEXT)
  {
    BlanksHideNestedText(blanks, plain);
    BlanksHideNestedText(blanks, echo);
    ClippedHere(plain);
    ClippedHere("y\n" + plain);
    assert plain[..MAX_TEXT][0] != ("y\n" + plain)[..MAX_TEXT][0];
    EchoLooksTheSame(echo);
  }
}
