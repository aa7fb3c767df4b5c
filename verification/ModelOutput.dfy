/** Getting a JSON array out of a model's reply (internal/generate/generate.go):
  it may be fenced, or sit between sentences. `valid` stands for json.Valid. */
module ModelOutput {
  import opened Text

  const JSON_FENCE := "```json"
  const FENCE := "```"

  function StripMarkdownFence(s: string): string {
    var t := TrimBlanks(s);
    if JSON_FENCE <= t then TrimBlanks(DropSuffix(TrimBlanks(t[7..]), FENCE))
    else if FENCE <= t then TrimBlanks(DropSuffix(TrimBlanks(t[3..]), FENCE))
    else t
  }

  lemma {:induction false} EndsTight(mid: string, rest: string)
    requires Tight(mid) && mid != ""
    ensures Tight(mid + (rest + FENCE)) && mid + (rest + FENCE) == (mid + rest) + FENCE
  {
    var t := mid + (rest + FENCE);
    assert t[|t| - 1] == FENCE[2] && t[0] == mid[0];
  }

  lemma {:induction false} Unfence(pre: string, mid: string, post: string)
    requires AllBlank(pre) && AllBlank(post) && Tight(mid) && mid != ""
    ensures TrimBlanks(DropSuffix(TrimBlanks(pre + (mid + (post + FENCE))), FENCE)) == mid
  {
    EndsTight(mid, post);
    TrimLeft(pre, mid + (post + FENCE));
    DropSuffixUndoes(mid + post, FENCE);
    TrimRight(mid, post);
  }

  /** A text between a fence and its end, with blanks anywhere around them. */
  function Fenced(fence: string, pre: string, body: string, post: string): string {
    fence + (pre + (body + (post + FENCE)))
  }

  lemma {:induction false} FencedIsTight(fence: string, pre: string, body: string, post: string)
    requires fence in {FENCE, JSON_FENCE}
    ensures Tight(Fenced(fence, pre, body, post)) && FENCE <= Fenced(fence, pre, body, post)
    ensures Fenced(fence, pre, body, post)[|fence|..] == pre + (body + (post + FENCE))
  {
    var t := Fenced(fence, pre, body, post);
    assert t[0] == fence[0] && t[1] == fence[1] && t[2] == fence[2];
    assert t[|t| - 1] == FENCE[2];
  }

  lemma {:induction false} SamePrefixBehind(head: string, a: string, rest: string)
    ensures head + a <= head + rest <==> a <= rest
  {
    if head + a <= head + rest {
      assert (head + rest)[..|head + a|] == head + a;
      assert rest[..|a|] == (head + rest)[|head|..|head + a|] == a;
    }
  }

  lemma {:induction false} PrefixOfShort(a: string, body: string, rest: string)
    requires body != "" && |body| < |a| && rest != "" && rest[0] != a[|body|]
    ensures !(a <= body + rest)
  {
    assert (body + rest)[|body|] == rest[0];
  }

  /** A plain fence reads as a json fence exactly when the text right behind it starts that way. */
  lemma {:induction false} PlainFence(pre: string, body: string, post: string)
    requires AllBlank(pre) && AllBlank(post) && body != ""
    ensures JSON_FENCE <= Fenced(FENCE, pre, body, post) <==> pre == "" && "json" <= body
  {
    var json, rest := "json", pre + (body + (post + FENCE));
    assert JSON_FENCE == FENCE + json;
    SamePrefixBehind(FENCE, json, rest);
    if pre != "" {
      assert rest[0] == pre[0];
    } else if |body| < 4 {
      var end := post + FENCE;
      assert end[0] == if post == "" then FENCE[0] else post[0];
      assert rest == body + end;
      PrefixOfShort(json, body, end);
    } else {
      assert rest[..4] == body[..4];
    }
  }

  lemma {:induction false} UnfenceRest(rest: string, post: string)
    requires AllBlank(post)
    ensures |TrimBlanks(DropSuffix(TrimBlanks(rest + (post + FENCE)), FENCE))| <= |rest|
  {
    var left, right := Padding(rest);
    var mid := TrimBlanks(rest);
    if mid == "" {
      assert rest + (post + FENCE) == (rest + post) + FENCE;
      TrimOfBlanks(rest);
      TrimLeft(rest + post, FENCE);
      DropSuffixUndoes("", FENCE);
    } else {
      assert rest + (post + FENCE) == left + (mid + ((right + post) + FENCE));
      Unfence(left, mid, right + post);
    }
  }

  /** A text that is neither fenced nor padded is left as it is. */
  lemma {:induction false} NoFence(text: string)
    requires Tight(text) && !(FENCE <= text)
    ensures StripMarkdownFence(text) == text
  {
    TrimTight(text);
    assert JSON_FENCE[..3] == FENCE;
    assert |text| >= 7 ==> text[..7][..3] == text[..3];
  }

  /** A fenced text comes back as it was, whatever blanks are around it and the
    fences, unless a plain fence is followed at once by the letters json; a text
    that was never fenced comes back too. */
  lemma {:induction false} FenceRoundTrip(before: string, pre: string, body: string, post: string, after: string)
    requires AllBlank(before) && AllBlank(pre) && AllBlank(post) && AllBlank(after)
    requires Tight(body) && body != ""
    ensures StripMarkdownFence(before + Fenced(JSON_FENCE, pre, body, post) + after) == body
    ensures StripMarkdownFence(before + Fenced(FENCE, pre, body, post) + after) == body
            <==> pre != "" || !("json" <= body)
    ensures !(FENCE <= body) ==> StripMarkdownFence(before + body + after) == body
  {
    JsonFenceRoundTrip(before, pre, body, post, after);
    PlainFenceRoundTrip(before, pre, body, post, after);
    TrimUndoesPadding(before, body, after);
    if JSON_FENCE <= body {
      assert FENCE == JSON_FENCE[..3] == body[..3];
    }
  }

  lemma {:induction false} JsonFenceRoundTrip(before: string, pre: string, body: string, post: string, after: string)
    requires AllBlank(before) && AllBlank(pre) && AllBlank(post) && AllBlank(after)
    requires Tight(body) && body != ""
    ensures StripMarkdownFence(before + Fenced(JSON_FENCE, pre, body, post) + after) == body
  {
    FencedIsTight(JSON_FENCE, pre, body, post);
    TrimUndoesPadding(before, Fenced(JSON_FENCE, pre, body, post), after);
    Unfence(pre, body, post);
  }

  lemma {:induction false} PlainFenceRoundTrip(before: string, pre: string, body: string, post: string, after: string)
    requires AllBlank(before) && AllBlank(pre) && AllBlank(post) && AllBlank(after)
    requires Tight(body) && body != ""
    ensures StripMarkdownFence(before + Fenced(FENCE, pre, body, post) + after) == body
            <==> pre != "" || !("json" <= body)
  {
    var t := Fenced(FENCE, pre, body, post);
    FencedIsTight(FENCE, pre, body, post);
    TrimUndoesPadding(before, t, after);
    PlainFence(pre, body, post);
    if pre == "" && "json" <= body {
      assert t[7..] == body[4..] + (post + FENCE);
      UnfenceRest(body[4..], post);
    } else {
      Unfence(pre, body, post);
    }
  }

  /** Position of the last ch, or -1. */
  function LastIndex(s: string, ch: char): (i: int)
    ensures -1 <= i < |s|
    ensures i >= 0 ==> s[i] == ch
    ensures forall j :: i < j < |s| ==> s[j] != ch
  {
    if s == "" then -1
    else if s[|s| - 1] == ch then |s| - 1
    else LastIndex(s[..|s| - 1], ch)
  }

  function LastBracket(s: string): int {
    LastIndex(s, ']')
  }

  /** An array starting at i and ending at the last ']'. */
  predicate Candidate(valid: string -> bool, s: string, i: int) {
    0 <= i < LastBracket(s) && s[i] == '[' && valid(s[i..LastBracket(s) + 1])
  }

  function FirstCandidate(valid: string -> bool, s: string, i: nat): string
    decreases |s| - i
  {
    if i >= LastBracket(s) then s
    else if Candidate(valid, s, i) then s[i..LastBracket(s) + 1]
    else FirstCandidate(valid, s, i + 1)
  }

  function Recovered(valid: string -> bool, text: string): string {
    var s := TrimBlanks(text);
    if valid(s) then s else FirstCandidate(valid, s, 0)
  }

  method ExtractJsonArray(valid: string -> bool, text: string) returns (r: string)
    ensures r == Recovered(valid, text)
  {
    var s := TrimBlanks(text);
    if valid(s) {
      return s;
    }
    var end := LastBracket(s);
    if end < 0 {
      return s;
    }
    var i := 0;
    while i < end
      invariant 0 <= i <= end && FirstCandidate(valid, s, 0) == FirstCandidate(valid, s, i)
    {
      if s[i] == '[' && valid(s[i..end + 1]) {
        return s[i..end + 1];
      }
      i := i + 1;
    }
    return s;
  }

  lemma {:induction false} FirstIsFirst(valid: string -> bool, s: string, i: nat)
    requires forall j :: j < i ==> !Candidate(valid, s, j)
    ensures (forall k :: !Candidate(valid, s, k)) ==> FirstCandidate(valid, s, i) == s
    ensures forall k :: Candidate(valid, s, k) && (forall j :: j < k ==> !Candidate(valid, s, j)) ==>
              FirstCandidate(valid, s, i) == s[k..LastBracket(s) + 1]
    decreases |s| - i
  {
    if i < LastBracket(s) && !Candidate(valid, s, i) {
      FirstIsFirst(valid, s, i + 1);
    }
  }

  /** A reply that is not valid as it stands is cut to the candidate that starts
    first, and is otherwise returned trimmed. */
  lemma {:induction false} RecoveredIsFirst(valid: string -> bool, text: string)
    ensures var s := TrimBlanks(text);
            && (valid(s) || (forall i :: !Candidate(valid, s, i)) ==> Recovered(valid, text) == s)
            && (!valid(s) ==> forall i :: Candidate(valid, s, i) && (forall j :: j < i ==> !Candidate(valid, s, j)) ==>
                  Recovered(valid, text) == s[i..LastBracket(s) + 1])
  {
    FirstIsFirst(valid, TrimBlanks(text), 0);
  }

  lemma {:induction false} LastBeforeTail(head: string, tail: string, ch: char)
    requires head != "" && head[|head| - 1] == ch && ch !in tail
    ensures LastIndex(head + tail, ch) == |head| - 1
  {
    if tail != "" {
      assert (head + tail)[..|head + tail| - 1] == head + tail[..|tail| - 1];
      assert (head + tail)[|head + tail| - 1] == tail[|tail| - 1];
      LastBeforeTail(head, tail[..|tail| - 1], ch);
    } else {
      assert head + tail == head;
    }
  }

  lemma {:induction false} LastOfSpan(prose: string, span: string, tail: string, ch: char)
    requires span != "" && span[|span| - 1] == ch && ch !in tail
    ensures LastIndex(prose + (span + tail), ch) == |prose| + |span| - 1
  {
    assert prose + (span + tail) == (prose + span) + tail;
    LastBeforeTail(prose + span, tail, ch);
  }

  lemma {:induction false} ArraySpan(prose: string, arr: string, tail: string)
    requires arr != ""
    ensures (prose + (arr + tail))[|prose|] == arr[0]
    ensures (prose + (arr + tail))[|prose|..|prose| + |arr|] == arr
  {}

  lemma {:induction false} ProseSpan(prose: string, arr: string, tail: string, j: nat)
    requires j < |prose|
    ensures (prose + (arr + tail))[j] == prose[j]
    ensures (prose + (arr + tail))[j..|prose| + |arr|] == prose[j..] + arr
  {}

  lemma {:induction false} ArrayIsCandidate(valid: string -> bool, prose: string, arr: string, tail: string)
    requires |arr| >= 2 && arr[0] == '[' && arr[|arr| - 1] == ']' && valid(arr) && ']' !in tail
    ensures Candidate(valid, prose + (arr + tail), |prose|)
  {
    LastOfSpan(prose, arr, tail, ']');
    ArraySpan(prose, arr, tail);
  }

  lemma {:induction false} ProseHasNone(valid: string -> bool, prose: string, arr: string, tail: string, j: int)
    requires arr != "" && arr[|arr| - 1] == ']' && ']' !in tail && j < |prose|
    requires forall i :: 0 <= i < |prose| && prose[i] == '[' ==> !valid(prose[i..] + arr)
    ensures !Candidate(valid, prose + (arr + tail), j)
  {
    LastOfSpan(prose, arr, tail, ']');
    if 0 <= j {
      ProseSpan(prose, arr, tail, j);
    }
  }

  /** A valid array between prose comes back as it was, unless the whole reply
    is valid or an earlier '[' starts something valid; tail holds no ']'. */
  lemma {:induction false} ArrayBetweenProse(valid: string -> bool, prose: string, arr: string, tail: string)
    requires Tight(prose + (arr + tail)) && !valid(prose + (arr + tail))
    requires |arr| >= 2 && arr[0] == '[' && arr[|arr| - 1] == ']' && valid(arr) && ']' !in tail
    requires forall i :: 0 <= i < |prose| && prose[i] == '[' ==> !valid(prose[i..] + arr)
    ensures Recovered(valid, prose + (arr + tail)) == arr
  {
    var s := prose + (arr + tail);
    TrimTight(s);
    ArrayIsCandidate(valid, prose, arr, tail);
    forall j | j < |prose| ensures !Candidate(valid, s, j) {
      ProseHasNone(valid, prose, arr, tail, j);
    }
    RecoveredIsFirst(valid, s);
    assert Recovered(valid, s) == s[|prose|..LastBracket(s) + 1];
    LastOfSpan(prose, arr, tail, ']');
    ArraySpan(prose, arr, tail);
  }

  // ----- the object in a hosted model's reply (internal/minimax/client.go) -----

  /** Position of the first ch, or -1. */
  function FirstIndex(s: string, ch: char): (i: int)
    ensures -1 <= i < |s|
    ensures i >= 0 ==> s[i] == ch && forall j :: 0 <= j < i ==> s[j] != ch
    ensures i < 0 ==> ch !in s
  {
    if s == "" then -1
    else if s[0] == ch then 0
    else if FirstIndex(s[1..], ch) < 0 then -1
    else FirstIndex(s[1..], ch) + 1
  }

  function DropPrefix(s: string, prefix: string): string {
    if prefix <= s then s[|prefix|..] else s
  }

  /** The reply without its fence, if it starts with one. */
  function Unfenced(text: string): string {
    var t := TrimBlanks(text);
    if FENCE <= t
    then TrimBlanks(DropSuffix(TrimBlanks(DropPrefix(DropPrefix(t, JSON_FENCE), FENCE)), FENCE))
    else t
  }

  function ExtractJsonObject(valid: string -> bool, text: string): string {
    var s := Unfenced(text);
    var start, end := FirstIndex(s, '{'), LastIndex(s, '}');
    if valid(s) then s else if start >= 0 && end > start then s[start..end + 1] else s
  }

  lemma {:induction false} UnfencedJson(before: string, pre: string, body: string, post: string, after: string)
    requires AllBlank(before) && AllBlank(pre) && AllBlank(post) && AllBlank(after)
    requires Tight(body) && body != "" && (pre != "" || !(FENCE <= body + (post + FENCE)))
    ensures Unfenced(before + Fenced(JSON_FENCE, pre, body, post) + after) == body
  {
    var t, rest := Fenced(JSON_FENCE, pre, body, post), pre + (body + (post + FENCE));
    FencedIsTight(JSON_FENCE, pre, body, post);
    TrimUndoesPadding(before, t, after);
    assert DropPrefix(t, JSON_FENCE) == rest;
    if pre != "" {
      assert rest[0] == pre[0];
    } else {
      assert rest == body + (post + FENCE);
    }
    Unfence(pre, body, post);
  }

  lemma {:induction false} UnfencedPlain(before: string, pre: string, body: string, post: string, after: string)
    requires AllBlank(before) && AllBlank(pre) && AllBlank(post) && AllBlank(after)
    requires Tight(body) && body != "" && !(pre == "" && "json" <= body)
    ensures Unfenced(before + Fenced(FENCE, pre, body, post) + after) == body
  {
    FencedIsTight(FENCE, pre, body, post);
    TrimUndoesPadding(before, Fenced(FENCE, pre, body, post), after);
    PlainFence(pre, body, post);
    Unfence(pre, body, post);
  }

  /** A fence around nothing, or one alone, leaves nothing. */
  lemma {:induction false} EmptyFence(fence: string, before: string, pre: string, after: string)
    requires fence in {"```json", "```"} && AllBlank(before) && AllBlank(pre) && AllBlank(after)
    ensures StripMarkdownFence(before + fence + after) == "" == Unfenced(before + fence + after)
    ensures StripMarkdownFence(before + Fenced(fence, pre, "", "") + after) == ""
    ensures Unfenced(before + Fenced(fence, pre, "", "") + after) == ""
  {
    LoneFence(fence, before, after);
    ClosedFence(fence, before, pre, after);
  }

  lemma {:induction false} LoneFence(fence: string, before: string, after: string)
    requires fence in {FENCE, JSON_FENCE} && AllBlank(before) && AllBlank(after)
    ensures StripMarkdownFence(before + fence + after) == "" == Unfenced(before + fence + after)
  {
    assert fence[0] == FENCE[0] && fence[|fence| - 1] in {FENCE[0], 'n'};
    TrimUndoesPadding(before, fence, after);
    if fence == FENCE {
      assert |fence| < |JSON_FENCE| && fence[3..] == "";
    } else {
      assert fence[7..] == "" && FENCE == fence[..3];
    }
  }

  lemma {:induction false} ClosedFence(fence: string, before: string, pre: string, after: string)
    requires fence in {FENCE, JSON_FENCE} && AllBlank(before) && AllBlank(pre) && AllBlank(after)
    ensures StripMarkdownFence(before + Fenced(fence, pre, "", "") + after) == ""
    ensures Unfenced(before + Fenced(fence, pre, "", "") + after) == ""
  {
    var t := Fenced(fence, pre, "", "");
    FencedIsTight(fence, pre, "", "");
    TrimUndoesPadding(before, t, after);
    NothingFenced(fence, pre);
    NothingBehind(pre);
  }

  /** However often the fence is looked for in what is behind it. */
  lemma {:induction false} NothingBehind(pre: string)
    requires AllBlank(pre)
    ensures TrimBlanks(DropSuffix(TrimBlanks(pre + FENCE), FENCE)) == ""
    ensures TrimBlanks(DropSuffix(TrimBlanks(DropPrefix(pre + FENCE, FENCE)), FENCE)) == ""
  {
    TrimLeft(pre, FENCE);
    DropSuffixUndoes("", FENCE);
    assert "" + FENCE == FENCE;
    if pre == "" {
      assert (pre + FENCE)[3..] == "";
    } else {
      assert (pre + FENCE)[0] == pre[0];
    }
  }

  /** A text behind a fence that was never closed comes back as it was, unless a
    plain fence is followed at once by the letters json. */
  lemma {:induction false} OpenFence(before: string, pre: string, body: string, after: string)
    requires AllBlank(before) && AllBlank(pre) && AllBlank(after)
    requires Tight(body) && body != "" && !EndsWith(body, "```")
    ensures StripMarkdownFence(before + ("```json" + (pre + body)) + after) == body
    ensures StripMarkdownFence(before + ("```" + (pre + body)) + after) == body <==> pre != "" || !("json" <= body)
    ensures pre != "" || !("```" <= body) ==> Unfenced(before + ("```json" + (pre + body)) + after) == body
    ensures pre != "" || !("json" <= body) ==> Unfenced(before + ("```" + (pre + body)) + after) == body
  {
    OpenJson(before, pre, body, after);
    OpenPlain(before, pre, body, after);
  }

  lemma {:induction false} OpenJson(before: string, pre: string, body: string, after: string)
    requires AllBlank(before) && AllBlank(pre) && AllBlank(after)
    requires Tight(body) && body != "" && !EndsWith(body, FENCE)
    ensures StripMarkdownFence(before + (JSON_FENCE + (pre + body)) + after) == body
    ensures pre != "" || !(FENCE <= body) ==> Unfenced(before + (JSON_FENCE + (pre + body)) + after) == body
  {
    var rest := pre + body;
    var t := JSON_FENCE + rest;
    OpenTight(JSON_FENCE, rest, body);
    TrimUndoesPadding(before, t, after);
    TrimLeft(pre, body);
    TrimTight(body);
    if pre == "" {
      assert rest == body;
    } else {
      assert rest[0] == pre[0] && !(FENCE <= rest);
    }
  }

  lemma {:induction false} OpenPlain(before: string, pre: string, body: string, after: string)
    requires AllBlank(before) && AllBlank(pre) && AllBlank(after)
    requires Tight(body) && body != "" && !EndsWith(body, FENCE)
    ensures StripMarkdownFence(before + (FENCE + (pre + body)) + after) == body <==> pre != "" || !("json" <= body)
    ensures pre != "" || !("json" <= body) ==> Unfenced(before + (FENCE + (pre + body)) + after) == body
  {
    var t := FENCE + (pre + body);
    OpenTight(FENCE, pre + body, body);
    JsonBehind(pre, body);
    OpenBody(pre, body);
    if JSON_FENCE <= t {
      ReadAsJson(before, t, after);
      assert |t| == 3 + |body|;
    } else {
      ReadAsPlain(before, t, after);
    }
  }

  lemma {:induction false} ReadAsPlain(before: string, t: string, after: string)
    requires AllBlank(before) && AllBlank(after) && Tight(t) && FENCE <= t && !(JSON_FENCE <= t)
    ensures StripMarkdownFence(before + t + after) == TrimBlanks(DropSuffix(TrimBlanks(t[3..]), FENCE))
    ensures Unfenced(before + t + after) == TrimBlanks(DropSuffix(TrimBlanks(t[3..]), FENCE))
  {
    TrimUndoesPadding(before, t, after);
  }

  lemma {:induction false} ReadAsJson(before: string, t: string, after: string)
    requires AllBlank(before) && AllBlank(after) && Tight(t) && JSON_FENCE <= t
    ensures |StripMarkdownFence(before + t + after)| <= |t| - 7
  {
    TrimUndoesPadding(before, t, after);
    assert |DropSuffix(TrimBlanks(t[7..]), FENCE)| <= |t| - 7;
  }

  lemma {:induction false} OpenBody(pre: string, body: string)
    requires AllBlank(pre) && Tight(body) && body != "" && !EndsWith(body, FENCE)
    ensures TrimBlanks(DropSuffix(TrimBlanks(pre + body), FENCE)) == body
  {
    TrimLeft(pre, body);
    TrimTight(body);
  }

  /** An open plain fence reads as a json fence exactly when the text behind it starts that way. */
  lemma {:induction false} JsonBehind(pre: string, body: string)
    requires AllBlank(pre)
    ensures JSON_FENCE <= FENCE + (pre + body) <==> pre == "" && "json" <= body
  {
    var rest, json := pre + body, "json";
    assert JSON_FENCE == FENCE + json;
    SamePrefixBehind(FENCE, json, rest);
    if pre == "" {
      assert rest == body;
    } else {
      assert rest[0] == pre[0];
    }
  }

  lemma {:induction false} OpenTight(fence: string, rest: string, body: string)
    requires fence in {FENCE, JSON_FENCE} && Tight(body) && body != ""
    requires rest != "" && rest[|rest| - 1] == body[|body| - 1]
    ensures Tight(fence + rest) && FENCE <= fence + rest && (fence + rest)[|fence|..] == rest
  {
    var t := fence + rest;
    assert t[0] == fence[0] && t[|t| - 1] == rest[|rest| - 1];
  }

  lemma {:induction false} NothingFenced(fence: string, pre: string)
    requires fence in {"```json", "```"} && AllBlank(pre)
    ensures var t := Fenced(fence, pre, "", "");
            && (JSON_FENCE <= t <==> fence == JSON_FENCE) && t[|fence|..] == pre + FENCE
            && TrimBlanks(DropSuffix(TrimBlanks(pre + FENCE), FENCE)) == ""
  {
    var t := Fenced(fence, pre, "", "");
    FencedIsTight(fence, pre, "", "");
    assert pre + ("" + ("" + FENCE)) == pre + FENCE;
    assert fence == FENCE ==> t[3] == (pre + FENCE)[0];
    TrimLeft(pre, FENCE);
    DropSuffixUndoes("", FENCE);
  }

  lemma {:induction false} FirstOfSpan(prose: string, span: string, tail: string, ch: char)
    requires span != "" && span[0] == ch && ch !in prose
    ensures FirstIndex(prose + (span + tail), ch) == |prose|
  {
    var s := prose + (span + tail);
    assert s[|prose|] == span[0];
    assert forall j :: 0 <= j < |prose| ==> s[j] == prose[j];
  }

  /** Ticks in front of a brace are the text's own. */
  lemma {:induction false} FenceInText(prose: string, rest: string, more: string)
    requires rest != "" && rest[0] == '{' && FENCE <= prose + rest + more
    ensures FENCE <= prose + rest
  {
    var t := prose + rest + more;
    assert t[|prose|] == '{' && t[0] == t[1] == t[2] == FENCE[0] by {
      assert FENCE == t[..3];
    }
    assert |prose| >= 3;
    assert t[..3] == (prose + rest)[..3];
  }

  lemma {:induction false} SpanBetweenProse(valid: string -> bool, text: string, prose: string, obj: string,
                                            tail: string)
    requires Unfenced(text) == prose + (obj + tail) && !valid(prose + (obj + tail))
    requires |obj| >= 2 && obj[0] == '{' && obj[|obj| - 1] == '}' && '{' !in prose && '}' !in tail
    ensures ExtractJsonObject(valid, text) == obj
  {
    FirstOfSpan(prose, obj, tail, '{');
    LastOfSpan(prose, obj, tail, '}');
    ArraySpan(prose, obj, tail);
  }

  /** An object between sentences comes back as it was, whatever blanks and fence
    are around the reply, unless the reply itself is valid, the sentences hold
    braces of their own, or the reply is taken for fenced or json-fenced when it is not. */
  lemma {:induction false} ObjectBetweenProse(valid: string -> bool, prose: string, obj: string, tail: string,
                                              before: string, pre: string, post: string, after: string)
    requires AllBlank(before) && AllBlank(pre) && AllBlank(post) && AllBlank(after)
    requires Tight(prose + (obj + tail)) && !valid(prose + (obj + tail))
    requires |obj| >= 2 && obj[0] == '{' && obj[|obj| - 1] == '}' && '{' !in prose && '}' !in tail
    ensures var body := prose + (obj + tail);
            && (!(FENCE <= body) ==> ExtractJsonObject(valid, before + body + after) == obj)
            && (pre != "" || !(FENCE <= body) ==>
                  ExtractJsonObject(valid, before + Fenced(JSON_FENCE, pre, body, post) + after) == obj)
            && (pre != "" || !("json" <= body) ==>
                  ExtractJsonObject(valid, before + Fenced(FENCE, pre, body, post) + after) == obj)
  {
    var body := prose + (obj + tail);
    if !(FENCE <= body) {
      TrimUndoesPadding(before, body, after);
      SpanBetweenProse(valid, before + body + after, prose, obj, tail);
    }
    if pre != "" || !(FENCE <= body) {
      if FENCE <= body + (post + FENCE) {
        FenceInText(prose, obj + tail, post + FENCE);
      }
      UnfencedJson(before, pre, body, post, after);
      SpanBetweenProse(valid, before + Fenced(JSON_FENCE, pre, body, post) + after, prose, obj, tail);
    }
    if pre != "" || !("json" <= body) {
      UnfencedPlain(before, pre, body, post, after);
      SpanBetweenProse(valid, before + Fenced(FENCE, pre, body, post) + after, prose, obj, tail);
    }
  }
}
