/** The aggregator agrees with the simple meaning of a stream: concatenate the
  fragments of each block. */
module SseRebuild {
  import opened Lines
  import opened Json
  import opened SseFraming
  import opened SseAggregate

  // ----- the simple meaning -----

  /** The fragments of one kind for one block, in stream order. */
  function Fragments(es: seq<Ev>, i: int, kind: Piece -> bool): seq<string> {
    if es == [] then []
    else
      Fragments(es[..|es| - 1], i, kind)
      + match es[|es| - 1]
        case Delta(j, p) => if j == i && kind(p) && !p.OtherPiece? then [p.s] else []
        case _ => []
  }

  function IsText(p: Piece): bool { p.Text? }
  function IsThinking(p: Piece): bool { p.Thinking? }
  function IsSignature(p: Piece): bool { p.Signature? }
  function IsPartial(p: Piece): bool { p.Partial? }

  function Concat(ss: seq<string>): string {
    if ss == [] then "" else Concat(ss[..|ss| - 1]) + ss[|ss| - 1]
  }

  /** The start value of block i. */
  function StartOf(es: seq<Ev>, i: int): Option<Object> {
    if es == [] then None
    else if es[|es| - 1].Start? && es[|es| - 1].idx == i then es[|es| - 1].block
    else StartOf(es[..|es| - 1], i)
  }

  function Extended(b: Object, key: string, frags: seq<string>): Object {
    if frags == [] then b else b[key := Str(TextOr(b, key) + Concat(frags))]
  }

  function Signed(b: Object, sigs: seq<string>): Object {
    if sigs == [] then b else b["signature" := Str(sigs[|sigs| - 1])]
  }

  /** A block's start value extended by all its fragments. */
  function Rebuilt(es: seq<Ev>, i: int): Option<Object> {
    var start := StartOf(es, i);
    if start.None? then None
    else
      Some(Signed(Extended(Extended(start.value, "text", Fragments(es, i, IsText)),
                           "thinking", Fragments(es, i, IsThinking)),
                  Fragments(es, i, IsSignature)))
  }

  /** ... and, for a tool call, its input the parse of the joined partials. */
  function Expected(c: Codec, es: seq<Ev>, i: int): Option<Object> {
    var b := Rebuilt(es, i);
    var json := c.decode(Concat(Fragments(es, i, IsPartial)));
    if b.Some? && IsToolUse(StartOf(es, i)) && json.Some? then Some(b.value["input" := json.value]) else b
  }

  function ExpectedSlots(c: Codec, es: seq<Ev>): (r: seq<Option<Object>>)
    ensures |r| == Span(es) && forall i :: 0 <= i < |r| ==> r[i] == Expected(c, es, i)
  {
    seq(Span(es), i => Expected(c, es, i))
  }

  predicate Started(es: seq<Ev>, i: int) {
    exists k :: 0 <= k < |es| && es[k].Start? && es[k].idx == i
  }

  /** Indices are not negative, each block starts once, with a value, and before
    its deltas. Everything else may be interleaved at will. */
  predicate WellFormed(es: seq<Ev>) {
    es == [] || (WellFormed(es[..|es| - 1]) && LastOk(es))
  }

  predicate LastOk(es: seq<Ev>)
    requires es != []
  {
    match es[|es| - 1]
    case Start(i, b) => i >= 0 && b.Some? && !Started(es[..|es| - 1], i)
    case Delta(i, _) => i >= 0 && Started(es[..|es| - 1], i)
    case _ => true
  }

  /** The number of slots the stream touches. */
  function Span(es: seq<Ev>): nat {
    if es == [] then 0
    else
      var e := es[|es| - 1];
      if (e.Start? || e.Delta?) && e.idx >= Span(es[..|es| - 1]) then e.idx + 1 else Span(es[..|es| - 1])
  }

  predicate IsEnvelope(e: Ev) { e.MessageStart? || e.MessageDelta? }

  function Envelopes(es: seq<Ev>): seq<Ev> {
    if es == [] then []
    else Envelopes(es[..|es| - 1]) + if IsEnvelope(es[|es| - 1]) then [es[|es| - 1]] else []
  }

  // ----- one block -----

  lemma ConcatOne(frags: seq<string>, s: string)
    ensures Concat(frags + [s]) == Concat(frags) + s
  {
    assert (frags + [s])[..|frags|] == frags;
  }

  /** One more fragment of a key is one more update of that key. */
  lemma ExtendOne(b: Object, key: string, frags: seq<string>, s: string)
    ensures var x := Extended(b, key, frags);
            x[key := Str(TextOr(x, key) + s)] == Extended(b, key, frags + [s])
  {
    ConcatOne(frags, s);
    Reassociate(TextOr(b, key), Concat(frags), s);
  }

  lemma Reassociate(a: string, b: string, c: string)
    ensures (a + b) + c == a + (b + c)
    ensures b == "" ==> a + (b + c) == a + c
  {}

  /** Updates of different keys do not meet. */
  lemma ExtendAside(b: Object, k: string, v: Json, key: string, frags: seq<string>)
    requires k != key
    ensures Extended(b[k := v], key, frags) == Extended(b, key, frags)[k := v]
    ensures TextOr(Extended(b, key, frags), k) == TextOr(b, k)
  {}

  lemma SignAside(b: Object, k: string, v: Json, sigs: seq<string>)
    requires k != "signature"
    ensures Signed(b[k := v], sigs) == Signed(b, sigs)[k := v]
    ensures TextOr(Signed(b, sigs), k) == TextOr(b, k)
  {}

  lemma ExtendThinking(b: Object, thinking: seq<string>, sigs: seq<string>, s: string)
    ensures ApplyPiece(Signed(Extended(b, "thinking", thinking), sigs), Thinking(s))
            == Signed(Extended(b, "thinking", thinking + [s]), sigs)
  {
    var x := Extended(b, "thinking", thinking);
    var v := Str(TextOr(x, "thinking") + s);
    ExtendOne(b, "thinking", thinking, s);
    SignAside(x, "thinking", v, sigs);
  }

  lemma ExtendText(b: Object, text: seq<string>, thinking: seq<string>, sigs: seq<string>, s: string)
    ensures ApplyPiece(Signed(Extended(Extended(b, "text", text), "thinking", thinking), sigs), Text(s))
            == Signed(Extended(Extended(b, "text", text + [s]), "thinking", thinking), sigs)
  {
    var x := Extended(b, "text", text);
    var y := Extended(x, "thinking", thinking);
    var v := Str(TextOr(x, "text") + s);
    ExtendOne(b, "text", text, s);
    ExtendAside(x, "text", v, "thinking", thinking);
    SignAside(y, "text", v, sigs);
  }

  lemma ExtendSignature(b: Object, sigs: seq<string>, s: string)
    ensures ApplyPiece(Signed(b, sigs), Signature(s)) == Signed(b, sigs + [s])
  {}

  /** What the fold knows about slot i. */
  predicate SlotOk(a: Agg, es: seq<Ev>, i: nat) {
    && (i < |a.blocks| ==> a.blocks[i] == Rebuilt(es, i))
    && (Started(es, i) <==> StartOf(es, i).Some?)
    && (Started(es, i) ==> i < |a.blocks|)
    && (i in a.partials <==> IsToolUse(StartOf(es, i)))
    && (i in a.partials ==> a.partials[i] == Concat(Fragments(es, i, IsPartial)))
    && (!Started(es, i) ==> Silent(es, i))
  }

  predicate Silent(es: seq<Ev>, i: int) {
    Fragments(es, i, IsText) == Fragments(es, i, IsThinking) == Fragments(es, i, IsSignature)
        == Fragments(es, i, IsPartial) == []
  }

  lemma StartedOneMore(es: seq<Ev>, i: int)
    requires es != []
    ensures Started(es, i) <==> Started(es[..|es| - 1], i) || (es[|es| - 1].Start? && es[|es| - 1].idx == i)
  {
    var p := es[..|es| - 1];
    if Started(p, i) {
      var k :| 0 <= k < |p| && p[k].Start? && p[k].idx == i;
      assert es[k] == p[k];
    }
    if Started(es, i) {
      var k :| 0 <= k < |es| && es[k].Start? && es[k].idx == i;
      assert k < |p| ==> p[k] == es[k];
    }
  }

  lemma FragmentsOneMore(es: seq<Ev>, i: int, kind: Piece -> bool)
    requires es != []
    ensures var p, e := es[..|es| - 1], es[|es| - 1];
            Fragments(es, i, kind) ==
            if e.Delta? && e.idx == i && kind(e.piece) && !e.piece.OtherPiece?
            then Fragments(p, i, kind) + [e.piece.s] else Fragments(p, i, kind)
  {}

  lemma FragmentsAllOneMore(es: seq<Ev>, i: int)
    requires es != [] && !(es[|es| - 1].Delta? && es[|es| - 1].idx == i && !es[|es| - 1].piece.OtherPiece?)
    ensures var p := es[..|es| - 1];
            && Fragments(es, i, IsText) == Fragments(p, i, IsText)
            && Fragments(es, i, IsThinking) == Fragments(p, i, IsThinking)
            && Fragments(es, i, IsSignature) == Fragments(p, i, IsSignature)
            && Fragments(es, i, IsPartial) == Fragments(p, i, IsPartial)
  {
    FragmentsOneMore(es, i, IsText);
    FragmentsOneMore(es, i, IsThinking);
    FragmentsOneMore(es, i, IsSignature);
    FragmentsOneMore(es, i, IsPartial);
  }

  /** One fragment extends what the block means by that fragment. */
  lemma {:induction false} DeltaMeaning(es: seq<Ev>, i: nat)
    requires es != [] && es[|es| - 1].Delta? && es[|es| - 1].idx == i && StartOf(es[..|es| - 1], i).Some?
    ensures Rebuilt(es[..|es| - 1], i).Some? && Rebuilt(es, i).Some?
    ensures Rebuilt(es, i).value == ApplyPiece(Rebuilt(es[..|es| - 1], i).value, es[|es| - 1].piece)
  {
    var p, e := es[..|es| - 1], es[|es| - 1];
    FragmentsOneMore(es, i, IsText);
    FragmentsOneMore(es, i, IsThinking);
    FragmentsOneMore(es, i, IsSignature);
    var b := StartOf(p, i).value;
    var tx, th, sg := Fragments(p, i, IsText), Fragments(p, i, IsThinking), Fragments(p, i, IsSignature);
    match e.piece
    case Text(s) => ExtendText(b, tx, th, sg, s);
    case Thinking(s) => ExtendThinking(Extended(b, "text", tx), th, sg, s);
    case Signature(s) => ExtendSignature(Extended(Extended(b, "text", tx), "thinking", th), sg, s);
    case Partial(s) =>
    case OtherPiece =>
  }

  lemma {:induction false} DeltaSlot(a: Agg, es: seq<Ev>, i: nat)
    requires es != [] && es[|es| - 1].Delta? && es[|es| - 1].idx == i && !a.crashed
    requires Started(es[..|es| - 1], i) && SlotOk(a, es[..|es| - 1], i)
    ensures SlotOk(OnEvent(a, es[|es| - 1]), es, i)
  {
    StartedOneMore(es, i);
    DeltaMeaning(es, i);
    FragmentsOneMore(es, i, IsPartial);
    if es[|es| - 1].piece.Partial? {
      ConcatOne(Fragments(es[..|es| - 1], i, IsPartial), es[|es| - 1].piece.s);
    }
  }

  lemma {:induction false} StartSlot(a: Agg, es: seq<Ev>, i: nat)
    requires es != [] && es[|es| - 1].Start? && es[|es| - 1].idx == i && es[|es| - 1].block.Some? && !a.crashed
    requires !Started(es[..|es| - 1], i) && SlotOk(a, es[..|es| - 1], i)
    ensures SlotOk(OnEvent(a, es[|es| - 1]), es, i)
  {
    StartedOneMore(es, i);
    FragmentsAllOneMore(es, i);
  }

  predicate Negative(e: Ev) {
    (e.Start? || e.Delta?) && e.idx < 0
  }

  predicate Touches(e: Ev, i: int) {
    (e.Start? || e.Delta?) && e.idx == i
  }

  lemma {:induction false} OtherSlot(a: Agg, es: seq<Ev>, i: nat)
    requires es != [] && !Touches(es[|es| - 1], i) && !Negative(es[|es| - 1]) && !a.crashed
    requires SlotOk(a, es[..|es| - 1], i)
    ensures SlotOk(OnEvent(a, es[|es| - 1]), es, i)
  {
    StartedOneMore(es, i);
    FragmentsAllOneMore(es, i);
    assert StartOf(es, i) == StartOf(es[..|es| - 1], i);
  }

  lemma {:induction false} NextSlot(a: Agg, es: seq<Ev>, i: nat)
    requires es != [] && LastOk(es) && !a.crashed && SlotOk(a, es[..|es| - 1], i)
    ensures !OnEvent(a, es[|es| - 1]).crashed && SlotOk(OnEvent(a, es[|es| - 1]), es, i)
  {
    var e := es[|es| - 1];
    if !Touches(e, i) {
      OtherSlot(a, es, i);
    } else if e.Delta? {
      DeltaSlot(a, es, i);
    } else {
      StartSlot(a, es, i);
    }
  }

  lemma {:induction false} FoldSlot(es: seq<Ev>, i: nat)
    requires WellFormed(es)
    ensures !Fold(es).crashed && SlotOk(Fold(es), es, i)
  {
    if es == [] {
      assert !Started(es, i);
    } else {
      FoldSlot(es[..|es| - 1], i);
      NextSlot(Fold(es[..|es| - 1]), es, i);
    }
  }

  lemma FoldOne(es: seq<Ev>, e: Ev)
    ensures Fold(es + [e]) == OnEvent(Fold(es), e)
  {
    assert (es + [e])[..|es|] == es;
  }

  lemma {:induction false} FoldSpan(es: seq<Ev>)
    requires WellFormed(es)
    ensures !Fold(es).crashed && |Fold(es).blocks| == Span(es)
  {
    if es != [] {
      FoldSpan(es[..|es| - 1]);
    }
  }

  lemma {:induction false} FoldEnvelope(es: seq<Ev>)
    requires WellFormed(es)
    ensures !Fold(es).crashed && !Fold(Envelopes(es)).crashed && Fold(es).response == Fold(Envelopes(es)).response
  {
    if es != [] {
      var p, e := es[..|es| - 1], es[|es| - 1];
      FoldEnvelope(p);
      if IsEnvelope(e) {
        assert Envelopes(es) == Envelopes(p) + [e];
        FoldOne(Envelopes(p), e);
      } else {
        assert Envelopes(es) == Envelopes(p);
      }
    }
  }

  lemma {:induction false} FinishIsExpected(c: Codec, es: seq<Ev>, i: nat)
    requires WellFormed(es) && i < |Fold(es).blocks|
    ensures Finish(c, Fold(es), i) == Expected(c, es, i)
  {
    FoldSlot(es, i);
  }

  /** The message a stream stands for. */
  function Meaning(c: Codec, es: seq<Ev>): Result {
    var envelope := Fold(Envelopes(es)).response;
    if envelope.None? then Nothing
    else Message(envelope.value["content" := Arr(Collect(ExpectedSlots(c, es)))])
  }

  /** For every well-formed stream the aggregate is its meaning: blocks in index
    order, each its start value extended by all its fragments, tool input parsed. */
  lemma {:induction false} RebuildsMessage(c: Codec, es: seq<Ev>)
    requires WellFormed(es)
    ensures Assemble(c, Fold(es)) == Meaning(c, es)
  {
    FoldSpan(es);
    FoldEnvelope(es);
    if Fold(es).response.Some? {
      forall i | 0 <= i < Span(es) ensures Finish(c, Fold(es), i) == Expected(c, es, i) {
        FinishIsExpected(c, es, i);
      }
      assert Finished(c, Fold(es)) == ExpectedSlots(c, es);
    }
  }

  // ----- what the meaning does not depend on -----

  function LastOr(ss: seq<string>): string {
    if ss == [] then "" else ss[|ss| - 1]
  }

  predicate SameText(es: seq<Ev>, fs: seq<Ev>, i: int, kind: Piece -> bool) {
    && Concat(Fragments(es, i, kind)) == Concat(Fragments(fs, i, kind))
    && (Fragments(es, i, kind) == [] <==> Fragments(fs, i, kind) == [])
  }

  /** Block i has the same start and the same joined text in both streams,
    however that text was split. */
  predicate SameBlock(es: seq<Ev>, fs: seq<Ev>, i: int) {
    && StartOf(es, i) == StartOf(fs, i)
    && SameText(es, fs, i, IsText) && SameText(es, fs, i, IsThinking)
    && Concat(Fragments(es, i, IsPartial)) == Concat(Fragments(fs, i, IsPartial))
    && (Fragments(es, i, IsSignature) == [] <==> Fragments(fs, i, IsSignature) == [])
    && LastOr(Fragments(es, i, IsSignature)) == LastOr(Fragments(fs, i, IsSignature))
  }

  lemma SameBlockSameValue(c: Codec, es: seq<Ev>, fs: seq<Ev>, i: int)
    requires SameBlock(es, fs, i)
    ensures Expected(c, es, i) == Expected(c, fs, i)
  {}

  /** In a well-formed stream the highest index is that of some started block. */
  lemma {:induction false} SpanIsStarted(es: seq<Ev>, i: nat)
    requires WellFormed(es)
    ensures StartOf(es, i).Some? ==> i < Span(es)
    ensures i + 1 == Span(es) ==> StartOf(es, i).Some?
  {
    if es != [] {
      SpanIsStarted(es[..|es| - 1], i);
      var e := es[|es| - 1];
      if e.Delta? && e.idx == i {
        FoldSlot(es[..|es| - 1], i);
        assert Started(es[..|es| - 1], i);
      }
    }
  }

  lemma {:induction false} SameBlocksSameSpan(es: seq<Ev>, fs: seq<Ev>)
    requires WellFormed(es) && WellFormed(fs)
    requires forall i :: i >= 0 ==> StartOf(es, i) == StartOf(fs, i)
    ensures Span(es) <= Span(fs)
  {
    if Span(es) > 0 {
      var i := Span(es) - 1;
      SpanIsStarted(es, i);
      SpanIsStarted(fs, i);
    }
  }

  /** Splitting and interleaving do not matter: two streams with the same
    envelope events whose blocks have the same starts and the same joined text
    give the same message. */
  lemma {:induction false} SplittingAndOrderDoNotMatter(c: Codec, es: seq<Ev>, fs: seq<Ev>)
    requires WellFormed(es) && WellFormed(fs) && Envelopes(es) == Envelopes(fs)
    requires forall i :: i >= 0 ==> SameBlock(es, fs, i)
    ensures Assemble(c, Fold(es)) == Assemble(c, Fold(fs))
  {
    RebuildsMessage(c, es);
    RebuildsMessage(c, fs);
    assert forall i :: i >= 0 ==> SameBlock(es, fs, i) && StartOf(es, i) == StartOf(fs, i);
    SameBlocksSameSpan(es, fs);
    SameBlocksSameSpan(fs, es);
    forall i | 0 <= i < Span(es) ensures Expected(c, es, i) == Expected(c, fs, i) {
      SameBlockSameValue(c, es, fs, i);
    }
    assert ExpectedSlots(c, es) == ExpectedSlots(c, fs);
  }

  /** The events of one block, in stream order. */
  function Track(es: seq<Ev>, i: int): seq<Ev> {
    if es == [] then []
    else
      var e := es[|es| - 1];
      Track(es[..|es| - 1], i) + if (e.Start? || e.Delta?) && e.idx == i then [e] else []
  }

  lemma {:induction false} TrackDecides(es: seq<Ev>, i: int, kind: Piece -> bool)
    ensures StartOf(Track(es, i), i) == StartOf(es, i)
    ensures Fragments(Track(es, i), i, kind) == Fragments(es, i, kind)
  {
    if es != [] {
      var p, t := es[..|es| - 1], Track(es, i);
      TrackDecides(p, i, kind);
      if t != Track(p, i) {
        assert t[..|t| - 1] == Track(p, i);
      }
    }
  }

  /** In particular any interleaving of the same per-block event sequences. */
  lemma {:induction false} InterleavingDoesNotMatter(c: Codec, es: seq<Ev>, fs: seq<Ev>)
    requires WellFormed(es) && WellFormed(fs) && Envelopes(es) == Envelopes(fs)
    requires forall i :: i >= 0 ==> Track(es, i) == Track(fs, i)
    ensures Assemble(c, Fold(es)) == Assemble(c, Fold(fs))
  {
    forall i | i >= 0 ensures SameBlock(es, fs, i) {
      assert Track(es, i) == Track(fs, i);
      TrackDecides(es, i, IsText);
      TrackDecides(fs, i, IsText);
      TrackDecides(es, i, IsThinking);
      TrackDecides(fs, i, IsThinking);
      TrackDecides(es, i, IsPartial);
      TrackDecides(fs, i, IsPartial);
      TrackDecides(es, i, IsSignature);
      TrackDecides(fs, i, IsSignature);
    }
    SplittingAndOrderDoNotMatter(c, es, fs);
  }

  function WithoutNoise(es: seq<Ev>): seq<Ev> {
    if es == [] then []
    else WithoutNoise(es[..|es| - 1]) + if es[|es| - 1].Noise? then [] else [es[|es| - 1]]
  }

  /** Pings, unknown and malformed events change nothing, in any stream. */
  lemma {:induction false} NoiseIsIgnored(es: seq<Ev>)
    ensures Fold(WithoutNoise(es)) == Fold(es)
  {
    if es != [] {
      var p := es[..|es| - 1];
      NoiseIsIgnored(p);
      if !es[|es| - 1].Noise? {
        assert WithoutNoise(es) == WithoutNoise(p) + [es[|es| - 1]];
        FoldOne(WithoutNoise(p), es[|es| - 1]);
      } else {
        assert WithoutNoise(es) == WithoutNoise(p);
      }
    }
  }

  /** The aggregator panics exactly when some block event has a negative index. */
  lemma {:induction false} PanicsOnNegativeIndex(c: Codec, es: seq<Ev>)
    ensures Assemble(c, Fold(es)).Panic? <==> exists k :: 0 <= k < |es| && Negative(es[k])
  {
    if es != [] {
      var p := es[..|es| - 1];
      PanicsOnNegativeIndex(c, p);
      if k :| 0 <= k < |p| && Negative(p[k]) {
        assert es[k] == p[k];
      }
      if k :| 0 <= k < |es| && Negative(es[k]) {
        assert k < |p| ==> p[k] == es[k];
      }
    }
  }

  // ----- from bytes to message -----

  /** A printed stream, comment lines mixed in, aggregates to its meaning. */
  lemma {:induction false} StreamToMessage(c: Codec, evs: seq<SseEvent>, lines: seq<string>)
    requires WithoutIgnored(lines) == PrintEvents(evs)
    requires (forall e :: e in evs ==> NoLF(e.name)) && (forall l :: l in lines && Ignored(l) ==> NoLF(l))
    requires forall l :: l in lines ==> !EndsInCR(l)
    requires forall e :: e in evs ==> !StartsWithLF(e.data)
    requires WellFormed(Classified(c, evs))
    ensures Aggregate(c, Unlines(lines)) == Meaning(c, Classified(c, evs))
  {
    FramingRoundTrip(evs, lines);
    RebuildsMessage(c, Classified(c, evs));
  }

  /** Aggregating what the relay accumulated is aggregating what upstream sent. */
  lemma {:induction false} RelayKeepsMessage(c: Codec, upstream: string)
    requires forall l :: l in ScanLines(upstream) ==> !EndsInCR(l)
    ensures Aggregate(c, Unlines(ScanLines(upstream))) == Aggregate(c, upstream)
  {
    RelayKeepsLines(upstream);
  }
}
