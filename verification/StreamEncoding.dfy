/**
 What it means for a stream of events to encode a message, independently of the reassembler, and
 the proof that the reassembler answers exactly as the whole-message parser does on what is encoded.
 */
module StreamEncoding {
  import opened Prelude
  import opened AnthropicStream
  import Pricing

  // --- Encodings ---

  /** The events of block k, in stream order. */
  function Projection<V>(events: seq<Event<V>>, k: nat): seq<Event<V>> {
    if events == [] then []
    else
      var front, last := Projection(events[..|events| - 1], k), events[|events| - 1];
      if last.ForBlock(k) then front + [last] else front
  }

  /** The text carried by the deltas of a block's events. */
  function Joined<V>(p: seq<Event<V>>): Text {
    if p == [] then []
    else
      var front, last := Joined(p[..|p| - 1]), p[|p| - 1];
      if last.BlockDelta? && (last.delta.TextDelta? || last.delta.JsonDelta?) then front + last.delta.text else front
  }

  /** A start, any number of deltas, and a stop. */
  predicate BlockShape<V>(p: seq<Event<V>>) {
    && |p| >= 2
    && p[0].BlockStart?
    && p[|p| - 1].BlockStop?
    && forall i :: 0 < i < |p| - 1 ==> p[i].BlockDelta?
  }

  /** Any chunking of a text, or of the JSON text of a tool's input, into non-empty deltas. */
  predicate EncodesContent<V(==)>(json: Json<V>, c: Content<V>, p: seq<Event<V>>) {
    && BlockShape(p)
    && match c
       case TextContent(text) =>
         && p[0].content.StartText?
         && (forall i :: 0 < i < |p| - 1 ==> p[i].delta.TextDelta? && p[i].delta.text != [])
         && p[0].content.text + Joined(p) == text
       case ToolUseContent(id, name, input) =>
         && p[0].content.StartTool? && p[0].content.id == id && p[0].content.name == name
         && json.isObject(p[0].content.input)
         && (forall i :: 0 < i < |p| - 1 ==> p[i].delta.JsonDelta? && p[i].delta.text != [])
         && if |p| == 2 then p[0].content.input == input
            else |Joined(p)| <= MAX_TEXT_BYTES && json.parse(Joined(p)) == Some(input)
       case OtherContent => false
  }

  /** Where the three message-level events of a stream stand. */
  datatype Frame = Frame(start: nat, terminal: nat, stop: nat)

  /** Any interleaving of blocks between start and stop, with pings, unknown events and markers anywhere allowed. */
  predicate Framed<V(==)>(m: Message<V>, indices: seq<nat>, f: Frame, events: seq<Event<V>>) {
    && f.start < f.terminal < f.stop < |events|
    && events[f.start] == MessageStart(StartMessage(m.kind, m.role, m.id, m.model, true, m.usage))
    && events[f.terminal] == MessageDelta(m.stopReason, m.outputTokens)
    && events[f.stop] == MessageStop
    && forall i :: 0 <= i < |events| && i != f.start && i != f.terminal && i != f.stop ==>
         || events[i].DoneMarker?
         || (i < f.stop && (events[i].Ping? || events[i].UnknownEvent?))
         || (f.start < i < f.stop && exists j :: 0 <= j < |indices| && events[i].ForBlock(indices[j]))
  }

  predicate Increasing(indices: seq<nat>) {
    forall i, j :: 0 <= i < j < |indices| ==> indices[i] < indices[j]
  }

  /** events is a streaming encoding of m whose content items use the given block indices. */
  predicate Encodes<V(==)>(json: Json<V>, m: Message<V>, indices: seq<nat>, f: Frame, events: seq<Event<V>>) {
    && |indices| == |m.content|
    && Increasing(indices)
    && (forall j :: 0 <= j < |indices| ==> indices[j] < MAX_ITEMS)
    && (forall j :: 0 <= j < |indices| ==> EncodesContent(json, m.content[j], Projection(events, indices[j])))
    && Framed(m, indices, f, events)
  }

  // --- What the reassembler holds for one block ---

  function ExtendValue<V>(v: BlockValue<V>, e: Event<V>): BlockValue<V> {
    if !e.BlockDelta? then v
    else if v.TextBlock? && e.delta.TextDelta? then TextBlock(v.text + e.delta.text)
    else if v.ToolBlock? && e.delta.JsonDelta? then v.(partialJson := v.partialJson + e.delta.text)
    else v
  }

  function OpenValue<V>(c: StartContent<V>): BlockValue<V>
    requires !c.StartOther?
  {
    if c.StartText? then TextBlock(c.text) else ToolBlock(c.id, c.name, c.input, [])
  }

  /** The block that a non-empty run of one block's events leaves behind. */
  function Assemble<V>(p: seq<Event<V>>): StreamBlock<V>
    requires p != [] && p[0].BlockStart? && !p[0].content.StartOther?
  {
    if |p| == 1 then StreamBlock(OpenValue(p[0].content), false)
    else
      var b := Assemble(p[..|p| - 1]);
      StreamBlock(ExtendValue(b.value, p[|p| - 1]), b.stopped || p[|p| - 1].BlockStop?)
  }

  /** The state holds exactly the blocks that the events so far describe. */
  ghost predicate HoldsBlocks<V>(s: StreamState<V>, events: seq<Event<V>>) {
    forall k: nat ::
      var p := Projection(events, k);
      && (k in s.blocks <==> p != [])
      && (k in s.blocks ==>
            && k < MAX_ITEMS
            && p[0].BlockStart? && !p[0].content.StartOther?
            && s.blocks[k] == Assemble(p))
  }

  lemma ProjectionSnoc<V>(events: seq<Event<V>>, e: Event<V>, k: nat)
    ensures Projection(events + [e], k) == if e.ForBlock(k) then Projection(events, k) + [e] else Projection(events, k)
  {
    assert (events + [e])[..|events|] == events;
  }

  lemma {:induction false} ProjectionPrefix<V>(events: seq<Event<V>>, n: nat, k: nat)
    requires n <= |events|
    ensures Projection(events[..n], k) <= Projection(events, k)
    decreases |events| - n
  {
    if n == |events| {
      assert events[..n] == events;
    } else {
      ProjectionPrefix(events, n + 1, k);
      assert events[..n + 1] == events[..n] + [events[n]];
      ProjectionSnoc(events[..n], events[n], k);
    }
  }

  lemma AssembleSnoc<V>(p: seq<Event<V>>, e: Event<V>)
    requires p != [] && p[0].BlockStart? && !p[0].content.StartOther?
    ensures Assemble(p + [e]) == StreamBlock(ExtendValue(Assemble(p).value, e), Assemble(p).stopped || e.BlockStop?)
  {
    assert (p + [e])[..|p|] == p;
  }

  /** A block's state, in closed form: its kind, its joined text, and whether it has been stopped. */
  lemma {:induction false} AssembledText<V>(p: seq<Event<V>>)
    requires p != [] && p[0].BlockStart? && !p[0].content.StartOther?
    requires forall i :: 0 < i < |p| ==>
               || p[i].BlockStop?
               || (p[i].BlockDelta? && (if p[0].content.StartText? then p[i].delta.TextDelta? else p[i].delta.JsonDelta?))
    ensures p[0].content.StartText? ==> Assemble(p).value == TextBlock(p[0].content.text + Joined(p))
    ensures p[0].content.StartTool? ==>
              Assemble(p).value == ToolBlock(p[0].content.id, p[0].content.name, p[0].content.input, Joined(p))
    ensures Assemble(p).stopped <==> exists i :: 0 < i < |p| && p[i].BlockStop?
  {
    if |p| > 1 {
      var front := p[..|p| - 1];
      AssembledText(front);
      assert forall i :: 0 <= i < |front| ==> front[i] == p[i];
    } else {
      assert p[..0] == [];
      assert Joined(p) == Joined(p[..0]);
    }
  }

  lemma {:induction false} JoinedPrefix<V>(p: seq<Event<V>>, n: nat)
    requires n <= |p|
    ensures |Joined(p[..n])| <= |Joined(p)|
    decreases |p| - n
  {
    if n == |p| {
      assert p[..n] == p;
    } else {
      JoinedPrefix(p, n + 1);
      assert p[..n + 1][..n] == p[..n];
    }
  }

  // --- Encodings are accepted ---

  /** What the state must be after the first n events of an encoding. */
  ghost predicate OnTrack<V>(m: Message<V>, f: Frame, events: seq<Event<V>>, n: nat, s: StreamState<V>)
    requires n <= |events|
  {
    && s.responseId == (if n > f.start then Some(m.id) else None)
    && s.model == (if n > f.start then Some(m.model) else None)
    && s.input == (if n > f.start then InputUsageOf(m.usage) else None)
    && s.terminal == (if n > f.terminal then Terminal(m.stopReason) else None)
    && s.outputTokens == (if n > f.terminal then Some(m.outputTokens) else None)
    && s.stopped == (n > f.stop)
    && HoldsBlocks(s, events[..n])
  }

  /** The message-level checks the two parsers share. */
  ghost predicate Parseable<V>(m: Message<V>) {
    && m.kind == "message" && m.role == "assistant"
    && ValidOpaqueId(m.id) && ValidModel(m.model)
    && Terminal(m.stopReason).Some? && InputUsageOf(m.usage).Some?
  }

  ghost predicate ContentParses<V>(json: Json<V>, m: Message<V>) {
    forall j :: 0 <= j < |m.content| ==> ParseContent(json, m.content[j]).Ok?
  }

  lemma {:induction false} ParseContentsWhole<V>(json: Json<V>, cs: seq<Content<V>>)
    ensures ParseContents(json, cs).Ok? <==> forall j :: 0 <= j < |cs| ==> ParseContent(json, cs[j]).Ok?
    ensures ParseContents(json, cs).Ok? ==>
              && |ParseContents(json, cs).value| == |cs|
              && forall j :: 0 <= j < |cs| ==> ParseContent(json, cs[j]) == Ok(ParseContents(json, cs).value[j])
  {
    if cs != [] {
      ParseContentsWhole(json, cs[..|cs| - 1]);
    }
  }

  /** The n-th event of an encoding, when it belongs to a block, is the next event of that block's encoding. */
  lemma NextOfBlock<V>(events: seq<Event<V>>, n: nat, k: nat)
    requires n < |events| && events[n].ForBlock(k)
    ensures
      var p, whole := Projection(events[..n], k), Projection(events, k);
      |p| < |whole| && p == whole[..|p|] && whole[|p|] == events[n] && p + [events[n]] == whole[..|p| + 1]
  {
    assert events[..n + 1] == events[..n] + [events[n]];
    ProjectionSnoc(events[..n], events[n], k);
    ProjectionPrefix(events, n + 1, k);
  }

  lemma HoldsAfterBlockEvent<V>(s: StreamState<V>, events: seq<Event<V>>, n: nat, k: nat, b: StreamBlock<V>)
    requires n < |events| && events[n].ForBlock(k) && k < MAX_ITEMS
    requires HoldsBlocks(s, events[..n])
    requires var p := Projection(events[..n], k) + [events[n]];
             p[0].BlockStart? && !p[0].content.StartOther? && b == Assemble(p)
    ensures HoldsBlocks(s.(blocks := s.blocks[k := b]), events[..n + 1])
  {
    assert events[..n + 1] == events[..n] + [events[n]];
    forall j: nat {
      ProjectionSnoc(events[..n], events[n], j);
    }
  }

  lemma HoldsAfterOtherEvent<V>(s: StreamState<V>, t: StreamState<V>, events: seq<Event<V>>, n: nat)
    requires n < |events| && forall k: nat :: !events[n].ForBlock(k)
    requires HoldsBlocks(s, events[..n]) && t.blocks == s.blocks
    ensures HoldsBlocks(t, events[..n + 1])
  {
    assert events[..n + 1] == events[..n] + [events[n]];
    forall k: nat
      ensures Projection(events[..n + 1], k) == Projection(events[..n], k)
    {
      ProjectionSnoc(events[..n], events[n], k);
    }
  }

  /** Every stage of a block's encoding is well formed and within the byte bounds. */
  lemma StageOfContent<V>(json: Json<V>, c: Content<V>, whole: seq<Event<V>>, i: nat)
    requires EncodesContent(json, c, whole) && ParseContent(json, c).Ok?
    requires 0 < i <= |whole|
    ensures
      var q := whole[..i];
      && q[0].BlockStart? && !q[0].content.StartOther?
      && OpenBlock(json, q[0].content) == Ok(Assemble(q[..1]))
      && (q[0].content.StartText? ==>
            && Assemble(q).value == TextBlock(q[0].content.text + Joined(q))
            && |q[0].content.text + Joined(q)| <= MAX_TEXT_BYTES)
      && (q[0].content.StartTool? ==>
            && Assemble(q).value == ToolBlock(q[0].content.id, q[0].content.name, q[0].content.input, Joined(q))
            && |Joined(q)| <= MAX_TEXT_BYTES)
      && (Assemble(q).stopped <==> i == |whole|)
  {
    var q := whole[..i];
    JoinedPrefix(whole, i);
    JoinedPrefix(whole, 0);
    AssembledText(q);
    AssembledText(q[..1]);
    assert whole[..0] == [] && Joined(whole[..1]) == Joined(whole[..1][..0]) == [];
    if |whole| == 2 { assert whole[..2] == whole && Joined(whole) == Joined(whole[..1]); }
    if i == |whole| { assert q[i - 1].BlockStop?; }
    assert q[..1] == whole[..1];
    assert OpenValue(whole[0].content) == Assemble(whole[..1]).value;
  }

  lemma BlockStepSucceeds<V>(
      json: Json<V>, m: Message<V>, indices: seq<nat>, f: Frame, events: seq<Event<V>>, n: nat, j: nat, s: StreamState<V>)
    requires Encodes(json, m, indices, f, events) && ContentParses(json, m)
    requires n < |events| && j < |indices| && events[n].ForBlock(indices[j])
    requires HoldsBlocks(s, events[..n]) && s.responseId.Some? && !s.stopped
    ensures Step(json, s, events[n]).Ok?
    ensures
      var t := Step(json, s, events[n]).value;
      t == s.(blocks := t.blocks) && HoldsBlocks(t, events[..n + 1])
  {
    var k, e := indices[j], events[n];
    var p, whole := Projection(events[..n], k), Projection(events, k);
    NextOfBlock(events, n, k);
    assert whole[..|p|] == p && whole[..|p| + 1] == p + [e];
    StageOfContent(json, m.content[j], whole, |p| + 1);
    HoldsAfterBlockEvent(s, events, n, k, Assemble(p + [e]));
    if p == [] {
      KeysBelowMax(s.blocks, k);
      assert p + [e] == whole[..1] && (p + [e])[..1] == p + [e];
    } else {
      StageOfContent(json, m.content[j], whole, |p|);
      hide HoldsBlocks, EncodesContent, Projection;
      NextBlockEventAccepted(json, s, k, p, e);
    }
  }

  /** A further event of an open block is accepted when the block it leaves behind is within bounds. */
  lemma NextBlockEventAccepted<V>(json: Json<V>, s: StreamState<V>, k: nat, p: seq<Event<V>>, e: Event<V>)
    requires p != [] && p[0].BlockStart? && !p[0].content.StartOther? && (e.BlockDelta? || e.BlockStop?) && e.ForBlock(k)
    requires k < MAX_ITEMS && (e.BlockDelta? ==> !e.delta.OtherDelta? && e.delta.text != [])
    requires k in s.blocks && s.blocks[k] == Assemble(p) && !Assemble(p).stopped && !s.stopped && s.responseId.Some?
    requires p[0].content.StartText? ==>
               Assemble(p).value == TextBlock(p[0].content.text + Joined(p))
               && |p[0].content.text + Joined(p + [e])| <= MAX_TEXT_BYTES && (e.BlockDelta? ==> e.delta.TextDelta?)
    requires p[0].content.StartTool? ==>
               Assemble(p).value == ToolBlock(p[0].content.id, p[0].content.name, p[0].content.input, Joined(p))
               && |Joined(p + [e])| <= MAX_TEXT_BYTES && (e.BlockDelta? ==> e.delta.JsonDelta?)
    ensures Step(json, s, e) == Ok(s.(blocks := s.blocks[k := Assemble(p + [e])]))
  {
    AssembleSnoc(p, e);
    assert Joined(p + [e]) == Joined(p) + (if e.BlockDelta? then e.delta.text else []) by {
      assert (p + [e])[..|p|] == p;
    }
  }

  lemma KeysBelowMax<T>(blocks: map<nat, T>, k: nat)
    requires forall i :: i in blocks ==> i < MAX_ITEMS
    requires k < MAX_ITEMS && k !in blocks
    ensures |blocks| < MAX_ITEMS
  {
    BoundedSetSize(blocks.Keys + {k}, MAX_ITEMS);
    assert |blocks.Keys + {k}| == |blocks.Keys| + 1;
  }

  lemma OnTrackStep<V>(
      json: Json<V>, m: Message<V>, indices: seq<nat>, f: Frame, events: seq<Event<V>>, n: nat, s: StreamState<V>)
    requires Encodes(json, m, indices, f, events) && ContentParses(json, m) && Parseable(m)
    requires n < |events| && OnTrack(m, f, events, n, s)
    ensures Step(json, s, events[n]).Ok? && OnTrack(m, f, events, n + 1, Step(json, s, events[n]).value)
  {
    var e := events[n];
    if e.BlockStart? || e.BlockDelta? || e.BlockStop? {
      assert n != f.start && n != f.terminal && n != f.stop;
      var j: nat :| j < |indices| && e.ForBlock(indices[j]);
      BlockStepSucceeds(json, m, indices, f, events, n, j, s);
    } else {
      assert Step(json, s, e).Ok?;
      HoldsAfterOtherEvent(s, Step(json, s, e).value, events, n);
    }
  }

  lemma {:induction false} EncodingStaysOnTrack<V>(
      json: Json<V>, m: Message<V>, indices: seq<nat>, f: Frame, events: seq<Event<V>>, n: nat)
    requires Encodes(json, m, indices, f, events) && ContentParses(json, m) && Parseable(m)
    requires n <= |events|
    ensures Feed(json, events[..n]).Ok? && OnTrack(m, f, events, n, Feed(json, events[..n]).value)
  {
    if n > 0 {
      EncodingStaysOnTrack(json, m, indices, f, events, n - 1);
      OnTrackStep(json, m, indices, f, events, n - 1, Feed(json, events[..n - 1]).value);
      assert events[..n][..n - 1] == events[..n - 1];
    }
  }

  /** How many of the increasing indices lie below n. */
  function CountBelow(indices: seq<nat>, n: nat): (c: nat)
    ensures c <= |indices|
  {
    if indices == [] then 0
    else CountBelow(indices[..|indices| - 1], n) + (if indices[|indices| - 1] < n then 1 else 0)
  }

  lemma {:induction false} CountBelowSplits(indices: seq<nat>, n: nat)
    requires Increasing(indices)
    ensures forall j :: 0 <= j < |indices| ==> (indices[j] < n <==> j < CountBelow(indices, n))
  {
    if indices != [] {
      CountBelowSplits(indices[..|indices| - 1], n);
    }
  }

  /** Finishing the blocks in index order yields the parsed content items in order. */
  lemma {:induction false} OutputIsContent<V>(
      json: Json<V>, indices: seq<nat>, blocks: map<nat, StreamBlock<V>>, items: seq<Item<V>>, n: nat)
    requires Increasing(indices) && |indices| == |items|
    requires forall k :: k in blocks <==> k in indices
    requires forall j :: 0 <= j < |indices| ==> FinishBlock(json, blocks[indices[j]]) == Ok(items[j])
    ensures OutputBelow(json, blocks, n) == Ok(items[..CountBelow(indices, n)])
  {
    hide FinishBlock;
    CountBelowSplits(indices, n);
    if n == 0 {
      assert indices != [] ==> indices[0] >= 0;
    } else {
      OutputIsContent(json, indices, blocks, items, n - 1);
      CountBelowSplits(indices, n - 1);
      var before, after := CountBelow(indices, n - 1), CountBelow(indices, n);
      if n - 1 in blocks {
        var j: nat :| j < |indices| && indices[j] == n - 1;
        assert j + 1 < |indices| ==> indices[j + 1] >= n;
        assert j > 0 ==> indices[j - 1] < n - 1;
        assert before == j && after == j + 1;
        assert items[..after] == items[..before] + [items[j]];
      } else {
        assert before < |indices| ==> indices[before] >= n - 1 && indices[before] in blocks;
        assert after < |indices| ==> indices[after] >= n;
        assert before == after;
      }
    }
  }

  /** The finished block of an encoded content item is the item the message parser produces. */
  lemma FinishedContent<V>(json: Json<V>, c: Content<V>, whole: seq<Event<V>>)
    requires EncodesContent(json, c, whole) && ParseContent(json, c).Ok?
    requires whole != [] && whole[0].BlockStart? && !whole[0].content.StartOther?
    ensures Assemble(whole).stopped
    ensures FinishBlock(json, Assemble(whole)) == ParseContent(json, c)
  {
    StageOfContent(json, c, whole, |whole|);
    assert whole[..|whole|] == whole;
    if c.ToolUseContent? && |whole| > 2 {
      DeltasJoinToSomething(whole);
    }
    if |whole| == 2 {
      assert whole[..1][..0] == [];
      assert Joined(whole) == Joined(whole[..1]) == Joined(whole[..1][..0]) == [];
    }
  }

  lemma DeltasJoinToSomething<V>(whole: seq<Event<V>>)
    requires BlockShape(whole) && |whole| > 2
    requires whole[1].delta.JsonDelta? && whole[1].delta.text != []
    ensures Joined(whole) != []
  {
    JoinedPrefix(whole, 2);
    assert whole[..2][..1] == whole[..1];
  }

  lemma EncodedBlockFinishes<V>(
      json: Json<V>, m: Message<V>, indices: seq<nat>, f: Frame, events: seq<Event<V>>, s: StreamState<V>, j: nat)
    requires Encodes(json, m, indices, f, events) && ContentParses(json, m)
    requires HoldsBlocks(s, events) && j < |indices|
    ensures indices[j] in s.blocks && s.blocks[indices[j]].stopped
    ensures FinishBlock(json, s.blocks[indices[j]]) == ParseContent(json, m.content[j])
  {
    var whole := Projection(events, indices[j]);
    StageOfContent(json, m.content[j], whole, |whole|);
    FinishedContent(json, m.content[j], whole);
  }

  lemma EncodedBlocks<V>(
      json: Json<V>, m: Message<V>, indices: seq<nat>, f: Frame, events: seq<Event<V>>, s: StreamState<V>)
    requires Encodes(json, m, indices, f, events) && ContentParses(json, m)
    requires HoldsBlocks(s, events)
    ensures forall k :: k in s.blocks <==> k in indices
    ensures forall j :: 0 <= j < |indices| ==>
              && s.blocks[indices[j]].stopped
              && FinishBlock(json, s.blocks[indices[j]]) == ParseContent(json, m.content[j])
  {
    forall j: nat | j < |indices|
      ensures indices[j] in s.blocks && s.blocks[indices[j]].stopped
      ensures FinishBlock(json, s.blocks[indices[j]]) == ParseContent(json, m.content[j])
    {
      EncodedBlockFinishes(json, m, indices, f, events, s, j);
    }
    forall k | k in s.blocks
      ensures k in indices
    {
      BlockEventsAreIndexed(json, m, indices, f, events, k);
    }
  }

  /** Once every index is passed, the output is the whole content. */
  lemma OutputIsWholeContent<V>(
      json: Json<V>, m: Message<V>, indices: seq<nat>, blocks: map<nat, StreamBlock<V>>, n: nat)
    requires Increasing(indices) && |indices| == |m.content| && forall j :: 0 <= j < |indices| ==> indices[j] < n
    requires forall k :: k in blocks <==> k in indices
    requires ContentParses(json, m)
    requires forall j :: 0 <= j < |indices| ==>
               FinishBlock(json, blocks[indices[j]]) == ParseContent(json, m.content[j])
    ensures OutputBelow(json, blocks, n) == ParseContents(json, m.content)
  {
    ParseContentsWhole(json, m.content);
    var items := ParseContents(json, m.content).value;
    OutputIsContent(json, indices, blocks, items, n);
    CountBelowSplits(indices, n);
    var below := CountBelow(indices, n);
    assert forall j: nat :: j < |indices| ==> indices[j] < n && j < below;
    assert items[..|indices|] == items;
  }

  /**
   Stream equals message: whenever the message parser accepts a message, every streaming encoding of
   it within the event bound is accepted by the reassembler with the very same response.
   */
  lemma StreamEqualsMessage<V>(
      json: Json<V>, requestId: string, m: Message<V>, indices: seq<nat>, f: Frame, events: seq<Event<V>>)
    requires ParseMessage(json, requestId, m).Ok?
    requires Encodes(json, m, indices, f, events) && |events| <= MAX_EVENTS
    ensures ParseStream(json, requestId, events) == ParseMessage(json, requestId, m)
  {
    ParseContentsWhole(json, m.content);
    hide Feed, ParseContents, ParseContent, Encodes, OutputBelow, Finished;
    EncodingStaysOnTrack(json, m, indices, f, events, |events|);
    assert events[..|events|] == events;
    var s := Feed(json, events).value;
    EncodingFinishes(json, m, indices, f, events, s, MAX_ITEMS);
  }

  /** The state at the end of an encoding finishes with the response the message parser gives. */
  lemma EncodingFinishes<V>(
      json: Json<V>, m: Message<V>, indices: seq<nat>, f: Frame, events: seq<Event<V>>, s: StreamState<V>, n: nat)
    requires Encodes(json, m, indices, f, events) && ContentParses(json, m) && Parseable(m) && m.content != []
    requires OnTrack(m, f, events, |events|, s) && n == MAX_ITEMS
    ensures Finished(s) && OutputBelow(json, s.blocks, n) == ParseContents(json, m.content)
    ensures s.responseId == Some(m.id) && s.model == Some(m.model) && s.input == InputUsageOf(m.usage)
    ensures s.terminal == Terminal(m.stopReason) && s.outputTokens == Some(m.outputTokens)
  {
    assert events[..|events|] == events;
    EncodedBlocks(json, m, indices, f, events, s);
    assert indices[0] in s.blocks;
    hide FinishBlock, ParseContents, ParseContent, OutputBelow;
    OutputIsWholeContent(json, m, indices, s.blocks, n);
  }

  lemma {:induction false} ProjectionComesFromEvents<V>(events: seq<Event<V>>, k: nat)
    requires Projection(events, k) != []
    ensures exists i :: 0 <= i < |events| && events[i].ForBlock(k)
  {
    if !events[|events| - 1].ForBlock(k) {
      ProjectionComesFromEvents(events[..|events| - 1], k);
      var i :| 0 <= i < |events| - 1 && events[..|events| - 1][i].ForBlock(k);
      assert events[i].ForBlock(k);
    }
  }

  lemma BlockEventsAreIndexed<V>(
      json: Json<V>, m: Message<V>, indices: seq<nat>, f: Frame, events: seq<Event<V>>, k: nat)
    requires Encodes(json, m, indices, f, events) && Projection(events, k) != []
    ensures k in indices
  {
    ProjectionComesFromEvents(events, k);
    var i :| 0 <= i < |events| && events[i].ForBlock(k);
    assert i != f.start && i != f.terminal && i != f.stop;
    var j :| 0 <= j < |indices| && events[i].ForBlock(indices[j]);
  }

  // --- Accepted streams are encodings ---

  /** Where the message-level events of a stream seen so far stand. */
  datatype Seen = Seen(start: Option<nat>, terminal: Option<nat>, stop: Option<nat>)

  /** The events of one block that the reassembler has accepted so far. */
  ghost predicate WellFed<V>(json: Json<V>, p: seq<Event<V>>) {
    && p != []
    && p[0].BlockStart? && OpenBlock(json, p[0].content).Ok?
    && (forall i :: 0 < i < |p| - 1 ==> p[i].BlockDelta?)
    && (|p| > 1 ==> p[|p| - 1].BlockDelta? || p[|p| - 1].BlockStop?)
    && (forall i :: 0 < i < |p| && p[i].BlockDelta? ==>
          (if p[0].content.StartText? then p[i].delta.TextDelta? else p[i].delta.JsonDelta?) && p[i].delta.text != [])
    && var b := Assemble(p);
       if b.value.TextBlock? then |b.value.text| <= MAX_TEXT_BYTES else |b.value.partialJson| <= MAX_TEXT_BYTES
  }

  ghost predicate StartSeen<V>(events: seq<Event<V>>, s: StreamState<V>, w: Seen) {
    match w.start
    case None => s.responseId == None && s.model == None && s.input == None && w.terminal == None && w.stop == None
    case Some(i) =>
      && i < |events| && events[i].MessageStart?
      && var m := events[i].message;
      && m.kind == "message" && m.role == "assistant" && ValidOpaqueId(m.id) && ValidModel(m.model)
      && m.stopReasonIsNull && InputUsageOf(m.usage).Some?
      && s.responseId == Some(m.id) && s.model == Some(m.model) && s.input == InputUsageOf(m.usage)
  }

  ghost predicate TerminalSeen<V>(events: seq<Event<V>>, s: StreamState<V>, w: Seen) {
    match w.terminal
    case None => s.terminal == None && s.outputTokens == None
    case Some(i) =>
      && w.start.Some? && w.start.value < i < |events| && events[i].MessageDelta?
      && Terminal(events[i].stopReason).Some?
      && s.terminal == Terminal(events[i].stopReason) && s.outputTokens == Some(events[i].outputTokens)
  }

  ghost predicate StopSeen<V>(events: seq<Event<V>>, s: StreamState<V>, w: Seen) {
    match w.stop
    case None => !s.stopped
    case Some(i) =>
      && w.start.Some? && w.start.value < i < |events| && events[i].MessageStop? && s.stopped
      && (w.terminal.Some? ==> w.terminal.value < i)
  }

  ghost predicate OthersSeen<V>(events: seq<Event<V>>, w: Seen) {
    forall i: nat :: i < |events| && Some(i) != w.start && Some(i) != w.terminal && Some(i) != w.stop ==>
      || events[i].DoneMarker?
      || ((w.stop.Some? ==> i < w.stop.value) && (events[i].Ping? || events[i].UnknownEvent?))
      || ((w.stop.Some? ==> i < w.stop.value) && w.start.Some? && w.start.value < i
          && (events[i].BlockStart? || events[i].BlockDelta? || events[i].BlockStop?))
  }

  ghost predicate BlocksWellFed<V>(json: Json<V>, events: seq<Event<V>>, s: StreamState<V>) {
    forall k :: k in s.blocks ==> WellFed(json, Projection(events, k))
  }

  ghost predicate SeenAll<V>(events: seq<Event<V>>, s: StreamState<V>, w: Seen) {
    StartSeen(events, s, w) && TerminalSeen(events, s, w) && StopSeen(events, s, w) && OthersSeen(events, w)
  }

  ghost predicate Explains<V>(json: Json<V>, events: seq<Event<V>>, s: StreamState<V>, w: Seen) {
    SeenAll(events, s, w) && HoldsBlocks(s, events) && BlocksWellFed(json, events, s)
  }

  lemma FirstEventWellFed<V>(json: Json<V>, e: Event<V>)
    requires e.BlockStart? && OpenBlock(json, e.content).Ok?
    ensures WellFed(json, [e]) && OpenBlock(json, e.content).value == Assemble([e])
  {
  }

  lemma NextEventWellFed<V>(json: Json<V>, p: seq<Event<V>>, e: Event<V>)
    requires WellFed(json, p) && !Assemble(p).stopped
    requires e.BlockStop? || (e.BlockDelta? && ExtendBlock(Assemble(p), e.delta).Ok?)
    ensures WellFed(json, p + [e])
    ensures e.BlockStop? ==> Assemble(p + [e]) == Assemble(p).(stopped := true)
    ensures e.BlockDelta? ==> Ok(Assemble(p + [e])) == ExtendBlock(Assemble(p), e.delta)
  {
    var q := p + [e];
    AssembleSnoc(p, e);
    StoppedMeansStopEvent(json, p);
    assert forall i :: 0 <= i < |p| ==> q[i] == p[i];
  }

  lemma FedBlockStep<V>(json: Json<V>, events: seq<Event<V>>, s: StreamState<V>, e: Event<V>)
    requires HoldsBlocks(s, events) && BlocksWellFed(json, events, s) && !s.stopped
    requires (e.BlockStart? || e.BlockDelta? || e.BlockStop?) && Step(json, s, e).Ok?
    ensures
      var t := Step(json, s, e).value;
      t == s.(blocks := t.blocks) && HoldsBlocks(t, events + [e]) && BlocksWellFed(json, events + [e], t)
  {
    var k, t := e.index, Step(json, s, e).value;
    var p := Projection(events, k);
    var q := p + [e];
    if e.BlockStart? {
      FirstEventWellFed(json, e);
      assert q == [e];
    } else {
      NextEventWellFed(json, p, e);
    }
    assert t == s.(blocks := s.blocks[k := Assemble(q)]);
    var longer := events + [e];
    assert longer[|events|] == e && longer[..|events|] == events && longer[..|events| + 1] == longer;
    HoldsAfterBlockEvent(s, longer, |events|, k, Assemble(q));
    forall j | j in t.blocks
      ensures WellFed(json, Projection(longer, j))
    {
      ProjectionSnoc(events, e, j);
    }
  }

  lemma StoppedMeansStopEvent<V>(json: Json<V>, p: seq<Event<V>>)
    requires WellFed(json, p)
    ensures Assemble(p).stopped <==> |p| > 1 && p[|p| - 1].BlockStop?
    ensures p[0].content.StartText? ==> Assemble(p).value == TextBlock(p[0].content.text + Joined(p))
    ensures p[0].content.StartTool? ==>
              Assemble(p).value == ToolBlock(p[0].content.id, p[0].content.name, p[0].content.input, Joined(p))
  {
    AssembledText(p);
  }

  /** The message-level events seen after one more event. */
  lemma SeenStep<V>(json: Json<V>, events: seq<Event<V>>, e: Event<V>, s: StreamState<V>, w: Seen) returns (w': Seen)
    requires SeenAll(events, s, w) && Step(json, s, e).Ok?
    requires e.BlockStart? || e.BlockDelta? || e.BlockStop? ==>
               w.start.Some? && !s.stopped && Step(json, s, e).value == s.(blocks := Step(json, s, e).value.blocks)
    ensures SeenAll(events + [e], Step(json, s, e).value, w')
  {
    var n := |events|;
    w' := if e.MessageStart? && !s.stopped then w.(start := Some(n))
          else if e.MessageDelta? && !s.stopped then w.(terminal := Some(n))
          else if e.MessageStop? && !s.stopped then w.(stop := Some(n))
          else w;
    assert (events + [e])[n] == e && forall i :: 0 <= i < n ==> (events + [e])[i] == events[i];
  }

  lemma ExplainsStep<V>(json: Json<V>, events: seq<Event<V>>, e: Event<V>, s: StreamState<V>, w: Seen) returns (w': Seen)
    requires Explains(json, events, s, w) && Step(json, s, e).Ok?
    ensures Explains(json, events + [e], Step(json, s, e).value, w')
  {
    if e.BlockStart? || e.BlockDelta? || e.BlockStop? {
      BlockEventNeedsStart(json, events, s, e, w);
      hide SeenAll, BlocksWellFed, HoldsBlocks;
      FedBlockStep(json, events, s, e);
      w' := SeenStep(json, events, e, s, w);
    } else {
      hide SeenAll, BlocksWellFed, HoldsBlocks;
      FedOtherStep(json, events, s, Step(json, s, e).value, e);
      w' := SeenStep(json, events, e, s, w);
    }
  }

  lemma FedOtherStep<V>(json: Json<V>, events: seq<Event<V>>, s: StreamState<V>, t: StreamState<V>, e: Event<V>)
    requires HoldsBlocks(s, events) && BlocksWellFed(json, events, s) && t.blocks == s.blocks
    requires !e.BlockStart? && !e.BlockDelta? && !e.BlockStop?
    ensures HoldsBlocks(t, events + [e]) && BlocksWellFed(json, events + [e], t)
  {
    hide WellFed;
    var n := |events|;
    assert (events + [e])[..n] == events && (events + [e])[..n + 1] == events + [e];
    HoldsAfterOtherEvent(s, t, events + [e], n);
    forall k | k in t.blocks
      ensures WellFed(json, Projection(events + [e], k))
    {
      ProjectionSnoc(events, e, k);
    }
  }

  lemma BlockEventNeedsStart<V>(json: Json<V>, events: seq<Event<V>>, s: StreamState<V>, e: Event<V>, w: Seen)
    requires Explains(json, events, s, w) && Step(json, s, e).Ok?
    requires e.BlockStart? || e.BlockDelta? || e.BlockStop?
    ensures w.start.Some? && !s.stopped
  {
    if !e.BlockStart? {
      ProjectionComesFromEvents(events, e.index);
      var i: nat :| i < |events| && events[i].ForBlock(e.index);
      assert w.start.Some?;
    }
  }

  lemma {:induction false} FeedExplained<V>(json: Json<V>, events: seq<Event<V>>) returns (w: Seen)
    requires Feed(json, events).Ok?
    ensures Explains(json, events, Feed(json, events).value, w)
  {
    if events == [] {
      w := Seen(None, None, None);
    } else {
      var front := events[..|events| - 1];
      w := FeedExplained(json, front);
      w := ExplainsStep(json, front, events[|events| - 1], Feed(json, front).value, w);
      assert front + [events[|events| - 1]] == events;
    }
  }

  /** The fallback values are never used: an accepted stream has set every field of the response. */
  lemma AcceptedStreamNeedsNoFallback<V>(json: Json<V>, requestId: string, events: seq<Event<V>>)
    requires ParseStream(json, requestId, events).Ok?
    ensures
      var s := Feed(json, events).value;
      s.responseId.Some? && s.model.Some? && s.input.Some? && s.terminal.Some? && s.outputTokens.Some?
  {
    var w := FeedExplained(json, events);
  }

  /** The content item that a stopped block encodes. */
  ghost function ContentOf<V>(json: Json<V>, p: seq<Event<V>>): Content<V>
    requires WellFed(json, p)
  {
    match p[0].content
    case StartText(text) => TextContent(text + Joined(p))
    case StartTool(id, name, input) =>
      ToolUseContent(id, name,
                     if |p| == 2 || json.parse(Joined(p)).None? then input else json.parse(Joined(p)).value)
    case StartOther => OtherContent
  }

  lemma ContentIsEncoded<V>(json: Json<V>, p: seq<Event<V>>)
    requires WellFed(json, p) && Assemble(p).stopped && FinishBlock(json, Assemble(p)).Ok?
    ensures EncodesContent(json, ContentOf(json, p), p)
    ensures ParseContent(json, ContentOf(json, p)).Ok? <==> ContentOf(json, p) != TextContent([])
  {
    StoppedMeansStopEvent(json, p);
    if p[0].content.StartTool? && |p| > 2 {
      assert p[1].BlockDelta?;
      DeltasJoinToSomething(p);
    }
  }

  /** The block indices below n, in order. */
  ghost function KeysBelow<T>(blocks: map<nat, T>, n: nat): (ks: seq<nat>)
    ensures Increasing(ks)
    ensures forall i :: 0 <= i < |ks| ==> ks[i] in blocks && ks[i] < n
    ensures forall k :: k in blocks && k < n ==> k in ks
  {
    if n == 0 then []
    else
      var before := KeysBelow(blocks, n - 1);
      if n - 1 in blocks then before + [n - 1] else before
  }

  lemma IncreasingSize(ks: seq<nat>, n: nat)
    requires Increasing(ks) && forall k :: k in ks ==> k < n
    ensures |ks| <= n
  {
    if |ks| > n {
      assert forall i :: 0 <= i < |ks| ==> ks[i] in ks;
      Pigeonhole(ks, n);
    }
  }

  lemma {:induction false} OutputNeedsEveryBlock<V>(json: Json<V>, blocks: map<nat, StreamBlock<V>>, n: nat)
    requires OutputBelow(json, blocks, n).Ok?
    ensures forall k :: k in blocks && k < n ==> FinishBlock(json, blocks[k]).Ok?
  {
    if n > 0 {
      OutputNeedsEveryBlock(json, blocks, n - 1);
    }
  }

  ghost predicate HasEmptyText<V>(m: Message<V>) {
    TextContent([]) in m.content
  }

  /** The message a finished stream encodes. */
  ghost function Reassembled<V>(json: Json<V>, events: seq<Event<V>>, s: StreamState<V>, f: Frame, ks: seq<nat>): Message<V>
    requires f.start < |events| && events[f.start].MessageStart?
    requires f.terminal < |events| && events[f.terminal].MessageDelta?
    requires forall j :: 0 <= j < |ks| ==> WellFed(json, Projection(events, ks[j]))
  {
    var start, end := events[f.start].message, events[f.terminal];
    Message(start.kind, start.role, start.id, start.model, end.stopReason,
            seq(|ks|, j requires 0 <= j < |ks| => ContentOf(json, Projection(events, ks[j]))),
            start.usage, end.outputTokens)
  }

  ghost predicate BlockEncoded<V>(json: Json<V>, events: seq<Event<V>>, k: nat) {
    var p := Projection(events, k);
    && WellFed(json, p)
    && EncodesContent(json, ContentOf(json, p), p)
    && (ParseContent(json, ContentOf(json, p)).Ok? <==> ContentOf(json, p) != TextContent([]))
  }

  lemma FinishedBlocksAreEncoded<V>(json: Json<V>, events: seq<Event<V>>, s: StreamState<V>, n: nat)
    requires HoldsBlocks(s, events) && BlocksWellFed(json, events, s) && Finished(s)
    requires OutputBelow(json, s.blocks, n).Ok? && n == MAX_ITEMS
    ensures forall k :: k in s.blocks ==> BlockEncoded(json, events, k)
  {
    OutputNeedsEveryBlock(json, s.blocks, n);
    forall k | k in s.blocks
      ensures BlockEncoded(json, events, k)
    {
      ContentIsEncoded(json, Projection(events, k));
    }
  }

  lemma ReassembledContent<V>(json: Json<V>, events: seq<Event<V>>, s: StreamState<V>, f: Frame, ks: seq<nat>)
    requires f.start < |events| && events[f.start].MessageStart?
    requires f.terminal < |events| && events[f.terminal].MessageDelta?
    requires forall j :: 0 <= j < |ks| ==> WellFed(json, Projection(events, ks[j])) && BlockEncoded(json, events, ks[j])
    ensures
      var m := Reassembled(json, events, s, f, ks);
      && |m.content| == |ks|
      && forall j :: 0 <= j < |ks| ==>
           && EncodesContent(json, m.content[j], Projection(events, ks[j]))
           && (ParseContent(json, m.content[j]).Ok? <==> m.content[j] != TextContent([]))
  {
    hide EncodesContent, ParseContent, ContentOf;
  }

  lemma FinishedStreamIsFramed<V>(
      json: Json<V>, events: seq<Event<V>>, s: StreamState<V>, w: Seen, m: Message<V>, indices: seq<nat>, f: Frame)
    requires Explains(json, events, s, w) && Finished(s)
    requires w == Seen(Some(f.start), Some(f.terminal), Some(f.stop))
    requires forall k :: k in indices <==> k in s.blocks
    requires forall j :: 0 <= j < |indices| ==> WellFed(json, Projection(events, indices[j]))
    requires m == Reassembled(json, events, s, f, indices)
    ensures Framed(m, indices, f, events)
  {
    forall i: nat | i < |events| && i != f.start && i != f.terminal && i != f.stop && !events[i].DoneMarker?
                    && !events[i].Ping? && !events[i].UnknownEvent?
      ensures f.start < i < f.stop && exists j :: 0 <= j < |indices| && events[i].ForBlock(indices[j])
    {
      assert events[i].BlockStart? || events[i].BlockDelta? || events[i].BlockStop?;
      var k := events[i].index;
      NextOfBlock(events, i, k);
      assert k in indices;
      var j: nat :| j < |indices| && indices[j] == k;
      assert events[i].ForBlock(indices[j]);
    }
  }

  /** When every content item parses or is an empty text, and one is, the contents are rejected as schema drift. */
  lemma {:induction false} EmptyTextIsSchemaDrift<V>(json: Json<V>, cs: seq<Content<V>>)
    requires forall j :: 0 <= j < |cs| ==> ParseContent(json, cs[j]).Ok? || cs[j] == TextContent([])
    ensures TextContent([]) in cs ==> ParseContents(json, cs) == Err(SchemaDrift)
    ensures TextContent([]) !in cs ==> ParseContents(json, cs).Ok?
  {
    if cs != [] {
      EmptyTextIsSchemaDrift(json, cs[..|cs| - 1]);
      assert cs == cs[..|cs| - 1] + [cs[|cs| - 1]];
    }
  }

  /** The indices of a finished stream's blocks, in order, each of which encodes its content. */
  lemma FinishedIndices<V>(json: Json<V>, events: seq<Event<V>>, s: StreamState<V>, n: nat) returns (indices: seq<nat>)
    requires HoldsBlocks(s, events) && BlocksWellFed(json, events, s) && Finished(s)
    requires OutputBelow(json, s.blocks, n).Ok? && n == MAX_ITEMS
    ensures Increasing(indices) && 0 < |indices| <= MAX_ITEMS && forall k :: k in indices <==> k in s.blocks
    ensures forall j :: 0 <= j < |indices| ==>
              indices[j] < MAX_ITEMS && WellFed(json, Projection(events, indices[j])) && BlockEncoded(json, events, indices[j])
  {
    FinishedBlocksAreEncoded(json, events, s, n);
    indices := IndicesOf(s.blocks, n);
    forall j | 0 <= j < |indices|
      ensures WellFed(json, Projection(events, indices[j])) && BlockEncoded(json, events, indices[j])
    {
      assert indices[j] in s.blocks;
    }
  }

  lemma IndicesOf<T>(blocks: map<nat, T>, n: nat) returns (indices: seq<nat>)
    requires blocks != map[] && forall k :: k in blocks ==> k < n
    ensures Increasing(indices) && 0 < |indices| <= n && (forall k :: k in indices <==> k in blocks)
    ensures forall j :: 0 <= j < |indices| ==> indices[j] < n
  {
    indices := KeysBelow(blocks, n);
    IncreasingSize(indices, n);
    var k :| k in blocks;
    assert k in indices;
  }

  lemma FinishedHasFrame<V>(json: Json<V>, events: seq<Event<V>>, s: StreamState<V>, w: Seen)
    requires Explains(json, events, s, w) && Finished(s)
    ensures w.start.Some? && w.terminal.Some? && w.stop.Some?
    ensures w.start.value < |events| && events[w.start.value].MessageStart?
    ensures w.terminal.value < |events| && events[w.terminal.value].MessageDelta?
    ensures var m := events[w.start.value].message;
            m.kind == "message" && m.role == "assistant" && ValidOpaqueId(m.id) && ValidModel(m.model)
            && InputUsageOf(m.usage).Some?
    ensures Terminal(events[w.terminal.value].stopReason).Some?
  {
  }

  lemma FinishedStreamEncodes<V>(json: Json<V>, events: seq<Event<V>>, s: StreamState<V>, w: Seen, n: nat)
    returns (m: Message<V>, indices: seq<nat>, f: Frame)
    requires Explains(json, events, s, w) && Finished(s)
    requires OutputBelow(json, s.blocks, n).Ok? && n == MAX_ITEMS
    ensures Encodes(json, m, indices, f, events)
    ensures Parseable(m) && 0 < |m.content| <= MAX_ITEMS
    ensures forall j :: 0 <= j < |m.content| ==>
              (ParseContent(json, m.content[j]).Ok? <==> m.content[j] != TextContent([]))
  {
    FinishedHasFrame(json, events, s, w);
    f := Frame(w.start.value, w.terminal.value, w.stop.value);
    indices := FinishedIndices(json, events, s, n);
    m := Reassembled(json, events, s, f, indices);
    ReassembledContent(json, events, s, f, indices);
    FinishedStreamIsFramed(json, events, s, w, m, indices, f);
    hide EncodesContent, ParseContent, ContentOf, OutputBelow, WellFed, Explains;
  }

  /**
   Every accepted stream encodes a message. The message parser gives that message the same response
   exactly when none of its texts is empty: an empty text block is the one thing the stream parser
   lets through that the message parser rejects.
   */
  lemma AcceptedStreamEncodesMessage<V>(json: Json<V>, requestId: string, events: seq<Event<V>>)
    returns (m: Message<V>, indices: seq<nat>, f: Frame)
    requires ParseStream(json, requestId, events).Ok?
    ensures Encodes(json, m, indices, f, events) && |events| <= MAX_EVENTS
    ensures !HasEmptyText(m) <==> ParseMessage(json, requestId, m) == ParseStream(json, requestId, events)
    ensures HasEmptyText(m) ==> ParseMessage(json, requestId, m) == Err(SchemaDrift)
  {
    var w := FeedExplained(json, events);
    m, indices, f := FinishedStreamEncodes(json, events, Feed(json, events).value, w, MAX_ITEMS);
    EmptyTextIsSchemaDrift(json, m.content);
    if !HasEmptyText(m) {
      StreamEqualsMessage(json, requestId, m, indices, f, events);
    }
  }

  /** A complete stream whose only block is an empty text. */
  function EmptyTextStream<V>(): seq<Event<V>> {
    [ MessageStart(StartMessage("message", "assistant", "m", "x", true, Usage(0, None, None))),
      BlockStart(0, StartText([])),
      BlockStop(0),
      MessageDelta("end_turn", 0),
      MessageStop ]
  }

  lemma ShortNames()
    ensures ValidOpaqueId("m") && ValidModel("x")
  {
    assert ByteLength("m") == ByteLength("m"[..0]) + 1 && ByteLength("x") == ByteLength("x"[..0]) + 1;
  }

  lemma FeedOfEmptyTextStream<V>(json: Json<V>)
    ensures
      var block := StreamBlock(TextBlock([]), true);
      Feed(json, EmptyTextStream())
      == Ok(StreamState(Some("m"), Some("x"), Some(Pricing.InputUsage(0, 0, 0)), Some(0), Some(Completed),
                        map[0 := block], true))
  {
    ShortNames();
    var es: seq<Event<V>> := EmptyTextStream();
    assert es[..5] == es && es[..5][..4] == es[..4] && es[..4][..3] == es[..3];
    assert es[..3][..2] == es[..2] && es[..2][..1] == es[..1] && es[..1][..0] == [];
    var s1 := InitialState<V>().(responseId := Some("m"), model := Some("x"), input := Some(Pricing.InputUsage(0, 0, 0)));
    assert Feed(json, es[..1]) == Ok(s1);
    assert Feed(json, es[..2]) == Ok(s1.(blocks := map[0 := StreamBlock(TextBlock([]), false)]));
    var open1: map<nat, StreamBlock<V>> := map[0 := StreamBlock(TextBlock([]), false)];
    assert open1[0 := StreamBlock(TextBlock([]), true)] == map[0 := StreamBlock(TextBlock([]), true)];
    assert Feed(json, es[..3]) == Ok(s1.(blocks := map[0 := StreamBlock(TextBlock([]), true)]));
    assert Feed(json, es[..4])
        == Ok(s1.(blocks := map[0 := StreamBlock(TextBlock([]), true)], terminal := Some(Completed), outputTokens := Some(0)));
  }

  /** The gap is real: the reassembler accepts this stream, and the message parser rejects its message. */
  lemma EmptyTextIsAccepted<V>(json: Json<V>, requestId: string)
    requires ValidOpaqueId(requestId)
    ensures ParseStream(json, requestId, EmptyTextStream())
         == Ok(Response("m", requestId, "x", Completed, [TextItem([])], Pricing.InputUsage(0, 0, 0), 0))
    ensures ParseMessage(json, requestId,
                         Message("message", "assistant", "m", "x", "end_turn", [TextContent([])], Usage(0, None, None), 0))
         == Err(SchemaDrift)
  {
    ShortNames();
    FeedOfEmptyTextStream(json);
    var m := Message("message", "assistant", "m", "x", "end_turn", [TextContent([])], Usage(0, None, None), 0);
    EmptyTextIsSchemaDrift(json, m.content);
    OutputOfSingleBlock(json, StreamBlock(TextBlock([]), true), MAX_ITEMS);
    var s := Feed(json, EmptyTextStream<V>()).value;
    assert 0 in s.blocks && Finished(s);
    assert Finish(json, requestId, s).Ok?;
  }

  lemma {:induction false} OutputOfSingleBlock<V>(json: Json<V>, b: StreamBlock<V>, n: nat)
    requires b.value.TextBlock? && n > 0
    ensures OutputBelow(json, map[0 := b], n) == Ok([TextItem(b.value.text)])
  {
    if n > 1 {
      OutputOfSingleBlock(json, b, n - 1);
    } else {
      var blocks: map<nat, StreamBlock<V>> := map[0 := b];
      assert OutputBelow(json, blocks, 0) == Ok([]);
      var item: Item<V> := TextItem(b.value.text);
      assert [] + [item] == [item];
    }
  }
}
