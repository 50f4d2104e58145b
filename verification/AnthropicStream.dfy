/**
 The Anthropic response parsers: the whole-message parser and the stream reassembler, from typed
 events on. JSON values are a type parameter; the JSON parser is a function supplied by the caller.
 */
module AnthropicStream {
  import opened Prelude
  import Pricing

  newtype Byte = b: int | 0 <= b < 256

  type Text = seq<Byte>

  /** The JSON reader: parsing of text, and the test for a JSON object. */
  datatype Json<!V> = Json(parse: Text -> Option<V>, isObject: V -> bool)

  const MAX_EVENTS := 100_000
  const MAX_ITEMS := 4_096
  const MAX_TEXT_BYTES := 4 * 1024 * 1024

  datatype ParseError =
    | InvalidIdentifier
    | InvalidModel
    | InvalidName
    | SchemaDrift
    | UnknownStopReason
    | OutputBounds
    | ContentTypeDenied
    | ToolInputInvalid
    | ToolArgumentsInvalid
    | UsageOverflow
    | TooManyEvents
    | TrailingEvent
    | Malformed
    | DuplicateStart
    | EventOrder
    | BlockInvalid
    | BlockOrder
    | DeltaMismatch
    | DuplicateDelta
    | ProviderFailure
    | Partial

  datatype TerminalStatus = Completed | ToolUse | Refused | Truncated | Paused

  datatype Usage = Usage(base: U64, cacheCreation: Option<U64>, cached: Option<U64>)

  datatype Item<V> = TextItem(text: Text) | ToolCall(id: string, name: string, arguments: V)

  datatype Response<V> = Response(
    responseId: string, requestId: string, model: string, terminal: TerminalStatus, output: seq<Item<V>>,
    input: Pricing.InputUsage, outputTokens: U64)

  // --- Field validation ---

  function Utf8Length(c: char): nat {
    if c < '\U{80}' then 1 else if c < '\U{800}' then 2 else if c < '\U{10000}' then 3 else 4
  }

  function ByteLength(s: string): nat {
    if s == "" then 0 else ByteLength(s[..|s| - 1]) + Utf8Length(s[|s| - 1])
  }

  predicate ValidOpaqueId(s: string) {
    0 < ByteLength(s) <= 512
    && forall c :: c in s ==> '!' <= c <= '~' && c != '\"' && c != '\'' && c != '\\'
  }

  predicate ValidModel(s: string) {
    0 < ByteLength(s) <= 200 && forall c :: c in s ==> !IsWhitespace(c)
  }

  predicate ValidName(s: string) {
    0 < ByteLength(s) <= 200
    && forall c :: c in s ==>
         'a' <= c <= 'z' || 'A' <= c <= 'Z' || '0' <= c <= '9' || c == '_' || c == '-' || c == '.'
  }

  function Terminal(reason: string): Option<TerminalStatus> {
    if reason == "end_turn" || reason == "stop_sequence" then Some(Completed)
    else if reason == "tool_use" then Some(ToolUse)
    else if reason == "refusal" then Some(Refused)
    else if reason == "max_tokens" then Some(Truncated)
    else if reason == "pause_turn" then Some(Paused)
    else None
  }

  function InputUsageOf(u: Usage): Option<Pricing.InputUsage> {
    match Pricing.AnthropicInputUsage(u.base, u.cacheCreation, u.cached)
    case Ok(usage) => Some(usage)
    case Err(_) => None
  }

  /** Tool arguments arrive as text that must parse to an object. */
  function ParseArguments<V>(json: Json<V>, text: Text): Option<V> {
    if |text| > MAX_TEXT_BYTES then None
    else
      match json.parse(text)
      case None => None
      case Some(v) => if json.isObject(v) then Some(v) else None
  }

  // --- The whole-message parser ---

  datatype Content<V> = TextContent(text: Text) | ToolUseContent(id: string, name: string, input: V) | OtherContent

  datatype Message<V> = Message(
    kind: string, role: string, id: string, model: string, stopReason: string, content: seq<Content<V>>,
    usage: Usage, outputTokens: U64)

  function ParseContent<V>(json: Json<V>, c: Content<V>): Result<Item<V>, ParseError> {
    match c
    case TextContent(text) =>
      if text == [] then Err(SchemaDrift)
      else if |text| > MAX_TEXT_BYTES then Err(OutputBounds)
      else Ok(TextItem(text))
    case ToolUseContent(id, name, input) =>
      if !ValidOpaqueId(id) then Err(InvalidIdentifier)
      else if !ValidName(name) then Err(InvalidName)
      else if !json.isObject(input) then Err(ToolInputInvalid)
      else Ok(ToolCall(id, name, input))
    case OtherContent => Err(ContentTypeDenied)
  }

  function ParseContents<V>(json: Json<V>, cs: seq<Content<V>>): Result<seq<Item<V>>, ParseError> {
    if cs == [] then Ok([])
    else
      match ParseContents(json, cs[..|cs| - 1])
      case Err(e) => Err(e)
      case Ok(items) =>
        match ParseContent(json, cs[|cs| - 1])
        case Err(e) => Err(e)
        case Ok(item) => Ok(items + [item])
  }

  function ParseMessage<V>(json: Json<V>, requestId: string, m: Message<V>): Result<Response<V>, ParseError> {
    if !ValidOpaqueId(requestId) then Err(InvalidIdentifier)
    else if m.kind != "message" || m.role != "assistant" then Err(SchemaDrift)
    else if !ValidOpaqueId(m.id) then Err(InvalidIdentifier)
    else if !ValidModel(m.model) then Err(InvalidModel)
    else if Terminal(m.stopReason).None? then Err(UnknownStopReason)
    else if m.content == [] || |m.content| > MAX_ITEMS then Err(OutputBounds)
    else
      match ParseContents(json, m.content)
      case Err(e) => Err(e)
      case Ok(items) =>
        if InputUsageOf(m.usage).None? then Err(UsageOverflow)
        else
          Ok(Response(m.id, requestId, m.model, Terminal(m.stopReason).value, items,
                      InputUsageOf(m.usage).value, m.outputTokens))
  }

  /** A piece of content that may be returned, and the item it is returned as. */
  ghost predicate ReadAs<V>(json: Json<V>, c: Content<V>, item: Item<V>) {
    match c
    case TextContent(text) => 0 < |text| <= MAX_TEXT_BYTES && item == TextItem(text)
    case ToolUseContent(id, name, input) =>
      ValidOpaqueId(id) && ValidName(name) && json.isObject(input) && item == ToolCall(id, name, input)
    case OtherContent => false
  }

  ghost predicate ReadAll<V>(json: Json<V>, cs: seq<Content<V>>, items: seq<Item<V>>) {
    |items| == |cs| && forall i :: 0 <= i < |cs| ==> ReadAs(json, cs[i], items[i])
  }

  lemma {:induction false} ContentsReadExactly<V>(json: Json<V>, cs: seq<Content<V>>, items: seq<Item<V>>)
    ensures ParseContents(json, cs) == Ok(items) <==> ReadAll(json, cs, items)
  {
    if cs == [] {
      assert ReadAll(json, cs, items) <==> items == [];
    } else {
      var n := |cs| - 1;
      if |items| == |cs| {
        ContentsReadExactly(json, cs[..n], items[..n]);
        assert items == items[..n] + [items[n]];
        if ReadAll(json, cs, items) { assert ReadAll(json, cs[..n], items[..n]); }
      }
      if ParseContents(json, cs).Ok? {
        var before := ParseContents(json, cs[..n]).value;
        ContentsReadExactly(json, cs[..n], before);
        assert ParseContents(json, cs).value[..n] == before;
      }
    }
  }

  /** The provider's word for how a message ended, and what it is recorded as. */
  predicate EndsAs(reason: string, terminal: TerminalStatus) {
    match terminal
    case Completed => reason == "end_turn" || reason == "stop_sequence"
    case ToolUse => reason == "tool_use"
    case Refused => reason == "refusal"
    case Truncated => reason == "max_tokens"
    case Paused => reason == "pause_turn"
  }

  /**
   A message is accepted exactly when every part of it is, and returned as it was sent: its identifiers, its
   content item by item in order, its ending, and its usage with the categories kept apart.
   */
  lemma MessageAcceptedExactly<V>(json: Json<V>, requestId: string, m: Message<V>, r: Response<V>)
    ensures ParseMessage(json, requestId, m) == Ok(r) <==>
              && ValidOpaqueId(requestId) && m.kind == "message" && m.role == "assistant"
              && ValidOpaqueId(m.id) && ValidModel(m.model) && 1 <= |m.content| <= MAX_ITEMS
              && r.responseId == m.id && r.requestId == requestId && r.model == m.model
              && EndsAs(m.stopReason, r.terminal) && ReadAll(json, m.content, r.output)
              && Pricing.AnthropicInputUsage(m.usage.base, m.usage.cacheCreation, m.usage.cached) == Ok(r.input)
              && r.outputTokens == m.outputTokens
  {
    hide ParseContents, ReadAll, ValidOpaqueId, ValidModel, Terminal, EndsAs, Pricing.AnthropicInputUsage;
    EndingIsRead(m.stopReason, r.terminal);
    ContentsReadExactly(json, m.content, r.output);
  }

  lemma EndingIsRead(reason: string, terminal: TerminalStatus)
    ensures Terminal(reason) == Some(terminal) <==> EndsAs(reason, terminal)
  {
    assert |"end_turn"| == 8 && |"stop_sequence"| == 13 && |"tool_use"| == 8 && |"refusal"| == 7;
    assert |"max_tokens"| == 10 && |"pause_turn"| == 10;
    assert "end_turn"[0] != "tool_use"[0] && "max_tokens"[0] != "pause_turn"[0];
  }

  // --- Stream events and the reassembler's state ---

  datatype StartMessage = StartMessage(
    kind: string, role: string, id: string, model: string, stopReasonIsNull: bool, usage: Usage)

  datatype StartContent<V> = StartText(text: Text) | StartTool(id: string, name: string, input: V) | StartOther

  datatype Delta = TextDelta(text: Text) | JsonDelta(text: Text) | OtherDelta

  /** One event; an event that misses a required field, or whose data is not JSON, is BadEvent. */
  datatype Event<V> =
    | MessageStart(message: StartMessage)
    | BlockStart(index: U64, content: StartContent<V>)
    | BlockDelta(index: U64, delta: Delta)
    | BlockStop(index: U64)
    | MessageDelta(stopReason: string, outputTokens: U64)
    | MessageStop
    | Ping
    | ErrorEvent
    | UnknownEvent
    | DoneMarker
    | BadEvent
  {
    predicate ForBlock(k: nat) {
      (BlockStart? || BlockDelta? || BlockStop?) && index == k
    }
  }

  datatype BlockValue<V> = TextBlock(text: Text) | ToolBlock(id: string, name: string, initial: V, partialJson: Text)

  datatype StreamBlock<V> = StreamBlock(value: BlockValue<V>, stopped: bool)

  datatype StreamState<V> = StreamState(
    responseId: Option<string>,
    model: Option<string>,
    input: Option<Pricing.InputUsage>,
    outputTokens: Option<U64>,
    terminal: Option<TerminalStatus>,
    blocks: map<nat, StreamBlock<V>>,
    stopped: bool)

  function InitialState<V>(): StreamState<V> {
    StreamState(None, None, None, None, None, map[], false)
  }

  function OpenBlock<V>(json: Json<V>, c: StartContent<V>): Result<StreamBlock<V>, ParseError> {
    match c
    case StartText(text) =>
      if |text| > MAX_TEXT_BYTES then Err(OutputBounds) else Ok(StreamBlock(TextBlock(text), false))
    case StartTool(id, name, input) =>
      if !ValidOpaqueId(id) then Err(InvalidIdentifier)
      else if !ValidName(name) then Err(InvalidName)
      else if !json.isObject(input) then Err(ToolInputInvalid)
      else Ok(StreamBlock(ToolBlock(id, name, input, []), false))
    case StartOther => Err(ContentTypeDenied)
  }

  function ExtendBlock<V>(b: StreamBlock<V>, delta: Delta): Result<StreamBlock<V>, ParseError> {
    if b.stopped then Err(BlockOrder)
    else if b.value.TextBlock? && delta.TextDelta? then
      var text := b.value.text + delta.text;
      if delta.text == [] then Err(SchemaDrift)
      else if |text| > MAX_TEXT_BYTES then Err(OutputBounds)
      else Ok(b.(value := TextBlock(text)))
    else if b.value.ToolBlock? && delta.JsonDelta? then
      var partial := b.value.partialJson + delta.text;
      if delta.text == [] then Err(SchemaDrift)
      else if |partial| > MAX_TEXT_BYTES then Err(OutputBounds)
      else Ok(b.(value := b.value.(partialJson := partial)))
    else Err(DeltaMismatch)
  }

  function StepStart<V>(s: StreamState<V>, m: StartMessage): Result<StreamState<V>, ParseError> {
    if s.responseId.Some? then Err(DuplicateStart)
    else if m.kind != "message" || m.role != "assistant" then Err(SchemaDrift)
    else if !ValidOpaqueId(m.id) then Err(InvalidIdentifier)
    else if !ValidModel(m.model) then Err(InvalidModel)
    else if !m.stopReasonIsNull then Err(SchemaDrift)
    else if InputUsageOf(m.usage).None? then Err(UsageOverflow)
    else Ok(s.(responseId := Some(m.id), model := Some(m.model), input := InputUsageOf(m.usage)))
  }

  function StepBlock<V>(json: Json<V>, s: StreamState<V>, e: Event<V>): Result<StreamState<V>, ParseError>
    requires e.BlockStart? || e.BlockDelta? || e.BlockStop?
  {
    if e.BlockStart? then
      if s.responseId.None? then Err(EventOrder)
      else if e.index >= MAX_ITEMS then Err(BlockInvalid)
      else if |s.blocks| >= MAX_ITEMS || e.index in s.blocks then Err(BlockInvalid)
      else
        match OpenBlock(json, e.content)
        case Err(error) => Err(error)
        case Ok(b) => Ok(s.(blocks := s.blocks[e.index := b]))
    else if e.index >= MAX_ITEMS then Err(BlockInvalid)
    else if e.index !in s.blocks then Err(BlockOrder)
    else if e.BlockDelta? then
      match ExtendBlock(s.blocks[e.index], e.delta)
      case Err(error) => Err(error)
      case Ok(b) => Ok(s.(blocks := s.blocks[e.index := b]))
    else if s.blocks[e.index].stopped then Err(BlockOrder)
    else Ok(s.(blocks := s.blocks[e.index := s.blocks[e.index].(stopped := true)]))
  }

  function StepTerminal<V>(s: StreamState<V>, stopReason: string, outputTokens: U64): Result<StreamState<V>, ParseError> {
    if s.responseId.None? then Err(EventOrder)
    else if s.terminal.Some? then Err(DuplicateDelta)
    else if Terminal(stopReason).None? then Err(UnknownStopReason)
    else Ok(s.(terminal := Terminal(stopReason), outputTokens := Some(outputTokens)))
  }

  function Step<V>(json: Json<V>, s: StreamState<V>, e: Event<V>): Result<StreamState<V>, ParseError> {
    if e.DoneMarker? then Ok(s)
    else if s.stopped then Err(TrailingEvent)
    else if e.BlockStart? || e.BlockDelta? || e.BlockStop? then StepBlock(json, s, e)
    else
      match e
      case MessageStart(m) => StepStart(s, m)
      case MessageDelta(stopReason, outputTokens) => StepTerminal(s, stopReason, outputTokens)
      case MessageStop => if s.responseId.None? then Err(EventOrder) else Ok(s.(stopped := true))
      case Ping => Ok(s)
      case UnknownEvent => Ok(s)
      case ErrorEvent => Err(ProviderFailure)
      case _ => Err(Malformed)
  }

  function Feed<V>(json: Json<V>, events: seq<Event<V>>): Result<StreamState<V>, ParseError> {
    if events == [] then Ok(InitialState())
    else
      match Feed(json, events[..|events| - 1])
      case Err(e) => Err(e)
      case Ok(s) => Step(json, s, events[|events| - 1])
  }

  function FinishBlock<V>(json: Json<V>, b: StreamBlock<V>): Result<Item<V>, ParseError> {
    match b.value
    case TextBlock(text) => Ok(TextItem(text))
    case ToolBlock(id, name, initial, partial) =>
      if partial == [] then Ok(ToolCall(id, name, initial))
      else
        match ParseArguments(json, partial)
        case None => Err(ToolArgumentsInvalid)
        case Some(v) => Ok(ToolCall(id, name, v))
  }

  /** The items of the blocks with an index below n, in index order. */
  function OutputBelow<V>(json: Json<V>, blocks: map<nat, StreamBlock<V>>, n: nat): Result<seq<Item<V>>, ParseError> {
    if n == 0 then Ok([])
    else
      match OutputBelow(json, blocks, n - 1)
      case Err(e) => Err(e)
      case Ok(items) =>
        if n - 1 !in blocks then Ok(items)
        else
          match FinishBlock(json, blocks[n - 1])
          case Err(e) => Err(e)
          case Ok(item) => Ok(items + [item])
  }

  predicate Finished<V>(s: StreamState<V>) {
    s.stopped && s.terminal.Some? && s.blocks != map[] && forall k :: k in s.blocks ==> s.blocks[k].stopped
  }

  function UnwrapOr<T>(o: Option<T>, default: T): T {
    if o.Some? then o.value else default
  }

  function Finish<V>(json: Json<V>, requestId: string, s: StreamState<V>): Result<Response<V>, ParseError> {
    if !Finished(s) then Err(Partial)
    else
      match OutputBelow(json, s.blocks, MAX_ITEMS)
      case Err(e) => Err(e)
      case Ok(items) =>
        Ok(Response(UnwrapOr(s.responseId, ""), requestId, UnwrapOr(s.model, ""), UnwrapOr(s.terminal, Paused),
                    items, UnwrapOr(s.input, Pricing.InputUsage(0, 0, 0)), UnwrapOr(s.outputTokens, 0)))
  }

  function ParseStream<V>(json: Json<V>, requestId: string, events: seq<Event<V>>): Result<Response<V>, ParseError> {
    if !ValidOpaqueId(requestId) then Err(InvalidIdentifier)
    else if |events| > MAX_EVENTS then Err(TooManyEvents)
    else
      match Feed(json, events)
      case Err(e) => Err(e)
      case Ok(s) => Finish(json, requestId, s)
  }

  // --- The reassembler as the program runs it ---

  method ParseAnthropicResponseStream<V>(json: Json<V>, requestId: string, events: seq<Event<V>>)
    returns (r: Result<Response<V>, ParseError>)
    ensures r == ParseStream(json, requestId, events)
  {
    if !ValidOpaqueId(requestId) { return Err(InvalidIdentifier); }
    if |events| > MAX_EVENTS { return Err(TooManyEvents); }
    var responseId: Option<string>, model: Option<string>, input: Option<Pricing.InputUsage> := None, None, None;
    var outputTokens: Option<U64>, terminal: Option<TerminalStatus> := None, None;
    var blocks: map<nat, StreamBlock<V>> := map[];
    var stopped := false;
    var n := 0;
    while n < |events|
      invariant n <= |events|
      invariant Feed(json, events[..n])
             == Ok(StreamState(responseId, model, input, outputTokens, terminal, blocks, stopped))
    {
      var event := events[n];
      assert events[..n + 1][..n] == events[..n];
      FeedFailureSticks(json, events, n + 1);
      n := n + 1;
      if event.DoneMarker? { continue; }
      if stopped { return Err(TrailingEvent); }
      match event {
        case MessageStart(m) =>
          if responseId.Some? { return Err(DuplicateStart); }
          if m.kind != "message" || m.role != "assistant" { return Err(SchemaDrift); }
          if !ValidOpaqueId(m.id) { return Err(InvalidIdentifier); }
          if !ValidModel(m.model) { return Err(InvalidModel); }
          if !m.stopReasonIsNull { return Err(SchemaDrift); }
          var usage := InputUsageOf(m.usage);
          if usage.None? { return Err(UsageOverflow); }
          responseId, model, input := Some(m.id), Some(m.model), usage;
        case BlockStart(index, content) =>
          if responseId.None? { return Err(EventOrder); }
          if index >= MAX_ITEMS { return Err(BlockInvalid); }
          if |blocks| >= MAX_ITEMS || index in blocks { return Err(BlockInvalid); }
          var block := OpenBlock(json, content);
          if block.Err? { return Err(block.error); }
          blocks := blocks[index := block.value];
        case BlockDelta(index, delta) =>
          if index >= MAX_ITEMS { return Err(BlockInvalid); }
          if index !in blocks { return Err(BlockOrder); }
          var extended := ExtendBlock(blocks[index], delta);
          if extended.Err? { return Err(extended.error); }
          blocks := blocks[index := extended.value];
        case BlockStop(index) =>
          if index >= MAX_ITEMS { return Err(BlockInvalid); }
          if index !in blocks { return Err(BlockOrder); }
          if blocks[index].stopped { return Err(BlockOrder); }
          blocks := blocks[index := blocks[index].(stopped := true)];
        case MessageDelta(stopReason, tokens) =>
          if responseId.None? { return Err(EventOrder); }
          if terminal.Some? { return Err(DuplicateDelta); }
          var status := Terminal(stopReason);
          if status.None? { return Err(UnknownStopReason); }
          terminal, outputTokens := status, Some(tokens);
        case MessageStop =>
          if responseId.None? { return Err(EventOrder); }
          stopped := true;
        case Ping =>
        case UnknownEvent =>
        case ErrorEvent => return Err(ProviderFailure);
        case _ => return Err(Malformed);
      }
    }
    assert events[..n] == events;
    if !stopped || terminal.None? || blocks == map[] || exists k :: k in blocks && !blocks[k].stopped {
      return Err(Partial);
    }
    var output: seq<Item<V>> := [];
    var i := 0;
    while i < MAX_ITEMS
      invariant i <= MAX_ITEMS
      invariant OutputBelow(json, blocks, i) == Ok(output)
    {
      OutputFailureSticks(json, blocks, i + 1, MAX_ITEMS);
      if i in blocks {
        var item := FinishBlock(json, blocks[i]);
        if item.Err? { return Err(item.error); }
        output := output + [item.value];
      }
      i := i + 1;
    }
    return Ok(Response(UnwrapOr(responseId, ""), requestId, UnwrapOr(model, ""), UnwrapOr(terminal, Paused),
                       output, UnwrapOr(input, Pricing.InputUsage(0, 0, 0)), UnwrapOr(outputTokens, 0)));
  }

  lemma {:induction false} FeedFailureSticks<V>(json: Json<V>, events: seq<Event<V>>, n: nat)
    requires n <= |events|
    ensures Feed(json, events[..n]).Err? ==> Feed(json, events) == Feed(json, events[..n])
    decreases |events| - n
  {
    if n == |events| {
      assert events[..n] == events;
    } else {
      assert events[..n + 1][..n] == events[..n];
      FeedFailureSticks(json, events, n + 1);
    }
  }

  lemma {:induction false} OutputFailureSticks<V>(json: Json<V>, blocks: map<nat, StreamBlock<V>>, n: nat, m: nat)
    requires n <= m
    ensures OutputBelow(json, blocks, n).Err? ==> OutputBelow(json, blocks, m) == OutputBelow(json, blocks, n)
    decreases m - n
  {
    if n < m {
      OutputFailureSticks(json, blocks, n, m - 1);
    }
  }
}
