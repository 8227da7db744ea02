/** The Anthropic stream decoder: content blocks begun, filled and closed by events
    that carry the block's index. */
module AnthropicStream {
  import opened Text
  import opened SseFraming

  datatype Delta = TextDelta(text: string) | JsonDelta(partial: string) | OtherDelta

  datatype ServerEvent =
    | BlockStart(index: Int64, isToolUse: bool, id: string, name: string)
    | BlockDelta(index: Int64, delta: Delta)
    | BlockStop(index: Int64)
    | MessageStop
    | ServerError(message: string)
    | OtherEvent
    | Undecodable(error: string)

  datatype Json = Json(event: string -> Result<ServerEvent>, isObject: string -> bool)

  /** What is sent on. A text event keeps the index of its block here, to speak of the
      blocks one by one; input "" stands for the empty object. */
  datatype Event =
    | TextEvent(index: Int64, text: string)
    | CallEvent(index: Int64, id: string, name: string, input: string)
    | DoneEvent
    | ErrorEvent(error: string)

  datatype ToolBlock = ToolBlock(id: string, name: string, input: string)

  datatype State = State(blocks: map<Int64, ToolBlock>, out: seq<Event>, halted: bool)

  const INITIAL := State(map[], [], false)

  function ErrorText(message: string): string {
    var text := TrimSpace(message);
    if text == "" then "anthropic stream error" else text
  }

  function Step(json: Json, s: State, e: ServerEvent): State {
    if s.halted then s
    else
      match e
      case BlockStart(i, isToolUse, id, name) =>
        if isToolUse then s.(blocks := s.blocks[i := ToolBlock(id, name, "")]) else s
      case BlockDelta(i, TextDelta(text)) => if text == "" then s else s.(out := s.out + [TextEvent(i, text)])
      case BlockDelta(i, JsonDelta(partial)) =>
        if i in s.blocks then s.(blocks := s.blocks[i := s.blocks[i].(input := s.blocks[i].input + partial)]) else s
      case BlockDelta(_, OtherDelta) => s
      case BlockStop(i) =>
        if i !in s.blocks then s
        else
          var raw := TrimSpace(s.blocks[i].input);
          if raw != "" && !json.isObject(raw)
            then s.(out := s.out + [ErrorEvent("parse anthropic tool input")], halted := true)
          else s.(out := s.out + [CallEvent(i, s.blocks[i].id, s.blocks[i].name, raw)], blocks := s.blocks - {i})
      case MessageStop => s.(out := s.out + [DoneEvent])
      case ServerError(message) => s.(out := s.out + [ErrorEvent(ErrorText(message))], halted := true)
      case OtherEvent => s
      case Undecodable(error) => s.(out := s.out + [ErrorEvent(error)], halted := true)
  }

  function RunEvents(json: Json, s: State, events: seq<ServerEvent>): State {
    if events == [] then s else Step(json, RunEvents(json, s, events[..|events| - 1]), events[|events| - 1])
  }

  /** The event of a payload; one that does not parse will end the stream. */
  function Decode(json: Json, payload: string): ServerEvent {
    match json.event(payload)
    case Err(error) => Undecodable(error)
    case Ok(e) => e
  }

  function DecodeAll(json: Json, payloads: seq<string>): seq<ServerEvent> {
    seq(|payloads|, i requires 0 <= i < |payloads| => Decode(json, payloads[i]))
  }

  /** The events of the lines of a stream. */
  function StreamEvents(json: Json, lines: seq<string>): seq<ServerEvent> {
    DecodeAll(json, Events(lines))
  }

  /** What the reader sends for a stream. */
  function Output(json: Json, lines: seq<string>, readError: Option<string>): seq<Event> {
    var s := RunEvents(json, INITIAL, StreamEvents(json, lines));
    s.out + if !s.halted && readError.Some? then [ErrorEvent(readError.value)] else []
  }

  /** handleSSEEvent. */
  method HandleEvent(json: Json, s: State, payload: string) returns (r: State)
    requires !s.halted
    ensures r == Step(json, s, Decode(json, payload))
  {
    var decoded := json.event(payload);
    if decoded.Err? {
      return s.(out := s.out + [ErrorEvent(decoded.error)], halted := true);
    }
    r := s;
    match decoded.value
    case BlockStart(i, isToolUse, id, name) =>
      if isToolUse {
        r := s.(blocks := s.blocks[i := ToolBlock(id, name, "")]);
      }
    case BlockDelta(i, delta) =>
      match delta {
        case TextDelta(text) =>
          if text != "" {
            r := s.(out := s.out + [TextEvent(i, text)]);
          }
        case JsonDelta(partial) =>
          if i in s.blocks {
            var block := s.blocks[i];
            r := s.(blocks := s.blocks[i := block.(input := block.input + partial)]);
          }
        case OtherDelta =>
      }
    case BlockStop(i) =>
      if i in s.blocks {
        var block := s.blocks[i];
        var raw := TrimSpace(block.input);
        if raw != "" && !json.isObject(raw) {
          return s.(out := s.out + [ErrorEvent("parse anthropic tool input")], halted := true);
        }
        r := s.(out := s.out + [CallEvent(i, block.id, block.name, raw)], blocks := s.blocks - {i});
      }
    case MessageStop =>
      r := s.(out := s.out + [DoneEvent]);
    case ServerError(message) =>
      r := s.(out := s.out + [ErrorEvent(ErrorText(message))], halted := true);
    case OtherEvent =>
    case Undecodable(error) =>
      r := s.(out := s.out + [ErrorEvent(error)], halted := true);
  }

  /** The reading loop frames the lines and decodes the payloads until one fails. */
  method ReadStream(json: Json, lines: seq<string>, readError: Option<string>) returns (out: seq<Event>)
    ensures out == Output(json, lines, readError)
  {
    hide Step, StreamEvents, RunEvents, Payload, Payloads, JoinLines, Unended;
    var buffer, s := "", INITIAL;
    NoLines(json);
    for i := 0 to |lines|
      invariant !s.halted
      invariant buffer == JoinLines(Payloads(Unended(lines[..i])))
      invariant s == RunEvents(json, INITIAL, StreamEvents(json, lines[..i]))
    {
      ScanNext(json, lines, i);
      var line := lines[i];
      if line == "" {
        if buffer != "" {
          s := HandleEvent(json, s, buffer);
          buffer := "";
          if s.halted {
            HaltedToTheEnd(json, lines, i + 1);
            return s.out;
          }
        }
      } else if Payload(line) != "" {
        buffer := if buffer == "" then Payload(line) else buffer + "\n" + Payload(line);
      }
    }
    assert lines[..|lines|] == lines;
    out := s.out + if readError.Some? then [ErrorEvent(readError.value)] else [];
  }

  lemma NoLines(json: Json)
    ensures JoinLines(Payloads(Unended([]))) == "" && RunEvents(json, INITIAL, StreamEvents(json, [])) == INITIAL
  {
  }

  lemma ScanNext(json: Json, lines: seq<string>, i: nat)
    requires i < |lines|
    ensures var (buffer, event) := ScanLine(JoinLines(Payloads(Unended(lines[..i]))), lines[i]);
            && buffer == JoinLines(Payloads(Unended(lines[..i + 1])))
            && var before := RunEvents(json, INITIAL, StreamEvents(json, lines[..i]));
               RunEvents(json, INITIAL, StreamEvents(json, lines[..i + 1])) ==
               if event.Some? then Step(json, before, Decode(json, event.value)) else before
  {
    hide Step, Decode, ScanLine, Payload, JoinLines, Payloads, Unended, Events;
    assert lines[..i + 1] == lines[..i] + [lines[i]];
    ScanFrames(lines[..i], lines[i]);
    var before, after := Events(lines[..i]), Events(lines[..i + 1]);
    if after != before {
      var events := DecodeAll(json, after);
      assert events[..|events| - 1] == DecodeAll(json, before);
    }
  }

  lemma {:induction false} HaltedToTheEnd(json: Json, lines: seq<string>, i: nat)
    requires i <= |lines| && RunEvents(json, INITIAL, StreamEvents(json, lines[..i])).halted
    ensures RunEvents(json, INITIAL, StreamEvents(json, lines)) ==
            RunEvents(json, INITIAL, StreamEvents(json, lines[..i]))
    decreases |lines| - i
  {
    hide RunEvents, StreamEvents, Decode;
    if i == |lines| {
      assert lines[..i] == lines;
    } else {
      ScanNext(json, lines, i);
      HaltedToTheEnd(json, lines, i + 1);
    }
  }

  // Blocks are decoded independently.

  predicate IsOf(e: ServerEvent, index: Int64) {
    (e.BlockStart? || e.BlockDelta? || e.BlockStop?) && e.index == index
  }

  /** The events of one block. */
  function BlockEvents(events: seq<ServerEvent>, index: Int64): seq<ServerEvent> {
    if events == [] then []
    else
      var last := events[|events| - 1];
      BlockEvents(events[..|events| - 1], index) + if IsOf(last, index) then [last] else []
  }

  predicate IsFrom(e: Event, index: Int64) {
    (e.TextEvent? || e.CallEvent?) && e.index == index
  }

  /** What was sent on for one block. */
  function BlockOutput(out: seq<Event>, index: Int64): seq<Event> {
    if out == [] then []
    else
      var last := out[|out| - 1];
      BlockOutput(out[..|out| - 1], index) + if IsFrom(last, index) then [last] else []
  }

  lemma OutputOneMore(out: seq<Event>, e: Event, index: Int64)
    ensures BlockOutput(out + [e], index) == BlockOutput(out, index) + if IsFrom(e, index) then [e] else []
  {
    assert (out + [e])[..|out|] == out;
  }

  /** Two states agree on a block: the same open tool block, the same output. */
  ghost predicate AgreeOn(a: State, b: State, index: Int64) {
    && (index in a.blocks <==> index in b.blocks)
    && (index in a.blocks ==> a.blocks[index] == b.blocks[index])
    && BlockOutput(a.out, index) == BlockOutput(b.out, index)
  }

  /** An event of the block moves two states that agree on it alike. */
  lemma StepOfBlock(json: Json, a: State, b: State, e: ServerEvent, index: Int64)
    requires IsOf(e, index) && AgreeOn(a, b, index) && !a.halted && !b.halted
    ensures Step(json, a, e).halted == Step(json, b, e).halted
    ensures AgreeOn(Step(json, a, e), Step(json, b, e), index)
  {
    hide BlockOutput;
    forall x: Event
      ensures BlockOutput(a.out + [x], index) == BlockOutput(a.out, index) + if IsFrom(x, index) then [x] else []
    {
      OutputOneMore(a.out, x, index);
    }
    forall x: Event
      ensures BlockOutput(b.out + [x], index) == BlockOutput(b.out, index) + if IsFrom(x, index) then [x] else []
    {
      OutputOneMore(b.out, x, index);
    }
  }

  /** An event of no concern to the block leaves it as it is. */
  lemma StepOfOthers(json: Json, s: State, e: ServerEvent, index: Int64)
    requires !IsOf(e, index)
    ensures AgreeOn(Step(json, s, e), s, index)
  {
    hide BlockOutput;
    forall x: Event
      ensures BlockOutput(s.out + [x], index) == BlockOutput(s.out, index) + if IsFrom(x, index) then [x] else []
    {
      OutputOneMore(s.out, x, index);
    }
  }

  /** As long as no error stops the events, what is sent on for a block, and what is
      open of it, depend only on the events of that block. */
  lemma {:induction false} EventsProjection(json: Json, events: seq<ServerEvent>, index: Int64)
    requires !RunEvents(json, INITIAL, events).halted
    ensures !RunEvents(json, INITIAL, BlockEvents(events, index)).halted
    ensures AgreeOn(RunEvents(json, INITIAL, events), RunEvents(json, INITIAL, BlockEvents(events, index)), index)
  {
    hide Step;
    if events != [] {
      var front, last := events[..|events| - 1], events[|events| - 1];
      var s := RunEvents(json, INITIAL, front);
      HaltedStays(json, s, last);
      EventsProjection(json, front, index);
      var own := BlockEvents(front, index);
      if IsOf(last, index) {
        assert (own + [last])[..|own|] == own;
        StepOfBlock(json, s, RunEvents(json, INITIAL, own), last, index);
      } else {
        assert own + [] == own;
        StepOfOthers(json, s, last, index);
      }
    }
  }

  lemma HaltedStays(json: Json, s: State, e: ServerEvent)
    ensures s.halted ==> Step(json, s, e) == s
  {
  }

  lemma BlockOutputGrows(json: Json, s: State, e: ServerEvent, index: Int64)
    ensures BlockOutput(s.out, index) <= BlockOutput(Step(json, s, e).out, index)
  {
    hide BlockOutput;
    forall x: Event
      ensures BlockOutput(s.out + [x], index) == BlockOutput(s.out, index) + if IsFrom(x, index) then [x] else []
    {
      OutputOneMore(s.out, x, index);
    }
  }

  /** Whatever else happens, a block's output is a beginning of what its own events give. */
  lemma {:induction false} EventsPrefix(json: Json, events: seq<ServerEvent>, index: Int64)
    ensures BlockOutput(RunEvents(json, INITIAL, events).out, index) <=
            BlockOutput(RunEvents(json, INITIAL, BlockEvents(events, index)).out, index)
  {
    hide Step;
    if events != [] {
      var front, last := events[..|events| - 1], events[|events| - 1];
      var s, own := RunEvents(json, INITIAL, front), BlockEvents(front, index);
      EventsPrefix(json, front, index);
      assert own + [] == own;
      if IsOf(last, index) {
        assert (own + [last])[..|own|] == own;
        BlockOutputGrows(json, RunEvents(json, INITIAL, own), last, index);
      }
      HaltedStays(json, s, last);
      if !s.halted {
        EventsProjection(json, front, index);
        if IsOf(last, index) {
          StepOfBlock(json, s, RunEvents(json, INITIAL, own), last, index);
        } else {
          assert own + [] == own;
          StepOfOthers(json, s, last, index);
        }
      }
    }
  }

  /** Where the tool block of the index now open was begun; -1 when none is open. */
  function Opening(events: seq<ServerEvent>, index: Int64): (p: int)
    ensures -1 <= p < |events|
    ensures p >= 0 ==> events[p].BlockStart? && events[p].isToolUse && events[p].index == index
  {
    if events == [] then -1
    else
      var last := events[|events| - 1];
      if last.BlockStart? && last.isToolUse && last.index == index then |events| - 1
      else if last == BlockStop(index) then -1
      else Opening(events[..|events| - 1], index)
  }

  /** The input pieces of the index, joined in order. */
  function Pieces(events: seq<ServerEvent>, index: Int64): string {
    if events == [] then ""
    else
      var last := events[|events| - 1];
      Pieces(events[..|events| - 1], index)
      + if last.BlockDelta? && last.index == index && last.delta.JsonDelta? then last.delta.partial else ""
  }

  /** One call for each stop that finds the block open: id and name from where it was
      begun, input from the pieces since. */
  function StopCalls(events: seq<ServerEvent>, index: Int64): seq<Event> {
    if events == [] then []
    else
      var front := events[..|events| - 1];
      var p := Opening(front, index);
      StopCalls(front, index)
      + if events[|events| - 1] == BlockStop(index) && p >= 0
        then [CallEvent(index, front[p].id, front[p].name, TrimSpace(Pieces(front[p..], index)))] else []
  }

  function CallsFrom(out: seq<Event>, index: Int64): seq<Event> {
    if out == [] then []
    else
      var last := out[|out| - 1];
      CallsFrom(out[..|out| - 1], index) + if last.CallEvent? && last.index == index then [last] else []
  }

  lemma CallsOneMore(out: seq<Event>, e: Event, index: Int64)
    ensures CallsFrom(out + [e], index) == CallsFrom(out, index) + if e.CallEvent? && e.index == index then [e] else []
  {
    assert (out + [e])[..|out|] == out;
  }

  lemma PiecesOneMore(events: seq<ServerEvent>, p: nat, index: Int64)
    requires p < |events|
    ensures var front, last := events[..|events| - 1], events[|events| - 1];
            Pieces(events[p..], index) ==
            Pieces(front[p..], index) + if last.BlockDelta? && last.index == index && last.delta.JsonDelta?
              then last.delta.partial else ""
  {
    assert events[p..][..|events| - 1 - p] == events[..|events| - 1][p..];
  }

  /** The open block is the one begun last, with the pieces since. */
  ghost predicate HoldsOpen(s: State, events: seq<ServerEvent>, index: Int64) {
    var p := Opening(events, index);
    && (index in s.blocks <==> p >= 0)
    && (p >= 0 ==> s.blocks[index] == ToolBlock(events[p].id, events[p].name, Pieces(events[p..], index)))
  }

  lemma StepHoldsOpen(json: Json, s: State, events: seq<ServerEvent>, index: Int64)
    requires events != [] && HoldsOpen(s, events[..|events| - 1], index)
    requires !s.halted && !Step(json, s, events[|events| - 1]).halted
    ensures HoldsOpen(Step(json, s, events[|events| - 1]), events, index)
  {
    hide Pieces, TrimSpace;
    var front, last := events[..|events| - 1], events[|events| - 1];
    if Opening(front, index) >= 0 {
      PiecesOneMore(events, Opening(front, index), index);
      assert Pieces(front[Opening(front, index)..], index) + "" == Pieces(front[Opening(front, index)..], index);
    }
    assert events[|events| - 1..] == [last];
    if last.BlockStart? {
      NoPieces(last, index);
    }
  }

  lemma NoPieces(e: ServerEvent, index: Int64)
    requires e.BlockStart?
    ensures Pieces([e], index) == ""
  {
    assert [e][..0] == [];
  }

  lemma StepSends(json: Json, s: State, e: ServerEvent, index: Int64)
    requires !s.halted
    ensures CallsFrom(Step(json, s, e).out, index) ==
            CallsFrom(s.out, index)
            + if e == BlockStop(index) && index in s.blocks && !Step(json, s, e).halted
              then [CallEvent(index, s.blocks[index].id, s.blocks[index].name, TrimSpace(s.blocks[index].input))]
              else []
  {
    hide CallsFrom, TrimSpace;
    forall x: Event
      ensures CallsFrom(s.out + [x], index) == CallsFrom(s.out, index) + if x.CallEvent? && x.index == index then [x]
              else []
    {
      CallsOneMore(s.out, x, index);
    }
    assert CallsFrom(s.out, index) + [] == CallsFrom(s.out, index);
  }

  lemma StepCalls(json: Json, s: State, events: seq<ServerEvent>, index: Int64)
    requires events != [] && HoldsOpen(s, events[..|events| - 1], index) && !s.halted
    requires CallsFrom(s.out, index) == StopCalls(events[..|events| - 1], index)
    ensures CallsFrom(Step(json, s, events[|events| - 1]).out, index) ==
            if Step(json, s, events[|events| - 1]).halted then CallsFrom(s.out, index) else StopCalls(events, index)
  {
    hide Step, CallsFrom, Pieces, TrimSpace, Opening;
    StepSends(json, s, events[|events| - 1], index);
    assert CallsFrom(s.out, index) + [] == CallsFrom(s.out, index);
  }

  /** The events before the one that ends the stream with an error, if one does. */
  function BeforeError(json: Json, events: seq<ServerEvent>): seq<ServerEvent> {
    if events == [] || !RunEvents(json, INITIAL, events).halted then events
    else BeforeError(json, events[..|events| - 1])
  }

  lemma {:induction false} OpenStopsCall(json: Json, events: seq<ServerEvent>, index: Int64)
    ensures var s := RunEvents(json, INITIAL, events);
            && (!s.halted ==> HoldsOpen(s, events, index))
            && CallsFrom(s.out, index) == StopCalls(BeforeError(json, events), index)
  {
    hide Step, CallsFrom, HoldsOpen, StopCalls;
    if events == [] {
      NothingOpen(index);
    } else {
      var front, last := events[..|events| - 1], events[|events| - 1];
      var s := RunEvents(json, INITIAL, front);
      OpenStopsCall(json, front, index);
      HaltedStays(json, s, last);
      if !s.halted {
        StepCalls(json, s, events, index);
        if !Step(json, s, last).halted {
          StepHoldsOpen(json, s, events, index);
        }
      }
    }
  }

  lemma NothingOpen(index: Int64)
    ensures HoldsOpen(INITIAL, [], index) && CallsFrom([], index) == [] && StopCalls([], index) == []
  {
  }

  // What the reader sends.

  lemma {:induction false} BeforeErrorOutput(json: Json, events: seq<ServerEvent>, index: Int64)
    ensures !RunEvents(json, INITIAL, BeforeError(json, events)).halted
    ensures BlockOutput(RunEvents(json, INITIAL, events).out, index) ==
            BlockOutput(RunEvents(json, INITIAL, BeforeError(json, events)).out, index)
  {
    hide Step, BlockOutput;
    if events != [] && RunEvents(json, INITIAL, events).halted {
      var front, last := events[..|events| - 1], events[|events| - 1];
      HaltedStays(json, RunEvents(json, INITIAL, front), last);
      HaltingSendsNothing(json, RunEvents(json, INITIAL, front), last, index);
      BeforeErrorOutput(json, front, index);
    }
  }

  lemma HaltingSendsNothing(json: Json, s: State, e: ServerEvent, index: Int64)
    ensures !s.halted && Step(json, s, e).halted ==>
            BlockOutput(Step(json, s, e).out, index) == BlockOutput(s.out, index)
  {
    hide BlockOutput;
    forall x: Event
      ensures BlockOutput(s.out + [x], index) == BlockOutput(s.out, index) + if IsFrom(x, index) then [x] else []
    {
      OutputOneMore(s.out, x, index);
    }
  }

  lemma ReadErrorSendsNothing(json: Json, lines: seq<string>, readError: Option<string>, index: Int64)
    ensures var s := RunEvents(json, INITIAL, StreamEvents(json, lines));
            && BlockOutput(Output(json, lines, readError), index) == BlockOutput(s.out, index)
            && CallsFrom(Output(json, lines, readError), index) == CallsFrom(s.out, index)
  {
    hide BlockOutput, CallsFrom, RunEvents, StreamEvents;
    var s := RunEvents(json, INITIAL, StreamEvents(json, lines));
    var e := ErrorEvent(if readError.Some? then readError.value else "");
    OutputOneMore(s.out, e, index);
    CallsOneMore(s.out, e, index);
    assert s.out + [] == s.out;
  }

  /** What the reader sends for a block is what the block's own events alone give, taken
      up to the error that ends the stream, if one does. */
  lemma BlockProjection(json: Json, lines: seq<string>, readError: Option<string>, index: Int64)
    ensures var own := BlockEvents(BeforeError(json, StreamEvents(json, lines)), index);
            && !RunEvents(json, INITIAL, own).halted
            && BlockOutput(Output(json, lines, readError), index) ==
               BlockOutput(RunEvents(json, INITIAL, own).out, index)
  {
    hide BlockOutput, StreamEvents, RunEvents, BlockEvents, BeforeError;
    ReadErrorSendsNothing(json, lines, readError, index);
    BeforeErrorOutput(json, StreamEvents(json, lines), index);
    EventsProjection(json, BeforeError(json, StreamEvents(json, lines)), index);
  }

  /** An error only cuts a block's output short: it is a beginning of what all the
      block's events give. */
  lemma BlockPrefix(json: Json, lines: seq<string>, readError: Option<string>, index: Int64)
    ensures BlockOutput(Output(json, lines, readError), index)
            <= BlockOutput(RunEvents(json, INITIAL, BlockEvents(StreamEvents(json, lines), index)).out, index)
  {
    hide BlockOutput, StreamEvents, RunEvents, BlockEvents;
    ReadErrorSendsNothing(json, lines, readError, index);
    EventsPrefix(json, StreamEvents(json, lines), index);
  }

  /** The reader sends exactly one call for each stop that finds a tool block of its index
      open, with the pieces that came since the block was begun, whatever other blocks
      do in between. A stop repeated finds nothing open. */
  lemma OneCallPerBlock(json: Json, lines: seq<string>, readError: Option<string>, index: Int64)
    ensures CallsFrom(Output(json, lines, readError), index) ==
            StopCalls(BeforeError(json, StreamEvents(json, lines)), index)
  {
    hide CallsFrom, StreamEvents, RunEvents, StopCalls, BeforeError;
    ReadErrorSendsNothing(json, lines, readError, index);
    OpenStopsCall(json, StreamEvents(json, lines), index);
  }

  // Texts, dones and errors.

  function SentTexts(out: seq<Event>): seq<string> {
    if out == [] then []
    else
      var last := out[|out| - 1];
      SentTexts(out[..|out| - 1]) + if last.TextEvent? then [last.text] else []
  }

  function CountDone(out: seq<Event>): nat {
    if out == [] then 0 else CountDone(out[..|out| - 1]) + if out[|out| - 1].DoneEvent? then 1 else 0
  }

  /** The non-empty texts of the deltas, in order. */
  function SaidTexts(events: seq<ServerEvent>): seq<string> {
    if events == [] then []
    else
      var last := events[|events| - 1];
      SaidTexts(events[..|events| - 1])
      + if last.BlockDelta? && last.delta.TextDelta? && last.delta.text != "" then [last.delta.text] else []
  }

  function CountMessageStops(events: seq<ServerEvent>): nat {
    if events == [] then 0
    else CountMessageStops(events[..|events| - 1]) + if events[|events| - 1].MessageStop? then 1 else 0
  }

  lemma SentOneMore(out: seq<Event>, e: Event)
    ensures SentTexts(out + [e]) == SentTexts(out) + if e.TextEvent? then [e.text] else []
    ensures CountDone(out + [e]) == CountDone(out) + if e.DoneEvent? then 1 else 0
  {
    assert (out + [e])[..|out|] == out;
  }

  lemma StepSays(json: Json, s: State, e: ServerEvent)
    requires !s.halted
    ensures var r, text := Step(json, s, e), if e.BlockDelta? && e.delta.TextDelta? then e.delta.text else "";
            && SentTexts(r.out) == SentTexts(s.out) + (if text != "" then [text] else [])
            && CountDone(r.out) == CountDone(s.out) + (if e.MessageStop? then 1 else 0)
            && (r.halted ==> text == "" && !e.MessageStop?)
  {
    hide SentTexts, CountDone, TrimSpace;
    forall x: Event
      ensures SentTexts(s.out + [x]) == SentTexts(s.out) + if x.TextEvent? then [x.text] else []
      ensures CountDone(s.out + [x]) == CountDone(s.out) + if x.DoneEvent? then 1 else 0
    {
      SentOneMore(s.out, x);
    }
    assert SentTexts(s.out) + [] == SentTexts(s.out);
  }

  lemma {:induction false} EventsSay(json: Json, events: seq<ServerEvent>)
    ensures var out := RunEvents(json, INITIAL, events).out;
            && SentTexts(out) == SaidTexts(BeforeError(json, events))
            && CountDone(out) == CountMessageStops(BeforeError(json, events))
  {
    hide Step, SentTexts, CountDone;
    if events == [] {
      NothingSent();
    } else {
      var front, last := events[..|events| - 1], events[|events| - 1];
      var s := RunEvents(json, INITIAL, front);
      EventsSay(json, front);
      HaltedStays(json, s, last);
      if !s.halted {
        StepSays(json, s, last);
      }
    }
  }

  lemma NothingSent()
    ensures SentTexts([]) == [] && CountDone([]) == 0
  {
  }

  /** The reader sends the non-empty texts of the deltas, in order, and one done for each
      message_stop, up to the error that ends the stream, if one does. */
  lemma TextsAndDones(json: Json, lines: seq<string>, readError: Option<string>)
    ensures var out, events := Output(json, lines, readError), BeforeError(json, StreamEvents(json, lines));
            SentTexts(out) == SaidTexts(events) && CountDone(out) == CountMessageStops(events)
  {
    hide RunEvents, StreamEvents, SentTexts, CountDone, BeforeError, SaidTexts, CountMessageStops;
    var s := RunEvents(json, INITIAL, StreamEvents(json, lines));
    EventsSay(json, StreamEvents(json, lines));
    SentOneMore(s.out, ErrorEvent(if readError.Some? then readError.value else ""));
    assert s.out + [] == s.out;
  }

  /** What the error that ends a stream says. */
  ghost predicate SaysError(e: ServerEvent, error: string) {
    match e
    case ServerError(message) =>
      if TrimSpace(message) == "" then error == "anthropic stream error" else error == TrimSpace(message)
    case Undecodable(cause) => error == cause
    case BlockStop(_) => error == "parse anthropic tool input"
    case _ => false
  }

  /** A stream is ended by the first event that fails, and what that says is sent last. */
  lemma {:induction false} ErrorEnds(json: Json, events: seq<ServerEvent>)
    ensures var s, open := RunEvents(json, INITIAL, events), BeforeError(json, events);
            && |open| <= |events| && open == events[..|open|]
            && (!s.halted <==> |open| == |events|)
            && (s.halted ==> s.out != [] && s.out[|s.out| - 1].ErrorEvent?
                             && SaysError(events[|open|], s.out[|s.out| - 1].error))
  {
    hide Step, SaysError;
    if events != [] {
      var front, last := events[..|events| - 1], events[|events| - 1];
      var s := RunEvents(json, INITIAL, front);
      ErrorEnds(json, front);
      HaltedStays(json, s, last);
      if !s.halted {
        StepFails(json, s, last);
      }
    }
  }

  lemma StepFails(json: Json, s: State, e: ServerEvent)
    requires !s.halted
    ensures var r := Step(json, s, e);
            && (r.halted ==> r.out != [] && r.out[|r.out| - 1].ErrorEvent? && SaysError(e, r.out[|r.out| - 1].error))
            && (e.ServerError? || e.Undecodable? ==> r.halted)
  {
    hide TrimSpace;
  }

  /** A failing read ends an open stream with its error; an ended one is left as it is. */
  lemma ReadErrorEnds(json: Json, lines: seq<string>, error: string)
    ensures var s := RunEvents(json, INITIAL, StreamEvents(json, lines));
            && Output(json, lines, Some(error)) == s.out + (if s.halted then [] else [ErrorEvent(error)])
            && Output(json, lines, None) == s.out
  {
    hide RunEvents, StreamEvents;
  }
}
