/** The OpenAI stream decoder: tool calls assembled from fragments that arrive
    interleaved and cut into chunks. */
module OpenAiStream {
  import opened Text
  import opened Sorting
  import opened SseFraming

  datatype Fragment = Fragment(index: Int64, id: string, name: string, arguments: string)

  datatype Choice = Choice(content: string, fragments: seq<Fragment>, finish: string)

  datatype Chunk = Chunk(error: Option<string>, choices: seq<Choice>)

  /** JSON decoding: of a payload, and whether a trimmed argument text is an object (or null). */
  datatype Json = Json(chunk: string -> Result<Chunk>, isObject: string -> bool)

  /** input is the trimmed argument text; "" stands for the empty object. */
  datatype Event =
    | TextEvent(text: string)
    | CallEvent(index: Int64, id: string, name: string, input: string)
    | DoneEvent
    | ErrorEvent(error: string)

  datatype Accumulator = Accumulator(id: string, name: string, arguments: string)

  datatype State = State(calls: map<Int64, Accumulator>, sentDone: bool, out: seq<Event>, halted: bool)

  const INITIAL := State(map[], false, [], false)

  /** What a payload says, piece by piece and in order. */
  datatype Item =
    | TextItem(text: string)
    | FragmentItem(fragment: Fragment)
    | FinishItem(reason: string)
    | DoneMarker
    | BadItem(error: string)

  function FragmentItems(fragments: seq<Fragment>): seq<Item> {
    seq(|fragments|, i requires 0 <= i < |fragments| => FragmentItem(fragments[i]))
  }

  function ChoiceItems(c: Choice): seq<Item> {
    (if c.content == "" then [] else [TextItem(c.content)]) + FragmentItems(c.fragments) + [FinishItem(c.finish)]
  }

  function ChoicesItems(choices: seq<Choice>): seq<Item> {
    if choices == [] then [] else ChoicesItems(choices[..|choices| - 1]) + ChoiceItems(choices[|choices| - 1])
  }

  function PayloadItems(json: Json, payload: string): seq<Item> {
    var data := TrimSpace(payload);
    if data == "[DONE]" then [DoneMarker]
    else
      match json.chunk(data)
      case Err(error) => [BadItem(error)]
      case Ok(chunk) => if chunk.error.Some? then [BadItem(TrimSpace(chunk.error.value))]
        else ChoicesItems(chunk.choices)
  }

  function Items(json: Json, payloads: seq<string>): seq<Item> {
    if payloads == [] then []
    else Items(json, payloads[..|payloads| - 1]) + PayloadItems(json, payloads[|payloads| - 1])
  }

  function Absorb(acc: Accumulator, f: Fragment): Accumulator {
    Accumulator(if f.id != "" then f.id else acc.id, if f.name != "" then f.name
      else acc.name, acc.arguments + f.arguments)
  }

  function AddFragment(calls: map<Int64, Accumulator>, f: Fragment): map<Int64, Accumulator> {
    calls[f.index := Absorb(if f.index in calls then calls[f.index] else Accumulator("", "", ""), f)]
  }

  predicate ValidInput(json: Json, acc: Accumulator) {
    var raw := TrimSpace(acc.arguments);
    raw == "" || json.isObject(raw)
  }

  function CallOf(calls: map<Int64, Accumulator>, index: Int64): Event
    requires index in calls
  {
    CallEvent(index, calls[index].id, calls[index].name, TrimSpace(calls[index].arguments))
  }

  /** The calls of the given indices in order, up to the first whose input does not parse. */
  function FlushedCalls(json: Json, calls: map<Int64, Accumulator>, indices: seq<Int64>): seq<Event>
    requires forall k | 0 <= k < |indices| :: indices[k] in calls
  {
    if indices == [] then []
    else
      if !ValidInput(json, calls[indices[0]]) then [ErrorEvent("parse openai tool input")]
      else [CallOf(calls, indices[0])] + FlushedCalls(json, calls, indices[1..])
  }

  predicate AllValid(json: Json, calls: map<Int64, Accumulator>) {
    forall i <- calls :: ValidInput(json, calls[i])
  }

  function Emit(s: State, e: Event): State {
    s.(out := s.out + [e])
  }

  function Halt(s: State, error: string): State {
    s.(out := s.out + [ErrorEvent(error)], halted := true)
  }

  ghost function Flush(json: Json, s: State): State {
    s.(out := s.out + FlushedCalls(json, s.calls, SortedInts(s.calls.Keys)), halted := s.halted
      || !AllValid(json, s.calls))
  }

  ghost function Step(json: Json, s: State, item: Item): State {
    if s.halted then s
    else
      match item
      case TextItem(text) => Emit(s, TextEvent(text))
      case FragmentItem(f) => s.(calls := AddFragment(s.calls, f))
      case FinishItem(reason) =>
        if reason == "tool_calls" then
          var flushed := Flush(json, s);
          if flushed.halted then flushed else Emit(flushed.(sentDone := true), DoneEvent)
        else if reason == "stop" then Emit(s.(sentDone := true), DoneEvent)
        else s
      case DoneMarker => (if s.sentDone then s else Emit(s, DoneEvent)).(halted := true)
      case BadItem(error) => Halt(s, error)
  }

  ghost function RunItems(json: Json, s: State, items: seq<Item>): State {
    if items == [] then s else Step(json, RunItems(json, s, items[..|items| - 1]), items[|items| - 1])
  }

  lemma {:induction false} RunConcat(json: Json, s: State, a: seq<Item>, b: seq<Item>)
    ensures RunItems(json, s, a + b) == RunItems(json, RunItems(json, s, a), b)
  {
    if b == [] {
      assert a + b == a;
    } else {
      assert (a + b)[..|a + b| - 1] == a + b[..|b| - 1];
      RunConcat(json, s, a, b[..|b| - 1]);
    }
  }

  // The reader.

  lemma FlushedNext(json: Json, calls: map<Int64, Accumulator>, indices: seq<Int64>, k: nat)
    requires k < |indices| && forall j | 0 <= j < |indices| :: indices[j] in calls
    ensures FlushedCalls(json, calls, indices[k..]) ==
            if !ValidInput(json, calls[indices[k]]) then [ErrorEvent("parse openai tool input")]
            else [CallOf(calls, indices[k])] + FlushedCalls(json, calls, indices[k + 1..])
  {
    hide ValidInput, CallOf;
    assert indices[k..][0] == indices[k] && indices[k..][1..] == indices[k + 1..];
  }

  /** flushToolCalls. */
  method FlushToolCalls(json: Json, s: State) returns (r: State)
    requires !s.halted
    ensures r == Flush(json, s)
  {
    hide FlushedCalls, CallOf, TrimSpace;
    var idxs := CollectSorted(s.calls.Keys);
    var out: seq<Event> := [];
    assert idxs[0..] == idxs;
    for k := 0 to |idxs|
      invariant forall j | 0 <= j < k :: ValidInput(json, s.calls[idxs[j]])
      invariant FlushedCalls(json, s.calls, idxs) == out + FlushedCalls(json, s.calls, idxs[k..])
    {
      FlushedNext(json, s.calls, idxs, k);
      ghost var sent := out;
      if !ValidInput(json, s.calls[idxs[k]]) {
        return s.(out := s.out + (out + [ErrorEvent("parse openai tool input")]), halted := true);
      }
      out := out + [CallOf(s.calls, idxs[k])];
      ghost var rest := FlushedCalls(json, s.calls, idxs[k + 1..]);
      assert sent + ([CallOf(s.calls, idxs[k])] + rest) == out + rest;
    }
    NothingFlushed(json, s.calls);
    assert idxs[|idxs|..] == [];
    forall i | i in s.calls ensures ValidInput(json, s.calls[i]) {
      assert i in idxs;
    }
    r := s.(out := s.out + out);
  }

  lemma NothingFlushed(json: Json, calls: map<Int64, Accumulator>)
    ensures FlushedCalls(json, calls, []) == []
  {
  }

  /** handleSSEData, after the payload was framed. */
  method HandlePayload(json: Json, payload: string, s: State) returns (r: State)
    requires !s.halted
    ensures r == RunItems(json, s, PayloadItems(json, payload))
  {
    hide Flush;
    var data := TrimSpace(payload);
    OneItem(json, s);
    if data == "[DONE]" {
      r := if s.sentDone then s else Emit(s, DoneEvent);
      r := r.(halted := true);
      return;
    }
    var parsed := json.chunk(data);
    if parsed.Err? {
      return Halt(s, parsed.error);
    }
    var chunk := parsed.value;
    if chunk.error.Some? {
      return Halt(s, TrimSpace(chunk.error.value));
    }
    r := s;
    for i := 0 to |chunk.choices|
      invariant !r.halted
      invariant r == RunItems(json, s, ChoicesItems(chunk.choices[..i]))
    {
      assert chunk.choices[..i + 1][..i] == chunk.choices[..i];
      RunConcat(json, s, ChoicesItems(chunk.choices[..i]), ChoiceItems(chunk.choices[i]));
      r := HandleChoice(json, chunk.choices[i], r);
      if r.halted {
        HaltedStays(json, s, chunk.choices, i + 1);
        return;
      }
    }
    assert chunk.choices[..|chunk.choices|] == chunk.choices;
  }

  lemma OneItem(json: Json, s: State)
    ensures forall item :: RunItems(json, s, [item]) == Step(json, s, item)
  {
    hide Step;
    forall item ensures RunItems(json, s, [item]) == Step(json, s, item) {
      assert [item][..0] == [];
    }
  }

  lemma {:induction false} HaltedIsFinal(json: Json, s: State, items: seq<Item>)
    requires s.halted
    ensures RunItems(json, s, items) == s
  {
    if items != [] {
      HaltedIsFinal(json, s, items[..|items| - 1]);
    }
  }

  lemma {:induction false} HaltedStays(json: Json, s: State, choices: seq<Choice>, i: nat)
    requires i <= |choices| && RunItems(json, s, ChoicesItems(choices[..i])).halted
    ensures RunItems(json, s, ChoicesItems(choices)) == RunItems(json, s, ChoicesItems(choices[..i]))
    decreases |choices| - i
  {
    hide Step;
    if i == |choices| {
      assert choices[..i] == choices;
    } else {
      assert choices[..i + 1][..i] == choices[..i];
      RunConcat(json, s, ChoicesItems(choices[..i]), ChoiceItems(choices[i]));
      HaltedIsFinal(json, RunItems(json, s, ChoicesItems(choices[..i])), ChoiceItems(choices[i]));
      HaltedStays(json, s, choices, i + 1);
    }
  }

  /** Text and fragments of a choice. */
  method HandleDelta(json: Json, c: Choice, s: State) returns (r: State)
    requires !s.halted
    ensures !r.halted && r == RunItems(json, s, ChoiceItems(c)[..|ChoiceItems(c)| - 1])
  {
    hide Step, RunItems;
    r := s;
    var text: seq<Item> := if c.content == "" then [] else [TextItem(c.content)];
    RunOneMore(json, s, [], TextItem(c.content));
    assert [] + [TextItem(c.content)] == [TextItem(c.content)];
    if c.content != "" {
      r := Emit(r, TextEvent(c.content));
    }
    assert text == text + FragmentItems(c.fragments)[..0];
    for i := 0 to |c.fragments|
      invariant !r.halted
      invariant r == RunItems(json, s, text + FragmentItems(c.fragments)[..i])
    {
      var items := text + FragmentItems(c.fragments)[..i];
      assert text + FragmentItems(c.fragments)[..i + 1] == items + [FragmentItem(c.fragments[i])];
      RunOneMore(json, s, items, FragmentItem(c.fragments[i]));
      r := r.(calls := AddFragment(r.calls, c.fragments[i]));
    }
    assert ChoiceItems(c)[..|ChoiceItems(c)| - 1] == text + FragmentItems(c.fragments)[..|c.fragments|];
  }

  lemma RunOneMore(json: Json, s: State, items: seq<Item>, item: Item)
    ensures RunItems(json, s, []) == s
    ensures var r := RunItems(json, s, items);
            && RunItems(json, s, items + [item]) == Step(json, r, item)
            && (!r.halted && item.TextItem? ==> Step(json, r, item) == Emit(r, TextEvent(item.text)))
            && (!r.halted && item.FragmentItem? ==>
               Step(json, r, item) == r.(calls := AddFragment(r.calls, item.fragment)))
  {
    hide Flush, AddFragment;
    assert (items + [item])[..|items|] == items;
  }

  method HandleChoice(json: Json, c: Choice, s: State) returns (r: State)
    requires !s.halted
    ensures r == RunItems(json, s, ChoiceItems(c))
  {
    hide Flush, FragmentItems;
    r := HandleDelta(json, c, s);
    assert RunItems(json, s, ChoiceItems(c)) == Step(json, r, FinishItem(c.finish));
    if c.finish == "tool_calls" {
      r := FlushToolCalls(json, r);
      if r.halted {
        return;
      }
      r := Emit(r.(sentDone := true), DoneEvent);
    } else if c.finish == "stop" {
      r := Emit(r.(sentDone := true), DoneEvent);
    }
  }

  /** The stream ends: a read error, or the done event not sent yet. */
  function Close(s: State, readError: Option<string>): State {
    if s.halted then s
    else if readError.Some? then Halt(s, readError.value)
    else if !s.sentDone then Emit(s, DoneEvent)
    else s
  }

  /** The whole reading loop is: frame the lines, decode the payloads, close. */
  method ReadStream(json: Json, lines: seq<string>, readError: Option<string>) returns (out: seq<Event>)
    ensures out == Close(RunItems(json, INITIAL, Items(json, Events(lines))), readError).out
  {
    hide Step, PayloadItems;
    var buffer, s := "", INITIAL;
    for i := 0 to |lines|
      invariant !s.halted
      invariant buffer == JoinLines(Payloads(Unended(lines[..i])))
      invariant s == RunItems(json, INITIAL, Items(json, Events(lines[..i])))
    {
      hide Events, Items, RunItems, JoinLines, Payloads, Unended, Payload;
      ScanNext(json, lines, i);
      var line := lines[i];
      if line == "" {
        if buffer != "" {
          s := HandlePayload(json, buffer, s);
          buffer := "";
          if s.halted {
            HaltedToTheEnd(json, lines, i + 1);
            return s.out;
          }
        }
      } else if Payload(line) != "" {
        buffer := if buffer == "" then Payload(line) else buffer + "\n" + Payload(line);
      }
    }
    assert lines[..|lines|] == lines;
    out := Close(s, readError).out;
  }

  /** What one more line of the stream adds to the buffer and to the decoded items. */
  lemma ScanNext(json: Json, lines: seq<string>, i: nat)
    requires i < |lines|
    ensures var (buffer, event) := ScanLine(JoinLines(Payloads(Unended(lines[..i]))), lines[i]);
            && buffer == JoinLines(Payloads(Unended(lines[..i + 1])))
            && var before := RunItems(json, INITIAL, Items(json, Events(lines[..i])));
               RunItems(json, INITIAL, Items(json, Events(lines[..i + 1]))) ==
               if event.Some? then RunItems(json, before, PayloadItems(json, event.value)) else before
  {
    hide Step, PayloadItems, ScanLine, Payload, JoinLines, Payloads, Unended, RunItems, Events;
    assert lines[..i + 1] == lines[..i] + [lines[i]];
    ScanFrames(lines[..i], lines[i]);
    var before, after := Events(lines[..i]), Events(lines[..i + 1]);
    if after != before {
      assert after[..|after| - 1] == before;
      RunConcat(json, INITIAL, Items(json, before), PayloadItems(json, after[|after| - 1]));
    }
  }

  lemma {:induction false} HaltedToTheEnd(json: Json, lines: seq<string>, i: nat)
    requires i <= |lines| && RunItems(json, INITIAL, Items(json, Events(lines[..i]))).halted
    ensures RunItems(json, INITIAL, Items(json, Events(lines))) ==
            RunItems(json, INITIAL, Items(json, Events(lines[..i])))
    decreases |lines| - i
  {
    hide Step, PayloadItems, RunItems, Events, Items;
    if i == |lines| {
      assert lines[..i] == lines;
    } else {
      ScanNext(json, lines, i);
      var (_, event) := ScanLine(JoinLines(Payloads(Unended(lines[..i]))), lines[i]);
      if event.Some? {
        HaltedIsFinal(json, RunItems(json, INITIAL, Items(json, Events(lines[..i]))), PayloadItems(json, event.value));
      }
      HaltedToTheEnd(json, lines, i + 1);
    }
  }
}
