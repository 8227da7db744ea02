/** The Ollama stream decoder: one JSON chunk a line, tool calls kept by their
    position inside a chunk, and a single way out of the stream. */
module OllamaStream {
  import opened Text
  import opened SseFraming

  /** arguments is the text the program appends: the string given, or the object's JSON. */
  datatype ToolPart = ToolPart(id: string, name: string, arguments: string)

  datatype Chunk = Chunk(error: Option<string>, content: string, calls: seq<ToolPart>, done: bool)

  datatype Json = Json(chunk: string -> Result<Chunk>, isObject: string -> bool)

  datatype Event =
    | TextEvent(text: string)
    | CallEvent(id: string, name: string, input: string)
    | DoneEvent
    | ErrorEvent(error: string)

  /** The assembled calls: entry i belongs to the calls at position i of their chunk. */
  datatype State = State(calls: seq<ToolPart>, out: seq<Event>, halted: bool)

  const INITIAL := State([], [], false)

  /** The line without its "data:" prefix; "" when there is nothing to decode. */
  function LineData(line: string): string {
    var text := TrimSpace(line);
    if text == "" || HasPrefix(text, ":") then ""
    else if HasPrefix(text, DATA) then TrimSpace(TrimPrefix(text, DATA))
    else text
  }

  predicate IsSkipped(line: string) {
    TrimSpace(line) == "" || HasPrefix(TrimSpace(line), ":")
  }

  function Absorb(acc: ToolPart, part: ToolPart): ToolPart {
    ToolPart(if part.id != "" then part.id else acc.id, if part.name != "" then part.name
      else acc.name, acc.arguments + part.arguments)
  }

  function Merge(calls: seq<ToolPart>, parts: seq<ToolPart>): (r: seq<ToolPart>)
    ensures |r| == if |calls| > |parts| then |calls| else |parts|
  {
    seq(if |calls| > |parts| then |calls|
      else |parts|, i requires 0 <= i < (if |calls| > |parts| then |calls| else |parts|) =>
      if i < |calls| && i < |parts| then Absorb(calls[i], parts[i])
      else if i < |calls| then calls[i]
      else Absorb(ToolPart("", "", ""), parts[i]))
  }

  predicate ValidInput(json: Json, call: ToolPart) {
    TrimSpace(call.arguments) == "" || json.isObject(TrimSpace(call.arguments))
  }

  function CallOf(call: ToolPart): Event {
    CallEvent(call.id, call.name, TrimSpace(call.arguments))
  }

  function Flushed(json: Json, calls: seq<ToolPart>): seq<Event> {
    if calls == [] then []
    else if !ValidInput(json, calls[0]) then [ErrorEvent("parse ollama tool input")]
    else [CallOf(calls[0])] + Flushed(json, calls[1..])
  }

  predicate AllValid(json: Json, calls: seq<ToolPart>) {
    forall i | 0 <= i < |calls| :: ValidInput(json, calls[i])
  }

  /** Every regular way out: the calls, then the done event unless a call was bad. */
  function Finish(json: Json, s: State): State {
    s.(out := s.out + Flushed(json, s.calls) + (if AllValid(json, s.calls) then [DoneEvent] else []), halted := true)
  }

  function Fail(s: State, error: string): State {
    s.(out := s.out + [ErrorEvent(error)], halted := true)
  }

  function Hear(s: State, chunk: Chunk): State {
    s.(out := s.out + (if chunk.content == "" then [] else [TextEvent(chunk.content)]),
       calls := Merge(s.calls, chunk.calls))
  }

  function Step(json: Json, s: State, line: string): State {
    if s.halted || IsSkipped(line) then s
    else if LineData(line) == "[DONE]" then Finish(json, s)
    else
      match json.chunk(LineData(line))
      case Err(error) => Fail(s, error)
      case Ok(chunk) =>
        if chunk.error.Some? then Fail(s, chunk.error.value)
        else
          var heard := Hear(s, chunk);
          if chunk.done then Finish(json, heard) else heard
  }

  function RunLines(json: Json, lines: seq<string>): State {
    if lines == [] then INITIAL else Step(json, RunLines(json, lines[..|lines| - 1]), lines[|lines| - 1])
  }

  function Close(json: Json, s: State, readError: Option<string>): State {
    if s.halted then s
    else if readError.Some? then Fail(s, readError.value)
    else Finish(json, s)
  }

  /** flushToolCalls and the done event after it. */
  method FlushAndFinish(json: Json, s: State) returns (r: State)
    requires !s.halted
    ensures r == Finish(json, s)
  {
    hide ValidInput, CallOf;
    var out: seq<Event> := [];
    assert s.calls[0..] == s.calls;
    for i := 0 to |s.calls|
      invariant forall j | 0 <= j < i :: ValidInput(json, s.calls[j])
      invariant Flushed(json, s.calls) == out + Flushed(json, s.calls[i..])
    {
      assert s.calls[i..][0] == s.calls[i] && s.calls[i..][1..] == s.calls[i + 1..];
      if !ValidInput(json, s.calls[i]) {
        assert s.out + Flushed(json, s.calls) + [] == s.out + (out + [ErrorEvent("parse ollama tool input")]);
        return s.(out := s.out + (out + [ErrorEvent("parse ollama tool input")]), halted := true);
      }
      out := out + [CallOf(s.calls[i])];
    }
    r := s.(out := s.out + out + [DoneEvent], halted := true);
  }

  method ReadStream(json: Json, lines: seq<string>, readError: Option<string>) returns (out: seq<Event>)
    ensures out == Close(json, RunLines(json, lines), readError).out
  {
    hide Finish, Merge, LineData, IsSkipped;
    var s := INITIAL;
    for i := 0 to |lines|
      invariant !s.halted && s == RunLines(json, lines[..i])
    {
      assert lines[..i + 1][..i] == lines[..i];
      HaltedToTheEnd(json, lines, i + 1);
      if IsSkipped(lines[i]) {
        continue;
      }
      var data := LineData(lines[i]);
      if data == "[DONE]" {
        s := FlushAndFinish(json, s);
        FinishHalts(json, RunLines(json, lines[..i]));
        return s.out;
      }
      var decoded := json.chunk(data);
      if decoded.Err? {
        return Fail(s, decoded.error).out;
      }
      var chunk := decoded.value;
      if chunk.error.Some? {
        return Fail(s, chunk.error.value).out;
      }
      s := s.(out := s.out + if chunk.content == "" then [] else [TextEvent(chunk.content)]);
      s := s.(calls := Merge(s.calls, chunk.calls));
      if chunk.done {
        FinishHalts(json, s);
        s := FlushAndFinish(json, s);
        return s.out;
      }
    }
    assert lines[..|lines|] == lines;
    if readError.Some? {
      return Fail(s, readError.value).out;
    }
    s := FlushAndFinish(json, s);
    out := s.out;
  }

  lemma FinishHalts(json: Json, s: State)
    ensures Finish(json, s).halted
  {
  }

  lemma {:induction false} HaltedToTheEnd(json: Json, lines: seq<string>, i: nat)
    requires i <= |lines|
    ensures RunLines(json, lines[..i]).halted ==> RunLines(json, lines) == RunLines(json, lines[..i])
    decreases |lines| - i
  {
    hide Finish, Merge, LineData, IsSkipped;
    if i == |lines| {
      assert lines[..i] == lines;
    } else {
      assert lines[..i + 1][..i] == lines[..i];
      HaltedToTheEnd(json, lines, i + 1);
    }
  }

  // What the decoder guarantees.

  predicate IsTerminal(e: Event) {
    e.DoneEvent? || e.ErrorEvent?
  }

  /** Exactly one terminal event, and it is the last. */
  ghost predicate EndsOnce(out: seq<Event>) {
    && out != [] && IsTerminal(out[|out| - 1])
    && forall i | 0 <= i < |out| - 1 :: !IsTerminal(out[i])
  }

  ghost predicate NoTerminal(out: seq<Event>) {
    forall i | 0 <= i < |out| :: !IsTerminal(out[i])
  }

  lemma {:induction false} FlushedEnds(json: Json, calls: seq<ToolPart>)
    ensures AllValid(json, calls) ==> NoTerminal(Flushed(json, calls)) && |Flushed(json, calls)| == |calls|
    ensures !AllValid(json, calls) ==> EndsOnce(Flushed(json, calls))
  {
    if calls != [] && ValidInput(json, calls[0]) {
      FlushedEnds(json, calls[1..]);
      var rest := Flushed(json, calls[1..]);
      assert forall i | 0 <= i < |calls[1..]| :: calls[1..][i] == calls[i + 1];
      assert AllValid(json, calls) <==> AllValid(json, calls[1..]) by {
        if AllValid(json, calls[1..]) {
          forall i | 0 <= i < |calls| ensures ValidInput(json, calls[i]) {
            if i > 0 {
              assert calls[i] == calls[1..][i - 1];
            }
          }
        }
      }
    }
  }

  lemma FinishEnds(json: Json, s: State)
    requires NoTerminal(s.out)
    ensures EndsOnce(Finish(json, s).out)
  {
    FlushedEnds(json, s.calls);
  }

  lemma {:induction false} LinesEnd(json: Json, lines: seq<string>)
    ensures var s := RunLines(json, lines); if s.halted then EndsOnce(s.out) else NoTerminal(s.out)
  {
    hide Finish, Merge, LineData, IsSkipped;
    if lines != [] {
      var front := RunLines(json, lines[..|lines| - 1]);
      LinesEnd(json, lines[..|lines| - 1]);
      if !front.halted {
        StepEnds(json, front, lines[|lines| - 1]);
      }
    }
  }

  lemma StepEnds(json: Json, s: State, line: string)
    requires !s.halted && NoTerminal(s.out)
    ensures var r := Step(json, s, line); if r.halted then EndsOnce(r.out) else NoTerminal(r.out)
  {
    hide Merge, LineData, IsSkipped, Flushed;
    FinishEnds(json, s);
    var decoded := json.chunk(LineData(line));
    if decoded.Ok? {
      var chunk := decoded.value;
      FinishEnds(json, Hear(s, chunk));
    }
  }

  /** Whatever the lines and however the stream breaks off, the events end with exactly
      one done or error event. */
  lemma StreamEndsOnce(json: Json, lines: seq<string>, readError: Option<string>)
    ensures EndsOnce(Close(json, RunLines(json, lines), readError).out)
  {
    hide RunLines, Finish;
    LinesEnd(json, lines);
    if !RunLines(json, lines).halted {
      FinishEnds(json, RunLines(json, lines));
    }
  }

  /** The chunks of a stream of chunk lines. */
  function ChunkOf(json: Json, line: string): Option<Chunk> {
    if IsSkipped(line) || LineData(line) == "[DONE]" then None
    else
      match json.chunk(LineData(line))
      case Err(_) => None
      case Ok(chunk) => if chunk.error.Some? then None else Some(chunk)
  }

  function Most(json: Json, lines: seq<string>): nat {
    if lines == [] then 0
    else
      var before, c := Most(json, lines[..|lines| - 1]), ChunkOf(json, lines[|lines| - 1]);
      if c.Some? && |c.value.calls| > before then |c.value.calls| else before
  }

  function Total(json: Json, lines: seq<string>): nat {
    if lines == [] then 0
    else
      var c := ChunkOf(json, lines[|lines| - 1]);
      Total(json, lines[..|lines| - 1]) + if c.Some? then |c.value.calls| else 0
  }

  function ChunksWithCalls(json: Json, lines: seq<string>): nat {
    if lines == [] then 0
    else
      var c := ChunkOf(json, lines[|lines| - 1]);
      ChunksWithCalls(json, lines[..|lines| - 1]) + if c.Some? && c.value.calls != [] then 1 else 0
  }

  lemma RunLinesUnfolds(json: Json, lines: seq<string>)
    ensures lines == [] ==> RunLines(json, lines) == INITIAL
    ensures lines != [] ==>
              RunLines(json, lines) == Step(json, RunLines(json, lines[..|lines| - 1]), lines[|lines| - 1])
  {
    hide Step;
  }

  /** The lines the decoder looks at: up to the one that ends the stream. */
  function Seen(json: Json, lines: seq<string>): seq<string> {
    if lines == [] || !RunLines(json, lines[..|lines| - 1]).halted then lines
    else Seen(json, lines[..|lines| - 1])
  }

  lemma {:induction false} SeenDecides(json: Json, lines: seq<string>)
    ensures RunLines(json, Seen(json, lines)) == RunLines(json, lines)
    ensures Seen(json, lines) != [] ==> !RunLines(json, Seen(json, lines)[..|Seen(json, lines)| - 1]).halted
  {
    hide Finish, Merge, LineData, IsSkipped;
    if lines != [] {
      SeenDecides(json, lines[..|lines| - 1]);
    }
  }

  function CallCount(out: seq<Event>): nat {
    if out == [] then 0 else CallCount(out[..|out| - 1]) + if out[|out| - 1].CallEvent? then 1 else 0
  }

  lemma {:induction false} CallCountConcat(a: seq<Event>, b: seq<Event>)
    ensures CallCount(a + b) == CallCount(a) + CallCount(b)
  {
    if b == [] {
      assert a + b == a;
    } else {
      assert (a + b)[..|a + b| - 1] == a + b[..|b| - 1];
      CallCountConcat(a, b[..|b| - 1]);
    }
  }

  lemma CountNone()
    ensures CallCount([]) == 0
  {
  }

  lemma CountOne(e: Event)
    ensures CallCount([e]) == if e.CallEvent? then 1 else 0
  {
    assert [e][..0] == [];
  }

  lemma {:induction false} FlushedCount(json: Json, calls: seq<ToolPart>)
    ensures AllValid(json, calls) ==> CallCount(Flushed(json, calls)) == |calls|
    ensures !AllValid(json, calls) ==>
            Flushed(json, calls) != [] && Flushed(json, calls)[|Flushed(json, calls)| - 1].ErrorEvent?
  {
    hide ValidInput, CallCount;
    if calls == [] {
      CountNone();
    } else if ValidInput(json, calls[0]) {
      FlushedCount(json, calls[1..]);
      CallCountConcat([CallOf(calls[0])], Flushed(json, calls[1..]));
      CountOne(CallOf(calls[0]));
      assert forall i | 0 < i < |calls| :: calls[i] == calls[1..][i - 1];
    }
  }

  predicate EndsWell(out: seq<Event>) {
    out != [] && out[|out| - 1].DoneEvent?
  }

  lemma FinishCount(json: Json, s: State)
    ensures EndsWell(Finish(json, s).out) <==> AllValid(json, s.calls)
    ensures EndsWell(Finish(json, s).out) ==> CallCount(Finish(json, s).out) == CallCount(s.out) + |s.calls|
  {
    hide AllValid, CallCount, Flushed;
    FlushedCount(json, s.calls);
    CallCountConcat(s.out, Flushed(json, s.calls));
    CallCountConcat(s.out + Flushed(json, s.calls), [DoneEvent]);
    CountOne(DoneEvent);
    assert Finish(json, s).out ==
           s.out + Flushed(json, s.calls) + (if AllValid(json, s.calls) then [DoneEvent] else []);
  }

  /** One line: the calls grow to those of its chunk, and are counted when it ends the
      stream well. */
  lemma StepCounts(json: Json, s: State, line: string)
    requires !s.halted && CallCount(s.out) == 0
    ensures var c, r := ChunkOf(json, line), Step(json, s, line);
            && (!r.halted ==> CallCount(r.out) == 0)
            && (!r.halted || EndsWell(r.out) ==>
                  |r.calls| == if c.Some? && |c.value.calls| > |s.calls| then |c.value.calls| else |s.calls|)
            && (r.halted && EndsWell(r.out) ==> CallCount(r.out) == |r.calls|)
  {
    hide Flushed, CallCount, LineData, IsSkipped, AllValid;
    FinishCount(json, s);
    var c := json.chunk(LineData(line));
    if c.Ok? {
      var said: seq<Event> := if c.value.content == "" then [] else [TextEvent(c.value.content)];
      var heard := s.(out := s.out + said, calls := Merge(s.calls, c.value.calls));
      CallCountConcat(s.out, said);
      CountOne(TextEvent(c.value.content));
      CountNone();
      FinishCount(json, heard);
    }
  }

  /** Until the stream ends no call is sent, and as many are assembled as the largest
      chunk carries; if it ends well in a line, these are sent. */
  lemma {:induction false} AssembledMost(json: Json, lines: seq<string>)
    requires lines == [] || !RunLines(json, lines[..|lines| - 1]).halted
    ensures var s := RunLines(json, lines);
            && (!s.halted ==> CallCount(s.out) == 0 && |s.calls| == Most(json, lines))
            && (s.halted && EndsWell(s.out) ==> CallCount(s.out) == Most(json, lines))
  {
    hide RunLines, Step, ChunkOf, CallCount, EndsWell;
    RunLinesUnfolds(json, lines);
    if lines == [] {
      CountNone();
    } else {
      var front := lines[..|lines| - 1];
      SeenOfUnended(json, front);
      AssembledMost(json, front);
      StepCounts(json, RunLines(json, front), lines[|lines| - 1]);
    }
  }

  lemma SeenOfUnended(json: Json, lines: seq<string>)
    requires !RunLines(json, lines).halted
    ensures lines != [] ==> !RunLines(json, lines[..|lines| - 1]).halted
  {
    hide Finish, Merge, LineData, IsSkipped;
  }

  lemma {:induction false} MostIsTotalIff(json: Json, lines: seq<string>)
    ensures Most(json, lines) <= Total(json, lines)
    ensures Most(json, lines) == Total(json, lines) <==> ChunksWithCalls(json, lines) <= 1
    ensures ChunksWithCalls(json, lines) == 0 <==> Total(json, lines) == 0
  {
    hide ChunkOf;
    if lines != [] {
      MostIsTotalIff(json, lines[..|lines| - 1]);
    }
  }

  /** Positions restart in every chunk, so calls of different chunks merge: a stream
      that ends well, by a done chunk, a [DONE] line or its last line, has as many calls
      sent on as it carried exactly when at most one of its chunks carried any. */
  lemma CallsKeptIff(json: Json, lines: seq<string>, readError: Option<string>)
    requires EndsWell(Close(json, RunLines(json, lines), readError).out)
    ensures CallCount(Close(json, RunLines(json, lines), readError).out) == Total(json, Seen(json, lines))
            <==> ChunksWithCalls(json, Seen(json, lines)) <= 1
  {
    hide RunLines, Most, Total, ChunksWithCalls, AllValid, CallCount, Seen, Finish;
    var seen := Seen(json, lines);
    SeenDecides(json, lines);
    AssembledMost(json, seen);
    MostIsTotalIff(json, seen);
    FinishCount(json, RunLines(json, lines));
  }

  // What the calls and the texts say.

  /** The parts at position i of the chunks, in order. */
  function PartsAt(json: Json, lines: seq<string>, i: nat): seq<ToolPart> {
    if lines == [] then []
    else
      var c := ChunkOf(json, lines[|lines| - 1]);
      PartsAt(json, lines[..|lines| - 1], i) + if c.Some? && i < |c.value.calls| then [c.value.calls[i]] else []
  }

  function LastId(parts: seq<ToolPart>): string {
    if parts == [] then ""
    else if parts[|parts| - 1].id != "" then parts[|parts| - 1].id
    else LastId(parts[..|parts| - 1])
  }

  function LastName(parts: seq<ToolPart>): string {
    if parts == [] then ""
    else if parts[|parts| - 1].name != "" then parts[|parts| - 1].name
    else LastName(parts[..|parts| - 1])
  }

  function Arguments(parts: seq<ToolPart>): string {
    if parts == [] then "" else Arguments(parts[..|parts| - 1]) + parts[|parts| - 1].arguments
  }

  /** The non-empty contents of the chunks, in order. */
  function Contents(json: Json, lines: seq<string>): seq<string> {
    if lines == [] then []
    else
      var c := ChunkOf(json, lines[|lines| - 1]);
      Contents(json, lines[..|lines| - 1]) + if c.Some? && c.value.content != "" then [c.value.content] else []
  }

  function SentTexts(out: seq<Event>): seq<string> {
    if out == [] then []
    else
      var last := out[|out| - 1];
      SentTexts(out[..|out| - 1]) + if last.TextEvent? then [last.text] else []
  }

  /** The entry at position i is what the parts there say. */
  ghost predicate IsAssembled(part: ToolPart, parts: seq<ToolPart>) {
    part == ToolPart(LastId(parts), LastName(parts), Arguments(parts))
  }

  ghost predicate AllAssembled(json: Json, calls: seq<ToolPart>, lines: seq<string>) {
    && (forall i | 0 <= i < |calls| :: PartsAt(json, lines, i) != [] && IsAssembled(calls[i], PartsAt(json, lines, i)))
    && (forall i: nat | i >= |calls| :: PartsAt(json, lines, i) == [])
  }

  lemma AbsorbAssembles(part: ToolPart, parts: seq<ToolPart>, more: ToolPart)
    requires IsAssembled(part, parts)
    ensures IsAssembled(Absorb(part, more), parts + [more])
  {
    assert (parts + [more])[..|parts|] == parts;
  }

  lemma MergeAssembles(json: Json, calls: seq<ToolPart>, lines: seq<string>)
    requires lines != [] && AllAssembled(json, calls, lines[..|lines| - 1])
    ensures var c := ChunkOf(json, lines[|lines| - 1]);
            AllAssembled(json, if c.Some? then Merge(calls, c.value.calls) else calls, lines)
  {
    hide IsAssembled, ChunkOf, Absorb, PartsAt;
    var front, c := lines[..|lines| - 1], ChunkOf(json, lines[|lines| - 1]);
    NothingAssembled();
    forall i: nat
      ensures PartsAt(json, lines, i) ==
              if c.Some? && i < |c.value.calls| then PartsAt(json, front, i) + [c.value.calls[i]]
                else PartsAt(json, front, i)
    {
      PartsOneMore(json, lines, i);
    }
    if c.Some? {
      var parts, merged := c.value.calls, Merge(calls, c.value.calls);
      forall i | 0 <= i < |merged|
        ensures PartsAt(json, lines, i) != [] && IsAssembled(merged[i], PartsAt(json, lines, i))
      {
        if i < |parts| {
          AbsorbAssembles(if i < |calls| then calls[i] else ToolPart("", "", ""), PartsAt(json, front, i), parts[i]);
        }
      }
    }
  }

  lemma PartsOneMore(json: Json, lines: seq<string>, i: nat)
    requires lines != []
    ensures var front, c := lines[..|lines| - 1], ChunkOf(json, lines[|lines| - 1]);
            PartsAt(json, lines, i) ==
            if c.Some? && i < |c.value.calls| then PartsAt(json, front, i) + [c.value.calls[i]]
              else PartsAt(json, front, i)
  {
    hide ChunkOf;
  }

  lemma NothingAssembled()
    ensures IsAssembled(ToolPart("", "", ""), [])
  {
  }

  lemma SentOneMore(out: seq<Event>, e: Event)
    ensures SentTexts(out + [e]) == SentTexts(out) + if e.TextEvent? then [e.text] else []
  {
    assert (out + [e])[..|out|] == out;
  }

  lemma {:induction false} SentConcat(a: seq<Event>, b: seq<Event>)
    ensures SentTexts(a + b) == SentTexts(a) + SentTexts(b)
  {
    if b == [] {
      assert a + b == a;
    } else {
      assert (a + b)[..|a + b| - 1] == a + b[..|b| - 1];
      SentConcat(a, b[..|b| - 1]);
    }
  }

  lemma {:induction false} FlushedHasNoText(json: Json, calls: seq<ToolPart>)
    ensures SentTexts(Flushed(json, calls)) == []
  {
    hide ValidInput, SentTexts;
    NoTexts();
    SentOneMore([], ErrorEvent("parse ollama tool input"));
    assert [] + [ErrorEvent("parse ollama tool input")] == [ErrorEvent("parse ollama tool input")];
    if calls != [] {
      FlushedHasNoText(json, calls[1..]);
      SentConcat([CallOf(calls[0])], Flushed(json, calls[1..]));
      SentOneMore([], CallOf(calls[0]));
      assert [] + [CallOf(calls[0])] == [CallOf(calls[0])];
    }
  }

  lemma NoTexts()
    ensures SentTexts([]) == []
  {
  }

  lemma FinishHasNoText(json: Json, s: State)
    ensures SentTexts(Finish(json, s).out) == SentTexts(s.out)
    ensures Finish(json, s).calls == s.calls
  {
    hide SentTexts, Flushed;
    FlushedHasNoText(json, s.calls);
    SentConcat(s.out, Flushed(json, s.calls));
    SentOneMore(s.out + Flushed(json, s.calls), DoneEvent);
    assert s.out + Flushed(json, s.calls) + [] == s.out + Flushed(json, s.calls);
  }

  lemma FailHasNoText(s: State, error: string)
    ensures SentTexts(Fail(s, error).out) == SentTexts(s.out)
  {
    hide SentTexts;
    SentOneMore(s.out, ErrorEvent(error));
  }

  /** One line: its content is sent if it is not empty. */
  lemma StepSays(json: Json, s: State, line: string)
    requires !s.halted
    ensures var c, r := ChunkOf(json, line), Step(json, s, line);
            && SentTexts(r.out) ==
               SentTexts(s.out) + (if c.Some? && c.value.content != "" then [c.value.content] else [])
            && (!r.halted || EndsWell(r.out) ==> r.calls == if c.Some? then Merge(s.calls, c.value.calls) else s.calls)
  {
    hide SentTexts, LineData, IsSkipped, Merge, Finish, Flushed;
    FinishHasNoText(json, s);
    assert SentTexts(s.out) + [] == SentTexts(s.out);
    var c := json.chunk(LineData(line));
    if c.Err? {
      FailHasNoText(s, c.error);
      FailEndsBadly(s, c.error);
    } else if c.value.error.Some? {
      FailHasNoText(s, c.value.error.value);
      FailEndsBadly(s, c.value.error.value);
    } else {
      SentOneMore(s.out, TextEvent(c.value.content));
      FinishHasNoText(json, Hear(s, c.value));
      assert s.out + [] == s.out;
    }
  }

  lemma FailEndsBadly(s: State, error: string)
    ensures !EndsWell(Fail(s, error).out)
  {
  }

  lemma {:induction false} LinesSay(json: Json, lines: seq<string>)
    requires lines == [] || !RunLines(json, lines[..|lines| - 1]).halted
    ensures var s := RunLines(json, lines);
            && SentTexts(s.out) == Contents(json, lines)
            && (!s.halted || EndsWell(s.out) ==> AllAssembled(json, s.calls, lines))
  {
    hide RunLines, Step, ChunkOf, SentTexts, EndsWell, IsAssembled, Merge;
    RunLinesUnfolds(json, lines);
    if lines == [] {
      NoTexts();
    } else {
      var front := lines[..|lines| - 1];
      SeenOfUnended(json, front);
      LinesSay(json, front);
      StepSays(json, RunLines(json, front), lines[|lines| - 1]);
      MergeAssembles(json, RunLines(json, front).calls, lines);
    }
  }

  /** The texts sent are the non-empty contents of the chunks the decoder looked at, in
      order, whatever ends the stream. */
  lemma TextsArrive(json: Json, lines: seq<string>, readError: Option<string>)
    ensures SentTexts(Close(json, RunLines(json, lines), readError).out) == Contents(json, Seen(json, lines))
  {
    hide RunLines, SentTexts, Contents, Seen, Finish, Fail, AllAssembled;
    SeenDecides(json, lines);
    LinesSay(json, Seen(json, lines));
    FinishHasNoText(json, RunLines(json, lines));
    FailHasNoText(RunLines(json, lines), if readError.Some? then readError.value else "");
  }

  function SentCalls(out: seq<Event>): seq<Event> {
    if out == [] then []
    else SentCalls(out[..|out| - 1]) + if out[|out| - 1].CallEvent? then [out[|out| - 1]] else []
  }

  lemma {:induction false} CallsConcat(a: seq<Event>, b: seq<Event>)
    ensures SentCalls(a + b) == SentCalls(a) + SentCalls(b)
  {
    if b == [] {
      assert a + b == a;
    } else {
      assert (a + b)[..|a + b| - 1] == a + b[..|b| - 1];
      CallsConcat(a, b[..|b| - 1]);
    }
  }

  lemma OneCall(e: Event)
    ensures SentCalls([e]) == if e.CallEvent? then [e] else []
    ensures SentCalls([]) == []
  {
    assert [e][..0] == [];
  }

  lemma {:induction false} FlushedCalls(json: Json, calls: seq<ToolPart>)
    requires AllValid(json, calls)
    ensures var sent := SentCalls(Flushed(json, calls));
            |sent| == |calls| && forall i | 0 <= i < |calls| :: sent[i] == CallOf(calls[i])
  {
    hide ValidInput, SentCalls, CallOf;
    OneCall(DoneEvent);
    if calls != [] {
      assert forall i | 0 < i < |calls| :: calls[i] == calls[1..][i - 1];
      FlushedCalls(json, calls[1..]);
      CallsConcat([CallOf(calls[0])], Flushed(json, calls[1..]));
      FirstCall(calls[0]);
    }
  }

  lemma FirstCall(part: ToolPart)
    ensures SentCalls([CallOf(part)]) == [CallOf(part)]
  {
    OneCall(CallOf(part));
  }

  lemma FinishCalls(json: Json, s: State)
    requires AllValid(json, s.calls) && SentCalls(s.out) == []
    ensures var sent := SentCalls(Finish(json, s).out);
            |sent| == |s.calls| && forall i | 0 <= i < |s.calls| :: sent[i] == CallOf(s.calls[i])
  {
    hide SentCalls, Flushed, CallOf, AllValid;
    FlushedCalls(json, s.calls);
    CallsConcat(s.out, Flushed(json, s.calls));
    CallsConcat(s.out + Flushed(json, s.calls), [DoneEvent]);
    OneCall(DoneEvent);
  }

  /** Until the stream ends no call is sent; when it ends well, all that are assembled are. */
  lemma StepCalls(json: Json, s: State, line: string)
    requires !s.halted && SentCalls(s.out) == []
    ensures var r := Step(json, s, line);
            && (!r.halted ==> SentCalls(r.out) == [])
            && (r.halted && EndsWell(r.out) ==>
                  var sent := SentCalls(r.out);
                  |sent| == |r.calls| && forall i | 0 <= i < |r.calls| :: sent[i] == CallOf(r.calls[i]))
  {
    hide SentCalls, LineData, IsSkipped, Merge, Finish, Flushed, CallOf, AllValid;
    FinishCount(json, s);
    FinishHalts(json, s);
    FinishHasNoText(json, s);
    if AllValid(json, s.calls) {
      FinishCalls(json, s);
    }
    var c := json.chunk(LineData(line));
    if c.Ok? && c.value.error.None? {
      var heard := Hear(s, c.value);
      CallsConcat(s.out, [TextEvent(c.value.content)]);
      OneCall(TextEvent(c.value.content));
      assert s.out + [] == s.out && SentCalls(heard.out) == [];
      FinishCount(json, heard);
      FinishHalts(json, heard);
      FinishHasNoText(json, heard);
      if AllValid(json, heard.calls) {
        FinishCalls(json, heard);
      }
    }
  }

  lemma {:induction false} LinesCall(json: Json, lines: seq<string>)
    requires lines == [] || !RunLines(json, lines[..|lines| - 1]).halted
    ensures var s := RunLines(json, lines);
            && (!s.halted ==> SentCalls(s.out) == [])
            && (s.halted && EndsWell(s.out) ==>
                  var sent := SentCalls(s.out);
                  |sent| == |s.calls| && forall i | 0 <= i < |s.calls| :: sent[i] == CallOf(s.calls[i]))
  {
    hide RunLines, Step, SentCalls, EndsWell, CallOf;
    RunLinesUnfolds(json, lines);
    if lines == [] {
      OneCall(DoneEvent);
    } else {
      var front := lines[..|lines| - 1];
      SeenOfUnended(json, front);
      LinesCall(json, front);
      StepCalls(json, RunLines(json, front), lines[|lines| - 1]);
    }
  }

  /** In a stream that ends well the calls sent are, position by position, those that some
      chunk carries there: each with its last id and name and its arguments joined. */
  lemma CallsArrive(json: Json, lines: seq<string>, readError: Option<string>)
    requires EndsWell(Close(json, RunLines(json, lines), readError).out)
    ensures var sent, seen := SentCalls(Close(json, RunLines(json, lines), readError).out), Seen(json, lines);
            && (forall i | 0 <= i < |sent| ::
                  var parts := PartsAt(json, seen, i);
                  parts != [] && sent[i] == CallEvent(LastId(parts), LastName(parts), TrimSpace(Arguments(parts))))
            && (forall i: nat | i >= |sent| :: PartsAt(json, seen, i) == [])
  {
    hide RunLines, SentCalls, Seen, Finish, SentTexts, PartsAt, LastId, LastName, Arguments, TrimSpace, AllValid,
         Contents, EndsWell;
    var s := RunLines(json, lines);
    SeenDecides(json, lines);
    LinesSay(json, Seen(json, lines));
    LinesCall(json, Seen(json, lines));
    FinishCount(json, s);
    FailEndsBadly(s, if readError.Some? then readError.value else "");
    if !s.halted {
      FinishCalls(json, s);
    }
  }

  /** A line that is not skipped is read without its "data:" prefix, if it has one. */
  lemma LineIs(line: string, data: string)
    requires TrimSpace(line) != "" && !HasPrefix(TrimSpace(line), ":")
    ensures TrimSpace(line) == DATA + data ==> LineData(line) == TrimSpace(data)
    ensures !HasPrefix(TrimSpace(line), DATA) ==> LineData(line) == TrimSpace(line)
  {
    hide TrimSpace;
    assert (DATA + data)[|DATA|..] == data;
  }

  /** A line that is no chunk, or an error of the server, ends the stream with that error. */
  lemma BadLineEnds(json: Json, s: State, line: string)
    requires !s.halted && !IsSkipped(line) && LineData(line) != "[DONE]"
    ensures var chunk, r := json.chunk(LineData(line)), Step(json, s, line);
            && (chunk.Err? ==> r.halted && r.out == s.out + [ErrorEvent(chunk.error)])
            && (chunk.Ok? && chunk.value.error.Some? ==>
               r.halted && r.out == s.out + [ErrorEvent(chunk.value.error.value)])
  {
    hide LineData, IsSkipped;
  }

  /** A failing read ends an open stream with its error; an ended one is left as it is. */
  lemma ReadErrorEnds(json: Json, s: State, error: string)
    ensures Close(json, s, Some(error)).out == s.out + if s.halted then [] else [ErrorEvent(error)]
  {
  }
}
