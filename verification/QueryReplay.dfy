/** Answering a question: the live answer is forwarded and captured, a later question
    with the same key replays the capture, and either is written out as server-sent
    events. */
module QueryReplay {
  import opened Text
  import Agent
  import SseFraming

  datatype Kind = Text | Chain | Warning | Done | Error

  /** chain is the JSON of a call chain; err the text of a present error. */
  datatype AgentEvent = AgentEvent(kind: Kind, content: string, chain: Option<string>, message: string,
    err: Option<string>)

  datatype CachedEvent = CachedEvent(kind: Kind, content: string, chain: Option<string>, message: string)

  /** A rendered event: the fields present beside its type. A chain may be null. */
  datatype Payload = Payload(kind: Kind, content: Option<string>, chain: Option<Option<string>>,
    message: Option<string>)

  // Capture and replay.

  predicate IsLast(e: AgentEvent) {
    e.kind == Error || e.kind == Done
  }

  function Captured(e: AgentEvent): CachedEvent {
    CachedEvent(e.kind, e.content, e.chain, if e.kind == Error && e.err.Some? then e.err.value else e.message)
  }

  function Revived(c: CachedEvent): AgentEvent {
    AgentEvent(c.kind, c.content, c.chain, c.message, if c.kind == Error && c.message != "" then Some(c.message)
      else None)
  }

  /** The part of a live answer that is forwarded: up to its first done or error. */
  function Forwarded(live: seq<AgentEvent>): seq<AgentEvent> {
    if live == [] then []
    else [live[0]] + if IsLast(live[0]) then [] else Forwarded(live[1..])
  }

  function AllCaptured(events: seq<AgentEvent>): seq<CachedEvent> {
    seq(|events|, i requires 0 <= i < |events| => Captured(events[i]))
  }

  function Capture(live: seq<AgentEvent>): seq<CachedEvent> {
    AllCaptured(Forwarded(live))
  }

  function Replay(cached: seq<CachedEvent>): seq<AgentEvent> {
    seq(|cached|, i requires 0 <= i < |cached| => Revived(cached[i]))
  }

  /** Query's forwarding goroutine. */
  method ForwardAndCapture(live: seq<AgentEvent>) returns (out: seq<AgentEvent>, captured: seq<CachedEvent>)
    ensures out == Forwarded(live)
    ensures captured == Capture(live)
  {
    ForwardedNone();
    hide Forwarded, AllCaptured;
    out, captured := [], [];
    assert live[0..] == live;
    for i := 0 to |live|
      invariant Forwarded(live) == out + Forwarded(live[i..])
      invariant captured == AllCaptured(out)
    {
      var e := live[i];
      ForwardedAt(live, i);
      AllCapturedGrows(out, e);
      ghost var before, rest := out, if IsLast(e) then [] else Forwarded(live[i + 1..]);
      assert before + ([e] + rest) == before + [e] + rest;
      out := out + [e];
      var c := CachedEvent(e.kind, e.content, e.chain, e.message);
      var persist := false;
      if e.kind == Error {
        if e.err.Some? {
          c := c.(message := e.err.value);
        }
        persist := true;
      }
      if e.kind == Done {
        persist := true;
      }
      assert c == Captured(e) && persist == IsLast(e);
      captured := captured + [c];
      if persist {
        assert before + [e] + [] == before + [e];
        return;
      }
    }
    ForwardedNone();
    assert live[|live|..] == [];
  }

  lemma ForwardedNone()
    ensures Forwarded([]) == [] && AllCaptured([]) == []
  {
  }

  lemma ForwardedAt(live: seq<AgentEvent>, i: nat)
    requires i < |live|
    ensures Forwarded(live[i..]) == [live[i]] + if IsLast(live[i]) then [] else Forwarded(live[i + 1..])
  {
    assert live[i..][1..] == live[i + 1..];
  }

  lemma AllCapturedGrows(events: seq<AgentEvent>, e: AgentEvent)
    ensures AllCaptured(events + [e]) == AllCaptured(events) + [Captured(e)]
  {
  }

  /** cachedEventsToChannel. */
  method CachedEventsToChannel(events: seq<CachedEvent>) returns (out: seq<AgentEvent>)
    ensures out == Replay(events)
  {
    out := [];
    for i := 0 to |events|
      invariant out == Replay(events[..i])
    {
      var item := AgentEvent(events[i].kind, events[i].content, events[i].chain, events[i].message, None);
      if item.kind == Error && item.message != "" {
        item := item.(err := Some(item.message));
      }
      out := out + [item];
    }
    assert events[..|events|] == events;
  }

  ghost predicate LastComesLast(events: seq<AgentEvent>) {
    forall i | 0 <= i < |events| - 1 :: !IsLast(events[i])
  }

  lemma LastOfTail(events: seq<AgentEvent>)
    requires events != []
    ensures LastComesLast(events) <==> LastComesLast(events[1..]) && (IsLast(events[0]) ==> |events| == 1)
  {
    hide IsLast;
    var tail := events[1..];
    if LastComesLast(tail) && (IsLast(events[0]) ==> |events| == 1) {
      forall i | 0 <= i < |events| - 1 ensures !IsLast(events[i]) {
        if i > 0 {
          assert events[i] == tail[i - 1];
        }
      }
    }
  }

  lemma {:induction false} ForwardedEndsAtLast(live: seq<AgentEvent>)
    ensures Forwarded(live) <= live && LastComesLast(Forwarded(live))
    ensures |Forwarded(live)| < |live| ==> Forwarded(live) != [] && IsLast(live[|Forwarded(live)| - 1])
    ensures Forwarded(live) == live <==> LastComesLast(live)
  {
    hide IsLast, LastComesLast;
    if live == [] {
      LastOfOne(live);
    } else {
      var heard := Forwarded(live);
      LastOfTail(live);
      LastOfTail(heard);
      if IsLast(live[0]) {
        LastOfOne(live);
        LastOfOne(heard);
      } else {
        ForwardedEndsAtLast(live[1..]);
        assert heard[1..] == Forwarded(live[1..]);
        assert live == [live[0]] + live[1..];
      }
    }
  }

  lemma LastOfOne(events: seq<AgentEvent>)
    ensures |events| <= 1 ==> LastComesLast(events)
  {
  }

  // Rendering.

  function ErrorMessage(e: AgentEvent): string {
    if e.err.Some? then e.err.value
    else if e.message != "" then e.message
    else "internal_error"
  }

  function Render(e: AgentEvent): Payload {
    if e.kind == Text then Payload(e.kind, Some(e.content), None, None)
    else if e.kind == Chain then Payload(e.kind, None, Some(e.chain), None)
    else if e.kind == Warning || e.kind == Done
      then Payload(e.kind, None, None, if e.message != "" then Some(e.message) else None)
    else Payload(e.kind, None, None, Some(ErrorMessage(e)))
  }

  /** The payloads of a stream of events: up to its first error. */
  function Payloads(stream: seq<AgentEvent>): seq<Payload> {
    if stream == [] then []
    else [Render(stream[0])] + if stream[0].kind == Error then [] else Payloads(stream[1..])
  }

  /** HandleQuery's writing loop. json is the encoder. */
  method WriteStream(json: Payload -> string, stream: seq<AgentEvent>) returns (body: string)
    ensures body == Body(json, Payloads(stream))
    ensures ReadsAs(json, stream, body)
  {
    hide Render, Frame, Body, ReadsAs;
    BodyReads(json, stream);
    EmptyBody(json);
    body := "";
    ghost var written: seq<Payload> := [];
    assert stream[0..] == stream;
    for i := 0 to |stream|
      invariant Payloads(stream) == written + Payloads(stream[i..])
      invariant body == Body(json, written)
    {
      assert stream[i..][0] == stream[i] && stream[i..][1..] == stream[i + 1..];
      BodyGrows(json, written, Render(stream[i]));
      body := body + Frame(json(Render(stream[i])));
      written := written + [Render(stream[i])];
      if stream[i].kind == Error {
        assert Payloads(stream) == written;
        return;
      }
    }
    assert Payloads(stream) == written;
  }

  /** writeSSEData. */
  function Frame(data: string): string {
    "data: " + data + "\n" + "\n"
  }

  function Body(json: Payload -> string, payloads: seq<Payload>): string {
    if payloads == [] then ""
    else Body(json, payloads[..|payloads| - 1]) + Frame(json(payloads[|payloads| - 1]))
  }

  lemma EmptyBody(json: Payload -> string)
    ensures Body(json, []) == ""
  {
  }

  lemma BodyGrows(json: Payload -> string, payloads: seq<Payload>, p: Payload)
    ensures Body(json, payloads + [p]) == Body(json, payloads) + Frame(json(p))
  {
    assert (payloads + [p])[..|payloads|] == payloads;
  }

  /** What JSON objects have in common: no line breaks, and braces around. */
  ghost predicate OneLine(data: string) {
    data != "" && '\n' !in data && !IsSpace(data[0]) && !IsSpace(data[|data| - 1])
  }

  lemma FrameData(data: string)
    requires OneLine(data)
    ensures SseFraming.Payload("data: " + data) == data
  {
    var line := "data: " + data;
    assert line[0] == 'd' && !HasPrefix(line, ":");
    assert line[..5] == SseFraming.DATA;
    assert TrimPrefix(line, SseFraming.DATA) == " " + data;
    assert (" " + data)[1..] == data;
    assert TrimLeft(" " + data) == data;
  }

  lemma FrameLines(body: string, data: string)
    requires OneLine(data)
    ensures Split(body + Frame(data), '\n') == Split(body + "data: " + data, '\n') + ["", ""]
  {
    SplitAtSeparator(body + "data: " + data, "", '\n');
    SplitAtSeparator(body + "data: " + data + "\n", "", '\n');
    assert body + Frame(data) == body + "data: " + data + "\n" + ['\n'] + "";
    assert body + "data: " + data + ['\n'] + "" == body + "data: " + data + "\n";
    assert Split("", '\n') == [""];
    assert [""] + [""] == ["", ""];
  }

  /** The lines of a body of whole frames end with a blank one and the empty rest. */
  ghost predicate IsWhole(body: string) {
    body == "" || exists before, last :: OneLine(last) && body == before + Frame(last)
  }

  /** What comes before the last line break of a body of whole frames. */
  lemma WholeLines(body: string) returns (lines: seq<string>, text: string)
    requires IsWhole(body)
    ensures if body == "" then lines == [] else body == text + ['\n'] && lines == Split(text, '\n')
    ensures lines == [] || lines[|lines| - 1] == ""
  {
    if body == "" {
      lines, text := [], "";
    } else {
      var before, last :| OneLine(last) && body == before + Frame(last);
      text := before + "data: " + last + "\n";
      SplitAtSeparator(before + "data: " + last, "", '\n');
      assert before + "data: " + last + ['\n'] + "" == text;
      assert body == text + ['\n'];
      assert Split("", '\n') == [""];
      lines := Split(text, '\n');
    }
  }

  /** What is written after whole frames starts a line of its own. */
  lemma SplitBeforeLine(body: string, line: string) returns (lines: seq<string>)
    requires IsWhole(body) && '\n' !in line
    ensures Split(body, '\n') == lines + [""] && Split(body + line, '\n') == lines + [line]
    ensures lines == [] || lines[|lines| - 1] == ""
  {
    hide IsWhole;
    var text: string;
    lines, text := WholeLines(body);
    assert Split("", '\n') == [""];
    hide Split;
    SplitWithoutSeparator(line, '\n');
    if body == "" {
      assert body + line == line;
    } else {
      SplitAtSeparator(text, "", '\n');
      SplitAtSeparator(text, line, '\n');
      assert text + ['\n'] + "" == body;
    }
  }

  /** One more frame after a body of whole frames is one more event. */
  lemma FrameIsEvent(body: string, data: string)
    requires OneLine(data) && IsWhole(body)
    ensures SseFraming.Events(Split(body + Frame(data), '\n')) == SseFraming.Events(Split(body, '\n')) + [data]
  {
    hide SseFraming.Events, SseFraming.Payload, Split, IsWhole, Frame;
    var line := "data: " + data;
    var lines := SplitBeforeLine(body, line);
    assert body + "data: " + data == body + line;
    FrameLines(body, data);
    FrameData(data);
    EventsOfFrame(lines, line);
    assert lines + [line] + ["", ""] == lines + [line] + [""] + [""];
  }

  lemma EventsOfFrame(lines: seq<string>, line: string)
    requires lines == [] || lines[|lines| - 1] == ""
    requires line != "" && SseFraming.Payload(line) != ""
    ensures SseFraming.Events(lines + [""]) == SseFraming.Events(lines)
    ensures SseFraming.Events(lines + [line] + [""] + [""]) == SseFraming.Events(lines) + [SseFraming.Payload(line)]
  {
    hide SseFraming.Events, SseFraming.Payload;
    SseFraming.ScanFrames(lines, "");
    SseFraming.ScanFrames(lines, line);
    SseFraming.ScanFrames(lines + [line], "");
    SseFraming.ScanFrames(lines + [line] + [""], "");
    assert SseFraming.Unended(lines) == [];
    assert SseFraming.Unended(lines + [line] + [""]) == [];
  }

  function Encoded(json: Payload -> string, payloads: seq<Payload>): seq<string> {
    seq(|payloads|, i requires 0 <= i < |payloads| => json(payloads[i]))
  }

  lemma BodyIsWhole(json: Payload -> string, payloads: seq<Payload>)
    requires forall p :: OneLine(json(p))
    ensures IsWhole(Body(json, payloads))
  {
    hide OneLine, Frame;
    if payloads != [] {
      var last := json(payloads[|payloads| - 1]);
      assert OneLine(last) && Body(json, payloads) == Body(json, payloads[..|payloads| - 1]) + Frame(last);
    }
  }

  /** A reader that follows the event-stream format gets back exactly the payloads
      written, one event each. */
  lemma {:induction false} BodyRoundTrip(json: Payload -> string, payloads: seq<Payload>)
    requires forall p :: OneLine(json(p))
    ensures SseFraming.Events(Split(Body(json, payloads), '\n')) == Encoded(json, payloads)
  {
    hide SseFraming.Events, OneLine, Frame, Split;
    if payloads == [] {
      NoLines();
    } else {
      var front, p := payloads[..|payloads| - 1], payloads[|payloads| - 1];
      BodyRoundTrip(json, front);
      BodyIsWhole(json, front);
      FrameIsEvent(Body(json, front), json(p));
      assert Encoded(json, payloads) == Encoded(json, front) + [json(p)];
    }
  }

  lemma NoLines()
    ensures SseFraming.Events(Split("", '\n')) == []
  {
    assert Split("", '\n') == [""];
    assert SseFraming.Blocks([""]) == [[]];
  }

  // Replaying gives the same answer.

  /** The only events a replay renders differently. */
  predicate IsBlankError(e: AgentEvent) {
    e.kind == Error && e.err == Some("")
  }

  lemma OneReadsTheSameIff(e: AgentEvent)
    ensures Render(Revived(Captured(e))) == Render(e) <==> !IsBlankError(e)
  {
  }

  lemma CaptureAt(live: seq<AgentEvent>, i: nat)
    requires i < |Forwarded(live)|
    ensures |Capture(live)| == |Forwarded(live)| && Capture(live)[i] == Captured(Forwarded(live)[i])
  {
  }

  /** A replay reads as the forwarded answer did exactly when no forwarded event is an
      error whose text is empty. */
  lemma ReplayReadsTheSameIff(live: seq<AgentEvent>)
    ensures Payloads(Replay(Capture(live))) == Payloads(Forwarded(live)) <==>
            forall e <- Forwarded(live) :: !IsBlankError(e)
  {
    ForwardedEndsAtLast(live);
    var heard := Forwarded(live);
    var again := Replay(Capture(live));
    assert |again| == |heard|;
    PayloadsInFull(heard);
    hide Forwarded, Payloads, Render, Capture;
    forall i | 0 <= i < |heard|
      ensures again[i].kind == heard[i].kind && (Render(heard[i]) == Render(again[i]) <==> !IsBlankError(heard[i]))
    {
      OneReadsTheSameIff(heard[i]);
      assert again[i] == Revived(Captured(heard[i])) by {
        CaptureAt(live, i);
      }
    }
    PayloadsInFull(again);
    if forall i | 0 <= i < |heard| :: Render(heard[i]) == Render(again[i]) {
      assert Payloads(heard) == Payloads(again);
    }
  }

  /** A stream whose events stop at the first done or error is rendered in full. */
  lemma {:induction false} PayloadsInFull(stream: seq<AgentEvent>)
    requires LastComesLast(stream)
    ensures |Payloads(stream)| == |stream|
    ensures forall i | 0 <= i < |stream| :: Payloads(stream)[i] == Render(stream[i])
  {
    if stream != [] {
      assert forall i | 0 <= i < |stream[1..]| :: stream[1..][i] == stream[i + 1];
      PayloadsInFull(stream[1..]);
    }
  }

  function Sent(e: Agent.AgentEvent): AgentEvent {
    match e
    case TextEvent(content) => AgentEvent(Text, content, None, "", None)
    case ChainEvent(chain) => AgentEvent(Chain, "", Some(chain), "", None)
    case WarningEvent(message) => AgentEvent(Warning, "", None, message, None)
    case DoneEvent(message) => AgentEvent(Done, "", None, message, None)
    case FailedEvent(error) => AgentEvent(Error, "", None, "", Some(error))
  }

  function AllSent(events: seq<Agent.AgentEvent>): seq<AgentEvent> {
    seq(|events|, i requires 0 <= i < |events| => Sent(events[i]))
  }

  /** Of the agent's own answers nothing is cut off, and every replay reads the same
      when the agent's errors have a text. */
  lemma AgentAnswersReplay(events: seq<Agent.AgentEvent>)
    requires Agent.EndsAtTerminal(events)
    ensures Forwarded(AllSent(events)) == AllSent(events)
    ensures Payloads(Replay(Capture(AllSent(events)))) == Payloads(AllSent(events)) <==>
            Agent.FailedEvent("") !in events
  {
    hide Forwarded, Payloads, Capture, Replay, Sent, AllSent;
    SentIs(events, 0);
    var live := AllSent(events);
    forall i | 0 <= i < |live|
      ensures (IsLast(live[i]) <==> Agent.IsTerminal(events[i]))
      ensures (IsBlankError(live[i]) <==> events[i] == Agent.FailedEvent(""))
    {
      SentIs(events, i);
    }
    ForwardedEndsAtLast(live);
    ReplayReadsTheSameIff(live);
    if Agent.FailedEvent("") in events {
      var i :| 0 <= i < |events| && events[i] == Agent.FailedEvent("");
      assert live[i] in live && IsBlankError(live[i]);
    }
  }

  lemma SentIs(events: seq<Agent.AgentEvent>, i: nat)
    ensures |AllSent(events)| == |events|
    ensures i < |events| ==>
      var e := AllSent(events)[i];
      (IsLast(e) <==> Agent.IsTerminal(events[i])) && (IsBlankError(e) <==> events[i] == Agent.FailedEvent(""))
  {
  }

  // What is shown, apart from how it is rendered.

  /** The payload shows the event: its text, its chain, its message if there is one, or what
      is known of its error. */
  ghost predicate Shows(e: AgentEvent, p: Payload) {
    && p.kind == e.kind
    && (p.content.Some? <==> e.kind == Text) && (p.chain.Some? <==> e.kind == Chain)
    && (e.kind == Text ==> p.content.value == e.content)
    && (e.kind == Chain ==> p.chain.value == e.chain)
    && (e.kind == Text || e.kind == Chain ==> p.message.None?)
    && (e.kind == Warning || e.kind == Done ==>
          && (p.message.Some? <==> e.message != "") && (p.message.Some? ==> p.message.value == e.message))
    && (e.kind == Error ==>
          && p.message.Some?
          && (e.err.Some? ==> p.message.value == e.err.value)
          && (e.err.None? && e.message != "" ==> p.message.value == e.message)
          && (e.err.None? && e.message == "" ==> p.message.value == "internal_error"))
  }

  /** The payloads show the events one by one, up to the first error and it included. */
  ghost predicate ShowsAll(stream: seq<AgentEvent>, payloads: seq<Payload>) {
    && |payloads| <= |stream|
    && (forall i | 0 <= i < |payloads| :: Shows(stream[i], payloads[i]))
    && (forall i | 0 <= i < |payloads| - 1 :: stream[i].kind != Error)
    && (|payloads| < |stream| ==> payloads != [] && stream[|payloads| - 1].kind == Error)
  }

  /** If the encoder writes one line, a reader of the body gets payloads that show the events. */
  ghost predicate ReadsAs(json: Payload -> string, stream: seq<AgentEvent>, body: string) {
    (forall p :: OneLine(json(p))) ==>
      exists payloads ::
        && ShowsAll(stream, payloads)
        && SseFraming.Events(Split(body, '\n')) == Encoded(json, payloads)
  }

  lemma BodyReads(json: Payload -> string, stream: seq<AgentEvent>)
    ensures ReadsAs(json, stream, Body(json, Payloads(stream)))
  {
    hide Render, Frame, Body, OneLine, SseFraming.Events, ShowsAll, Split;
    PayloadsShow(stream);
    if forall p :: OneLine(json(p)) {
      BodyRoundTrip(json, Payloads(stream));
    }
  }

  lemma RenderShows(e: AgentEvent)
    ensures Shows(e, Render(e))
  {
  }

  lemma {:induction false} PayloadsShow(stream: seq<AgentEvent>)
    ensures ShowsAll(stream, Payloads(stream))
  {
    hide Render, Shows;
    if stream != [] {
      RenderShows(stream[0]);
      var shown := Payloads(stream);
      if stream[0].kind != Error {
        PayloadsShow(stream[1..]);
        assert shown[1..] == Payloads(stream[1..]);
        assert forall i | 0 < i < |stream| :: stream[i] == stream[1..][i - 1];
        forall i | 0 <= i < |shown| ensures Shows(stream[i], shown[i]) {
          if i > 0 {
            assert shown[i] == shown[1..][i - 1];
          }
        }
      }
    }
  }

  /** The texts shown, in order. */
  function ShownTexts(payloads: seq<Payload>): seq<string> {
    if payloads == [] then []
    else
      var p := payloads[|payloads| - 1];
      ShownTexts(payloads[..|payloads| - 1]) + if p.kind == Text && p.content.Some? then [p.content.value] else []
  }

  function AgentTexts(events: seq<Agent.AgentEvent>): seq<string> {
    if events == [] then []
    else
      var e := events[|events| - 1];
      AgentTexts(events[..|events| - 1]) + if e.TextEvent? then [e.content] else []
  }

  /** What an agent's event says, as the reader of its payload is told. */
  ghost predicate Conveys(e: Agent.AgentEvent, p: Payload) {
    match e
    case TextEvent(content) => p == Payload(Text, Some(content), None, None)
    case ChainEvent(chain) => p == Payload(Chain, None, Some(Some(chain)), None)
    case WarningEvent(message) => p.kind == Warning && (message != "" ==> p.message == Some(message))
    case DoneEvent(message) => p.kind == Done && (message != "" ==> p.message == Some(message))
    case FailedEvent(error) => p == Payload(Error, None, None, Some(error))
  }

  lemma SentConveys(e: Agent.AgentEvent, p: Payload)
    requires Shows(Sent(e), p)
    ensures Conveys(e, p)
  {
  }

  /** Of an agent's answer every event arrives, saying what it said; and so do its texts, in
      order. */
  lemma AgentAnswerArrives(events: seq<Agent.AgentEvent>)
    requires Agent.EndsAtTerminal(events)
    ensures var shown := Payloads(AllSent(events));
            && |shown| == |events|
            && (forall i | 0 <= i < |events| :: Conveys(events[i], shown[i]))
            && ShownTexts(shown) == AgentTexts(events)
  {
    hide Payloads, Shows, Conveys, Agent.IsTerminal, AllSent, Sent;
    var live, shown := AllSent(events), Payloads(AllSent(events));
    PayloadsShow(live);
    SentIs(events, 0);
    forall i | 0 <= i < |events| - 1 ensures live[i].kind != Error {
      SentIs(events, i);
      assert !Agent.IsTerminal(events[i]);
    }
    assert |shown| == |events|;
    forall i | 0 <= i < |events| ensures Conveys(events[i], shown[i]) {
      AllSentAt(events, i);
      SentConveys(events[i], shown[i]);
    }
    SameTexts(events, shown);
  }

  lemma AllSentAt(events: seq<Agent.AgentEvent>, i: nat)
    requires i < |events|
    ensures |AllSent(events)| == |events| && AllSent(events)[i] == Sent(events[i])
  {
  }

  lemma {:induction false} SameTexts(events: seq<Agent.AgentEvent>, shown: seq<Payload>)
    requires |shown| == |events| && forall i | 0 <= i < |events| :: Conveys(events[i], shown[i])
    ensures ShownTexts(shown) == AgentTexts(events)
  {
    if events != [] {
      SameTexts(events[..|events| - 1], shown[..|shown| - 1]);
      assert Conveys(events[|events| - 1], shown[|events| - 1]);
    }
  }

  // The cache over whole runs.

  predicate IsHex(c: char) {
    '0' <= c <= '9' || 'a' <= c <= 'f' || 'A' <= c <= 'F'
  }

  predicate IsDashed(s: string) {
    && |s| >= 36
    && s[8] == '-' && s[13] == '-' && s[18] == '-' && s[23] == '-'
    && forall i | 0 <= i < 36 && i != 8 && i != 13 && i != 18 && i != 23 :: IsHex(s[i])
  }

  predicate IsUrn(s: string)
    requires |s| >= 9
  {
    forall i | 0 <= i < 9 :: s[i] == "urn:uuid:"[i] || s[i] == "URN:UUID:"[i]
  }

  /** The spellings uuid.Parse takes: dashed, between any two characters (meant for
      braces), after "urn:uuid:", or plain. */
  predicate IsUuid(s: string) {
    || (|s| == 36 && IsDashed(s))
    || (|s| == 38 && IsDashed(s[1..]))
    || (|s| == 45 && IsUrn(s) && IsDashed(s[9..]))
    || (|s| == 32 && forall i | 0 <= i < 32 :: IsHex(s[i]))
  }

  /** The key before hashing; SHA-256 is taken to be free of collisions. */
  function CacheKey(repoId: string, question: string): string {
    repoId + ":" + question
  }

  /** A colon after one repository id never falls inside another. */
  lemma CacheKeyInjective(r1: string, q1: string, r2: string, q2: string)
    requires IsUuid(r1) && IsUuid(r2) && CacheKey(r1, q1) == CacheKey(r2, q2)
    ensures r1 == r2 && q1 == q2
  {
    if |r1| < |r2| {
      NoColonAt(r1, r2, q1, q2);
    } else if |r2| < |r1| {
      NoColonAt(r2, r1, q2, q1);
    }
    var k := CacheKey(r1, q1);
    assert r1 == k[..|r1|] && r2 == k[..|r2|];
    assert q1 == k[|r1| + 1..] && q2 == k[|r2| + 1..];
  }

  lemma NoColonAt(r1: string, r2: string, q1: string, q2: string)
    requires IsUuid(r1) && IsUuid(r2) && |r1| < |r2|
    ensures CacheKey(r1, q1) != CacheKey(r2, q2)
  {
    var n := |r1|;
    assert CacheKey(r1, q1)[n] == ':';
    assert CacheKey(r2, q2)[n] == r2[n];
    if |r2| == 38 {
      assert r2[n] == r2[1..][n - 1];
    } else if |r2| == 45 {
      assert r2[n] == r2[9..][n - 9];
    }
  }

  datatype QueryError = NotFound | NotReady(status: string) | Failed(error: string)

  datatype Answer = Refused(error: QueryError) | Stream(events: seq<AgentEvent>)

  /** A question and its surroundings: the status of the repository or the failure to
      read it, the failure of the cache read if it fails, and what the agent would answer. */
  datatype Question = Question(
    repoId: string,
    question: string,
    status: Result<string>,
    readError: Option<string>,
    live: seq<AgentEvent>)

  type Cache = map<string, seq<CachedEvent>>

  predicate IsReady(q: Question) {
    && IsUuid(q.repoId) && q.status.Ok? && (q.status.value == "indexed" || q.status.value == "partial")
    && q.readError.None?
  }

  predicate IsHit(cache: Cache, q: Question) {
    CacheKey(q.repoId, q.question) in cache && cache[CacheKey(q.repoId, q.question)] != []
  }

  function Respond(cache: Cache, q: Question): Answer {
    if !IsUuid(q.repoId) then Refused(NotFound)
    else if q.status.Err? then Refused(if q.status.error == "repo_not_found" then NotFound else Failed(q.status.error))
    else if q.status.value != "indexed" && q.status.value != "partial" then Refused(NotReady(q.status.value))
    else if q.readError.Some? then Refused(Failed(q.readError.value))
    else if IsHit(cache, q) then Stream(Replay(cache[CacheKey(q.repoId, q.question)]))
    else Stream(Forwarded(q.live))
  }

  /** What a live answer leaves to be written; nothing is written for an empty one. */
  function ToStore(cache: Cache, q: Question): seq<CachedEvent> {
    if IsReady(q) && !IsHit(cache, q) then Capture(q.live) else []
  }

  function Stored(cache: Cache, key: string, events: seq<CachedEvent>): Cache {
    if events == [] then cache else cache[key := events]
  }

  class QueryService {
    var cache: Cache

    constructor ()
      ensures cache == map[]
    {
      cache := map[];
    }

    /** The answer, and the capture that a goroutine of its own will write later. */
    method Query(q: Question) returns (answer: Answer, captured: seq<CachedEvent>)
      ensures answer == Respond(cache, q)
      ensures answer == Refused(NotFound) <==> !IsUuid(q.repoId) || q.status == Err("repo_not_found")
      ensures forall status :: answer == Refused(NotReady(status)) <==>
                IsUuid(q.repoId) && q.status == Ok(status) && status != "indexed" && status != "partial"
      ensures forall error :: answer == Refused(Failed(error)) <==>
                && IsUuid(q.repoId)
                && ((q.status == Err(error) && error != "repo_not_found")
                    || (q.readError == Some(error) && (q.status == Ok("indexed") || q.status == Ok("partial"))))
      ensures answer.Stream? <==>
                IsUuid(q.repoId) && (q.status == Ok("indexed") || q.status == Ok("partial")) && q.readError.None?
      ensures captured == ToStore(cache, q)
    {
      if !IsUuid(q.repoId) {
        return Refused(NotFound), [];
      }
      if q.status.Err? {
        return Refused(if q.status.error == "repo_not_found" then NotFound else Failed(q.status.error)), [];
      }
      var status := q.status.value;
      if status != "indexed" && status != "partial" {
        return Refused(NotReady(status)), [];
      }
      var key := CacheKey(q.repoId, q.question);
      if q.readError.Some? {
        return Refused(Failed(q.readError.value)), [];
      }
      var cached := if key in cache then cache[key] else [];
      if |cached| > 0 {
        var events := CachedEventsToChannel(cached);
        return Stream(events), [];
      }
      var out;
      out, captured := ForwardAndCapture(q.live);
      answer := Stream(out);
    }

    /** QueryCache.Set; a write that fails is ignored. */
    method CacheSet(key: string, events: seq<CachedEvent>) returns (ok: bool)
      modifies this
      ensures cache == if ok then Stored(old(cache), key, events) else old(cache)
    {
      ok := *;
      if ok && |events| > 0 {
        cache := cache[key := events];
      }
    }
  }

  /** A question asked and answered, the later write of the capture of an earlier one, or
      the end of a cache entry's time. Questions overlap: others may be asked in between. */
  datatype Step = Asked(question: Question) | Written(asked: nat) | Expired(key: string)

  function CacheOf(history: seq<Step>): Cache {
    if history == [] then map[]
    else
      var front := history[..|history| - 1];
      var before := CacheOf(front);
      match history[|history| - 1]
      case Asked(_) => before
      case Written(i) =>
        if i < |front| && front[i].Asked? then
          var q := front[i].question;
          Stored(before, CacheKey(q.repoId, q.question), ToStore(CacheOf(front[..i]), q))
        else before
      case Expired(key) => before - {key}
  }

  /** history[i] asked the question of this key when it was not in the cache. */
  ghost predicate IsOrigin(history: seq<Step>, i: nat, key: string) {
    && i < |history| && history[i].Asked?
    && IsReady(history[i].question) && !IsHit(CacheOf(history[..i]), history[i].question)
    && CacheKey(history[i].question.repoId, history[i].question.question) == key
  }

  lemma {:induction false} EntriesHaveOrigins(history: seq<Step>, key: string)
    requires key in CacheOf(history)
    ensures exists i: nat :: IsOrigin(history, i, key) && CacheOf(history)[key] == Capture(history[i].question.live)
  {
    hide Capture, IsReady, IsHit, CacheKey;
    var n := |history| - 1;
    var front := history[..n];
    if key in CacheOf(front) && CacheOf(history)[key] == CacheOf(front)[key] {
      EntriesHaveOrigins(front, key);
      var i: nat :| IsOrigin(front, i, key) && CacheOf(front)[key] == Capture(front[i].question.live);
      assert front[..i] == history[..i];
      assert IsOrigin(history, i, key);
    } else {
      var i := history[n].asked;
      assert front[..i] == history[..i];
      assert IsOrigin(history, i, key);
    }
  }

  /** Once the capture of a live answer is written, the same question is a hit. */
  lemma WrittenAnswersHit(history: seq<Step>, i: nat)
    requires i < |history| && history[i].Asked? && history[i].question.live != []
    requires IsReady(history[i].question) && !IsHit(CacheOf(history[..i]), history[i].question)
    ensures var cache, q := CacheOf(history + [Written(i)]), history[i].question;
            IsHit(cache, q) && Respond(cache, q) == Stream(Replay(Capture(q.live)))
  {
    hide CacheKey, Capture, IsReady, IsHit, Respond;
    var all, q := history + [Written(i)], history[i].question;
    assert all[..|history|] == history;
    CaptureOfAny(q.live);
    assert ToStore(CacheOf(history[..i]), q) == Capture(q.live);
    assert CacheOf(all) == Stored(CacheOf(history), CacheKey(q.repoId, q.question), Capture(q.live));
    HitResponds(CacheOf(all), q, Capture(q.live));
  }

  lemma CaptureOfAny(live: seq<AgentEvent>)
    ensures Capture(live) == [] <==> live == []
  {
  }

  lemma HitResponds(cache: Cache, q: Question, captured: seq<CachedEvent>)
    requires IsReady(q) && captured != []
    requires CacheKey(q.repoId, q.question) in cache && cache[CacheKey(q.repoId, q.question)] == captured
    ensures IsHit(cache, q) && Respond(cache, q) == Stream(Replay(captured))
  {
    hide CacheKey, Replay, IsUuid;
  }

  /** history[i] asked the same question about the same repository, and was answered live. */
  ghost predicate IsLiveTwin(history: seq<Step>, i: nat, q: Question) {
    && i < |history| && history[i].Asked?
    && history[i].question.repoId == q.repoId && history[i].question.question == q.question
    && Respond(CacheOf(history[..i]), history[i].question) == Stream(Forwarded(history[i].question.live))
  }

  /** After any run of the service, an answer taken from the cache repeats an answer
      given live before to the same question about the same repository; it reads the
      same exactly when that one had no error without a text. */
  lemma HitsRepeatLiveAnswers(history: seq<Step>, q: Question)
    requires IsReady(q) && IsHit(CacheOf(history), q)
    ensures exists i: nat ::
              && IsLiveTwin(history, i, q)
              && Respond(CacheOf(history), q) == Stream(Replay(Capture(history[i].question.live)))
              && ((Payloads(Replay(Capture(history[i].question.live))) == Payloads(Forwarded(history[i].question.live)))
                  <==> (forall e <- Forwarded(history[i].question.live) :: !IsBlankError(e)))
  {
    hide CacheOf, Forwarded, Payloads, Replay, Capture, IsUuid, CacheKey, IsBlankError;
    var key := CacheKey(q.repoId, q.question);
    EntriesHaveOrigins(history, key);
    var i: nat :| IsOrigin(history, i, key) && CacheOf(history)[key] == Capture(history[i].question.live);
    CacheKeyInjective(history[i].question.repoId, history[i].question.question, q.repoId, q.question);
    ReplayReadsTheSameIff(history[i].question.live);
    assert IsLiveTwin(history, i, q);
  }
}
