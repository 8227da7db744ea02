/** The agent loop: requests to the model, dispatch of its tool calls, the ending of
    the event stream, and the lossy channel the events go through. */
module Agent {
  import opened Text

  /** The parts of a tool call's input the agent looks at: its string arguments, and
      the chain of a submission. */
  datatype ChainField = Missing | Malformed(error: string) | Chain(chain: string)

  datatype Input = Input(args: map<string, string>, chain: ChainField)

  datatype ToolCall = ToolCall(id: string, name: string, input: Input)

  datatype Message =
    | User(content: string)
    | Assistant(content: string, calls: seq<ToolCall>)
    | ToolResult(callId: string, content: string)

  datatype LlmEvent = TextChunk(text: string) | CallEvent(call: ToolCall) | ErrorEvent(error: string) | TurnDone

  datatype AgentEvent =
    | TextEvent(content: string)
    | ChainEvent(chain: string)
    | WarningEvent(message: string)
    | DoneEvent(message: string)
    | FailedEvent(error: string)

  datatype Context = Alive | DeadlineExceeded | Canceled

  /** The agent's surroundings: the state of its context at the start and before each
      request, the model's answer to each request, and the answer of the tools, by
      the number of calls before. */
  datatype Env = Env(
    contextAtStart: Context,
    context: nat -> Context,
    llm: (nat, seq<Message>) -> Result<seq<LlmEvent>>,
    tools: (nat, string, string, string) -> Result<string>)

  const CALL_LIMIT: nat := 20

  const SUBMIT := "submit_chain_result"

  // One turn of the model.

  /** The events of a turn up to its first error. */
  function Heard(events: seq<LlmEvent>): seq<LlmEvent> {
    if events == [] || events[0].ErrorEvent? then [] else [events[0]] + Heard(events[1..])
  }

  function TurnError(events: seq<LlmEvent>): Option<string> {
    if events == [] then None
    else if events[0].ErrorEvent? then Some(events[0].error)
    else TurnError(events[1..])
  }

  function TurnText(events: seq<LlmEvent>): string {
    if events == [] then ""
    else TurnText(events[..|events| - 1]) + if events[|events| - 1].TextChunk? then events[|events| - 1].text else ""
  }

  function TurnCalls(events: seq<LlmEvent>): seq<ToolCall> {
    if events == [] then []
    else TurnCalls(events[..|events| - 1]) + if events[|events| - 1].CallEvent? then [events[|events| - 1].call] else []
  }

  /** A text event for each non-empty chunk. */
  function TurnEvents(events: seq<LlmEvent>): seq<AgentEvent> {
    if events == [] then []
    else
      var e := events[|events| - 1];
      TurnEvents(events[..|events| - 1]) + if e.TextChunk? && e.text != "" then [TextEvent(e.text)] else []
  }

  // Tool calls.

  function StringArg(input: Input, key: string): string {
    if key in input.args then input.args[key] else ""
  }

  /** The argument a tool cannot do without. */
  function RequiredArg(name: string): Option<string> {
    if name == "get_function_source" || name == "get_callees" || name == "get_callers" then Some("function_name")
    else if name == "search_similar_code" then Some("query")
    else None
  }

  function ExecuteToolCall(env: Env, before: nat, call: ToolCall, repoId: string): Result<string> {
    var toolRepo := StringArg(call.input, "repo_id");
    var repo := if toolRepo != "" then toolRepo else repoId;
    match RequiredArg(call.name)
    case None => Err("unknown tool: " + call.name)
    case Some(key) =>
      var arg := StringArg(call.input, key);
      if arg == "" then Err(call.name + " requires " + key)
      else env.tools(before, call.name, repo, arg)
  }

  datatype Verdict = Continue | Truncated | Submitted(chain: string) | Refused(error: string)

  /** parseChainFromInput, and what becomes of the run. */
  function Submission(chain: ChainField): (v: Verdict)
    ensures !v.Continue?
  {
    match chain
    case Missing => Refused("submit_chain_result missing chain")
    case Malformed(error) => Refused(error)
    case Chain(c) => Submitted(c)
  }

  datatype Dispatched = Dispatched(results: seq<string>, verdict: Verdict)

  /** The calls of one turn in order, count calls having come before: stop at the
      limit, at a submission, or at a tool that fails. */
  function Dispatch(env: Env, repoId: string, calls: seq<ToolCall>, count: nat): Dispatched {
    if calls == [] then Dispatched([], Continue)
    else if count + 1 >= CALL_LIMIT then Dispatched([], Truncated)
    else if calls[0].name == SUBMIT then
      Dispatched([], Submission(calls[0].input.chain))
    else
      match ExecuteToolCall(env, count, calls[0], repoId)
      case Err(error) => Dispatched([], Refused(error))
      case Ok(result) =>
        var rest := Dispatch(env, repoId, calls[1..], count + 1);
        Dispatched([result] + rest.results, rest.verdict)
  }

  // What a tool call means, apart from the code that dispatches it.

  predicate IsFunctionTool(name: string) {
    name == "get_function_source" || name == "get_callees" || name == "get_callers"
  }

  /** The argument the call was given under the key, if it is not empty. */
  predicate Gives(call: ToolCall, key: string, arg: string) {
    key in call.input.args && call.input.args[key] == arg && arg != ""
  }

  /** The repo the call is about: its own, if it names one, or that of the run. */
  ghost predicate IsAbout(call: ToolCall, runRepo: string, repo: string) {
    Gives(call, "repo_id", repo) || ((forall own :: !Gives(call, "repo_id", own)) && repo == runRepo)
  }

  /** The call, with this many before it, reached its tool, which gave this answer. */
  ghost predicate Reached(env: Env, call: ToolCall, before: nat, runRepo: string, answer: Result<string>) {
    exists repo, arg ::
      && IsAbout(call, runRepo, repo)
      && ((IsFunctionTool(call.name) && Gives(call, "function_name", arg))
          || (call.name == "search_similar_code" && Gives(call, "query", arg)))
      && env.tools(before, call.name, repo, arg) == answer
  }

  /** The call fails: no such tool, no argument, or the tool's own failure. */
  ghost predicate Fails(env: Env, call: ToolCall, before: nat, runRepo: string, error: string) {
    || (!IsFunctionTool(call.name) && call.name != "search_similar_code" && error == "unknown tool: " + call.name)
    || (IsFunctionTool(call.name) && (forall arg :: !Gives(call, "function_name", arg))
        && error == call.name + " requires function_name")
    || (call.name == "search_similar_code" && (forall arg :: !Gives(call, "query", arg))
        && error == call.name + " requires query")
    || Reached(env, call, before, runRepo, Err(error))
  }

  /** A submission ends the run with its chain, or with what is wrong with it. */
  ghost predicate Submits(call: ToolCall, v: Verdict) {
    && call.name == SUBMIT
    && match call.input.chain
       case Missing => v == Refused("submit_chain_result missing chain")
       case Malformed(error) => v == Refused(error)
       case Chain(chain) => v == Submitted(chain)
  }

  /** The calls of a turn, count calls having come before: results in order from the tools
      they name, and the verdict decided by the first call that gives none. */
  ghost predicate Handled(env: Env, runRepo: string, calls: seq<ToolCall>, count: nat, results: seq<string>,
                          v: Verdict) {
    && |results| <= |calls|
    && (forall k | 0 <= k < |results| ::
          && calls[k].name != SUBMIT && count + k + 1 < CALL_LIMIT
          && Reached(env, calls[k], count + k, runRepo, Ok(results[k])))
    && (v.Continue? <==> |results| == |calls|)
    && (|results| < |calls| ==>
          var call, before := calls[|results|], count + |results|;
          if before + 1 >= CALL_LIMIT then v == Truncated
          else if call.name == SUBMIT then Submits(call, v)
          else exists error :: v == Refused(error) && Fails(env, call, before, runRepo, error))
  }

  lemma ExecutedMeans(env: Env, before: nat, call: ToolCall, runRepo: string)
    ensures match ExecuteToolCall(env, before, call, runRepo)
            case Ok(result) => Reached(env, call, before, runRepo, Ok(result))
            case Err(error) => Fails(env, call, before, runRepo, error)
  {
    hide StringArg, Gives;
    var own := StringArg(call.input, "repo_id");
    ArgIsGiven(call, "repo_id");
    assert IsAbout(call, runRepo, if own != "" then own else runRepo);
    ToolNames();
    ArgIsGiven(call, "query");
    ArgIsGiven(call, "function_name");
  }

  lemma ArgIsGiven(call: ToolCall, key: string)
    ensures var arg := StringArg(call.input, key);
            if arg != "" then Gives(call, key, arg) else forall other :: !Gives(call, key, other)
  {
  }

  lemma ToolNames()
    ensures !IsFunctionTool("search_similar_code")
  {
    assert "search_similar_code"[0] == 's' && "get_callees"[0] == 'g' && "get_callers"[0] == 'g';
    assert "get_function_source"[0] == 'g';
  }

  lemma {:induction false} DispatchMeans(env: Env, runRepo: string, calls: seq<ToolCall>, count: nat)
    ensures var d := Dispatch(env, runRepo, calls, count); Handled(env, runRepo, calls, count, d.results, d.verdict)
  {
    hide ExecuteToolCall, Reached, Fails;
    if calls != [] && count + 1 < CALL_LIMIT && calls[0].name != SUBMIT {
      ExecutedMeans(env, count, calls[0], runRepo);
      if ExecuteToolCall(env, count, calls[0], runRepo).Ok? {
        var d := Dispatch(env, runRepo, calls, count);
        var rest := Dispatch(env, runRepo, calls[1..], count + 1);
        DispatchMeans(env, runRepo, calls[1..], count + 1);
        assert d.results[1..] == rest.results;
        forall k | 0 <= k < |d.results|
          ensures calls[k].name != SUBMIT && count + k + 1 < CALL_LIMIT
          ensures Reached(env, calls[k], count + k, runRepo, Ok(d.results[k]))
        {
          if k > 0 {
            assert calls[k] == calls[1..][k - 1] && d.results[k] == rest.results[k - 1];
          }
        }
        if |d.results| < |calls| {
          assert calls[|d.results|] == calls[1..][|rest.results|];
        }
      }
    }
  }

  // The conversation.

  /** A completed turn: the assistant's message and one result for each of its calls. */
  datatype Block = Block(text: string, calls: seq<ToolCall>, results: seq<string>)

  function ResultMessages(b: Block): seq<Message>
    requires |b.results| == |b.calls|
  {
    seq(|b.calls|, i requires 0 <= i < |b.calls| => ToolResult(b.calls[i].id, b.results[i]))
  }

  function BlockMessages(b: Block): seq<Message>
    requires |b.results| == |b.calls|
  {
    [Assistant(b.text, b.calls)] + ResultMessages(b)
  }

  ghost predicate Balanced(blocks: seq<Block>) {
    forall b <- blocks :: |b.results| == |b.calls| && |b.calls| >= 1
  }

  /** The question followed by the blocks: each assistant message with its calls, then
      their results in the same order under the same ids. */
  ghost function Transcript(question: string, blocks: seq<Block>): seq<Message>
    requires Balanced(blocks)
  {
    if blocks == [] then [User(question)]
    else Transcript(question, blocks[..|blocks| - 1]) + BlockMessages(blocks[|blocks| - 1])
  }

  function CallCount(blocks: seq<Block>): nat {
    if blocks == [] then 0 else CallCount(blocks[..|blocks| - 1]) + |blocks[|blocks| - 1].calls|
  }

  lemma {:induction false} BlocksUnderLimit(blocks: seq<Block>)
    requires Balanced(blocks)
    ensures |blocks| <= CallCount(blocks)
  {
    if blocks != [] {
      assert blocks[|blocks| - 1] in blocks;
      BlocksUnderLimit(blocks[..|blocks| - 1]);
    }
  }

  /** The turn answering the transcript of the earlier blocks went through completely
      and became this block. */
  ghost predicate IsTurn(env: Env, question: string, repoId: string, before: seq<Block>, b: Block)
    requires Balanced(before)
  {
    && env.context(|before|) == Alive
    && var answer := env.llm(|before|, Transcript(question, before));
       && answer.Ok? && TurnError(answer.value) == None
       && b.text == TurnText(answer.value) && b.calls == TurnCalls(answer.value) && b.calls != []
       && Dispatch(env, repoId, b.calls, CallCount(before)) == Dispatched(b.results, Continue)
  }

  ghost predicate AreTurns(env: Env, question: string, repoId: string, blocks: seq<Block>) {
    && Balanced(blocks)
    && (blocks != [] ==>
          && Balanced(blocks[..|blocks| - 1])
          && AreTurns(env, question, repoId, blocks[..|blocks| - 1])
          && IsTurn(env, question, repoId, blocks[..|blocks| - 1], blocks[|blocks| - 1]))
  }

  ghost function TextsOf(env: Env, question: string, blocks: seq<Block>): seq<AgentEvent>
    requires Balanced(blocks)
  {
    if blocks == [] then []
    else
      var before := blocks[..|blocks| - 1];
      var answer := env.llm(|before|, Transcript(question, before));
      TextsOf(env, question, before) + if answer.Ok? then TurnEvents(answer.value) else []
  }

  function ContextEnding(c: Context): seq<AgentEvent>
    requires c != Alive
  {
    if c.DeadlineExceeded? then [WarningEvent("timeout"), DoneEvent("timeout")] else [FailedEvent("context canceled")]
  }

  function VerdictEnding(v: Verdict): seq<AgentEvent>
    requires !v.Continue?
  {
    match v
    case Truncated => [WarningEvent("response truncated: tool call limit reached"), DoneEvent("truncated")]
    case Submitted(chain) => [ChainEvent(chain), DoneEvent("submitted")]
    case Refused(error) => [FailedEvent(error)]
  }

  /** How the stream ends after the completed blocks: the texts of a last, incomplete
      turn and the ending itself; None when the turn completes instead. */
  ghost function Finale(env: Env, question: string, repoId: string, blocks: seq<Block>): Option<(seq<AgentEvent>,
                        seq<AgentEvent>)>
    requires Balanced(blocks)
  {
    var m := |blocks|;
    if env.context(m) != Alive then Some(([], ContextEnding(env.context(m))))
    else
      match env.llm(m, Transcript(question, blocks))
      case Err(error) => Some(([], [FailedEvent(error)]))
      case Ok(events) =>
        var texts := TurnEvents(Heard(events));
        match TurnError(events)
        case Some(error) => Some((texts, [FailedEvent(error)]))
        case None =>
          if TurnCalls(events) == [] then Some((texts, [DoneEvent("completed")]))
          else
            var d := Dispatch(env, repoId, TurnCalls(events), CallCount(blocks));
            if d.verdict.Continue? then None else Some((texts, VerdictEnding(d.verdict)))
  }

  /** One of the endings: done; warning, done; chain, done; or error. */
  predicate IsEnding(s: seq<AgentEvent>) {
    || (|s| == 1 && (s[0].DoneEvent? || s[0].FailedEvent?))
    || (|s| == 2 && (s[0].WarningEvent? || s[0].ChainEvent?) && s[1].DoneEvent?)
  }

  predicate IsTerminal(e: AgentEvent) {
    e.DoneEvent? || e.FailedEvent?
  }

  lemma {:induction false} DispatchContinues(env: Env, repoId: string, calls: seq<ToolCall>, count: nat)
    requires Dispatch(env, repoId, calls, count).verdict.Continue?
    ensures |Dispatch(env, repoId, calls, count).results| == |calls|
    ensures calls != [] ==> count + |calls| < CALL_LIMIT
    ensures forall c <- calls :: c.name != SUBMIT
  {
    if calls != [] {
      DispatchContinues(env, repoId, calls[1..], count + 1);
    }
  }

  lemma {:induction false} HeardAll(events: seq<LlmEvent>)
    ensures TurnError(events) == None ==> Heard(events) == events
  {
    if events != [] {
      HeardAll(events[1..]);
    }
  }

  lemma NothingHeard()
    ensures Heard([]) == [] && TurnError([]) == None
  {
  }

  lemma HeardAt(events: seq<LlmEvent>, i: nat)
    requires i < |events|
    ensures Heard(events[i..]) == if events[i].ErrorEvent? then [] else [events[i]] + Heard(events[i + 1..])
    ensures TurnError(events[i..]) == if events[i].ErrorEvent? then Some(events[i].error)
            else TurnError(events[i + 1..])
  {
    assert events[i..][0] == events[i] && events[i..][1..] == events[i + 1..];
  }

  /** Consuming one turn's events, as they stream in. */
  method ReceiveTurn(events: seq<LlmEvent>) returns (text: string, calls: seq<ToolCall>, emitted: seq<AgentEvent>,
                     error: Option<string>)
    ensures error == TurnError(events) && emitted == TurnEvents(Heard(events))
    ensures error.None? ==> text == TurnText(events) && calls == TurnCalls(events)
  {
    hide Heard, TurnError;
    NothingHeard();
    text, calls, emitted, error := "", [], [], None;
    for i := 0 to |events|
      invariant TurnError(events) == TurnError(events[i..])
      invariant Heard(events) == events[..i] + Heard(events[i..])
      invariant text == TurnText(events[..i]) && calls == TurnCalls(events[..i]) && emitted == TurnEvents(events[..i])
    {
      HeardAt(events, i);
      assert events[..i + 1][..i] == events[..i];
      match events[i]
      case TextChunk(chunk) =>
        if chunk != "" {
          text := text + chunk;
          emitted := emitted + [TextEvent(chunk)];
        }
      case CallEvent(call) =>
        calls := calls + [call];
      case ErrorEvent(e) =>
        error := Some(e);
        assert Heard(events) == events[..i];
        return;
      case TurnDone =>
      assert events[..i + 1] == events[..i] + [events[i]];
    }
    assert events[..|events|] == events;
    HeardAll(events);
  }

  lemma NoTurns(env: Env, question: string, repoId: string)
    ensures Balanced([]) && AreTurns(env, question, repoId, []) && Transcript(question, []) == [User(question)]
    ensures TextsOf(env, question, []) == [] && CallCount([]) == 0
  {
  }

  lemma OneTurnMore(env: Env, question: string, repoId: string, before: seq<Block>, b: Block)
    requires AreTurns(env, question, repoId, before) && |b.results| == |b.calls| && |b.calls| >= 1
    requires env.context(|before|) == Alive
    requires env.llm(|before|, Transcript(question, before)).Ok?
    requires var events := env.llm(|before|, Transcript(question, before)).value;
             && TurnError(events) == None && b.text == TurnText(events) && b.calls == TurnCalls(events)
             && Dispatch(env, repoId, b.calls, CallCount(before)) == Dispatched(b.results, Continue)
    ensures Balanced(before + [b]) && AreTurns(env, question, repoId, before + [b])
    ensures Transcript(question, before + [b]) == Transcript(question, before) + BlockMessages(b)
    ensures TextsOf(env, question, before + [b]) ==
            TextsOf(env, question, before) + TurnEvents(env.llm(|before|, Transcript(question, before)).value)
    ensures CallCount(before + [b]) == CallCount(before) + |b.calls|
  {
    hide Dispatch, TurnEvents, TurnText, TurnCalls, TurnError, BlockMessages;
    var after := before + [b];
    assert after[..|after| - 1] == before;
    assert b.calls != [];
  }

  /** The agent's run. events are its attempted emissions, requests the message lists
      of its model requests, blocks its completed turns, executed the tool calls made. */
  method Run(env: Env, question: string, repoId: string)
    returns (events: seq<AgentEvent>, requests: seq<seq<Message>>, blocks: seq<Block>, executed: seq<ToolCall>,
      ghost ending: seq<AgentEvent>)
    ensures AreTurns(env, question, repoId, blocks)
    ensures |blocks| <= |requests| <= |blocks| + 1
    ensures forall i | 0 <= i < |requests| :: Balanced(blocks[..i]) && requests[i] == Transcript(question, blocks[..i])
    ensures env.contextAtStart != Alive ==> requests == [] && events == ending == ContextEnding(env.contextAtStart)
    ensures env.contextAtStart == Alive ==>
              && Finale(env, question, repoId, blocks).Some?
              && ending == Finale(env, question, repoId, blocks).value.1
              && events == TextsOf(env, question, blocks) + Finale(env, question, repoId, blocks).value.0 + ending
    ensures IsEnding(ending)
    ensures |requests| <= CALL_LIMIT && |executed| < CALL_LIMIT
    ensures forall c <- executed :: c.name != SUBMIT
  {
    hide Dispatch, TurnEvents, TurnText, TurnCalls, TurnError, Heard, BlockMessages, IsTurn, ExecuteToolCall,
         AreTurns, TextsOf, Transcript, CallCount;
    NoTurns(env, question, repoId);
    requests, blocks, executed := [], [], [];
    if env.contextAtStart != Alive {
      ending := ContextEnding(env.contextAtStart);
      return ContextEnding(env.contextAtStart), requests, blocks, executed, ending;
    }
    events := [];
    var messages := [User(question)];
    var toolCallCount: nat := 0;
    while true
      invariant Balanced(blocks) && AreTurns(env, question, repoId, blocks)
      invariant messages == Transcript(question, blocks)
      invariant |requests| == |blocks|
      invariant forall i | 0 <= i < |requests| ::
                Balanced(blocks[..i]) && requests[i] == Transcript(question, blocks[..i])
      invariant events == TextsOf(env, question, blocks)
      invariant toolCallCount == CallCount(blocks) && toolCallCount < CALL_LIMIT
      invariant |executed| == toolCallCount
      invariant forall c <- executed :: c.name != SUBMIT
      decreases CALL_LIMIT - toolCallCount
    {
      BlocksUnderLimit(blocks);
      assert blocks[..|blocks|] == blocks;
      if env.context(|requests|) != Alive {
        ending := ContextEnding(env.context(|requests|));
        events := events + ContextEnding(env.context(|requests|));
        return;
      }
      var answer := env.llm(|requests|, messages);
      requests := requests + [messages];
      if answer.Err? {
        ending := [FailedEvent(answer.error)];
        events := events + [FailedEvent(answer.error)];
        return;
      }
      var text, toolCalls, emitted, turnError := ReceiveTurn(answer.value);
      events := events + emitted;
      HeardAll(answer.value);
      if turnError.Some? {
        ending := [FailedEvent(turnError.value)];
        events := events + [FailedEvent(turnError.value)];
        return;
      }
      if toolCalls == [] {
        ending := [DoneEvent("completed")];
        events := events + [DoneEvent("completed")];
        return;
      }
      var results, verdict, made := HandleCalls(env, repoId, toolCalls, toolCallCount);
      executed := executed + made;
      if !verdict.Continue? {
        ending := VerdictEnding(verdict);
        events := events + VerdictEnding(verdict);
        return;
      }
      DispatchContinues(env, repoId, toolCalls, toolCallCount);
      var block := Block(text, toolCalls, results);
      ghost var before := blocks;
      OneTurnMore(env, question, repoId, before, block);
      messages := messages + BlockMessages(block);
      blocks := blocks + [block];
      toolCallCount := toolCallCount + |toolCalls|;
      forall i | 0 <= i < |requests| ensures Balanced(blocks[..i]) && requests[i] == Transcript(question, blocks[..i]) {
        assert blocks[..i] == before[..i];
      }
    }
  }

  /** Dispatch takes the calls one at a time. */
  lemma DispatchNext(env: Env, repoId: string, calls: seq<ToolCall>, i: nat, count: nat)
    requires i < |calls|
    ensures Dispatch(env, repoId, calls[i..], count) ==
            if count + 1 >= CALL_LIMIT then Dispatched([], Truncated)
            else if calls[i].name == SUBMIT then Dispatched([], Submission(calls[i].input.chain))
            else
              var r := ExecuteToolCall(env, count, calls[i], repoId);
              if r.Err? then Dispatched([], Refused(r.error))
              else
                var rest := Dispatch(env, repoId, calls[i + 1..], count + 1);
                Dispatched([r.value] + rest.results, rest.verdict)
  {
    hide ExecuteToolCall, Submission;
    assert calls[i..][0] == calls[i] && calls[i..][1..] == calls[i + 1..];
  }

  lemma DispatchNone(env: Env, repoId: string, count: nat)
    ensures Dispatch(env, repoId, [], count) == Dispatched([], Continue)
  {
  }

  /** The inner loop over one turn's calls. */
  method HandleCalls(env: Env, repoId: string, calls: seq<ToolCall>, count: nat)
    returns (results: seq<string>, verdict: Verdict, executed: seq<ToolCall>)
    requires count < CALL_LIMIT
    ensures Dispatched(results, verdict) == Dispatch(env, repoId, calls, count)
    ensures Handled(env, repoId, calls, count, results, verdict)
    ensures executed <= calls && count + |executed| < CALL_LIMIT
    ensures |executed| == |results| + if verdict.Refused? && calls[|results|].name != SUBMIT then 1 else 0
    ensures verdict.Continue? ==> executed == calls
    ensures forall c <- executed :: c.name != SUBMIT
  {
    hide ExecuteToolCall, Dispatch, Submission, Handled;
    DispatchMeans(env, repoId, calls, count);
    results, executed := [], [];
    assert calls[0..] == calls;
    for i := 0 to |calls|
      invariant count + i < CALL_LIMIT
      invariant executed == calls[..i] && |results| == i
      invariant forall c <- executed :: c.name != SUBMIT
      invariant Dispatch(env, repoId, calls, count).results ==
                results + Dispatch(env, repoId, calls[i..], count + i).results
      invariant Dispatch(env, repoId, calls, count).verdict == Dispatch(env, repoId, calls[i..], count + i).verdict
    {
      var tc := calls[i];
      DispatchNext(env, repoId, calls, i, count + i);
      if count + i + 1 >= CALL_LIMIT {
        return results, Truncated, executed;
      }
      if tc.name == SUBMIT {
        return results, Submission(tc.input.chain), executed;
      }
      executed := executed + [tc];
      match ExecuteToolCall(env, count + i, tc, repoId) {
        case Err(error) =>
          return results, Refused(error), executed;
        case Ok(result) =>
          results := results + [result];
      }
    }
    verdict := Continue;
    assert calls[|calls|..] == [] && calls[..|calls|] == calls;
    DispatchNone(env, repoId, count + |calls|);
  }

  // The message protocol, as a model provider checks it.

  /** Reading on from a point where the ids in pending still await their results:
      results come in order under their ids, and nothing else comes before the last. */
  ghost predicate Follows(messages: seq<Message>, pending: seq<string>) {
    if messages == [] then pending == []
    else
      match messages[0]
      case User(_) => false
      case Assistant(_, calls) => pending == [] && calls != [] && Follows(messages[1..], Ids(calls))
      case ToolResult(id, _) => pending != [] && pending[0] == id && Follows(messages[1..], pending[1..])
  }

  /** One question first, then turns that each settle all their calls. */
  ghost predicate WellFormedRequest(messages: seq<Message>) {
    messages != [] && messages[0].User? && Follows(messages[1..], [])
  }

  function Ids(calls: seq<ToolCall>): seq<string> {
    seq(|calls|, i requires 0 <= i < |calls| => calls[i].id)
  }

  lemma {:induction false} ResultsSettle(b: Block, i: nat)
    requires |b.results| == |b.calls| && i <= |b.calls|
    ensures Follows(ResultMessages(b)[i..], Ids(b.calls)[i..])
    decreases |b.calls| - i
  {
    if i < |b.calls| {
      ResultsSettle(b, i + 1);
      assert ResultMessages(b)[i..][1..] == ResultMessages(b)[i + 1..];
      assert Ids(b.calls)[i..][1..] == Ids(b.calls)[i + 1..];
    }
  }

  lemma {:induction false} FollowsOn(first: seq<Message>, pending: seq<string>, second: seq<Message>)
    requires Follows(first, pending) && Follows(second, [])
    ensures Follows(first + second, pending)
  {
    if first == [] {
      assert first + second == second;
    } else {
      assert (first + second)[1..] == first[1..] + second;
      match first[0]
      case Assistant(_, calls) => FollowsOn(first[1..], Ids(calls), second);
      case ToolResult(_, _) => FollowsOn(first[1..], pending[1..], second);
    }
  }

  lemma BlockFollows(b: Block)
    requires |b.results| == |b.calls| && b.calls != []
    ensures Follows(BlockMessages(b), [])
  {
    ResultsSettle(b, 0);
    assert BlockMessages(b)[1..] == ResultMessages(b)[0..];
    assert Ids(b.calls)[0..] == Ids(b.calls);
  }

  /** Every request the agent makes is well formed. */
  lemma {:induction false} RequestsWellFormed(question: string, blocks: seq<Block>)
    requires Balanced(blocks)
    ensures WellFormedRequest(Transcript(question, blocks))
  {
    if blocks != [] {
      var front, b := blocks[..|blocks| - 1], blocks[|blocks| - 1];
      assert b in blocks;
      RequestsWellFormed(question, front);
      BlockFollows(b);
      var before := Transcript(question, front);
      FollowsOn(before[1..], [], BlockMessages(b));
      assert (before + BlockMessages(b))[1..] == before[1..] + BlockMessages(b);
    }
  }

  // What a turn and an ending say, apart from how they are computed.

  /** The text, the calls and the events of a turn are those of its parts, in order. */
  lemma {:induction false} TurnOfParts(a: seq<LlmEvent>, b: seq<LlmEvent>)
    ensures TurnText(a + b) == TurnText(a) + TurnText(b)
    ensures TurnCalls(a + b) == TurnCalls(a) + TurnCalls(b)
    ensures TurnEvents(a + b) == TurnEvents(a) + TurnEvents(b)
  {
    if b == [] {
      assert a + b == a;
    } else {
      assert (a + b)[..|a + b| - 1] == a + b[..|b| - 1];
      TurnOfParts(a, b[..|b| - 1]);
    }
  }

  /** A chunk is its own text, and an event if it is not empty; a call is itself; nothing
      else is either. */
  lemma TurnOfOne(e: LlmEvent, text: string, call: ToolCall)
    ensures TurnText([TextChunk(text)]) == text && TurnCalls([TextChunk(text)]) == []
    ensures TurnEvents([TextChunk(text)]) == if text == "" then [] else [TextEvent(text)]
    ensures TurnText([CallEvent(call)]) == "" && TurnCalls([CallEvent(call)]) == [call]
    ensures TurnEvents([CallEvent(call)]) == []
    ensures !e.TextChunk? && !e.CallEvent? ==> TurnText([e]) == "" && TurnCalls([e]) == [] && TurnEvents([e]) == []
  {
    assert [e][..0] == [] && [TextChunk(text)][..0] == [] && [CallEvent(call)][..0] == [];
    assert "" + text == text;
  }

  lemma TurnOfNone()
    ensures TurnText([]) == "" && TurnCalls([]) == [] && TurnEvents([]) == []
  {
  }

  /** The events up to the first error, and that error if there is one. */
  lemma {:induction false} HeardUpToError(events: seq<LlmEvent>)
    ensures Heard(events) <= events && forall i | 0 <= i < |Heard(events)| :: !events[i].ErrorEvent?
    ensures TurnError(events) == None <==> |Heard(events)| == |events|
    ensures |Heard(events)| < |events| ==> events[|Heard(events)|] == ErrorEvent(TurnError(events).value)
  {
    if events != [] && !events[0].ErrorEvent? {
      HeardUpToError(events[1..]);
      assert events == [events[0]] + events[1..];
    }
  }

  /** The messages of a turn: the assistant's text and calls, and under each call's id its
      own result. */
  lemma BlockSays(b: Block)
    requires |b.results| == |b.calls|
    ensures |BlockMessages(b)| == 1 + |b.calls| && BlockMessages(b)[0] == Assistant(b.text, b.calls)
    ensures forall i | 0 <= i < |b.calls| :: BlockMessages(b)[1 + i] == ToolResult(b.calls[i].id, b.results[i])
  {
  }

  /** How the run ends, by its cause. */
  lemma EndingMeans(env: Env, question: string, repoId: string, blocks: seq<Block>)
    requires Balanced(blocks) && Finale(env, question, repoId, blocks).Some?
    ensures var m, answer := |blocks|, env.llm(|blocks|, Transcript(question, blocks));
            Finale(env, question, repoId, blocks).value.0 ==
            if env.context(m) == Alive && answer.Ok? then TurnEvents(Heard(answer.value)) else []
    ensures var m, ending := |blocks|, Finale(env, question, repoId, blocks).value.1;
            && (env.context(m) == DeadlineExceeded ==> ending == [WarningEvent("timeout"), DoneEvent("timeout")])
            && (env.context(m) == Canceled ==> ending == [FailedEvent("context canceled")])
            && (env.context(m) == Alive ==>
                  var answer := env.llm(m, Transcript(question, blocks));
                  && (answer.Err? ==> ending == [FailedEvent(answer.error)])
                  && (answer.Ok? && TurnError(answer.value).Some? ==>
                     ending == [FailedEvent(TurnError(answer.value).value)])
                  && (answer.Ok? && TurnError(answer.value).None? ==>
                        var calls := TurnCalls(answer.value);
                        && (calls == [] ==> ending == [DoneEvent("completed")])
                        && (calls != [] ==>
                              exists results, v ::
                                Handled(env, repoId, calls, CallCount(blocks), results, v) && Ends(v, ending))))
  {
    hide Transcript, TurnCalls, TurnError, Handled, Dispatch, CallCount, TurnEvents, Heard;
    var answer := env.llm(|blocks|, Transcript(question, blocks));
    if answer.Ok? && TurnError(answer.value).None? {
      var calls := TurnCalls(answer.value);
      DispatchMeans(env, repoId, calls, CallCount(blocks));
      var d := Dispatch(env, repoId, calls, CallCount(blocks));
      assert Handled(env, repoId, calls, CallCount(blocks), d.results, d.verdict);
    }
  }

  /** The verdict's ending: a truncated run warns, a submitted chain is sent, an error fails. */
  ghost predicate Ends(v: Verdict, ending: seq<AgentEvent>) {
    match v
    case Continue => false
    case Truncated => ending == [WarningEvent("response truncated: tool call limit reached"), DoneEvent("truncated")]
    case Submitted(chain) => ending == [ChainEvent(chain), DoneEvent("submitted")]
    case Refused(error) => ending == [FailedEvent(error)]
  }

  // The event channel.

  const CHANNEL_SIZE: nat := 32

  /** The buffer after the reader took up to n events from it. */
  function Taken(buffered: nat, n: nat): nat {
    if n < buffered then buffered - n else 0
  }

  /** The events that reach the channel when before each emission the reader takes the
      scheduled number of events; an emission into a full buffer is dropped. What is
      buffered at the close is still read, so these are the events the reader sees. */
  function Seen(events: seq<AgentEvent>, schedule: seq<nat>, buffered: nat): seq<AgentEvent>
    requires |schedule| == |events|
  {
    if events == [] then []
    else
      var room := Taken(buffered, schedule[0]);
      if room < CHANNEL_SIZE then [events[0]] + Seen(events[1..], schedule[1..], room + 1)
      else Seen(events[1..], schedule[1..], room)
  }

  ghost predicate IsSubsequence(s: seq<AgentEvent>, t: seq<AgentEvent>) {
    if s == [] then true
    else t != [] && ((s[0] == t[0] && IsSubsequence(s[1..], t[1..])) || IsSubsequence(s, t[1..]))
  }

  lemma {:induction false} SeenIsSubsequence(events: seq<AgentEvent>, schedule: seq<nat>, buffered: nat)
    requires |schedule| == |events|
    ensures IsSubsequence(Seen(events, schedule, buffered), events)
  {
    if events != [] {
      var room := Taken(buffered, schedule[0]);
      var seen := Seen(events, schedule, buffered);
      if room < CHANNEL_SIZE {
        SeenIsSubsequence(events[1..], schedule[1..], room + 1);
        assert seen[1..] == Seen(events[1..], schedule[1..], room + 1);
      } else {
        SeenIsSubsequence(events[1..], schedule[1..], room);
      }
    }
  }

  /** Terminal events come last, if at all. */
  ghost predicate EndsAtTerminal(s: seq<AgentEvent>) {
    forall i | 0 <= i < |s| - 1 :: !IsTerminal(s[i])
  }

  lemma {:induction false} SubsequenceEndsAtTerminal(s: seq<AgentEvent>, t: seq<AgentEvent>)
    requires IsSubsequence(s, t) && EndsAtTerminal(t)
    ensures EndsAtTerminal(s)
  {
    if s != [] {
      assert forall i | 0 <= i < |t[1..]| :: t[1..][i] == t[i + 1];
      if s[0] == t[0] && IsSubsequence(s[1..], t[1..]) {
        SubsequenceLength(s[1..], t[1..]);
        SubsequenceEndsAtTerminal(s[1..], t[1..]);
        forall i | 0 <= i < |s| - 1 ensures !IsTerminal(s[i]) {
          if i > 0 {
            assert s[i] == s[1..][i - 1];
          }
        }
      } else {
        SubsequenceEndsAtTerminal(s, t[1..]);
      }
    }
  }

  ghost predicate AllTexts(s: seq<AgentEvent>) {
    forall e <- s :: e.TextEvent?
  }

  lemma {:induction false} TurnEventsAreTexts(events: seq<LlmEvent>)
    ensures AllTexts(TurnEvents(events))
  {
    if events != [] {
      TurnEventsAreTexts(events[..|events| - 1]);
    }
  }

  lemma {:induction false} TextsOfAreTexts(env: Env, question: string, blocks: seq<Block>)
    requires Balanced(blocks)
    ensures AllTexts(TextsOf(env, question, blocks))
  {
    if blocks != [] {
      var before := blocks[..|blocks| - 1];
      TextsOfAreTexts(env, question, before);
      var answer := env.llm(|before|, Transcript(question, before));
      if answer.Ok? {
        TurnEventsAreTexts(answer.value);
      }
    }
  }

  /** The attempted events are text chunks followed by exactly one ending; and the
      reader, however it keeps up, sees a subsequence of them with at most one terminal
      event and nothing after it. */
  lemma EventsWellFormed(env: Env, question: string, repoId: string, blocks: seq<Block>, schedule: seq<nat>)
    requires Balanced(blocks) && Finale(env, question, repoId, blocks).Some?
    ensures var texts := TextsOf(env, question, blocks) + Finale(env, question, repoId, blocks).value.0;
            var ending := Finale(env, question, repoId, blocks).value.1;
            && AllTexts(texts) && IsEnding(ending)
            && (|schedule| == |texts + ending| ==>
                  IsSubsequence(Seen(texts + ending, schedule, 0), texts + ending)
                    && EndsAtTerminal(Seen(texts + ending, schedule, 0)))
  {
    hide Seen, IsSubsequence, TextsOf, TurnEvents, Heard, Dispatch, Transcript;
    TextsOfAreTexts(env, question, blocks);
    var events := env.llm(|blocks|, Transcript(question, blocks));
    if events.Ok? {
      TurnEventsAreTexts(Heard(events.value));
    }
    var texts, ending := TextsOf(env, question, blocks) +
      Finale(env, question, repoId, blocks).value.0, Finale(env, question, repoId, blocks).value.1;
    if |schedule| == |texts + ending| {
      forall i | 0 <= i < |texts + ending| - 1 ensures !IsTerminal((texts + ending)[i]) {
        if i < |texts| {
          assert texts[i] in texts;
        }
      }
      SeenIsSubsequence(texts + ending, schedule, 0);
      SubsequenceEndsAtTerminal(Seen(texts + ending, schedule, 0), texts + ending);
    }
  }

  function NeverReads(n: nat): seq<nat> {
    seq(n, _ => 0)
  }

  lemma {:induction false} FitsInBuffer(events: seq<AgentEvent>, schedule: seq<nat>, buffered: nat)
    requires |schedule| == |events| && buffered + |events| <= CHANNEL_SIZE
    ensures Seen(events, schedule, buffered) == events
  {
    if events != [] {
      var room := Taken(buffered, schedule[0]);
      FitsInBuffer(events[1..], schedule[1..], room + 1);
    }
  }

  lemma {:induction false} OverflowDrops(events: seq<AgentEvent>, buffered: nat)
    requires buffered <= CHANNEL_SIZE < buffered + |events|
    ensures |Seen(events, NeverReads(|events|), buffered)| < |events|
  {
    var schedule := NeverReads(|events|);
    assert schedule[1..] == NeverReads(|events| - 1);
    if buffered < CHANNEL_SIZE {
      OverflowDrops(events[1..], buffered + 1);
    } else {
      SeenIsSubsequence(events[1..], schedule[1..], buffered);
      SubsequenceLength(Seen(events[1..], schedule[1..], buffered), events[1..]);
    }
  }

  lemma {:induction false} SubsequenceLength(s: seq<AgentEvent>, t: seq<AgentEvent>)
    requires IsSubsequence(s, t)
    ensures |s| <= |t|
  {
    if s != [] {
      if s[0] == t[0] && IsSubsequence(s[1..], t[1..]) {
        SubsequenceLength(s[1..], t[1..]);
      } else {
        SubsequenceLength(s, t[1..]);
      }
    }
  }

  /** No reader loses an event exactly when there are no more events than slots. */
  lemma NothingDroppedIff(events: seq<AgentEvent>)
    ensures (forall schedule: seq<nat> | |schedule| == |events| :: Seen(events, schedule, 0) == events) <==>
            |events| <= CHANNEL_SIZE
  {
    if |events| <= CHANNEL_SIZE {
      forall schedule: seq<nat> | |schedule| == |events| ensures Seen(events, schedule, 0) == events {
        FitsInBuffer(events, schedule, 0);
      }
    } else {
      OverflowDrops(events, 0);
      assert |Seen(events, NeverReads(|events|), 0)| < |events|;
    }
  }
}
