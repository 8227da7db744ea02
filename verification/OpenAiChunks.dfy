/** What the OpenAI reader makes of the chunks of its stream: their texts, their fragments
    and their finishes, in the order in which the chunks carry them. */
module OpenAiChunks {
  import opened Text
  import opened Sorting
  import opened SseFraming
  import opened OpenAiStream
  import opened OpenAiCalls

  // The chunks.

  /** The payload that ends a stream: the marker, no chunk at all, or an error. */
  predicate EndsStream(json: Json, payload: string) {
    || TrimSpace(payload) == "[DONE]"
    || json.chunk(TrimSpace(payload)).Err?
    || json.chunk(TrimSpace(payload)).value.error.Some?
  }

  /** The choices of the chunks before the first payload that ends the stream, in order. */
  function ChoicesSaid(json: Json, payloads: seq<string>): seq<Choice> {
    if payloads == [] || EndsStream(json, payloads[0]) then []
    else json.chunk(TrimSpace(payloads[0])).value.choices + ChoicesSaid(json, payloads[1..])
  }

  /** The non-empty contents of the choices, in order. */
  function Contents(choices: seq<Choice>): seq<string> {
    if choices == [] then []
    else
      var last := choices[|choices| - 1];
      Contents(choices[..|choices| - 1]) + if last.content == "" then [] else [last.content]
  }

  // What the decoder works on.

  function TextsOf(items: seq<Item>): seq<string> {
    if items == [] then []
    else
      var last := items[|items| - 1];
      TextsOf(items[..|items| - 1]) + if last.TextItem? then [last.text] else []
  }

  function AllFragments(items: seq<Item>): seq<Fragment> {
    if items == [] then []
    else
      var last := items[|items| - 1];
      AllFragments(items[..|items| - 1]) + if last.FragmentItem? then [last.fragment] else []
  }

  /** The items say what one choice says: its text if it has one, its fragments in order,
      and last, once, its finish. */
  ghost predicate Says(items: seq<Item>, c: Choice) {
    && items != [] && items[|items| - 1] == FinishItem(c.finish)
    && (forall i | 0 <= i < |items| - 1 :: items[i].TextItem? || items[i].FragmentItem?)
    && TextsOf(items) == (if c.content == "" then [] else [c.content])
    && AllFragments(items) == c.fragments
  }

  /** The items say what the choices say, one after the other. */
  ghost predicate SaysAll(items: seq<Item>, choices: seq<Choice>)
    decreases choices
  {
    if choices == [] then items == []
    else exists n ::
      && 0 <= n <= |items|
      && SaysAll(items[..n], choices[..|choices| - 1]) && Says(items[n..], choices[|choices| - 1])
  }

  lemma {:induction false} TextsConcat(a: seq<Item>, b: seq<Item>)
    ensures TextsOf(a + b) == TextsOf(a) + TextsOf(b)
    ensures AllFragments(a + b) == AllFragments(a) + AllFragments(b)
  {
    if b == [] {
      assert a + b == a;
    } else {
      assert (a + b)[..|a + b| - 1] == a + b[..|b| - 1];
      TextsConcat(a, b[..|b| - 1]);
    }
  }

  lemma {:induction false} FragmentItemsSay(fragments: seq<Fragment>)
    ensures TextsOf(FragmentItems(fragments)) == [] && AllFragments(FragmentItems(fragments)) == fragments
  {
    if fragments != [] {
      var items := FragmentItems(fragments);
      assert items[..|items| - 1] == FragmentItems(fragments[..|fragments| - 1]);
      FragmentItemsSay(fragments[..|fragments| - 1]);
      assert fragments == fragments[..|fragments| - 1] + [fragments[|fragments| - 1]];
    }
  }

  lemma OneItemSays(item: Item)
    ensures TextsOf([item]) == if item.TextItem? then [item.text] else []
    ensures AllFragments([item]) == if item.FragmentItem? then [item.fragment] else []
    ensures TextsOf([]) == [] && AllFragments([]) == []
  {
    assert [item][..0] == [];
  }

  lemma ChoiceSays(c: Choice)
    ensures Says(ChoiceItems(c), c)
  {
    hide TextsOf, AllFragments, FragmentItems;
    var text: seq<Item> := if c.content == "" then [] else [TextItem(c.content)];
    var front, finish := text + FragmentItems(c.fragments), [FinishItem(c.finish)];
    OneItemSays(TextItem(c.content));
    OneItemSays(FinishItem(c.finish));
    FragmentItemsSay(c.fragments);
    FragmentItemsAre(c.fragments);
    TextsConcat(text, FragmentItems(c.fragments));
    TextsConcat(front, finish);
    assert ChoiceItems(c) == front + finish;
    assert AllFragments(front) == c.fragments by { assert [] + c.fragments == c.fragments; }
    assert AllFragments(front + finish) == c.fragments by { assert c.fragments + [] == c.fragments; }
    assert TextsOf(front) == TextsOf(text) by { assert TextsOf(text) + [] == TextsOf(text); }
    assert TextsOf(front + finish) == TextsOf(text) by { assert TextsOf(text) + [] == TextsOf(text); }
    assert forall i | 0 <= i < |front| :: front[i].TextItem? || front[i].FragmentItem?;
  }

  lemma FragmentItemsAre(fragments: seq<Fragment>)
    ensures forall i | 0 <= i < |FragmentItems(fragments)| :: FragmentItems(fragments)[i].FragmentItem?
  {
  }

  lemma SayMore(items: seq<Item>, said: seq<Choice>, more: seq<Item>, c: Choice)
    requires SaysAll(items, said) && Says(more, c)
    ensures SaysAll(items + more, said + [c])
  {
    hide Says;
    var all := items + more;
    assert (said + [c])[..|said|] == said;
    assert all[..|items|] == items && all[|items|..] == more;
  }

  lemma {:induction false} ChoicesSay(items: seq<Item>, said: seq<Choice>, choices: seq<Choice>)
    requires SaysAll(items, said)
    ensures SaysAll(items + ChoicesItems(choices), said + choices)
  {
    hide Says, SaysAll, ChoiceItems;
    if choices == [] {
      assert said + choices == said && items + ChoicesItems(choices) == items;
    } else {
      var front, last := choices[..|choices| - 1], choices[|choices| - 1];
      ChoicesSay(items, said, front);
      ChoiceSays(last);
      SayMore(items + ChoicesItems(front), said + front, ChoiceItems(last), last);
      assert items + ChoicesItems(choices) == items + ChoicesItems(front) + ChoiceItems(last);
      assert said + choices == said + front + [last];
    }
  }

  // From the payloads.

  predicate AnyEnds(json: Json, payloads: seq<string>) {
    exists i :: 0 <= i < |payloads| && EndsStream(json, payloads[i])
  }

  lemma {:induction false} SaidOneMore(json: Json, payloads: seq<string>, last: string)
    ensures ChoicesSaid(json, payloads + [last]) ==
            ChoicesSaid(json, payloads)
            + if AnyEnds(json, payloads) || EndsStream(json, last) then []
              else json.chunk(TrimSpace(last)).value.choices
  {
    hide EndsStream;
    var all := payloads + [last];
    if payloads == [] {
      assert all[1..] == [];
    } else {
      assert all[0] == payloads[0] && all[1..] == payloads[1..] + [last];
      if !EndsStream(json, payloads[0]) {
        SaidOneMore(json, payloads[1..], last);
        assert AnyEnds(json, payloads) <==> AnyEnds(json, payloads[1..]) by {
          assert forall i | 0 < i < |payloads| :: payloads[i] == payloads[1..][i - 1];
        }
      }
    }
  }

  ghost predicate OnlySays(items: seq<Item>) {
    forall i | 0 <= i < |items| :: !items[i].DoneMarker? && !items[i].BadItem?
  }

  /** Only the marker and errors end a stream. */
  lemma {:induction false} SayingGoesOn(json: Json, s: State, items: seq<Item>)
    requires !s.halted && OnlySays(items) && InputsParse(RunItems(json, s, items).out)
    ensures !RunItems(json, s, items).halted
  {
    hide Step;
    if items != [] {
      var front, last := items[..|items| - 1], items[|items| - 1];
      OutGrows(json, RunItems(json, s, front), last);
      SayingGoesOn(json, s, front);
      StepGoesOn(json, RunItems(json, s, front), last);
    }
  }

  lemma StepGoesOn(json: Json, s: State, item: Item)
    requires !s.halted && !item.DoneMarker? && !item.BadItem? && InputsParse(Step(json, s, item).out)
    ensures !Step(json, s, item).halted
  {
    hide Flush;
    if IsFlush(item) {
      FlushHalts(json, s);
      if !AllValid(json, s.calls) {
        FailedFlush(json, s);
      }
    }
  }

  lemma {:induction false} ChoicesOnlySay(choices: seq<Choice>)
    ensures OnlySays(ChoicesItems(choices))
  {
    if choices != [] {
      ChoicesOnlySay(choices[..|choices| - 1]);
    }
  }

  lemma {:induction false} OutGrowsAlong(json: Json, s: State, items: seq<Item>)
    ensures s.out <= RunItems(json, s, items).out
  {
    hide Step;
    if items != [] {
      OutGrowsAlong(json, s, items[..|items| - 1]);
      OutGrows(json, RunItems(json, s, items[..|items| - 1]), items[|items| - 1]);
    }
  }

  /** Once ended, a stream's items before the end stay the same. */
  lemma {:induction false} BeforeEndStays(json: Json, a: seq<Item>, b: seq<Item>)
    requires RunItems(json, INITIAL, a).halted
    ensures BeforeEnd(json, a + b) == BeforeEnd(json, a)
  {
    hide RunItems;
    RunConcat(json, INITIAL, a, b);
    HaltedIsFinal(json, RunItems(json, INITIAL, a), b);
    if b == [] {
      assert a + b == a;
    } else {
      assert (a + b)[..|a + b| - 1] == a + b[..|b| - 1];
      BeforeEndStays(json, a, b[..|b| - 1]);
    }
  }

  /** Unless a call's input does not parse, what the decoder works on is what the chunks
      before the end say, and it stops exactly when a payload ended the stream. */
  lemma {:induction false} PayloadsSay(json: Json, payloads: seq<string>)
    requires InputsParse(RunItems(json, INITIAL, Items(json, payloads)).out)
    ensures RunItems(json, INITIAL, Items(json, payloads)).halted <==> AnyEnds(json, payloads)
    ensures SaysAll(BeforeEnd(json, Items(json, payloads)), ChoicesSaid(json, payloads))
  {
    hide RunItems, SaysAll, PayloadItems, EndsStream, ChoicesSaid, InputsParse;
    if payloads == [] {
      NothingSaid(json);
    } else {
      var front, last := payloads[..|payloads| - 1], payloads[|payloads| - 1];
      assert payloads == front + [last];
      var before := Items(json, front);
      var s := RunItems(json, INITIAL, before);
      RunConcat(json, INITIAL, before, PayloadItems(json, last));
      OutGrowsAlong(json, s, PayloadItems(json, last));
      InputsParseBefore(s.out, RunItems(json, INITIAL, Items(json, payloads)).out);
      PayloadsSay(json, front);
      SaidOneMore(json, front, last);
      EndsOneMore(json, front, last);
      if s.halted {
        BeforeEndStays(json, before, PayloadItems(json, last));
        HaltedIsFinal(json, s, PayloadItems(json, last));
        assert ChoicesSaid(json, front) + [] == ChoicesSaid(json, front);
      } else {
        PayloadSays(json, before, last, ChoicesSaid(json, front));
      }
    }
  }

  lemma NothingSaid(json: Json)
    ensures Items(json, []) == [] && !RunItems(json, INITIAL, []).halted
    ensures SaysAll(BeforeEnd(json, []), ChoicesSaid(json, []))
  {
  }

  lemma EndsOneMore(json: Json, payloads: seq<string>, last: string)
    ensures AnyEnds(json, payloads + [last]) <==> AnyEnds(json, payloads) || EndsStream(json, last)
  {
    hide EndsStream;
    var all := payloads + [last];
    assert all[|payloads|] == last && forall i | 0 <= i < |payloads| :: all[i] == payloads[i];
  }

  lemma NoErrorsBefore(a: seq<Event>, b: seq<Event>)
    requires a <= b && NoErrors(b)
    ensures NoErrors(a)
  {
  }

  lemma InputsParseBefore(a: seq<Event>, b: seq<Event>)
    requires a <= b && InputsParse(b)
    ensures InputsParse(a)
  {
  }

  /** One payload on a stream still open. */
  lemma PayloadSays(json: Json, before: seq<Item>, payload: string, said: seq<Choice>)
    requires !RunItems(json, INITIAL, before).halted && SaysAll(before, said)
    requires InputsParse(RunItems(json, INITIAL, before + PayloadItems(json, payload)).out)
    ensures var all := before + PayloadItems(json, payload);
            && (RunItems(json, INITIAL, all).halted <==> EndsStream(json, payload))
            && SaysAll(BeforeEnd(json, all),
                       said + if EndsStream(json, payload) then [] else json.chunk(TrimSpace(payload)).value.choices)
  {
    hide RunItems, SaysAll, InputsParse, TrimSpace;
    var items := PayloadItems(json, payload);
    var s := RunItems(json, INITIAL, before);
    RunConcat(json, INITIAL, before, items);
    OneItem(json, s);
    assert said + [] == said;
    if EndsStream(json, payload) {
      assert (before + items)[..|before|] == before && |items| == 1;
      assert BeforeEnd(json, before + items) == BeforeEnd(json, before) == before;
    } else {
      var choices := json.chunk(TrimSpace(payload)).value.choices;
      ChoicesOnlySay(choices);
      SayingGoesOn(json, s, items);
      ChoicesSay(before, said, choices);
    }
  }

  // What the reader sends.

  function SentTexts(out: seq<Event>): seq<string> {
    if out == [] then []
    else
      var last := out[|out| - 1];
      SentTexts(out[..|out| - 1]) + if last.TextEvent? then [last.text] else []
  }

  lemma {:induction false} SentConcat(a: seq<Event>, b: seq<Event>)
    ensures SentTexts(a + b) == SentTexts(a) + SentTexts(b)
  {
    if b == [] {
      assert a + b == a;
    } else {
      assert (a + b)[..|a + b| - 1] == a + b[..|b| - 1];
      SentConcat(a, b[..|b| - 1]);
    }
  }

  lemma {:induction false} CallsHaveNoText(json: Json, calls: map<Int64, Accumulator>, indices: seq<Int64>)
    requires forall k | 0 <= k < |indices| :: indices[k] in calls
    ensures SentTexts(FlushedCalls(json, calls, indices)) == []
  {
    hide ValidInput;
    if indices != [] {
      CallsHaveNoText(json, calls, indices[1..]);
      SentConcat([CallOf(calls, indices[0])], FlushedCalls(json, calls, indices[1..]));
      OneSent(CallOf(calls, indices[0]));
      OneSent(ErrorEvent("parse openai tool input"));
    }
  }

  lemma OneSent(e: Event)
    ensures SentTexts([e]) == if e.TextEvent? then [e.text] else []
    ensures SentTexts([]) == []
  {
    assert [e][..0] == [];
  }

  lemma StepSends(json: Json, s: State, item: Item)
    requires !s.halted
    ensures SentTexts(Step(json, s, item).out) == SentTexts(s.out) + if item.TextItem? then [item.text] else []
  {
    hide SentTexts, FlushedCalls;
    var flushed := FlushedCalls(json, s.calls, SortedInts(s.calls.Keys));
    CallsHaveNoText(json, s.calls, SortedInts(s.calls.Keys));
    SentConcat(s.out, flushed);
    OneSent(DoneEvent);
    SentConcat(s.out + flushed, [DoneEvent]);
    SentConcat(s.out, [DoneEvent]);
    if item.TextItem? {
      SentConcat(s.out, [TextEvent(item.text)]);
      OneSent(TextEvent(item.text));
    }
    if item.BadItem? {
      SentConcat(s.out, [ErrorEvent(item.error)]);
      OneSent(ErrorEvent(item.error));
    }
    assert SentTexts(s.out) + [] == SentTexts(s.out);
  }

  lemma {:induction false} SentIsSaid(json: Json, items: seq<Item>)
    ensures SentTexts(RunItems(json, INITIAL, items).out) ==
            TextsOf(BeforeEnd(json, items))
  {
    hide Step, SentTexts;
    if items == [] {
      OneSent(DoneEvent);
    } else {
      var front, last := items[..|items| - 1], items[|items| - 1];
      SentIsSaid(json, front);
      var s := RunItems(json, INITIAL, front);
      if s.halted {
        HaltedStep(json, s, last);
      } else {
        StepSends(json, s, last);
        if last.TextItem? {
          TextNeverEnds(json, s, last);
        }
      }
    }
  }

  lemma TextNeverEnds(json: Json, s: State, item: Item)
    requires !s.halted && item.TextItem?
    ensures !Step(json, s, item).halted
  {
    hide Flush;
  }

  /** The texts the reader sends are the non-empty contents of the choices of the chunks
      before the end, in order: a beginning of them if a call's input does not parse, and
      else all of them. */
  lemma TextsArrive(json: Json, lines: seq<string>, readError: Option<string>)
    ensures var texts, said := SentTexts(Output(json, lines, readError)), Contents(ChoicesSaid(json, Events(lines)));
            && texts <= said
            && (InputsParse(RunItems(json, INITIAL, Items(json, Events(lines))).out) ==> texts == said)
  {
    hide RunItems, Items, Events, SentTexts, InputsParse, SaysAll, Contents, ChoicesSaid, TextsOf, BeforeEnd;
    var items := Items(json, Events(lines));
    var s := RunItems(json, INITIAL, items);
    SentIsSaid(json, items);
    TextsBeforeEnd(json, Events(lines));
    if InputsParse(s.out) {
      PayloadsSay(json, Events(lines));
      SaidTexts(BeforeEnd(json, items), ChoicesSaid(json, Events(lines)));
    }
    SentConcat(s.out, [DoneEvent]);
    OneSent(DoneEvent);
    if readError.Some? {
      SentConcat(s.out, [ErrorEvent(readError.value)]);
      OneSent(ErrorEvent(readError.value));
    }
  }

  lemma SaysTexts(items: seq<Item>, c: Choice)
    requires Says(items, c)
    ensures TextsOf(items) == if c.content == "" then [] else [c.content]
  {
    hide TextsOf, AllFragments;
  }

  /** Where the last choice begins. */
  lemma LastSaid(items: seq<Item>, choices: seq<Choice>) returns (n: nat)
    requires choices != [] && SaysAll(items, choices)
    ensures n <= |items| && items == items[..n] + items[n..]
    ensures SaysAll(items[..n], choices[..|choices| - 1]) && Says(items[n..], choices[|choices| - 1])
  {
    hide Says;
    n :| 0 <= n <= |items| && SaysAll(items[..n], choices[..|choices| - 1])
         && Says(items[n..], choices[|choices| - 1]);
  }

  lemma NoneSaid(items: seq<Item>)
    requires SaysAll(items, [])
    ensures items == []
  {
  }

  lemma {:induction false} SaidTexts(items: seq<Item>, choices: seq<Choice>)
    requires SaysAll(items, choices)
    ensures TextsOf(items) == Contents(choices)
    decreases choices
  {
    hide Says, SaysAll, TextsOf;
    OneItemSays(DoneMarker);
    if choices == [] {
      NoneSaid(items);
    } else {
      var n := LastSaid(items, choices);
      SaidTexts(items[..n], choices[..|choices| - 1]);
      SaysTexts(items[n..], choices[|choices| - 1]);
      TextsConcat(items[..n], items[n..]);
    }
  }

  lemma {:induction false} ContentsConcat(a: seq<Choice>, b: seq<Choice>)
    ensures Contents(a + b) == Contents(a) + Contents(b)
  {
    if b == [] {
      assert a + b == a;
    } else {
      assert (a + b)[..|a + b| - 1] == a + b[..|b| - 1];
      ContentsConcat(a, b[..|b| - 1]);
    }
  }

  lemma {:induction false} BeforeEndIsPrefix(json: Json, items: seq<Item>)
    ensures BeforeEnd(json, items) <= items
  {
    hide RunItems;
    if items != [] {
      BeforeEndIsPrefix(json, items[..|items| - 1]);
    }
  }

  lemma TextsOfPrefix(a: seq<Item>, b: seq<Item>)
    requires a <= b
    ensures TextsOf(a) <= TextsOf(b)
  {
    assert b == a + b[|a|..];
    TextsConcat(a, b[|a|..]);
  }

  lemma NothingSent(json: Json)
    ensures TextsOf(BeforeEnd(json, Items(json, []))) == []
  {
  }

  /** However the stream ends, the texts before its end are a beginning of what is said. */
  lemma {:induction false} TextsBeforeEnd(json: Json, payloads: seq<string>)
    ensures TextsOf(BeforeEnd(json, Items(json, payloads))) <= Contents(ChoicesSaid(json, payloads))
  {
    hide RunItems, SaysAll, PayloadItems, EndsStream, ChoicesSaid, InputsParse, BeforeEnd, TextsOf, Contents;
    if payloads == [] {
      NothingSent(json);
    } else {
      var front, last := payloads[..|payloads| - 1], payloads[|payloads| - 1];
      assert payloads == front + [last];
      var before := Items(json, front);
      SaidOneMore(json, front, last);
      ContentsConcat(ChoicesSaid(json, front), ChoicesSaid(json, payloads)[|ChoicesSaid(json, front)|..]);
      TextsBeforeEnd(json, front);
      if RunItems(json, INITIAL, before).halted {
        BeforeEndStays(json, before, PayloadItems(json, last));
      } else {
        TextsOfPayload(json, front, last);
      }
    }
  }

  lemma TextsOfPayload(json: Json, front: seq<string>, last: string)
    requires !RunItems(json, INITIAL, Items(json, front)).halted
    ensures TextsOf(BeforeEnd(json, Items(json, front) + PayloadItems(json, last))) <=
            Contents(ChoicesSaid(json, front + [last]))
  {
    hide RunItems, SaysAll, ChoicesSaid, InputsParse, TextsOf, Contents, TrimSpace;
    var before, items, said := Items(json, front), PayloadItems(json, last), ChoicesSaid(json, front);
    ErrorsComeLast(json, before);
    ErrorFree(RunItems(json, INITIAL, before).out);
    PayloadsSay(json, front);
    SaidOneMore(json, front, last);
    BeforeEndIsPrefix(json, before + items);
    TextsOfPrefix(BeforeEnd(json, before + items), before + items);
    TextsConcat(before, items);
    if EndsStream(json, last) {
      assert said + [] == said;
      SaidTexts(before, said);
      OneItemSays(items[0]);
    } else {
      var choices := json.chunk(TrimSpace(last)).value.choices;
      ChoicesSay(before, said, choices);
      SaidTexts(before + items, said + choices);
    }
  }

  lemma ErrorFree(out: seq<Event>)
    requires NoErrors(out)
    ensures InputsParse(out)
  {
  }

  /** What the reader's calls are made from is what the chunks before the end say: each
      choice's fragments in order, then its finish. */
  lemma ItemsAreSaid(json: Json, lines: seq<string>)
    requires InputsParse(RunItems(json, INITIAL, Items(json, Events(lines))).out)
    ensures SaysAll(StreamItems(json, lines), ChoicesSaid(json, Events(lines)))
  {
    hide RunItems, Items, SaysAll, InputsParse, ChoicesSaid, BeforeEnd;
    PayloadsSay(json, Events(lines));
  }

  // How the stream ends.

  function CountDone(out: seq<Event>): nat {
    if out == [] then 0 else CountDone(out[..|out| - 1]) + if out[|out| - 1].DoneEvent? then 1 else 0
  }

  /** The choices that finish their message. */
  function CountFinished(choices: seq<Choice>): nat {
    if choices == [] then 0
    else
      var finish := choices[|choices| - 1].finish;
      CountFinished(choices[..|choices| - 1]) + if finish == "tool_calls" || finish == "stop" then 1 else 0
  }

  function CountFinishItems(items: seq<Item>): nat {
    if items == [] then 0
    else
      var last := items[|items| - 1];
      CountFinishItems(items[..|items| - 1])
      + if last.FinishItem? && (last.reason == "tool_calls" || last.reason == "stop") then 1 else 0
  }

  lemma {:induction false} DoneConcat(a: seq<Event>, b: seq<Event>)
    ensures CountDone(a + b) == CountDone(a) + CountDone(b)
  {
    if b == [] {
      assert a + b == a;
    } else {
      assert (a + b)[..|a + b| - 1] == a + b[..|b| - 1];
      DoneConcat(a, b[..|b| - 1]);
    }
  }

  lemma OneDone(e: Event)
    ensures CountDone([e]) == if e.DoneEvent? then 1 else 0
    ensures CountDone([]) == 0
  {
    assert [e][..0] == [];
  }

  lemma {:induction false} CallsAreNotDone(json: Json, calls: map<Int64, Accumulator>, indices: seq<Int64>)
    requires forall k | 0 <= k < |indices| :: indices[k] in calls
    ensures CountDone(FlushedCalls(json, calls, indices)) == 0
  {
    hide ValidInput, CountDone;
    OneDone(ErrorEvent("parse openai tool input"));
    if indices != [] {
      CallsAreNotDone(json, calls, indices[1..]);
      DoneConcat([CallOf(calls, indices[0])], FlushedCalls(json, calls, indices[1..]));
      OneDone(CallOf(calls, indices[0]));
    }
  }

  lemma StepDone(json: Json, s: State, item: Item)
    requires !s.halted && !Step(json, s, item).halted
    ensures var finished := item.FinishItem? && (item.reason == "tool_calls" || item.reason == "stop");
            && CountDone(Step(json, s, item).out) == CountDone(s.out) + (if finished then 1 else 0)
            && Step(json, s, item).sentDone == (s.sentDone || finished)
  {
    hide CountDone, FlushedCalls;
    var flushed := FlushedCalls(json, s.calls, SortedInts(s.calls.Keys));
    CallsAreNotDone(json, s.calls, SortedInts(s.calls.Keys));
    FlushKeepsCalls(json, s);
    DoneConcat(s.out, flushed);
    OneDone(DoneEvent);
    DoneConcat(s.out + flushed, [DoneEvent]);
    DoneConcat(s.out, [DoneEvent]);
    if item.TextItem? {
      DoneConcat(s.out, [TextEvent(item.text)]);
      OneDone(TextEvent(item.text));
    }
  }

  lemma {:induction false} DonesWhileOpen(json: Json, items: seq<Item>)
    requires !RunItems(json, INITIAL, items).halted
    ensures var s := RunItems(json, INITIAL, items);
            CountDone(s.out) == CountFinishItems(items) && (s.sentDone <==> CountFinishItems(items) > 0)
  {
    hide Step, CountDone;
    if items == [] {
      OneDone(DoneEvent);
    } else {
      var front, last := items[..|items| - 1], items[|items| - 1];
      HaltedStaysHalted(json, RunItems(json, INITIAL, front), last);
      DonesWhileOpen(json, front);
      StepDone(json, RunItems(json, INITIAL, front), last);
    }
  }

  lemma HaltedStaysHalted(json: Json, s: State, item: Item)
    ensures s.halted ==> Step(json, s, item).halted
  {
  }

  lemma {:induction false} SaidFinishes(items: seq<Item>, choices: seq<Choice>)
    requires SaysAll(items, choices)
    ensures CountFinishItems(items) == CountFinished(choices)
    decreases choices
  {
    hide Says, SaysAll;
    if choices == [] {
      NoneSaid(items);
    } else {
      var n := LastSaid(items, choices);
      SaidFinishes(items[..n], choices[..|choices| - 1]);
      SaysFinish(items[..n], items[n..], choices[|choices| - 1]);
    }
  }

  lemma {:induction false} SaysFinish(before: seq<Item>, items: seq<Item>, c: Choice)
    requires Says(items, c)
    ensures CountFinishItems(before + items) ==
            CountFinishItems(before) + if c.finish == "tool_calls" || c.finish == "stop" then 1 else 0
  {
    hide TextsOf, AllFragments;
    var front := items[..|items| - 1];
    NoFinishes(before, front);
    assert (before + items)[..|before + items| - 1] == before + front;
  }

  lemma {:induction false} NoFinishes(before: seq<Item>, items: seq<Item>)
    requires forall i | 0 <= i < |items| :: items[i].TextItem? || items[i].FragmentItem?
    ensures CountFinishItems(before + items) == CountFinishItems(before)
  {
    if items == [] {
      assert before + items == before;
    } else {
      assert (before + items)[..|before + items| - 1] == before + items[..|items| - 1];
      NoFinishes(before, items[..|items| - 1]);
    }
  }

  /** At the end of the items the decoder works on, and at the end it adds. */
  lemma {:induction false} DonesAtEnd(json: Json, items: seq<Item>)
    requires NoErrors(RunItems(json, INITIAL, items).out)
    ensures var s, open := RunItems(json, INITIAL, items), RunItems(json, INITIAL, BeforeEnd(json, items));
            && !open.halted
            && s.sentDone == open.sentDone
            && CountDone(s.out) == CountDone(open.out) + (if s.halted && !open.sentDone then 1 else 0)
  {
    hide Step, CountDone;
    if items != [] && RunItems(json, INITIAL, items).halted {
      var front, last := items[..|items| - 1], items[|items| - 1];
      var s := RunItems(json, INITIAL, front);
      OutGrows(json, s, last);
      NoErrorsBefore(s.out, RunItems(json, INITIAL, items).out);
      DonesAtEnd(json, front);
      if s.halted {
        HaltedStep(json, s, last);
      } else {
        MarkerDone(json, s, last);
      }
    }
  }

  lemma MarkerDone(json: Json, s: State, item: Item)
    requires !s.halted && Step(json, s, item).halted && NoErrors(Step(json, s, item).out)
    ensures Step(json, s, item).sentDone == s.sentDone
    ensures CountDone(Step(json, s, item).out) == CountDone(s.out) + (if s.sentDone then 0 else 1)
  {
    hide CountDone, Flush;
    OneDone(DoneEvent);
    DoneConcat(s.out, [DoneEvent]);
    if IsFlush(item) {
      FlushHalts(json, s);
      if !AllValid(json, s.calls) {
        FailedFlush(json, s);
      }
    } else if item.BadItem? {
      HaltFails(s, item.error);
    }
  }

  /** A stream without errors is done once for each choice that finishes its message, and
      once if none does. */
  lemma DonesAre(json: Json, lines: seq<string>, readError: Option<string>)
    requires NoErrors(Output(json, lines, readError))
    ensures var finished := CountFinished(ChoicesSaid(json, Events(lines)));
            CountDone(Output(json, lines, readError)) == if finished == 0 then 1 else finished
  {
    hide RunItems, Items, Events, CountDone, SaysAll, ChoicesSaid, BeforeEnd, CountFinished, CountFinishItems;
    var items := Items(json, Events(lines));
    var s := RunItems(json, INITIAL, items);
    HaltFails(s, if readError.Some? then readError.value else "");
    OneDone(DoneEvent);
    DoneConcat(s.out, [DoneEvent]);
    assert s.out <= Output(json, lines, readError);
    NoErrorsBefore(s.out, Output(json, lines, readError));
    ErrorFree(s.out);
    DonesAtEnd(json, items);
    PayloadsSay(json, Events(lines));
    DonesWhileOpen(json, BeforeEnd(json, items));
    OpenIsAll(json, items);
    SaidFinishes(BeforeEnd(json, items), ChoicesSaid(json, Events(lines)));
  }

  lemma OpenIsAll(json: Json, items: seq<Item>)
    ensures !RunItems(json, INITIAL, items).halted ==> BeforeEnd(json, items) == items
  {
    hide RunItems;
  }

  /** An error is the last thing sent. */
  lemma {:induction false} ErrorsComeLast(json: Json, items: seq<Item>)
    ensures var s := RunItems(json, INITIAL, items);
            && (!s.halted ==> NoErrors(s.out))
            && forall i | 0 <= i < |s.out| - 1 :: !s.out[i].ErrorEvent?
  {
    hide Step;
    if items != [] {
      ErrorsComeLast(json, items[..|items| - 1]);
      StepErrs(json, RunItems(json, INITIAL, items[..|items| - 1]), items[|items| - 1]);
    }
  }

  lemma StepErrs(json: Json, s: State, item: Item)
    requires (!s.halted ==> NoErrors(s.out)) && forall i | 0 <= i < |s.out| - 1 :: !s.out[i].ErrorEvent?
    ensures var r := Step(json, s, item);
            && (!r.halted ==> NoErrors(r.out))
            && forall i | 0 <= i < |r.out| - 1 :: !r.out[i].ErrorEvent?
  {
    hide FlushedCalls, ValidInput;
    if !s.halted {
      var indices := SortedInts(s.calls.Keys);
      FlushErrs(json, s.calls, indices);
      var flushed := FlushedCalls(json, s.calls, indices);
      ErrsAtEnd(s.out, flushed);
      if AllValid(json, s.calls) {
        assert NoErrors(s.out + flushed);
        ErrsAtEnd(s.out + flushed, [DoneEvent]);
      }
    }
  }

  lemma ErrsAtEnd(a: seq<Event>, b: seq<Event>)
    requires NoErrors(a) && forall i | 0 <= i < |b| - 1 :: !b[i].ErrorEvent?
    ensures forall i | 0 <= i < |a + b| - 1 :: !(a + b)[i].ErrorEvent?
  {
  }

  lemma {:induction false} FlushErrs(json: Json, calls: map<Int64, Accumulator>, indices: seq<Int64>)
    requires forall k | 0 <= k < |indices| :: indices[k] in calls
    ensures var flushed := FlushedCalls(json, calls, indices);
            && ((forall k | 0 <= k < |indices| :: ValidInput(json, calls[indices[k]])) ==> NoErrors(flushed))
            && forall i | 0 <= i < |flushed| - 1 :: !flushed[i].ErrorEvent?
  {
    hide ValidInput;
    if indices != [] && ValidInput(json, calls[indices[0]]) {
      FlushErrs(json, calls, indices[1..]);
      var rest := FlushedCalls(json, calls, indices[1..]);
      assert FlushedCalls(json, calls, indices)[1..] == rest;
      assert forall k | 0 < k < |indices| :: indices[k] == indices[1..][k - 1];
    }
  }

  /** A payload that is no chunk, or an error of the server, ends what is sent with that error. */
  lemma BadPayloadEnds(json: Json, payloads: seq<string>, last: string)
    requires !RunItems(json, INITIAL, Items(json, payloads)).halted
    requires TrimSpace(last) != "[DONE]"
    ensures var out, chunk := RunItems(json, INITIAL, Items(json, payloads + [last])).out, json.chunk(TrimSpace(last));
            && (chunk.Err? ==> out == RunItems(json, INITIAL, Items(json, payloads)).out + [ErrorEvent(chunk.error)])
            && (chunk.Ok? && chunk.value.error.Some? ==>
                  out == RunItems(json, INITIAL, Items(json, payloads)).out +
                    [ErrorEvent(TrimSpace(chunk.value.error.value))])
  {
    hide TrimSpace, RunItems;
    assert (payloads + [last])[..|payloads|] == payloads;
    RunConcat(json, INITIAL, Items(json, payloads), PayloadItems(json, last));
    OneItem(json, RunItems(json, INITIAL, Items(json, payloads)));
  }

  /** A failing read ends an open stream with its error; an ended one is left as it is. */
  lemma ReadErrorEnds(json: Json, lines: seq<string>, error: string)
    ensures var s := RunItems(json, INITIAL, Items(json, Events(lines)));
            Output(json, lines, Some(error)) == s.out + if s.halted then [] else [ErrorEvent(error)]
  {
    hide RunItems, Items, Events;
  }
}
