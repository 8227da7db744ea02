/** The tool calls that the OpenAI decoder sends: what each is assembled from, and which
    are sent once, twice or never. */
module OpenAiCalls {
  import opened Text
  import opened Sorting
  import opened SseFraming
  import opened OpenAiStream

  /** The fragments of one index, in order. */
  function FragmentsOf(items: seq<Item>, index: Int64): seq<Fragment> {
    if items == [] then []
    else
      var last := items[|items| - 1];
      FragmentsOf(items[..|items| - 1], index)
      + if last.FragmentItem? && last.fragment.index == index then [last.fragment] else []
  }

  function Arguments(fragments: seq<Fragment>): string {
    if fragments == [] then ""
    else Arguments(fragments[..|fragments| - 1]) + fragments[|fragments| - 1].arguments
  }

  /** The last non-empty id, and the last non-empty name. */
  function LastId(fragments: seq<Fragment>): string {
    if fragments == [] then ""
    else if fragments[|fragments| - 1].id != "" then fragments[|fragments| - 1].id
    else LastId(fragments[..|fragments| - 1])
  }

  function LastName(fragments: seq<Fragment>): string {
    if fragments == [] then ""
    else if fragments[|fragments| - 1].name != "" then fragments[|fragments| - 1].name
    else LastName(fragments[..|fragments| - 1])
  }

  /** What is assembled for an index depends on that index's fragments alone, however
      those of other indices interleave and however the stream is cut into chunks. */
  lemma {:induction false} AssembledByIndex(json: Json, items: seq<Item>, index: Int64)
    requires !RunItems(json, INITIAL, items).halted
    ensures index in RunItems(json, INITIAL, items).calls <==> FragmentsOf(items, index) != []
    ensures index in RunItems(json, INITIAL, items).calls ==>
              RunItems(json, INITIAL, items).calls[index] ==
              Accumulator(LastId(FragmentsOf(items, index)), LastName(FragmentsOf(items, index)),
                Arguments(FragmentsOf(items, index)))
  {
    hide Step;
    if items != [] {
      var front, last := items[..|items| - 1], items[|items| - 1];
      StepAssembles(json, RunItems(json, INITIAL, front), last);
      AssembledByIndex(json, front, index);
      var before, after := FragmentsOf(front, index), FragmentsOf(items, index);
      if last.FragmentItem? && last.fragment.index == index {
        assert after[..|after| - 1] == before;
      } else {
        assert after == before;
      }
    }
  }

  lemma StepAssembles(json: Json, s: State, item: Item)
    requires !Step(json, s, item).halted
    ensures !s.halted
    ensures Step(json, s, item).calls == if item.FragmentItem? then AddFragment(s.calls, item.fragment) else s.calls
  {
    hide Flush, AddFragment;
    FlushKeepsCalls(json, s);
  }

  lemma FlushKeepsCalls(json: Json, s: State)
    ensures Flush(json, s).calls == s.calls && Flush(json, s).sentDone == s.sentDone
  {
  }

  function CallsIn(events: seq<Event>): seq<Event> {
    if events == [] then []
    else CallsIn(events[..|events| - 1]) + if events[|events| - 1].CallEvent? then [events[|events| - 1]] else []
  }

  lemma {:induction false} CallsInConcat(a: seq<Event>, b: seq<Event>)
    ensures CallsIn(a + b) == CallsIn(a) + CallsIn(b)
  {
    if b == [] {
      assert a + b == a;
    } else {
      assert (a + b)[..|a + b| - 1] == a + b[..|b| - 1];
      CallsInConcat(a, b[..|b| - 1]);
    }
  }

  /** The calls one flush emits: every index once, in increasing order. */
  function CallsOf(calls: map<Int64, Accumulator>, indices: seq<Int64>): seq<Event>
    requires forall k | 0 <= k < |indices| :: indices[k] in calls
  {
    seq(|indices|, k requires 0 <= k < |indices| => CallOf(calls, indices[k]))
  }

  lemma {:induction false} FlushedAreCalls(json: Json, calls: map<Int64, Accumulator>, indices: seq<Int64>)
    requires forall k | 0 <= k < |indices| :: indices[k] in calls
    requires forall k | 0 <= k < |indices| :: ValidInput(json, calls[indices[k]])
    ensures FlushedCalls(json, calls, indices) == CallsOf(calls, indices)
    ensures CallsIn(CallsOf(calls, indices)) == CallsOf(calls, indices)
  {
    if indices != [] {
      FlushedAreCalls(json, calls, indices[1..]);
      assert CallsOf(calls, indices) == [CallOf(calls, indices[0])] + CallsOf(calls, indices[1..]);
      CallsInConcat([CallOf(calls, indices[0])], CallsOf(calls, indices[1..]));
      assert CallsIn([CallOf(calls, indices[0])]) == [CallOf(calls, indices[0])];
    }
  }

  ghost predicate IsFlush(item: Item) {
    item == FinishItem("tool_calls")
  }

  /** The calls of a stream without errors: for every tool_calls finish, all that was
      assembled up to it, again from the first index on. */
  ghost function ExpectedCalls(json: Json, items: seq<Item>): seq<Event> {
    if items == [] then []
    else
      var front, last := items[..|items| - 1], items[|items| - 1];
      var calls := RunItems(json, INITIAL, front).calls;
      ExpectedCalls(json, front) + if IsFlush(last) then CallsOf(calls, SortedInts(calls.Keys)) else []
  }

  lemma {:induction false} CallsEmitted(json: Json, items: seq<Item>)
    requires !RunItems(json, INITIAL, items).halted
    ensures CallsIn(RunItems(json, INITIAL, items).out) == ExpectedCalls(json, items)
  {
    if items != [] {
      var front, last := items[..|items| - 1], items[|items| - 1];
      CallsEmitted(json, front);
      StepCalls(json, RunItems(json, INITIAL, front), last);
    }
  }

  lemma StepCalls(json: Json, s: State, item: Item)
    requires !s.halted && !Step(json, s, item).halted
    ensures CallsIn(Step(json, s, item).out) == CallsIn(s.out) + if IsFlush(item)
            then CallsOf(s.calls, SortedInts(s.calls.Keys)) else []
  {
    if IsFlush(item) {
      var indices := SortedInts(s.calls.Keys);
      assert AllValid(json, s.calls);
      FlushedAreCalls(json, s.calls, indices);
      var flushed := s.out + CallsOf(s.calls, indices);
      CallsInConcat(s.out, CallsOf(s.calls, indices));
      CallsInConcat(flushed, [DoneEvent]);
    } else {
      forall e: Event | !e.CallEvent? ensures CallsIn(s.out + [e]) == CallsIn(s.out) {
        assert (s.out + [e])[..|s.out|] == s.out;
      }
    }
  }

  ghost predicate HasFragment(items: seq<Item>) {
    exists i :: 0 <= i < |items| && items[i].FragmentItem?
  }

  lemma {:induction false} FragmentsAssemble(json: Json, items: seq<Item>)
    requires !RunItems(json, INITIAL, items).halted
    ensures HasFragment(items) <==> RunItems(json, INITIAL, items).calls != map[]
  {
    hide Step;
    if items != [] {
      var front, last := items[..|items| - 1], items[|items| - 1];
      StepAssembles(json, RunItems(json, INITIAL, front), last);
      FragmentsAssemble(json, front);
      assert last.FragmentItem? || forall i | 0 <= i < |items| && items[i].FragmentItem? :: front[i] == items[i];
    }
  }

  /** The tool_calls finishes with a fragment somewhere before them. */
  ghost function LoadedFinishes(items: seq<Item>): nat {
    if items == [] then 0
    else
      var front, last := items[..|items| - 1], items[|items| - 1];
      LoadedFinishes(front) + if IsFlush(last) && HasFragment(front) then 1 else 0
  }

  predicate SameIndex(a: Event, b: Event) {
    a.CallEvent? && b.CallEvent? && a.index == b.index
  }

  ghost predicate NoIndexTwice(calls: seq<Event>) {
    forall i, j | 0 <= i < j < |calls| :: !SameIndex(calls[i], calls[j])
  }

  /** Each call carries an index that has been assembled. */
  ghost predicate AreAssembled(calls: seq<Event>, assembled: map<Int64, Accumulator>) {
    forall i | 0 <= i < |calls| :: calls[i].CallEvent? && calls[i].index in assembled
  }

  lemma FlushOfAll(assembled: map<Int64, Accumulator>)
    ensures var calls := CallsOf(assembled, SortedInts(assembled.Keys));
            && AreAssembled(calls, assembled) && NoIndexTwice(calls)
            && (forall index <- assembled :: exists i ::
               0 <= i < |calls| && calls[i].CallEvent? && calls[i].index == index)
  {
    var indices := SortedInts(assembled.Keys);
    var calls := CallsOf(assembled, indices);
    forall index | index in assembled
      ensures exists i :: 0 <= i < |calls| && calls[i].CallEvent? && calls[i].index == index
    {
      assert index in indices;
      var i :| 0 <= i < |indices| && indices[i] == index;
      assert calls[i].index == index;
    }
  }

  /** A flush after calls were sent sends their indices again. */
  lemma FlushAgain(sent: seq<Event>, assembled: map<Int64, Accumulator>)
    requires AreAssembled(sent, assembled)
    ensures var calls := sent + CallsOf(assembled, SortedInts(assembled.Keys));
            && AreAssembled(calls, assembled)
            && (sent != [] ==> !NoIndexTwice(calls))
            && (!NoIndexTwice(sent) ==> !NoIndexTwice(calls))
  {
    hide CallsOf;
    var flushed := CallsOf(assembled, SortedInts(assembled.Keys));
    var calls := sent + flushed;
    FlushOfAll(assembled);
    if sent != [] {
      var i :| 0 <= i < |flushed| && flushed[i].CallEvent? && flushed[i].index == sent[0].index;
      assert SameIndex(calls[0], calls[|sent| + i]);
    }
  }

  lemma {:induction false} ExpectedTwice(json: Json, items: seq<Item>)
    requires !RunItems(json, INITIAL, items).halted
    ensures AreAssembled(ExpectedCalls(json, items), RunItems(json, INITIAL, items).calls)
    ensures ExpectedCalls(json, items) == [] <==> LoadedFinishes(items) == 0
    ensures NoIndexTwice(ExpectedCalls(json, items)) <==> LoadedFinishes(items) <= 1
  {
    hide Step, CallsOf, RunItems, SortedInts, HasFragment;
    if items != [] {
      var front, last := items[..|items| - 1], items[|items| - 1];
      assert items == front + [last];
      RunOneMore(json, INITIAL, front, last);
      var s := RunItems(json, INITIAL, front);
      StepAssembles(json, s, last);
      ExpectedTwice(json, front);
      FragmentsAssemble(json, front);
      var sent := ExpectedCalls(json, front);
      AssembledStays(sent, s.calls, RunItems(json, INITIAL, items).calls);
      assert [] + CallsOf(s.calls, SortedInts(s.calls.Keys)) == CallsOf(s.calls, SortedInts(s.calls.Keys));
      if IsFlush(last) {
        FlushOfAll(s.calls);
        FlushAgain(sent, s.calls);
        FlushOfNone(s.calls);
      } else {
        assert sent + [] == sent;
      }
    }
  }

  lemma FlushOfNone(assembled: map<Int64, Accumulator>)
    ensures CallsOf(assembled, SortedInts(assembled.Keys)) == [] <==> assembled == map[]
  {
    FlushOfAll(assembled);
    var indices := SortedInts(assembled.Keys);
    if indices != [] {
      assert indices[0] in assembled;
    }
    if assembled != map[] {
      var index :| index in assembled;
    }
  }

  lemma AssembledStays(calls: seq<Event>, before: map<Int64, Accumulator>, after: map<Int64, Accumulator>)
    requires AreAssembled(calls, before) && before.Keys <= after.Keys
    ensures AreAssembled(calls, after)
  {
  }

  /** No call index is sent twice exactly when at most one tool_calls finish comes after
      a fragment; a later one sends every call again. */
  lemma SentOnceIff(json: Json, items: seq<Item>)
    requires !RunItems(json, INITIAL, items).halted
    ensures NoIndexTwice(CallsIn(RunItems(json, INITIAL, items).out)) <==> LoadedFinishes(items) <= 1
  {
    CallsEmitted(json, items);
    ExpectedTwice(json, items);
  }

  /** The call that the fragments of an index make. */
  function CallFor(items: seq<Item>, index: Int64): Event {
    var fs := FragmentsOf(items, index);
    CallEvent(index, LastId(fs), LastName(fs), TrimSpace(Arguments(fs)))
  }

  /** Item n is a tool_calls finish that comes after fragments of the index. */
  ghost predicate SentAt(items: seq<Item>, n: int, index: Int64) {
    0 <= n < |items| && IsFlush(items[n]) && FragmentsOf(items[..n], index) != []
  }

  ghost predicate IsSent(items: seq<Item>, e: Event) {
    exists n, index :: SentAt(items, n, index) && e == CallFor(items[..n], index)
  }

  lemma FlushMembers(json: Json, items: seq<Item>)
    requires !RunItems(json, INITIAL, items).halted
    ensures var calls := RunItems(json, INITIAL, items).calls;
            forall e :: e in CallsOf(calls, SortedInts(calls.Keys))
              <==> exists index :: FragmentsOf(items, index) != [] && e == CallFor(items, index)
  {
    hide RunItems, FragmentsOf, LastId, LastName, Arguments, TrimSpace;
    var calls := RunItems(json, INITIAL, items).calls;
    var indices := SortedInts(calls.Keys);
    var flushed := CallsOf(calls, indices);
    forall index ensures FragmentsOf(items, index) != [] <==> index in calls
                 ensures index in calls ==> CallOf(calls, index) == CallFor(items, index) {
      AssembledByIndex(json, items, index);
    }
    forall index | index in calls ensures CallOf(calls, index) in flushed {
      assert index in indices;
      var k :| 0 <= k < |indices| && indices[k] == index;
      assert flushed[k] == CallOf(calls, index);
    }
  }

  /** A finish added at the end sends what was assembled; anything else sends nothing more. */
  lemma SentOneMore(items: seq<Item>, last: Item, e: Event)
    ensures IsSent(items + [last], e) <==>
            IsSent(items, e) || (IsFlush(last) && exists index :: FragmentsOf(items, index) != []
                                                                  && e == CallFor(items, index))
  {
    hide FragmentsOf, CallFor;
    var all := items + [last];
    assert all[..|items|] == items;
    if n, index :| SentAt(items, n, index) && e == CallFor(items[..n], index) {
      assert all[..n] == items[..n];
      assert SentAt(all, n, index);
    }
    if n, index :| SentAt(all, n, index) && e == CallFor(all[..n], index) {
      if n < |items| {
        assert all[..n] == items[..n];
        assert SentAt(items, n, index);
      }
    }
    if index :| IsFlush(last) && FragmentsOf(items, index) != [] && e == CallFor(items, index) {
      assert SentAt(all, |items|, index);
    }
  }

  lemma {:induction false} ExpectedMembers(json: Json, items: seq<Item>)
    requires !RunItems(json, INITIAL, items).halted
    ensures forall e :: e in ExpectedCalls(json, items) <==> IsSent(items, e)
  {
    hide Step, CallsOf, RunItems, SortedInts, CallFor, FragmentsOf, IsSent;
    if items == [] {
      NothingSent();
    } else {
      var front, last := items[..|items| - 1], items[|items| - 1];
      assert items == front + [last];
      RunOneMore(json, INITIAL, front, last);
      StepAssembles(json, RunItems(json, INITIAL, front), last);
      ExpectedMembers(json, front);
      FlushMembers(json, front);
      forall e ensures e in ExpectedCalls(json, items) <==> IsSent(items, e) {
        SentOneMore(front, last, e);
      }
    }
  }

  lemma NothingSent()
    ensures forall e :: !IsSent([], e)
  {
  }

  ghost predicate Carries(calls: seq<Event>, index: Int64) {
    exists i :: 0 <= i < |calls| && calls[i].CallEvent? && calls[i].index == index
  }

  /** Some tool_calls finish comes after a fragment of the index. */
  ghost predicate IsFinished(items: seq<Item>, index: Int64) {
    exists n :: SentAt(items, n, index)
  }

  /** And some such finish has all that the fragments of the index say before it. */
  ghost predicate IsFinishedWhole(items: seq<Item>, index: Int64) {
    exists n :: SentAt(items, n, index) && CallFor(items[..n], index) == CallFor(items, index)
  }

  /** Every index with a fragment is sent, and none is sent twice. */
  ghost predicate AllSentOnce(calls: seq<Event>, items: seq<Item>) {
    && NoIndexTwice(calls)
    && forall index | FragmentsOf(items, index) != [] :: Carries(calls, index)
  }

  /** Every index with a fragment is sent with all its fragments, and none is sent twice. */
  ghost predicate AllSentWhole(calls: seq<Event>, items: seq<Item>) {
    && NoIndexTwice(calls)
    && forall index | FragmentsOf(items, index) != [] :: CallFor(items, index) in calls
  }

  lemma SentIff(json: Json, items: seq<Item>, index: Int64)
    requires !RunItems(json, INITIAL, items).halted
    ensures var calls := ExpectedCalls(json, items);
            && (Carries(calls, index) <==> IsFinished(items, index))
            && (CallFor(items, index) in calls <==> IsFinishedWhole(items, index))
  {
    hide RunItems, ExpectedCalls, FragmentsOf, LastId, LastName, Arguments, TrimSpace;
    var calls := ExpectedCalls(json, items);
    ExpectedMembers(json, items);
    if i :| 0 <= i < |calls| && calls[i].CallEvent? && calls[i].index == index {
      assert calls[i] in calls;
      assert IsSent(items, calls[i]);
      var n, k :| SentAt(items, n, k) && calls[i] == CallFor(items[..n], k);
      assert k == index;
    }
    if n :| SentAt(items, n, index) {
      assert IsSent(items, CallFor(items[..n], index));
      var i :| 0 <= i < |calls| && calls[i] == CallFor(items[..n], index);
    }
    if CallFor(items, index) in calls {
      var n, k :| SentAt(items, n, k) && CallFor(items, index) == CallFor(items[..n], k);
      assert k == index;
    }
  }

  /** Every call is sent exactly once if and only if at most one tool_calls finish comes
      after a fragment, and one comes after a fragment of each index. A call whose fragments
      no such finish follows is lost: neither the end marker nor the end of the stream sends
      it. It is sent whole if no later fragment adds to it. */
  lemma AllSentIff(json: Json, items: seq<Item>)
    requires !RunItems(json, INITIAL, items).halted
    ensures AllSentOnce(ExpectedCalls(json, items), items) <==>
            LoadedFinishes(items) <= 1 && forall index | FragmentsOf(items, index) != [] :: IsFinished(items, index)
    ensures AllSentWhole(ExpectedCalls(json, items), items) <==>
            LoadedFinishes(items) <= 1 && forall index | FragmentsOf(items, index) != [] ::
              IsFinishedWhole(items, index)
  {
    hide RunItems, ExpectedCalls, FragmentsOf, CallFor, NoIndexTwice, LoadedFinishes, Carries, IsFinished,
         IsFinishedWhole;
    ExpectedTwice(json, items);
    forall index
      ensures var calls := ExpectedCalls(json, items);
              && (Carries(calls, index) <==> IsFinished(items, index))
              && (CallFor(items, index) in calls <==> IsFinishedWhole(items, index))
    {
      SentIff(json, items, index);
    }
  }

  /** A second tool_calls finish sends every call a second time. */
  lemma SecondFlushRepeats(json: Json, items: seq<Item>)
    requires NoFlush(items)
    requires !RunItems(json, INITIAL, items + [FinishItem("tool_calls")] + [FinishItem("tool_calls")]).halted
    ensures var once := CallsIn(RunItems(json, INITIAL, items + [FinishItem("tool_calls")]).out);
            CallsIn(RunItems(json, INITIAL, items + [FinishItem("tool_calls")] + [FinishItem("tool_calls")]).out) ==
              once + once
  {
    hide RunItems, CallsIn, CallsOf, NoFlush, SortedInts, Step;
    var finish := FinishItem("tool_calls");
    RunOneMore(json, INITIAL, items, finish);
    RunOneMore(json, INITIAL, items + [finish], finish);
    var s0 := RunItems(json, INITIAL, items);
    var s1 := RunItems(json, INITIAL, items + [finish]);
    StepAssembles(json, s1, finish);
    StepAssembles(json, s0, finish);
    ExpectedWithoutFlush(json, items);
    CallsEmitted(json, items);
    StepCalls(json, s0, finish);
    StepCalls(json, s1, finish);
    assert [] + CallsIn(s1.out) == CallsIn(s1.out);
  }

  ghost predicate NoFlush(items: seq<Item>) {
    forall item <- items :: !IsFlush(item)
  }

  lemma OneFlushOfItems(json: Json, before: seq<Item>, after: seq<Item>)
    requires NoFlush(before) && NoFlush(after)
    requires !RunItems(json, INITIAL, before + [FinishItem("tool_calls")] + after).halted
    ensures var calls := CallsIn(RunItems(json, INITIAL, before + [FinishItem("tool_calls")] + after).out);
            && (forall i | 0 <= i < |calls| :: calls[i].CallEvent?)
            && (forall i, j | 0 <= i < j < |calls| :: calls[i].index < calls[j].index)
            && (forall index :: (exists i :: 0 <= i < |calls| && calls[i].index == index) <==>
               FragmentsOf(before, index) != [])
            && (forall i | 0 <= i < |calls| ::
                  var fs := FragmentsOf(before, calls[i].index);
                  calls[i] == CallEvent(calls[i].index, LastId(fs), LastName(fs), TrimSpace(Arguments(fs))))
  {
    hide RunItems, CallsIn, CallOf;
    OneFlushCalls(json, before, after);
    var state := RunItems(json, INITIAL, before);
    AssembledCalls(json, before, SortedInts(state.calls.Keys));
  }

  lemma OneFlushCalls(json: Json, before: seq<Item>, after: seq<Item>)
    requires NoFlush(before) && NoFlush(after)
    requires !RunItems(json, INITIAL, before + [FinishItem("tool_calls")] + after).halted
    ensures !RunItems(json, INITIAL, before).halted
    ensures var calls := RunItems(json, INITIAL, before).calls;
            CallsIn(RunItems(json, INITIAL, before + [FinishItem("tool_calls")] + after).out) ==
              CallsOf(calls, SortedInts(calls.Keys))
  {
    hide RunItems, CallsIn, CallsOf, NoFlush;
    var flush := before + [FinishItem("tool_calls")];
    var all := flush + after;
    CallsEmitted(json, all);
    ExpectedAfter(json, flush, after);
    assert flush[..|flush| - 1] == before;
    ExpectedWithoutFlush(json, before);
    assert all == before + ([FinishItem("tool_calls")] + after);
    NotHaltedBefore(json, before, [FinishItem("tool_calls")] + after);
  }

  lemma AssembledCalls(json: Json, items: seq<Item>, indices: seq<Int64>)
    requires !RunItems(json, INITIAL, items).halted
    requires IsAscending(indices, RunItems(json, INITIAL, items).calls.Keys)
    requires forall k | 0 <= k < |indices| :: indices[k] in RunItems(json, INITIAL, items).calls
    ensures var calls := CallsOf(RunItems(json, INITIAL, items).calls, indices);
            && (forall i | 0 <= i < |calls| :: calls[i].CallEvent?)
            && (forall i, j | 0 <= i < j < |calls| :: calls[i].index < calls[j].index)
            && (forall index :: (exists i :: 0 <= i < |calls| && calls[i].index == index) <==>
               FragmentsOf(items, index) != [])
            && (forall i | 0 <= i < |calls| ::
                  var fs := FragmentsOf(items, calls[i].index);
                  calls[i] == CallEvent(calls[i].index, LastId(fs), LastName(fs), TrimSpace(Arguments(fs))))
  {
    hide RunItems, FragmentsOf, LastId, LastName, Arguments, TrimSpace;
    var calls := CallsOf(RunItems(json, INITIAL, items).calls, indices);
    forall index
      ensures (exists i :: 0 <= i < |calls| && calls[i].index == index) <==> FragmentsOf(items, index) != []
    {
      AssembledByIndex(json, items, index);
      if index in indices {
        var i :| 0 <= i < |indices| && indices[i] == index;
        assert calls[i].index == index;
      }
    }
    forall i | 0 <= i < |calls|
      ensures var fs := FragmentsOf(items, calls[i].index);
              calls[i] == CallEvent(calls[i].index, LastId(fs), LastName(fs), TrimSpace(Arguments(fs)))
    {
      AssembledByIndex(json, items, indices[i]);
    }
  }

  lemma {:induction false} ExpectedWithoutFlush(json: Json, items: seq<Item>)
    requires NoFlush(items)
    ensures ExpectedCalls(json, items) == []
  {
    if items != [] {
      assert items[|items| - 1] in items;
      assert forall item <- items[..|items| - 1] :: item in items;
      ExpectedWithoutFlush(json, items[..|items| - 1]);
    }
  }

  lemma {:induction false} ExpectedAfter(json: Json, a: seq<Item>, b: seq<Item>)
    requires NoFlush(b)
    ensures ExpectedCalls(json, a + b) == ExpectedCalls(json, a)
  {
    if b == [] {
      assert a + b == a;
    } else {
      assert (a + b)[..|a + b| - 1] == a + b[..|b| - 1];
      assert b[|b| - 1] in b && forall item <- b[..|b| - 1] :: item in b;
      ExpectedAfter(json, a, b[..|b| - 1]);
    }
  }

  lemma NotHaltedBefore(json: Json, a: seq<Item>, b: seq<Item>)
    requires !RunItems(json, INITIAL, a + b).halted
    ensures !RunItems(json, INITIAL, a).halted
  {
    RunConcat(json, INITIAL, a, b);
    if RunItems(json, INITIAL, a).halted {
      HaltedIsFinal(json, RunItems(json, INITIAL, a), b);
    }
  }

  // Whole streams, as the reader ends them.

  ghost predicate NoErrors(out: seq<Event>) {
    forall i | 0 <= i < |out| :: !out[i].ErrorEvent?
  }

  /** No call's input failed to parse. */
  ghost predicate InputsParse(out: seq<Event>) {
    forall i | 0 <= i < |out| :: out[i] != ErrorEvent("parse openai tool input")
  }

  /** The items before the one that ends the stream early, if one does. */
  ghost function BeforeEnd(json: Json, items: seq<Item>): seq<Item> {
    if items == [] || !RunItems(json, INITIAL, items).halted then items
    else BeforeEnd(json, items[..|items| - 1])
  }

  /** What the reader sends, and the items it sends them for. */
  ghost function Output(json: Json, lines: seq<string>, readError: Option<string>): seq<Event> {
    Close(RunItems(json, INITIAL, Items(json, Events(lines))), readError).out
  }

  ghost function StreamItems(json: Json, lines: seq<string>): seq<Item> {
    BeforeEnd(json, Items(json, Events(lines)))
  }

  lemma {:induction false} BadFlushFails(json: Json, calls: map<Int64, Accumulator>, indices: seq<Int64>)
    requires forall k | 0 <= k < |indices| :: indices[k] in calls
    requires exists k :: 0 <= k < |indices| && !ValidInput(json, calls[indices[k]])
    ensures !NoErrors(FlushedCalls(json, calls, indices)) && !InputsParse(FlushedCalls(json, calls, indices))
  {
    hide ValidInput, CallOf;
    var flushed := FlushedCalls(json, calls, indices);
    if ValidInput(json, calls[indices[0]]) {
      var k :| 0 <= k < |indices| && !ValidInput(json, calls[indices[k]]);
      assert indices[1..][k - 1] == indices[k];
      BadFlushFails(json, calls, indices[1..]);
      var rest := FlushedCalls(json, calls, indices[1..]);
      var i :| 0 <= i < |rest| && rest[i] == ErrorEvent("parse openai tool input");
      assert flushed[i + 1] == rest[i];
    } else {
      assert flushed[0] == ErrorEvent("parse openai tool input");
    }
  }

  lemma FailedFlush(json: Json, s: State)
    requires !AllValid(json, s.calls)
    ensures !NoErrors(Flush(json, s).out) && !InputsParse(Flush(json, s).out)
  {
    hide ValidInput, FlushedCalls;
    var indices := SortedInts(s.calls.Keys);
    var index :| index in s.calls && !ValidInput(json, s.calls[index]);
    assert index in indices;
    BadFlushFails(json, s.calls, indices);
    var flushed := FlushedCalls(json, s.calls, indices);
    var i :| 0 <= i < |flushed| && flushed[i] == ErrorEvent("parse openai tool input");
    assert (s.out + flushed)[|s.out| + i] == flushed[i];
  }

  lemma HaltFails(s: State, error: string)
    ensures !NoErrors(Halt(s, error).out)
  {
    assert Halt(s, error).out[|s.out|].ErrorEvent?;
  }

  /** Only the end marker ends a stream early without an error, and it sends no call. */
  lemma HaltingStep(json: Json, s: State, item: Item)
    requires !s.halted && Step(json, s, item).halted && NoErrors(Step(json, s, item).out)
    ensures CallsIn(Step(json, s, item).out) == CallsIn(s.out)
  {
    hide CallsIn, Flush;
    CallsInOneMore(s.out, DoneEvent);
    if IsFlush(item) {
      FlushHalts(json, s);
      if !AllValid(json, s.calls) {
        FailedFlush(json, s);
      }
    } else if item.BadItem? {
      HaltFails(s, item.error);
    }
  }

  lemma FlushHalts(json: Json, s: State)
    ensures Flush(json, s).halted <==> s.halted || !AllValid(json, s.calls)
  {
  }

  lemma CallsInOneMore(out: seq<Event>, e: Event)
    ensures CallsIn(out + [e]) == CallsIn(out) + if e.CallEvent? then [e] else []
  {
    assert (out + [e])[..|out|] == out;
  }

  lemma {:induction false} UnendedCalls(json: Json, items: seq<Item>)
    requires NoErrors(RunItems(json, INITIAL, items).out)
    ensures !RunItems(json, INITIAL, BeforeEnd(json, items)).halted
    ensures CallsIn(RunItems(json, INITIAL, items).out) == CallsIn(RunItems(json, INITIAL, BeforeEnd(json, items)).out)
  {
    hide Step, CallsIn;
    if items != [] && RunItems(json, INITIAL, items).halted {
      var front, last := items[..|items| - 1], items[|items| - 1];
      var s := RunItems(json, INITIAL, front);
      if s.halted {
        HaltedStep(json, s, last);
      } else {
        HaltingStep(json, s, last);
        OutGrows(json, s, last);
      }
      UnendedCalls(json, front);
    }
  }

  lemma HaltedStep(json: Json, s: State, item: Item)
    requires s.halted
    ensures Step(json, s, item) == s
  {
  }

  lemma OutGrows(json: Json, s: State, item: Item)
    ensures s.out <= Step(json, s, item).out
  {
    hide FlushedCalls;
  }

  /** What the reader sends for a stream without errors, the end marker included: for each
      tool_calls finish before the end the calls assembled so far. */
  lemma StreamCalls(json: Json, lines: seq<string>, readError: Option<string>)
    requires NoErrors(Output(json, lines, readError))
    ensures !RunItems(json, INITIAL, StreamItems(json, lines)).halted
    ensures CallsIn(Output(json, lines, readError)) == ExpectedCalls(json, StreamItems(json, lines))
    ensures CallsIn(Output(json, lines, readError)) == CallsIn(RunItems(json, INITIAL, StreamItems(json, lines)).out)
  {
    hide Items, Events, RunItems, CallsIn, NoIndexTwice, ExpectedCalls;
    var items := Items(json, Events(lines));
    var s := RunItems(json, INITIAL, items);
    var out := Close(s, readError).out;
    CallsInOneMore(s.out, DoneEvent);
    HaltFails(s, if readError.Some? then readError.value else "");
    assert forall i | 0 <= i < |s.out| :: out[i] == s.out[i];
    assert CallsIn(out) == CallsIn(s.out);
    UnendedCalls(json, items);
    CallsEmitted(json, BeforeEnd(json, items));
  }

  /** No index is sent twice exactly when at most one tool_calls finish comes after a
      fragment; every call is sent exactly once, or whole, under the conditions above. */
  lemma StreamSendsOnceIff(json: Json, lines: seq<string>, readError: Option<string>)
    requires NoErrors(Output(json, lines, readError))
    ensures var calls, items := CallsIn(Output(json, lines, readError)), StreamItems(json, lines);
            && (NoIndexTwice(calls) <==> LoadedFinishes(items) <= 1)
            && (AllSentOnce(calls, items) <==>
                  LoadedFinishes(items) <= 1 && forall index | FragmentsOf(items, index) != [] ::
                    IsFinished(items, index))
            && (AllSentWhole(calls, items) <==>
                  LoadedFinishes(items) <= 1 && forall index | FragmentsOf(items, index) != [] ::
                    IsFinishedWhole(items, index))
  {
    hide RunItems, CallsIn, NoIndexTwice, AllSentOnce, AllSentWhole, LoadedFinishes, FragmentsOf, CallFor,
         StreamItems, Output, ExpectedCalls,
         IsFinished, IsFinishedWhole;
    StreamCalls(json, lines, readError);
    ExpectedTwice(json, StreamItems(json, lines));
    AllSentIff(json, StreamItems(json, lines));
  }

  /** With a single tool_calls finish the reader sends every call assembled before it
      exactly once, in increasing index order, its arguments the concatenation of its
      fragments. */
  lemma OneFlushEmitsOnce(json: Json, lines: seq<string>, readError: Option<string>, before: seq<Item>,
                          after: seq<Item>)
    requires NoErrors(Output(json, lines, readError))
    requires NoFlush(before) && NoFlush(after)
    requires StreamItems(json, lines) == before + [FinishItem("tool_calls")] + after
    ensures var calls := CallsIn(Output(json, lines, readError));
            && (forall i | 0 <= i < |calls| :: calls[i].CallEvent?)
            && (forall i, j | 0 <= i < j < |calls| :: calls[i].index < calls[j].index)
            && (forall index :: (exists i :: 0 <= i < |calls| && calls[i].index == index) <==>
               FragmentsOf(before, index) != [])
            && (forall i | 0 <= i < |calls| :: calls[i] == CallFor(before, calls[i].index))
  {
    hide RunItems, CallsIn, StreamItems, Output, ExpectedCalls, FragmentsOf, LastId, LastName, Arguments, TrimSpace,
         NoFlush;
    StreamCalls(json, lines, readError);
    OneFlushOfItems(json, before, after);
  }

  /** A call can be lost: with its fragments followed by another finish, or by none, it is
      assembled and nothing sends it. */
  lemma UnfinishedCallIsLost(json: Json, f: Fragment, reason: string)
    requires reason != "tool_calls"
    ensures var s := RunItems(json, INITIAL, [FragmentItem(f), FinishItem(reason)]);
            && !s.halted && f.index in s.calls
            && NoErrors(Close(s, None).out) && CallsIn(Close(s, None).out) == []
  {
    hide RunItems, Step, AddFragment, CallsIn;
    var a := [FragmentItem(f)];
    assert a == [] + [FragmentItem(f)] && [FragmentItem(f), FinishItem(reason)] == a + [FinishItem(reason)];
    RunOneMore(json, INITIAL, [], FragmentItem(f));
    RunOneMore(json, INITIAL, a, FinishItem(reason));
    OtherFinish(json, RunItems(json, INITIAL, a), reason);
    CallsInOneMore([], DoneEvent);
    NoCalls();
    assert f.index in AddFragment(INITIAL.calls, f) by { AddsIndex(f); }
    assert [] + [DoneEvent] == [DoneEvent];
  }

  lemma OtherFinish(json: Json, s: State, reason: string)
    requires reason != "tool_calls"
    ensures Step(json, s, FinishItem(reason)) ==
            if !s.halted && reason == "stop" then Emit(s.(sentDone := true), DoneEvent) else s
  {
    hide Flush;
  }

  lemma AddsIndex(f: Fragment)
    ensures f.index in AddFragment(INITIAL.calls, f)
  {
  }

  lemma NoCalls()
    ensures CallsIn([]) == []
  {
  }
}
