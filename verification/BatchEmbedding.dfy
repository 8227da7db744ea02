/** BatchEmbed as interleaved steps: the launching loop behind a semaphore, one
    goroutine per batch, an error channel of one slot, and the final select. */
module BatchEmbedding {
  import opened Text
  import opened Vectors

  const BATCH_SIZE: nat := 100

  /** Why a batch failed: by itself, or because its context was already done. */
  datatype Failure = OwnFailure(batch: nat) | KnockedOn(batch: nat) | ContextDone

  datatype BatchStatus = Unlaunched | Embedding | Reporting(error: Failure) | Cancelling | Finished

  datatype Outcome = Results(slots: seq<Option<Vector>>) | Error(error: Failure)

  datatype Main = Launching(next: nat) | Waiting | Returned(outcome: Outcome)

  /** answers and failed record what each batch's call came to; firstReport the first
      error that entered the channel. */
  datatype State = State(
    status: seq<BatchStatus>,
    results: seq<Option<Vector>>,
    errCh: Option<Failure>,
    cancelled: bool,
    callerCancelled: bool,
    main: Main,
    answers: map<nat, seq<Vector>>,
    failed: set<nat>,
    firstReport: Option<Failure>)

  function Min(a: int, b: int): int {
    if a < b then a else b
  }

  function BatchCount(n: nat): nat {
    (n + BATCH_SIZE - 1) / BATCH_SIZE
  }

  function BatchStart(k: nat): nat {
    BATCH_SIZE * k
  }

  function BatchEnd(n: nat, k: nat): nat {
    Min(BATCH_SIZE * k + BATCH_SIZE, n)
  }

  /** The batches cut the texts into disjoint ranges of at most 100: every text lies in
      exactly one. */
  lemma BatchesPartition(n: nat, i: nat)
    requires i < n
    ensures i / BATCH_SIZE < BatchCount(n)
    ensures forall k: nat | k < BatchCount(n) :: BatchStart(k) <= i < BatchEnd(n, k) <==> k == i / BATCH_SIZE
    ensures forall k: nat | k < BatchCount(n) ::
            BatchStart(k) < BatchEnd(n, k) <= n && BatchEnd(n, k) - BatchStart(k) <= BATCH_SIZE
  {
  }

  datatype Step =
    | Launch
    | AcquireFails
    | EmbedOk(batch: nat, vectors: seq<Vector>)
    | EmbedFails(batch: nat, own: bool)
    | Report(batch: nat)
    | Cancel(batch: nat)
    | CallerCancels
    | ReturnError
    | ReturnDone
    | ReturnContext

  predicate IsInFlight(s: BatchStatus) {
    s.Embedding? || s.Reporting? || s.Cancelling?
  }

  function InFlight(status: seq<BatchStatus>): nat {
    if status == [] then 0
    else InFlight(status[..|status| - 1]) + if IsInFlight(status[|status| - 1]) then 1 else 0
  }

  predicate ContextIsDone(s: State) {
    s.cancelled || s.callerCancelled
  }

  function Initial(n: nat): State
    requires n > 0
  {
    State(seq(BatchCount(n), _ => Unlaunched), seq(n, _ => None), None, false, false, Launching(0), map[], {}, None)
  }

  ghost predicate Enabled(s: State, n: nat, limit: nat, step: Step) {
    match step
    case Launch => s.main.Launching? && s.main.next < |s.status| && InFlight(s.status) < limit
    case AcquireFails => s.main.Launching? && s.main.next < |s.status| && ContextIsDone(s)
    case EmbedOk(k, _) => k < |s.status| && s.status[k].Embedding?
    case EmbedFails(k, own) => k < |s.status| && s.status[k].Embedding? && (own || ContextIsDone(s))
    case Report(k) => k < |s.status| && s.status[k].Reporting?
    case Cancel(k) => k < |s.status| && s.status[k].Cancelling?
    case CallerCancels => !s.callerCancelled
    case ReturnError => s.main.Waiting? && s.errCh.Some?
    case ReturnDone => s.main.Waiting? && forall k | 0 <= k < |s.status| :: s.status[k].Finished?
    case ReturnContext => s.main.Waiting? && ContextIsDone(s)
  }

  /** An error waiting in the channel is preferred to the context's. */
  function ContextError(s: State): Failure {
    if s.errCh.Some? then s.errCh.value else ContextDone
  }

  function Filled(results: seq<Option<Vector>>, start: nat, vectors: seq<Vector>): seq<Option<Vector>> {
    seq(|results|, i requires 0 <= i < |results| =>
      if start <= i < start + |vectors| then Some(vectors[i - start]) else results[i])
  }

  function Fail(s: State, k: nat, error: Failure): State
    requires k < |s.status|
  {
    s.(status := s.status[k := Reporting(error)], failed := s.failed + {k})
  }

  function Apply(s: State, n: nat, step: Step): State {
    match step
    case Launch =>
      if s.main.Launching? && s.main.next < |s.status| then
        s.(status := s.status[s.main.next := Embedding],
           main := if s.main.next + 1 == |s.status| then Waiting else Launching(s.main.next + 1))
      else s
    case AcquireFails => s.(main := Returned(Error(ContextError(s))), errCh := None, cancelled := true)
    case EmbedOk(k, vectors) =>
      if k >= |s.status| then s
      else if BatchStart(k) + |vectors| != BatchEnd(n, k) then Fail(s, k, OwnFailure(k))
      else s.(status := s.status[k := Finished], results := Filled(s.results, BatchStart(k), vectors),
        answers := s.answers[k := vectors])
    case EmbedFails(k, own) =>
      if k >= |s.status| then s else Fail(s, k, if own then OwnFailure(k) else KnockedOn(k))
    case Report(k) =>
      if k >= |s.status| || !s.status[k].Reporting? then s
      else if s.errCh.None? then
        s.(status := s.status[k := Cancelling], errCh := Some(s.status[k].error),
           firstReport := if s.firstReport.None? then Some(s.status[k].error) else s.firstReport)
      else s.(status := s.status[k := Finished])
    case Cancel(k) =>
      if k >= |s.status| then s else s.(status := s.status[k := Finished], cancelled := true)
    case CallerCancels => s.(callerCancelled := true)
    case ReturnError => s.(main := Returned(Error(ContextError(s))), errCh := None, cancelled := true)
    case ReturnDone => s.(main := Returned(Results(s.results)), cancelled := true)
    case ReturnContext => s.(main := Returned(Error(ContextError(s))), errCh := None, cancelled := true)
  }

  function Run(n: nat, steps: seq<Step>): State
    requires n > 0
  {
    if steps == [] then Initial(n) else Apply(Run(n, steps[..|steps| - 1]), n, steps[|steps| - 1])
  }

  ghost predicate IsRun(n: nat, limit: nat, steps: seq<Step>)
    requires n > 0
  {
    steps != [] ==>
      && IsRun(n, limit, steps[..|steps| - 1])
      && Enabled(Run(n, steps[..|steps| - 1]), n, limit, steps[|steps| - 1])
  }

  // Invariants.

  ghost predicate Shape(s: State, n: nat) {
    && |s.status| == BatchCount(n) && |s.results| == n
    && (s.main.Launching? ==> s.main.next < |s.status| && forall k | s.main.next <= k < |s.status| ::
       s.status[k].Unlaunched?)
    && (s.main.Waiting? ==> forall k | 0 <= k < |s.status| :: !s.status[k].Unlaunched?)
    && (s.main.Launching? ==> forall k | 0 <= k < s.main.next :: !s.status[k].Unlaunched?)
  }

  /** Before main returns, the channel still holds the first report; the inner cancel
      and every knock-on failure come after one, unless the caller cancelled. */
  ghost predicate ErrorsInOrder(s: State) {
    && (!s.main.Returned? ==> s.errCh == s.firstReport)
    && (!s.main.Returned? && s.cancelled ==> s.firstReport.Some?)
    && (forall k | 0 <= k < |s.status| && s.status[k].Cancelling? :: s.firstReport.Some?)
    && (forall k | 0 <= k < |s.status| && s.status[k].Reporting? && !s.status[k].error.OwnFailure? ::
          s.callerCancelled || s.firstReport.Some? || s.main.Returned?)
    && (s.firstReport.Some? && !s.callerCancelled && !s.main.Returned? ==> s.firstReport.value.OwnFailure?)
    && (s.main.Returned? && s.main.outcome.Error? && !s.callerCancelled ==>
          s.firstReport == Some(s.main.outcome.error) && s.main.outcome.error.OwnFailure?)
  }

  /** A finished batch either filled exactly its slots or failed and filled none. */
  ghost predicate SlotsFilled(s: State, n: nat)
    requires |s.results| == n
  {
    && (forall k <- s.answers ::
       k !in s.failed && k < BatchCount(n) && BatchStart(k) + |s.answers[k]| == BatchEnd(n, k))
    && (forall k | 0 <= k < |s.status| && s.status[k].Finished? :: k in s.answers || k in s.failed)
    && (forall k | 0 <= k < |s.status| && (s.status[k].Unlaunched? || s.status[k].Embedding?) ::
       k !in s.answers && k !in s.failed)
    && (forall k | 0 <= k < |s.status| && (s.status[k].Reporting? || s.status[k].Cancelling?) :: k in s.failed)
    && SlotsAnswered(s.results, s.answers)
  }

  /** Each slot holds what the call of its batch answered for it. */
  ghost predicate SlotsAnswered(results: seq<Option<Vector>>, answers: map<nat, seq<Vector>>) {
    forall i: nat | i < |results| ::
      results[i] == if i / BATCH_SIZE in answers && i % BATCH_SIZE < |answers[i / BATCH_SIZE]|
                    then Some(answers[i / BATCH_SIZE][i % BATCH_SIZE]) else None
  }

  ghost predicate Inv(s: State, n: nat, limit: nat) {
    && Shape(s, n) && ErrorsInOrder(s) && SlotsFilled(s, n)
    && InFlight(s.status) <= limit
    && (s.main.Returned? && s.main.outcome.Results? ==>
          s.main.outcome.slots == s.results && forall k | 0 <= k < |s.status| :: s.status[k].Finished?)
  }

  lemma {:induction false} InFlightUpdate(status: seq<BatchStatus>, k: int, new_: BatchStatus)
    requires 0 <= k < |status|
    ensures InFlight(status[k := new_]) ==
            InFlight(status) - (if IsInFlight(status[k]) then 1 else 0) + if IsInFlight(new_) then 1 else 0
  {
    var front := status[..|status| - 1];
    if k == |status| - 1 {
      assert status[k := new_][..|status| - 1] == front;
    } else {
      assert status[k := new_][..|status| - 1] == front[k := new_];
      InFlightUpdate(front, k, new_);
    }
  }

  lemma {:induction false} NoneInFlight(n: nat)
    ensures InFlight(seq(n, _ => Unlaunched)) == 0
  {
    if n > 0 {
      assert seq(n, _ => Unlaunched)[..n - 1] == seq(n - 1, _ => Unlaunched);
      NoneInFlight(n - 1);
    }
  }

  lemma InitialInv(n: nat, limit: nat)
    requires n > 0
    ensures Inv(Initial(n), n, limit)
  {
    NoneInFlight(BatchCount(n));
  }

  lemma LimitKept(s: State, n: nat, limit: nat, step: Step)
    requires Inv(s, n, limit) && Enabled(s, n, limit, step)
    ensures InFlight(Apply(s, n, step).status) <= limit
  {
    match step
    case Launch => InFlightUpdate(s.status, s.main.next, Embedding);
    case EmbedOk(k, _) =>
      InFlightUpdate(s.status, k, Finished);
      InFlightUpdate(s.status, k, Reporting(OwnFailure(k)));
    case EmbedFails(k, own) => InFlightUpdate(s.status, k, Reporting(if own then OwnFailure(k) else KnockedOn(k)));
    case Report(k) =>
      InFlightUpdate(s.status, k, Cancelling);
      InFlightUpdate(s.status, k, Finished);
    case Cancel(k) => InFlightUpdate(s.status, k, Finished);
    case _ =>
  }

  lemma ErrorsKept(s: State, n: nat, limit: nat, step: Step)
    requires Inv(s, n, limit) && Enabled(s, n, limit, step)
    ensures ErrorsInOrder(Apply(s, n, step))
  {
    hide SlotsFilled, InFlight, Filled;
  }

  lemma ShapeKept(s: State, n: nat, limit: nat, step: Step)
    requires Inv(s, n, limit) && Enabled(s, n, limit, step)
    ensures Shape(Apply(s, n, step), n)
  {
    hide SlotsFilled, InFlight, ErrorsInOrder;
  }

  lemma FilledSlots(s: State, n: nat, k: nat, vectors: seq<Vector>)
    requires Shape(s, n) && SlotsFilled(s, n) && k < |s.status| && s.status[k].Embedding?
    requires BatchStart(k) + |vectors| == BatchEnd(n, k)
    ensures SlotsFilled(Apply(s, n, EmbedOk(k, vectors)), n)
  {
    var after := Apply(s, n, EmbedOk(k, vectors));
    forall i: nat | i < n
      ensures after.results[i] == if i / BATCH_SIZE in after.answers && i % BATCH_SIZE < |after.answers[i / BATCH_SIZE]|
                                  then Some(after.answers[i / BATCH_SIZE][i % BATCH_SIZE]) else None
    {
      BatchesPartition(n, i);
      assert i == BATCH_SIZE * (i / BATCH_SIZE) + i % BATCH_SIZE;
    }
  }

  lemma FailedSlots(s: State, n: nat, k: nat, error: Failure)
    requires Shape(s, n) && SlotsFilled(s, n) && k < |s.status| && s.status[k].Embedding?
    ensures SlotsFilled(Fail(s, k, error), n)
  {
  }

  /** Any step that is no answer of a batch's call. */
  lemma OtherSlots(s: State, n: nat, limit: nat, step: Step)
    requires Inv(s, n, limit) && Enabled(s, n, limit, step) && !step.EmbedOk? && !step.EmbedFails?
    ensures SlotsFilled(Apply(s, n, step), n)
  {
    hide ErrorsInOrder, InFlight, ContextError, Filled, SlotsAnswered;
  }

  lemma SlotsKept(s: State, n: nat, limit: nat, step: Step)
    requires Inv(s, n, limit) && Enabled(s, n, limit, step)
    ensures SlotsFilled(Apply(s, n, step), n)
  {
    hide ErrorsInOrder, InFlight, SlotsFilled, Shape, Fail, Filled;
    match step
    case EmbedOk(k, vectors) =>
      if BatchStart(k) + |vectors| == BatchEnd(n, k) {
        FilledSlots(s, n, k, vectors);
      } else {
        FailedSlots(s, n, k, OwnFailure(k));
      }
    case EmbedFails(k, own) => FailedSlots(s, n, k, if own then OwnFailure(k) else KnockedOn(k));
    case _ => OtherSlots(s, n, limit, step);
  }

  lemma ReturnedKept(s: State, n: nat, limit: nat, step: Step)
    requires Inv(s, n, limit) && Enabled(s, n, limit, step)
    ensures var after := Apply(s, n, step);
            after.main.Returned? && after.main.outcome.Results? ==>
              after.main.outcome.slots == after.results && forall k | 0 <= k < |after.status| ::
                after.status[k].Finished?
  {
    hide ErrorsInOrder, InFlight, SlotsFilled, Shape;
  }

  lemma {:induction false} InvAlways(n: nat, limit: nat, steps: seq<Step>)
    requires n > 0 && IsRun(n, limit, steps)
    ensures Inv(Run(n, steps), n, limit)
  {
    hide Shape, ErrorsInOrder, SlotsFilled, InFlight, Enabled, Apply;
    if steps == [] {
      InitialInv(n, limit);
    } else {
      var s, step := Run(n, steps[..|steps| - 1]), steps[|steps| - 1];
      InvAlways(n, limit, steps[..|steps| - 1]);
      ShapeKept(s, n, limit, step);
      ErrorsKept(s, n, limit, step);
      SlotsKept(s, n, limit, step);
      LimitKept(s, n, limit, step);
      ReturnedKept(s, n, limit, step);
    }
  }

  // Results.

  /** In every interleaving no more batches are in flight than the limit. */
  lemma ConcurrencyBounded(n: nat, limit: nat, steps: seq<Step>)
    requires n > 0 && IsRun(n, limit, steps)
    ensures InFlight(Run(n, steps).status) <= limit
  {
    InvAlways(n, limit, steps);
  }

  /** A returned result holds, in the slot of each text, the vector its batch's call
      gave for it; the slots of a failed batch, and only those, are empty. */
  lemma ResultsInOrder(n: nat, limit: nat, steps: seq<Step>, i: nat)
    requires n > 0 && IsRun(n, limit, steps) && i < n
    requires Run(n, steps).main.Returned? && Run(n, steps).main.outcome.Results?
    ensures var s, slots := Run(n, steps), Run(n, steps).main.outcome.slots;
            && |slots| == n
            && (i / BATCH_SIZE in s.failed ==> slots[i] == None)
            && (i / BATCH_SIZE !in s.failed ==>
                  && i / BATCH_SIZE in s.answers && i % BATCH_SIZE < |s.answers[i / BATCH_SIZE]|
                  && slots[i] == Some(s.answers[i / BATCH_SIZE][i % BATCH_SIZE]))
  {
    hide ErrorsInOrder, InFlight, Run, IsRun;
    InvAlways(n, limit, steps);
    BatchesPartition(n, i);
    assert i == BATCH_SIZE * (i / BATCH_SIZE) + i % BATCH_SIZE;
    assert Run(n, steps).status[i / BATCH_SIZE].Finished?;
  }

  /** So "no error means every slot filled" holds exactly when no batch failed. */
  lemma AllFilledIff(n: nat, limit: nat, steps: seq<Step>)
    requires n > 0 && IsRun(n, limit, steps)
    requires Run(n, steps).main.Returned? && Run(n, steps).main.outcome.Results?
    ensures |Run(n, steps).main.outcome.slots| == n
    ensures (forall i | 0 <= i < n :: Run(n, steps).main.outcome.slots[i].Some?)
            <==> forall k: nat | k < BatchCount(n) :: k !in Run(n, steps).failed
  {
    hide Run, IsRun;
    var s := Run(n, steps);
    ResultsInOrder(n, limit, steps, 0);
    forall i: nat | i < n ensures s.main.outcome.slots[i].Some? <==> i / BATCH_SIZE !in s.failed {
      ResultsInOrder(n, limit, steps, i);
    }
    forall k: nat | k < BatchCount(n) && k in s.failed ensures exists i: nat :: i < n && i / BATCH_SIZE == k {
      assert BatchStart(k) / BATCH_SIZE == k && BatchStart(k) < n;
    }
    forall i: nat | i < n ensures i / BATCH_SIZE < BatchCount(n) {
      BatchesPartition(n, i);
    }
  }

  /** If the caller never cancels, an error BatchEmbed returns is the first one reported,
      and a batch's own failure: never a knock-on cancellation. */
  lemma FirstFailureReturned(n: nat, limit: nat, steps: seq<Step>)
    requires n > 0 && IsRun(n, limit, steps) && !Run(n, steps).callerCancelled
    requires Run(n, steps).main.Returned? && Run(n, steps).main.outcome.Error?
    ensures Run(n, steps).firstReport == Some(Run(n, steps).main.outcome.error)
    ensures Run(n, steps).main.outcome.error.OwnFailure?
  {
    InvAlways(n, limit, steps);
  }

  // The record of answers and failures against the steps of the run.

  /** Step p is the call of batch k answering with one vector per text. */
  ghost predicate AnswersAt(n: nat, steps: seq<Step>, p: int, k: nat, vectors: seq<Vector>) {
    0 <= p < |steps| && steps[p] == EmbedOk(k, vectors) && BatchStart(k) + |vectors| == BatchEnd(n, k)
  }

  /** What is recorded for a batch is what its call answered, in some step of the run. */
  lemma {:induction false} AnswersAreSteps(n: nat, limit: nat, steps: seq<Step>, k: nat)
    requires n > 0 && IsRun(n, limit, steps) && k in Run(n, steps).answers
    ensures exists p :: AnswersAt(n, steps, p, k, Run(n, steps).answers[k])
  {
    hide Enabled;
    var front, s := steps[..|steps| - 1], steps[|steps| - 1];
    if k in Run(n, front).answers && Run(n, steps).answers[k] == Run(n, front).answers[k] {
      AnswersAreSteps(n, limit, front, k);
      var p :| AnswersAt(n, front, p, k, Run(n, front).answers[k]);
      assert AnswersAt(n, steps, p, k, Run(n, steps).answers[k]);
    } else {
      assert AnswersAt(n, steps, |steps| - 1, k, Run(n, steps).answers[k]);
    }
  }

  /** So slot i of a returned result holds the vector that the call of its batch gave for
      text i, unless that call failed. */
  lemma SlotsHoldAnswers(n: nat, limit: nat, steps: seq<Step>, i: nat)
    requires n > 0 && IsRun(n, limit, steps) && i < n
    requires Run(n, steps).main.Returned? && Run(n, steps).main.outcome.Results?
    ensures var slots := Run(n, steps).main.outcome.slots;
            && |slots| == n
            && (slots[i].Some? ==>
                  exists p, vectors ::
                    AnswersAt(n, steps, p, i / BATCH_SIZE, vectors) && i % BATCH_SIZE < |vectors|
                    && slots[i].value == vectors[i % BATCH_SIZE])
  {
    hide Run, IsRun, AnswersAt;
    ResultsInOrder(n, limit, steps, i);
    if Run(n, steps).main.outcome.slots[i].Some? {
      AnswersAreSteps(n, limit, steps, i / BATCH_SIZE);
    }
  }

  /** Batch k fails by itself: its call does, or answers with a wrong number of vectors. */
  ghost predicate FailsAt(n: nat, steps: seq<Step>, p: int, k: nat) {
    && 0 <= p < |steps|
    && (steps[p] == EmbedFails(k, true)
        || (steps[p].EmbedOk? && steps[p].batch == k && BatchStart(k) + |steps[p].vectors| != BatchEnd(n, k)))
  }

  ghost predicate HasFailed(n: nat, steps: seq<Step>, k: nat) {
    exists p :: FailsAt(n, steps, p, k)
  }

  /** Step p is the first report of the run, and batch k's. */
  ghost predicate ReportsFirst(steps: seq<Step>, p: int, k: nat) {
    0 <= p < |steps| && steps[p] == Report(k) && forall q | 0 <= q < p :: !steps[q].Report?
  }

  /** A batch that is to report its own failure has failed; and the first failure recorded
      is that of the batch that reported first. */
  ghost predicate Recorded(n: nat, s: State, steps: seq<Step>) {
    && (forall k | 0 <= k < |s.status| && s.status[k].Reporting? && s.status[k].error.OwnFailure? ::
          s.status[k].error.batch == k && HasFailed(n, steps, k))
    && (s.firstReport.None? ==> s.errCh.None? && forall q | 0 <= q < |steps| :: !steps[q].Report?)
    && (s.firstReport.Some? && s.firstReport.value.OwnFailure? ==>
          var k := s.firstReport.value.batch;
          HasFailed(n, steps, k) && exists p :: ReportsFirst(steps, p, k))
  }

  lemma StillFailed(n: nat, steps: seq<Step>, step: Step, k: nat)
    ensures HasFailed(n, steps, k) ==> HasFailed(n, steps + [step], k)
    ensures FailsAt(n, [step], 0, k) ==> HasFailed(n, steps + [step], k)
    ensures (exists p :: ReportsFirst(steps, p, k)) ==> exists p :: ReportsFirst(steps + [step], p, k)
  {
    var all := steps + [step];
    if p :| FailsAt(n, steps, p, k) {
      assert FailsAt(n, all, p, k);
    }
    if FailsAt(n, [step], 0, k) {
      assert FailsAt(n, all, |steps|, k);
    }
    if p :| ReportsFirst(steps, p, k) {
      assert ReportsFirst(all, p, k);
    }
  }

  lemma StepRecords(n: nat, limit: nat, s: State, steps: seq<Step>, step: Step)
    requires Recorded(n, s, steps) && Enabled(s, n, limit, step)
    ensures Recorded(n, Apply(s, n, step), steps + [step])
  {
    hide HasFailed, FailsAt, Filled, InFlight;
    var after, all := Apply(s, n, step), steps + [step];
    forall k: nat
      ensures HasFailed(n, steps, k) ==> HasFailed(n, all, k)
      ensures FailsAt(n, [step], 0, k) ==> HasFailed(n, all, k)
      ensures (exists p :: ReportsFirst(steps, p, k)) ==> exists p :: ReportsFirst(all, p, k)
    {
      StillFailed(n, steps, step, k);
    }
    if step.EmbedOk? || step.EmbedFails? {
      FailingStep(n, limit, s, step);
    }
    if step.Report? && s.firstReport.None? {
      assert ReportsFirst(all, |steps|, step.batch);
    }
  }

  /** A call that comes to a failure of its own is a step that fails. */
  lemma FailingStep(n: nat, limit: nat, s: State, step: Step)
    requires Enabled(s, n, limit, step) && (step.EmbedOk? || step.EmbedFails?)
    ensures var after := Apply(s, n, step);
            && after.errCh == s.errCh && after.firstReport == s.firstReport
            && forall k: nat | k < |after.status| && after.status[k].Reporting? && after.status[k].error.OwnFailure? ::
                 (k < |s.status| && after.status[k] == s.status[k])
                 || (after.status[k].error.batch == k && FailsAt(n, [step], 0, k))
  {
    hide Filled, InFlight;
  }

  lemma {:induction false} RecordedAlways(n: nat, limit: nat, steps: seq<Step>)
    requires n > 0 && IsRun(n, limit, steps)
    ensures Recorded(n, Run(n, steps), steps)
  {
    hide Apply, Enabled;
    if steps == [] {
      NothingRecorded(n);
    } else {
      var front := steps[..|steps| - 1];
      RecordedAlways(n, limit, front);
      assert steps == front + [steps[|steps| - 1]];
      StepRecords(n, limit, Run(n, front), front, steps[|steps| - 1]);
    }
  }

  lemma NothingRecorded(n: nat)
    requires n > 0
    ensures Recorded(n, Initial(n), [])
  {
  }

  /** The error returned, unless the caller cancels, is that of the batch that reported
      first, and that batch did fail by itself. */
  lemma ErrorIsFirstFailure(n: nat, limit: nat, steps: seq<Step>)
    requires n > 0 && IsRun(n, limit, steps) && !Run(n, steps).callerCancelled
    requires Run(n, steps).main.Returned? && Run(n, steps).main.outcome.Error?
    ensures Run(n, steps).main.outcome.error.OwnFailure?
    ensures var k := Run(n, steps).main.outcome.error.batch;
            HasFailed(n, steps, k) && exists p :: ReportsFirst(steps, p, k)
  {
    hide Run, IsRun, HasFailed, ReportsFirst;
    FirstFailureReturned(n, limit, steps);
    RecordedAlways(n, limit, steps);
  }

  /** The failing run: the only batch fails and reports, and the final select still
      picks the closed done channel. */
  lemma EmptySlotsWithoutError(n: nat)
    requires 0 < n <= BATCH_SIZE
    ensures exists steps :: IsRun(n, 1, steps) && Run(n, steps).main == Returned(Results(seq(n, _ => None)))
  {
    var s0 := Initial(n);
    assert BatchCount(n) == 1 && s0.status == [Unlaunched];
    var s1 := s0.(status := [Embedding], main := Waiting);
    var s2 := s1.(status := [Reporting(OwnFailure(0))], failed := {0});
    var s3 := s2.(status := [Cancelling], errCh := Some(OwnFailure(0)), firstReport := Some(OwnFailure(0)));
    var s4 := s3.(status := [Finished], cancelled := true);
    NoneInFlight(1);
    assert s0.status == seq(1, _ => Unlaunched);
    assert Enabled(s0, n, 1, Launch) && Apply(s0, n, Launch) == s1;
    assert Enabled(s1, n, 1, EmbedFails(0, true)) && Apply(s1, n, EmbedFails(0, true)) == s2;
    assert Enabled(s2, n, 1, Report(0)) && Apply(s2, n, Report(0)) == s3;
    assert Enabled(s3, n, 1, Cancel(0)) && Apply(s3, n, Cancel(0)) == s4;
    assert Enabled(s4, n, 1, ReturnDone) && Apply(s4, n, ReturnDone).main == Returned(Results(seq(n, _ => None)));
    FiveSteps(n, Launch, EmbedFails(0, true), Report(0), Cancel(0), ReturnDone);
  }

  lemma FiveSteps(n: nat, a: Step, b: Step, c: Step, d: Step, e: Step)
    requires n > 0
    requires Enabled(Initial(n), n, 1, a)
    requires Enabled(Apply(Initial(n), n, a), n, 1, b)
    requires Enabled(Apply(Apply(Initial(n), n, a), n, b), n, 1, c)
    requires Enabled(Apply(Apply(Apply(Initial(n), n, a), n, b), n, c), n, 1, d)
    requires Enabled(Apply(Apply(Apply(Apply(Initial(n), n, a), n, b), n, c), n, d), n, 1, e)
    ensures IsRun(n, 1, [] + [a] + [b] + [c] + [d] + [e])
    ensures Run(n, [] + [a] + [b] + [c] + [d] + [e]) ==
            Apply(Apply(Apply(Apply(Apply(Initial(n), n, a), n, b), n, c), n, d), n, e)
  {
    hide Apply, Enabled, Initial;
    OneMore(n, 1, [], a);
    OneMore(n, 1, [] + [a], b);
    OneMore(n, 1, [] + [a] + [b], c);
    OneMore(n, 1, [] + [a] + [b] + [c], d);
    OneMore(n, 1, [] + [a] + [b] + [c] + [d], e);
  }

  lemma OneMore(n: nat, limit: nat, steps: seq<Step>, step: Step)
    requires n > 0
    ensures Run(n, steps + [step]) == Apply(Run(n, steps), n, step)
    ensures IsRun(n, limit, steps + [step]) <==> IsRun(n, limit, steps) && Enabled(Run(n, steps), n, limit, step)
  {
    assert (steps + [step])[..|steps|] == steps;
  }

  /** What is left to do: launches, calls, reports, cancels, the return. */
  function Remaining(status: seq<BatchStatus>): nat {
    if status == [] then 0
    else
      var last := status[|status| - 1];
      Remaining(status[..|status| - 1])
      + if last.Unlaunched? then 4 else if last.Embedding? then 3 else if last.Reporting? then 2
        else if last.Cancelling? then 1 else 0
  }

  function StepsLeft(s: State): nat {
    Remaining(s.status) + (if s.main.Returned? then 0 else 1) + if s.callerCancelled then 0 else 1
  }

  lemma {:induction false} RemainingUpdate(status: seq<BatchStatus>, k: int, new_: BatchStatus)
    requires 0 <= k < |status|
    ensures Remaining(status[k := new_]) - Remaining([new_]) == Remaining(status) - Remaining([status[k]])
  {
    var front := status[..|status| - 1];
    assert status[k := new_] == if k == |status| - 1 then front + [new_] else front[k := new_] + [status[|status| - 1]];
    assert [new_][..0] == [] && [status[k]][..0] == [];
    if k < |status| - 1 {
      RemainingUpdate(front, k, new_);
    }
  }

  /** Every step uses up some of what is left, so every run is finite; and until main
      has returned the system can always move without the caller's help. */
  lemma RunsEnd(n: nat, limit: nat, steps: seq<Step>, step: Step)
    requires n > 0 && limit > 0 && IsRun(n, limit, steps)
    ensures Enabled(Run(n, steps), n, limit, step) ==>
            StepsLeft(Apply(Run(n, steps), n, step)) < StepsLeft(Run(n, steps))
    ensures !Run(n, steps).main.Returned? ==> exists next: Step ::
            !next.CallerCancels? && Enabled(Run(n, steps), n, limit, next)
  {
    hide Run, IsRun;
    var s := Run(n, steps);
    InvAlways(n, limit, steps);
    if Enabled(s, n, limit, step) {
      StepUsesUp(s, n, limit, step);
    }
    if !s.main.Returned? {
      NeverStuck(s, n, limit);
    }
  }

  lemma StepUsesUp(s: State, n: nat, limit: nat, step: Step)
    requires Inv(s, n, limit) && Enabled(s, n, limit, step)
    ensures StepsLeft(Apply(s, n, step)) < StepsLeft(s)
  {
    hide ErrorsInOrder, SlotsFilled, InFlight;
    match step
    case Launch => RemainingUpdate(s.status, s.main.next, Embedding);
    case EmbedOk(k, _) =>
      RemainingUpdate(s.status, k, Finished);
      RemainingUpdate(s.status, k, Reporting(OwnFailure(k)));
    case EmbedFails(k, own) => RemainingUpdate(s.status, k, Reporting(if own then OwnFailure(k) else KnockedOn(k)));
    case Report(k) =>
      RemainingUpdate(s.status, k, Cancelling);
      RemainingUpdate(s.status, k, Finished);
    case Cancel(k) => RemainingUpdate(s.status, k, Finished);
    case _ =>
  }

  lemma {:induction false} SomebodyInFlight(status: seq<BatchStatus>) returns (k: nat)
    requires InFlight(status) > 0
    ensures k < |status| && IsInFlight(status[k])
  {
    if IsInFlight(status[|status| - 1]) {
      k := |status| - 1;
    } else {
      k := SomebodyInFlight(status[..|status| - 1]);
    }
  }

  lemma NeverStuck(s: State, n: nat, limit: nat)
    requires Inv(s, n, limit) && limit > 0 && !s.main.Returned?
    ensures exists next: Step :: !next.CallerCancels? && Enabled(s, n, limit, next)
  {
    hide ErrorsInOrder, SlotsFilled;
    if InFlight(s.status) > 0 {
      var k := SomebodyInFlight(s.status);
      assert Enabled(s, n, limit, if s.status[k].Embedding? then EmbedFails(k, true)
             else if s.status[k].Reporting? then Report(k) else Cancel(k));
    } else if s.main.Launching? {
      assert Enabled(s, n, limit, Launch);
    } else {
      forall k | 0 <= k < |s.status| ensures s.status[k].Finished? {
        InFlightUpdate(s.status, k, s.status[k]);
        if IsInFlight(s.status[k]) {
          InFlightUpdate(s.status, k, Finished);
        }
      }
      assert Enabled(s, n, limit, ReturnDone);
    }
  }
}
