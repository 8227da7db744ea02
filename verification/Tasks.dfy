/** Index tasks and their queue as interleaved steps: a repo's status derived from its task
    history, and the refusal of a second trigger. */
module Tasks {
  import opened Text
  import opened IndexTables

  datatype TaskStatus = Pending | Running | Completed | Failed | Partial

  datatype Task = Task(repo: RepoId, jobType: string, status: TaskStatus, createdAt: int)

  datatype Message = Message(task: TaskId, repo: RepoId, jobType: string)

  /** A call of TriggerIndex that passed its check, and then created its task. */
  datatype TriggerCall =
    | Checked(repo: RepoId, jobType: string)
    | Created(repo: RepoId, jobType: string, task: TaskId)

  /** The tasks table, the trigger calls under way, the stream with its group and the
      group's cursor, the messages workers hold but have not started, the ones being run,
      and the clock. */
  datatype Board = Board(
    repos: set<RepoId>,
    tasks: map<TaskId, Task>,
    nextTask: TaskId,
    calls: map<nat, TriggerCall>,
    nextCall: nat,
    stream: seq<Message>,
    grouped: bool,
    cursor: nat,
    held: set<nat>,
    started: set<nat>,
    now: int)

  predicate IsActive(t: Task) {
    t.status == Pending || t.status == Running
  }

  predicate IsFresh(t: Task, now: int, threshold: nat) {
    now - t.createdAt <= threshold
  }

  /** deriveRepoStatus, from the latest task of the repo if it has any. */
  function DeriveStatus(latest: Option<Task>, now: int, threshold: nat): string {
    match latest
    case None => "registered"
    case Some(t) =>
      if IsActive(t) && IsFresh(t, now, threshold) then "indexing"
      else
        match t.status
        case Completed => "indexed"
        case Partial => "partial"
        case Failed => "failed"
        case _ => "registered"
  }

  /** A row that ORDER BY created_at DESC LIMIT 1 may return; ties leave a choice. */
  ghost predicate IsLatest(tasks: map<TaskId, Task>, repo: RepoId, id: TaskId) {
    && id in tasks && tasks[id].repo == repo
    && forall other <- tasks | tasks[other].repo == repo :: tasks[other].createdAt <= tasks[id].createdAt
  }

  /** The same among the pending and running tasks. */
  ghost predicate IsLatestActive(tasks: map<TaskId, Task>, repo: RepoId, id: TaskId) {
    && id in tasks && tasks[id].repo == repo && IsActive(tasks[id])
    && forall other <- tasks | tasks[other].repo == repo && IsActive(tasks[other]) ::
       tasks[other].createdAt <= tasks[id].createdAt
  }

  ghost predicate IsFreshActive(b: Board, threshold: nat, repo: RepoId, id: TaskId) {
    id in b.tasks && b.tasks[id].repo == repo && IsActive(b.tasks[id]) && IsFresh(b.tasks[id], b.now, threshold)
  }

  /** A fresh pending or running task exists, so that a trigger is refused. */
  ghost predicate Busy(b: Board, threshold: nat, repo: RepoId) {
    exists id :: IsFreshActive(b, threshold, repo, id)
  }

  predicate IsJobType(s: string) {
    s == "full" || s == "incremental"
  }

  // The steps of the system.

  /** A trigger is three steps of its own: the check, the new task, the message. Nothing
      keeps two calls from taking them in turn. */
  datatype Step =
    | Tick(amount: nat)
    | Check(repo: RepoId, jobType: string)
    | Create(call: nat)
    | Enqueue(call: nat, written: bool)
    | Abandon(call: nat)
    | CreateGroup
    | Read
    | Drop(index: nat)
    | Start(index: nat)
    | Finish(index: nat, status: TaskStatus)

  /** The row and the call's knowledge of it are one statement. */
  function CreateTask(b: Board, c: nat): Board {
    if c in b.calls && b.calls[c].Checked? then
      var call := b.calls[c];
      b.(tasks := b.tasks[b.nextTask := Task(call.repo, call.jobType, Pending, b.now)], nextTask := b.nextTask + 1,
         calls := b.calls[c := Created(call.repo, call.jobType, b.nextTask)])
    else b
  }

  /** The call ends; its message may fail to reach the stream. */
  function EnqueueJob(b: Board, c: nat, written: bool): Board {
    if c in b.calls && b.calls[c].Created? then
      var call := b.calls[c];
      b.(stream := b.stream + if written then [Message(call.task, call.repo, call.jobType)]
        else [], calls := b.calls - {c})
    else b
  }

  function SetStatus(b: Board, id: TaskId, status: TaskStatus): Board {
    if id in b.tasks then b.(tasks := b.tasks[id := b.tasks[id].(status := status)]) else b
  }

  /** The first worker to start creates the group at "$": it begins after all that the
      stream holds by then. */
  function MakeGroup(b: Board): Board {
    if b.grouped then b else b.(grouped := true, cursor := |b.stream|)
  }

  /** The group hands the next new message to a worker. */
  function ReadNext(b: Board): Board {
    if b.grouped && b.cursor < |b.stream| then b.(cursor := b.cursor + 1, held := b.held + {b.cursor}) else b
  }

  /** A call is refused when the repo is unknown or busy at its check, and given up when
      the task cannot be created. */
  ghost predicate Enabled(b: Board, threshold: nat, s: Step) {
    match s
    case Tick(_) => true
    case Check(repo, _) => repo in b.repos && !Busy(b, threshold, repo)
    case Create(c) => c in b.calls && b.calls[c].Checked? && IsJobType(b.calls[c].jobType)
    case Enqueue(c, _) => c in b.calls && b.calls[c].Created?
    case Abandon(c) => c in b.calls && b.calls[c].Checked?
    case CreateGroup => true
    case Read => true
    case Drop(i) => true
    case Start(i) => i in b.held && i < |b.stream|
    case Finish(i, status) => i in b.started && i < |b.stream| && status in {Completed, Failed, Partial}
  }

  /** The effect of an enabled step. A message is dropped when the worker that read it
      dies, or cannot use it. The auto-claim later takes a dead worker's messages over
      and ignores them, so they are never run again; a live worker still works through
      what it read, claimed or not. */
  function Apply(b: Board, s: Step): Board {
    match s
    case Tick(amount) => b.(now := b.now + amount)
    case Check(repo, jobType) => b.(calls := b.calls[b.nextCall := Checked(repo, jobType)], nextCall := b.nextCall + 1)
    case Create(c) => CreateTask(b, c)
    case Enqueue(c, written) => EnqueueJob(b, c, written)
    case Abandon(c) => b.(calls := b.calls - {c})
    case CreateGroup => MakeGroup(b)
    case Read => ReadNext(b)
    case Drop(i) => b.(held := b.held - {i}, started := b.started - {i})
    case Start(i) =>
      var running := b.(held := b.held - {i}, started := b.started + {i});
      if i < |b.stream| then SetStatus(running, b.stream[i].task, Running) else running
    case Finish(i, status) =>
      var done := b.(started := b.started - {i});
      if i < |b.stream| then SetStatus(done, b.stream[i].task, status) else done
  }

  function Initial(repos: set<RepoId>, now: int): Board {
    Board(repos, map[], 0, map[], 0, [], false, 0, {}, {}, now)
  }

  function Run(b: Board, steps: seq<Step>): Board {
    if steps == [] then b else Apply(Run(b, steps[..|steps| - 1]), steps[|steps| - 1])
  }

  ghost predicate IsRun(b: Board, threshold: nat, steps: seq<Step>) {
    steps != [] ==>
      && IsRun(b, threshold, steps[..|steps| - 1])
      && Enabled(Run(b, steps[..|steps| - 1]), threshold, steps[|steps| - 1])
  }

  lemma RunNone(b: Board, threshold: nat)
    ensures Run(b, []) == b && IsRun(b, threshold, [])
  {
  }

  lemma RunOneMore(b: Board, threshold: nat, steps: seq<Step>, s: Step)
    ensures Run(b, steps + [s]) == Apply(Run(b, steps), s)
    ensures IsRun(b, threshold, steps + [s]) <==> IsRun(b, threshold, steps) && Enabled(Run(b, steps), threshold, s)
  {
    assert (steps + [s])[..|steps|] == steps;
  }

  lemma {:induction false} RunConcat(b: Board, threshold: nat, first: seq<Step>, second: seq<Step>)
    ensures Run(b, first + second) == Run(Run(b, first), second)
    ensures IsRun(b, threshold, first + second) <==>
            IsRun(b, threshold, first) && IsRun(Run(b, first), threshold, second)
  {
    hide Apply, Enabled;
    if second == [] {
      assert first + second == first;
    } else {
      assert (first + second)[..|first + second| - 1] == first + second[..|second| - 1];
      RunConcat(b, threshold, first, second[..|second| - 1]);
    }
  }

  // Invariants of every run.

  ghost predicate TasksInOrder(b: Board) {
    && (forall id <- b.tasks :: id < b.nextTask && b.tasks[id].createdAt <= b.now)
    && (forall x <- b.tasks, y <- b.tasks | x < y :: b.tasks[x].createdAt <= b.tasks[y].createdAt)
  }

  /** The task of a call under way is pending, has no message yet, and is nobody else's. */
  ghost predicate CallsTracked(b: Board) {
    && (forall c <- b.calls :: c < b.nextCall)
    && (forall c <- b.calls | b.calls[c].Created? ::
          && b.calls[c].task in b.tasks && b.tasks[b.calls[c].task].status == Pending
          && forall i | 0 <= i < |b.stream| :: b.stream[i].task != b.calls[c].task)
    && (forall c <- b.calls, d <- b.calls | c != d && b.calls[c].Created? && b.calls[d].Created? ::
       b.calls[c].task != b.calls[d].task)
  }

  /** A message not yet started belongs to a pending task, a started one to a running
      task; no two messages belong to one task. */
  ghost predicate MessagesTracked(b: Board) {
    && b.cursor <= |b.stream|
    && (!b.grouped ==> b.cursor == 0 && b.held == {} && b.started == {})
    && (forall i <- b.held :: i < b.cursor && i !in b.started)
    && (forall i <- b.started :: i < b.cursor)
    && (forall i | 0 <= i < |b.stream| :: b.stream[i].task in b.tasks)
    && (forall i, j | 0 <= i < j < |b.stream| :: b.stream[i].task != b.stream[j].task)
    && (forall i | 0 <= i < |b.stream| && (i >= b.cursor || i in b.held) :: b.tasks[b.stream[i].task].status == Pending)
    && (forall i | 0 <= i < |b.stream| && i in b.started :: b.tasks[b.stream[i].task].status == Running)
  }

  ghost predicate Inv(b: Board) {
    TasksInOrder(b) && CallsTracked(b) && MessagesTracked(b)
  }

  lemma StepKeepsInv(b: Board, threshold: nat, s: Step)
    requires Inv(b) && Enabled(b, threshold, s)
    ensures Inv(Apply(b, s))
  {
    hide TasksInOrder, CallsTracked, MessagesTracked, CreateTask, EnqueueJob, SetStatus, ReadNext, MakeGroup;
    match s
    case Tick(_) => ClockKeepsInv(b, s);
    case Check(_, _) => CheckKeepsInv(b, s);
    case Create(c) => CreateKeepsInv(b, c);
    case Enqueue(c, written) => EnqueueKeepsInv(b, c, written);
    case Abandon(_) => CheckKeepsInv(b, s);
    case CreateGroup => QueueKeepsInv(b, s);
    case Read => QueueKeepsInv(b, s);
    case Drop(_) => QueueKeepsInv(b, s);
    case Start(i) => StartKeepsInv(b, i);
    case Finish(i, status) => FinishKeepsInv(b, i, status);
  }

  lemma ClockKeepsInv(b: Board, s: Step)
    requires Inv(b) && s.Tick?
    ensures Inv(Apply(b, s))
  {
  }

  lemma CheckKeepsInv(b: Board, s: Step)
    requires Inv(b) && (s.Check? || s.Abandon?)
    ensures Inv(Apply(b, s))
  {
  }

  lemma QueueKeepsInv(b: Board, s: Step)
    requires Inv(b) && (s.CreateGroup? || s.Read? || s.Drop?)
    ensures Inv(Apply(b, s))
  {
  }

  lemma CreateKeepsInv(b: Board, c: nat)
    requires Inv(b)
    ensures Inv(CreateTask(b, c))
  {
    var after := CreateTask(b, c);
    assert b.nextTask !in b.tasks;
    forall i | 0 <= i < |b.stream|
      ensures after.stream[i] == b.stream[i] && after.tasks[after.stream[i].task] == b.tasks[b.stream[i].task]
    {
      assert b.stream[i].task in b.tasks;
    }
  }

  lemma EnqueueKeepsInv(b: Board, c: nat, written: bool)
    requires Inv(b)
    ensures Inv(EnqueueJob(b, c, written))
  {
    var after := EnqueueJob(b, c, written);
    assert after.tasks == b.tasks;
    assert forall i | 0 <= i < |b.stream| :: after.stream[i] == b.stream[i];
  }

  lemma StatusKeepsCalls(b: Board, i: nat, status: TaskStatus)
    requires CallsTracked(b) && i < |b.stream|
    ensures CallsTracked(SetStatus(b, b.stream[i].task, status))
  {
  }

  lemma StartKeepsInv(b: Board, i: nat)
    requires Inv(b) && i in b.held
    ensures Inv(Apply(b, Start(i)))
  {
    var after := Apply(b, Start(i));
    StatusKeepsCalls(b, i, Running);
    hide CallsTracked;
    CallsAlike(SetStatus(b, b.stream[i].task, Running), after);
    forall j | 0 <= j < |b.stream| && j != i ensures after.tasks[b.stream[j].task] == b.tasks[b.stream[j].task] {
      assert j < i ==> b.stream[j].task != b.stream[i].task;
    }
  }

  lemma CallsAlike(a: Board, b: Board)
    requires CallsTracked(a) && a.tasks == b.tasks && a.calls == b.calls && a.nextCall == b.nextCall
    requires a.stream == b.stream
    ensures CallsTracked(b)
  {
  }

  lemma FinishKeepsInv(b: Board, i: nat, status: TaskStatus)
    requires Inv(b) && i in b.started && status in {Completed, Failed, Partial}
    ensures Inv(Apply(b, Finish(i, status)))
  {
    var after := Apply(b, Finish(i, status));
    StatusKeepsCalls(b, i, status);
    hide CallsTracked;
    CallsAlike(SetStatus(b, b.stream[i].task, status), after);
    forall j | 0 <= j < |b.stream| && j != i ensures after.tasks[b.stream[j].task] == b.tasks[b.stream[j].task] {
      assert j < i ==> b.stream[j].task != b.stream[i].task;
    }
  }

  lemma {:induction false} InvAlways(b: Board, threshold: nat, steps: seq<Step>)
    requires Inv(b) && IsRun(b, threshold, steps)
    ensures Inv(Run(b, steps))
  {
    hide Inv, Apply, Enabled;
    if steps != [] {
      InvAlways(b, threshold, steps[..|steps| - 1]);
      StepKeepsInv(Run(b, steps[..|steps| - 1]), threshold, steps[|steps| - 1]);
    }
  }

  lemma InitialInv(repos: set<RepoId>, now: int)
    ensures Inv(Initial(repos, now))
  {
  }

  // One fresh active task at most, and when.

  ghost predicate AtMostOneFresh(b: Board, threshold: nat) {
    forall repo, x, y | IsFreshActive(b, threshold, repo, x) && IsFreshActive(b, threshold, repo, y) :: x == y
  }

  /** At every point of the run. */
  ghost predicate AlwaysOneFresh(b: Board, threshold: nat, steps: seq<Step>) {
    && AtMostOneFresh(Run(b, steps), threshold)
    && (steps != [] ==> AlwaysOneFresh(b, threshold, steps[..|steps| - 1]))
  }

  /** No call creates its task while its repo is busy. */
  ghost predicate NoClash(b: Board, threshold: nat, steps: seq<Step>) {
    steps != [] ==>
      var before, s := Run(b, steps[..|steps| - 1]), steps[|steps| - 1];
      && NoClash(b, threshold, steps[..|steps| - 1])
      && (s.Create? && s.call in before.calls ==> !Busy(before, threshold, before.calls[s.call].repo))
  }

  /** No check of a repo falls between the check and the create of another call for it. */
  ghost predicate Serialised(b: Board, steps: seq<Step>) {
    steps != [] ==>
      var before, s := Run(b, steps[..|steps| - 1]), steps[|steps| - 1];
      && Serialised(b, steps[..|steps| - 1])
      && (s.Check? ==> forall c <- before.calls :: !(before.calls[c].Checked? && before.calls[c].repo == s.repo))
  }

  /** A task still active was already stale when any later task of its repo was created. */
  ghost predicate LaterMeansStale(b: Board, threshold: nat) {
    forall x <- b.tasks, y <- b.tasks | x < y && b.tasks[x].repo == b.tasks[y].repo && IsActive(b.tasks[x]) ::
      b.tasks[y].createdAt - b.tasks[x].createdAt > threshold
  }

  lemma StepKeepsStale(b: Board, threshold: nat, s: Step)
    requires Inv(b) && LaterMeansStale(b, threshold) && Enabled(b, threshold, s)
    requires s.Create? ==> !Busy(b, threshold, b.calls[s.call].repo)
    ensures LaterMeansStale(Apply(b, s), threshold)
  {
    hide CallsTracked;
    var after := Apply(b, s);
    if s.Create? {
      var repo := b.calls[s.call].repo;
      forall x, y | x in after.tasks && y in after.tasks && x < y && after.tasks[x].repo == after.tasks[y].repo
        && IsActive(after.tasks[x])
        ensures after.tasks[y].createdAt - after.tasks[x].createdAt > threshold
      {
        if y == b.nextTask {
          assert !IsFreshActive(b, threshold, repo, x);
        }
      }
    }
  }

  lemma {:induction false} StaleAlways(repos: set<RepoId>, now: int, threshold: nat, steps: seq<Step>)
    requires IsRun(Initial(repos, now), threshold, steps) && NoClash(Initial(repos, now), threshold, steps)
    ensures Inv(Run(Initial(repos, now), steps)) && LaterMeansStale(Run(Initial(repos, now), steps), threshold)
  {
    hide Inv, LaterMeansStale, Apply, Busy;
    var b := Initial(repos, now);
    InitialInv(repos, now);
    InvAlways(b, threshold, steps);
    if steps == [] {
      NothingStale(repos, now, threshold);
    } else {
      var front := steps[..|steps| - 1];
      StaleAlways(repos, now, threshold, front);
      StepKeepsStale(Run(b, front), threshold, steps[|steps| - 1]);
    }
  }

  lemma NothingStale(repos: set<RepoId>, now: int, threshold: nat)
    ensures LaterMeansStale(Initial(repos, now), threshold)
  {
  }

  /** In a run in which no create clashes, at most one fresh pending or running task exists
      per repo, and no task of the repo was created after it. */
  lemma OneFreshActive(repos: set<RepoId>, now: int, threshold: nat, steps: seq<Step>, repo: RepoId, id: TaskId)
    requires IsRun(Initial(repos, now), threshold, steps) && NoClash(Initial(repos, now), threshold, steps)
    requires IsFreshActive(Run(Initial(repos, now), steps), threshold, repo, id)
    ensures forall other :: IsFreshActive(Run(Initial(repos, now), steps), threshold, repo, other) ==> other == id
    ensures IsLatest(Run(Initial(repos, now), steps).tasks, repo, id)
  {
    hide Run, IsRun;
    StaleAlways(repos, now, threshold, steps);
    FreshIsLatest(Run(Initial(repos, now), steps), threshold, repo, id);
  }

  lemma FreshIsLatest(b: Board, threshold: nat, repo: RepoId, id: TaskId)
    requires Inv(b) && LaterMeansStale(b, threshold) && IsFreshActive(b, threshold, repo, id)
    ensures forall other :: IsFreshActive(b, threshold, repo, other) ==> other == id
    ensures forall other <- b.tasks | b.tasks[other].repo == repo :: other <= id
    ensures IsLatest(b.tasks, repo, id)
  {
    hide CallsTracked, MessagesTracked;
  }

  /** A create in a busy repo makes a second fresh task. */
  lemma ClashMakesTwo(b: Board, threshold: nat, c: nat)
    requires Inv(b) && Enabled(b, threshold, Create(c)) && Busy(b, threshold, b.calls[c].repo)
    ensures !AtMostOneFresh(Apply(b, Create(c)), threshold)
  {
    hide CallsTracked, MessagesTracked;
    var repo := b.calls[c].repo;
    var x :| IsFreshActive(b, threshold, repo, x);
    var after := Apply(b, Create(c));
    assert IsFreshActive(after, threshold, repo, x) && IsFreshActive(after, threshold, repo, b.nextTask)
           && x != b.nextTask;
  }

  /** At most one fresh active task exists per repo throughout a run, if and only if no call
      creates its task while its repo is busy. */
  lemma {:induction false} OneFreshIffNoClash(repos: set<RepoId>, now: int, threshold: nat, steps: seq<Step>)
    requires IsRun(Initial(repos, now), threshold, steps)
    ensures AlwaysOneFresh(Initial(repos, now), threshold, steps) <==> NoClash(Initial(repos, now), threshold, steps)
  {
    hide Inv, LaterMeansStale, Apply, Busy, AtMostOneFresh;
    var b := Initial(repos, now);
    if steps != [] {
      var front, s := steps[..|steps| - 1], steps[|steps| - 1];
      OneFreshIffNoClash(repos, now, threshold, front);
      InitialInv(repos, now);
      InvAlways(b, threshold, front);
      if s.Create? && Busy(Run(b, front), threshold, Run(b, front).calls[s.call].repo) {
        ClashMakesTwo(Run(b, front), threshold, s.call);
      }
    }
    if NoClash(b, threshold, steps) {
      StaleAlways(repos, now, threshold, steps);
      StaleMeansOne(Run(b, steps), threshold);
    }
  }

  lemma StaleMeansOne(b: Board, threshold: nat)
    requires Inv(b) && LaterMeansStale(b, threshold)
    ensures AtMostOneFresh(b, threshold)
  {
    forall repo, x, y | IsFreshActive(b, threshold, repo, x) && IsFreshActive(b, threshold, repo, y) ensures x == y {
      FreshIsLatest(b, threshold, repo, x);
    }
  }

  /** A repo between a check and its create is not busy, and has one such call. */
  ghost predicate ChecksHold(b: Board, threshold: nat) {
    && (forall c <- b.calls | b.calls[c].Checked? :: !Busy(b, threshold, b.calls[c].repo))
    && (forall c <- b.calls, d <- b.calls | b.calls[c].Checked? && b.calls[d].Checked? && b.calls[c].repo ==
       b.calls[d].repo :: c == d)
  }

  /** Only a create can make a repo busy. */
  lemma BusyOnlyByCreate(b: Board, threshold: nat, s: Step, repo: RepoId)
    requires Inv(b) && Enabled(b, threshold, s) && Busy(Apply(b, s), threshold, repo)
    ensures Busy(b, threshold, repo) || (s.Create? && b.calls[s.call].repo == repo)
  {
    hide CallsTracked, TasksInOrder;
    var id :| IsFreshActive(Apply(b, s), threshold, repo, id);
    if !s.Create? {
      assert IsFreshActive(b, threshold, repo, id);
    } else if id != b.nextTask {
      assert IsFreshActive(b, threshold, repo, id);
    }
  }

  lemma StepKeepsChecks(b: Board, threshold: nat, s: Step)
    requires Inv(b) && ChecksHold(b, threshold) && Enabled(b, threshold, s)
    requires s.Check? ==> forall c <- b.calls :: !(b.calls[c].Checked? && b.calls[c].repo == s.repo)
    ensures ChecksHold(Apply(b, s), threshold)
  {
    hide Busy, TasksInOrder, MessagesTracked;
    var after := Apply(b, s);
    CallsAfter(b, s);
    forall c | c in after.calls && after.calls[c].Checked? ensures !Busy(after, threshold, after.calls[c].repo) {
      if Busy(after, threshold, after.calls[c].repo) {
        BusyOnlyByCreate(b, threshold, s, after.calls[c].repo);
      }
    }
  }

  /** A call in check after a step was so before, or is the new one. */
  lemma CallsAfter(b: Board, s: Step)
    ensures var after := Apply(b, s);
            forall c <- after.calls | after.calls[c].Checked? ::
              if s.Check? && c == b.nextCall then after.calls[c].repo == s.repo
              else c in b.calls && after.calls[c] == b.calls[c] && !(s.Create? && s.call == c)
  {
  }

  /** Triggers that take turns never clash. */
  lemma {:induction false} SerialisedNeverClash(repos: set<RepoId>, now: int, threshold: nat, steps: seq<Step>)
    requires IsRun(Initial(repos, now), threshold, steps) && Serialised(Initial(repos, now), steps)
    ensures NoClash(Initial(repos, now), threshold, steps)
    ensures ChecksHold(Run(Initial(repos, now), steps), threshold)
  {
    hide Inv, Apply, Busy;
    var b := Initial(repos, now);
    if steps != [] {
      var front, s := steps[..|steps| - 1], steps[|steps| - 1];
      SerialisedNeverClash(repos, now, threshold, front);
      InitialInv(repos, now);
      InvAlways(b, threshold, front);
      StepKeepsChecks(Run(b, front), threshold, s);
    }
  }

  /** Two calls that both check before either creates leave two fresh tasks. */
  lemma OverlappingTriggersClash(repo: RepoId, jobType: string, now: int, threshold: nat)
    requires IsJobType(jobType)
    ensures exists steps :: IsRun(Initial({repo}, now), threshold, steps)
                            && !AtMostOneFresh(Run(Initial({repo}, now), steps), threshold)
  {
    var b0 := Initial({repo}, now);
    var check := Check(repo, jobType);
    var b1 := Apply(b0, check);
    var b2 := Apply(b1, check);
    var b3 := Apply(b2, Create(0));
    var steps := [] + [check] + [check] + [Create(0)] + [Create(1)];
    RunOneMore(b0, threshold, [], check);
    RunOneMore(b0, threshold, [] + [check], check);
    RunOneMore(b0, threshold, [] + [check] + [check], Create(0));
    RunOneMore(b0, threshold, [] + [check] + [check] + [Create(0)], Create(1));
    var b4 := Apply(b3, Create(1));
    assert IsFreshActive(b4, threshold, repo, 0) && IsFreshActive(b4, threshold, repo, 1);
    assert IsRun(b0, threshold, steps) && Run(b0, steps) == b4;
  }

  /** GetActiveTask answers with a task exactly when the repo is busy, whichever of
      the latest active tasks the query returns. */
  lemma ActiveTaskIffBusy(b: Board, threshold: nat, repo: RepoId, id: TaskId)
    requires IsLatestActive(b.tasks, repo, id)
    ensures IsFresh(b.tasks[id], b.now, threshold) <==> Busy(b, threshold, repo)
  {
    if IsFresh(b.tasks[id], b.now, threshold) {
      assert IsFreshActive(b, threshold, repo, id);
    }
  }

  /** A fresh active task shares its creation time with no other task of the repo. */
  ghost predicate NoTie(b: Board, threshold: nat, repo: RepoId) {
    forall id, other <- b.tasks | IsFreshActive(b, threshold, repo, id) && b.tasks[other].repo == repo
      && b.tasks[other].createdAt == b.tasks[id].createdAt :: other == id
  }

  /** While the repo is busy no task as new as any of its tasks is finished. */
  ghost predicate NoFinishedOnTop(b: Board, threshold: nat, repo: RepoId) {
    Busy(b, threshold, repo) ==> forall id | IsLatest(b.tasks, repo, id) :: IsActive(b.tasks[id])
  }

  /** The derived status is "indexing" exactly when a trigger would be refused, whichever
      latest task the query returns. */
  ghost predicate StatusAgrees(b: Board, threshold: nat, repo: RepoId) {
    forall id | IsLatest(b.tasks, repo, id) ::
      DeriveStatus(Some(b.tasks[id]), b.now, threshold) == "indexing" <==> Busy(b, threshold, repo)
  }

  /** On every board status and refusal agree if and only if no finished task is on top. */
  lemma IndexingIffNoFinishedOnTop(b: Board, threshold: nat, repo: RepoId)
    ensures StatusAgrees(b, threshold, repo) <==> NoFinishedOnTop(b, threshold, repo)
  {
    hide DeriveStatus;
    forall id | IsLatest(b.tasks, repo, id)
      ensures DeriveStatus(Some(b.tasks[id]), b.now, threshold) == "indexing" <==> IsFreshActive(b, threshold, repo, id)
      ensures Busy(b, threshold, repo) && IsActive(b.tasks[id]) ==> IsFreshActive(b, threshold, repo, id)
    {
      IndexingMeansFreshActive(b.tasks[id], b.now, threshold);
    }
  }

  /** What a status text says of a task. */
  ghost predicate Tells(status: string, t: Task, now: int, threshold: nat) {
    && (status == "indexed" <==> t.status == Completed)
    && (status == "partial" <==> t.status == Partial)
    && (status == "failed" <==> t.status == Failed)
    && (status == "indexing" <==> (t.status == Pending || t.status == Running) && now - t.createdAt <= threshold)
    && (status == "registered" <==> (t.status == Pending || t.status == Running) && now - t.createdAt > threshold)
  }

  lemma StatusTells(t: Task, now: int, threshold: nat)
    ensures Tells(DeriveStatus(Some(t), now, threshold), t, now, threshold)
  {
    StatusTexts();
  }

  lemma StatusTexts()
    ensures "indexed" != "partial" && "indexed" != "failed" && "indexed" != "indexing" && "indexed" != "registered"
    ensures "partial" != "failed" && "partial" != "indexing" && "partial" != "registered"
    ensures "failed" != "indexing" && "failed" != "registered" && "indexing" != "registered"
  {
    assert "indexed"[0] == 'i' && "partial"[0] == 'p' && "failed"[0] == 'f' && "indexing"[0] == 'i'
           && "registered"[0] == 'r';
    assert |"indexed"| == 7 && |"indexing"| == 8;
  }

  lemma SameLatest(a: map<TaskId, Task>, b: map<TaskId, Task>, repo: RepoId, id: TaskId)
    requires a.Keys == b.Keys
    requires forall x <- a :: a[x].repo == b[x].repo && a[x].createdAt == b[x].createdAt
    ensures IsLatest(a, repo, id) <==> IsLatest(b, repo, id)
  {
    assert forall x :: x in a <==> x in b by {
      assert forall x :: x in a <==> x in a.Keys;
    }
  }

  /** Finishing the one latest task of a repo decides its status. */
  lemma FinishDecidesStatus(b: Board, threshold: nat, i: nat, status: TaskStatus, repo: RepoId)
    requires Inv(b) && Enabled(b, threshold, Finish(i, status))
    requires IsLatest(b.tasks, repo, b.stream[i].task)
    requires forall other | IsLatest(b.tasks, repo, other) :: other == b.stream[i].task
    ensures var after := Apply(b, Finish(i, status));
            && IsLatest(after.tasks, repo, b.stream[i].task)
            && forall id | IsLatest(after.tasks, repo, id) ::
                 && id == b.stream[i].task && after.tasks[id].status == status
                 && Tells(DeriveStatus(Some(after.tasks[id]), after.now, threshold), after.tasks[id], after.now,
                    threshold)
  {
    hide DeriveStatus, Tells, Inv;
    var after := Apply(b, Finish(i, status));
    var id := b.stream[i].task;
    assert after.tasks == b.tasks[id := b.tasks[id].(status := status)];
    forall x ensures IsLatest(after.tasks, repo, x) <==> IsLatest(b.tasks, repo, x) {
      SameLatest(b.tasks, after.tasks, repo, x);
    }
    StatusTells(after.tasks[id], after.now, threshold);
  }

  lemma IndexingMeansFreshActive(t: Task, now: int, threshold: nat)
    ensures DeriveStatus(Some(t), now, threshold) == "indexing" <==> IsActive(t) && IsFresh(t, now, threshold)
  {
    assert "registered"[0] == 'r' && "indexed"[5] == 'e' && "indexing"[5] == 'i' && "partial"[0] == 'p'
           && "failed"[0] == 'f';
  }

  /** In a run in which no create clashes they agree if and only if creation times do not tie. */
  lemma IndexingIffRefused(repos: set<RepoId>, now: int, threshold: nat, steps: seq<Step>, repo: RepoId)
    requires IsRun(Initial(repos, now), threshold, steps) && NoClash(Initial(repos, now), threshold, steps)
    ensures StatusAgrees(Run(Initial(repos, now), steps), threshold, repo) <==>
            NoTie(Run(Initial(repos, now), steps), threshold, repo)
  {
    hide Run, IsRun, StatusAgrees, NoFinishedOnTop, NoTie;
    StaleAlways(repos, now, threshold, steps);
    var b := Run(Initial(repos, now), steps);
    IndexingIffNoFinishedOnTop(b, threshold, repo);
    OnTopIffNoTie(b, threshold, repo);
  }

  lemma OnTopIffNoTie(b: Board, threshold: nat, repo: RepoId)
    requires Inv(b) && LaterMeansStale(b, threshold)
    ensures NoFinishedOnTop(b, threshold, repo) <==> NoTie(b, threshold, repo)
  {
    hide Inv;
    if active :| IsFreshActive(b, threshold, repo, active) {
      FreshIsLatest(b, threshold, repo, active);
      if NoTie(b, threshold, repo) {
        forall id | IsLatest(b.tasks, repo, id) ensures id == active {
        }
      } else {
        var id, other :| other in b.tasks && IsFreshActive(b, threshold, repo, id) && b.tasks[other].repo == repo
                         && b.tasks[other].createdAt == b.tasks[id].createdAt && other != id;
        assert IsLatest(b.tasks, repo, other) && !IsFreshActive(b, threshold, repo, other);
      }
    }
  }

  /** Even triggers that take turns can tie: a task run and finished within the instant in
      which the next is created. */
  lemma TieIsReachable(repo: RepoId, now: int, threshold: nat)
    ensures exists steps ::
              && IsRun(Initial({repo}, now), threshold, steps) && Serialised(Initial({repo}, now), steps)
              && !NoTie(Run(Initial({repo}, now), steps), threshold, repo)
  {
    var b0 := Initial({repo}, now);
    var done := OneTaskDone(repo, now, threshold);
    var b1 := Run(b0, done);
    var b2 := Apply(b1, Check(repo, "full"));
    OneMore(b0, threshold, done, Check(repo, "full"), b1);
    OneMore(b0, threshold, done + [Check(repo, "full")], Create(1), b2);
    var b3 := Apply(b2, Create(1));
    assert IsFreshActive(b3, threshold, repo, 1) && 0 in b3.tasks && b3.tasks[0].createdAt == b3.tasks[1].createdAt;
  }

  lemma OneTaskWaiting(repo: RepoId, now: int, threshold: nat) returns (steps: seq<Step>)
    ensures IsRun(Initial({repo}, now), threshold, steps) && Serialised(Initial({repo}, now), steps)
    ensures Run(Initial({repo}, now), steps) ==
            Board({repo}, map[0 := Task(repo, "full", Pending, now)], 1, map[], 1, [Message(0, repo, "full")], true, 0,
              {}, {}, now)
  {
    hide Run, IsRun, Serialised;
    var b0 := Initial({repo}, now);
    var b1 := b0.(grouped := true);
    var b2 := b1.(calls := map[0 := Checked(repo, "full")], nextCall := 1);
    var b3 := b2.(tasks := map[0 := Task(repo, "full", Pending, now)], nextTask := 1,
      calls := map[0 := Created(repo, "full", 0)]);
    NoSteps(b0, threshold);
    OneMore(b0, threshold, [], CreateGroup, b0);
    OneMore(b0, threshold, [] + [CreateGroup], Check(repo, "full"), b1);
    steps := [] + [CreateGroup] + [Check(repo, "full")];
    OneMore(b0, threshold, steps, Create(0), b2);
    OneMore(b0, threshold, steps + [Create(0)], Enqueue(0, true), b3);
    steps := steps + [Create(0)] + [Enqueue(0, true)];
  }

  lemma OneTaskDone(repo: RepoId, now: int, threshold: nat) returns (steps: seq<Step>)
    ensures IsRun(Initial({repo}, now), threshold, steps) && Serialised(Initial({repo}, now), steps)
    ensures Run(Initial({repo}, now), steps) ==
            Board({repo}, map[0 := Task(repo, "full", Completed, now)], 1, map[], 1, [Message(0, repo, "full")], true,
              1, {}, {}, now)
  {
    hide Run, IsRun, Serialised;
    var b0 := Initial({repo}, now);
    steps := OneTaskWaiting(repo, now, threshold);
    var b4 := Run(b0, steps);
    var b5 := b4.(cursor := 1, held := {0});
    var b6 := b5.(held := {}, started := {0}, tasks := map[0 := Task(repo, "full", Running, now)]);
    OneMore(b0, threshold, steps, Read, b4);
    OneMore(b0, threshold, steps + [Read], Start(0), b5);
    OneMore(b0, threshold, steps + [Read] + [Start(0)], Finish(0, Completed), b6);
    steps := steps + [Read] + [Start(0)] + [Finish(0, Completed)];
  }

  lemma NoSteps(b: Board, threshold: nat)
    ensures Run(b, []) == b && IsRun(b, threshold, []) && Serialised(b, [])
  {
  }

  lemma OneMore(b0: Board, threshold: nat, steps: seq<Step>, s: Step, before: Board)
    requires Run(b0, steps) == before && IsRun(b0, threshold, steps) && Serialised(b0, steps)
    requires Enabled(before, threshold, s)
    requires s.Check? ==> forall c <- before.calls :: !(before.calls[c].Checked? && before.calls[c].repo == s.repo)
    ensures Run(b0, steps + [s]) == Apply(before, s) && IsRun(b0, threshold, steps + [s]) && Serialised(b0, steps + [s])
  {
    hide Apply, Enabled;
    assert (steps + [s])[..|steps|] == steps;
  }
}
