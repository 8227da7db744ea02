/** Messages are delivered at most once: what a task may wait for, and when it waits in vain. */
module TaskDelivery {
  import opened IndexTables
  import opened Tasks

  /** How often the run starts the given task. */
  function Starts(b: Board, steps: seq<Step>, task: TaskId): nat {
    if steps == [] then 0
    else
      var front, s := steps[..|steps| - 1], steps[|steps| - 1];
      var stream := Run(b, front).stream;
      Starts(b, front, task) + if s.Start? && s.index < |stream| && stream[s.index].task == task then 1 else 0
  }

  /** Its message was taken and is no longer waiting to be started. */
  ghost predicate MessageUsed(b: Board, task: TaskId) {
    exists i :: 0 <= i < |b.stream| && i < b.cursor && i !in b.held && b.stream[i].task == task
  }

  lemma UsedStaysUsed(b: Board, s: Step, task: TaskId)
    requires MessageUsed(b, task)
    ensures MessageUsed(Apply(b, s), task)
  {
    var i :| 0 <= i < |b.stream| && i < b.cursor && i !in b.held && b.stream[i].task == task;
    var after := Apply(b, s);
    assert after.stream[i] == b.stream[i] && i < after.cursor && i !in after.held;
  }

  /** No task is started twice: each is processed at most once. */
  lemma {:induction false} StartedAtMostOnce(repos: set<RepoId>, now: int, threshold: nat, steps: seq<Step>,
                                             task: TaskId)
    requires IsRun(Initial(repos, now), threshold, steps)
    ensures Starts(Initial(repos, now), steps, task) <= 1
    ensures Starts(Initial(repos, now), steps, task) == 1 ==> MessageUsed(Run(Initial(repos, now), steps), task)
  {
    if steps != [] {
      var front, s := steps[..|steps| - 1], steps[|steps| - 1];
      StartedAtMostOnce(repos, now, threshold, front, task);
      InitialInv(repos, now);
      InvAlways(Initial(repos, now), threshold, front);
      OneMoreStart(Run(Initial(repos, now), front), threshold, s, task);
    }
  }

  lemma OneMoreStart(b: Board, threshold: nat, s: Step, task: TaskId)
    requires Inv(b) && Enabled(b, threshold, s)
    ensures MessageUsed(b, task) ==> MessageUsed(Apply(b, s), task)
    ensures s.Start? && b.stream[s.index].task == task ==> !MessageUsed(b, task) && MessageUsed(Apply(b, s), task)
  {
    if MessageUsed(b, task) {
      UsedStaysUsed(b, s, task);
    }
    if s.Start? && b.stream[s.index].task == task {
      var after := Apply(b, s);
      assert after.stream[s.index].task == task && s.index !in after.held && s.index < after.cursor;
      forall j | 0 <= j < |b.stream| && b.stream[j].task == task ensures j == s.index {
      }
    }
  }

  /** The task is pending and nothing can start it: no call will still enqueue it, and its
      message was not written, or written before the group was there, or read and dropped. */
  ghost predicate Lost(b: Board, id: TaskId) {
    && id in b.tasks && b.tasks[id].status == Pending
    && (forall c <- b.calls :: !(b.calls[c].Created? && b.calls[c].task == id))
    && (forall i | 0 <= i < |b.stream| && b.stream[i].task == id ::
       (i < b.cursor || !b.grouped) && i !in b.held && i !in b.started)
  }

  lemma LostStaysLost(b: Board, threshold: nat, s: Step, id: TaskId)
    requires Inv(b) && Enabled(b, threshold, s) && Lost(b, id)
    ensures Lost(Apply(b, s), id) && Apply(b, s).tasks[id] == b.tasks[id]
  {
  }

  /** Such a task stays pending for good, and refuses every trigger of its repo until
      it is stale. */
  lemma {:induction false} LostTaskBlocks(b: Board, threshold: nat, steps: seq<Step>, id: TaskId)
    requires Inv(b) && Lost(b, id) && IsRun(b, threshold, steps)
    ensures Lost(Run(b, steps), id) && Run(b, steps).tasks[id] == b.tasks[id]
    ensures Run(b, steps).now <= b.tasks[id].createdAt + threshold ==> Busy(Run(b, steps), threshold, b.tasks[id].repo)
  {
    if steps != [] {
      var front, s := steps[..|steps| - 1], steps[|steps| - 1];
      LostTaskBlocks(b, threshold, front, id);
      InvAlways(b, threshold, front);
      LostStaysLost(Run(b, front), threshold, s, id);
    }
    var after := Run(b, steps);
    if after.now <= b.tasks[id].createdAt + threshold {
      assert IsFreshActive(after, threshold, b.tasks[id].repo, id);
    }
  }

  /** A trigger leaves such a task behind exactly when its message does not reach the
      stream, or reaches it before any worker has started. */
  lemma TriggerLosesTaskIff(b: Board, c: nat, written: bool)
    requires Inv(b) && c in b.calls && b.calls[c].Created?
    ensures Lost(EnqueueJob(b, c, written), b.calls[c].task) <==> !written || !b.grouped
  {
    var after, task := EnqueueJob(b, c, written), b.calls[c].task;
    assert forall d <- after.calls :: d != c && after.calls[d] == b.calls[d];
    if written {
      assert after.stream[|b.stream|].task == task;
    }
  }

  function Reads(n: nat): seq<Step> {
    if n == 0 then [] else Reads(n - 1) + [Read]
  }

  lemma {:induction false} ReadsAreRun(b: Board, threshold: nat, n: nat)
    requires b.grouped && b.cursor + n <= |b.stream|
    ensures IsRun(b, threshold, Reads(n))
    ensures var r := Run(b, Reads(n));
            && r.stream == b.stream && r.tasks == b.tasks && r.grouped && r.cursor == b.cursor + n
            && forall i :: b.cursor <= i < b.cursor + n ==> i in r.held
  {
    hide Run, IsRun;
    if n == 0 {
      RunNone(b, threshold);
    } else {
      ReadsAreRun(b, threshold, n - 1);
      RunOneMore(b, threshold, Reads(n - 1), Read);
      var before := Run(b, Reads(n - 1));
      assert Run(b, Reads(n)) == before.(cursor := before.cursor + 1, held := before.held + {before.cursor});
    }
  }

  /** From a message ahead of the group's cursor: read up to it, start it. */
  lemma StartsByMessage(b: Board, threshold: nat, i: nat) returns (steps: seq<Step>)
    requires Inv(b) && b.grouped && b.cursor <= i < |b.stream|
    ensures IsRun(b, threshold, steps)
    ensures b.stream[i].task in Run(b, steps).tasks && Run(b, steps).tasks[b.stream[i].task].status == Running
  {
    hide Run, IsRun;
    var ahead := Reads(i + 1 - b.cursor);
    ReadsAreRun(b, threshold, i + 1 - b.cursor);
    RunOneMore(b, threshold, ahead, Start(i));
    steps := ahead + [Start(i)];
  }

  /** A call under way can still bring its task to a worker. */
  lemma StartsByCall(b: Board, threshold: nat, c: nat) returns (steps: seq<Step>)
    requires Inv(b) && c in b.calls && b.calls[c].Created?
    ensures IsRun(b, threshold, steps)
    ensures b.calls[c].task in Run(b, steps).tasks && Run(b, steps).tasks[b.calls[c].task].status == Running
  {
    hide Run, IsRun;
    RunNone(b, threshold);
    RunOneMore(b, threshold, [], CreateGroup);
    RunOneMore(b, threshold, [] + [CreateGroup], Enqueue(c, true));
    var first := [] + [CreateGroup] + [Enqueue(c, true)];
    var after := Run(b, first);
    InvAlways(b, threshold, first);
    var more := StartsByMessage(after, threshold, |b.stream|);
    RunConcat(b, threshold, first, more);
    steps := first + more;
  }

  /** No step changes what a task is for. */
  lemma {:induction false} TasksKeepIdentity(b: Board, steps: seq<Step>, id: TaskId)
    requires id in b.tasks && TasksInOrder(b)
    ensures var after := Run(b, steps);
            && id in after.tasks && TasksInOrder(after)
            && after.tasks[id].repo == b.tasks[id].repo && after.tasks[id].jobType == b.tasks[id].jobType
  {
    hide TasksInOrder, Apply;
    if steps != [] {
      var front := steps[..|steps| - 1];
      TasksKeepIdentity(b, front, id);
      StepKeepsIdentity(Run(b, front), steps[|steps| - 1], id);
    }
  }

  lemma StepKeepsIdentity(b: Board, s: Step, id: TaskId)
    requires id in b.tasks && TasksInOrder(b)
    ensures var after := Apply(b, s);
            && id in after.tasks && TasksInOrder(after)
            && after.tasks[id].repo == b.tasks[id].repo && after.tasks[id].jobType == b.tasks[id].jobType
  {
    StepKeepsTask(b, s, id);
    StepKeepsOrder(b, s);
  }

  lemma StepKeepsTask(b: Board, s: Step, id: TaskId)
    requires id in b.tasks && b.nextTask !in b.tasks
    ensures var after := Apply(b, s);
            id in after.tasks && after.tasks[id].repo == b.tasks[id].repo && after.tasks[id].jobType ==
              b.tasks[id].jobType
  {
    hide TasksInOrder;
  }

  lemma StepKeepsOrder(b: Board, s: Step)
    requires TasksInOrder(b)
    ensures TasksInOrder(Apply(b, s))
  {
    var after := Apply(b, s);
    forall id | id in after.tasks && !s.Create?
      ensures id in b.tasks && after.tasks[id].createdAt == b.tasks[id].createdAt
    {
    }
  }

  /** A trigger of either type for a known repo that is not busy can reach a worker. */
  lemma TriggersCanStart(b: Board, threshold: nat, repo: RepoId, jobType: string)
    requires Inv(b) && repo in b.repos && !Busy(b, threshold, repo)
    requires jobType == "full" || jobType == "incremental"
    ensures exists steps ::
              && IsRun(b, threshold, steps) && b.nextTask in Run(b, steps).tasks
              && Run(b, steps).tasks[b.nextTask].repo == repo
              && Run(b, steps).tasks[b.nextTask].jobType == jobType
              && Run(b, steps).tasks[b.nextTask].status == Running
  {
    hide Run, IsRun, Inv, Busy;
    var c := b.nextCall;
    RunNone(b, threshold);
    RunOneMore(b, threshold, [], Check(repo, jobType));
    RunOneMore(b, threshold, [] + [Check(repo, jobType)], Create(c));
    var first := [] + [Check(repo, jobType)] + [Create(c)];
    var after := Run(b, first);
    InvAlways(b, threshold, first);
    var more := StartsByCall(after, threshold, c);
    RunConcat(b, threshold, first, more);
    TasksKeepIdentity(after, more, b.nextTask) by { OrderOfInv(after); }
  }

  lemma OrderOfInv(b: Board)
    requires Inv(b)
    ensures TasksInOrder(b)
  {
  }

  /** A pending task that is not lost can be started. */
  lemma StartsIfNotLost(b: Board, threshold: nat, id: TaskId) returns (steps: seq<Step>)
    requires Inv(b) && id in b.tasks && b.tasks[id].status == Pending && !Lost(b, id)
    ensures IsRun(b, threshold, steps) && id in Run(b, steps).tasks && Run(b, steps).tasks[id].status == Running
  {
    if c :| c in b.calls && b.calls[c].Created? && b.calls[c].task == id {
      steps := StartsByCall(b, threshold, c);
    } else {
      var i: nat :| i < |b.stream| && b.stream[i].task == id && ((i >= b.cursor
                    && b.grouped) || i in b.held || i in b.started);
      if i in b.held {
        RunNone(b, threshold);
        RunOneMore(b, threshold, [], Start(i));
        steps := [] + [Start(i)];
      } else {
        assert i >= b.cursor && b.grouped;
        steps := StartsByMessage(b, threshold, i);
      }
    }
  }

  /** A pending task is lost exactly when no run of the system ever starts it. */
  lemma LostIffNeverStarts(b: Board, threshold: nat, id: TaskId)
    requires Inv(b) && id in b.tasks && b.tasks[id].status == Pending
    ensures !Lost(b, id) <==>
            exists steps :: IsRun(b, threshold, steps) && id in Run(b, steps).tasks
                            && Run(b, steps).tasks[id].status == Running
  {
    hide Lost, Run, IsRun;
    if Lost(b, id) {
      forall steps | IsRun(b, threshold, steps)
        ensures id in Run(b, steps).tasks ==> Run(b, steps).tasks[id].status != Running
      {
        LostTaskBlocks(b, threshold, steps, id);
        LostIsPending(Run(b, steps), id);
      }
    } else {
      var steps := StartsIfNotLost(b, threshold, id);
    }
  }

  lemma LostIsPending(b: Board, id: TaskId)
    requires Lost(b, id)
    ensures id in b.tasks && b.tasks[id].status == Pending
  {
  }

  /** Every message, and every call under way, is for the repo and of the type of its task. */
  ghost predicate MessagesTrue(b: Board) {
    && (forall i | 0 <= i < |b.stream| ::
          b.stream[i].task in b.tasks && b.tasks[b.stream[i].task].repo == b.stream[i].repo
          && b.tasks[b.stream[i].task].jobType == b.stream[i].jobType)
    && (forall c <- b.calls | b.calls[c].Created? ::
          b.calls[c].task in b.tasks && b.tasks[b.calls[c].task].repo == b.calls[c].repo
          && b.tasks[b.calls[c].task].jobType == b.calls[c].jobType)
  }

  lemma StepKeepsTrue(b: Board, s: Step)
    requires TasksInOrder(b) && MessagesTrue(b)
    ensures MessagesTrue(Apply(b, s))
  {
    var after := Apply(b, s);
    forall id | id in b.tasks
      ensures id in after.tasks && after.tasks[id].repo == b.tasks[id].repo
      ensures after.tasks[id].jobType == b.tasks[id].jobType
    {
      StepKeepsIdentity(b, s, id);
    }
  }

  /** So a worker runs what was asked for. */
  lemma {:induction false} MessagesTrueAlways(repos: set<RepoId>, now: int, threshold: nat, steps: seq<Step>)
    requires IsRun(Initial(repos, now), threshold, steps)
    ensures MessagesTrue(Run(Initial(repos, now), steps))
  {
    hide Apply, Enabled;
    if steps == [] {
      NothingSaid(repos, now);
    } else {
      var front := steps[..|steps| - 1];
      MessagesTrueAlways(repos, now, threshold, front);
      InitialInv(repos, now);
      InvAlways(Initial(repos, now), threshold, front);
      StepKeepsTrue(Run(Initial(repos, now), front), steps[|steps| - 1]);
    }
  }

  lemma NothingSaid(repos: set<RepoId>, now: int)
    ensures MessagesTrue(Initial(repos, now))
  {
  }
}
