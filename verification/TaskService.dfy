/** The repo store, the trigger service and the worker as one object over the task board. */
module TaskService {
  import opened Text
  import opened IndexTables
  import opened Tasks
  import opened TaskDelivery

  datatype TriggerResult = Accepted(task: TaskId) | InProgress(task: TaskId) | NotFound | Unavailable

  /** What a worker runs for a message. */
  datatype Job = FullRun | IncrementalRun

  class RepoStore {
    const threshold: nat
    var repos: set<RepoId>
    var tasks: map<TaskId, Task>
    var nextTask: TaskId
    ghost var calls: map<nat, TriggerCall>
    ghost var nextCall: nat
    var stream: seq<Message>
    var grouped: bool
    var cursor: nat
    var held: set<nat>
    var started: set<nat>
    var now: int

    ghost function State(): Board
      reads this
    {
      Board(repos, tasks, nextTask, calls, nextCall, stream, grouped, cursor, held, started, now)
    }

    constructor (repos: set<RepoId>, now: int, threshold: nat)
      ensures State() == Initial(repos, now) && this.threshold == threshold
    {
      this.threshold, this.repos, this.now := threshold, repos, now;
      tasks, nextTask, stream, grouped, cursor, held, started := map[], 0, [], false, 0, {}, {};
      calls, nextCall := map[], 0;
    }

    /** The latest of the given tasks by creation time. */
    method Latest(ids: set<TaskId>) returns (latest: Option<TaskId>)
      requires ids <= tasks.Keys
      ensures latest.None? <==> ids == {}
      ensures latest.Some? ==> latest.value in ids && forall id <- ids ::
              tasks[id].createdAt <= tasks[latest.value].createdAt
    {
      latest := None;
      var rest := ids;
      while rest != {}
        invariant rest <= ids
        invariant latest.None? ==> rest == ids
        invariant latest.Some? ==> latest.value in ids && forall id <- ids | id !in rest ::
                  tasks[id].createdAt <= tasks[latest.value].createdAt
        decreases rest
      {
        var id :| id in rest;
        var keep := *;
        if latest.None? || tasks[latest.value].createdAt < tasks[id].createdAt
           || (tasks[latest.value].createdAt == tasks[id].createdAt && !keep) {
          latest := Some(id);
        }
        rest := rest - {id};
      }
    }

    /** The derived status of a repo; None when there is no such repo. */
    method GetRepo(repo: RepoId) returns (status: Option<string>)
      ensures status.None? <==> repo !in repos
      ensures status.Some? && (forall id <- tasks :: tasks[id].repo != repo) ==> status.value == "registered"
      ensures status.Some? && (exists id :: id in tasks && tasks[id].repo == repo) ==>
                exists id ::
                  && IsLatest(tasks, repo, id) && status.value == DeriveStatus(Some(tasks[id]), now, threshold)
                  && Tells(status.value, tasks[id], now, threshold)
    {
      if repo !in repos {
        return None;
      }
      var ids := set id | id in tasks && tasks[id].repo == repo;
      var latest := Latest(ids);
      match latest
      case None =>
        status := Some(DeriveStatus(None, now, threshold));
        assert forall id <- tasks | tasks[id].repo == repo :: id in ids;
      case Some(id) =>
        status := Some(DeriveStatus(Some(tasks[id]), now, threshold));
        StatusTells(tasks[id], now, threshold);
        assert IsLatest(tasks, repo, id) by { assert forall other <- tasks | tasks[other].repo == repo ::
               other in ids; }
    }

    /** The fresh active task of the repo, if there is one. */
    method GetActiveTask(repo: RepoId) returns (active: Option<TaskId>)
      ensures active.Some? <==> Busy(State(), threshold, repo)
      ensures active.Some? ==> IsFreshActive(State(), threshold, repo, active.value)
    {
      var ids := set id | id in tasks && tasks[id].repo == repo && IsActive(tasks[id]);
      var latest := Latest(ids);
      if latest.None? {
        assert forall id <- tasks | tasks[id].repo == repo && IsActive(tasks[id]) :: id in ids;
        return None;
      }
      var id := latest.value;
      assert IsLatestActive(tasks, repo, id) by {
        assert forall other <- tasks | tasks[other].repo == repo && IsActive(tasks[other]) :: other in ids;
      }
      ActiveTaskIffBusy(State(), threshold, repo, id);
      if now - tasks[id].createdAt > threshold {
        return None;
      }
      active := Some(id);
    }

    /** The steps of a call that no other step comes between: none if it is refused or a
        read fails, and else its check, its task and its message, as far as they succeed. */
    static ghost predicate IsTrigger(b: Board, repo: RepoId, jobType: string, steps: seq<Step>) {
      || steps == []
      || steps == [] + [Check(repo, jobType)] + [Abandon(b.nextCall)]
      || (exists written ::
            steps == [] + [Check(repo, jobType)] + [Create(b.nextCall)] + [Enqueue(b.nextCall, written)])
    }

    /** RepoService.TriggerIndex, undisturbed. An error of a write may come back although
        the write took effect. */
    method TriggerIndex(repo: RepoId, jobType: string) returns (r: TriggerResult, ghost steps: seq<Step>)
      modifies this`tasks, this`nextTask, this`calls, this`nextCall, this`stream
      ensures IsRun(old(State()), threshold, steps) && State() == Run(old(State()), steps)
      ensures IsTrigger(old(State()), repo, jobType, steps)
      ensures r.NotFound? ==> repo !in repos && steps == []
      ensures r.InProgress? ==> IsFreshActive(old(State()), threshold, repo, r.task) && steps == []
      ensures r.Accepted? ==>
                && steps == [] + [Check(repo, jobType)] + [Create(old(nextCall))] + [Enqueue(old(nextCall), true)]
                && r.task == old(nextTask)
      ensures repo !in repos || Busy(old(State()), threshold, repo) ==> !r.Accepted? && steps == []
    {
      hide Run, IsRun, Apply;
      ghost var b := State();
      RunNone(b, threshold);
      steps := [];
      var read, created, answered, enqueued := *, *, *, *;
      if !read {
        return Unavailable, steps;
      }
      var status := GetRepo(repo);
      if status.None? {
        return NotFound, steps;
      }
      var active := GetActiveTask(repo);
      if active.Some? {
        return InProgress(active.value), steps;
      }
      ghost var c := nextCall;
      RunOneMore(b, threshold, steps, Check(repo, jobType));
      steps := steps + [Check(repo, jobType)];
      BeginCall(repo, jobType);
      if !created || !IsJobType(jobType) {
        RunOneMore(b, threshold, steps, Abandon(c));
        steps := steps + [Abandon(c)];
        AbandonCall(c);
        return Unavailable, steps;
      }
      RunOneMore(b, threshold, steps, Create(c));
      steps := steps + [Create(c)];
      var id := CreateTask(c, repo, jobType);
      RunOneMore(b, threshold, steps, Enqueue(c, enqueued));
      steps := steps + [Enqueue(c, enqueued)];
      EnqueueIndexJob(c, id, repo, jobType, enqueued);
      r := if answered && enqueued then Accepted(id) else Unavailable;
    }

    ghost method BeginCall(repo: RepoId, jobType: string)
      modifies this`calls, this`nextCall
      ensures State() == Apply(old(State()), Check(repo, jobType))
      ensures old(nextCall) in calls && calls[old(nextCall)] == Checked(repo, jobType)
    {
      calls, nextCall := calls[nextCall := Checked(repo, jobType)], nextCall + 1;
    }

    ghost method AbandonCall(c: nat)
      modifies this`calls
      ensures State() == Apply(old(State()), Abandon(c))
    {
      calls := calls - {c};
    }

    method CreateTask(ghost c: nat, repo: RepoId, jobType: string) returns (id: TaskId)
      requires c in calls && calls[c] == Checked(repo, jobType)
      modifies this`tasks, this`nextTask, this`calls
      ensures State() == Apply(old(State()), Create(c))
      ensures id == old(nextTask) && c in calls && calls[c] == Created(repo, jobType, id)
    {
      id := nextTask;
      tasks := tasks[id := Task(repo, jobType, Pending, now)];
      nextTask, calls := nextTask + 1, calls[c := Created(repo, jobType, id)];
    }

    method EnqueueIndexJob(ghost c: nat, id: TaskId, repo: RepoId, jobType: string, written: bool)
      requires c in calls && calls[c] == Created(repo, jobType, id)
      modifies this`stream, this`calls
      ensures State() == Apply(old(State()), Enqueue(c, written))
    {
      calls := calls - {c};
      stream := stream + if written then [Message(id, repo, jobType)] else [];
    }

    /** The start of a worker: the group is created at "$" unless it is there already. */
    method StartWorker() returns (ok: bool)
      modifies this`grouped, this`cursor
      ensures ok ==> State() == Apply(old(State()), CreateGroup) && grouped
      ensures !ok ==> State() == old(State())
    {
      ok := *;
      if ok && !grouped {
        grouped, cursor := true, |stream|;
      }
    }

    /** XREADGROUP with ">": at most count new messages. */
    method ReadMessages(count: nat) returns (read: nat)
      modifies this`cursor, this`held
      ensures read <= count && IsRun(old(State()), threshold, Reads(read)) && State() == Run(old(State()), Reads(read))
      ensures old(grouped) && old(cursor) < |stream| && count > 0 ==> read > 0
    {
      hide Run, IsRun;
      read := 0;
      RunNone(State(), threshold);
      while read < count && grouped && cursor < |stream|
        invariant read <= count
        invariant IsRun(old(State()), threshold, Reads(read)) && State() == Run(old(State()), Reads(read))
        invariant cursor == old(cursor) + read
      {
        RunOneMore(old(State()), threshold, Reads(read), Read);
        assert Reads(read + 1) == Reads(read) + [Read];
        held, cursor := held + {cursor}, cursor + 1;
        read := read + 1;
      }
    }

    /** One message of the worker's read loop: run it, or lose it, and acknowledge it.
        The steps returned are what happened. */
    method ProcessMessage(index: nat, finalStatus: TaskStatus) returns (ran: Option<Job>, ghost steps: seq<Step>)
      requires index in held && index < |stream| && finalStatus in {Completed, Failed, Partial}
      modifies this`tasks, this`held, this`started
      ensures IsRun(old(State()), threshold, steps) && State() == Run(old(State()), steps)
      ensures index !in held && index !in started
      ensures ran == Some(FullRun) ==> stream[index].jobType == "full"
      ensures ran == Some(IncrementalRun) ==> stream[index].jobType == "incremental"
      ensures ran.None? <==> steps == [Drop(index)]
    {
      hide Run, IsRun, Apply;
      ghost var b := State();
      RunNone(b, threshold);
      var wellFormed, startedOk, finishedOk := *, *, *;
      if !wellFormed || !IsJobType(stream[index].jobType) || !startedOk {
        RunOneMore(b, threshold, [], Drop(index));
        DropMessage(index);
        return None, [] + [Drop(index)];
      }
      ran := Some(if stream[index].jobType == "full" then FullRun else IncrementalRun);
      RunOneMore(b, threshold, [], Start(index));
      steps := [] + [Start(index)];
      StartMessage(index);
      if finishedOk {
        RunOneMore(b, threshold, steps, Finish(index, finalStatus));
        steps := steps + [Finish(index, finalStatus)];
        FinishMessage(index, finalStatus);
      } else {
        RunOneMore(b, threshold, steps, Drop(index));
        steps := steps + [Drop(index)];
        DropMessage(index);
      }
    }

    method DropMessage(index: nat)
      modifies this`held, this`started
      ensures State() == Apply(old(State()), Drop(index))
      ensures index !in held && index !in started
    {
      held, started := held - {index}, started - {index};
    }

    method StartMessage(index: nat)
      requires index in held && index < |stream|
      modifies this`tasks, this`held, this`started
      ensures State() == Apply(old(State()), Start(index))
      ensures index !in held && index in started
    {
      SetTaskStatus(stream[index].task, Running);
      held, started := held - {index}, started + {index};
    }

    method FinishMessage(index: nat, status: TaskStatus)
      requires index !in held && index < |stream|
      modifies this`tasks, this`started
      ensures State() == Apply(old(State()), Finish(index, status))
      ensures index !in held && index !in started
    {
      SetTaskStatus(stream[index].task, status);
      started := started - {index};
    }

    method SetTaskStatus(id: TaskId, status: TaskStatus)
      modifies this`tasks
      ensures tasks == if id in old(tasks) then old(tasks)[id := old(tasks)[id].(status := status)] else old(tasks)
    {
      if id in tasks {
        tasks := tasks[id := tasks[id].(status := status)];
      }
    }
  }
}
