/** When a repository may be asked: the impact analysis and the question service accept it
    exactly when its latest task ended well. */
module Readiness {
  import opened Text
  import opened IndexTables
  import opened Tasks
  import Impact
  import QueryReplay

  predicate EndedWell(t: Task) {
    t.status == Completed || t.status == Partial
  }

  /** The status text decides as the latest task does. */
  lemma ReadyIff(status: string, t: Task, now: int, threshold: nat)
    requires Tells(status, t, now, threshold)
    ensures Impact.IsReady(status) <==> EndedWell(t)
  {
  }

  /** Without a task a repository is not ready. */
  lemma NeverReadyUntouched(now: int, threshold: nat)
    ensures !Impact.IsReady(DeriveStatus(None, now, threshold))
  {
    StatusTexts();
  }

  /** A question about a known repository, none of whose reads fails, is answered exactly
      when the latest task ended well, and refused with its status otherwise. */
  lemma AnsweredIff(q: QueryReplay.Question, cache: QueryReplay.Cache, status: string, t: Task, now: int,
                    threshold: nat)
    requires Tells(status, t, now, threshold)
    requires QueryReplay.IsUuid(q.repoId) && q.status == Ok(status) && q.readError.None?
    ensures QueryReplay.IsReady(q) <==> EndedWell(t)
    ensures QueryReplay.Respond(cache, q).Stream? <==> EndedWell(t)
    ensures !EndedWell(t) ==> QueryReplay.Respond(cache, q) == QueryReplay.Refused(QueryReplay.NotReady(status))
  {
    hide QueryReplay.IsUuid, QueryReplay.IsHit;
  }

  /** A repository becomes ready when its one latest task finishes, unless that failed. */
  lemma FinishMakesReadyIff(b: Board, threshold: nat, i: nat, status: TaskStatus, repo: RepoId, id: TaskId)
    requires Inv(b) && Enabled(b, threshold, Finish(i, status))
    requires IsLatest(b.tasks, repo, b.stream[i].task)
    requires forall other | IsLatest(b.tasks, repo, other) :: other == b.stream[i].task
    requires IsLatest(Apply(b, Finish(i, status)).tasks, repo, id)
    ensures var after := Apply(b, Finish(i, status));
            Impact.IsReady(DeriveStatus(Some(after.tasks[id]), after.now, threshold)) <==> status != Failed
  {
    hide DeriveStatus, Inv, Apply, Tells, Impact.IsReady;
    FinishDecidesStatus(b, threshold, i, status, repo);
    var after := Apply(b, Finish(i, status));
    ReadyIff(DeriveStatus(Some(after.tasks[id]), after.now, threshold), after.tasks[id], after.now, threshold);
  }
}
