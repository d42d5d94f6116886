/**
  What becomes of a key on the asyncio client, step by step and over whole runs: which
  ends are started, what each leaves of the registry, that the key of a session left
  as garbage is ended by the next call, and that a failed end is tried again.
 */
module EventLoopRetry {
  import opened EventLoopEnds

  // ---- the ends a step starts ----------------------------------------------

  lemma {:induction false} EndEachStarts(r: Registry, todo: seq<Orphan>)
    ensures var s := EndEach(r, todo);
            && s.tasks == r.tasks + seq(|todo|, i requires 0 <= i < |todo| => Task(todo[i].user, todo[i].key, Running))
            && s.live == r.live && s.orphans == r.orphans
    decreases |todo|
  {
    if todo == [] {
      assert r.tasks + [] == r.tasks;
    } else {
      var started := Task(todo[0].user, todo[0].key, Running);
      EndEachStarts(EndKey(r, todo[0].user, todo[0].key), todo[1..]);
      var tasks := seq(|todo|, i requires 0 <= i < |todo| => Task(todo[i].user, todo[i].key, Running));
      var later := seq(|todo| - 1, i requires 0 <= i < |todo| - 1 =>
        Task(todo[1..][i].user, todo[1..][i].key, Running));
      assert tasks == [started] + later;
      assert (r.tasks + [started]) + later == r.tasks + tasks;
    }
  }

  // The ends a step starts, in order.
  function Started(l: Loop, step: Step): seq<Task>
    requires Enabled(l, step)
  {
    match step
    case SessionEnd(k) => [Task(l.issued[k], k, Running)]
    case MintRetry(_, k) => [Task(l.reg.live[k].user, k, Running)]
    case CallBegin => Queued(l.reg.orphans)
    case MintBegin(_, _, _) => Queued(l.reg.orphans)
    case _ => []
  }

  function Queued(orphans: seq<Orphan>): (tasks: seq<Task>)
    ensures |tasks| == |orphans|
  {
    seq(|orphans|, i requires 0 <= i < |orphans| => Task(orphans[i].user, orphans[i].key, Running))
  }

  /**
    Ends are started by a session's end, by a retry, and by a call or a mint that finds
    keys queued, which starts one for each, in the order they were queued, and empties
    the queue; an end started before only moves from running to returned to called back.
   */
  lemma TasksChangeBy(l: Loop, step: Step, t: TaskId)
    requires Enabled(l, step)
    ensures var before, after := l.reg.tasks, Next(l, step).reg.tasks;
            && |after| == |before| + |Started(l, step)|
            && (t < |before| ==>
                  && after[t].key == before[t].key && after[t].user == before[t].user
                  && after[t].phase == if step.TaskReturns? && step.task == t then Returned
                                       else if step.TaskCallsBack? && step.task == t then CalledBack
                                       else before[t].phase)
            && (|before| <= t < |after| ==> after[t] == Started(l, step)[t - |before|])
    ensures step.CallBegin? || step.MintBegin? ==> Next(l, step).reg.orphans == []
    ensures step.Collected? ==> Next(l, step).reg.orphans == l.reg.orphans + [Orphan(l.issued[step.key], step.key)]
    ensures !step.CallBegin? && !step.MintBegin? && !step.Collected? ==> Next(l, step).reg.orphans == l.reg.orphans
  {
    hide EndEach, Marked, Waits;
    EndEachStarts(l.reg.(orphans := []), l.reg.orphans);
  }

  /**
    A key is registered by a mint, unmarked; it goes when its end comes out as gone, or
    at a mint once it has expired; it is marked by an end of it that failed, and
    unmarked by the retry that takes it. Nothing else of it changes.
   */
  lemma LiveChangesBy(l: Loop, step: Step, k: KeyId)
    requires Enabled(l, step)
    ensures var before, after := l.reg.live, Next(l, step).reg.live;
            var registered := step.MintRegister? && step.key == k;
            var ended := step.TaskReturns? && l.reg.tasks[step.task].key == k;
            && (k in after <==>
                  || registered
                  || (k in before && !(step.MintBegin? && before[k].expires <= step.now)
                      && !(ended && step.outcome == Gone)))
            && (registered ==> after[k] == Live(l.mints[step.job].user, step.expires, false))
            && (k in after && !registered ==>
                  && after[k].user == before[k].user && after[k].expires == before[k].expires
                  && after[k].failed == if ended && step.outcome == Failed then true
                                        else if step.MintRetry? && step.key == k then false
                                        else before[k].failed)
  {
    hide EndEach, Marked, Waits;
    EndEachStarts(l.reg.(orphans := []), l.reg.orphans);
  }

  /** Where a mint is: it begins by looking for keys to retry, and asks only from its wait. */
  lemma MintsChangeBy(l: Loop, step: Step, job: JobId)
    requires Enabled(l, step)
    ensures var before, after := l.mints, Next(l, step).mints;
            && (job in after <==>
                  (step.MintBegin? && step.job == job) || (job in before && !(step.MintRegister? && step.job == job)))
            && (job in before && job in after ==> after[job].user == before[job].user)
            && (job in after ==>
                  if step.MintBegin? && step.job == job then after[job] == Job(step.user, Pruning)
                  else if step.MintRetry? && step.job == job then after[job].at == Retrying(|l.reg.tasks|)
                  else if step.MintPruned? && step.job == job then after[job].at == Waiting
                  else if step.MintLeaves? && step.job == job then after[job].at == Asking
                  else step == MintRetried(job, true) || step == MintRetried(job, false) || after[job] == before[job])
  {
    hide EndEach, Marked, Waits;
  }

  /** What is issued, left by its session, and known to be gone, only grows, each by the step that says so. */
  lemma KeysChangeBy(l: Loop, step: Step, k: KeyId)
    requires Enabled(l, step)
    ensures var after := Next(l, step);
            && (k in after.issued <==> k in l.issued || (step.MintRegister? && step.key == k))
            && (step.MintRegister? && step.key == k ==> after.issued[k] == l.mints[step.job].user)
            && (k in after.touched <==> k in l.touched || step == SessionEnd(k) || step == Collected(k))
            && (k in after.confirmed <==>
                  k in l.confirmed || (step.TaskReturns? && step.outcome == Gone && l.reg.tasks[step.task].key == k))
  {
    hide EndEach, Marked, Waits;
  }

  // ---- a session left as garbage -------------------------------------------

  // Queued to be ended, or an end of it was started.
  ghost predicate QueuedOrStarted(r: Registry, k: KeyId) {
    !NotQueued(r.orphans, k) || !Never(r.tasks, k)
  }

  lemma StepQueues(l: Loop, step: Step, k: KeyId)
    requires Enabled(l, step) && QueuedOrStarted(l.reg, k)
    ensures QueuedOrStarted(Next(l, step).reg, k)
    ensures step.CallBegin? || step.MintBegin? ==> !Never(Next(l, step).reg.tasks, k)
  {
    hide Enabled, Next;
    if !NotQueued(l.reg.orphans, k) {
      var i :| 0 <= i < |l.reg.orphans| && l.reg.orphans[i].key == k;
      QueuedStarts(l, step, i);
    } else {
      var t :| 0 <= t < |l.reg.tasks| && l.reg.tasks[t].key == k;
      TasksChangeBy(l, step, t);
    }
  }

  lemma QueuedStarts(l: Loop, step: Step, i: nat)
    requires Enabled(l, step) && i < |l.reg.orphans|
    ensures var after, k := Next(l, step).reg, l.reg.orphans[i].key;
            if step.CallBegin? || step.MintBegin? then !Never(after.tasks, k)
            else i < |after.orphans| && after.orphans[i].key == k
  {
    hide Next;
    TasksChangeBy(l, step, |l.reg.tasks| + i);
  }

  lemma {:induction false} RunQueues(l: Loop, steps: seq<Step>, k: KeyId)
    requires Legal(l, steps) && QueuedOrStarted(l.reg, k)
    ensures QueuedOrStarted(Run(l, steps).reg, k)
    decreases |steps|
  {
    hide Enabled, Next, QueuedOrStarted;
    if steps != [] {
      StepQueues(l, steps[0], k);
      RunQueues(Next(l, steps[0]), steps[1..], k);
    }
  }

  /**
    The key of a session left as garbage is ended: by the time the next call or mint has
    begun, an end of it was started.
   */
  lemma OrphansAreEnded(l: Loop, k: KeyId, steps: seq<Step>, step: Step)
    requires Enabled(l, Collected(k)) && Legal(Next(l, Collected(k)), steps)
    requires Enabled(Run(Next(l, Collected(k)), steps), step) && (step.CallBegin? || step.MintBegin?)
    ensures !Never(Next(Run(Next(l, Collected(k)), steps), step).reg.tasks, k)
  {
    hide Never, Run, Legal;
    var m := Next(l, Collected(k));
    assert m.reg.orphans[|l.reg.orphans|].key == k;
    RunQueues(m, steps, k);
    StepQueues(Run(m, steps), step, k);
  }

  // ---- an end that failed --------------------------------------------------

  // No retry of the key is begun, and no mint finds it expired.
  predicate Untried(steps: seq<Step>, k: KeyId, expires: real) {
    forall i :: 0 <= i < |steps| ==>
      !(steps[i].MintRetry? && steps[i].key == k) && (steps[i].MintBegin? ==> steps[i].now < expires)
  }

  ghost predicate Failing(r: Registry, k: KeyId, user: User, expires: real) {
    k in r.live && r.live[k] == Live(user, expires, true)
  }

  lemma StepFails(l: Loop, step: Step, k: KeyId, user: User, expires: real)
    requires Inv(l) && Enabled(l, step) && Failing(l.reg, k, user, expires) && Untried([step], k, expires)
    ensures Failing(Next(l, step).reg, k, user, expires)
  {
    hide Enabled, Next, Inv;
    assert Untried([step], k, expires) && [step][0] == step;
    LiveChangesBy(l, step, k);
    NotReturning(l, step, k);
  }

  // A marked key has no unfinished end, and is no new one.
  lemma NotReturning(l: Loop, step: Step, k: KeyId)
    requires Inv(l) && Enabled(l, step) && k in l.reg.live && l.reg.live[k].failed
    ensures !(step.TaskReturns? && l.reg.tasks[step.task].key == k) && !(step.MintRegister? && step.key == k)
  {
    hide Registered, QueuedOnce, Untouched;
  }

  lemma {:induction false} RunFails(l: Loop, steps: seq<Step>, k: KeyId, user: User, expires: real)
    requires Inv(l) && Legal(l, steps) && Failing(l.reg, k, user, expires) && Untried(steps, k, expires)
    ensures Failing(Run(l, steps).reg, k, user, expires)
    decreases |steps|
  {
    hide Enabled, Next, Failing, Inv;
    if steps != [] {
      StepFails(l, steps[0], k, user, expires);
      StepKeeps(l, steps[0]);
      RunFails(Next(l, steps[0]), steps[1..], k, user, expires);
    }
  }

  /**
    A failed end is tried again: as long as it is not, and the key has not expired, a
    mint for its user that looks for keys to retry may take this one, and does not go
    on as if there were none.
   */
  lemma FailedEndIsRetried(l: Loop, t: TaskId, steps: seq<Step>, job: JobId)
    requires Reachable(l) && Enabled(l, TaskReturns(t, Failed)) && l.reg.tasks[t].key in l.reg.live
    requires Legal(Next(l, TaskReturns(t, Failed)), steps)
    requires var k := l.reg.tasks[t].key;
             && Untried(steps, k, l.reg.live[k].expires)
             && var e := Run(Next(l, TaskReturns(t, Failed)), steps);
                job in e.mints && e.mints[job] == Job(l.reg.live[k].user, Pruning)
    ensures var e := Run(Next(l, TaskReturns(t, Failed)), steps);
            Enabled(e, MintRetry(job, l.reg.tasks[t].key)) && !Enabled(e, MintPruned(job))
  {
    hide Reachable, Run, Legal, Inv, Untried;
    var k := l.reg.tasks[t].key;
    ReachableKeeps(l);
    StepKeeps(l, TaskReturns(t, Failed));
    LiveChangesBy(l, TaskReturns(t, Failed), k);
    RunFails(Next(l, TaskReturns(t, Failed)), steps, k, l.reg.live[k].user, l.reg.live[k].expires);
  }

  // ---- what a mint is told of its retry ------------------------------------

  ghost predicate Told(l: Loop) {
    forall t :: t in l.ended ==> t < |l.reg.tasks| && l.reg.tasks[t].phase != Running
  }

  lemma StepTells(l: Loop, step: Step, t: TaskId)
    requires Enabled(l, step) && t < |l.reg.tasks| && l.reg.tasks[t].phase != Running
    ensures t < |Next(l, step).reg.tasks| && Next(l, step).reg.tasks[t].phase != Running
    ensures t in Next(l, step).ended <==> t in l.ended
  {
    hide EndEach, Marked, Waits;
    TasksChangeBy(l, step, t);
  }

  lemma StepTold(l: Loop, step: Step)
    requires Enabled(l, step) && Told(l)
    ensures Told(Next(l, step))
  {
    forall t | t in Next(l, step).ended
      ensures t < |Next(l, step).reg.tasks| && Next(l, step).reg.tasks[t].phase != Running
    {
      if t in l.ended {
        StepTells(l, step, t);
      }
    }
  }

  lemma {:induction false} RunTells(l: Loop, steps: seq<Step>, t: TaskId)
    requires Legal(l, steps) && t < |l.reg.tasks| && l.reg.tasks[t].phase != Running
    ensures t in Run(l, steps).ended <==> t in l.ended
    decreases |steps|
  {
    hide Enabled, Next;
    if steps != [] {
      StepTells(l, steps[0], t);
      RunTells(Next(l, steps[0]), steps[1..], t);
    }
  }

  lemma {:induction false} RunTold(l: Loop, steps: seq<Step>)
    requires Legal(l, steps) && Told(l)
    ensures Told(Run(l, steps))
    decreases |steps|
  {
    hide Enabled, Next, Told;
    if steps != [] {
      StepTold(l, steps[0]);
      RunTold(Next(l, steps[0]), steps[1..]);
    }
  }

  /** A mint looks for another key to retry exactly if the end it awaited left nothing to end; otherwise it waits. */
  lemma RetryIsTold(l: Loop, t: TaskId, outcome: Outcome, steps: seq<Step>, job: JobId, ended: bool)
    requires Reachable(l) && Enabled(l, TaskReturns(t, outcome)) && Legal(Next(l, TaskReturns(t, outcome)), steps)
    requires var e := Run(Next(l, TaskReturns(t, outcome)), steps);
             Enabled(e, MintRetried(job, ended)) && e.mints[job].at == Retrying(t)
    ensures var e := Run(Next(l, TaskReturns(t, outcome)), steps);
            Next(e, MintRetried(job, ended)).mints[job].at == if outcome == Gone then Pruning else Waiting
  {
    hide Run, Legal, Return;
    var before :| Legal(Init(), before) && Run(Init(), before) == l;
    RunTold(Init(), before);
    ReturnedNow(l, t, outcome);
    RunTells(Next(l, TaskReturns(t, outcome)), steps, t);
  }

  lemma ReturnedNow(l: Loop, t: TaskId, outcome: Outcome)
    requires Enabled(l, TaskReturns(t, outcome))
    ensures var m := Next(l, TaskReturns(t, outcome));
            && t < |m.reg.tasks| && m.reg.tasks[t].phase != Running
            && m.ended == l.ended + if outcome == Gone then {t} else {}
  {
  }
}
