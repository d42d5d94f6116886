/**
  The ends an asyncio client has under way: `_live`, `_ending` and `_orphans` of
  `python/memcoai/_aio.py`, on one event loop. One step per stretch of code
  between two awaits, so an end's task, its done-callback and the mints that
  retry or wait for ends interleave in every order the loop could choose.
 */
module EventLoopEnds {
  type KeyId = nat
  type User = nat
  type TaskId = nat
  type JobId = nat

  datatype Live = Live(user: User, expires: real, failed: bool)

  // A task's coroutine returns first; its done-callback runs in a later iteration.
  datatype Phase = Running | Returned | CalledBack

  datatype Task = Task(user: User, key: KeyId, phase: Phase)

  datatype Entry = Entry(user: User, task: TaskId)

  datatype Orphan = Orphan(user: User, key: KeyId)

  datatype Registry = Registry(
    live: map<KeyId, Live>,
    ending: map<KeyId, Entry>,
    orphans: seq<Orphan>,
    tasks: seq<Task>)           // every end ever started, by task id

  // How an end comes out: nothing is left to end; refused or cancelled; or
  // not sent, because the client is closed.
  datatype Outcome = Gone | Failed | ClientClosed

  // ---- what the client does ------------------------------------------------

  // `_end_key`: a task of its own, registered at once.
  function EndKey(r: Registry, user: User, k: KeyId): Registry {
    r.(tasks := r.tasks + [Task(user, k, Running)], ending := r.ending[k := Entry(user, |r.tasks|)])
  }

  function EndEach(r: Registry, todo: seq<Orphan>): Registry
    decreases |todo|
  {
    if todo == [] then r else EndEach(EndKey(r, todo[0].user, todo[0].key), todo[1..])
  }

  // `_end_orphans`: the queue is emptied before any key is ended.
  function EndOrphans(r: Registry): Registry {
    EndEach(r.(orphans := []), r.orphans)
  }

  function MarkFailed(live: map<KeyId, Live>, k: KeyId): map<KeyId, Live> {
    if k in live then live[k := live[k].(failed := true)] else live
  }

  // The end of `_ended`: the task's coroutine returns.
  function Return(r: Registry, t: TaskId, outcome: Outcome): Registry
    requires t < |r.tasks|
  {
    var task := r.tasks[t];
    r.(tasks := r.tasks[t := task.(phase := Returned)],
       live := match outcome
               case Gone => r.live - {task.key}
               case Failed => MarkFailed(r.live, task.key)
               case ClientClosed => r.live)
  }

  // `_ended_with`: only the entry of this very end is removed.
  function CallBack(r: Registry, t: TaskId): Registry
    requires t < |r.tasks|
  {
    var task := r.tasks[t];
    r.(tasks := r.tasks[t := task.(phase := CalledBack)],
       ending := if task.key in r.ending && r.ending[task.key].task == t then r.ending - {task.key} else r.ending)
  }

  // `_prune` before its loop: forget the expired.
  function Prune(r: Registry, now: real): Registry {
    r.(live := map k | k in r.live && r.live[k].expires > now :: r.live[k])
  }

  // One round of `_prune`'s loop: unmark the key as it is taken, and end it again.
  function Retry(r: Registry, k: KeyId): Registry
    requires k in r.live
  {
    EndKey(r.(live := r.live[k := r.live[k].(failed := false)]), r.live[k].user, k)
  }

  // A key of the user's whose end failed is left to retry.
  predicate Marked(live: map<KeyId, Live>, user: User) {
    exists k :: k in live && live[k].failed && live[k].user == user
  }

  predicate Waits(r: Registry, user: User) {
    exists k :: k in r.ending && r.ending[k].user == user
  }

  // ---- everything around it ------------------------------------------------

  // Where a mint is: about to look for a key to retry, awaiting that retry,
  // in the loop that waits for its user's ends, or past it.
  datatype Mint = Pruning | Retrying(task: TaskId) | Waiting | Asking

  datatype Job = Job(user: User, at: Mint)

  datatype Loop = Loop(
    reg: Registry,
    issued: map<KeyId, User>,
    touched: set<KeyId>,       // keys a session ended, or left behind as garbage
    confirmed: set<KeyId>,     // keys whose end came out as Gone
    ended: set<TaskId>,        // ends that did: what a mint that retried one is told
    mints: map<JobId, Job>)

  datatype Step =
    | SessionEnd(key: KeyId)                 // a session credential calls its end
    | Collected(key: KeyId)                  // or is garbage, and queues the key instead
    | CallBegin                              // any call ends the orphans first
    | MintBegin(job: JobId, user: User, now: real)
    | MintRetry(job: JobId, key: KeyId)
    | MintRetried(job: JobId, ended: bool)
    | MintPruned(job: JobId)                 // no failed end is left to retry
    | MintLeaves(job: JobId)                 // the wait loop's test fails
    | MintRegister(job: JobId, key: KeyId, expires: real)
    | TaskReturns(task: TaskId, outcome: Outcome)
    | TaskCallsBack(task: TaskId)

  function Init(): Loop {
    Loop(Registry(map[], map[], [], []), map[], {}, {}, {}, map[])
  }

  // A session credential does one of two things with its key, once (CredentialSafety).
  ghost predicate Enabled(l: Loop, step: Step) {
    match step
    case SessionEnd(k) => k in l.issued && k !in l.touched
    case Collected(k) => k in l.issued && k !in l.touched
    case CallBegin => true
    case MintBegin(job, _, _) => job !in l.mints
    case MintRetry(job, k) =>
      && job in l.mints && l.mints[job].at == Pruning
      && k in l.reg.live && l.reg.live[k].failed && l.reg.live[k].user == l.mints[job].user
    case MintRetried(job, ended) =>
      && job in l.mints && l.mints[job].at.Retrying?
      && l.mints[job].at.task < |l.reg.tasks| && l.reg.tasks[l.mints[job].at.task].phase != Running
      && ended == (l.mints[job].at.task in l.ended)
    case MintPruned(job) => job in l.mints && l.mints[job].at == Pruning && !Marked(l.reg.live, l.mints[job].user)
    case MintLeaves(job) => job in l.mints && l.mints[job].at == Waiting && !Waits(l.reg, l.mints[job].user)
    case MintRegister(job, k, _) => job in l.mints && l.mints[job].at == Asking && k !in l.issued
    case TaskReturns(t, _) => t < |l.reg.tasks| && l.reg.tasks[t].phase == Running
    case TaskCallsBack(t) => t < |l.reg.tasks| && l.reg.tasks[t].phase == Returned
  }

  function Next(l: Loop, step: Step): Loop
    requires Enabled(l, step)
  {
    match step
    case SessionEnd(k) => l.(reg := EndKey(l.reg, l.issued[k], k), touched := l.touched + {k})
    case Collected(k) =>
      l.(reg := l.reg.(orphans := l.reg.orphans + [Orphan(l.issued[k], k)]), touched := l.touched + {k})
    case CallBegin => l.(reg := EndOrphans(l.reg))
    case MintBegin(job, user, now) =>
      l.(reg := Prune(EndOrphans(l.reg), now), mints := l.mints[job := Job(user, Pruning)])
    case MintRetry(job, k) =>
      l.(reg := Retry(l.reg, k), mints := l.mints[job := l.mints[job].(at := Retrying(|l.reg.tasks|))])
    case MintRetried(job, ended) =>
      l.(mints := l.mints[job := l.mints[job].(at := if ended then Pruning else Waiting)])
    case MintPruned(job) => l.(mints := l.mints[job := l.mints[job].(at := Waiting)])
    case MintLeaves(job) => l.(mints := l.mints[job := l.mints[job].(at := Asking)])
    case MintRegister(job, k, expires) =>
      l.(reg := l.reg.(live := l.reg.live[k := Live(l.mints[job].user, expires, false)]),
         issued := l.issued[k := l.mints[job].user], mints := l.mints - {job})
    case TaskReturns(t, outcome) =>
      l.(reg := Return(l.reg, t, outcome),
         confirmed := if outcome == Gone then l.confirmed + {l.reg.tasks[t].key} else l.confirmed,
         ended := if outcome == Gone then l.ended + {t} else l.ended)
    case TaskCallsBack(t) => l.(reg := CallBack(l.reg, t))
  }

  ghost predicate Legal(l: Loop, steps: seq<Step>)
    decreases |steps|
  {
    steps == [] || (Enabled(l, steps[0]) && Legal(Next(l, steps[0]), steps[1..]))
  }

  function Run(l: Loop, steps: seq<Step>): Loop
    requires Legal(l, steps)
    decreases |steps|
  {
    if steps == [] then l else Run(Next(l, steps[0]), steps[1..])
  }

  // ---- the invariant -------------------------------------------------------

  ghost predicate Idle(tasks: seq<Task>, k: KeyId) {
    forall t :: 0 <= t < |tasks| && tasks[t].key == k ==> tasks[t].phase != Running
  }

  ghost predicate Never(tasks: seq<Task>, k: KeyId) {
    forall t :: 0 <= t < |tasks| ==> tasks[t].key != k
  }

  // Every unfinished end is the one registered for its key, so there is one at most.
  ghost predicate Registered(tasks: seq<Task>, ending: map<KeyId, Entry>) {
    && (forall t :: 0 <= t < |tasks| && tasks[t].phase == Running ==>
          tasks[t].key in ending && ending[tasks[t].key] == Entry(tasks[t].user, t))
    && (forall k :: k in ending ==>
          && ending[k].task < |tasks| && tasks[ending[k].task].key == k
          && tasks[ending[k].task].user == ending[k].user && tasks[ending[k].task].phase != CalledBack)
  }

  // A key is retried only once the end that failed has returned.
  ghost predicate FailedIdle(r: Registry, touched: set<KeyId>) {
    forall k :: k in r.live && r.live[k].failed ==> Idle(r.tasks, k) && k in touched && NotQueued(r.orphans, k)
  }

  ghost predicate NotQueued(orphans: seq<Orphan>, k: KeyId) {
    forall i :: 0 <= i < |orphans| ==> orphans[i].key != k
  }

  ghost predicate QueuedOnce(r: Registry, l: Loop) {
    && (forall i :: 0 <= i < |r.orphans| ==>
          var o := r.orphans[i];
          && o.key in l.issued && l.issued[o.key] == o.user && o.key in l.touched
          && Never(r.tasks, o.key) && o.key !in l.confirmed)
    && (forall i, j :: 0 <= i < j < |r.orphans| ==> r.orphans[i].key != r.orphans[j].key)
  }

  ghost predicate Untouched(r: Registry, touched: set<KeyId>, confirmed: set<KeyId>) {
    && (forall t :: 0 <= t < |r.tasks| ==> r.tasks[t].key in touched)
    && confirmed <= touched
    && (forall k :: k in confirmed ==> k !in r.live && Idle(r.tasks, k))
  }

  ghost predicate Owned(r: Registry, issued: map<KeyId, User>, touched: set<KeyId>) {
    && (forall k :: k in r.live ==> k in issued && issued[k] == r.live[k].user)
    && (forall t :: 0 <= t < |r.tasks| ==> r.tasks[t].key in issued && issued[r.tasks[t].key] == r.tasks[t].user)
    && (forall k :: k in touched ==> k in issued)
  }

  ghost predicate Inv(l: Loop) {
    && Registered(l.reg.tasks, l.reg.ending)
    && FailedIdle(l.reg, l.touched)
    && QueuedOnce(l.reg, l)
    && Untouched(l.reg, l.touched, l.confirmed)
    && Owned(l.reg, l.issued, l.touched)
  }

  // A further end of a key that has none unfinished, and is not waiting to be ended as an orphan.
  lemma EndKeyKeeps(l: Loop, k: KeyId)
    requires Inv(l) && k in l.touched && Idle(l.reg.tasks, k) && NotQueued(l.reg.orphans, k) && k !in l.confirmed
    requires k in l.reg.live ==> !l.reg.live[k].failed
    ensures Inv(l.(reg := EndKey(l.reg, l.issued[k], k)))
  {
    var r := EndKey(l.reg, l.issued[k], k);
    forall i | i != k && Idle(l.reg.tasks, i) ensures Idle(r.tasks, i) {
    }
  }

  lemma {:induction false} EndEachKeeps(l: Loop, todo: seq<Orphan>)
    requires Inv(l) && l.reg.orphans == [] && QueuedOnce(l.reg.(orphans := todo), l)
    requires forall i :: 0 <= i < |todo| ==> todo[i].key in l.reg.live ==> !l.reg.live[todo[i].key].failed
    ensures Inv(l.(reg := EndEach(l.reg, todo)))
    decreases |todo|
  {
    if todo != [] {
      var k := todo[0].key;
      EndKeyKeeps(l, k);
      var m := l.(reg := EndKey(l.reg, todo[0].user, k));
      forall i | 0 <= i < |todo[1..]| ensures Never(m.reg.tasks, todo[1..][i].key) {
        assert Never(l.reg.tasks, todo[i + 1].key) && todo[0].key != todo[i + 1].key;
      }
      EndEachKeeps(m, todo[1..]);
    }
  }

  lemma EndOrphansKeeps(l: Loop)
    requires Inv(l)
    ensures Inv(l.(reg := EndOrphans(l.reg)))
  {
    var emptied := l.(reg := l.reg.(orphans := []));
    EndEachKeeps(emptied, l.reg.orphans);
  }

  lemma ReturnKeeps(l: Loop, t: TaskId, outcome: Outcome)
    requires Inv(l) && Enabled(l, TaskReturns(t, outcome))
    ensures Inv(Next(l, TaskReturns(t, outcome)))
  {
    hide Registered, Idle, Never;
    ReturnIdles(l.reg.tasks, l.reg.ending, t);
  }

  // The end that returns was the only unfinished one of its key.
  lemma ReturnIdles(tasks: seq<Task>, ending: map<KeyId, Entry>, t: TaskId)
    requires t < |tasks| && tasks[t].phase == Running && Registered(tasks, ending)
    ensures var after := tasks[t := tasks[t].(phase := Returned)];
            && Registered(after, ending) && Idle(after, tasks[t].key) && !Never(tasks, tasks[t].key)
            && (forall k :: Idle(tasks, k) ==> Idle(after, k))
            && (forall k :: Never(tasks, k) ==> Never(after, k))
  {
    var after := tasks[t := tasks[t].(phase := Returned)];
    forall k | Idle(tasks, k) ensures Idle(after, k) {
    }
  }

  lemma CallBackKeeps(l: Loop, t: TaskId)
    requires Inv(l) && Enabled(l, TaskCallsBack(t))
    ensures Inv(Next(l, TaskCallsBack(t)))
  {
    var m := Next(l, TaskCallsBack(t));
    forall i | Idle(l.reg.tasks, i) ensures Idle(m.reg.tasks, i) {
    }
  }

  lemma RegisterKeeps(l: Loop, job: JobId, k: KeyId, expires: real)
    requires Inv(l) && Enabled(l, MintRegister(job, k, expires))
    ensures Inv(Next(l, MintRegister(job, k, expires)))
  {
  }

  /** Every interleaving keeps the invariant. */
  lemma StepKeeps(l: Loop, step: Step)
    requires Inv(l) && Enabled(l, step)
    ensures Inv(Next(l, step))
  {
    match step
    case SessionEnd(k) => EndKeyKeeps(l.(touched := l.touched + {k}), k);
    case CallBegin => EndOrphansKeeps(l);
    case MintBegin(job, user, now) => EndOrphansKeeps(l);
    case MintRetry(job, k) =>
      EndKeyKeeps(l.(reg := l.reg.(live := l.reg.live[k := l.reg.live[k].(failed := false)])), k);
    case MintRegister(job, k, expires) => RegisterKeeps(l, job, k, expires);
    case TaskReturns(t, outcome) => ReturnKeeps(l, t, outcome);
    case TaskCallsBack(t) => CallBackKeeps(l, t);
    case _ =>
  }

  lemma {:induction false} RunKeeps(l: Loop, steps: seq<Step>)
    requires Inv(l) && Legal(l, steps)
    ensures Inv(Run(l, steps))
    decreases |steps|
  {
    if steps != [] {
      StepKeeps(l, steps[0]);
      RunKeeps(Next(l, steps[0]), steps[1..]);
    }
  }

  ghost predicate Reachable(l: Loop) {
    exists steps :: Legal(Init(), steps) && Run(Init(), steps) == l
  }

  lemma ReachableKeeps(l: Loop)
    requires Reachable(l)
    ensures Inv(l)
  {
    var steps :| Legal(Init(), steps) && Run(Init(), steps) == l;
    RunKeeps(Init(), steps);
  }

  // ---- what holds of every run ---------------------------------------------

  /** A mint leaves its wait loop only when every end of its user's keys ever started has returned. */
  lemma MintLeavesOnceUserIsIdle(l: Loop, job: JobId)
    requires Reachable(l) && Enabled(l, MintLeaves(job))
    ensures forall t :: 0 <= t < |l.reg.tasks| && l.reg.tasks[t].user == l.mints[job].user ==>
              l.reg.tasks[t].phase != Running
  {
    ReachableKeeps(l);
    forall t | 0 <= t < |l.reg.tasks| && l.reg.tasks[t].user == l.mints[job].user
      ensures l.reg.tasks[t].phase != Running
    {
      if l.reg.tasks[t].phase == Running {
        assert l.reg.tasks[t].key in l.reg.ending;
        assert Waits(l.reg, l.mints[job].user);
      }
    }
  }

  /**
    An unfinished end stays registered whatever happens; a finished one is
    replaced by a retry of its key, or else removed by its own callback and no
    other's. So the loop a mint waits in is never short of an end, nor held up
    by one whose callback has run.
   */
  lemma EntryGoesWithItsOwnEnd(l: Loop, step: Step, k: KeyId)
    requires Reachable(l) && Enabled(l, step) && k in l.reg.ending
    ensures var entry, after := l.reg.ending[k], Next(l, step).reg.ending;
            && entry.task < |l.reg.tasks|
            && (l.reg.tasks[entry.task].phase == Running ==> k in after && after[k] == entry)
            && (k !in after <==> step == TaskCallsBack(entry.task))
            && (k in after && after[k] != entry ==> step.MintRetry? && step.key == k)
  {
    ReachableKeeps(l);
    var task := l.reg.tasks[l.reg.ending[k].task];
    assert task.key == k;
    match step
    case CallBegin => EndEachAdds(l.reg.(orphans := []), l.reg.orphans, k);
    case MintBegin(_, _, _) => EndEachAdds(l.reg.(orphans := []), l.reg.orphans, k);
    case _ =>
  }

  lemma {:induction false} EndEachAdds(r: Registry, todo: seq<Orphan>, k: KeyId)
    requires k in r.ending && NotQueued(todo, k)
    ensures k in EndEach(r, todo).ending && EndEach(r, todo).ending[k] == r.ending[k]
    decreases |todo|
  {
    if todo != [] {
      EndEachAdds(EndKey(r, todo[0].user, todo[0].key), todo[1..], k);
    }
  }

  /** At most one end of a key is unfinished, and none once one came out as Gone. */
  lemma OneEndAtATime(l: Loop, t: TaskId, u: TaskId)
    requires Reachable(l) && t < |l.reg.tasks| && u < |l.reg.tasks| && l.reg.tasks[t].key == l.reg.tasks[u].key
    ensures l.reg.tasks[t].phase == Running && l.reg.tasks[u].phase == Running ==> t == u
    ensures l.reg.tasks[t].key in l.confirmed ==> l.reg.tasks[t].phase != Running
  {
    ReachableKeeps(l);
  }

  lemma ReachableStep(l: Loop, step: Step)
    requires Reachable(l) && Enabled(l, step)
    ensures Reachable(Next(l, step))
  {
    var steps :| Legal(Init(), steps) && Run(Init(), steps) == l;
    RunStep(Init(), steps, step);
  }

  lemma {:induction false} RunStep(l: Loop, steps: seq<Step>, step: Step)
    requires Legal(l, steps) && Enabled(Run(l, steps), step)
    ensures Legal(l, steps + [step]) && Run(l, steps + [step]) == Next(Run(l, steps), step)
    decreases |steps|
  {
    if steps == [] {
      assert [step][1..] == [] && Legal(Next(l, step), []);
    } else {
      assert (steps + [step])[1..] == steps[1..] + [step];
      RunStep(Next(l, steps[0]), steps[1..], step);
    }
  }

  // One run in which an end's callback finds a retry of its key registered, and unfinished.
  lemma ARetryCanOvertakeACallback()
    ensures exists l: Loop ::
              && Reachable(l) && l.reg.tasks == [Task(5, 7, Returned), Task(5, 7, Running)]
              && l.reg.ending == map[7 := Entry(5, 1)] == CallBack(l.reg, 0).ending
  {
    hide Reachable;
    var failed := AnEndFails();
    ReachableStep(failed, MintBegin(2, 5, 0.0));
    var again := Next(failed, MintBegin(2, 5, 0.0));
    assert again.reg.live == map[7 := Live(5, 1.0, true)];
    ReachableStep(again, MintRetry(2, 7));
    var retried := Next(again, MintRetry(2, 7));
    assert retried.reg.tasks == [Task(5, 7, Returned), Task(5, 7, Running)];
    assert CallBack(retried.reg, 0).ending == retried.reg.ending;
  }

  lemma AnEndFails() returns (l: Loop)
    ensures Reachable(l) && l.mints == map[]
    ensures l.reg == Registry(map[7 := Live(5, 1.0, true)], map[7 := Entry(5, 0)], [], [Task(5, 7, Returned)])
  {
    hide Reachable;
    var live := AKeyIsRegistered();
    ReachableStep(live, SessionEnd(7));
    var ending := Next(live, SessionEnd(7));
    ReachableStep(ending, TaskReturns(0, Failed));
    l := Next(ending, TaskReturns(0, Failed));
  }

  lemma InitReachable()
    ensures Reachable(Init())
  {
    var none: seq<Step> := [];
    assert Legal(Init(), none) && Run(Init(), none) == Init();
  }

  lemma AKeyIsRegistered() returns (l: Loop)
    ensures Reachable(l) && l.reg == Registry(map[7 := Live(5, 1.0, false)], map[], [], [])
    ensures l.issued == map[7 := 5] && l.touched == {} && l.mints == map[]
  {
    hide Reachable;
    InitReachable();
    ReachableStep(Init(), MintBegin(1, 5, 0.0));
    var begun := Next(Init(), MintBegin(1, 5, 0.0));
    assert begun.reg.live == map[];
    ReachableStep(begun, MintPruned(1));
    var pruned := Next(begun, MintPruned(1));
    ReachableStep(pruned, MintLeaves(1));
    var asking := Next(pruned, MintLeaves(1));
    ReachableStep(asking, MintRegister(1, 7, 1.0));
    l := Next(asking, MintRegister(1, 7, 1.0));
  }
}
