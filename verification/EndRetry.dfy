/**
  What becomes, in `nodejs/src/client.ts`, of the keys no session will end any more:
  one whose end was refused, one whose session is garbage, one that has expired. Each
  is said over every run, from the step that leaves it so to the one that deals with it.
 */
module EndRetry {
  import opened KeyRegistry
  import K = KeyRegistrySafety
  import W = MintWait

  // ---- an end that was refused ---------------------------------------------

  // Live, and marked to be ended again.
  predicate Failing(r: Registry, k: KeyId, user: User, expiresAt: real) {
    && k in r.live && r.live[k].endFailed && !r.live[k].ending
    && r.live[k].user == user && r.live[k].expiresAt == expiresAt
  }

  // No end of the key is begun in the run.
  ghost predicate NoneBegun(c: Client, steps: seq<Step>, k: KeyId)
    requires Legal(c, steps)
    decreases |steps|
  {
    steps == [] ||
    var next := Next(c, steps[0]);
    Open(next.reg.sending, next.ends, k) == 0 && NoneBegun(next, steps[1..], k)
  }

  lemma EndAllMarks(r: Registry, keys: set<KeyId>, k: KeyId, user: User, expiresAt: real)
    requires Failing(r, k, user, expiresAt) && EndAll(r, keys).sending[k] == 0
    ensures Failing(EndAll(r, keys), k, user, expiresAt)
  {
  }

  lemma DroppedMarks(r: Registry, k: KeyId, user: User, expiresAt: real)
    requires Failing(r, k, user, expiresAt)
    ensures EndDropped(r).sending[k] == 0 ==> Failing(EndDropped(r), k, user, expiresAt)
    ensures Begin(r).sending[k] == 0 ==> Failing(Begin(r), k, user, expiresAt)
  {
    hide EndAll, DroppedKeys;
    if EndDropped(r).sending[k] == 0 {
      EndAllMarks(r.(dropped := []), DroppedKeys(r), k, user, expiresAt);
    }
    var counted := r.(inflight := r.inflight + 1);
    if Begin(r).sending[k] == 0 {
      EndAllMarks(counted.(dropped := []), DroppedKeys(counted), k, user, expiresAt);
    }
  }

  lemma PrepareMarks(r: Registry, other: User, now: real, k: KeyId, user: User, expiresAt: real)
    requires Failing(r, k, user, expiresAt) && now < expiresAt && Prepare(r, other, now).sending[k] == 0
    ensures Failing(Prepare(r, other, now), k, user, expiresAt)
  {
    hide EndAll, EndDropped, FailedKeys;
    var pruned := r.(inflight := r.inflight + 1, live := Unexpired(r.live, now));
    var ended := EndDropped(pruned);
    W.SendsMore(ended, FailedKeys(ended, other));
    DroppedMarks(pruned, k, user, expiresAt);
    EndAllMarks(ended, FailedKeys(ended, other), k, user, expiresAt);
  }

  lemma EndMarks(r: Registry, i: KeyId, k: KeyId, user: User, expiresAt: real)
    requires Failing(r, k, user, expiresAt) && !r.closed
    ensures SendEnd(r, i).sending[k] == 0 ==> Failing(SendEnd(r, i), k, user, expiresAt)
    ensures EndKey(r, i).sending[k] == 0 ==> Failing(EndKey(r, i), k, user, expiresAt)
  {
    hide EndDropped;
    W.EndsMore(r, i);
    DroppedMarks(Sent(r, i), k, user, expiresAt);
  }

  lemma OtherMarks(r: Registry, i: KeyId, key: LiveKey, gone: bool, k: KeyId, user: User, expiresAt: real)
    requires Failing(r, k, user, expiresAt) && i != k
    ensures Failing(Register(r, i, key), k, user, expiresAt) && Failing(Record(r, i, gone), k, user, expiresAt)
  {
  }

  lemma FinishMarks(r: Registry, k: KeyId, user: User, expiresAt: real)
    requires Failing(r, k, user, expiresAt)
    ensures Failing(Finish(r), k, user, expiresAt) && Finish(r).closed == r.closed
  {
  }

  // A refused end is recorded of a key that has none under way: of another one.
  lemma RecordMarks(c: Client, i: KeyId, gone: bool, k: KeyId, user: User, expiresAt: real)
    requires Failing(c.reg, k, user, expiresAt) && Enabled(c, EndRecord(i, gone))
    requires Open(c.reg.sending, c.ends, k) == 0
    ensures Failing(Next(c, EndRecord(i, gone)).reg, k, user, expiresAt)
  {
    hide Failing, Record, Recorded;
    assert i != k;
    OtherMarks(c.reg, i, LiveKey(0, 0.0, 0, false, false), gone, k, user, expiresAt);
  }

  lemma RegisterMarks(c: Client, job: JobId, at: real, k: KeyId, user: User, expiresAt: real)
    requires Inv(c) && Failing(c.reg, k, user, expiresAt) && Enabled(c, MintRegister(job, at))
    ensures Failing(Next(c, MintRegister(job, at)).reg, k, user, expiresAt)
  {
    hide Inv, Register, Finish;
    ArrivedApart(c, job);
    var a := c.jobs.arrived[job];
    OtherMarks(c.reg, a.key, LiveKey(a.user, at, a.owner, false, false), false, k, user, expiresAt);
  }

  lemma ArrivedApart(c: Client, job: JobId)
    requires Inv(c) && job in c.jobs.arrived
    ensures c.jobs.arrived[job].key !in c.reg.live
  {
    hide Weight, Distinct, Single, Marking, NoneAfterConfirmed, Logged, HeldUntouched, Issued, Gone, LeasesHeld,
         Kept, Closing;
  }

  lemma SentMarks(c: Client, step: Step, k: KeyId, user: User, expiresAt: real)
    requires Enabled(c, step) && Failing(c.reg, k, user, expiresAt) && !c.reg.closed
    requires step.MintBegin? || step.MintDiscard? || step.SessionEnd? || step.CallBegin? || step.MintAsk?
    requires Next(c, step).reg.sending[k] == 0 && Next(c, step).clock < expiresAt
    ensures Failing(Next(c, step).reg, k, user, expiresAt)
  {
    hide Failing, Begin, Prepare, SendEnd, EndKey, Finish, Minting, Leased, Unexpired, Ending, Recorded, Held;
    DroppedMarks(c.reg, k, user, expiresAt);
    FinishMarks(c.reg, k, user, expiresAt);
    match step
    case MintBegin(_, other, _, now) => PrepareMarks(c.reg, other, now, k, user, expiresAt);
    case MintDiscard(job) => EndMarks(c.reg, c.jobs.arrived[job].key, k, user, expiresAt);
    case SessionEnd(key) => EndMarks(c.reg, key, k, user, expiresAt);
    case _ =>
  }

  lemma QuietMarks(c: Client, step: Step, k: KeyId, user: User, expiresAt: real)
    requires Enabled(c, step) && Failing(c.reg, k, user, expiresAt) && !Next(c, step).reg.closed
    requires step.CallLease? || step.CallEnd? || step.MintFailed? || step.MintReply? || step.EndReply? || step.Drop?
             || step.Close? || step.Sweep?
    ensures Failing(Next(c, step).reg, k, user, expiresAt)
  {
    hide Minting, Leased, Unexpired, Held;
  }

  // What is marked stays marked until it is ended again or expires.
  lemma StepMarks(c: Client, step: Step, k: KeyId, user: User, expiresAt: real)
    requires Inv(c) && Enabled(c, step) && Failing(c.reg, k, user, expiresAt)
    requires var next := Next(c, step);
             Open(next.reg.sending, next.ends, k) == 0 && !next.reg.closed && next.clock < expiresAt
    requires Open(c.reg.sending, c.ends, k) == 0
    ensures Failing(Next(c, step).reg, k, user, expiresAt)
  {
    hide Inv, Enabled, Next, Failing;
    StepOnward(c, step);
    match step
    case MintRegister(job, at) => RegisterMarks(c, job, at, k, user, expiresAt);
    case EndRecord(i, gone) => RecordMarks(c, i, gone, k, user, expiresAt);
    case MintBegin(_, _, _, _) => SentMarks(c, step, k, user, expiresAt);
    case MintDiscard(_) => SentMarks(c, step, k, user, expiresAt);
    case SessionEnd(_) => SentMarks(c, step, k, user, expiresAt);
    case CallBegin(_) => SentMarks(c, step, k, user, expiresAt);
    case MintAsk(_) => SentMarks(c, step, k, user, expiresAt);
    case _ => QuietMarks(c, step, k, user, expiresAt);
  }

  lemma StepOnward(c: Client, step: Step)
    requires Enabled(c, step)
    ensures c.clock <= Next(c, step).clock && (c.reg.closed ==> Next(c, step).reg.closed)
  {
    hide Begin, Prepare, SendEnd, EndKey, Register, Record, Finish, Minting, Leased, Unexpired, Ending, Recorded;
    K.StepLog(c, step);
  }

  lemma {:induction false} RunOnward(c: Client, steps: seq<Step>)
    requires Legal(c, steps)
    ensures c.clock <= Run(c, steps).clock && (c.reg.closed ==> Run(c, steps).reg.closed)
    decreases |steps|
  {
    hide Enabled, Next;
    if steps != [] {
      StepOnward(c, steps[0]);
      RunOnward(Next(c, steps[0]), steps[1..]);
    }
  }

  lemma {:induction false} RunMarks(c: Client, steps: seq<Step>, k: KeyId, user: User, expiresAt: real)
    requires Inv(c) && Legal(c, steps) && NoneBegun(c, steps, k)
    requires Failing(c.reg, k, user, expiresAt) && Open(c.reg.sending, c.ends, k) == 0
    requires !Run(c, steps).reg.closed && Run(c, steps).clock < expiresAt
    ensures var d := Run(c, steps);
            Inv(d) && Failing(d.reg, k, user, expiresAt) && Open(d.reg.sending, d.ends, k) == 0
    decreases |steps|
  {
    hide Inv, Enabled, Next, Failing, Open;
    if steps != [] {
      K.StepKeeps(c, steps[0]);
      RunOnward(Next(c, steps[0]), steps[1..]);
      StepMarks(c, steps[0], k, user, expiresAt);
      RunMarks(Next(c, steps[0]), steps[1..], k, user, expiresAt);
    }
  }

  lemma FailedSends(r: Registry, user: User, k: KeyId, expiresAt: real)
    requires !r.closed && k in r.live && r.live[k].user == user
    requires r.sending[k] == 0 ==> Failing(r, k, user, expiresAt)
    ensures var s := EndAll(r, FailedKeys(r, user)); s.sending[k] > 0 && k in s.live && s.live[k].user == user
  {
    if r.sending[k] == 0 {
      assert k in FailedKeys(r, user);
    }
  }

  // A mint of the user sends what is marked one end.
  lemma PrepareEnds(r: Registry, user: User, now: real, k: KeyId, expiresAt: real)
    requires !r.closed && Failing(r, k, user, expiresAt) && now < expiresAt
    ensures Prepare(r, user, now).sending[k] > 0
    ensures k in Prepare(r, user, now).live && Prepare(r, user, now).live[k].user == user
  {
    hide EndDropped, EndAll, FailedKeys;
    var pruned := r.(inflight := r.inflight + 1, live := Unexpired(r.live, now));
    DroppedMarks(pruned, k, user, expiresAt);
    DroppedKeeps(pruned, k);
    FailedSends(EndDropped(pruned), user, k, expiresAt);
  }

  lemma DroppedKeeps(r: Registry, k: KeyId)
    requires k in r.live
    ensures k in EndDropped(r).live && EndDropped(r).live[k].user == r.live[k].user && EndDropped(r).closed == r.closed
  {
  }

  // Recording a refused end of a live key leaves it marked, and none under way.
  lemma RefusalMarks(c: Client, k: KeyId)
    requires Inv(c) && Enabled(c, EndRecord(k, false)) && k in c.reg.live
    ensures var d := Next(c, EndRecord(k, false));
            Failing(d.reg, k, c.reg.live[k].user, c.reg.live[k].expiresAt) && Open(d.reg.sending, d.ends, k) == 0
  {
    hide Weight, Distinct, Marking, NoneAfterConfirmed, Logged, HeldUntouched, Known, Issued, Gone, LeasesHeld,
         Arriving, Kept, Closing, Minting, Leased, Recorded;
    assert Open(c.reg.sending, c.ends, k) <= 1;
  }

  /**
    A key whose end was refused is ended again: once the refusal is recorded, and as
    long as nothing else has begun to end it, a mint for its user, begun on the open
    client before the key expires, sends it one end, and waits for that before it asks.
   */
  lemma RefusedEndIsRetried(c: Client, k: KeyId, steps: seq<Step>, job: JobId, owner: Owner, now: real)
    requires K.Reachable(c) && Enabled(c, EndRecord(k, false)) && k in c.reg.live && now < c.reg.live[k].expiresAt
    requires var d := Next(c, EndRecord(k, false)); Legal(d, steps) && NoneBegun(d, steps, k)
    requires Enabled(Run(Next(c, EndRecord(k, false)), steps), MintBegin(job, c.reg.live[k].user, owner, now))
    ensures var e := Run(Next(c, EndRecord(k, false)), steps);
            var f := Next(e, MintBegin(job, c.reg.live[k].user, owner, now));
            && e.reg.sending[k] == 0 && f.reg.sending[k] == 1
            && job in f.awaited && k in f.awaited[job] && !Enabled(f, MintAsk(job))
  {
    hide Inv, K.Reachable, Legal, Run, Failing, NoneBegun, Prepare, Minting, Leased, Unexpired;
    K.ReachableKeeps(c);
    RefusalMarks(c, k);
    var user, expiresAt, d := c.reg.live[k].user, c.reg.live[k].expiresAt, Next(c, EndRecord(k, false));
    K.StepKeeps(c, EndRecord(k, false));
    RunMarks(d, steps, k, user, expiresAt);
    var e := Run(d, steps);
    PrepareEnds(e.reg, user, now, k, expiresAt);
    K.StepKeeps(e, MintBegin(job, user, owner, now));
    OneUnderWay(Next(e, MintBegin(job, user, owner, now)), user, k);
  }

  lemma OneUnderWay(c: Client, user: User, k: KeyId)
    requires Inv(c) && c.reg.sending[k] > 0 && k in c.reg.live && c.reg.live[k].user == user
    ensures c.reg.sending[k] == 1 && k in Ending(c.reg, user)
  {
    hide Inv;
    W.AtMostOne(c, k);
    W.EndingIsOpen(c, user, k);
  }

  // ---- a session that is garbage -------------------------------------------

  // The owner's keys are still to be ended, or were all sent an end.
  ghost predicate DroppedOrSent(r: Registry, owner: Owner) {
    owner in r.dropped || forall k :: k in r.live && r.live[k].owner == owner ==> k in r.sent
  }

  // Nothing more is registered for an owner that is collected.
  ghost predicate Over(c: Client, owner: Owner) {
    owner in c.keys.collected && !Minting(c.jobs, owner)
  }

  lemma StaysOver(c: Client, step: Step, owner: Owner)
    requires Enabled(c, step) && Over(c, owner)
    ensures Over(Next(c, step), owner)
  {
    hide Begin, Prepare, Register, Record, SendEnd, EndKey, Shut, Finish, Unexpired, Ending, Recorded, Held, Leased;
  }

  // Emptying the queue sends each live key of an owner in it an end, if one is not under way.
  lemma DroppedSends(r: Registry, owner: Owner)
    requires !r.closed && (forall k :: k in r.live && r.live[k].ending ==> k in r.sent) && DroppedOrSent(r, owner)
    ensures DroppedOrSent(EndDropped(r), owner) && DroppedOrSent(Begin(r), owner)
    ensures forall k :: k in EndDropped(r).live && EndDropped(r).live[k].ending ==> k in EndDropped(r).sent
    ensures forall k :: k in Begin(r).live && Begin(r).live[k].owner == owner ==> k in Begin(r).sent
    ensures !EndDropped(r).closed
  {
  }

  lemma PreparedSends(r: Registry, user: User, now: real, owner: Owner)
    requires !r.closed && (forall k :: k in r.live && r.live[k].ending ==> k in r.sent) && DroppedOrSent(r, owner)
    ensures DroppedOrSent(Prepare(r, user, now), owner)
  {
    hide EndDropped, DroppedKeys;
    var pruned := r.(inflight := r.inflight + 1, live := Unexpired(r.live, now));
    DroppedSends(pruned, owner);
    AllSends(EndDropped(pruned), FailedKeys(EndDropped(pruned), user), owner);
  }

  lemma AllSends(r: Registry, keys: set<KeyId>, owner: Owner)
    requires DroppedOrSent(r, owner)
    ensures DroppedOrSent(EndAll(r, keys), owner)
  {
  }

  lemma EndSends(r: Registry, k: KeyId, owner: Owner)
    requires !r.closed && (forall i :: i in r.live && r.live[i].ending ==> i in r.sent) && DroppedOrSent(r, owner)
    ensures DroppedOrSent(SendEnd(r, k), owner) && DroppedOrSent(EndKey(r, k), owner)
  {
    hide EndDropped;
    DroppedSends(Sent(r, k), owner);
    MarkedOwners(SendEnd(r, k).live, {k});
  }

  lemma MarkedOwners(live: map<KeyId, LiveKey>, keys: set<KeyId>)
    ensures forall k :: k in Marked(live, keys) ==> k in live && Marked(live, keys)[k].owner == live[k].owner
  {
  }

  lemma EndingLogged(c: Client)
    requires Inv(c)
    ensures forall k :: k in c.reg.live && c.reg.live[k].ending ==> k in c.reg.sent
  {
    hide Weight, Distinct, Single, NoneAfterConfirmed, HeldUntouched, Known, Issued, Gone, LeasesHeld, Arriving,
         Kept, Closing;
    forall k | k in c.reg.live && c.reg.live[k].ending ensures k in c.reg.sent {
      assert Open(c.reg.sending, c.ends, k) == 1;
    }
  }

  // Of an owner nothing is minted for, no key is registered.
  lemma QuietDrops(c: Client, step: Step, owner: Owner)
    requires Enabled(c, step) && Over(c, owner) && DroppedOrSent(c.reg, owner)
    requires !step.CallBegin? && !step.MintBegin? && !step.MintAsk? && !step.MintDiscard? && !step.SessionEnd?
    ensures DroppedOrSent(Next(c, step).reg, owner)
  {
    hide Leased, Unexpired, Recorded, Held;
  }

  lemma SentDrops(c: Client, step: Step, owner: Owner)
    requires Inv(c) && Enabled(c, step) && !c.reg.closed && DroppedOrSent(c.reg, owner)
    requires step.CallBegin? || step.MintBegin? || step.MintAsk? || step.MintDiscard? || step.SessionEnd?
    ensures DroppedOrSent(Next(c, step).reg, owner)
  {
    hide Inv, Begin, Prepare, SendEnd, EndKey, Minting, Leased, Ending, Held;
    EndingLogged(c);
    DroppedSends(c.reg, owner);
    match step
    case MintBegin(_, user, _, now) => PreparedSends(c.reg, user, now, owner);
    case MintDiscard(job) => EndSends(c.reg, c.jobs.arrived[job].key, owner);
    case SessionEnd(key) => EndSends(c.reg, key, owner);
    case _ =>
  }

  lemma StepDrops(c: Client, step: Step, owner: Owner)
    requires Inv(c) && Enabled(c, step) && !c.reg.closed && Over(c, owner) && DroppedOrSent(c.reg, owner)
    ensures DroppedOrSent(Next(c, step).reg, owner)
  {
    hide Inv, Enabled, Next, Over, DroppedOrSent;
    match step
    case CallBegin(_) => SentDrops(c, step, owner);
    case MintBegin(_, _, _, _) => SentDrops(c, step, owner);
    case MintAsk(_) => SentDrops(c, step, owner);
    case MintDiscard(_) => SentDrops(c, step, owner);
    case SessionEnd(_) => SentDrops(c, step, owner);
    case _ => QuietDrops(c, step, owner);
  }

  lemma {:induction false} RunDrops(c: Client, steps: seq<Step>, owner: Owner)
    requires Inv(c) && Legal(c, steps) && !Run(c, steps).reg.closed && Over(c, owner) && DroppedOrSent(c.reg, owner)
    ensures var d := Run(c, steps); Inv(d) && Over(d, owner) && DroppedOrSent(d.reg, owner)
    decreases |steps|
  {
    hide Inv, Enabled, Next, Over, DroppedOrSent;
    RunOnward(c, steps);
    if steps != [] {
      K.StepKeeps(c, steps[0]);
      StaysOver(c, steps[0], owner);
      StepDrops(c, steps[0], owner);
      RunDrops(Next(c, steps[0]), steps[1..], owner);
    }
  }

  /**
    The keys of a session that is garbage are ended by the next call, whatever happens
    in between: as a call begins on the open client after the session was collected,
    every key of it that is still live has been sent an end.
   */
  lemma DroppedKeysAreEnded(c: Client, owner: Owner, steps: seq<Step>, job: JobId, k: KeyId)
    requires K.Reachable(c) && !c.reg.closed && Enabled(c, Drop(owner)) && Legal(Next(c, Drop(owner)), steps)
    requires Enabled(Run(Next(c, Drop(owner)), steps), CallBegin(job))
    ensures var f := Next(Run(Next(c, Drop(owner)), steps), CallBegin(job));
            k in f.reg.live && f.reg.live[k].owner == owner ==> k in f.reg.sent
  {
    hide Inv, K.Reachable, Legal, Run, Begin, Minting, Leased, DroppedOrSent;
    K.ReachableKeeps(c);
    K.StepKeeps(c, Drop(owner));
    JustDropped(c, owner);
    RunDrops(Next(c, Drop(owner)), steps, owner);
    var e := Run(Next(c, Drop(owner)), steps);
    EndingLogged(e);
    DroppedSends(e.reg, owner);
  }

  lemma JustDropped(c: Client, owner: Owner)
    requires Enabled(c, Drop(owner)) && !c.reg.closed
    ensures var d := Next(c, Drop(owner)); Over(d, owner) && DroppedOrSent(d.reg, owner) && !d.reg.closed
  {
    hide Leased;
  }

  // ---- a key that has expired ----------------------------------------------

  lemma MarkedTimes(live: map<KeyId, LiveKey>, keys: set<KeyId>)
    ensures Marked(live, keys).Keys == live.Keys
    ensures forall k :: k in live ==>
              Marked(live, keys)[k].expiresAt == live[k].expiresAt && Marked(live, keys)[k].user == live[k].user
  {
  }

  /**
    A mint forgets exactly the keys that have expired as it begins, and changes neither
    user nor expiry of the others.
   */
  lemma MintForgetsTheExpired(c: Client, job: JobId, user: User, owner: Owner, now: real, k: KeyId)
    requires Enabled(c, MintBegin(job, user, owner, now))
    ensures var live := Next(c, MintBegin(job, user, owner, now)).reg.live;
            && (k in live <==> k in c.reg.live && now < c.reg.live[k].expiresAt)
            && (k in live ==> live[k].user == c.reg.live[k].user && live[k].expiresAt == c.reg.live[k].expiresAt)
  {
    hide DroppedKeys, FailedKeys, Marked, Minting, Leased, Ending;
    var unexpired := c.reg.(inflight := c.reg.inflight + 1, live := Unexpired(c.reg.live, now));
    MarkedTimes(unexpired.live, DroppedKeys(unexpired));
    var ended := EndDropped(unexpired);
    MarkedTimes(ended.live, FailedKeys(ended, user));
  }

  // ---- whose key it is -----------------------------------------------------

  // Wherever the mint is, it is this user's, for this owner.
  ghost predicate MintFor(jobs: Jobs, job: JobId, user: User, owner: Owner) {
    && (job in jobs.waiting ==> jobs.waiting[job].user == user && jobs.waiting[job].owner == owner)
    && (job in jobs.asking ==> jobs.asking[job].user == user && jobs.asking[job].owner == owner)
    && (job in jobs.arrived ==> jobs.arrived[job].user == user && jobs.arrived[job].owner == owner)
  }

  lemma StepMints(c: Client, step: Step, job: JobId, user: User, owner: Owner)
    requires Enabled(c, step) && MintFor(c.jobs, job, user, owner) && !(step.MintBegin? && step.job == job)
    ensures MintFor(Next(c, step).jobs, job, user, owner)
  {
    hide Begin, Prepare, Register, Record, SendEnd, EndKey, Shut, Finish, Unexpired, Ending, Recorded, Held,
         Leased, Minting;
  }

  lemma {:induction false} RunMints(c: Client, steps: seq<Step>, job: JobId, user: User, owner: Owner)
    requires Legal(c, steps) && MintFor(c.jobs, job, user, owner)
    requires forall i :: 0 <= i < |steps| ==> !(steps[i].MintBegin? && steps[i].job == job)
    ensures MintFor(Run(c, steps).jobs, job, user, owner)
    decreases |steps|
  {
    hide Enabled, Next, MintFor;
    if steps != [] {
      StepMints(c, steps[0], job, user, owner);
      RunMints(Next(c, steps[0]), steps[1..], job, user, owner);
    }
  }

  /**
    The key a mint registers is live for the user and the session the mint was begun
    for, until it expires, and nobody ends it yet.
   */
  lemma MintKeepsItsUser(
      c: Client, job: JobId, user: User, owner: Owner, now: real, steps: seq<Step>, expiresAt: real)
    requires K.Reachable(c) && Enabled(c, MintBegin(job, user, owner, now))
    requires Legal(Next(c, MintBegin(job, user, owner, now)), steps)
    requires forall i :: 0 <= i < |steps| ==> !(steps[i].MintBegin? && steps[i].job == job)
    requires Enabled(Run(Next(c, MintBegin(job, user, owner, now)), steps), MintRegister(job, expiresAt))
    ensures var e := Run(Next(c, MintBegin(job, user, owner, now)), steps);
            var k, f := e.jobs.arrived[job].key, Next(e, MintRegister(job, expiresAt));
            && k in f.reg.live && f.reg.live[k].user == user && f.reg.live[k].owner == owner
            && f.reg.live[k].expiresAt == expiresAt && !f.reg.live[k].ending && !f.reg.live[k].endFailed
            && forall i :: i in e.reg.live ==> i != k && i in f.reg.live && f.reg.live[i] == e.reg.live[i]
  {
    hide Inv, K.Reachable, Legal, Run, Prepare, Minting, Leased, Ending;
    K.ReachableKeeps(c);
    var d := Next(c, MintBegin(job, user, owner, now));
    K.StepKeeps(c, MintBegin(job, user, owner, now));
    RunMints(d, steps, job, user, owner);
    K.RunKeeps(d, steps);
    ArrivedApart(Run(d, steps), job);
  }
}
