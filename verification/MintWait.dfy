/**
  What `mintKey` of `nodejs/src/client.ts` waits for before it asks for a key: the
  ends of its user's keys that it finds under way as it begins. Those are all
  recorded by the time it asks; ones begun meanwhile need not be.
 */
module MintWait {
  import opened KeyRegistry
  import K = KeyRegistrySafety

  // ---- ends under way, step by step ----------------------------------------

  lemma SendsMore(r: Registry, keys: set<KeyId>)
    ensures r.sending <= EndAll(r, keys).sending && r.sending <= EndDropped(r).sending
    ensures r.sending <= Begin(r).sending
  {
  }

  lemma PreparesMore(r: Registry, user: User, now: real)
    ensures r.sending <= Prepare(r, user, now).sending
  {
    hide EndDropped, EndAll, FailedKeys;
    var pruned := r.(inflight := r.inflight + 1, live := Unexpired(r.live, now));
    SendsMore(pruned, {});
    SendsMore(EndDropped(pruned), FailedKeys(EndDropped(pruned), user));
  }

  lemma EndsMore(r: Registry, k: KeyId)
    ensures r.sending <= SendEnd(r, k).sending && r.sending <= EndKey(r, k).sending
    ensures !r.closed ==> SendEnd(r, k).sending[k] > 0
  {
    hide EndDropped;
    SendsMore(Sent(r, k), {});
  }

  // An end is under way until it is recorded.
  lemma OpenUntilRecorded(c: Client, step: Step, k: KeyId)
    requires Enabled(c, step)
    ensures Open(Next(c, step).reg.sending, Next(c, step).ends, k) >=
            Open(c.reg.sending, c.ends, k) - (if Records(step, k) then 1 else 0)
    ensures Records(step, k) ==>
              Open(Next(c, step).reg.sending, Next(c, step).ends, k) == Open(c.reg.sending, c.ends, k) - 1
  {
    hide Begin, Prepare, SendEnd, EndKey, Register, Record, Finish, Shut, Minting, Leased, Held, Ending, Recorded,
         Unexpired;
    match step
    case EndReply(key, gone) => K.ReplyMoves(c, key, gone, k);
    case EndRecord(key, gone) => K.RecordMoves(c, key, gone, k);
    case _ => NothingRecorded(c, step, k);
  }

  lemma NothingRecorded(c: Client, step: Step, k: KeyId)
    requires Enabled(c, step) && !step.EndReply? && !step.EndRecord?
    ensures Next(c, step).ends == c.ends && c.reg.sending <= Next(c, step).reg.sending
  {
    hide Record, Begin, Prepare, SendEnd, EndKey, Register, Finish, Shut, Minting, Leased, Held, Ending, Unexpired;
    SendsMore(c.reg, {});
    K.CountsOnly(c.reg);
    match step
    case MintBegin(_, user, _, now) => PreparesMore(c.reg, user, now);
    case MintDiscard(job) => EndsMore(c.reg, c.jobs.arrived[job].key);
    case SessionEnd(key) => EndsMore(c.reg, key);
    case MintFailed(_) => K.CountsOnly(Finish(c.reg));
    case MintRegister(job, expiresAt) =>
      K.RegisterOnly(c.reg, c.jobs.arrived[job].key,
                     LiveKey(c.jobs.arrived[job].user, expiresAt, c.jobs.arrived[job].owner, false, false));
    case _ =>
  }

  predicate Records(step: Step, k: KeyId) {
    step.EndRecord? && step.key == k
  }

  // ---- what waiting mints await --------------------------------------------

  // The mints that wait are those that await something or nothing, and what they await is under way.
  ghost predicate Awaiting(c: Client) {
    && c.awaited.Keys == c.jobs.waiting.Keys
    && forall job, k :: job in c.awaited && k in c.awaited[job] ==> Open(c.reg.sending, c.ends, k) == 1
  }

  lemma AwaitedMoves(c: Client, step: Step)
    requires Enabled(c, step) && c.awaited.Keys == c.jobs.waiting.Keys
    ensures var d := Next(c, step);
            && d.awaited.Keys == d.jobs.waiting.Keys
            && (forall job :: job in d.awaited ==>
                  if step.MintBegin? && step.job == job then d.awaited[job] == Ending(d.reg, step.user)
                  else if step.MintDiscard? && step.job == job && !c.reg.closed then
                    d.awaited[job] == {c.jobs.arrived[job].key}
                  else job in c.awaited && d.awaited[job] <= c.awaited[job])
            && (step.EndRecord? ==> forall job :: job in d.awaited ==> step.key !in d.awaited[job])
  {
    hide Begin, Prepare, SendEnd, EndKey, Register, Record, Finish, Shut, Minting, Leased, Held, Ending, Unexpired;
  }

  lemma StepAwaits(c: Client, step: Step)
    requires Inv(c) && Awaiting(c) && Enabled(c, step)
    ensures Awaiting(Next(c, step))
  {
    var d := Next(c, step);
    K.StepKeeps(c, step);
    AwaitedMoves(c, step);
    forall job, k | job in d.awaited && k in d.awaited[job] ensures Open(d.reg.sending, d.ends, k) == 1 {
      OpenIsOne(c, step, job, k);
    }
  }

  lemma OpenIsOne(c: Client, step: Step, job: JobId, k: KeyId)
    requires Inv(c) && Awaiting(c) && Enabled(c, step) && Inv(Next(c, step))
    requires job in Next(c, step).awaited && k in Next(c, step).awaited[job]
    ensures Open(Next(c, step).reg.sending, Next(c, step).ends, k) == 1
  {
    hide Weight, Distinct, NoneAfterConfirmed, Logged, HeldUntouched, Known, Issued, Gone, LeasesHeld, Arriving, Kept,
         Closing, Next, Enabled;
    var d := Next(c, step);
    AwaitedMoves(c, step);
    OpenUntilRecorded(c, step, k);
    assert Open(d.reg.sending, d.ends, k) <= 1;
    if step.MintDiscard? && step.job == job && !c.reg.closed {
      DiscardSends(c, job);
    }
  }

  lemma DiscardSends(c: Client, job: JobId)
    requires Enabled(c, MintDiscard(job)) && !c.reg.closed
    ensures Next(c, MintDiscard(job)).reg.sending[c.jobs.arrived[job].key] > 0
  {
    hide SendEnd, Finish;
    EndsMore(c.reg, c.jobs.arrived[job].key);
  }

  lemma {:induction false} RunAwaits(c: Client, steps: seq<Step>)
    requires Inv(c) && Awaiting(c) && Legal(c, steps)
    ensures Inv(Run(c, steps)) && Awaiting(Run(c, steps))
    decreases |steps|
  {
    hide Inv, Awaiting, Enabled, Next;
    if steps != [] {
      K.StepKeeps(c, steps[0]);
      StepAwaits(c, steps[0]);
      RunAwaits(Next(c, steps[0]), steps[1..]);
    }
  }

  lemma ReachableAwaits(c: Client)
    requires K.Reachable(c)
    ensures Inv(c) && Awaiting(c)
  {
    hide Legal, Run;
    var steps :| Legal(Init(), steps) && Run(Init(), steps) == c;
    assert Inv(Init()) && Awaiting(Init());
    RunAwaits(Init(), steps);
  }

  /** A mint is not left waiting: what it awaits is under way, and it can ask once that is recorded. */
  lemma AwaitsOnlyWhatIsUnderWay(c: Client, job: JobId)
    requires K.Reachable(c) && job in c.jobs.waiting
    ensures job in c.awaited && forall k :: k in c.awaited[job] ==> Open(c.reg.sending, c.ends, k) == 1
    ensures !Enabled(c, MintAsk(job)) ==> exists k :: k in c.awaited[job] && Open(c.reg.sending, c.ends, k) == 1
  {
    hide Inv, K.Reachable, Open, Minting, Leased, Held;
    ReachableAwaits(c);
    assert job in c.jobs.waiting.Keys;
    if !Enabled(c, MintAsk(job)) {
      var k := Member(c.awaited[job]);
    }
  }

  // ---- those it found ------------------------------------------------------

  lemma StillAwaited(c: Client, step: Step, job: JobId, k: KeyId)
    requires Inv(c) && Awaiting(c) && Enabled(c, step)
    requires job in c.awaited && k in c.awaited[job] && !Records(step, k)
    ensures var d := Next(c, step); job in d.awaited && k in d.awaited[job]
  {
    hide Weight, Single, Marking, NoneAfterConfirmed, Logged, HeldUntouched, Known, Issued, Gone, LeasesHeld, Arriving,
         Kept, Closing, Begin, Prepare, SendEnd, EndKey, Register, Record, Finish, Shut, Minting, Leased, Held, Ending,
         Unexpired;
    assert job in c.jobs.waiting.Keys;
  }

  lemma {:induction false} AwaitedUntilRecorded(c: Client, steps: seq<Step>, job: JobId, k: KeyId)
    requires Inv(c) && Awaiting(c) && Legal(c, steps) && job in c.awaited && k in c.awaited[job]
    requires NoneRecorded(steps, k)
    ensures var d := Run(c, steps); job in d.awaited && k in d.awaited[job]
    decreases |steps|
  {
    hide Inv, Awaiting, Enabled, Next;
    if steps != [] {
      assert !Records(steps[0], k);
      StillAwaited(c, steps[0], job, k);
      K.StepKeeps(c, steps[0]);
      StepAwaits(c, steps[0]);
      AwaitedUntilRecorded(Next(c, steps[0]), steps[1..], job, k);
    }
  }

  predicate NoneRecorded(steps: seq<Step>, k: KeyId) {
    forall n :: 0 <= n < |steps| ==> !Records(steps[n], k)
  }

  /** A mint asks only after every end of its user's keys that it found under way was recorded. */
  lemma MintWaitsForThoseItFound(
      c: Client, job: JobId, user: User, owner: Owner, now: real, steps: seq<Step>, k: KeyId)
    requires K.Reachable(c) && Enabled(c, MintBegin(job, user, owner, now))
    requires var d := Next(c, MintBegin(job, user, owner, now));
             && Legal(d, steps) && Enabled(Run(d, steps), MintAsk(job)) && k in Ending(d.reg, user)
    ensures exists n :: 0 <= n < |steps| && Records(steps[n], k)
  {
    hide Inv, Legal, Run, Ending, Prepare, Minting, Leased, Held, K.Reachable, Records, Unexpired;
    ReachableAwaits(c);
    var d := Next(c, MintBegin(job, user, owner, now));
    K.StepKeeps(c, MintBegin(job, user, owner, now));
    StepAwaits(c, MintBegin(job, user, owner, now));
    if NoneRecorded(steps, k) {
      AwaitedUntilRecorded(d, steps, job, k);
    }
  }

  // ---- those it misses -----------------------------------------------------

  // An end of the key is begun in the run, and is not recorded in it.
  ghost predicate BegunIn(c: Client, steps: seq<Step>, k: KeyId)
    requires Legal(c, steps)
    decreases |steps|
  {
    steps != [] &&
    var next := Next(c, steps[0]);
    || (Open(c.reg.sending, c.ends, k) == 0 && Open(next.reg.sending, next.ends, k) == 1 && NoneRecorded(steps[1..], k))
    || BegunIn(next, steps[1..], k)
  }

  // What is under way at the end of a run was under way all along, or begun in it.
  lemma {:induction false} UnderWayExactly(c: Client, steps: seq<Step>, k: KeyId)
    requires Inv(c) && Legal(c, steps)
    ensures var d := Run(c, steps);
            Open(d.reg.sending, d.ends, k) == 1 <==>
            (Open(c.reg.sending, c.ends, k) == 1 && NoneRecorded(steps, k)) || BegunIn(c, steps, k)
    decreases |steps|
  {
    hide Inv, Enabled, Next, Open, Records;
    if steps != [] {
      var next := Next(c, steps[0]);
      K.StepKeeps(c, steps[0]);
      AtMostOne(c, k);
      AtMostOne(next, k);
      OpenUntilRecorded(c, steps[0], k);
      UnderWayExactly(next, steps[1..], k);
      NoneRecordedFrom(steps, k);
    }
  }

  lemma AtMostOne(c: Client, k: KeyId)
    requires Inv(c)
    ensures Open(c.reg.sending, c.ends, k) <= 1
  {
  }

  lemma NoneRecordedFrom(steps: seq<Step>, k: KeyId)
    requires steps != []
    ensures NoneRecorded(steps, k) <==> !Records(steps[0], k) && NoneRecorded(steps[1..], k)
  {
    hide Records;
    if NoneRecorded(steps[1..], k) && !Records(steps[0], k) {
      forall n | 0 <= n < |steps| ensures !Records(steps[n], k) {
        assert n > 0 ==> steps[n] == steps[1..][n - 1];
      }
    }
  }

  // A key that was sent an end is registered no more, and keeps its user while it is live.
  lemma LiveBefore(c: Client, step: Step, k: KeyId)
    requires Inv(c) && Enabled(c, step) && k in c.reg.sent && k in Next(c, step).reg.live
    ensures k in c.reg.live && c.reg.live[k].user == Next(c, step).reg.live[k].user
  {
    hide Weight, Distinct, Single, Marking, NoneAfterConfirmed, Logged, HeldUntouched, Known, Issued, Gone, LeasesHeld,
         Kept, Closing, Minting, Leased, Held, Ending, Recorded, Unexpired, Begin, Prepare, SendEnd, EndKey, Record;
    EndsLive(c.reg);
    match step
    case MintBegin(_, user, _, now) => PreparesLive(c.reg, user, now);
    case MintDiscard(job) => SendsLive(c.reg, c.jobs.arrived[job].key);
    case SessionEnd(key) => SendsLive(c.reg, key);
    case EndRecord(key, gone) => RecordsLive(c.reg, key, gone);
    case _ =>
  }

  // Of the keys live after, all were live before, for the same users.
  predicate Within(after: map<KeyId, LiveKey>, before: map<KeyId, LiveKey>) {
    forall k :: k in after ==> k in before && after[k].user == before[k].user
  }

  lemma EndsLive(r: Registry)
    ensures Within(EndDropped(r).live, r.live) && Within(Begin(r).live, r.live)
  {
  }

  lemma PreparesLive(r: Registry, user: User, now: real)
    ensures Within(Prepare(r, user, now).live, r.live)
  {
    hide EndDropped, FailedKeys;
    EndsLive(r.(inflight := r.inflight + 1, live := Unexpired(r.live, now)));
  }

  lemma SendsLive(r: Registry, k: KeyId)
    ensures Within(SendEnd(r, k).live, r.live) && Within(EndKey(r, k).live, r.live)
  {
    hide EndDropped;
    EndsLive(Sent(r, k));
  }

  lemma RecordsLive(r: Registry, k: KeyId, gone: bool)
    ensures Within(Record(r, k, gone).live, r.live)
  {
  }

  lemma {:induction false} LiveAllAlong(c: Client, steps: seq<Step>, k: KeyId)
    requires Inv(c) && Legal(c, steps) && k in c.reg.sent && k in Run(c, steps).reg.live
    ensures k in c.reg.live && c.reg.live[k].user == Run(c, steps).reg.live[k].user
    decreases |steps|
  {
    hide Inv, Enabled, Next;
    if steps != [] {
      K.StepKeeps(c, steps[0]);
      K.StepLog(c, steps[0]);
      LiveAllAlong(Next(c, steps[0]), steps[1..], k);
      LiveBefore(c, steps[0], k);
    }
  }

  lemma EndingIsOpen(c: Client, user: User, k: KeyId)
    requires Inv(c)
    ensures k in Ending(c.reg, user) <==>
            k in c.reg.live && c.reg.live[k].user == user && Open(c.reg.sending, c.ends, k) == 1
    ensures Open(c.reg.sending, c.ends, k) == 1 ==> k in c.reg.sent
  {
    hide Weight, Distinct, Single, NoneAfterConfirmed, HeldUntouched, Known, Issued, Gone, LeasesHeld, Kept, Closing,
         Arriving;
  }

  /**
    What is still being ended of a user's keys as a mint for the user can ask is
    exactly what began to be ended since the mint did: the service, which counts
    the keys not yet ended, may find one that is no longer in use.
   */
  lemma MissesThoseBegunSince(
      c: Client, job: JobId, user: User, owner: Owner, now: real, steps: seq<Step>, k: KeyId)
    requires K.Reachable(c) && Enabled(c, MintBegin(job, user, owner, now))
    requires var d := Next(c, MintBegin(job, user, owner, now)); Legal(d, steps) && Enabled(Run(d, steps), MintAsk(job))
    ensures var d := Next(c, MintBegin(job, user, owner, now));
            var asks := Run(d, steps);
            k in Ending(asks.reg, user) <==>
            k in asks.reg.live && asks.reg.live[k].user == user && BegunIn(d, steps, k)
  {
    hide Inv, Enabled, Next, Run, Legal, Ending, BegunIn, Open, K.Reachable, Records;
    ReachableAwaits(c);
    var d := Next(c, MintBegin(job, user, owner, now));
    K.StepKeeps(c, MintBegin(job, user, owner, now));
    K.RunKeeps(d, steps);
    UnderWayExactly(d, steps, k);
    EndingIsOpen(Run(d, steps), user, k);
    EndingIsOpen(d, user, k);
    if k in Ending(Run(d, steps).reg, user) && Open(d.reg.sending, d.ends, k) == 1 && NoneRecorded(steps, k) {
      LiveAllAlong(d, steps, k);
      MintWaitsForThoseItFound(c, job, user, owner, now, steps, k);
    }
  }

  /**
    There is such a run: a session ends its key while a mint for the same user
    waits for nothing, and the mint asks beside it.
   */
  lemma AMintAsksBesideAnEnd()
    ensures exists c, job :: K.Reachable(c) && Enabled(c, MintAsk(job)) && !c.reg.closed
                             && !c.jobs.waiting[job].discarding && 7 in Ending(c.reg, c.jobs.waiting[job].user)
  {
    hide K.Reachable;
    var begun := AMintFindsNoEnd();
    K.ReachableStep(begun, SessionEnd(7));
    var ending := Next(begun, SessionEnd(7));
    assert Enabled(ending, MintAsk(5));
  }

  lemma AMintFindsNoEnd() returns (c: Client)
    ensures K.Reachable(c) && !c.reg.closed && c.jobs == Jobs(map[], map[5 := Waiting(2, 4, false)], map[], map[])
    ensures c.reg.live == map[7 := LiveKey(2, 10.0, 3, false, false)] && c.reg.dropped == []
    ensures c.awaited == map[5 := {}]
    ensures c.keys == Keys(map[7 := 3], map[7 := 10.0], {}, {})
  {
    hide K.Reachable, Prepare, Ending;
    c := K.AKeyArrives();
    K.ReachableStep(c, MintRegister(1, 10.0));
    c := Next(c, MintRegister(1, 10.0));
    assert c.reg.live == map[7 := LiveKey(2, 10.0, 3, false, false)];
    K.ReachableStep(c, MintBegin(5, 2, 4, 0.0));
    NothingToEnd(c.reg);
    c := Next(c, MintBegin(5, 2, 4, 0.0));
  }

  lemma NothingToEnd(r: Registry)
    requires r.live == map[7 := LiveKey(2, 10.0, 3, false, false)] && r.dropped == []
    ensures Prepare(r, 2, 0.0).live == r.live && Prepare(r, 2, 0.0).dropped == []
    ensures Prepare(r, 2, 0.0).closed == r.closed && Ending(Prepare(r, 2, 0.0), 2) == {}
  {
    var pruned := r.(inflight := r.inflight + 1, live := Unexpired(r.live, 0.0));
    assert pruned.live == r.live && DroppedKeys(pruned) == {};
    assert Marked(r.live, {}) == r.live;
    assert FailedKeys(EndDropped(pruned), 2) == {};
  }
}
