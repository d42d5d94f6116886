/** What every run of the key registry keeps, and what follows from it. */
module KeyRegistrySafety {
  import opened Wrappers
  import opened KeyRegistry

  // ---- the invariant, step by step ----------------------------------------

  lemma Left<V>(m: map<JobId, V>, job: JobId)
    requires job in m
    ensures |m - {job}| == |m| - 1
  {
    assert m.Keys == (m - {job}).Keys + {job};
  }

  // Sending the ends of registered keys nobody is ending, and no session still holds.
  lemma EndAllKeeps(c: Client, keys: set<KeyId>)
    requires Inv(c)
    requires forall k :: k in keys ==> k in c.reg.live && !c.reg.live[k].ending && !Held(c.keys, k)
    ensures Inv(c.(reg := EndAll(c.reg, keys)))
  {
    if !c.reg.closed {
      var sending := c.reg.sending + multiset(keys);
      assert |sending| == |c.reg.sending| + |keys|;
      forall k ensures Open(sending, c.ends, k) == Open(c.reg.sending, c.ends, k) + (if k in keys then 1 else 0) {
      }
      forall k | k in keys ensures Open(c.reg.sending, c.ends, k) == 0 && k !in c.ends.confirmed {
        assert Open(c.reg.sending, c.ends, k) != 1;
        assert Open(c.reg.sending, c.ends, k) <= 1;
      }
      assert Single(sending, c.ends) && Logged(c.reg.sent + keys, sending, c.ends);
    }
  }

  lemma EndDroppedKeeps(c: Client)
    requires Inv(c)
    ensures Inv(c.(reg := EndDropped(c.reg)))
  {
    var emptied := c.(reg := c.reg.(dropped := []));
    assert Inv(emptied);
    EndAllKeeps(emptied, DroppedKeys(c.reg));
  }

  lemma CallBeginKeeps(c: Client, job: JobId)
    requires Inv(c) && Enabled(c, CallBegin(job))
    ensures Inv(Next(c, CallBegin(job)))
  {
    var counted := c.(reg := c.reg.(inflight := c.reg.inflight + 1),
                      jobs := c.jobs.(calls := c.jobs.calls[job := None]));
    assert Inv(counted);
    EndDroppedKeeps(counted);
  }

  lemma PruneKeeps(c: Client, job: JobId, waiting: Waiting, now: real)
    requires Inv(c) && !c.reg.closed && NewJob(c.jobs, job) && c.clock <= now
    ensures Inv(c.(reg := c.reg.(inflight := c.reg.inflight + 1, live := Unexpired(c.reg.live, now)), clock := now,
                   jobs := c.jobs.(waiting := c.jobs.waiting[job := waiting])))
  {
    hide Single, Issued, Gone;
  }

  // The invariant says nothing of what waiting mints await.
  lemma AwaitsApart(c: Client, awaited: map<JobId, set<KeyId>>)
    requires Inv(c)
    ensures Inv(c.(awaited := awaited))
  {
    hide Weight, Distinct, Single, Marking, NoneAfterConfirmed, Logged, HeldUntouched, Known, Issued, Gone, LeasesHeld,
         Arriving, Kept;
  }

  lemma MintBeginKeeps(c: Client, job: JobId, user: User, owner: Owner, now: real)
    requires Inv(c) && Enabled(c, MintBegin(job, user, owner, now))
    ensures Inv(Next(c, MintBegin(job, user, owner, now)))
  {
    hide Inv, Unexpired, EndDropped, EndAll, FailedKeys, Held, Ending;
    PruneKeeps(c, job, Waiting(user, owner, false), now);
    var counted := c.(reg := c.reg.(inflight := c.reg.inflight + 1, live := Unexpired(c.reg.live, now)), clock := now,
                      jobs := c.jobs.(waiting := c.jobs.waiting[job := Waiting(user, owner, false)]));
    EndDroppedKeeps(counted);
    var pruned := counted.(reg := EndDropped(counted.reg));
    FailedNotHeld(pruned, user);
    EndAllKeeps(pruned, FailedKeys(pruned.reg, user));
    var begun := pruned.(reg := EndAll(pruned.reg, FailedKeys(pruned.reg, user)));
    AwaitsApart(begun, c.awaited[job := Ending(begun.reg, user)]);
  }

  lemma FailedNotHeld(c: Client, user: User)
    requires Inv(c)
    ensures forall k :: k in FailedKeys(c.reg, user) ==> k in c.reg.live && !c.reg.live[k].ending && !Held(c.keys, k)
  {
  }

  lemma MintAskKeeps(c: Client, job: JobId)
    requires Inv(c) && Enabled(c, MintAsk(job))
    ensures Inv(Next(c, MintAsk(job)))
  {
    hide Inv, Begin, Finish;
    if c.jobs.waiting[job].discarding || c.reg.closed {
      AwaitsApart(c, c.awaited - {job});
      LeaveKeeps(c.(awaited := c.awaited - {job}), job);
    } else {
      AwaitsApart(c, c.awaited - {job});
      AskBegins(c.(awaited := c.awaited - {job}), job);
    }
  }

  lemma AskBegins(c: Client, job: JobId)
    requires Inv(c) && job in c.jobs.waiting && !c.reg.closed
    ensures Inv(c.(reg := Begin(c.reg),
                   jobs := c.jobs.(waiting := c.jobs.waiting - {job},
                                   asking := c.jobs.asking[job := c.jobs.waiting[job]])))
  {
    hide Inv, EndDropped;
    AskKeeps(c, job);
    EndDroppedKeeps(c.(reg := c.reg.(inflight := c.reg.inflight + 1),
                       jobs := c.jobs.(waiting := c.jobs.waiting - {job},
                                       asking := c.jobs.asking[job := c.jobs.waiting[job]])));
  }

  lemma LeaveKeeps(c: Client, job: JobId)
    requires Inv(c) && job in c.jobs.waiting
    ensures Inv(c.(reg := Finish(c.reg), jobs := c.jobs.(waiting := c.jobs.waiting - {job})))
  {
    hide Single, Marking, NoneAfterConfirmed, HeldUntouched, Known, Issued, Gone, Kept;
    Left(c.jobs.waiting, job);
  }

  lemma AskKeeps(c: Client, job: JobId)
    requires Inv(c) && job in c.jobs.waiting && !c.reg.closed
    ensures Inv(c.(reg := c.reg.(inflight := c.reg.inflight + 1),
                   jobs := c.jobs.(waiting := c.jobs.waiting - {job},
                                   asking := c.jobs.asking[job := c.jobs.waiting[job]])))
  {
    hide Single, Marking, NoneAfterConfirmed, HeldUntouched, Known, Issued, Gone, Kept;
    Left(c.jobs.waiting, job);
  }

  lemma CallLeaseKeeps(c: Client, job: JobId, key: KeyId)
    requires Inv(c) && Enabled(c, CallLease(job, key))
    ensures Inv(Next(c, CallLease(job, key)))
  {
    assert c.jobs.calls[job := Some(key)].Keys == c.jobs.calls.Keys;
  }

  lemma CallEndKeeps(c: Client, job: JobId)
    requires Inv(c) && Enabled(c, CallEnd(job))
    ensures Inv(Next(c, CallEnd(job)))
  {
    Left(c.jobs.calls, job);
  }

  lemma FailKeeps(c: Client, job: JobId)
    requires Inv(c) && job in c.jobs.asking
    ensures Inv(c.(reg := Finish(Finish(c.reg)), jobs := c.jobs.(asking := c.jobs.asking - {job})))
  {
    hide Single, Marking, NoneAfterConfirmed, HeldUntouched, Known, Issued, Gone, Kept;
    Left(c.jobs.asking, job);
  }

  lemma MintFailedKeeps(c: Client, job: JobId)
    requires Inv(c) && Enabled(c, MintFailed(job))
    ensures Inv(Next(c, MintFailed(job)))
  {
    hide Inv, Finish;
    FailKeeps(c, job);
  }

  lemma AnsweredWeighs(sending: multiset<KeyId>, ends: Ends, jobs: Jobs, job: JobId, arrival: Arrival)
    requires Distinct(jobs) && job in jobs.asking
    ensures Weight(sending, ends, jobs.(asking := jobs.asking - {job}, arrived := jobs.arrived[job := arrival])) ==
            Weight(sending, ends, jobs) - 1
  {
    Left(jobs.asking, job);
  }

  lemma ArrivedWeighs(sending: multiset<KeyId>, ends: Ends, jobs: Jobs, job: JobId, waiting: Waiting)
    requires Distinct(jobs) && job in jobs.arrived
    ensures Weight(sending, ends, jobs.(arrived := jobs.arrived - {job})) == Weight(sending, ends, jobs) - 1
    ensures Weight(sending, ends, jobs.(arrived := jobs.arrived - {job}, waiting := jobs.waiting[job := waiting])) ==
            Weight(sending, ends, jobs)
  {
    Left(jobs.arrived, job);
  }

  // With a mint in flight the client has not drained.
  lemma OpenJob(c: Client, job: JobId)
    requires Inv(c) && (job in c.jobs.arrived || job in c.jobs.asking)
    ensures c.reg.inflight > 0 && c.swept.None? && (c.reg.closed ==> c.reg.draining)
    ensures job in c.jobs.asking ==> c.reg.inflight > 1
  {
    hide Distinct, Single, Marking, NoneAfterConfirmed, HeldUntouched, Known, Issued, Gone, LeasesHeld, Arriving, Kept;
    if job in c.jobs.asking { Left(c.jobs.asking, job); } else { Left(c.jobs.arrived, job); }
  }

  // A key nobody has seen is the mint's.
  lemma IssueKeeps(c: Client, job: JobId, key: KeyId)
    requires Inv(c) && job in c.jobs.asking && key !in c.keys.issued
    ensures var w := c.jobs.asking[job];
            Inv(c.(reg := Finish(c.reg), keys := c.keys.(issued := c.keys.issued[key := w.owner]),
                   jobs := c.jobs.(asking := c.jobs.asking - {job},
                                   arrived := c.jobs.arrived[job := Arrival(w.user, w.owner, key)])))
  {
    hide Single, Marking, NoneAfterConfirmed, Kept, Weight;
    OpenJob(c, job);
    AnsweredWeighs(c.reg.sending, c.ends, c.jobs, job, Arrival(c.jobs.asking[job].user, c.jobs.asking[job].owner, key));
    assert Open(c.reg.sending, c.ends, key) == 0;
  }

  lemma MintReplyKeeps(c: Client, job: JobId, key: KeyId)
    requires Inv(c) && Enabled(c, MintReply(job, key))
    ensures Inv(Next(c, MintReply(job, key)))
  {
    hide Inv, Finish;
    IssueKeeps(c, job, key);
  }

  lemma RegisterKeeps(c: Client, job: JobId, expiresAt: real)
    requires Inv(c) && job in c.jobs.arrived
    ensures var a := c.jobs.arrived[job];
            Inv(c.(reg := Register(c.reg, a.key, LiveKey(a.user, expiresAt, a.owner, false, false)),
                   keys := c.keys.(registered := c.keys.registered[a.key := expiresAt]),
                   jobs := c.jobs.(arrived := c.jobs.arrived - {job})))
  {
    hide Single, Weight;
    ArrivedWeighs(c.reg.sending, c.ends, c.jobs, job, Waiting(0, 0, true));
    OpenJob(c, job);
  }

  lemma MintRegisterKeeps(c: Client, job: JobId, expiresAt: real)
    requires Inv(c) && Enabled(c, MintRegister(job, expiresAt))
    ensures Inv(Next(c, MintRegister(job, expiresAt)))
  {
    hide Inv, Register;
    RegisterKeeps(c, job, expiresAt);
  }

  // One more end on the wire, of a key no session holds and nothing is being done about.
  lemma SendKeeps(c: Client, k: KeyId)
    requires Inv(c) && !c.reg.closed && k in c.keys.issued && !Held(c.keys, k)
    requires Open(c.reg.sending, c.ends, k) == 0 && k !in c.ends.confirmed
    requires forall job :: job in c.jobs.arrived ==> c.jobs.arrived[job].key != k
    ensures Inv(c.(reg := Sent(c.reg, k).(live := Marked(c.reg.live, {k}))))
  {
    var sending := c.reg.sending + multiset{k};
    forall i ensures Open(sending, c.ends, i) == Open(c.reg.sending, c.ends, i) + (if i == k then 1 else 0) {
    }
    assert Single(sending, c.ends);
  }

  lemma LoseKeeps(c: Client, job: JobId)
    requires Inv(c) && job in c.jobs.arrived && c.reg.closed
    ensures Inv(c.(reg := Finish(c.reg), jobs := c.jobs.(arrived := c.jobs.arrived - {job})))
  {
    hide Single, Marking, NoneAfterConfirmed, Kept, Weight;
    OpenJob(c, job);
    ArrivedWeighs(c.reg.sending, c.ends, c.jobs, job, Waiting(0, 0, true));
  }

  lemma MintLostKeeps(c: Client, job: JobId)
    requires Inv(c) && Enabled(c, MintDiscard(job)) && c.reg.closed
    ensures Inv(Next(c, MintDiscard(job)))
  {
    hide Inv, Finish;
    LoseKeeps(c, job);
  }

  // The mint goes back to waiting, for the end of the key it got.
  ghost function Moved(c: Client, job: JobId): Client
    requires job in c.jobs.arrived
  {
    var j := c.jobs;
    var a := j.arrived[job];
    c.(jobs := j.(arrived := j.arrived - {job}, waiting := j.waiting[job := Waiting(a.user, a.owner, true)]))
  }

  lemma MoveKeeps(c: Client, job: JobId)
    requires Inv(c) && job in c.jobs.arrived
    ensures Inv(Moved(c, job))
    ensures var k := c.jobs.arrived[job].key;
            && !Held(Moved(c, job).keys, k) && k !in c.reg.live && k in c.keys.issued
            && k !in c.reg.sent && Open(c.reg.sending, c.ends, k) == 0 && k !in c.ends.confirmed
            && forall i :: i in Moved(c, job).jobs.arrived ==> Moved(c, job).jobs.arrived[i].key != k
  {
    hide Single, Marking, NoneAfterConfirmed, Kept, Weight;
    var a := c.jobs.arrived[job];
    ArrivedWeighs(c.reg.sending, c.ends, c.jobs, job, Waiting(a.user, a.owner, true));
  }

  lemma MarkedAbsent(live: map<KeyId, LiveKey>, k: KeyId)
    ensures k !in live ==> Marked(live, {k}) == live
  {
  }

  lemma MintDiscardKeeps(c: Client, job: JobId)
    requires Inv(c) && Enabled(c, MintDiscard(job)) && !c.reg.closed
    ensures Inv(Next(c, MintDiscard(job)))
  {
    hide Inv, Open, Held, EndDropped, Marked;
    var a := c.jobs.arrived[job];
    MarkedAbsent(c.reg.live, a.key);
    MoveKeeps(c, job);
    var moved := Moved(c, job);
    SendKeeps(moved, a.key);
    EndDroppedKeeps(moved.(reg := Sent(c.reg, a.key)));
    AwaitsApart(moved.(reg := SendEnd(c.reg, a.key)), c.awaited[job := {a.key}]);
  }

  // Marking the key after the dropped ones are ended is marking it before, since it is not one of them.
  lemma EndKeyForms(r: Registry, k: KeyId)
    requires !r.closed && (k in r.live ==> !r.live[k].ending && r.live[k].owner !in r.dropped)
    ensures EndKey(r, k) ==
            EndDropped(Sent(r, k).(live := Marked(r.live, {k})))
  {
    hide DroppedKeys, Marked;
    var before := Sent(r, k);
    var marked := before.(live := Marked(r.live, {k}));
    DroppedSame(before, k);
    MarkedTwice(r.live, DroppedKeys(before), {k});
    MarkedTwice(r.live, {k}, DroppedKeys(before));
    MarkedAbsent(EndDropped(before).live, k);
    MarkedKeys(r.live, DroppedKeys(before));
    assert {k} + DroppedKeys(before) == DroppedKeys(before) + {k};
  }

  lemma DroppedSame(r: Registry, k: KeyId)
    requires k in r.live ==> !r.live[k].ending && r.live[k].owner !in r.dropped
    ensures DroppedKeys(r.(live := Marked(r.live, {k}))) == DroppedKeys(r)
  {
  }

  lemma MarkedTwice(live: map<KeyId, LiveKey>, a: set<KeyId>, b: set<KeyId>)
    ensures Marked(Marked(live, a), b) == Marked(live, a + b)
  {
  }

  lemma MarkedKeys(live: map<KeyId, LiveKey>, a: set<KeyId>)
    ensures Marked(live, a).Keys == live.Keys
  {
  }

  lemma HandKeeps(c: Client, k: KeyId)
    requires Inv(c) && Held(c.keys, k) && !Leased(c.jobs, k)
    ensures Inv(c.(keys := c.keys.(handed := c.keys.handed + {k})))
  {
  }

  lemma SessionEndKeeps(c: Client, k: KeyId)
    requires Inv(c) && Enabled(c, SessionEnd(k))
    ensures Inv(Next(c, SessionEnd(k)))
  {
    HandKeeps(c, k);
    if !c.reg.closed {
      EndKeyForms(c.reg, k);
      var handed := c.(keys := c.keys.(handed := c.keys.handed + {k}));
      SendKeeps(handed, k);
      EndDroppedKeeps(handed.(reg := Sent(c.reg, k).(live := Marked(c.reg.live, {k}))));
    }
  }

  lemma EndReplyKeeps(c: Client, k: KeyId, gone: bool)
    requires Inv(c) && Enabled(c, EndReply(k, gone))
    ensures Inv(Next(c, EndReply(k, gone)))
  {
    var d := Next(c, EndReply(k, gone));
    assert Open(c.reg.sending, c.ends, k) <= 1;
    forall i ensures Open(d.reg.sending, d.ends, i) == Open(c.reg.sending, c.ends, i) {
    }
  }

  // One answer less to be recorded.
  lemma OneLess(sending: multiset<KeyId>, ends: Ends, after: Ends, jobs: Jobs, k: KeyId)
    requires || (ends.gone[k] > 0 && after == ends.(gone := ends.gone - multiset{k}))
             || (ends.refused[k] > 0 && after == ends.(refused := ends.refused - multiset{k}))
    ensures Weight(sending, after, jobs) == Weight(sending, ends, jobs) - 1
    ensures forall i :: Open(sending, after, i) == Open(sending, ends, i) - (if i == k then 1 else 0)
  {
  }

  lemma CountedOut(c: Client, d: Client)
    requires Closing(c) && c.reg.inflight > 0 && d.reg.inflight >= 0
    requires d.swept == c.swept && d.reg.closed == c.reg.closed
    requires d.reg.inflight == c.reg.inflight - 1 && d.reg.draining == (c.reg.draining && c.reg.inflight != 1)
    ensures Closing(d)
  {
  }

  lemma GoneKeeps(c: Client, k: KeyId)
    requires Inv(c) && c.ends.gone[k] > 0
    ensures Inv(c.(reg := Record(c.reg, k, true), ends := c.ends.(gone := c.ends.gone - multiset{k})))
  {
    InFlight(c, k);
    hide Distinct, Issued, Gone, LeasesHeld, Arriving, Weight, Open, Closing;
    var d := c.(reg := Record(c.reg, k, true), ends := c.ends.(gone := c.ends.gone - multiset{k}));
    assert Open(c.reg.sending, c.ends, k) <= 1;
    OneLess(c.reg.sending, c.ends, d.ends, c.jobs, k);
    CountedOut(c, d);
    ConfirmedAfter(c.reg.live, c.reg.sending, c.ends, d.ends, k);
  }

  // With an answer still to be recorded, something is in flight.
  lemma InFlight(c: Client, k: KeyId)
    requires Inv(c) && (c.ends.gone[k] > 0 || c.ends.refused[k] > 0)
    ensures c.reg.inflight > 0
  {
    hide Distinct, Single, Marking, NoneAfterConfirmed, HeldUntouched, Known, Issued, Gone, LeasesHeld, Arriving, Kept,
         Logged, Closing;
  }

  lemma ConfirmedAfter(live: map<KeyId, LiveKey>, sending: multiset<KeyId>, ends: Ends, after: Ends, k: KeyId)
    requires NoneAfterConfirmed(live, sending, ends) && ends.gone[k] > 0 && Open(sending, ends, k) <= 1
    requires after == ends.(gone := ends.gone - multiset{k})
    ensures NoneAfterConfirmed(live - {k}, sending, after)
  {
  }

  lemma EndGoneKeeps(c: Client, k: KeyId)
    requires Inv(c) && Enabled(c, EndRecord(k, true))
    ensures Inv(Next(c, EndRecord(k, true)))
  {
    hide Inv, Record, Recorded;
    GoneKeeps(c, k);
    AwaitsApart(c.(reg := Record(c.reg, k, true), ends := c.ends.(gone := c.ends.gone - multiset{k})),
                Recorded(c.awaited, k));
  }

  lemma RefusedKeeps(c: Client, k: KeyId)
    requires Inv(c) && c.ends.refused[k] > 0
    ensures Inv(c.(reg := Record(c.reg, k, false), ends := c.ends.(refused := c.ends.refused - multiset{k})))
  {
    InFlight(c, k);
    RefusedAfter(c.reg.live, c.reg.sending, c.ends, k);
    hide Distinct, Issued, Gone, LeasesHeld, Arriving, Weight, Open, Closing, NoneAfterConfirmed;
    var d := c.(reg := Record(c.reg, k, false), ends := c.ends.(refused := c.ends.refused - multiset{k}));
    assert Open(c.reg.sending, c.ends, k) <= 1;
    OneLess(c.reg.sending, c.ends, d.ends, c.jobs, k);
    CountedOut(c, d);
  }

  lemma RefusedAfter(live: map<KeyId, LiveKey>, sending: multiset<KeyId>, ends: Ends, k: KeyId)
    requires NoneAfterConfirmed(live, sending, ends) && ends.refused[k] > 0
    ensures var after := ends.(refused := ends.refused - multiset{k});
            && NoneAfterConfirmed(live, sending, after)
            && (k in live ==>
                  NoneAfterConfirmed(live[k := live[k].(ending := false, endFailed := true)], sending, after))
  {
  }

  lemma EndRefusedKeeps(c: Client, k: KeyId)
    requires Inv(c) && Enabled(c, EndRecord(k, false))
    ensures Inv(Next(c, EndRecord(k, false)))
  {
    hide Inv, Record, Recorded;
    RefusedKeeps(c, k);
    AwaitsApart(c.(reg := Record(c.reg, k, false), ends := c.ends.(refused := c.ends.refused - multiset{k})),
                Recorded(c.awaited, k));
  }

  /** Every interleaving keeps the invariant. */
  lemma StepKeeps(c: Client, step: Step)
    requires Inv(c) && Enabled(c, step)
    ensures Inv(Next(c, step))
  {
    match step
    case CallBegin(job) => CallBeginKeeps(c, job);
    case CallLease(job, key) => CallLeaseKeeps(c, job, key);
    case CallEnd(job) => CallEndKeeps(c, job);
    case MintBegin(job, user, owner, now) => MintBeginKeeps(c, job, user, owner, now);
    case MintAsk(job) => MintAskKeeps(c, job);
    case MintFailed(job) => MintFailedKeeps(c, job);
    case MintReply(job, key) => MintReplyKeeps(c, job, key);
    case MintRegister(job, expiresAt) => MintRegisterKeeps(c, job, expiresAt);
    case MintDiscard(job) => if c.reg.closed { MintLostKeeps(c, job); } else { MintDiscardKeeps(c, job); }
    case SessionEnd(key) => SessionEndKeeps(c, key);
    case EndReply(key, gone) => EndReplyKeeps(c, key, gone);
    case EndRecord(key, gone) => if gone { EndGoneKeeps(c, key); } else { EndRefusedKeeps(c, key); }
    case Drop(owner) => DropKeeps(c, owner);
    case Close =>
    case Sweep(now) =>
  }

  lemma DropKeeps(c: Client, owner: Owner)
    requires Inv(c) && Enabled(c, Drop(owner))
    ensures Inv(Next(c, Drop(owner)))
  {
  }

  lemma {:induction false} RunKeeps(c: Client, steps: seq<Step>)
    requires Inv(c) && Legal(c, steps)
    ensures Inv(Run(c, steps))
    decreases |steps|
  {
    if steps != [] {
      StepKeeps(c, steps[0]);
      RunKeeps(Next(c, steps[0]), steps[1..]);
    }
  }

  // Where keys are is a second invariant, resting on the first.
  lemma StepPlaces(c: Client, step: Step)
    requires Inv(c) && AllPlaced(c) && Enabled(c, step)
    ensures AllPlaced(Next(c, step))
  {
    var d := Next(c, step);
    StepLog(c, step);
    forall k | k in d.keys.issued && k !in d.keys.registered && !OnItsWay(d.jobs, k)
      ensures k in d.reg.sent || d.reg.closed
    {
      ArrivalLeaves(c, step, k);
    }
  }

  // Nothing is struck off the log, and what happens to a client does not open it again.
  lemma StepLog(c: Client, step: Step)
    requires Enabled(c, step)
    ensures c.reg.sent <= Next(c, step).reg.sent && (c.reg.closed ==> Next(c, step).reg.closed)
  {
    hide Held, Leased, Minting, Unexpired, DroppedKeys, FailedKeys, Marked;
  }

  // A key is on its way from its mint's reply until it is registered or discarded.
  lemma ArrivalLeaves(c: Client, step: Step, k: KeyId)
    requires Inv(c) && Enabled(c, step)
    ensures var d := Next(c, step);
            && (OnItsWay(c.jobs, k) && !OnItsWay(d.jobs, k) ==>
                  && (step.MintRegister? || step.MintDiscard?) && c.jobs.arrived[step.job].key == k
                  && (step.MintRegister? ==> k in d.keys.registered)
                  && (step.MintDiscard? && !c.reg.closed ==> k in d.reg.sent))
            && (k in d.keys.issued && k !in c.keys.issued ==> OnItsWay(d.jobs, k))
            && (k in c.keys.issued ==> k in d.keys.issued)
            && (k in d.keys.registered && k !in c.keys.registered ==> OnItsWay(c.jobs, k))
            && (k in c.keys.registered ==> k in d.keys.registered)
            && (k in c.keys.issued && OnItsWay(d.jobs, k) ==> OnItsWay(c.jobs, k))
  {
    hide Weight, Single, Marking, NoneAfterConfirmed, HeldUntouched, Known, Issued, Gone, LeasesHeld, Kept, Logged,
         Begin, Prepare, Register, Record, EndKey, Shut, Finish, Held, Leased, Minting, Closing, Ending, Recorded;
    var d := Next(c, step);
    if OnItsWay(c.jobs, k) {
      var job :| job in c.jobs.arrived && c.jobs.arrived[job].key == k;
      assert job in d.jobs.arrived ==> d.jobs.arrived[job].key == k;
    }
    if step.MintReply? {
      assert d.jobs.arrived[step.job].key == step.key;
    }
    if k in c.keys.issued && OnItsWay(d.jobs, k) {
      var job :| job in d.jobs.arrived && d.jobs.arrived[job].key == k;
      assert job in c.jobs.arrived && c.jobs.arrived[job].key == k;
    }
  }

  lemma {:induction false} RunPlaces(c: Client, steps: seq<Step>)
    requires Inv(c) && AllPlaced(c) && Legal(c, steps)
    ensures AllPlaced(Run(c, steps))
    decreases |steps|
  {
    if steps != [] {
      StepKeeps(c, steps[0]);
      StepPlaces(c, steps[0]);
      RunPlaces(Next(c, steps[0]), steps[1..]);
    }
  }

  // A state some run of a new client ends in.
  ghost predicate Reachable(c: Client) {
    exists steps :: Legal(Init(), steps) && Run(Init(), steps) == c
  }

  lemma ReachableKeeps(c: Client)
    requires Reachable(c)
    ensures Inv(c)
  {
    var steps :| Legal(Init(), steps) && Run(Init(), steps) == c;
    RunKeeps(Init(), steps);
  }

  lemma {:induction false} RunStep(c: Client, steps: seq<Step>, step: Step)
    requires Legal(c, steps) && Enabled(Run(c, steps), step)
    ensures Legal(c, steps + [step]) && Run(c, steps + [step]) == Next(Run(c, steps), step)
    decreases |steps|
  {
    if steps == [] {
      assert [step][1..] == [] && Legal(Next(c, step), []);
    } else {
      assert (steps + [step])[1..] == steps[1..] + [step];
      RunStep(Next(c, steps[0]), steps[1..], step);
    }
  }

  lemma ReachableStep(c: Client, step: Step)
    requires Reachable(c) && Enabled(c, step)
    ensures Reachable(Next(c, step))
  {
    var steps :| Legal(Init(), steps) && Run(Init(), steps) == c;
    RunStep(Init(), steps, step);
  }

  // ---- what holds of every run ---------------------------------------------

  /**
    A registered key stays in the registry until the service confirmed its end,
    it expired, or the close's sweep took it; at most one end of it is under way
    at a time; and none is sent once one was confirmed.
   */
  lemma EachKeyEndedOnce(c: Client, k: KeyId)
    requires Reachable(c) && k in c.keys.registered
    ensures c.swept == None ==> k in c.reg.live || k in c.ends.confirmed || c.keys.registered[k] <= c.clock
    ensures Open(c.reg.sending, c.ends, k) <= 1
    ensures k in c.ends.confirmed ==> c.reg.sending[k] == 0
    ensures k in c.ends.confirmed && k in c.reg.live ==> c.ends.gone[k] == 1  // to be recorded
  {
    ReachableKeeps(c);
    assert Open(c.reg.sending, c.ends, k) <= 1;
  }

  /** No key is ended under a call: one a call leases has never been sent an end, however that came out. */
  lemma NoneEndedUnderALease(c: Client, k: KeyId)
    requires Reachable(c) && Leased(c.jobs, k)
    ensures k !in c.reg.sent && Open(c.reg.sending, c.ends, k) == 0 && k !in c.ends.confirmed
  {
    ReachableKeeps(c);
  }

  /**
    Once the client is closed nothing is counted in, so `inflight` never rises,
    and nothing more is sent; and the close is not left waiting once it is zero.
   */
  lemma ClosedOnlyDrains(c: Client, step: Step)
    requires Reachable(c) && Enabled(c, step) && c.reg.closed
    ensures var d := Next(c, step);
            && d.reg.closed && d.reg.inflight <= c.reg.inflight && d.reg.sending <= c.reg.sending
            && (d.reg.draining <==> d.reg.inflight > 0)
  {
    hide Distinct, Single, Marking, NoneAfterConfirmed, HeldUntouched, Known, Issued, Gone, LeasesHeld, Arriving, Kept,
         Logged, Reachable, Begin, Prepare, EndDropped, Unexpired, Weight, Leased, Minting;
    ReachableKeeps(c);
    StepKeeps(c, step);
  }

  /**
    When the sweep can start, nothing is in flight: no call, so no session key
    is leased; no mint, so no key is about to be registered; and no end, so no
    key is between being ended and being forgotten. What it takes is exactly the
    registered keys still to be ended.
   */
  lemma SweepFindsNothingInFlight(c: Client, now: real)
    requires Reachable(c) && Enabled(c, Sweep(now))
    ensures c.jobs == Jobs(map[], map[], map[], map[]) && c.reg.sending == multiset{}
    ensures c.ends.gone == multiset{} && c.ends.refused == multiset{}
    ensures forall k :: !Leased(c.jobs, k)
    ensures forall k :: k in Next(c, Sweep(now)).swept.value <==>
                        k in c.keys.registered && k !in c.ends.confirmed && c.keys.registered[k] > now
  {
    ReachableKeeps(c);
  }

  /** After the sweep nothing is registered again, and no end is sent but the sweep's own. */
  lemma {:induction false} NothingAfterTheSweep(c: Client, steps: seq<Step>)
    requires Inv(c) && Legal(c, steps) && c.swept.Some?
    ensures var d := Run(c, steps);
            d.reg.live == map[] && d.reg.sending == multiset{} && d.reg.inflight == 0 && d.swept == c.swept
            && d.keys.registered == c.keys.registered
    decreases |steps|
  {
    if steps != [] {
      StepKeeps(c, steps[0]);
      NothingAfterTheSweep(Next(c, steps[0]), steps[1..]);
    }
  }

  lemma ReachablePlaces(c: Client)
    requires Reachable(c)
    ensures AllPlaced(c)
  {
    var steps :| Legal(Init(), steps) && Run(Init(), steps) == c;
    RunPlaces(Init(), steps);
  }

  /**
    Every key the service issued is about to be registered, was registered, or was
    discarded as it arrived; and a discarded one has its end under way, was
    confirmed ended, or is abandoned, its end refused or never sent. Only a closed
    client never sends it.
   */
  lemma IssuedKeysAccountedFor(c: Client, k: KeyId)
    requires Reachable(c) && k in c.keys.issued
    ensures k in c.keys.registered || OnItsWay(c.jobs, k)
            || Open(c.reg.sending, c.ends, k) == 1 || k in c.ends.confirmed || Abandoned(c, k)
    ensures OnItsWay(c.jobs, k) ==> k !in c.keys.registered && k !in c.reg.sent
    ensures k in c.keys.registered || OnItsWay(c.jobs, k) || k in c.reg.sent || (c.reg.closed && Abandoned(c, k))
  {
    ReachableKeeps(c);
    ReachablePlaces(c);
    assert Open(c.reg.sending, c.ends, k) <= 1;
  }

  // ---- keys nothing will end -----------------------------------------------

  // The step that abandons a key: it is discarded by a client that has closed, or
  // the end it was sent as it arrived is recorded as refused.
  ghost predicate Abandons(c: Client, step: Step, k: KeyId)
    requires Enabled(c, step)
  {
    || (step.MintDiscard? && c.jobs.arrived[step.job].key == k && c.reg.closed)
    || (step == EndRecord(k, false) && k !in c.keys.registered)
  }

  // How the ends of a key change: sent for a key registered or just discarded, answered, recorded.
  lemma EndsMove(c: Client, step: Step, k: KeyId)
    requires Inv(c) && Enabled(c, step) && k in c.keys.issued && k !in c.keys.registered
    ensures var d := Next(c, step);
            && Open(d.reg.sending, d.ends, k) ==
               Open(c.reg.sending, c.ends, k)
               + (if step.MintDiscard? && c.jobs.arrived[step.job].key == k && !c.reg.closed then 1 else 0)
               - (if step.EndRecord? && step.key == k then 1 else 0)
            && (k in d.ends.confirmed <==> k in c.ends.confirmed || step == EndReply(k, true))
  {
    hide Weight, Distinct, Single, Marking, NoneAfterConfirmed, HeldUntouched, Issued, Gone, LeasesHeld, Kept, Logged,
         Closing, Arriving, Next;
    assert k !in c.reg.live;
    match step
    case EndReply(key, gone) => ReplyMoves(c, key, gone, k);
    case EndRecord(key, gone) => RecordMoves(c, key, gone, k);
    case _ => SendingMoves(c, step, k);
  }

  lemma ReplyMoves(c: Client, key: KeyId, gone: bool, k: KeyId)
    requires Enabled(c, EndReply(key, gone))
    ensures var d := Next(c, EndReply(key, gone));
            && Open(d.reg.sending, d.ends, k) == Open(c.reg.sending, c.ends, k)
            && (k in d.ends.confirmed <==> k in c.ends.confirmed || (key == k && gone))
  {
    hide Finish;
    CountsOnly(c.reg.(sending := c.reg.sending - multiset{key}));
  }

  lemma RecordMoves(c: Client, key: KeyId, gone: bool, k: KeyId)
    requires Enabled(c, EndRecord(key, gone))
    ensures var d := Next(c, EndRecord(key, gone));
            && Open(d.reg.sending, d.ends, k) == Open(c.reg.sending, c.ends, k) - (if key == k then 1 else 0)
            && d.ends.confirmed == c.ends.confirmed
  {
    hide Record;
    RecordOnly(c.reg, key, gone);
  }

  lemma SendingMoves(c: Client, step: Step, k: KeyId)
    requires Enabled(c, step) && k !in c.reg.live && k !in c.keys.registered && !step.EndReply? && !step.EndRecord?
    ensures var d := Next(c, step);
            && d.ends == c.ends
            && d.reg.sending[k] ==
               c.reg.sending[k] +
               (if step.MintDiscard? && c.jobs.arrived[step.job].key == k && !c.reg.closed then 1 else 0)
  {
    hide Begin, Prepare, SendEnd, EndKey, Register, Finish, Shut, Minting, Leased, Unexpired, Ending, Recorded;
    SendsElsewhere(c.reg, k);
    CountsOnly(c.reg);
    match step
    case MintBegin(_, user, _, now) => PrepareElsewhere(c.reg, user, now, k);
    case MintDiscard(job) => SendElsewhere(c.reg, c.jobs.arrived[job].key, k);
    case SessionEnd(key) => EndElsewhere(c.reg, key, k);
    case MintFailed(_) => CountsOnly(Finish(c.reg));
    case MintRegister(job, expiresAt) =>
      RegisterOnly(c.reg, c.jobs.arrived[job].key,
                   LiveKey(c.jobs.arrived[job].user, expiresAt, c.jobs.arrived[job].owner, false, false));
    case _ =>
  }

  // Counting out, closing, registering and recording send nothing.
  lemma CountsOnly(r: Registry)
    ensures Finish(r).sending == r.sending && Shut(r).sending == r.sending
  {
  }

  lemma RecordOnly(r: Registry, k: KeyId, gone: bool)
    ensures Record(r, k, gone).sending == r.sending
  {
  }

  lemma RegisterOnly(r: Registry, k: KeyId, key: LiveKey)
    ensures Register(r, k, key).sending == r.sending
  {
  }

  // Ending what was dropped or failed sends nothing of a key that is not registered.
  lemma SendsElsewhere(r: Registry, k: KeyId)
    requires k !in r.live
    ensures EndDropped(r).sending[k] == r.sending[k] && k !in EndDropped(r).live
    ensures Begin(r).sending[k] == r.sending[k]
  {
  }

  lemma PrepareElsewhere(r: Registry, user: User, now: real, k: KeyId)
    requires k !in r.live
    ensures Prepare(r, user, now).sending[k] == r.sending[k]
  {
    hide EndDropped;
    SendsElsewhere(r.(inflight := r.inflight + 1, live := Unexpired(r.live, now)), k);
  }

  lemma SendElsewhere(r: Registry, i: KeyId, k: KeyId)
    requires k !in r.live
    ensures SendEnd(r, i).sending[k] == r.sending[k] + (if i == k && !r.closed then 1 else 0)
  {
    hide EndDropped;
    SendsElsewhere(Sent(r, i), k);
  }

  lemma EndElsewhere(r: Registry, i: KeyId, k: KeyId)
    requires k !in r.live && i != k
    ensures EndKey(r, i).sending[k] == r.sending[k]
  {
    hide SendEnd;
    SendElsewhere(r, i, k);
  }

  /** A key is abandoned from that step on, by no other, and for good. */
  lemma AbandonedStep(c: Client, step: Step, k: KeyId)
    requires Inv(c) && Enabled(c, step)
    ensures Abandoned(Next(c, step), k) <==> Abandoned(c, k) || Abandons(c, step, k)
  {
    hide Weight, Distinct, Marking, HeldUntouched, Known, Gone, LeasesHeld, Kept, Closing, Next;
    ArrivalLeaves(c, step, k);
    assert Open(c.reg.sending, c.ends, k) <= 1;
    if k in c.keys.issued && k !in c.keys.registered {
      EndsMove(c, step, k);
    }
    if step.MintDiscard? && c.jobs.arrived[step.job].key == k {
      DiscardLeaves(c, step.job);
    }
  }

  lemma DiscardLeaves(c: Client, job: JobId)
    requires Inv(c) && Enabled(c, MintDiscard(job))
    ensures var k := c.jobs.arrived[job].key;
            !OnItsWay(Next(c, MintDiscard(job)).jobs, k) && k !in Next(c, MintDiscard(job)).keys.registered
  {
    hide Weight, Distinct, Single, Marking, NoneAfterConfirmed, HeldUntouched, Known, Issued, Gone, LeasesHeld, Kept,
         Logged, Closing, SendEnd, Finish;
  }

  // The step at `n` of a run abandons the key.
  ghost predicate AbandonedBy(steps: seq<Step>, n: nat, k: KeyId) {
    && n < |steps| && Legal(Init(), steps[..n]) && Enabled(Run(Init(), steps[..n]), steps[n])
    && Abandons(Run(Init(), steps[..n]), steps[n], k)
  }

  /**
    A key is abandoned at the end of a run if and only if, somewhere in it, the key
    arrived expired by the local clock once the client had closed, or arrived so
    and the end sent of it was refused. No retry, sweep or later end reaches it.
   */
  lemma {:induction false} AbandonedExactly(steps: seq<Step>, k: KeyId)
    requires Legal(Init(), steps)
    ensures Abandoned(Run(Init(), steps), k) <==> exists n :: AbandonedBy(steps, n, k)
    decreases |steps|
  {
    hide Enabled, Next, Abandoned, Abandons, AbandonedBy;
    if steps == [] {
      NothingAbandoned(k);
      NoStepYet(k);
    } else {
      var n := |steps| - 1;
      LegalPrefix(Init(), steps, n);
      AbandonedExactly(steps[..n], k);
      RunKeeps(Init(), steps[..n]);
      AbandonedStep(Run(Init(), steps[..n]), steps[n], k);
      forall m: nat | m < n ensures AbandonedBy(steps, m, k) <==> AbandonedBy(steps[..n], m, k) {
        ByPrefix(steps, n, m, k);
      }
      LastAbandons(steps, k);
    }
  }

  lemma ByPrefix(steps: seq<Step>, n: nat, m: nat, k: KeyId)
    requires m < n <= |steps|
    ensures AbandonedBy(steps, m, k) <==> AbandonedBy(steps[..n], m, k)
  {
    hide Enabled, Next, Abandons, Legal, Run;
    assert steps[..n][..m] == steps[..m] && steps[..n][m] == steps[m];
  }

  lemma LastAbandons(steps: seq<Step>, k: KeyId)
    requires steps != []
    requires var n := |steps| - 1; Legal(Init(), steps[..n]) && Enabled(Run(Init(), steps[..n]), steps[n])
    requires var n := |steps| - 1;
             forall m: nat :: m < n ==> (AbandonedBy(steps, m, k) <==> AbandonedBy(steps[..n], m, k))
    ensures var n := |steps| - 1;
            (exists m :: AbandonedBy(steps, m, k)) <==>
            (exists m :: AbandonedBy(steps[..n], m, k)) || Abandons(Run(Init(), steps[..n]), steps[n], k)
  {
    hide Enabled, Next, Abandons, Legal, Run;
    var n := |steps| - 1;
    assert AbandonedBy(steps, n, k) <==> Abandons(Run(Init(), steps[..n]), steps[n], k);
    forall m | AbandonedBy(steps, m, k) ensures m == n || AbandonedBy(steps[..n], m, k) {
    }
    forall m | AbandonedBy(steps[..n], m, k) ensures AbandonedBy(steps, m, k) {
    }
  }

  lemma NoStepYet(k: KeyId)
    ensures forall n :: !AbandonedBy([], n, k)
  {
  }

  lemma NothingAbandoned(k: KeyId)
    ensures !Abandoned(Init(), k)
  {
  }

  lemma {:induction false} LegalPrefix(c: Client, steps: seq<Step>, n: nat)
    requires Legal(c, steps) && n + 1 == |steps|
    ensures Legal(c, steps[..n]) && Enabled(Run(c, steps[..n]), steps[n])
    ensures Run(c, steps) == Next(Run(c, steps[..n]), steps[n])
    decreases n
  {
    hide Enabled, Next;
    if n == 0 {
      assert steps[1..] == [] && steps[..0] == [];
    } else {
      assert steps[1..][..n - 1] == steps[..n][1..];
      LegalPrefix(Next(c, steps[0]), steps[1..], n - 1);
    }
  }

  /** A key that arrives expired is sent its end unless the client has closed by then; closed, it is abandoned there. */
  lemma SentUnlessClosed(c: Client, job: JobId)
    requires Reachable(c) && Enabled(c, MintDiscard(job))
    ensures var k, d := c.jobs.arrived[job].key, Next(c, MintDiscard(job));
            && (Abandoned(d, k) <==> c.reg.closed) && (k !in d.reg.sent <==> c.reg.closed)
            && (!c.reg.closed ==> d.reg.sending[k] == 1)
  {
    ReachableKeeps(c);
    var k := c.jobs.arrived[job].key;
    AbandonedStep(c, MintDiscard(job), k);
    assert Open(c.reg.sending, c.ends, k) == 0;
    assert k !in DroppedKeys(Sent(c.reg, k));
  }

  // One run that abandons a key: it arrives, expired, after a close begun while it was asked for.
  lemma AKeyCanBeLost()
    ensures exists c :: Reachable(c) && Abandoned(c, 7) && 7 !in c.reg.sent
  {
    var arrived := AKeyArrives();
    var closed := Next(arrived, Close);
    ReachableStep(arrived, Close);
    assert Enabled(closed, MintDiscard(1)) && closed.reg.closed;
    SentUnlessClosed(closed, 1);
    ReachableStep(closed, MintDiscard(1));
  }

  // And one on an open client: the end of the expired key is refused, and there is no entry to mark for a retry.
  lemma ARefusedEndAbandons()
    ensures exists c :: Reachable(c) && Abandoned(c, 7) && 7 in c.reg.sent && !c.reg.closed
  {
    hide Reachable, Abandoned, Inv;
    var refused := AnEndIsRefused();
    ReachableStep(refused, EndRecord(7, false));
    ReachableKeeps(refused);
    AbandonedStep(refused, EndRecord(7, false), 7);
    assert Abandoned(Next(refused, EndRecord(7, false)), 7);
  }

  lemma AnEndIsRefused() returns (c: Client)
    ensures Reachable(c) && c.ends.refused[7] > 0 && 7 in c.reg.sent && !c.reg.closed && c.keys.registered == map[]
  {
    hide Reachable, Abandoned, EndDropped;
    c := AKeyArrives();
    StillOpen(c.reg, 7);
    SentUnlessClosed(c, 1);
    ReachableStep(c, MintDiscard(1));
    c := Next(c, MintDiscard(1));
    ReachableStep(c, EndReply(7, false));
    c := Next(c, EndReply(7, false));
  }

  lemma StillOpen(r: Registry, k: KeyId)
    requires !r.closed
    ensures !SendEnd(r, k).closed
  {
  }

  lemma AKeyArrives() returns (c: Client)
    ensures Reachable(c) && c.jobs == Jobs(map[], map[], map[], map[1 := Arrival(2, 3, 7)]) && !c.reg.closed
    ensures c.keys == Keys(map[7 := 3], map[], {}, {}) && c.ends == Ends(multiset{}, multiset{}, {})
    ensures c.reg.live == map[] && c.reg.dropped == [] && c.awaited == map[] && c.clock == 0.0
  {
    var none: seq<Step> := [];
    assert Legal(Init(), none) && Run(Init(), none) == Init();
    var begun := Next(Init(), MintBegin(1, 2, 3, 0.0));
    ReachableStep(Init(), MintBegin(1, 2, 3, 0.0));
    assert begun.jobs.waiting == map[1 := Waiting(2, 3, false)] && !begun.reg.closed;
    var asked := Next(begun, MintAsk(1));
    ReachableStep(begun, MintAsk(1));
    assert asked.jobs.asking == map[1 := Waiting(2, 3, false)];
    c := Next(asked, MintReply(1, 7));
    ReachableStep(asked, MintReply(1, 7));
  }

  /**
    Why a session credential must end nothing once collected: a key of an owner
    still queued as dropped would be sent two ends at once, since the call that
    ends it ends the dropped keys before the key is marked as being ended.
   */
  lemma EndingADroppedKeySendsTwo(r: Registry, k: KeyId)
    requires !r.closed && k in r.live && !r.live[k].ending && r.live[k].owner in r.dropped
    ensures EndKey(r, k).sending[k] == r.sending[k] + 2
  {
    assert k in DroppedKeys(Sent(r, k));
  }
}
