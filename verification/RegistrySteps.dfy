/**
  What each step of the client in `nodejs/src/client.ts` does to one key: whether it is
  still registered, how, and how many ends of it the step sends.
 */
module RegistrySteps {
  import opened Wrappers
  import opened KeyRegistry
  import E = EndRetry
  import K = KeyRegistrySafety

  // Registered, of an owner that was dropped, and no end of it under way.
  predicate DroppedAndIdle(r: Registry, k: KeyId) {
    k in r.live && r.live[k].owner in r.dropped && !r.live[k].ending
  }

  // How many ends of the key the step sends. Whatever makes a call ends what was dropped;
  // a mint looks only at the unexpired, and ends the user's failed again; an end of a key
  // that has one under way sends none.
  function Sends(c: Client, step: Step, k: KeyId): nat
    requires Enabled(c, step)
  {
    var dropped := if DroppedAndIdle(c.reg, k) then 1 else 0;
    if c.reg.closed then 0
    else
      match step
      case CallBegin(_) => dropped
      case MintAsk(job) => if c.jobs.waiting[job].discarding then 0 else dropped
      case MintDiscard(job) => dropped + if c.jobs.arrived[job].key == k then 1 else 0
      case SessionEnd(key) =>
        if key in c.reg.live && c.reg.live[key].ending then 0 else dropped + if key == k then 1 else 0
      case MintBegin(_, user, _, now) =>
        if k !in c.reg.live || c.reg.live[k].expiresAt <= now || c.reg.live[k].ending then 0
        else if c.reg.live[k].owner in c.reg.dropped then 1
        else if c.reg.live[k].user == user && c.reg.live[k].endFailed then 1
        else 0
      case _ => 0
  }

  // ---- what the parts of a step do to one key ------------------------------

  lemma AllOn(r: Registry, keys: set<KeyId>, k: KeyId)
    requires keys <= r.live.Keys
    ensures var s := EndAll(r, keys);
            && (k in s.live <==> k in r.live)
            && (k in r.live ==>
                  s.live[k] == if !r.closed && k in keys then r.live[k].(ending := true) else r.live[k])
            && s.sending[k] == r.sending[k] + (if !r.closed && k in keys then 1 else 0)
            && (k in s.sent <==> k in r.sent || (!r.closed && k in keys))
            && s.closed == r.closed && s.dropped == r.dropped && s.draining == r.draining
  {
  }

  lemma DroppedOn(r: Registry, k: KeyId)
    ensures var s := EndDropped(r);
            var ends := !r.closed && DroppedAndIdle(r, k);
            && (k in s.live <==> k in r.live)
            && (k in r.live ==> s.live[k] == if ends then r.live[k].(ending := true) else r.live[k])
            && s.sending[k] == r.sending[k] + (if ends then 1 else 0)
            && (k in s.sent <==> k in r.sent || ends)
            && s.closed == r.closed && s.dropped == [] && s.draining == r.draining
  {
    hide EndAll;
    AllOn(r.(dropped := []), DroppedKeys(r), k);
  }

  lemma BeginOn(r: Registry, k: KeyId)
    ensures var s := Begin(r);
            var ends := !r.closed && DroppedAndIdle(r, k);
            && (k in s.live <==> k in r.live)
            && (k in r.live ==> s.live[k] == if ends then r.live[k].(ending := true) else r.live[k])
            && s.sending[k] == r.sending[k] + (if ends then 1 else 0)
            && (k in s.sent <==> k in r.sent || ends)
            && s.closed == r.closed && s.dropped == [] && s.draining == r.draining
  {
    hide EndDropped;
    DroppedOn(r.(inflight := r.inflight + 1), k);
  }

  lemma PrepareOn(r: Registry, user: User, now: real, k: KeyId)
    requires !r.closed
    ensures var s := Prepare(r, user, now);
            var kept := k in r.live && now < r.live[k].expiresAt;
            var ends := kept && !r.live[k].ending
                        && (r.live[k].owner in r.dropped || (r.live[k].user == user && r.live[k].endFailed));
            && (k in s.live <==> kept)
            && (kept ==> s.live[k] == if ends then r.live[k].(ending := true) else r.live[k])
            && s.sending[k] == r.sending[k] + (if ends then 1 else 0)
            && (k in s.sent <==> k in r.sent || ends)
            && s.closed == r.closed && s.dropped == [] && s.draining == r.draining
  {
    hide EndDropped, EndAll;
    var pruned := r.(inflight := r.inflight + 1, live := Unexpired(r.live, now));
    var ended := EndDropped(pruned);
    DroppedOn(pruned, k);
    AllOn(ended, FailedKeys(ended, user), k);
  }

  lemma SendOn(r: Registry, i: KeyId, k: KeyId)
    requires !r.closed
    ensures var s := SendEnd(r, i);
            var ends := DroppedAndIdle(r, k);
            && (k in s.live <==> k in r.live)
            && (k in r.live ==> s.live[k] == if ends then r.live[k].(ending := true) else r.live[k])
            && s.sending[k] == r.sending[k] + (if ends then 1 else 0) + (if i == k then 1 else 0)
            && (k in s.sent <==> k in r.sent || ends || i == k)
            && s.closed == r.closed && s.dropped == [] && s.draining == r.draining
  {
    hide EndDropped;
    DroppedOn(Sent(r, i), k);
  }

  lemma EndOn(r: Registry, i: KeyId, k: KeyId)
    requires !r.closed && !(i in r.live && r.live[i].ending)
    ensures var s := EndKey(r, i);
            var ends := DroppedAndIdle(r, k);
            && (k in s.live <==> k in r.live)
            && (k in r.live ==> s.live[k] == if ends || i == k then r.live[k].(ending := true) else r.live[k])
            && s.sending[k] == r.sending[k] + (if ends then 1 else 0) + (if i == k then 1 else 0)
            && (k in s.sent <==> k in r.sent || ends || i == k)
            && s.closed == r.closed && s.dropped == [] && s.draining == r.draining
  {
    hide SendEnd;
    SendOn(r, i, k);
    SendOn(r, i, i);
  }

  lemma ClosedSends(r: Registry, i: KeyId)
    requires r.closed
    ensures EndKey(r, i) == r && SendEnd(r, i) == r
  {
  }

  // ---- the steps -----------------------------------------------------------

  predicate Calls(step: Step) {
    step.CallBegin? || step.MintBegin? || step.MintAsk? || step.MintDiscard? || step.SessionEnd?
  }

  // What the registry has of a key after a step that makes calls.
  ghost predicate Called(before: Registry, after: Registry, step: Step, k: KeyId, sends: nat) {
    && (k in after.live <==> k in before.live && !(step.MintBegin? && before.live[k].expiresAt <= step.now))
    && (k in after.live ==>
          after.live[k] == if sends > 0 then before.live[k].(ending := true) else before.live[k])
    && after.sending[k] == before.sending[k] + sends
    && (k in after.sent <==> k in before.sent || sends > 0)
    && after.closed == before.closed
  }

  lemma AskOn(c: Client, job: JobId, k: KeyId)
    requires Enabled(c, MintAsk(job)) && !c.reg.closed
    ensures Called(c.reg, Next(c, MintAsk(job)).reg, MintAsk(job), k, Sends(c, MintAsk(job), k))
  {
    hide Begin, DroppedAndIdle;
    BeginOn(c.reg, k);
  }

  lemma DiscardOn(c: Client, job: JobId, k: KeyId)
    requires Inv(c) && Enabled(c, MintDiscard(job)) && !c.reg.closed
    ensures Called(c.reg, Next(c, MintDiscard(job)).reg, MintDiscard(job), k, Sends(c, MintDiscard(job), k))
  {
    hide Inv, SendEnd;
    SendOn(c.reg, c.jobs.arrived[job].key, k);
    E.ArrivedApart(c, job);
  }

  lemma SessionEndOn(c: Client, i: KeyId, k: KeyId)
    requires Enabled(c, SessionEnd(i)) && !c.reg.closed
    ensures Called(c.reg, Next(c, SessionEnd(i)).reg, SessionEnd(i), k, Sends(c, SessionEnd(i), k))
  {
    hide SendEnd, Leased, Held;
    if i in c.reg.live && c.reg.live[i].ending {
      assert EndKey(c.reg, i) == c.reg;
    } else {
      EndOn(c.reg, i, k);
    }
  }

  lemma MintBeginOn(c: Client, step: Step, k: KeyId)
    requires Enabled(c, step) && step.MintBegin?
    ensures Called(c.reg, Next(c, step).reg, step, k, Sends(c, step, k))
  {
    hide Prepare, Minting, Ending;
    PrepareOn(c.reg, step.user, step.now, k);
  }

  lemma CallsOn(c: Client, step: Step, k: KeyId)
    requires Inv(c) && Enabled(c, step) && Calls(step) && !c.reg.closed
    ensures Called(c.reg, Next(c, step).reg, step, k, Sends(c, step, k))
  {
    hide Inv, Called, Next, Sends, Enabled;
    match step
    case CallBegin(job) => CallBeginOn(c, job, k);
    case MintBegin(_, _, _, _) => MintBeginOn(c, step, k);
    case MintAsk(job) => AskOn(c, job, k);
    case MintDiscard(job) => DiscardOn(c, job, k);
    case SessionEnd(i) => SessionEndOn(c, i, k);
  }

  lemma CallBeginOn(c: Client, job: JobId, k: KeyId)
    requires Enabled(c, CallBegin(job))
    ensures Called(c.reg, Next(c, CallBegin(job)).reg, CallBegin(job), k, Sends(c, CallBegin(job), k))
  {
    hide Begin;
    BeginOn(c.reg, k);
  }

  /**
    An end of a key is sent by a session that ends it, unless one is under way; by a mint
    it arrives expired for; by a mint of its user, if an earlier end of it failed; and, if
    its owner was dropped, by whatever makes a call: each once, on an open client, and by
    nothing else. It is on the wire until it is answered.
   */
  lemma EndsChangeBy(c: Client, step: Step, k: KeyId)
    requires Inv(c) && Enabled(c, step)
    ensures var before, after := c.reg, Next(c, step).reg;
            var answered := if step.EndReply? && step.key == k then 1 else 0;
            && after.sending[k] + answered == before.sending[k] + Sends(c, step, k)
            && (k in after.sent <==> k in before.sent || Sends(c, step, k) > 0)
            && after.closed == (before.closed || step.Close?)
  {
    hide Inv, Begin, Prepare, SendEnd, EndKey, Unexpired, Leased, Held, Minting, Ending, Recorded, DroppedAndIdle;
    if Calls(step) && !c.reg.closed {
      CallsOn(c, step, k);
    } else if step.SessionEnd? {
      ClosedSends(c.reg, step.key);
    }
  }

  /**
    A key is registered by its mint, with its user, owner and expiry, and no end of it
    failed or under way; it goes as the end that left nothing of it is recorded, at a mint
    once it has expired, and with the sweep. An end that is sent marks it, and a refusal
    recorded unmarks it and leaves it to be tried again. Nothing else of it changes.
   */
  lemma LiveChangesBy(c: Client, step: Step, k: KeyId)
    requires Inv(c) && Enabled(c, step)
    ensures var before, after := c.reg.live, Next(c, step).reg.live;
            var registered := step.MintRegister? && c.jobs.arrived[step.job].key == k;
            var refused := step == EndRecord(k, false);
            && (k in after <==>
                  || registered
                  || (k in before && !(step.MintBegin? && before[k].expiresAt <= step.now)
                      && step != EndRecord(k, true) && !step.Sweep?))
            && (registered ==>
                  var a := c.jobs.arrived[step.job];
                  after[k] == LiveKey(a.user, step.expiresAt, a.owner, false, false))
            && (k in after && !registered ==>
                  && after[k].user == before[k].user && after[k].owner == before[k].owner
                  && after[k].expiresAt == before[k].expiresAt
                  && after[k].endFailed == (before[k].endFailed || refused)
                  && after[k].ending == (!refused && (before[k].ending || Sends(c, step, k) > 0)))
  {
    hide Inv, Begin, Prepare, SendEnd, EndKey, Unexpired, Leased, Held, Minting, Ending, Recorded, DroppedAndIdle;
    if Calls(step) && !c.reg.closed {
      CallsOn(c, step, k);
    } else if step.SessionEnd? {
      ClosedSends(c.reg, step.key);
    }
  }

  // The step makes a call, which empties the queue on its way.
  predicate Empties(c: Client, step: Step)
    requires Enabled(c, step)
  {
    match step
    case CallBegin(_) => true
    case MintBegin(_, _, _, _) => true
    case MintAsk(job) => !c.jobs.waiting[job].discarding
    case MintDiscard(_) => true
    case SessionEnd(key) => !(key in c.reg.live && c.reg.live[key].ending)
    case _ => false
  }

  /** A dropped owner is queued, on an open client, until the next call. */
  lemma DroppedChangesBy(c: Client, step: Step)
    requires Enabled(c, step)
    ensures Next(c, step).reg.dropped ==
            if c.reg.closed then c.reg.dropped
            else if step.Drop? then c.reg.dropped + [step.owner]
            else if Empties(c, step) then []
            else c.reg.dropped
  {
    hide Begin, Prepare, SendEnd, EndKey, Unexpired, Leased, Held, Minting, Ending, Recorded;
    BeginOn(c.reg, 0);
    match step
    case MintBegin(_, user, _, now) => PrepareOn(c.reg, user, now, 0);
    case MintDiscard(job) =>
      if !c.reg.closed {
        SendOn(c.reg, c.jobs.arrived[job].key, 0);
      }
    case SessionEnd(i) =>
      if c.reg.closed {
        ClosedSends(c.reg, i);
      } else if i in c.reg.live && c.reg.live[i].ending {
        UnderWay(c.reg, i);
      } else {
        EndOn(c.reg, i, 0);
      }
    case _ =>
  }

  lemma UnderWay(r: Registry, i: KeyId)
    requires i in r.live && r.live[i].ending
    ensures EndKey(r, i) == r
  {
  }

  // ---- calls and mints -----------------------------------------------------

  /** A call is in flight from when it begins until it ends, and leases the key it last got, if any. */
  lemma CallsChangeBy(c: Client, step: Step, job: JobId)
    requires Enabled(c, step)
    ensures var before, after := c.jobs.calls, Next(c, step).jobs.calls;
            && (job in after <==> step == CallBegin(job) || (job in before && step != CallEnd(job)))
            && (job in after ==>
                  after[job] == if step == CallBegin(job) then None
                                else if step.CallLease? && step.job == job then Some(step.key)
                                else before[job])
  {
    hide Begin, Prepare, Register, Record, SendEnd, EndKey, Shut, Finish, Unexpired, Ending, Recorded, Held, Leased,
         Minting;
  }

  /**
    A mint waits, asks, and has its answer on the way, in that order. It asks on an open
    client, unless it only waited to end what it got; what it got is registered, or, if it
    arrived expired, ended on an open client, for which the mint waits again.
   */
  lemma MintsChangeBy(c: Client, step: Step, job: JobId)
    requires Enabled(c, step)
    ensures var before, after := c.jobs, Next(c, step).jobs;
            var begins := step.MintBegin? && step.job == job;
            var discards := step == MintDiscard(job) && !c.reg.closed;
            var asks := step == MintAsk(job) && !before.waiting[job].discarding && !c.reg.closed;
            var answered := step.MintReply? && step.job == job;
            && (job in after.waiting <==> begins || discards || (job in before.waiting && step != MintAsk(job)))
            && (begins ==> after.waiting[job] == Waiting(step.user, step.owner, false))
            && (discards ==>
                  after.waiting[job] == Waiting(before.arrived[job].user, before.arrived[job].owner, true))
            && (job in after.asking <==>
                  asks || (job in before.asking && step != MintFailed(job) && !answered))
            && (asks ==> after.asking[job] == before.waiting[job])
            && (job in after.arrived <==>
                  || answered
                  || (job in before.arrived && step != MintDiscard(job)
                      && !(step.MintRegister? && step.job == job)))
            && (answered ==> after.arrived[job] == Arrival(before.asking[job].user, before.asking[job].owner, step.key))
  {
    hide Begin, Prepare, Register, Record, SendEnd, EndKey, Shut, Finish, Unexpired, Ending, Recorded, Held, Leased,
         Minting;
  }

  /** A key is issued by a mint's answer, registered by the mint, and handed over by its session. */
  lemma KeysChangeBy(c: Client, step: Step, k: KeyId, owner: Owner)
    requires Enabled(c, step)
    ensures var before, after := c.keys, Next(c, step).keys;
            var registered := step.MintRegister? && c.jobs.arrived[step.job].key == k;
            && (k in after.issued <==> k in before.issued || (step.MintReply? && step.key == k))
            && (step.MintReply? && step.key == k ==> after.issued[k] == c.jobs.asking[step.job].owner)
            && (k in after.registered <==> k in before.registered || registered)
            && (registered ==> after.registered[k] == step.expiresAt)
            && (k in after.handed <==> k in before.handed || step == SessionEnd(k))
            && (owner in after.collected <==> owner in before.collected || step == Drop(owner))
  {
    hide Begin, Prepare, Register, Record, SendEnd, EndKey, Shut, Finish, Unexpired, Ending, Recorded, Held, Leased,
         Minting;
  }

  /** An answer to an end is there from the reply until it is recorded, and a key once confirmed gone stays so. */
  lemma AnswersChangeBy(c: Client, step: Step, k: KeyId)
    requires Enabled(c, step)
    ensures var before, after := c.ends, Next(c, step).ends;
            && after.gone[k] + (if step == EndRecord(k, true) then 1 else 0) ==
               before.gone[k] + (if step == EndReply(k, true) then 1 else 0)
            && after.refused[k] + (if step == EndRecord(k, false) then 1 else 0) ==
               before.refused[k] + (if step == EndReply(k, false) then 1 else 0)
            && (k in after.confirmed <==> k in before.confirmed || step == EndReply(k, true))
  {
    hide Begin, Prepare, Register, Record, SendEnd, EndKey, Shut, Finish, Unexpired, Ending, Recorded, Held, Leased,
         Minting;
  }

  /**
    What is counted in flight is every call, every mint, once more while its request is with
    the service, and every end, once more while it is on the wire, until it is recorded; and
    a closed client waits exactly while there is any of these.
   */
  lemma CountedExactly(c: Client)
    requires K.Reachable(c)
    ensures c.reg.inflight ==
            |c.jobs.calls| + |c.jobs.waiting| + 2 * |c.jobs.asking| + |c.jobs.arrived|
            + 2 * |c.reg.sending| + |c.ends.gone| + |c.ends.refused|
    ensures c.reg.draining <==>
            c.reg.closed &&
            !(c.jobs == Jobs(map[], map[], map[], map[]) && c.reg.sending == multiset{}
                && c.ends.gone == multiset{} && c.ends.refused == multiset{})
  {
    hide Single, Marking, NoneAfterConfirmed, Logged, HeldUntouched, Known, Issued, Gone, LeasesHeld, Arriving, Kept;
    K.ReachableKeeps(c);
  }
}
