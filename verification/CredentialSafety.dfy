/** What every run of the credential holder keeps, and what follows from it. */
module CredentialSafety {
  import opened Wrappers
  import opened CredentialTiming
  import opened CredentialMachine

  // ---- the invariant, step by step ----------------------------------------

  lemma UsingGrows(leases: map<CallId, nat>, call: CallId, i: nat, j: nat)
    requires call !in leases
    ensures |Using(leases[call := i], j)| == |Using(leases, j)| + (if i == j then 1 else 0)
  {
    assert Using(leases[call := i], j) == Using(leases, j) + (if i == j then {call} else {});
  }

  lemma UsingShrinks(leases: map<CallId, nat>, call: CallId, j: nat)
    requires call in leases
    ensures |Using(leases, j)| == |Using(leases - {call}, j)| + (if leases[call] == j then 1 else 0)
  {
    assert Using(leases, j) == Using(leases - {call}, j) + (if leases[call] == j then {call} else {});
  }

  lemma LeasedIsUsed(minted: seq<Credential>, leases: map<CallId, nat>, call: CallId)
    requires Counted(minted, leases) && call in leases
    ensures minted[leases[call]].users > 0
  {
    UsingShrinks(leases, call, leases[call]);
  }

  /** Every step can be taken from a state the invariant holds in. */
  lemma InvInRange(h: Holder)
    requires Inv(h)
    ensures InRange(h)
  {
    forall call | call in h.leases ensures h.minted[h.leases[call]].users > 0 {
      LeasedIsUsed(h.minted, h.leases, call);
    }
  }

  // Leasing what is held counts one more user of it, and changes nothing else.
  lemma GrantKeeps(h: Holder, call: CallId)
    requires Inv(h) && h.current.Some? && call !in h.leases && call !in h.waiters && !h.collected
    ensures h.current.value < |h.minted| && Inv(Grant(h, call, h.current.value))
  {
    var c := h.current.value;
    var g := Grant(h, call, c);
    forall j | 0 <= j < |g.minted| ensures g.minted[j].users == |Using(g.leases, j)| {
      UsingGrows(h.leases, call, c, j);
    }
    assert Counted(g.minted, g.leases);
    assert Disposed(g.minted, g.current, g.ended);
  }

  // `Disposed` before a retirement: `next`, which nothing uses yet, is about to be held.
  ghost predicate DisposedBut(minted: seq<Credential>, current: Option<nat>, ended: seq<nat>, next: Option<nat>) {
    && (current.Some? ==> current.value < |minted| && !minted[current.value].retired && current.value !in ended)
    && (forall i :: 0 <= i < |minted| && minted[i].users > 0 && current != Some(i) ==> minted[i].retired)
    && (forall k :: 0 <= k < |ended| ==> ended[k] < |minted|)
    && (forall i :: 0 <= i < |minted| ==>
          (i in ended <==> current != Some(i) && next != Some(i) && minted[i].users == 0))
    && NoDuplicates(ended)
    && (next.Some? ==>
          next.value < |minted| && next != current && !minted[next.value].retired && minted[next.value].users == 0)
  }

  lemma HoldKeeps(h: Holder, next: Option<nat>)
    requires Counted(h.minted, h.leases) && Timed(h.minted, h.clock)
    requires DisposedBut(h.minted, h.current, h.ended, next)
    ensures var g := Hold(h, next);
            Counted(g.minted, g.leases) && Timed(g.minted, g.clock) && Disposed(g.minted, g.current, g.ended)
  {
    HeldInRange(h, next);
    hide Counted, Timed, Disposed, DisposedBut;
    if h.current.Some? {
      Retires(h.minted, h.current.value, h.ended, next);
      RetiringCounts(h.minted, h.leases, h.current.value);
      RetiringTimed(h.minted, h.clock, h.current.value);
    }
  }

  lemma HeldInRange(h: Holder, next: Option<nat>)
    requires DisposedBut(h.minted, h.current, h.ended, next)
    ensures if h.current.Some? then h.current.value < |h.minted| else Disposed(h.minted, next, h.ended)
  {
  }

  lemma RetiringCounts(minted: seq<Credential>, leases: map<CallId, nat>, i: nat)
    requires Counted(minted, leases) && i < |minted|
    ensures Counted(minted[i := minted[i].(retired := true)], leases)
  {
    hide Using;
  }

  lemma RetiringTimed(minted: seq<Credential>, clock: real, i: nat)
    requires Timed(minted, clock) && i < |minted|
    ensures Timed(minted[i := minted[i].(retired := true)], clock)
  {
  }

  lemma Retires(minted: seq<Credential>, c: nat, ended: seq<nat>, next: Option<nat>)
    requires DisposedBut(minted, Some(c), ended, next)
    ensures Disposed(minted[c := minted[c].(retired := true)], next,
                     if minted[c].users == 0 then ended + [c] else ended)
  {
    var retired := minted[c := minted[c].(retired := true)];
    var after := if minted[c].users == 0 then ended + [c] else ended;
    forall i | 0 <= i < |retired| ensures i in after <==> next != Some(i) && retired[i].users == 0 {
      assert i in after <==> i in ended || (i == c && minted[c].users == 0);
    }
  }

  // A fresh credential joins the account as one nothing uses, and not yet held.
  lemma ArrivalCounts(h: Holder, issue: Issue)
    requires Inv(h) && WellTimed(issue) && (issue.StaticToken? || issue.received <= h.clock)
    ensures var arrived := h.minted + [Minted(issue)];
            Counted(arrived, h.leases) && Timed(arrived, h.clock) &&
            DisposedBut(arrived, h.current, h.ended, Some(|h.minted|))
  {
    var arrived := h.minted + [Minted(issue)];
    assert Using(h.leases, |h.minted|) == {};
    assert forall i :: 0 <= i < |h.minted| ==> arrived[i] == h.minted[i];
  }

  lemma ArrivalKeeps(h: Holder, issue: Issue)
    requires Inv(h) && !h.collected && WellTimed(issue) && (issue.StaticToken? || issue.received <= h.clock)
    ensures Inv(AfterArrival(h, issue))
  {
    var n := |h.minted|;
    ArrivalCounts(h, issue);
    if h.closed {
      assert Disposed(h.minted + [Minted(issue)], None, h.ended + [n]);
    } else {
      HoldKeeps(h.(minted := h.minted + [Minted(issue)]), Some(n));
    }
  }

  lemma FinishKeeps(h: Holder, outcome: Outcome, now: real)
    requires Inv(h) && Enabled(h, FinishMint(outcome, now))
    ensures Inv(Next(h, FinishMint(outcome, now)))
  {
    var failure := if outcome.Failed? then Some(outcome.failure) else None;
    var done := h.(minting := false, flights := 0, outcomes := h.outcomes + [failure],
                   waiters := NotifyAll(h.waiters), clock := now);
    assert Woken(NotifyAll(h.waiters), |done.outcomes|, false, h.closed);
    assert Inv(done);
    if outcome.Fresh? {
      ArrivalKeeps(done, outcome.issue);
    }
  }

  lemma WaitKeeps(h: Holder, call: CallId)
    requires Inv(h) && h.minting && !h.closed && call !in h.leases && !h.collected
    ensures Inv(h.(waiters := h.waiters[call := Waiter(|h.outcomes|, false)]))
  {
    assert Woken(h.waiters[call := Waiter(|h.outcomes|, false)], |h.outcomes|, true, false);
  }

  lemma LeaveKeeps(h: Holder, call: CallId, now: real)
    requires Inv(h) && h.clock <= now
    ensures Inv(h.(waiters := h.waiters - {call}, clock := now))
  {
    assert Timed(h.minted, now);
    assert Woken(h.waiters - {call}, |h.outcomes|, h.minting, h.closed);
  }

  lemma LaterKeeps(h: Holder, now: real)
    requires Inv(h) && h.clock <= now
    ensures Inv(h.(clock := now))
  {
    assert Timed(h.minted, now);
  }

  lemma RenewingKeeps(h: Holder)
    requires Inv(h) && !h.closed && !h.collected
    ensures Inv(Renewing(h)) && Renewing(h).minting
  {
    assert Woken(h.waiters, |h.outcomes|, true, false);
  }

  lemma LeaseKeeps(h: Holder, call: CallId, first: real, second: real)
    requires Inv(h) && Enabled(h, Lease(call, first, second))
    ensures Inv(Next(h, Lease(call, first, second)))
  {
    LaterKeeps(h, second);
    var later := h.(clock := second);
    if !h.closed {
      RenewingKeeps(later);
      LeaseForms(h, call, first, second);
      if AfterLease(h, call, first, second).1.Leased? {
        GrantKeeps(later, call);
        GrantKeeps(Renewing(later), call);
      } else {
        WaitKeeps(Renewing(later), call);
      }
    }
  }

  lemma LeaseForms(h: Holder, call: CallId, first: real, second: real)
    requires Enabled(h, Lease(call, first, second)) && !h.closed
    ensures var g, later := Next(h, Lease(call, first, second)), h.(clock := second);
            if AfterLease(h, call, first, second).1.Leased? then
              h.current.Some? &&
              (g == Grant(later, call, h.current.value) || g == Grant(Renewing(later), call, h.current.value))
            else g == Renewing(later).(waiters := h.waiters[call := Waiter(|h.outcomes|, false)])
  {
  }

  lemma ResumeKeeps(h: Holder, call: CallId, now: real)
    requires Inv(h) && Enabled(h, Resume(call, now))
    ensures Inv(Next(h, Resume(call, now)))
  {
    LeaveKeeps(h, call, now);
    match AfterResume(h, call, now).1
    case Leased(_) => GrantKeeps(h.(waiters := h.waiters - {call}, clock := now), call);
    case Waits => WaitKeeps(h.(clock := now), call);
    case _ =>
  }

  lemma ReleaseKeeps(h: Holder, call: CallId)
    requires Inv(h) && Enabled(h, Release(call))
    ensures Inv(Next(h, Release(call)))
  {
    hide Using, Counted, Disposed, Timed, Woken;
    ReleaseDisposes(h.minted, h.current, h.ended, h.leases[call]);
    ReleaseCounts(h.minted, h.leases, call);
    UsersUntimed(h.minted, h.clock, h.leases[call], h.minted[h.leases[call]].users - 1);
  }

  lemma UsersUntimed(minted: seq<Credential>, clock: real, i: nat, users: nat)
    requires Timed(minted, clock) && i < |minted|
    ensures Timed(minted[i := minted[i].(users := users)], clock)
  {
  }

  lemma ReleaseDisposes(minted: seq<Credential>, current: Option<nat>, ended: seq<nat>, i: nat)
    requires Disposed(minted, current, ended) && i < |minted| && minted[i].users > 0
    ensures var left := minted[i].users - 1;
            Disposed(minted[i := minted[i].(users := left)], current,
                     if minted[i].retired && left == 0 then ended + [i] else ended)
  {
  }

  lemma ReleaseCounts(minted: seq<Credential>, leases: map<CallId, nat>, call: CallId)
    requires Counted(minted, leases) && call in leases && minted[leases[call]].users > 0
    ensures var i := leases[call];
            Counted(minted[i := minted[i].(users := minted[i].users - 1)], leases - {call})
  {
    hide Using;
    forall j | 0 <= j < |minted|
      ensures |Using(leases, j)| == |Using(leases - {call}, j)| + (if leases[call] == j then 1 else 0)
    {
      UsingShrinks(leases, call, j);
    }
  }

  lemma CloseKeeps(h: Holder)
    requires Inv(h) && Enabled(h, Close)
    ensures Inv(Next(h, Close))
  {
    if !h.closed {
      assert DisposedBut(h.minted, h.current, h.ended, None);
      HoldKeeps(h.(closed := true, waiters := NotifyAll(h.waiters)), None);
    }
  }

  /** Every interleaving keeps the invariant. */
  lemma StepKeeps(h: Holder, step: Step)
    requires Inv(h) && Enabled(h, step)
    ensures Inv(Next(h, step))
  {
    match step
    case Lease(call, first, second) => LeaseKeeps(h, call, first, second);
    case Resume(call, now) => ResumeKeeps(h, call, now);
    case GiveUp(call) =>
    case Release(call) => ReleaseKeeps(h, call);
    case FinishMint(outcome, now) => FinishKeeps(h, outcome, now);
    case Close => CloseKeeps(h);
    case Collect =>
  }

  lemma {:induction false} RunKeeps(h: Holder, steps: seq<Step>)
    requires Inv(h) && Legal(h, steps)
    ensures Inv(Run(h, steps))
    decreases |steps|
  {
    if steps != [] {
      StepKeeps(h, steps[0]);
      RunKeeps(Next(h, steps[0]), steps[1..]);
    }
  }

  // A state some run of a new holder ends in.
  ghost predicate Reachable(h: Holder) {
    exists watched, steps :: Legal(Init(watched), steps) && Run(Init(watched), steps) == h
  }

  lemma ReachableKeeps(h: Holder)
    requires Reachable(h)
    ensures Inv(h) && InRange(h)
  {
    var watched, steps :| Legal(Init(watched), steps) && Run(Init(watched), steps) == h;
    RunKeeps(Init(watched), steps);
    InvInRange(h);
  }

  lemma {:induction false} RunStep(h: Holder, steps: seq<Step>, step: Step)
    requires Legal(h, steps) && Enabled(Run(h, steps), step)
    ensures Legal(h, steps + [step]) && Run(h, steps + [step]) == Next(Run(h, steps), step)
    decreases |steps|
  {
    if steps == [] {
      assert Legal(Next(h, step), []);
      assert [step][1..] == [];
    } else {
      RunStep(Next(h, steps[0]), steps[1..], step);
      assert (steps + [step])[1..] == steps[1..] + [step];
    }
  }

  // ---- what holds of every run ---------------------------------------------

  // Where a credential a mint returned can be. Each says what happened to it, not what did not.
  ghost predicate Held(h: Holder, i: nat) { h.current == Some(i) && !h.collected }

  ghost predicate Draining(h: Holder, i: nat) {
    i < |h.minted| && h.minted[i].retired && exists call :: call in h.leases && h.leases[call] == i
  }

  ghost predicate EndedOnce(h: Holder, i: nat) { multiset(h.ended)[i] == 1 }

  ghost predicate QueuedOnce(h: Holder, i: nat) { h.collected && multiset(h.queued)[i] == 1 }

  ghost predicate ExactlyOne(a: bool, b: bool, c: bool, d: bool) {
    && (a || b || c || d)
    && !(a && b) && !(a && c) && !(a && d) && !(b && c) && !(b && d) && !(c && d)
  }

  lemma {:induction false} OccursOnce(s: seq<nat>, i: nat)
    requires NoDuplicates(s)
    ensures multiset(s)[i] == (if i in s then 1 else 0)
  {
    if s != [] {
      var last := |s| - 1;
      assert s == s[..last] + [s[last]];
      OccursOnce(s[..last], i);
    }
  }

  lemma InUse(h: Holder, i: nat)
    requires Inv(h) && i < |h.minted|
    ensures h.minted[i].users > 0 <==> exists call :: call in h.leases && h.leases[call] == i
  {
    if h.minted[i].users > 0 {
      assert Using(h.leases, i) != {};
      var call :| call in Using(h.leases, i);
    }
    if call :| call in h.leases && h.leases[call] == i {
      LeasedIsUsed(h.minted, h.leases, call);
    }
  }

  /**
    Conservation of disposal. After any run, each credential ever minted is
    held, draining, ended once or queued once, and never two of these; nothing
    is ended more than once, or while a lease of it is open.
   */
  lemma EachCredentialInOnePlace(h: Holder, i: nat)
    requires Reachable(h) && h.watched && i < |h.minted|
    ensures ExactlyOne(Held(h, i), Draining(h, i), EndedOnce(h, i), QueuedOnce(h, i))
    ensures multiset(h.ended)[i] <= 1
    ensures i in h.ended ==> forall call :: call in h.leases ==> h.leases[call] != i
  {
    ReachableKeeps(h);
    OccursOnce(h.ended, i);
    InUse(h, i);
  }

  /** After close, once no lease is open and no mint runs, every credential has been ended. */
  lemma ClosedAndIdleMeansAllEnded(h: Holder, i: nat)
    requires Reachable(h) && i < |h.minted|
    requires h.closed && h.leases == map[] && h.flights == 0
    ensures EndedOnce(h, i)
  {
    ReachableKeeps(h);
    OccursOnce(h.ended, i);
    InUse(h, i);
  }

  lemma StepOnlyAppends(h: Holder, step: Step)
    requires Inv(h) && Enabled(h, step)
    ensures h.ended <= Next(h, step).ended
    ensures |h.minted| <= |Next(h, step).minted|
  {
    if step.Lease? && !h.closed {
      LeaseForms(h, step.call, step.first, step.second);
    }
  }

  /** What was handed over stays handed over, once, and is never leased again. */
  lemma {:induction false} EndedIsFinal(h: Holder, steps: seq<Step>, i: nat)
    requires Inv(h) && Legal(h, steps) && i in h.ended
    ensures var later := Run(h, steps);
            && h.ended <= later.ended
            && multiset(later.ended)[i] == 1
            && forall call :: call in later.leases ==> later.leases[call] != i
    decreases |steps|
  {
    if steps == [] {
      OccursOnce(h.ended, i);
      InUse(h, i);
    } else {
      StepKeeps(h, steps[0]);
      StepOnlyAppends(h, steps[0]);
      EndedIsFinal(Next(h, steps[0]), steps[1..], i);
    }
  }

  function ReplyTo(h: Holder, step: Step): Reply
    requires Enabled(h, step) && (step.Lease? || step.Resume?)
  {
    if step.Lease? then AfterLease(h, step.call, step.first, step.second).1
    else AfterResume(h, step.call, step.now).1
  }

  // The reading a caller is given the credential on: past its renewal point, that is the second.
  function AdmittedAt(held: Credential, step: Step): real
    requires step.Lease? || step.Resume?
  {
    if step.Resume? then step.now else if Before(step.first, held.renewAt) then step.first else step.second
  }

  /**
    A credential handed to a caller is the one held, not retired, unexpired at
    the reading that admitted it, and honoured by the service too where the
    service counts its lifetime; one that arrived expired is never handed out.
   */
  lemma YieldedIsHeldAndHonoured(h: Holder, step: Step)
    requires Reachable(h) && Enabled(h, step) && (step.Lease? || step.Resume?) && ReplyTo(h, step).Leased?
    ensures var i := ReplyTo(h, step).credential;
            && h.current == Some(i) && Next(h, step).current == Some(i)
            && i < |h.minted| && !h.minted[i].retired
            && Next(h, step).leases == h.leases[step.call := i]
            && var issue, now := h.minted[i].issue, AdmittedAt(h.minted[i], step);
               && Before(now, Expires(issue))
               && (CountedByService(issue) ==> HonouredByService(issue, now))
               && Alive(issue)
  {
    hide Counted, Woken, Reachable, Lifetime, RenewAt, Expires, WellTimed, HonouredByService;
    ReachableKeeps(h);
    AdmittedIsHonoured(h.minted[h.current.value].issue, AdmittedAt(h.minted[h.current.value], step));
  }

  lemma AdmittedIsHonoured(issue: Issue, now: real)
    requires WellTimed(issue) && (issue.StaticToken? || issue.received <= now)
    requires Before(now, RenewAt(issue)) || Before(now, Expires(issue))
    ensures Before(now, Expires(issue))
    ensures CountedByService(issue) ==> HonouredByService(issue, now)
    ensures Alive(issue)
  {
    hide Lifetime, RenewAt, WellTimed, HonouredByService;
    if !issue.StaticToken? {
      NothingSkewedPasses(issue, now);
      if CountedByService(issue) {
        UnexpiredHereIsUnexpiredThere(issue, now);
      }
    }
  }

  /** A lease waits exactly when the holder is open and holds nothing still honoured. */
  lemma WaitsOnlyForNothingHonoured(h: Holder, call: CallId, first: real, second: real)
    requires Reachable(h) && Enabled(h, Lease(call, first, second))
    ensures ReplyTo(h, Lease(call, first, second)) == Waits <==>
            !h.closed && (h.current.Some? ==> !Before(second, h.minted[h.current.value].expires) &&
                                              !Before(first, h.minted[h.current.value].renewAt))
    ensures var g := Next(h, Lease(call, first, second));
            ReplyTo(h, Lease(call, first, second)) == Waits ==> g.minting && g.flights == 1
  {
    ReachableKeeps(h);
  }

  /**
    No lost wakeup: after any run, a call in the wait loop has either been
    notified, and then leaves the loop as it next runs, or is waiting on the one
    mint there is, whose finish, like a close, notifies it.
   */
  lemma NoLostWakeup(h: Holder, call: CallId, now: real)
    requires Reachable(h) && call in h.waiters && h.clock <= now
    ensures InRange(h) && Enabled(h, Resume(call, now))
    ensures h.waiters[call].woken <==> ReplyTo(h, Resume(call, now)) != Waits
    ensures !h.waiters[call].woken ==>
              && h.flights == 1
              && AfterClose(h).waiters[call].woken
              && forall outcome :: AfterFinish(h, outcome, now).waiters[call].woken
  {
    ReachableKeeps(h);
  }

  /** One mint at a time: whatever the interleaving, a second is never started beside a first. */
  lemma OneMintAtATime(h: Holder)
    requires Reachable(h)
    ensures h.flights <= 1
    ensures forall call :: call in h.waiters && h.waiters[call].seen == |h.outcomes| && !h.closed ==> h.minting
  {
    ReachableKeeps(h);
  }

  // What is held came from a mint after the first `count`, or was already expired at `since`.
  ghost predicate HoldsLater(h: Holder, count: nat, since: real) {
    && count <= |h.minted| && since <= h.clock
    && (h.current.Some? ==>
          h.current.value < |h.minted| &&
          (h.current.value < count ==> !Before(since, h.minted[h.current.value].expires)))
  }

  // A wait that is still on was begun after the first `attempts` mints finished.
  ghost predicate WaitsLater(h: Holder, call: CallId, attempts: nat) {
    attempts <= |h.outcomes| && (call in h.waiters ==> attempts <= h.waiters[call].seen)
  }

  lemma HoldKeepsLater(h: Holder, next: Option<nat>, count: nat, since: real)
    requires HoldsLater(h, count, since)
    requires next.Some? ==> count <= next.value < |h.minted|
    ensures HoldsLater(Hold(h, next), count, since)
    ensures Hold(h, next).waiters == h.waiters && Hold(h, next).outcomes == h.outcomes
  {
    hide Before;
  }

  lemma ArrivalKeepsLater(h: Holder, issue: Issue, count: nat, since: real)
    requires HoldsLater(h, count, since)
    ensures HoldsLater(AfterArrival(h, issue), count, since)
    ensures AfterArrival(h, issue).waiters == h.waiters && AfterArrival(h, issue).outcomes == h.outcomes
  {
    hide Before, Hold, Minted;
    if !h.closed {
      HoldKeepsLater(h.(minted := h.minted + [Minted(issue)]), Some(|h.minted|), count, since);
    }
  }

  lemma GrantKeepsLater(h: Holder, call: CallId, i: nat, count: nat, since: real)
    requires HoldsLater(h, count, since) && i < |h.minted|
    ensures HoldsLater(Grant(h, call, i), count, since)
    ensures Grant(h, call, i).waiters == h.waiters && Grant(h, call, i).outcomes == h.outcomes
  {
    hide Before;
  }

  lemma LeaseKeepsLater(
      h: Holder, caller: CallId, first: real, second: real, call: CallId, count: nat, since: real, attempts: nat)
    requires h.clock <= second && HoldsLater(h, count, since) && WaitsLater(h, call, attempts)
    ensures HoldsLater(AfterLease(h, caller, first, second).0, count, since)
    ensures WaitsLater(AfterLease(h, caller, first, second).0, call, attempts)
  {
    hide Before, Grant;
    if h.current.Some? {
      GrantKeepsLater(h.(clock := second), caller, h.current.value, count, since);
      GrantKeepsLater(Renewing(h.(clock := second)), caller, h.current.value, count, since);
    }
  }

  lemma ResumeKeepsLater(h: Holder, caller: CallId, now: real, call: CallId, count: nat, since: real, attempts: nat)
    requires h.clock <= now && caller in h.waiters && h.waiters[caller].seen <= |h.outcomes|
    requires HoldsLater(h, count, since) && WaitsLater(h, call, attempts)
    ensures HoldsLater(AfterResume(h, caller, now).0, count, since)
    ensures WaitsLater(AfterResume(h, caller, now).0, call, attempts)
  {
    hide Before, Grant;
    if h.current.Some? {
      GrantKeepsLater(h.(clock := now, waiters := h.waiters - {caller}), caller, h.current.value, count, since);
    }
  }

  lemma StepKeepsLater(h: Holder, step: Step, call: CallId, count: nat, since: real, attempts: nat)
    requires Enabled(h, step) && HoldsLater(h, count, since) && WaitsLater(h, call, attempts)
    ensures HoldsLater(Next(h, step), count, since) && WaitsLater(Next(h, step), call, attempts)
  {
    hide Before, Hold, AfterArrival, AfterLease, AfterResume;
    match step
    case Lease(caller, first, second) => LeaseKeepsLater(h, caller, first, second, call, count, since, attempts);
    case Resume(caller, now) => ResumeKeepsLater(h, caller, now, call, count, since, attempts);
    case GiveUp(_) =>
    case Release(_) =>
    case FinishMint(outcome, now) =>
      if outcome.Fresh? {
        ArrivalKeepsLater(h.(minting := false, flights := h.flights - 1, outcomes := h.outcomes + [None],
                             waiters := NotifyAll(h.waiters), clock := now), outcome.issue, count, since);
      }
    case Close =>
      if !h.closed {
        HoldKeepsLater(h.(closed := true, waiters := NotifyAll(h.waiters)), None, count, since);
      }
    case Collect =>
  }

  lemma {:induction false} RunKeepsLater(
      h: Holder, steps: seq<Step>, call: CallId, count: nat, since: real, attempts: nat)
    requires Legal(h, steps) && HoldsLater(h, count, since) && WaitsLater(h, call, attempts)
    ensures HoldsLater(Run(h, steps), count, since) && WaitsLater(Run(h, steps), call, attempts)
    decreases |steps|
  {
    hide HoldsLater, WaitsLater, Next, Enabled;
    if steps != [] {
      StepKeepsLater(h, steps[0], call, count, since, attempts);
      RunKeepsLater(Next(h, steps[0]), steps[1..], call, count, since, attempts);
    }
  }

  /**
    A call that has to wait settles on a mint that finished after it arrived, or
    on the close, whatever happens meanwhile: the credential it is leased was
    minted after it arrived, and the failure it is raised is one that came later.
    It is raised one, or told of a skewed clock, only with nothing honoured held.
   */
  lemma WaiterUsesALaterMint(
      h: Holder, call: CallId, first: real, second: real, steps: seq<Step>, now: real)
    requires Reachable(h) && Enabled(h, Lease(call, first, second))
    requires ReplyTo(h, Lease(call, first, second)) == Waits
    requires Legal(Next(h, Lease(call, first, second)), steps)
    requires Enabled(Run(Next(h, Lease(call, first, second)), steps), Resume(call, now))
    ensures var later := Run(Next(h, Lease(call, first, second)), steps);
            match ReplyTo(later, Resume(call, now))
            case Leased(i) => |h.minted| <= i < |later.minted| && Before(now, later.minted[i].expires)
            case Waits => |later.outcomes| == later.waiters[call].seen && !later.closed
            case Closed => later.closed
            case Raised(failure) =>
              && (later.current.Some? ==> !Before(now, later.minted[later.current.value].expires))
              && |h.outcomes| < |later.outcomes| && later.outcomes[|later.outcomes| - 1] == Some(failure)
            case Skewed =>
              && (later.current.Some? ==> !Before(now, later.minted[later.current.value].expires))
              && |h.outcomes| < |later.outcomes| && later.outcomes[|later.outcomes| - 1] == None
  {
    hide Inv, Reachable;
    var waiting := Next(h, Lease(call, first, second));
    RunKeepsLater(waiting, steps, call, |h.minted|, second, |h.outcomes|);
  }

  // ---- what a mint comes to ------------------------------------------------

  // Credentials are what they were: only their users and whether they are retired may differ.
  ghost predicate SameIssues(before: seq<Credential>, after: seq<Credential>) {
    |before| <= |after| && forall i :: 0 <= i < |before| ==> after[i].issue == before[i].issue
  }

  /**
    What a mint returns to an open holder is held: it is the credential of every
    lease from then on that is served at once, whatever was held before is retired,
    and every call that waited and wakes before it expires is leased it.
   */
  lemma FreshIsHeld(h: Holder, issue: Issue, now: real)
    requires Reachable(h) && !h.closed && Enabled(h, FinishMint(Fresh(issue), now))
    ensures var g, n := Next(h, FinishMint(Fresh(issue), now)), |h.minted|;
            && !g.minting && !g.closed && |g.minted| == n + 1 && SameIssues(h.minted, g.minted)
            && g.current == Some(n) && g.minted[n].issue == issue && g.minted[n].users == 0 && !g.minted[n].retired
            && n !in g.ended && n !in g.queued && g.watching == (if g.watched then Some(n) else None)
            && (h.current.Some? ==>
                  && g.minted[h.current.value].retired
                  && (h.current.value in g.ended <==> h.minted[h.current.value].users == 0))
            && g.leases == h.leases && g.waiters.Keys == h.waiters.Keys
    ensures forall call, later :: call in h.waiters && now <= later && Before(later, Expires(issue)) ==>
              var g := Next(h, FinishMint(Fresh(issue), now));
              Enabled(g, Resume(call, later)) && ReplyTo(g, Resume(call, later)) == Leased(|h.minted|)
  {
    hide Counted, Reachable, Expires, RenewAt, WellTimed;
    ReachableKeeps(h);
    var g := Next(h, FinishMint(Fresh(issue), now));
    StepKeeps(h, FinishMint(Fresh(issue), now));
    InvInRange(g);
  }

  /** One that returns once the holder is closed is handed over to be ended, and never held. */
  lemma LateMintIsEnded(h: Holder, issue: Issue, now: real)
    requires Reachable(h) && h.closed && Enabled(h, FinishMint(Fresh(issue), now))
    ensures var g := Next(h, FinishMint(Fresh(issue), now));
            && g.closed && g.current == None && g.ended == h.ended + [|h.minted|]
            && |g.minted| == |h.minted| + 1 && g.minted[|h.minted|].issue == issue
  {
    hide Counted, Reachable;
    ReachableKeeps(h);
  }

  /**
    A mint that fails changes nothing that is held: a call that waited for it is
    leased that while it is unexpired, and is otherwise raised what the mint raised,
    or, if it raised nothing to pass on, told of the clock.
   */
  lemma FailedMintIsRaised(h: Holder, outcome: Outcome, now: real, call: CallId, later: real)
    requires Reachable(h) && !h.closed && Enabled(h, FinishMint(outcome, now)) && !outcome.Fresh?
    requires call in h.waiters && now <= later
    ensures var g := Next(h, FinishMint(outcome, now));
            && g.current == h.current && g.minted == h.minted && g.ended == h.ended
            && g.leases == h.leases && !g.minting
            && Enabled(g, Resume(call, later))
            && ReplyTo(g, Resume(call, later)) ==
               if h.current.Some? && Before(later, Expires(h.minted[h.current.value].issue)) then
                 Leased(h.current.value)
               else if outcome.Failed? then Raised(outcome.failure) else Skewed
  {
    hide Counted, Reachable, Expires, RenewAt, WellTimed;
    ReachableKeeps(h);
    StepKeeps(h, FinishMint(outcome, now));
    InvInRange(Next(h, FinishMint(outcome, now)));
  }

  /**
    A lease starts a mint exactly if none runs, the holder is open, and nothing
    held is short of its renewal point: never before four fifths of a lifetime.
   */
  lemma MintStartsExactly(h: Holder, call: CallId, first: real, second: real)
    requires Reachable(h) && Enabled(h, Lease(call, first, second))
    ensures var g := Next(h, Lease(call, first, second));
            && (g.minting <==>
                || h.minting
                || (!h.closed && (h.current.Some? ==> !Before(first, RenewAt(h.minted[h.current.value].issue)))))
            && g.flights == if g.minting then 1 else 0
  {
    hide Counted, Reachable, Expires, RenewAt, WellTimed;
    ReachableKeeps(h);
    StepKeeps(h, Lease(call, first, second));
  }

  /**
    Only a mint that returns and a close change what is held, only a close closes,
    only the end of a mint adds an attempt, and no credential becomes another.
   */
  lemma HeldChangesBy(h: Holder, step: Step)
    requires Reachable(h) && Enabled(h, step)
    ensures var g := Next(h, step);
            && SameIssues(h.minted, g.minted)
            && (g.closed <==> h.closed || step.Close?) && (g.collected <==> step.Collect?)
            && (step.Close? ==> g.current == None)
            && (!step.Close? && !(step.FinishMint? && step.outcome.Fresh?) ==>
                  g.current == h.current && g.watching == h.watching && |g.minted| == |h.minted|)
            && g.outcomes == (if !step.FinishMint? then h.outcomes
                              else h.outcomes + [if step.outcome.Failed? then Some(step.outcome.failure) else None])
  {
    hide Inv, Reachable, AfterLease, AfterResume;
    ReachableKeeps(h);
    match step
    case Lease(call, first, second) => LeaseHolds(h, call, first, second);
    case Resume(call, now) => ResumeHolds(h, call, now);
    case _ =>
  }

  // Of two states, the second only serves what the first holds.
  ghost predicate SameHeld(h: Holder, g: Holder) {
    && SameIssues(h.minted, g.minted) && |g.minted| == |h.minted| && g.current == h.current && g.watching == h.watching
    && g.closed == h.closed && g.collected == h.collected && g.outcomes == h.outcomes
  }

  lemma LeaseHolds(h: Holder, call: CallId, first: real, second: real)
    requires h.current.Some? ==> h.current.value < |h.minted|
    ensures SameHeld(h, AfterLease(h, call, first, second).0)
  {
    hide Before;
  }

  lemma ResumeHolds(h: Holder, call: CallId, now: real)
    requires h.current.Some? ==> h.current.value < |h.minted|
    requires call in h.waiters && h.waiters[call].seen <= |h.outcomes|
    ensures SameHeld(h, AfterResume(h, call, now).0)
  {
    hide Before;
  }

  /** Leases are taken and given back one at a time, each by its own call, and so are places in the wait loop. */
  lemma CallsChangeBy(h: Holder, step: Step)
    requires Reachable(h) && Enabled(h, step)
    ensures Next(h, step).leases ==
            match step
            case Lease(call, _, _) =>
              if ReplyTo(h, step).Leased? then h.leases[call := ReplyTo(h, step).credential] else h.leases
            case Resume(call, _) =>
              if ReplyTo(h, step).Leased? then h.leases[call := ReplyTo(h, step).credential] else h.leases
            case Release(call) => h.leases - {call}
            case _ => h.leases
    ensures Next(h, step).waiters.Keys ==
            match step
            case Lease(call, _, _) => if ReplyTo(h, step) == Waits then h.waiters.Keys + {call} else h.waiters.Keys
            case Resume(call, _) => if ReplyTo(h, step) == Waits then h.waiters.Keys else h.waiters.Keys - {call}
            case GiveUp(call) => h.waiters.Keys - {call}
            case _ => h.waiters.Keys
  {
    hide Inv, Reachable, AfterLease, AfterResume, Hold;
    ReachableKeeps(h);
    match step
    case Lease(call, first, second) => LeaseChanges(h, call, first, second);
    case Resume(call, now) => ResumeChanges(h, call, now);
    case FinishMint(outcome, now) =>
      if outcome.Fresh? {
        ArrivalChanges(h.(minting := false, flights := h.flights - 1, outcomes := h.outcomes + [None],
                          waiters := NotifyAll(h.waiters), clock := now), outcome.issue);
      }
    case Close => HoldChanges(h.(closed := true, waiters := NotifyAll(h.waiters)), None);
    case _ =>
  }

  lemma LeaseChanges(h: Holder, call: CallId, first: real, second: real)
    requires h.current.Some? ==> h.current.value < |h.minted|
    ensures var (g, reply) := AfterLease(h, call, first, second);
            && g.leases == (if reply.Leased? then h.leases[call := reply.credential] else h.leases)
            && g.waiters.Keys == (if reply == Waits then h.waiters.Keys + {call} else h.waiters.Keys)
  {
    hide Before;
  }

  lemma ResumeChanges(h: Holder, call: CallId, now: real)
    requires h.current.Some? ==> h.current.value < |h.minted|
    requires call in h.waiters && h.waiters[call].seen <= |h.outcomes|
    ensures var (g, reply) := AfterResume(h, call, now);
            && g.leases == (if reply.Leased? then h.leases[call := reply.credential] else h.leases)
            && g.waiters.Keys == (if reply == Waits then h.waiters.Keys else h.waiters.Keys - {call})
  {
    hide Before;
  }

  lemma HoldChanges(h: Holder, next: Option<nat>)
    requires h.current.Some? ==> h.current.value < |h.minted|
    ensures Hold(h, next).leases == h.leases && Hold(h, next).waiters == h.waiters
  {
  }

  lemma ArrivalChanges(h: Holder, issue: Issue)
    requires h.current.Some? ==> h.current.value < |h.minted|
    ensures AfterArrival(h, issue).leases == h.leases && AfterArrival(h, issue).waiters == h.waiters
  {
    hide Minted;
  }

  // ---- one run, from a call's wait to the end of what it was leased --------

  ghost predicate Leads(h: Holder, g: Holder) {
    exists steps :: Legal(h, steps) && Run(h, steps) == g
  }

  lemma LeadsNowhere(h: Holder)
    ensures Leads(h, h)
  {
    assert Legal(h, []) && Run(h, []) == h;
  }

  lemma LeadsOn(h: Holder, g: Holder, step: Step)
    requires Leads(h, g) && Enabled(g, step)
    ensures Leads(h, Next(g, step))
  {
    hide Legal, Run, Enabled, Next;
    var steps :| Legal(h, steps) && Run(h, steps) == g;
    RunStep(h, steps, step);
  }

  // A token that lasts ten seconds, issued at once.
  function TenSeconds(sent: real): Issue {
    ClientToken(sent, sent, sent, 10)
  }

  function Lasting(sent: real, users: nat, retired: bool): Credential {
    Credential(TenSeconds(sent), At(sent + 8.0), At(sent + 10.0), users, retired)
  }

  // What a holder is when it has waited for and holds a first token, leased by call 1.
  function FirstLeased(): Holder {
    Init(true).(minted := [Lasting(0.0, 1, false)], current := Some(0), watching := Some(0),
                outcomes := [None], leases := map[1 := 0])
  }

  // And once, past its renewal point, call 2 has leased it too and a second token has replaced it.
  function Renewed(): Holder {
    FirstLeased().(minted := [Lasting(0.0, 2, true), Lasting(9.0, 0, false)], current := Some(1), watching := Some(1),
                   outcomes := [None, None], leases := map[1 := 0, 2 := 0], clock := 9.0)
  }

  lemma ACallWaits() returns (h: Holder)
    ensures Leads(Init(true), h)
    ensures h == Init(true).(minting := true, flights := 1, waiters := map[1 := Waiter(0, false)])
  {
    hide Leads;
    LeadsNowhere(Init(true));
    LeadsOn(Init(true), Init(true), Lease(1, 0.0, 0.0));
    h := Next(Init(true), Lease(1, 0.0, 0.0));
  }

  lemma ItsMintReturns(h: Holder)
    requires h == Init(true).(minting := true, flights := 1, waiters := map[1 := Waiter(0, false)])
    ensures Leads(h, FirstLeased())
  {
    hide Leads;
    LeadsNowhere(h);
    var arrives := FinishMint(Fresh(TenSeconds(0.0)), 0.0);
    LeadsOn(h, h, arrives);
    var held := Next(h, arrives);
    assert held == Init(true).(minted := [Lasting(0.0, 0, false)], current := Some(0), watching := Some(0),
                               outcomes := [None], waiters := map[1 := Waiter(0, true)]);
    LeadsOn(h, held, Resume(1, 0.0));
    assert Next(held, Resume(1, 0.0)) == FirstLeased();
  }

  lemma ItIsRenewed()
    ensures Leads(FirstLeased(), Renewed())
  {
    hide Leads;
    var h := FirstLeased();
    LeadsNowhere(h);
    LeadsOn(h, h, Lease(2, 9.0, 9.0));
    var due := Next(h, Lease(2, 9.0, 9.0));
    assert due == h.(minted := [Lasting(0.0, 2, false)], minting := true, flights := 1, leases := map[1 := 0, 2 := 0],
                     clock := 9.0);
    var arrives := FinishMint(Fresh(TenSeconds(9.0)), 9.0);
    LeadsOn(h, due, arrives);
    assert Next(due, arrives) == Renewed();
  }

  lemma ItIsReleased() returns (done: Holder)
    ensures Leads(Renewed(), done) && done.leases == map[] && done.ended == [0] && done.current == Some(1)
  {
    hide Leads;
    LeadsNowhere(Renewed());
    LeadsOn(Renewed(), Renewed(), Release(1));
    var left := Next(Renewed(), Release(1));
    assert left == Renewed().(minted := [Lasting(0.0, 1, true), Lasting(9.0, 0, false)], leases := map[2 := 0]);
    LeadsOn(Renewed(), left, Release(2));
    done := Next(left, Release(2));
  }

  /**
    There are such runs: a call waits for the first mint and leases what it
    returned; another leases the same past its renewal point while a second mint
    replaces it; and it is ended, once, as the last of the two is done.
   */
  lemma ACredentialIsRenewedAndEnded()
    ensures exists waits, leased, renewed, done ::
              && Leads(Init(true), waits) && 1 in waits.waiters && waits.minted == []
              && Leads(waits, leased) && leased.leases == map[1 := 0] && leased.current == Some(0)
              && Leads(leased, renewed) && renewed.leases == map[1 := 0, 2 := 0]
              && renewed.current == Some(1) && renewed.ended == []
              && Leads(renewed, done) && done.leases == map[] && done.ended == [0]
  {
    hide Leads;
    var waits := ACallWaits();
    ItsMintReturns(waits);
    ItIsRenewed();
    var done := ItIsReleased();
  }
}
