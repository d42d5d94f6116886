/** What every run of a session's credential holder keeps, and what follows from it. */
module SessionHolderSafety {
  import opened Wrappers
  import opened CredentialTiming
  import opened SessionHolder
  import S = CredentialSafety
  import Threaded = CredentialMachine

  // ---- the invariant, step by step ----------------------------------------

  lemma LeasedIsUsed(minted: seq<Credential>, leases: map<CallId, nat>, call: CallId)
    requires Counted(minted, leases) && call in leases
    ensures minted[leases[call]].users > 0
  {
    S.UsingShrinks(leases, call, leases[call]);
  }

  lemma UnusedIsUnleased(minted: seq<Credential>, leases: map<CallId, nat>, i: nat)
    requires Counted(minted, leases) && i < |minted| && minted[i].users == 0
    ensures forall call :: call in leases ==> leases[call] != i
  {
    forall call | call in leases ensures leases[call] != i {
      LeasedIsUsed(minted, leases, call);
    }
  }

  lemma InvInRange(h: Holder)
    requires Inv(h)
    ensures InRange(h)
  {
    forall call | call in h.leases ensures h.minted[h.leases[call]].users > 0 {
      LeasedIsUsed(h.minted, h.leases, call);
    }
  }

  // One more user of what is held.
  lemma GrantKeeps(h: Holder, call: CallId)
    requires Inv(h) && h.current.Some? && call !in h.leases && call !in h.waiters && !h.collected
    ensures Inv(Grant(h, call, h.current.value))
  {
    hide Threaded.Using;
    var c := h.current.value;
    var g := Grant(h, call, c);
    forall j | 0 <= j < |g.minted| ensures g.minted[j].users == |Threaded.Using(g.leases, j)| {
      S.UsingGrows(h.leases, call, c, j);
    }
  }

  lemma HoldDisposes(minted: seq<Credential>, current: Option<nat>, ended: seq<nat>)
    requires Disposed(minted, current, ended)
    ensures current.Some? ==>
              var i := current.value;
              Disposed(minted[i := minted[i].(retired := true)], None,
                       if minted[i].users == 0 then ended + [i] else ended)
  {
  }

  lemma RetiringCounts(minted: seq<Credential>, leases: map<CallId, nat>, i: nat)
    requires Counted(minted, leases) && i < |minted|
    ensures Counted(minted[i := minted[i].(retired := true)], leases)
  {
    hide Threaded.Using;
  }

  // Retiring what is held for nothing: a close.
  lemma ClosingKeeps(h: Holder)
    requires Inv(h) && !h.minting && !h.collected
    ensures Inv(Hold(h.(shut := Done), None))
  {
    hide Threaded.Using, Counted, Disposed;
    HoldDisposes(h.minted, h.current, h.ended);
    if h.current.Some? {
      CurrentInRange(h);
      RetiringCounts(h.minted, h.leases, h.current.value);
      GivenStays(h.settled, h.minted, h.minted[h.current.value := h.minted[h.current.value].(retired := true)]);
    }
  }

  lemma CurrentInRange(h: Holder)
    requires Inv(h)
    ensures h.current.Some? ==> h.current.value < |h.minted|
  {
    hide Counted;
  }

  lemma GivenStays(settled: seq<Settled>, minted: seq<Credential>, more: seq<Credential>)
    requires Given(settled, minted) && |minted| <= |more|
    ensures Given(settled, more)
  {
  }

  // A credential that arrives is held, and used by no one yet.
  lemma ArrivalDisposes(minted: seq<Credential>, ended: seq<nat>, arrived: Credential)
    requires Disposed(minted, None, ended) && arrived.users == 0 && !arrived.retired
    ensures Disposed(minted + [arrived], Some(|minted|), ended)
  {
  }

  lemma ArrivalCounts(minted: seq<Credential>, leases: map<CallId, nat>, arrived: Credential)
    requires Counted(minted, leases) && arrived.users == 0
    ensures Counted(minted + [arrived], leases)
  {
    assert Threaded.Using(leases, |minted|) == {};
  }

  lemma SettleKeeps(h: Holder, outcome: Outcome, now: real)
    requires Inv(h) && h.minting
    ensures h.current.Some? ==> h.current.value < |h.minted|
    ensures Inv(AfterSettle(h, outcome, now))
  {
    hide Threaded.Using, Counted, Disposed, Before;
    CurrentInRange(h);
    if outcome.Fresh? {
      FreshKeeps(h, outcome, now);
    }
  }

  lemma FreshKeeps(h: Holder, outcome: Outcome, now: real)
    requires Inv(h) && h.minting && outcome.Fresh? && (h.current.Some? ==> h.current.value < |h.minted|)
    ensures Inv(AfterSettle(h, outcome, now))
  {
    hide Threaded.Using, Counted, Disposed;
    var arrived := Credential(outcome.renewAt, outcome.expiresAt, 0, false);
    HoldDisposes(h.minted, h.current, h.ended);
    if h.current.Some? {
      var i := h.current.value;
      var retired := h.minted[i := h.minted[i].(retired := true)];
      RetiringCounts(h.minted, h.leases, i);
      ArrivalCounts(retired, h.leases, arrived);
      ArrivalDisposes(retired, if h.minted[i].users == 0 then h.ended + [i] else h.ended, arrived);
      assert (h.minted + [arrived])[i := (h.minted + [arrived])[i].(retired := true)] == retired + [arrived];
    } else {
      ArrivalCounts(h.minted, h.leases, arrived);
      ArrivalDisposes(h.minted, h.ended, arrived);
    }
  }

  lemma ReleaseDisposes(minted: seq<Credential>, current: Option<nat>, ended: seq<nat>, i: nat)
    requires Disposed(minted, current, ended) && i < |minted| && minted[i].users > 0
    ensures var left := minted[i].users - 1;
            Disposed(minted[i := minted[i].(users := left)], current,
                     if minted[i].retired && left == 0 then ended + [i] else ended)
  {
  }

  lemma ReleaseCounts(minted: seq<Credential>, leases: map<CallId, nat>, call: CallId)
    requires Counted(minted, leases) && call in leases && minted[leases[call]].users > 0
    ensures var i := leases[call];
            Counted(minted[i := minted[i].(users := minted[i].users - 1)], leases - {call})
  {
    hide Threaded.Using;
    forall j | 0 <= j < |minted|
      ensures |Threaded.Using(leases, j)| == |Threaded.Using(leases - {call}, j)| + (if leases[call] == j then 1 else 0)
    {
      S.UsingShrinks(leases, call, j);
    }
  }

  lemma ReleaseKeeps(h: Holder, call: CallId)
    requires Inv(h) && InRange(h) && call in h.leases
    ensures Inv(AfterRelease(h, call))
  {
    ReleaseDisposes(h.minted, h.current, h.ended, h.leases[call]);
    ReleaseCounts(h.minted, h.leases, call);
    hide Threaded.Using, Counted, Disposed;
  }

  lemma LeaseKeeps(h: Holder, call: CallId, first: real, second: real)
    requires Inv(h) && Enabled(h, Lease(call, first, second))
    ensures Inv(AfterLease(h, call, first, second).0)
  {
    hide Threaded.Using, Counted, Disposed, Before, Grant;
    var now := h.(clock := second);
    if h.shut == Not && h.current.Some? {
      GrantKeeps(now, call);
      GrantKeeps(now.(minting := true), call);
    }
  }

  lemma ResumeKeeps(h: Holder, call: CallId)
    requires Inv(h) && Enabled(h, Resume(call))
    ensures Inv(AfterResume(h, call).0)
  {
    hide Threaded.Using, Counted, Grant, InRange, Threaded.NoDuplicates;
    var left := h.(waiters := h.waiters - {call});
    if h.settled[h.waiters[call]].Gives? && !h.minted[h.settled[h.waiters[call]].credential].retired {
      GrantKeeps(left, call);
    }
  }

  /** Every stretch of the holder keeps the invariant. */
  lemma StepKeeps(h: Holder, step: Step)
    requires Inv(h) && Enabled(h, step)
    ensures Inv(Next(h, step))
  {
    hide AfterLease, AfterResume, AfterRelease, AfterSettle, Hold, InRange, Counted, Disposed;
    match step
    case Lease(call, first, second) => LeaseKeeps(h, call, first, second);
    case Resume(call) => ResumeKeeps(h, call);
    case GiveUp(_) =>
    case Release(call) => ReleaseKeeps(h, call);
    case Settle(outcome, now) => SettleKeeps(h, outcome, now);
    case Close => if h.shut == Not && !h.minting { ClosingKeeps(h); }
    case Closing => ClosingKeeps(h);
    case Collect =>
  }

  lemma {:induction false} RunKeeps(h: Holder, steps: seq<Step>)
    requires Inv(h) && Legal(h, steps)
    ensures Inv(Run(h, steps))
    decreases |steps|
  {
    hide Inv, Next, Enabled;
    if steps != [] {
      StepKeeps(h, steps[0]);
      RunKeeps(Next(h, steps[0]), steps[1..]);
    }
  }

  ghost predicate Reachable(h: Holder) {
    exists steps :: Legal(Init(), steps) && Run(Init(), steps) == h
  }

  lemma ReachableKeeps(h: Holder)
    requires Reachable(h)
    ensures Inv(h) && InRange(h)
  {
    var steps :| Legal(Init(), steps) && Run(Init(), steps) == h;
    assert Inv(Init());
    RunKeeps(Init(), steps);
    InvInRange(h);
  }

  lemma {:induction false} RunMore(h: Holder, steps: seq<Step>, step: Step)
    requires Legal(h, steps) && Enabled(Run(h, steps), step)
    ensures Legal(h, steps + [step]) && Run(h, steps + [step]) == Next(Run(h, steps), step)
    decreases |steps|
  {
    hide Enabled, Next;
    if steps == [] {
      assert (steps + [step])[1..] == [];
      assert Legal(Next(h, step), []);
    } else {
      assert (steps + [step])[1..] == steps[1..] + [step];
      RunMore(Next(h, steps[0]), steps[1..], step);
    }
  }

  lemma ReachableStep(h: Holder, step: Step)
    requires Reachable(h) && Enabled(h, step)
    ensures Reachable(Next(h, step))
  {
    hide Enabled, Next;
    var steps :| Legal(Init(), steps) && Run(Init(), steps) == h;
    RunMore(Init(), steps, step);
  }

  // ---- what follows --------------------------------------------------------

  /**
    Each credential a mint returned is in one place: held and not retired; or
    retired and still leased; or handed over to be ended, once, and in no lease.
   */
  lemma EachCredentialInOnePlace(h: Holder, i: nat)
    requires Reachable(h) && i < |h.minted|
    ensures h.minted[i].retired <==> h.current != Some(i)
    ensures multiset(h.ended)[i] == if h.minted[i].retired && h.minted[i].users == 0 then 1 else 0
    ensures h.minted[i].users == |Threaded.Using(h.leases, i)|
    ensures i in h.ended ==> forall call :: call in h.leases ==> h.leases[call] != i
  {
    ReachableKeeps(h);
    S.OccursOnce(h.ended, i);
    if i in h.ended {
      UnusedIsUnleased(h.minted, h.leases, i);
    }
  }

  /**
    A close that has finished leaves nothing behind: no mint runs and nothing is
    held, and once the leases it found are over every credential has been ended,
    that of the mint it waited for among them.
   */
  lemma ClosedAndIdleMeansAllEnded(h: Holder, i: nat)
    requires Reachable(h) && h.shut == Done && i < |h.minted|
    ensures !h.minting && h.minted[i].retired
    ensures h.leases == map[] ==> multiset(h.ended)[i] == 1
  {
    EachCredentialInOnePlace(h, i);
    ReachableKeeps(h);
    if h.leases == map[] {
      assert Threaded.Using(h.leases, i) == {};
    }
  }

  function ReplyTo(h: Holder, step: Step): Reply
    requires Enabled(h, step) && (step.Lease? || step.Resume?)
  {
    if step.Lease? then AfterLease(h, step.call, step.first, step.second).1 else AfterResume(h, step.call).1
  }

  // The reading a lease served at once is given the credential on: past its renewal point, the second.
  function AdmittedAt(held: Credential, first: real, second: real): real {
    if Before(first, held.renewAt) then first else second
  }

  /**
    What a lease is served at once is the credential held, not retired, and
    unexpired at the reading that admitted it, if it falls due no later than it
    expires; past its renewal point, a mint runs beside it.
   */
  lemma ServedAtOnce(h: Holder, call: CallId, first: real, second: real)
    requires Reachable(h) && Enabled(h, Lease(call, first, second)) && ReplyTo(h, Lease(call, first, second)).Leased?
    ensures var i, g := ReplyTo(h, Lease(call, first, second)).credential, Next(h, Lease(call, first, second));
            && h.shut == Not && h.current == Some(i) == g.current && i < |h.minted| && !h.minted[i].retired
            && g.leases == h.leases[call := i]
            && (Before(first, h.minted[i].renewAt) || g.minting)
            && (NotAfter(h.minted[i].renewAt, h.minted[i].expiresAt) ==>
                  Before(AdmittedAt(h.minted[i], first, second), h.minted[i].expiresAt))
  {
    hide Counted, Waiting, Given, Shutting, Reachable;
    ReachableKeeps(h);
  }

  /** A close refuses every lease from then on, and starts no mint; a mint already running goes on. */
  lemma ClosedStartsNothing(h: Holder, step: Step)
    requires Reachable(h) && Enabled(h, step) && h.shut != Not
    ensures Next(h, step).shut != Not
    ensures Next(h, step).minting ==> h.minting
    ensures step.Lease? ==> ReplyTo(h, step) == Reply.Closed && Next(h, step).leases == h.leases
    ensures |Next(h, step).minted| > |h.minted| ==> h.minting && h.shut.Awaits? && Next(h, step).shut == h.shut
  {
    hide Counted, Disposed, Waiting, Given, Reachable, Before;
    ReachableKeeps(h);
  }

  // ---- what a mint comes to ------------------------------------------------

  // Credentials last as long as they did: only their users and whether they are retired may differ.
  ghost predicate SameTimes(before: seq<Credential>, after: seq<Credential>) {
    && |before| <= |after|
    && forall i :: 0 <= i < |before| ==>
         after[i].renewAt == before[i].renewAt && after[i].expiresAt == before[i].expiresAt
  }

  /**
    What a mint returns is held, also by a holder whose close waits for it: whatever
    was held before is retired, and every lease that waited for this mint and wakes
    is served it.
   */
  lemma FreshIsHeld(h: Holder, renewAt: Instant, expiresAt: Instant, now: real)
    requires Reachable(h) && Enabled(h, Settle(Fresh(renewAt, expiresAt), now))
    ensures var g, n := Next(h, Settle(Fresh(renewAt, expiresAt), now)), |h.minted|;
            && !g.minting && g.shut == h.shut && SameTimes(h.minted, g.minted) && g.leases == h.leases
            && g.minted[n..] == [Credential(renewAt, expiresAt, 0, false)] && g.current == Some(n) && n !in g.ended
            && g.settled == h.settled + [Gives(n)] && g.waiters == h.waiters
            && (h.current.Some? ==>
                  && g.minted[h.current.value].retired
                  && (h.current.value in g.ended <==> h.minted[h.current.value].users == 0))
    ensures forall call :: call in h.waiters && h.waiters[call] == |h.settled| ==>
              var g := Next(h, Settle(Fresh(renewAt, expiresAt), now));
              Enabled(g, Resume(call)) && ReplyTo(g, Resume(call)) == Leased(|h.minted|)
  {
    hide Counted, Reachable;
    ReachableKeeps(h);
    var g := Next(h, Settle(Fresh(renewAt, expiresAt), now));
    StepKeeps(h, Settle(Fresh(renewAt, expiresAt), now));
    InvInRange(g);
  }

  /**
    A mint that fails changes nothing that is held, and gives the leases that waited
    for it that, if it is still unexpired, or else its failure.
   */
  lemma FailedMintGives(h: Holder, failure: Failure, now: real)
    requires Reachable(h) && Enabled(h, Settle(Failed(failure), now))
    ensures var g := Next(h, Settle(Failed(failure), now));
            && !g.minting && g.shut == h.shut && g.minted == h.minted && g.current == h.current
            && g.ended == h.ended && g.leases == h.leases && g.waiters == h.waiters
    ensures forall call :: call in h.waiters && h.waiters[call] == |h.settled| ==>
              var g := Next(h, Settle(Failed(failure), now));
              && Enabled(g, Resume(call))
              && ReplyTo(g, Resume(call)) ==
                 if h.current.Some? && Before(now, h.minted[h.current.value].expiresAt) then Leased(h.current.value)
                 else Raised(failure)
  {
    hide Counted, Reachable;
    ReachableKeeps(h);
    var g := Next(h, Settle(Failed(failure), now));
    StepKeeps(h, Settle(Failed(failure), now));
    InvInRange(g);
  }

  /** A lease starts a mint exactly if none runs, the holder is open, and nothing held is short of its renewal point. */
  lemma MintStartsExactly(h: Holder, call: CallId, first: real, second: real)
    requires Reachable(h) && Enabled(h, Lease(call, first, second))
    ensures Next(h, Lease(call, first, second)).minting <==>
            || h.minting
            || (h.shut == Not && (h.current.Some? ==> !Before(first, h.minted[h.current.value].renewAt)))
    ensures ReplyTo(h, Lease(call, first, second)) == Waits <==>
            h.shut == Not &&
            (h.current.Some? ==> !Before(first, h.minted[h.current.value].renewAt) &&
                                 !Before(second, h.minted[h.current.value].expiresAt))
  {
    hide Counted, Reachable, Disposed, Waiting, Given;
    ReachableKeeps(h);
  }

  /**
    A close with no mint running, or going on after the one it waited for, holds
    nothing any more and ends what it held if that is idle; while it waits, nothing
    that is held changes.
   */
  lemma CloseRetires(h: Holder, step: Step)
    requires Reachable(h) && Enabled(h, step) && (step.Close? || step.Closing?)
    ensures var g := Next(h, step);
            && g.leases == h.leases && g.waiters == h.waiters && g.minting == h.minting && SameTimes(h.minted, g.minted)
            && if step.Close? && (h.shut != Not || h.minting) then
                 && g.minted == h.minted && g.current == h.current && g.ended == h.ended
                 && g.shut == (if h.shut == Not then Awaits(|h.settled|) else h.shut)
               else
                 && g.shut == Done && g.current == None
                 && (h.current.Some? ==>
                       && g.minted[h.current.value].retired
                       && (h.current.value in g.ended <==> h.minted[h.current.value].users == 0))
  {
    hide Counted, Reachable, Waiting, Given;
    ReachableKeeps(h);
  }

  /** Only a mint that returns and a close change what is held, and only a close closes. */
  lemma HeldChangesBy(h: Holder, step: Step)
    requires Reachable(h) && Enabled(h, step)
    ensures var g := Next(h, step);
            && SameTimes(h.minted, g.minted)
            && (!step.Close? && !step.Closing? ==>
                  && g.shut == h.shut
                  && (step.Settle? || (g.current == h.current && |g.minted| == |h.minted| && g.settled == h.settled)))
            && (g.collected <==> step.Collect?)
  {
    hide Inv, Reachable, AfterLease, AfterResume;
    ReachableKeeps(h);
    match step
    case Lease(call, first, second) => LeaseHolds(h, call, first, second);
    case Resume(call) => ResumeHolds(h, call);
    case _ =>
  }

  ghost predicate SameHeld(h: Holder, g: Holder) {
    && SameTimes(h.minted, g.minted) && |g.minted| == |h.minted| && g.current == h.current
    && g.shut == h.shut && g.collected == h.collected && g.settled == h.settled
  }

  lemma LeaseHolds(h: Holder, call: CallId, first: real, second: real)
    requires h.current.Some? ==> h.current.value < |h.minted|
    ensures SameHeld(h, AfterLease(h, call, first, second).0)
  {
    hide Before;
  }

  lemma ResumeHolds(h: Holder, call: CallId)
    requires call in h.waiters && h.waiters[call] < |h.settled|
    requires h.settled[h.waiters[call]].Gives? ==> h.settled[h.waiters[call]].credential < |h.minted|
    ensures SameHeld(h, AfterResume(h, call).0)
  {
  }

  /** Leases are taken and given back one at a time, each by its own call, and so are waits. */
  lemma CallsChangeBy(h: Holder, step: Step)
    requires Reachable(h) && Enabled(h, step)
    ensures Next(h, step).leases ==
            match step
            case Lease(call, _, _) =>
              if ReplyTo(h, step).Leased? then h.leases[call := ReplyTo(h, step).credential] else h.leases
            case Resume(call) =>
              if ReplyTo(h, step).Leased? then h.leases[call := ReplyTo(h, step).credential] else h.leases
            case Release(call) => h.leases - {call}
            case _ => h.leases
    ensures Next(h, step).waiters ==
            match step
            case Lease(call, _, _) => if ReplyTo(h, step) == Waits then h.waiters[call := |h.settled|] else h.waiters
            case Resume(call) => h.waiters - {call}
            case GiveUp(call) => h.waiters - {call}
            case _ => h.waiters
  {
    hide Inv, Reachable, AfterLease, AfterResume;
    ReachableKeeps(h);
    match step
    case Lease(call, first, second) => LeaseChanges(h, call, first, second);
    case Resume(call) => ResumeChanges(h, call);
    case _ =>
  }

  lemma LeaseChanges(h: Holder, call: CallId, first: real, second: real)
    requires h.current.Some? ==> h.current.value < |h.minted|
    ensures var (g, reply) := AfterLease(h, call, first, second);
            && g.leases == (if reply.Leased? then h.leases[call := reply.credential] else h.leases)
            && g.waiters == (if reply == Waits then h.waiters[call := |h.settled|] else h.waiters)
  {
    hide Before;
  }

  lemma ResumeChanges(h: Holder, call: CallId)
    requires call in h.waiters && h.waiters[call] < |h.settled|
    requires h.settled[h.waiters[call]].Gives? ==> h.settled[h.waiters[call]].credential < |h.minted|
    ensures var (g, reply) := AfterResume(h, call);
            && g.leases == (if reply.Leased? then h.leases[call := reply.credential] else h.leases)
            && g.waiters == h.waiters - {call}
  {
  }

  // What is held, and whatever a mint from the given one on gave, was minted after
  // the first `count`, or what is held was already expired at `since`.
  ghost predicate Later(h: Holder, count: nat, since: real, from: nat) {
    && count <= |h.minted| && since <= h.clock && from <= |h.settled|
    && (h.current.Some? ==>
          h.current.value < |h.minted| &&
          (h.current.value < count ==> !Before(since, h.minted[h.current.value].expiresAt)))
    && (forall m :: from <= m < |h.settled| && h.settled[m].Gives? ==> count <= h.settled[m].credential)
  }

  lemma HoldLater(h: Holder, next: Option<nat>, count: nat, since: real, from: nat)
    requires Later(h, count, since, from) && (next.Some? ==> count <= next.value < |h.minted|)
    ensures Later(Hold(h, next), count, since, from) && Hold(h, next).waiters == h.waiters
  {
    hide Before;
  }

  lemma GrantLater(h: Holder, call: CallId, i: nat, count: nat, since: real, from: nat)
    requires Later(h, count, since, from) && i < |h.minted|
    ensures Later(Grant(h, call, i), count, since, from) && Grant(h, call, i).waiters == h.waiters
  {
    hide Before;
  }

  lemma SettleLater(h: Holder, outcome: Outcome, now: real, count: nat, since: real, from: nat)
    requires Later(h, count, since, from) && h.clock <= now
    ensures Later(AfterSettle(h, outcome, now), count, since, from)
    ensures AfterSettle(h, outcome, now).waiters == h.waiters
  {
    hide Hold;
    if outcome.Fresh? {
      var arrived := Credential(outcome.renewAt, outcome.expiresAt, 0, false);
      HoldLater(h.(minting := false, clock := now, minted := h.minted + [arrived],
                   settled := h.settled + [Gives(|h.minted|)]),
                Some(|h.minted|), count, since, from);
    }
  }

  lemma LeaseLater(
      h: Holder, caller: CallId, first: real, second: real, call: CallId, count: nat, since: real, from: nat)
    requires h.clock <= second && Later(h, count, since, from) && (call in h.waiters ==> from <= h.waiters[call])
    ensures Later(AfterLease(h, caller, first, second).0, count, since, from)
    ensures var waiters := AfterLease(h, caller, first, second).0.waiters; call in waiters ==> from <= waiters[call]
  {
    hide Before, Grant;
    if h.current.Some? {
      GrantLater(h.(clock := second), caller, h.current.value, count, since, from);
      GrantLater(h.(clock := second, minting := true), caller, h.current.value, count, since, from);
    }
  }

  lemma StepLater(h: Holder, step: Step, call: CallId, count: nat, since: real, from: nat)
    requires Enabled(h, step) && Later(h, count, since, from) && (call in h.waiters ==> from <= h.waiters[call])
    ensures Later(Next(h, step), count, since, from)
    ensures call in Next(h, step).waiters ==> from <= Next(h, step).waiters[call]
  {
    hide Before, Hold, Grant, AfterSettle, AfterLease;
    match step
    case Lease(caller, first, second) => LeaseLater(h, caller, first, second, call, count, since, from);
    case Resume(caller) =>
      if h.settled[h.waiters[caller]].Gives? {
        GrantLater(h.(waiters := h.waiters - {caller}), caller, h.settled[h.waiters[caller]].credential, count, since,
                   from);
      }
    case GiveUp(_) =>
    case Release(_) =>
    case Settle(outcome, now) => SettleLater(h, outcome, now, count, since, from);
    case Close => HoldLater(h.(shut := Done), None, count, since, from);
    case Closing => HoldLater(h.(shut := Done), None, count, since, from);
    case Collect =>
  }

  lemma {:induction false} RunLater(h: Holder, steps: seq<Step>, call: CallId, count: nat, since: real, from: nat)
    requires Legal(h, steps) && Later(h, count, since, from) && (call in h.waiters ==> from <= h.waiters[call])
    ensures Later(Run(h, steps), count, since, from)
    ensures call in Run(h, steps).waiters ==> from <= Run(h, steps).waiters[call]
    decreases |steps|
  {
    hide Later, Next, Enabled;
    if steps != [] {
      StepLater(h, steps[0], call, count, since, from);
      RunLater(Next(h, steps[0]), steps[1..], call, count, since, from);
    }
  }

  /**
    A lease that has to wait is settled by a mint that was running or started when
    it arrived, whatever happens meanwhile: what it is leased was minted after it
    arrived and is still held; the failure it is given came later; and it is
    refused as closed only if what its mint gave is no longer held.
   */
  lemma WaiterUsesItsMint(h: Holder, call: CallId, first: real, second: real, steps: seq<Step>)
    requires Reachable(h) && Enabled(h, Lease(call, first, second))
    requires ReplyTo(h, Lease(call, first, second)) == Waits
    requires Legal(Next(h, Lease(call, first, second)), steps)
    requires Enabled(Run(Next(h, Lease(call, first, second)), steps), Resume(call))
    ensures var later := Run(Next(h, Lease(call, first, second)), steps);
            match ReplyTo(later, Resume(call))
            case Leased(i) => |h.minted| <= i && later.current == Some(i)
            case Raised(failure) =>
              exists m :: |h.settled| <= m < |later.settled| && later.settled[m] == Fails(failure)
            case Closed =>
              exists m :: |h.settled| <= m < |later.settled| && later.settled[m].Gives? &&
                |h.minted| <= later.settled[m].credential && later.current != Some(later.settled[m].credential)
            case Waits => false
  {
    hide Counted, Waiting, Shutting, Reachable;
    var waiting := Next(h, Lease(call, first, second));
    RunLater(waiting, steps, call, |h.minted|, second, |h.settled|);
    ReachableKeeps(h);
    StepKeeps(h, Lease(call, first, second));
    RunKeeps(waiting, steps);
  }
}
