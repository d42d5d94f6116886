/**
  The credential holder of `python/memcoai/_auth.py` as a state machine: one
  step per section its lock guards, interleaved in any order. The class in
  Renewing.dfy is proved to take exactly these steps.
 */
module CredentialMachine {
  import opened Wrappers
  import opened CredentialTiming

  type CallId = nat  // one caller of `lease`
  type Failure = int // what a mint raised

  datatype Credential = Credential(issue: Issue, renewAt: Instant, expires: Instant, users: nat, retired: bool)

  // As a mint returns it.
  function Minted(issue: Issue): Credential {
    Credential(issue, RenewAt(issue), Expires(issue), 0, false)
  }

  // A call inside the wait loop: `_attempts` as it arrived, and whether it was notified.
  datatype Waiter = Waiter(seen: nat, woken: bool)

  datatype Holder = Holder(
    watched: bool,                   // whether a finalizer callback was given
    minted: seq<Credential>,         // every credential a mint returned, in order
    current: Option<nat>,
    closed: bool,
    minting: bool,
    flights: nat,                    // mint threads started and not yet finished
    outcomes: seq<Option<Failure>>,  // `_attempts` is its length, `_failed` its last
    watching: Option<nat>,           // what the live finalizer would queue
    waiters: map<CallId, Waiter>,
    leases: map<CallId, nat>,        // the open leases, and the credential of each
    ended: seq<nat>,                 // credentials handed to `_end`, in order
    queued: seq<nat>,                // credentials the finalizer queued
    collected: bool,
    clock: real)

  datatype Reply = Leased(credential: nat) | Waits | Closed | Raised(failure: Failure) | Skewed

  // Interrupted: neither returned nor raised an Exception, as for a KeyboardInterrupt.
  datatype Outcome = Fresh(issue: Issue) | Failed(failure: Failure) | Interrupted

  datatype Step =
    | Lease(call: CallId, first: real, second: real)  // the two clock readings it takes
    | Resume(call: CallId, now: real)                 // notified, or woken spuriously
    | GiveUp(call: CallId)
    | Release(call: CallId)
    | FinishMint(outcome: Outcome, now: real)
    | Close
    | Collect                                         // the holder itself is garbage

  function Init(watched: bool): Holder {
    Holder(watched, [], None, false, false, 0, [], None, map[], map[], [], [], false, 0.0)
  }

  // ---- the steps -----------------------------------------------------------

  function Grant(h: Holder, call: CallId, i: nat): Holder
    requires i < |h.minted|
  {
    h.(minted := h.minted[i := h.minted[i].(users := h.minted[i].users + 1)], leases := h.leases[call := i])
  }

  function NotifyAll(waiters: map<CallId, Waiter>): map<CallId, Waiter> {
    map call | call in waiters :: waiters[call].(woken := true)
  }

  // Start a mint unless one is running.
  function Renewing(h: Holder): Holder {
    if h.minting then h else h.(minting := true, flights := h.flights + 1)
  }

  // `_leasable` up to its wait, and the count `lease` takes under the same lock.
  function AfterLease(h: Holder, call: CallId, first: real, second: real): (Holder, Reply)
    requires h.current.Some? ==> h.current.value < |h.minted|
  {
    var h := h.(clock := second);
    if h.closed then (h, Reply.Closed)
    else if h.current.Some? && Before(first, h.minted[h.current.value].renewAt) then
      (Grant(h, call, h.current.value), Leased(h.current.value))
    else AfterDue(Renewing(h), call)
  }

  // The rest of `_leasable`, once a mint runs: what is held until it expires, or wait.
  function AfterDue(h: Holder, call: CallId): (Holder, Reply)
    requires h.current.Some? ==> h.current.value < |h.minted|
  {
    if h.current.Some? && Before(h.clock, h.minted[h.current.value].expires) then
      (Grant(h, call, h.current.value), Leased(h.current.value))
    else
      (h.(waiters := h.waiters[call := Waiter(|h.outcomes|, false)]), Waits)
  }

  // The wait loop's test and what follows it, `_honoured` included.
  function AfterResume(h: Holder, call: CallId, now: real): (Holder, Reply)
    requires h.current.Some? ==> h.current.value < |h.minted|
    requires call in h.waiters && h.waiters[call].seen <= |h.outcomes|
  {
    var h := h.(clock := now);
    if |h.outcomes| == h.waiters[call].seen && !h.closed then
      (h.(waiters := h.waiters[call := h.waiters[call].(woken := false)]), Waits)
    else AfterWait(h.(waiters := h.waiters - {call}), call)
  }

  function AfterWait(h: Holder, call: CallId): (Holder, Reply)
    requires h.current.Some? ==> h.current.value < |h.minted|
    requires h.closed || h.outcomes != []
  {
    if h.closed then (h, Reply.Closed)
    else if h.current.Some? && Before(h.clock, h.minted[h.current.value].expires) then
      (Grant(h, call, h.current.value), Leased(h.current.value))
    else if h.outcomes[|h.outcomes| - 1].Some? then (h, Raised(h.outcomes[|h.outcomes| - 1].value))
    else (h, Skewed)
  }

  // `_hold`: retire what is held, handing it over to be ended if nothing uses it.
  function Hold(h: Holder, next: Option<nat>): Holder
    requires h.current.Some? ==> h.current.value < |h.minted|
  {
    var watching := if h.watched then next else None;
    if h.current.None? then h.(current := next, watching := watching)
    else
      var i := h.current.value;
      h.(minted := h.minted[i := h.minted[i].(retired := true)],
         ended := if h.minted[i].users == 0 then h.ended + [i] else h.ended,
         current := next,
         watching := watching)
  }

  function AfterFinish(h: Holder, outcome: Outcome, now: real): Holder
    requires h.current.Some? ==> h.current.value < |h.minted|
    requires h.flights > 0
  {
    var failure := if outcome.Failed? then Some(outcome.failure) else None;
    var done := h.(minting := false, flights := h.flights - 1, outcomes := h.outcomes + [failure],
                   waiters := NotifyAll(h.waiters), clock := now);
    if outcome.Fresh? then AfterArrival(done, outcome.issue) else done
  }

  // Hold what the mint produced, or end it if closed meanwhile.
  function AfterArrival(h: Holder, issue: Issue): Holder
    requires h.current.Some? ==> h.current.value < |h.minted|
  {
    var arrived := h.(minted := h.minted + [Minted(issue)]);
    if h.closed then arrived.(ended := h.ended + [|h.minted|]) else Hold(arrived, Some(|h.minted|))
  }

  function AfterClose(h: Holder): Holder
    requires h.current.Some? ==> h.current.value < |h.minted|
  {
    if h.closed then h
    else Hold(h.(closed := true, waiters := NotifyAll(h.waiters)), None)
  }

  function AfterRelease(h: Holder, call: CallId): Holder
    requires call in h.leases && h.leases[call] < |h.minted| && h.minted[h.leases[call]].users > 0
  {
    var i := h.leases[call];
    var left := h.minted[i].users - 1;
    h.(minted := h.minted[i := h.minted[i].(users := left)],
       leases := h.leases - {call},
       ended := if h.minted[i].retired && left == 0 then h.ended + [i] else h.ended)
  }

  function AfterCollect(h: Holder): Holder {
    h.(collected := true, queued := if h.watching.Some? then h.queued + [h.watching.value] else h.queued)
  }

  // ---- runs ----------------------------------------------------------------

  // Only a state that keeps its indexes in range can step at all.
  predicate InRange(h: Holder) {
    && (h.current.Some? ==> h.current.value < |h.minted|)
    && (forall call :: call in h.leases ==> h.leases[call] < |h.minted| && h.minted[h.leases[call]].users > 0)
    && (forall call :: call in h.waiters ==> h.waiters[call].seen <= |h.outcomes|)
  }

  // What the environment may do next. Callers are distinct and readings never go
  // back; the holder is garbage only once no lease, wait or mint refers to it.
  predicate Enabled(h: Holder, step: Step) {
    && InRange(h)
    && !h.collected
    && match step
       case Lease(call, first, second) =>
         call !in h.waiters && call !in h.leases && h.clock <= first <= second
       case Resume(call, now) => call in h.waiters && h.clock <= now
       case GiveUp(call) => call in h.waiters
       case Release(call) => call in h.leases
       case FinishMint(outcome, now) =>
         && h.flights > 0 && h.clock <= now
         && (outcome.Fresh? ==>
               WellTimed(outcome.issue) && (outcome.issue.StaticToken? || outcome.issue.received <= now))
       case Close => true
       case Collect => h.leases == map[] && h.waiters == map[] && h.flights == 0
  }

  function Next(h: Holder, step: Step): Holder
    requires Enabled(h, step)
  {
    match step
    case Lease(call, first, second) => AfterLease(h, call, first, second).0
    case Resume(call, now) => AfterResume(h, call, now).0
    case GiveUp(call) => h.(waiters := h.waiters - {call})
    case Release(call) => AfterRelease(h, call)
    case FinishMint(outcome, now) => AfterFinish(h, outcome, now)
    case Close => AfterClose(h)
    case Collect => AfterCollect(h)
  }

  ghost predicate Legal(h: Holder, steps: seq<Step>)
    decreases |steps|
  {
    steps == [] || (Enabled(h, steps[0]) && Legal(Next(h, steps[0]), steps[1..]))
  }

  function Run(h: Holder, steps: seq<Step>): Holder
    requires Legal(h, steps)
    decreases |steps|
  {
    if steps == [] then h else Run(Next(h, steps[0]), steps[1..])
  }

  // ---- the invariant -------------------------------------------------------

  ghost function Using(leases: map<CallId, nat>, i: nat): set<CallId> {
    set call | call in leases && leases[call] == i
  }

  ghost predicate NoDuplicates(s: seq<nat>) {
    forall i, j :: 0 <= i < j < |s| ==> s[i] != s[j]
  }

  // The use counts are the open leases.
  ghost predicate Counted(minted: seq<Credential>, leases: map<CallId, nat>) {
    && (forall call :: call in leases ==> leases[call] < |minted|)
    && (forall i :: 0 <= i < |minted| ==> minted[i].users == |Using(leases, i)|)
  }

  // A credential is handed over exactly when it is neither held nor in use.
  ghost predicate Disposed(minted: seq<Credential>, current: Option<nat>, ended: seq<nat>) {
    && (current.Some? ==> current.value < |minted| && !minted[current.value].retired)
    && (forall i :: 0 <= i < |minted| && minted[i].users > 0 && current != Some(i) ==> minted[i].retired)
    && (forall k :: 0 <= k < |ended| ==> ended[k] < |minted|)
    && (forall i :: 0 <= i < |minted| ==> (i in ended <==> current != Some(i) && minted[i].users == 0))
    && NoDuplicates(ended)
  }

  // A waiter that was not notified still has a mint to wait for, and nothing to leave for.
  ghost predicate Woken(waiters: map<CallId, Waiter>, attempts: nat, minting: bool, closed: bool) {
    forall call :: call in waiters ==>
      && waiters[call].seen <= attempts
      && (waiters[call].woken ==> waiters[call].seen < attempts || closed)
      && (!waiters[call].woken ==> waiters[call].seen == attempts && minting && !closed)
  }

  ghost predicate Timed(minted: seq<Credential>, clock: real) {
    forall i :: 0 <= i < |minted| ==>
      && WellTimed(minted[i].issue)
      && minted[i].renewAt == RenewAt(minted[i].issue) && minted[i].expires == Expires(minted[i].issue)
      && (minted[i].issue.StaticToken? || minted[i].issue.received <= clock)
  }

  ghost predicate Inv(h: Holder) {
    && Counted(h.minted, h.leases)
    && Disposed(h.minted, h.current, h.ended)
    && Woken(h.waiters, |h.outcomes|, h.minting, h.closed)
    && Timed(h.minted, h.clock)
    && (h.closed ==> h.current == None)
    && h.flights == (if h.minting then 1 else 0)
    && h.waiters.Keys !! h.leases.Keys
    && h.watching == (if h.watched then h.current else None)
    && h.queued == (if h.collected && h.watching.Some? then [h.watching.value] else [])
    && (h.collected ==> h.leases == map[] && h.waiters == map[] && h.flights == 0)
  }
}
