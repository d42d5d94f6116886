/**
  The credential holder of `nodejs/src/internal/auth.ts` as a state machine: one
  step per stretch of `Renewing` that runs without awaiting. Unlike the threaded
  holder of CredentialMachine, its leases share the promise of the running mint,
  a mint that fails gives back what is held and still honoured, and a close waits
  for the running mint before it retires anything.
 */
module SessionHolder {
  import opened Wrappers
  import opened CredentialTiming
  import Threaded = CredentialMachine

  type CallId = nat  // one caller of `lease`
  type Failure = int // what a mint rejected with

  datatype Credential = Credential(renewAt: Instant, expiresAt: Instant, users: nat, retired: bool)

  // What the promise of a mint settled with: a credential that was held, or a failure.
  datatype Settled = Gives(credential: nat) | Fails(failure: Failure)

  // Where `close` is: not called, waiting for the mint of this number, or done.
  datatype Shut = Not | Awaits(mint: nat) | Done

  datatype Holder = Holder(
    minted: seq<Credential>,     // every credential a mint returned, in order
    current: Option<nat>,
    minting: bool,
    settled: seq<Settled>,       // what each mint came to; the running one is the next
    shut: Shut,                  // `closed` unless Not
    waiters: map<CallId, nat>,   // the leases waiting on a mint, by its number
    leases: map<CallId, nat>,    // the open leases, and the credential of each
    ended: seq<nat>,             // credentials handed to `end`, in order
    collected: bool,
    clock: real)

  datatype Reply = Leased(credential: nat) | Waits | Closed | Raised(failure: Failure)

  datatype Outcome = Fresh(renewAt: Instant, expiresAt: Instant) | Failed(failure: Failure)

  datatype Step =
    | Lease(call: CallId, first: real, second: real)  // the two clock readings it may take
    | Resume(call: CallId)                            // the mint it waits on has settled
    | GiveUp(call: CallId)                            // its deadline passed first
    | Release(call: CallId)
    | Settle(outcome: Outcome, now: real)             // the rest of `renew`
    | Close
    | Closing                                         // the rest of `shut`, after the mint it awaits
    | Collect                                         // the holder itself is garbage

  function Init(): Holder {
    Holder([], None, false, [], Not, map[], map[], [], false, 0.0)
  }

  // ---- the steps -----------------------------------------------------------

  function Grant(h: Holder, call: CallId, i: nat): Holder
    requires i < |h.minted|
  {
    h.(minted := h.minted[i := h.minted[i].(users := h.minted[i].users + 1)], leases := h.leases[call := i])
  }

  // `lease` up to its wait, or up to the call it makes under what it leased.
  function AfterLease(h: Holder, call: CallId, first: real, second: real): (Holder, Reply)
    requires h.current.Some? ==> h.current.value < |h.minted|
  {
    var h := h.(clock := second);
    if h.shut != Not then (h, Reply.Closed)
    else if h.current.Some? && Before(first, h.minted[h.current.value].renewAt) then
      (Grant(h, call, h.current.value), Leased(h.current.value))
    else if h.current.Some? && Before(second, h.minted[h.current.value].expiresAt) then
      (Grant(h.(minting := true), call, h.current.value), Leased(h.current.value))
    else
      (h.(minting := true, waiters := h.waiters[call := |h.settled|]), Waits)
  }

  // The rest of `lease`, once the mint it waited on has settled.
  function AfterResume(h: Holder, call: CallId): (Holder, Reply)
    requires call in h.waiters && h.waiters[call] < |h.settled|
    requires h.settled[h.waiters[call]].Gives? ==> h.settled[h.waiters[call]].credential < |h.minted|
  {
    var left := h.(waiters := h.waiters - {call});
    match h.settled[h.waiters[call]]
    case Fails(failure) => (left, Raised(failure))
    case Gives(i) => if h.minted[i].retired then (left, Reply.Closed) else (Grant(left, call, i), Leased(i))
  }

  // Retire what is held, ending it if nothing uses it.
  function Hold(h: Holder, next: Option<nat>): Holder
    requires h.current.Some? ==> h.current.value < |h.minted|
  {
    if h.current.None? then h.(current := next)
    else
      var i := h.current.value;
      h.(minted := h.minted[i := h.minted[i].(retired := true)],
         ended := if h.minted[i].users == 0 then h.ended + [i] else h.ended,
         current := next)
  }

  // The rest of `renew`, once the mint has returned or failed.
  function AfterSettle(h: Holder, outcome: Outcome, now: real): Holder
    requires h.current.Some? ==> h.current.value < |h.minted|
  {
    var done := h.(minting := false, clock := now);
    match outcome
    case Fresh(renewAt, expiresAt) =>
      Hold(done.(minted := h.minted + [Credential(renewAt, expiresAt, 0, false)],
                 settled := h.settled + [Gives(|h.minted|)]),
           Some(|h.minted|))
    case Failed(failure) =>
      var honoured := h.current.Some? && Before(now, h.minted[h.current.value].expiresAt);
      done.(settled := h.settled + [if honoured then Gives(h.current.value) else Fails(failure)])
  }

  // `close`, and `shut` up to its wait.
  function AfterClose(h: Holder): Holder
    requires h.current.Some? ==> h.current.value < |h.minted|
  {
    if h.shut != Not then h
    else if h.minting then h.(shut := Awaits(|h.settled|))
    else Hold(h.(shut := Done), None)
  }

  function AfterRelease(h: Holder, call: CallId): Holder
    requires call in h.leases && h.leases[call] < |h.minted| && h.minted[h.leases[call]].users > 0
  {
    var i := h.leases[call];
    var left := h.minted[i].users - 1;
    h.(minted := h.minted[i := h.minted[i].(users := left)],
       leases := h.leases - {call},
       ended := if h.minted[i].retired && left == 0 then h.ended + [i] else h.ended)
  }

  // ---- runs ----------------------------------------------------------------

  // Only a state that keeps its indexes in range can step at all.
  predicate InRange(h: Holder) {
    && (h.current.Some? ==> h.current.value < |h.minted|)
    && (forall call :: call in h.leases ==> h.leases[call] < |h.minted| && h.minted[h.leases[call]].users > 0)
    && (forall m :: 0 <= m < |h.settled| && h.settled[m].Gives? ==> h.settled[m].credential < |h.minted|)
  }

  // What may happen next. Callers are distinct and readings never go back; the
  // holder is garbage only once nothing that is still to run refers to it.
  predicate Enabled(h: Holder, step: Step) {
    && InRange(h)
    && !h.collected
    && match step
       case Lease(call, first, second) => call !in h.waiters && call !in h.leases && h.clock <= first <= second
       case Resume(call) => call in h.waiters && h.waiters[call] < |h.settled|
       case GiveUp(call) => call in h.waiters
       case Release(call) => call in h.leases
       case Settle(_, now) => h.minting && h.clock <= now
       case Close => true
       case Closing => h.shut.Awaits? && h.shut.mint < |h.settled|
       case Collect => h.leases == map[] && h.waiters == map[] && !h.minting && !h.shut.Awaits?
  }

  function Next(h: Holder, step: Step): Holder
    requires Enabled(h, step)
  {
    match step
    case Lease(call, first, second) => AfterLease(h, call, first, second).0
    case Resume(call) => AfterResume(h, call).0
    case GiveUp(call) => h.(waiters := h.waiters - {call})
    case Release(call) => AfterRelease(h, call)
    case Settle(outcome, now) => AfterSettle(h, outcome, now)
    case Close => AfterClose(h)
    case Closing => Hold(h.(shut := Done), None)
    case Collect => h.(collected := true)
  }

  ghost predicate Legal(h: Holder, steps: seq<Step>)
    decreases |steps|
  {
    steps == [] || (Enabled(h, steps[0]) && Legal(Next(h, steps[0]), steps[1..]))
  }

  function Run(h: Holder, steps: seq<Step>): Holder
    requires Legal(h, steps)
    decreases |steps|
  {
    if steps == [] then h else Run(Next(h, steps[0]), steps[1..])
  }

  // ---- the invariant -------------------------------------------------------

  // The use counts are the open leases.
  ghost predicate Counted(minted: seq<Credential>, leases: map<CallId, nat>) {
    && (forall call :: call in leases ==> leases[call] < |minted|)
    && (forall i :: 0 <= i < |minted| ==> minted[i].users == |Threaded.Using(leases, i)|)
  }

  // What is not held is retired, and a credential is handed over exactly when it is retired and unused.
  ghost predicate Disposed(minted: seq<Credential>, current: Option<nat>, ended: seq<nat>) {
    && (current.Some? ==> current.value < |minted|)
    && (forall i :: 0 <= i < |minted| ==> (minted[i].retired <==> current != Some(i)))
    && (forall k :: 0 <= k < |ended| ==> ended[k] < |minted|)
    && (forall i :: 0 <= i < |minted| ==> (i in ended <==> minted[i].retired && minted[i].users == 0))
    && Threaded.NoDuplicates(ended)
  }

  // A lease waits on a mint that has settled or is the one running.
  ghost predicate Waiting(waiters: map<CallId, nat>, settled: seq<Settled>, minting: bool) {
    forall call :: call in waiters ==> waiters[call] < |settled| || (waiters[call] == |settled| && minting)
  }

  ghost predicate Given(settled: seq<Settled>, minted: seq<Credential>) {
    forall m :: 0 <= m < |settled| && settled[m].Gives? ==> settled[m].credential < |minted|
  }

  // No mint is started after a close, and none runs past its end.
  ghost predicate Shutting(h: Holder) {
    match h.shut
    case Not => true
    case Awaits(m) => if h.minting then m == |h.settled| else m < |h.settled|
    case Done => !h.minting && h.current == None
  }

  ghost predicate Inv(h: Holder) {
    && Counted(h.minted, h.leases)
    && Disposed(h.minted, h.current, h.ended)
    && Waiting(h.waiters, h.settled, h.minting)
    && Given(h.settled, h.minted)
    && Shutting(h)
    && h.waiters.Keys !! h.leases.Keys
    && (h.collected ==> h.leases == map[] && h.waiters == map[] && !h.minting && !h.shut.Awaits?)
  }
}
