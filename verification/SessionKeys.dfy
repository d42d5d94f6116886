/**
  The key registry and the credential holder of one session, run together.
  KeyRegistry takes a session to lease only keys it holds, to hand each of them
  over to be ended once and under no lease, and to be garbage only when nothing of
  it is going on. Here the session is the holder's own machine, and what it does
  is shown to be what the registry allows; Sessions puts any number of them
  around one client.
 */
module SessionKeys {
  import opened Wrappers
  import opened KeyRegistry
  import H = SessionHolder
  import S = SessionHolderSafety
  import Threaded = CredentialMachine
  import opened CredentialTiming

  // A client, the holder of one of its sessions, and the key that each credential of it is.
  datatype Pair = Pair(c: Client, h: H.Holder, ids: seq<KeyId>)

  datatype Act =
    | Does(step: H.Step)                                // anything but getting a credential
    | Receives(key: KeyId, renewAt: Instant, expiresAt: Instant, now: real)

  // ---- how the two agree ---------------------------------------------------

  predicate Owned(keys: Keys, owner: Owner, k: KeyId) {
    k in keys.issued && keys.issued[k] == owner
  }

  ghost predicate Theirs(keys: Keys, owner: Owner, ids: seq<KeyId>) {
    && (forall i, j :: 0 <= i < j < |ids| ==> ids[i] != ids[j])
    && (forall i :: 0 <= i < |ids| ==> ids[i] in keys.registered && Owned(keys, owner, ids[i]))
  }

  ghost predicate Handed(keys: Keys, owner: Owner, ended: seq<nat>, ids: seq<KeyId>) {
    && (forall i :: 0 <= i < |ids| ==> (ids[i] in keys.handed <==> i in ended))
    && (forall k :: k in keys.handed ==> k in keys.issued)
    && (forall k :: k in keys.handed && Owned(keys, owner, k) ==> k in ids)
  }

  // The calls that send a key of the session's are those that lease it; a call waiting for one sends none yet.
  ghost predicate Calling(calls: map<JobId, Option<KeyId>>, keys: Keys, leases: map<H.CallId, nat>,
                          waiting: set<H.CallId>, owner: Owner, ids: seq<KeyId>) {
    && (forall call :: call in leases ==>
          leases[call] < |ids| && call in calls && calls[call] == Some(ids[leases[call]]))
    && (forall job :: job in calls && calls[job].Some? && Owned(keys, owner, calls[job].value) ==>
          job >= 0 && job in leases)
    && (forall call :: call in waiting ==> call in calls && calls[call] == None)
  }

  // Every key registered for the session has reached its holder.
  ghost predicate AllReceived(keys: Keys, owner: Owner, ids: seq<KeyId>) {
    forall k :: k in keys.registered && Owned(keys, owner, k) ==> k in ids
  }

  ghost predicate Agree(c: Client, owner: Owner, ids: seq<KeyId>, ended: seq<nat>, leases: map<H.CallId, nat>,
                        waiting: set<H.CallId>, collected: bool, busy: bool) {
    && Theirs(c.keys, owner, ids)
    && Handed(c.keys, owner, ended, ids)
    && Calling(c.jobs.calls, c.keys, leases, waiting, owner, ids)
    && (owner in c.keys.collected <==> collected)
    && (!busy ==> !Minting(c.jobs, owner) && AllReceived(c.keys, owner, ids))
  }

  ghost predicate Joined(p: Pair, owner: Owner) {
    && |p.ids| == |p.h.minted|
    && Agree(p.c, owner, p.ids, p.h.ended, p.h.leases, p.h.waiters.Keys, p.h.collected, p.h.minting)
  }

  // ---- the steps -----------------------------------------------------------

  // What the other steps leave alone: this session's keys, its calls and its being
  // there. A mint for the session is begun by the holder's own, once for each.
  ghost predicate Foreign(p: Pair, other: Step, owner: Owner) {
    match other
    case CallLease(job, key) => job !in p.h.waiters && !Owned(p.c.keys, owner, key)
    case CallEnd(job) => job !in p.h.waiters && job !in p.h.leases
    case MintBegin(_, _, o, _) => o == owner ==> Begins(p, owner)
    case SessionEnd(key) => !Owned(p.c.keys, owner, key)
    case Drop(o) => o != owner
    case _ => true
  }

  ghost predicate Begins(p: Pair, owner: Owner) {
    p.h.minting && !Minting(p.c.jobs, owner) && AllReceived(p.c.keys, owner, p.ids)
  }

  // A mint settles with what became of the key it asked for: registered, it is
  // received, with the expiry it was registered with, and due no later than that.
  ghost predicate Possible(p: Pair, act: Act, owner: Owner) {
    && H.Enabled(p.h, HolderStep(act))
    && match act
       case Does(step) =>
         && (step.Lease? ==> step.call in p.c.jobs.calls && p.c.jobs.calls[step.call] == None)
         && (step.Settle? ==> step.outcome.Failed? && !Minting(p.c.jobs, owner) && AllReceived(p.c.keys, owner, p.ids))
       case Receives(key, renewAt, expiresAt, _) =>
         && key in p.c.keys.registered && Owned(p.c.keys, owner, key) && key !in p.ids
         && expiresAt == Instant.At(p.c.keys.registered[key]) && NotAfter(renewAt, expiresAt)
         && !Minting(p.c.jobs, owner) && AllReceived(p.c.keys, owner, p.ids + [key])
  }

  function HolderStep(act: Act): H.Step {
    match act
    case Does(step) => step
    case Receives(_, renewAt, expiresAt, now) => H.Settle(H.Fresh(renewAt, expiresAt), now)
  }

  function IdsAfter(p: Pair, act: Act): seq<KeyId> {
    if act.Receives? then p.ids + [act.key] else p.ids
  }

  // What the client sees of the call or the session itself.
  ghost function CallSteps(next: H.Holder, step: H.Step, owner: Owner, ids: seq<KeyId>): seq<Step> {
    match step
    case Lease(call, _, _) => LeaseSteps(next.leases, call, ids)
    case Resume(call) => LeaseSteps(next.leases, call, ids)
    case Release(call) => [CallEnd(call)]
    case Collect => [Drop(owner)]
    case _ => []
  }

  function LeaseSteps(leases: map<H.CallId, nat>, call: H.CallId, ids: seq<KeyId>): seq<Step> {
    if call in leases && leases[call] < |ids| then [CallLease(call, ids[leases[call]])] else []
  }

  // And the end of a credential handed over.
  function EndSteps(before: seq<nat>, after: seq<nat>, ids: seq<KeyId>): seq<Step> {
    if |after| > |before| && after[|before|] < |ids| then [SessionEnd(ids[after[|before|]])] else []
  }

  ghost function ClientSteps(p: Pair, act: Act, owner: Owner): seq<Step>
    requires Possible(p, act, owner)
  {
    var next := H.Next(p.h, HolderStep(act));
    CallSteps(next, HolderStep(act), owner, IdsAfter(p, act)) + EndSteps(p.h.ended, next.ended, IdsAfter(p, act))
  }

  // Both after an act; the client, if it allows its part.
  ghost function After(p: Pair, act: Act, owner: Owner): Pair
    requires Possible(p, act, owner)
  {
    var steps := ClientSteps(p, act, owner);
    Pair(if Legal(p.c, steps) then Run(p.c, steps) else p.c, H.Next(p.h, HolderStep(act)), IdsAfter(p, act))
  }

  // ---- what a step of the holder does --------------------------------------

  ghost predicate LeasesGrow(h: H.Holder, next: H.Holder, call: H.CallId) {
    && call !in h.leases && call !in next.waiters && next.waiters.Keys <= h.waiters.Keys
    && h.current.Some? && h.current.value < |h.minted| && h.current.value !in h.ended
    && next.leases == h.leases[call := h.current.value]
  }

  // The leases and the waiters, before and after.
  ghost predicate CallShape(h: H.Holder, step: H.Step, next: H.Holder) {
    match step
    case Lease(call, _, _) =>
      && call !in h.leases && call !in h.waiters
      && (LeasesGrow(h, next, call) || (next.leases == h.leases && next.waiters.Keys <= h.waiters.Keys + {call}))
    case Resume(call) =>
      && call in h.waiters
      && (LeasesGrow(h, next, call) || (next.leases == h.leases && next.waiters.Keys <= h.waiters.Keys))
    case Release(call) => call in h.leases && next.leases == h.leases - {call} && next.waiters == h.waiters
    case _ => next.leases == h.leases && next.waiters.Keys <= h.waiters.Keys
  }

  // The credentials got and handed over, and the mint running.
  ghost predicate KeyShape(h: H.Holder, step: H.Step, next: H.Holder) {
    && |next.minted| == |h.minted| + (if step.Settle? && step.outcome.Fresh? then 1 else 0)
    && !h.collected && (next.collected <==> step.Collect?)
    && (step.Settle? || (h.minting ==> next.minting))
    && (step.Collect? ==> h.leases == map[] && !h.minting)
    && (next.ended == h.ended || (|next.ended| == |h.ended| + 1 && next.ended[..|h.ended|] == h.ended))
    && ((step.Lease? || step.Resume? || step.Collect?) ==> next.ended == h.ended)
  }

  lemma CallShapeOf(h: H.Holder, step: H.Step)
    requires H.Inv(h) && H.Enabled(h, step)
    ensures CallShape(h, step, H.Next(h, step))
  {
    hide H.Waiting, H.Counted, Threaded.NoDuplicates, H.Shutting, Before;
  }

  lemma KeyShapeOf(h: H.Holder, step: H.Step)
    requires H.Inv(h) && H.Enabled(h, step)
    ensures KeyShape(h, step, H.Next(h, step))
  {
    hide H.Waiting, H.Counted, H.Disposed, H.Shutting, Before;
  }

  // ---- the client allows it ------------------------------------------------

  lemma LeaseAllowed(c: Client, owner: Owner, ids: seq<KeyId>, ended: seq<nat>, leases: map<H.CallId, nat>,
                     waiting: set<H.CallId>, left: set<H.CallId>, busy: bool, call: H.CallId, i: nat)
    requires Agree(c, owner, ids, ended, leases, waiting, false, busy)
    requires call !in leases && call in c.jobs.calls && c.jobs.calls[call] == None
    requires i < |ids| && i !in ended && left <= waiting && call !in left
    ensures Enabled(c, CallLease(call, ids[i]))
    ensures Agree(Next(c, CallLease(call, ids[i])), owner, ids, ended, leases[call := i], left, false, busy)
  {
  }

  lemma ReleaseAllowed(c: Client, owner: Owner, ids: seq<KeyId>, ended: seq<nat>, leases: map<H.CallId, nat>,
                       waiting: set<H.CallId>, busy: bool, call: H.CallId)
    requires Agree(c, owner, ids, ended, leases, waiting, false, busy) && call in leases
    ensures Enabled(c, CallEnd(call))
    ensures Agree(Next(c, CallEnd(call)), owner, ids, ended, leases - {call}, waiting, false, busy)
  {
    hide Finish;
  }

  lemma EndAllowed(c: Client, owner: Owner, ids: seq<KeyId>, ended: seq<nat>, leases: map<H.CallId, nat>,
                   waiting: set<H.CallId>, busy: bool, i: nat)
    requires Agree(c, owner, ids, ended, leases, waiting, false, busy)
    requires i < |ids| && i !in ended && forall call :: call in leases ==> leases[call] != i
    ensures Enabled(c, SessionEnd(ids[i]))
    ensures Agree(Next(c, SessionEnd(ids[i])), owner, ids, ended + [i], leases, waiting, false, busy)
  {
    hide EndKey, Minting;
    forall job | job in c.jobs.calls ensures c.jobs.calls[job] != Some(ids[i]) {
    }
  }

  lemma DropAllowed(c: Client, owner: Owner, ids: seq<KeyId>, ended: seq<nat>, waiting: set<H.CallId>)
    requires Agree(c, owner, ids, ended, map[], waiting, false, false)
    ensures Enabled(c, Drop(owner))
    ensures Agree(Next(c, Drop(owner)), owner, ids, ended, map[], waiting, true, false)
  {
  }

  // A credential handed over was not before, and is leased no more.
  lemma NewlyEnded(h: H.Holder, step: H.Step)
    requires H.Inv(h) && H.Enabled(h, step) && |H.Next(h, step).ended| > |h.ended|
    ensures var next := H.Next(h, step); var i := next.ended[|h.ended|];
            && i < |next.minted| && next.ended == h.ended + [i] && i !in h.ended
            && forall call :: call in next.leases ==> next.leases[call] != i
  {
    hide H.Next, H.Enabled, H.Waiting, H.Counted, H.Shutting, H.Given;
    KeyShapeOf(h, step);
    S.StepKeeps(h, step);
    var next := H.Next(h, step);
    var i := next.ended[|h.ended|];
    assert i in next.ended;
    S.UnusedIsUnleased(next.minted, next.leases, i);
  }

  // Everything agrees but the credentials just handed over.
  ghost predicate Ready(c: Client, owner: Owner, ids: seq<KeyId>, ended: seq<nat>, next: H.Holder) {
    |ids| == |next.minted| &&
    Agree(c, owner, ids, ended, next.leases, next.waiters.Keys, next.collected, next.minting)
  }

  lemma CallAllowed(p: Pair, step: H.Step, owner: Owner)
    requires H.Inv(p.h) && Joined(p, owner) && Possible(p, Does(step), owner)
    ensures var next := H.Next(p.h, step); var steps := CallSteps(next, step, owner, p.ids);
            Legal(p.c, steps) && Ready(Run(p.c, steps), owner, p.ids, p.h.ended, next)
  {
    hide H.Next, H.Enabled, H.Inv, Enabled, Next, Agree, Minting, AllReceived;
    CallShapeOf(p.h, step);
    KeyShapeOf(p.h, step);
    var next := H.Next(p.h, step);
    var steps := CallSteps(next, step, owner, p.ids);
    OneStep(p.c, steps);
    match step
    case Lease(call, _, _) => LeaseJoins(p, owner, call, next);
    case Resume(call) => WaiterCalls(p, owner, call); LeaseJoins(p, owner, call, next);
    case Release(call) =>
      ReleaseAllowed(p.c, owner, p.ids, p.h.ended, p.h.leases, p.h.waiters.Keys, p.h.minting, call);
      Fewer(Run(p.c, steps), owner, p.ids, p.h.ended, next.leases, p.h.waiters.Keys, next.waiters.Keys, false,
            p.h.minting, next.minting);
    case Collect =>
      DropAllowed(p.c, owner, p.ids, p.h.ended, p.h.waiters.Keys);
      Fewer(Run(p.c, steps), owner, p.ids, p.h.ended, next.leases, p.h.waiters.Keys, next.waiters.Keys, true,
            false, next.minting);
    case _ =>
      Fewer(p.c, owner, p.ids, p.h.ended, next.leases, p.h.waiters.Keys, next.waiters.Keys, false,
            p.h.minting, next.minting);
  }

  lemma OneStep(c: Client, steps: seq<Step>)
    ensures |steps| == 1 ==> (Legal(c, steps) <==> Enabled(c, steps[0]))
    ensures |steps| == 1 && Enabled(c, steps[0]) ==> Run(c, steps) == Next(c, steps[0])
    ensures steps == [] ==> Legal(c, steps) && Run(c, steps) == c
  {
    hide Enabled, Next;
    if |steps| == 1 && Enabled(c, steps[0]) {
      assert steps[1..] == [];
      assert Legal(Next(c, steps[0]), []);
    }
  }

  // Fewer calls waiting, and a mint still running, only make it easier to agree.
  lemma Fewer(c: Client, owner: Owner, ids: seq<KeyId>, ended: seq<nat>, leases: map<H.CallId, nat>,
              waiting: set<H.CallId>, left: set<H.CallId>, collected: bool, busy: bool, still: bool)
    requires Agree(c, owner, ids, ended, leases, waiting, collected, busy)
    requires left <= waiting && (busy ==> still || (!Minting(c.jobs, owner) && AllReceived(c.keys, owner, ids)))
    ensures Agree(c, owner, ids, ended, leases, left, collected, still)
  {
    hide Minting, Theirs, Handed, AllReceived;
  }

  lemma WaiterCalls(p: Pair, owner: Owner, call: H.CallId)
    requires Joined(p, owner) && H.Inv(p.h) && call in p.h.waiters
    ensures call in p.c.jobs.calls && p.c.jobs.calls[call] == None && call !in p.h.leases
  {
    hide Minting, Theirs, Handed, AllReceived, H.Counted, H.Disposed, H.Waiting, H.Given, H.Shutting;
    assert call in p.h.waiters.Keys;
  }

  lemma LeaseJoins(p: Pair, owner: Owner, call: H.CallId, next: H.Holder)
    requires Joined(p, owner) && !p.h.collected && !next.collected && |next.minted| == |p.h.minted|
    requires p.h.minting ==> next.minting
    requires call in p.c.jobs.calls && p.c.jobs.calls[call] == None && call !in p.h.leases
    requires || LeasesGrow(p.h, next, call)
             || (next.leases == p.h.leases && next.waiters.Keys <= p.h.waiters.Keys + {call})
    ensures var steps := LeaseSteps(next.leases, call, p.ids);
            Legal(p.c, steps) && Ready(Run(p.c, steps), owner, p.ids, p.h.ended, next)
  {
    hide Enabled, Next, Minting, AllReceived, Theirs, Handed;
    var steps := LeaseSteps(next.leases, call, p.ids);
    OneStep(p.c, steps);
    if LeasesGrow(p.h, next, call) {
      LeaseAllowed(p.c, owner, p.ids, p.h.ended, p.h.leases, p.h.waiters.Keys, next.waiters.Keys, p.h.minting, call,
                   p.h.current.value);
      Fewer(Run(p.c, steps), owner, p.ids, p.h.ended, next.leases, next.waiters.Keys, next.waiters.Keys, false,
            p.h.minting, next.minting);
    }
  }

  lemma ReceiptAllowed(p: Pair, act: Act, owner: Owner)
    requires H.Inv(p.h) && Joined(p, owner) && Possible(p, act, owner) && act.Receives?
    ensures var next := H.Next(p.h, HolderStep(act));
            && Ready(p.c, owner, IdsAfter(p, act), p.h.ended, next)
            && CallSteps(next, HolderStep(act), owner, IdsAfter(p, act)) == []
  {
    hide H.Next, H.Enabled, H.Inv, Minting;
    CallShapeOf(p.h, HolderStep(act));
    KeyShapeOf(p.h, HolderStep(act));
    EndedInRange(p.h);
  }

  lemma EndedInRange(h: H.Holder)
    requires H.Inv(h)
    ensures forall i :: i in h.ended ==> i < |h.minted|
  {
    hide H.Counted, H.Waiting, H.Given, H.Shutting;
  }

  // The last of what the client sees of an act: the end of what it handed over.
  lemma EndJoins(c: Client, h: H.Holder, step: H.Step, owner: Owner, ids: seq<KeyId>)
    requires H.Inv(h) && H.Enabled(h, step) && Ready(c, owner, ids, h.ended, H.Next(h, step))
    ensures var next := H.Next(h, step); var steps := EndSteps(h.ended, next.ended, ids);
            Legal(c, steps) && Joined(Pair(Run(c, steps), next, ids), owner)
  {
    hide H.Next, H.Enabled, H.Inv, Enabled, Next, Agree;
    KeyShapeOf(h, step);
    var next := H.Next(h, step);
    OneStep(c, EndSteps(h.ended, next.ended, ids));
    if |next.ended| > |h.ended| {
      NewlyEnded(h, step);
      EndAllowed(c, owner, ids, h.ended, next.leases, next.waiters.Keys, next.minting, next.ended[|h.ended|]);
    } else {
      assert next.ended == h.ended;
    }
  }

  lemma {:induction false} RunBoth(c: Client, first: seq<Step>, then': seq<Step>)
    requires Legal(c, first) && Legal(Run(c, first), then')
    ensures Legal(c, first + then') && Run(c, first + then') == Run(Run(c, first), then')
    decreases |first|
  {
    hide Enabled, Next;
    if first == [] {
      assert first + then' == then';
    } else {
      assert (first + then')[1..] == first[1..] + then';
      RunBoth(Next(c, first[0]), first[1..], then');
    }
  }

  /** Whatever happens in the holder, the client allows its part, and the two go on agreeing. */
  lemma ActAllowed(p: Pair, act: Act, owner: Owner)
    requires H.Inv(p.h) && Joined(p, owner) && Possible(p, act, owner)
    ensures Legal(p.c, ClientSteps(p, act, owner)) && Joined(After(p, act, owner), owner)
  {
    hide H.Next, H.Enabled, H.Inv, Enabled, Next, Joined, CallSteps, EndSteps;
    var step, ids := HolderStep(act), IdsAfter(p, act);
    var first := CallSteps(H.Next(p.h, step), step, owner, ids);
    if act.Does? { CallAllowed(p, step, owner); } else { ReceiptAllowed(p, act, owner); OneStep(p.c, first); }
    EndJoins(Run(p.c, first), p.h, step, owner, ids);
    RunBoth(p.c, first, EndSteps(p.h.ended, H.Next(p.h, step).ended, ids));
  }

  // ---- what happens elsewhere ----------------------------------------------

  // A mint of the session's begins only when the client is told to begin one.
  lemma MintingElsewhere(c: Client, other: Step, owner: Owner)
    requires Enabled(c, other) && Minting(Next(c, other).jobs, owner)
    ensures Minting(c.jobs, owner) || (other.MintBegin? && other.owner == owner)
  {
    hide Begin, Prepare, Register, Record, SendEnd, EndKey, Shut, Finish, Unexpired;
  }

  // Keys are only added to, and nobody else's end is one of the session's.
  lemma KeysElsewhere(c: Client, other: Step, owner: Owner, ids: seq<KeyId>, ended: seq<nat>)
    requires Enabled(c, other) && Theirs(c.keys, owner, ids) && Handed(c.keys, owner, ended, ids)
    requires other.SessionEnd? ==> !Owned(c.keys, owner, other.key)
    ensures Theirs(Next(c, other).keys, owner, ids) && Handed(Next(c, other).keys, owner, ended, ids)
    ensures owner in Next(c, other).keys.collected <==> owner in c.keys.collected || other == Drop(owner)
  {
    hide Begin, Prepare, Register, Record, SendEnd, EndKey, Shut, Finish, Unexpired, Minting, Leased;
  }

  // A key is registered only by a mint of its own session.
  lemma ReceivedElsewhere(c: Client, other: Step, owner: Owner, ids: seq<KeyId>)
    requires Enabled(c, other) && AllReceived(c.keys, owner, ids) && !Minting(c.jobs, owner)
    requires Issued(c.reg.sent, c.keys) && Arriving(c.jobs, c.reg.sent, c.keys)
    ensures AllReceived(Next(c, other).keys, owner, ids)
  {
    hide Begin, Prepare, Register, Record, SendEnd, EndKey, Shut, Finish, Unexpired, Leased;
  }

  // A call begins with no key, leases one, and ends.
  lemma CallsMove(c: Client, other: Step)
    requires Enabled(c, other)
    ensures var calls := Next(c, other).jobs.calls;
            && (forall job :: job in calls ==>
                  if other.CallBegin? && other.job == job then calls[job] == None
                  else if other.CallLease? && other.job == job then calls[job] == Some(other.key)
                  else job in c.jobs.calls && calls[job] == c.jobs.calls[job])
            && (forall job :: job in c.jobs.calls ==> job in calls || other == CallEnd(job))
    ensures other.CallBegin? ==> other.job !in c.jobs.calls
    ensures other.CallLease? ==>
              other.job in c.jobs.calls && c.jobs.calls[other.job] == None && other.key in c.keys.issued
  {
    hide Begin, Prepare, Register, Record, SendEnd, EndKey, Shut, Finish, Unexpired, Minting, Leased;
  }

  // A key the service has issued keeps its owner.
  lemma OwnersMove(c: Client, other: Step, owner: Owner, k: KeyId)
    requires Enabled(c, other)
    ensures k in c.keys.issued ==> (Owned(Next(c, other).keys, owner, k) <==> Owned(c.keys, owner, k))
  {
    hide Begin, Prepare, Register, Record, SendEnd, EndKey, Shut, Finish, Unexpired, Minting, Leased, Held;
  }

  lemma CallsElsewhere(p: Pair, other: Step, owner: Owner)
    requires LeasesHeld(p.c.jobs, p.c.keys) && Enabled(p.c, other) && Foreign(p, other, owner)
    requires Calling(p.c.jobs.calls, p.c.keys, p.h.leases, p.h.waiters.Keys, owner, p.ids)
    ensures Calling(Next(p.c, other).jobs.calls, Next(p.c, other).keys, p.h.leases, p.h.waiters.Keys, owner, p.ids)
  {
    hide Next, Enabled, Begins, Owned;
    CallsMove(p.c, other);
    var calls, keys := Next(p.c, other).jobs.calls, Next(p.c, other).keys;
    forall job | job in calls && calls[job].Some? && Owned(keys, owner, calls[job].value)
      ensures job >= 0 && job in p.h.leases
    {
      OwnersMove(p.c, other, owner, calls[job].value);
    }
  }

  // What the client does without the session leaves the two in agreement.
  lemma ElsewhereJoins(p: Pair, other: Step, owner: Owner)
    requires Inv(p.c) && Joined(p, owner) && Enabled(p.c, other) && Foreign(p, other, owner)
    ensures Joined(Pair(Next(p.c, other), p.h, p.ids), owner)
  {
    hide Next, Enabled, Theirs, Handed, Calling, AllReceived, Minting, Weight, Distinct, Single, Marking,
         NoneAfterConfirmed, Logged, HeldUntouched, Known, Issued, Gone, LeasesHeld, Kept, Closing, Arriving;
    KeysElsewhere(p.c, other, owner, p.ids, p.h.ended);
    CallsElsewhere(p, other, owner);
    if !p.h.minting {
      ReceivedElsewhere(p.c, other, owner, p.ids);
      if Minting(Next(p.c, other).jobs, owner) {
        MintingElsewhere(p.c, other, owner);
      }
    }
  }
}
