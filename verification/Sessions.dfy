/**
  A whole client: its key registry and the credential holders of all the sessions
  it was asked for, each going its own way. Nothing is taken for granted of a
  session but what its holder does.
 */
module Sessions {
  import opened Wrappers
  import opened KeyRegistry
  import opened SessionKeys
  import opened CredentialTiming
  import K = KeyRegistrySafety
  import H = SessionHolder
  import S = SessionHolderSafety
  import C = CredentialSafety

  // A session's holder, and the key that each of its credentials is.
  datatype Session = Session(h: H.Holder, ids: seq<KeyId>)

  datatype World = World(c: Client, sessions: map<Owner, Session>)

  datatype Event =
    | Opens(owner: Owner)         // `impersonate`: a holder, with no key yet
    | Of(owner: Owner, act: Act)  // something a session does
    | Around(other: Step)         // the client, its own calls and mints, the service

  function View(w: World, owner: Owner): Pair
    requires owner in w.sessions
  {
    Pair(w.c, w.sessions[owner].h, w.sessions[owner].ids)
  }

  // A call is made for one session, and leases from its holder only.
  ghost predicate Elsewhere(w: World, owner: Owner, call: H.CallId) {
    forall o :: o in w.sessions && o != owner ==> call !in w.sessions[o].h.waiters
  }

  // What goes on without the sessions: they alone lease keys, end them and are collected.
  ghost predicate Outside(w: World, other: Step) {
    match other
    case CallLease(_, _) => false
    case SessionEnd(_) => false
    case Drop(_) => false
    case CallEnd(job) =>
      forall o :: o in w.sessions ==> job !in w.sessions[o].h.waiters && job !in w.sessions[o].h.leases
    case MintBegin(_, _, o, _) => o in w.sessions && Begins(View(w, o), o)
    case _ => true
  }

  ghost predicate Can(w: World, event: Event) {
    match event
    case Opens(owner) => owner !in w.sessions
    case Of(owner, act) =>
      && owner in w.sessions && Possible(View(w, owner), act, owner)
      && (act.Does? && act.step.Lease? ==> Elsewhere(w, owner, act.step.call))
    case Around(other) => Enabled(w.c, other) && Outside(w, other)
  }

  ghost function Then(w: World, event: Event): World
    requires Can(w, event)
  {
    match event
    case Opens(owner) => w.(sessions := w.sessions[owner := Session(H.Init(), [])])
    case Of(owner, act) =>
      var q := After(View(w, owner), act, owner);
      World(q.c, w.sessions[owner := Session(q.h, q.ids)])
    case Around(other) => w.(c := Next(w.c, other))
  }

  ghost predicate Happen(w: World, events: seq<Event>)
    decreases |events|
  {
    events == [] || (Can(w, events[0]) && Happen(Then(w, events[0]), events[1..]))
  }

  ghost function ThenAll(w: World, events: seq<Event>): World
    requires Happen(w, events)
    decreases |events|
  {
    if events == [] then w else ThenAll(Then(w, events[0]), events[1..])
  }

  function New(): World {
    World(Init(), map[])
  }

  // ---- the invariant -------------------------------------------------------

  ghost predicate Apart(sessions: map<Owner, Session>) {
    forall o, p :: o in sessions && p in sessions && o != p ==>
      sessions[o].h.waiters.Keys !! sessions[p].h.waiters.Keys
  }

  // No key, mint or collection is of an owner that is no session's.
  ghost predicate OwnersKnown(c: Client, owners: set<Owner>) {
    && (forall k :: k in c.keys.issued ==> c.keys.issued[k] in owners)
    && (forall o :: Minting(c.jobs, o) ==> o in owners)
    && c.keys.collected <= owners
  }

  ghost predicate Together(w: World) {
    && K.Reachable(w.c)
    && Apart(w.sessions)
    && OwnersKnown(w.c, w.sessions.Keys)
    && forall o :: o in w.sessions ==> S.Reachable(w.sessions[o].h) && Joined(View(w, o), o)
  }

  // A session new to the client: no key is its own yet.
  lemma NewSessionJoins(c: Client, owners: set<Owner>, owner: Owner)
    requires OwnersKnown(c, owners) && owner !in owners
    requires forall k :: k in c.keys.handed ==> k in c.keys.issued
    ensures S.Reachable(H.Init()) && Joined(Pair(c, H.Init(), []), owner)
  {
    assert H.Legal(H.Init(), []) && H.Run(H.Init(), []) == H.Init();
    hide Minting;
  }

  // ---- a session's act, seen by another ------------------------------------

  lemma Stays(c: Client, steps: seq<Step>, h: H.Holder, ids: seq<KeyId>, owner: Owner)
    requires Inv(c) && |steps| <= 1 && Legal(c, steps) && Joined(Pair(c, h, ids), owner)
    requires steps != [] ==> Foreign(Pair(c, h, ids), steps[0], owner)
    ensures Inv(Run(c, steps)) && Joined(Pair(Run(c, steps), h, ids), owner)
  {
    hide Inv, Joined, Foreign, Enabled, Next;
    OneStep(c, steps);
    if steps != [] {
      ElsewhereJoins(Pair(c, h, ids), steps[0], owner);
      K.StepKeeps(c, steps[0]);
    }
  }

  lemma CallForeign(p: Pair, q: Pair, act: Act, owner: Owner, other: Owner)
    requires p.c == q.c && owner != other && Joined(p, owner) && Joined(q, other)
    requires H.Inv(p.h) && Possible(p, act, owner) && p.h.waiters.Keys !! q.h.waiters.Keys
    requires act.Does? && act.step.Lease? ==> act.step.call !in q.h.waiters
    ensures var steps := CallSteps(H.Next(p.h, HolderStep(act)), HolderStep(act), owner, IdsAfter(p, act));
            |steps| <= 1 && (steps != [] ==> Foreign(q, steps[0], other))
  {
    hide H.Next, H.Enabled, H.Inv, Minting, AllReceived, Handed;
    CallShapeOf(p.h, HolderStep(act));
    if act.Does? && act.step.Release? {
      assert act.step.call in p.h.leases;
      assert act.step.call !in q.h.waiters.Keys;
    }
  }

  lemma EndForeign(c: Client, h: H.Holder, next: H.Holder, ids: seq<KeyId>, owner: Owner, q: Pair, other: Owner)
    requires Theirs(c.keys, owner, ids) && q.c == c && owner != other
    ensures var steps := EndSteps(h.ended, next.ended, ids);
            |steps| <= 1 && (steps != [] ==> Foreign(q, steps[0], other))
  {
  }

  // One session's act leaves every other in agreement with the client.
  lemma OthersJoin(w: World, owner: Owner, act: Act, other: Owner)
    requires Inv(w.c) && Can(w, Of(owner, act)) && other in w.sessions && other != owner
    requires H.Inv(w.sessions[owner].h) && Apart(w.sessions)
    requires Joined(View(w, owner), owner) && Joined(View(w, other), other)
    ensures var q := After(View(w, owner), act, owner);
            Joined(Pair(q.c, w.sessions[other].h, w.sessions[other].ids), other)
  {
    hide Inv, H.Inv, H.Next, H.Enabled, Enabled, Next, Joined, Foreign, CallSteps, EndSteps, Theirs;
    var p, q := View(w, owner), View(w, other);
    var step, ids := HolderStep(act), IdsAfter(p, act);
    var first := CallSteps(H.Next(p.h, step), step, owner, ids);
    CallForeign(p, q, act, owner, other);
    FirstAllowed(p, act, owner);
    Stays(p.c, first, q.h, q.ids, other);
    var c := Run(p.c, first);
    EndForeign(c, p.h, H.Next(p.h, step), ids, owner, Pair(c, q.h, q.ids), other);
    EndJoins(c, p.h, step, owner, ids);
    var last := EndSteps(p.h.ended, H.Next(p.h, step).ended, ids);
    Stays(c, last, q.h, q.ids, other);
    RunBoth(p.c, first, last);
  }

  lemma FirstAllowed(p: Pair, act: Act, owner: Owner)
    requires H.Inv(p.h) && Joined(p, owner) && Possible(p, act, owner)
    ensures var next := H.Next(p.h, HolderStep(act));
            var first := CallSteps(next, HolderStep(act), owner, IdsAfter(p, act));
            && Legal(p.c, first) && Ready(Run(p.c, first), owner, IdsAfter(p, act), p.h.ended, next)
            && Theirs(Run(p.c, first).keys, owner, IdsAfter(p, act))
  {
    hide H.Next, H.Enabled, H.Inv, Enabled, Next, Joined, CallSteps, Theirs, Handed, Calling, AllReceived, Minting;
    if act.Does? {
      CallAllowed(p, act.step, owner);
    } else {
      ReceiptAllowed(p, act, owner);
      OneStep(p.c, []);
    }
  }

  // ---- every run -----------------------------------------------------------

  lemma {:induction false} ReachableRun(c: Client, steps: seq<Step>)
    requires K.Reachable(c) && Legal(c, steps)
    ensures K.Reachable(Run(c, steps))
    decreases |steps|
  {
    hide Enabled, Next, K.Reachable;
    if steps != [] {
      K.ReachableStep(c, steps[0]);
      ReachableRun(Next(c, steps[0]), steps[1..]);
    }
  }

  // The steps of a session issue no key and begin no mint; it alone may be collected.
  predicate OfSession(step: Step, owner: Owner) {
    step.CallLease? || step.CallEnd? || step.SessionEnd? || step == Drop(owner)
  }

  lemma SessionSteps(p: Pair, act: Act, owner: Owner)
    requires Possible(p, act, owner)
    ensures forall i :: 0 <= i < |ClientSteps(p, act, owner)| ==> OfSession(ClientSteps(p, act, owner)[i], owner)
  {
    hide H.Next, H.Enabled, Minting, AllReceived, Owned;
  }

  lemma StepOwners(c: Client, step: Step, owner: Owner, owners: set<Owner>)
    requires Enabled(c, step) && OfSession(step, owner) && owner in owners && OwnersKnown(c, owners)
    ensures OwnersKnown(Next(c, step), owners)
  {
    hide EndKey, Finish, Held, Leased;
    forall o | Minting(Next(c, step).jobs, o) ensures Minting(c.jobs, o) {
    }
  }

  lemma {:induction false} RunOwners(c: Client, steps: seq<Step>, owner: Owner, owners: set<Owner>)
    requires Legal(c, steps) && owner in owners && OwnersKnown(c, owners)
    requires forall i :: 0 <= i < |steps| ==> OfSession(steps[i], owner)
    ensures OwnersKnown(Run(c, steps), owners)
    decreases |steps|
  {
    hide Enabled, Next, OwnersKnown, OfSession;
    if steps != [] {
      StepOwners(c, steps[0], owner, owners);
      RunOwners(Next(c, steps[0]), steps[1..], owner, owners);
    }
  }

  lemma AroundOwners(w: World, other: Step)
    requires Enabled(w.c, other) && Outside(w, other) && OwnersKnown(w.c, w.sessions.Keys)
    ensures OwnersKnown(Next(w.c, other), w.sessions.Keys)
  {
    hide Begin, Prepare, Register, Record, SendEnd, EndKey, Shut, Finish, Unexpired, Minting, Begins, Held, Leased;
    forall o | Minting(Next(w.c, other).jobs, o) ensures o in w.sessions.Keys {
      MintingElsewhere(w.c, other, o);
    }
    if other.MintReply? {
      AskingOwner(w.c, other.job);
    }
  }

  lemma AskingOwner(c: Client, job: JobId)
    requires job in c.jobs.asking
    ensures Minting(c.jobs, c.jobs.asking[job].owner)
  {
  }

  lemma WaitersApart(w: World, owner: Owner, act: Act)
    requires Can(w, Of(owner, act)) && H.Inv(w.sessions[owner].h) && Apart(w.sessions)
    ensures Apart(Then(w, Of(owner, act)).sessions)
  {
    hide H.Next, H.Enabled, H.Inv, Legal, Run, ClientSteps, Minting, AllReceived, Owned;
    CallShapeOf(w.sessions[owner].h, HolderStep(act));
  }

  lemma ActTogether(w: World, owner: Owner, act: Act)
    requires Together(w) && Can(w, Of(owner, act))
    ensures Together(Then(w, Of(owner, act)))
  {
    hide H.Next, H.Enabled, H.Inv, Inv, Enabled, Next, Joined, Apart, OwnersKnown, ClientSteps, K.Reachable,
         S.Reachable, Possible, Elsewhere;
    var p := View(w, owner);
    Settled(w, owner);
    ActAllowed(p, act, owner);
    WaitersApart(w, owner, act);
    ReachableRun(p.c, ClientSteps(p, act, owner));
    SessionSteps(p, act, owner);
    RunOwners(p.c, ClientSteps(p, act, owner), owner, w.sessions.Keys);
    HolderSteps(p, act, owner);
    forall other | other in w.sessions && other != owner
      ensures Joined(Pair(After(p, act, owner).c, w.sessions[other].h, w.sessions[other].ids), other)
    {
      OthersJoin(w, owner, act, other);
    }
    assert Then(w, Of(owner, act)).sessions.Keys == w.sessions.Keys;
  }

  lemma HolderSteps(p: Pair, act: Act, owner: Owner)
    requires S.Reachable(p.h) && Possible(p, act, owner)
    ensures S.Reachable(After(p, act, owner).h)
  {
    hide H.Next, H.Enabled, S.Reachable, ClientSteps, Minting, AllReceived;
    S.ReachableStep(p.h, HolderStep(act));
  }

  lemma Settled(w: World, owner: Owner)
    requires Together(w) && owner in w.sessions
    ensures Inv(w.c) && H.Inv(w.sessions[owner].h) && Joined(View(w, owner), owner)
  {
    hide Inv, H.Inv, H.InRange, Joined, K.Reachable, S.Reachable, Apart, OwnersKnown;
    K.ReachableKeeps(w.c);
    S.ReachableKeeps(w.sessions[owner].h);
  }

  lemma AroundTogether(w: World, other: Step)
    requires Together(w) && Can(w, Around(other))
    ensures Together(Then(w, Around(other)))
  {
    hide H.Inv, Inv, Enabled, Next, Joined, Apart, OwnersKnown, K.Reachable, S.Reachable, Outside, Foreign;
    K.ReachableKeeps(w.c);
    K.ReachableStep(w.c, other);
    AroundOwners(w, other);
    forall o | o in w.sessions ensures Joined(View(Then(w, Around(other)), o), o) {
      OutsideForeign(w, other, o);
      ElsewhereJoins(View(w, o), other, o);
    }
  }

  lemma OutsideForeign(w: World, other: Step, o: Owner)
    requires Outside(w, other) && o in w.sessions
    ensures Foreign(View(w, o), other, o)
  {
    hide Begins, Owned;
  }

  // Only keys of the service's are ever handed over.
  lemma {:induction false} HandedIssued(c: Client)
    requires K.Reachable(c)
    ensures forall k :: k in c.keys.handed ==> k in c.keys.issued
  {
    hide Legal, Run;
    var steps :| Legal(Init(), steps) && Run(Init(), steps) == c;
    HandedIssuedRun(Init(), steps);
  }

  lemma {:induction false} HandedIssuedRun(c: Client, steps: seq<Step>)
    requires Legal(c, steps) && forall k :: k in c.keys.handed ==> k in c.keys.issued
    ensures forall k :: k in Run(c, steps).keys.handed ==> k in Run(c, steps).keys.issued
    decreases |steps|
  {
    hide Enabled, Next;
    if steps != [] {
      HandedIssuedStep(c, steps[0]);
      HandedIssuedRun(Next(c, steps[0]), steps[1..]);
    }
  }

  lemma HandedIssuedStep(c: Client, step: Step)
    requires Enabled(c, step) && forall k :: k in c.keys.handed ==> k in c.keys.issued
    ensures forall k :: k in Next(c, step).keys.handed ==> k in Next(c, step).keys.issued
  {
    hide Begin, Prepare, Register, Record, SendEnd, EndKey, Shut, Finish, Unexpired, Minting, Leased;
  }

  lemma OpensTogether(w: World, owner: Owner)
    requires Together(w) && Can(w, Opens(owner))
    ensures Together(Then(w, Opens(owner)))
  {
    hide Joined, K.Reachable, S.Reachable, Minting;
    HandedIssued(w.c);
    NewSessionJoins(w.c, w.sessions.Keys, owner);
  }

  /**
    Whatever happens in a client and all its sessions together, the client's part
    is a run of the registry, and each session's a run of its holder, so that what
    KeyRegistrySafety and SessionHolderSafety prove holds of all of them at once;
    and each session agrees with the client throughout on which keys are its own,
    leased, handed over and gone.
   */
  lemma {:induction false} RunTogether(w: World, events: seq<Event>)
    requires Together(w) && Happen(w, events)
    ensures Together(ThenAll(w, events))
    decreases |events|
  {
    hide Together, Can, Then;
    if events != [] {
      match events[0] {
        case Opens(owner) => OpensTogether(w, owner);
        case Of(owner, act) => ActTogether(w, owner, act);
        case Around(other) => AroundTogether(w, other);
      }
      RunTogether(Then(w, events[0]), events[1..]);
    }
  }

  lemma NewTogether()
    ensures Together(New())
  {
    assert Legal(Init(), []) && Run(Init(), []) == Init();
  }

  // ---- what follows --------------------------------------------------------

  // Every key whose session called its end was sent one, unless the client has closed.
  ghost predicate HandedSent(c: Client) {
    forall k :: k in c.keys.handed ==> k in c.reg.sent || c.reg.closed
  }

  lemma EndKeySends(c: Client, k: KeyId)
    requires Inv(c) && Enabled(c, SessionEnd(k)) && !c.reg.closed
    ensures k in Next(c, SessionEnd(k)).reg.sent
  {
    hide Weight, Distinct, Single, NoneAfterConfirmed, HeldUntouched, Known, Issued, Gone, LeasesHeld, Kept, Closing,
         Arriving, Leased;
  }

  lemma HandedSentStep(c: Client, step: Step)
    requires Inv(c) && Enabled(c, step) && HandedSent(c)
    ensures HandedSent(Next(c, step))
  {
    hide Inv;
    K.StepLog(c, step);
    if step.SessionEnd? && !c.reg.closed {
      EndKeySends(c, step.key);
    }
    hide Begin, Prepare, Register, Record, SendEnd, EndKey, Shut, Finish, Unexpired, Minting, Leased, Held;
  }

  lemma {:induction false} HandedSentRun(c: Client, steps: seq<Step>)
    requires Inv(c) && Legal(c, steps) && HandedSent(c)
    ensures HandedSent(Run(c, steps))
    decreases |steps|
  {
    hide Inv, Enabled, Next, HandedSent;
    if steps != [] {
      HandedSentStep(c, steps[0]);
      K.StepKeeps(c, steps[0]);
      HandedSentRun(Next(c, steps[0]), steps[1..]);
    }
  }

  lemma HandedMeansSent(c: Client)
    requires K.Reachable(c)
    ensures HandedSent(c)
  {
    hide Legal, Run;
    var steps :| Legal(Init(), steps) && Run(Init(), steps) == c;
    HandedSentRun(Init(), steps);
  }

  /**
    No key of a session is ended while the session could still send it: after any
    run of the client and all its sessions, no end was ever sent of the key of a
    credential that its holder, not yet garbage, has not handed over; and one it
    has handed over was handed over once, is in no call, and was sent its end,
    unless the client had closed.
   */
  lemma EndsFollowTheHolder(events: seq<Event>, owner: Owner, i: nat)
    requires Happen(New(), events)
    requires owner in ThenAll(New(), events).sessions && i < |ThenAll(New(), events).sessions[owner].ids|
    ensures var w := ThenAll(New(), events);
            var k, h := w.sessions[owner].ids[i], w.sessions[owner].h;
            if i in h.ended then
              && k in w.c.keys.handed && !Leased(w.c.jobs, k) && multiset(h.ended)[i] == 1
              && (k in w.c.reg.sent || w.c.reg.closed)
            else h.collected || k !in w.c.reg.sent
  {
    hide Happen, ThenAll, Inv, H.Inv, Together, Joined, HandedSent;
    NewTogether();
    RunTogether(New(), events);
    KeyFollows(ThenAll(New(), events), owner, i);
  }

  lemma KeyFollows(w: World, owner: Owner, i: nat)
    requires Together(w) && owner in w.sessions && i < |w.sessions[owner].ids|
    ensures var k, h := w.sessions[owner].ids[i], w.sessions[owner].h;
            if i in h.ended then
              && k in w.c.keys.handed && !Leased(w.c.jobs, k) && multiset(h.ended)[i] == 1
              && (k in w.c.reg.sent || w.c.reg.closed)
            else h.collected || k !in w.c.reg.sent
  {
    hide K.Reachable, S.Reachable, Apart, OwnersKnown, Minting, AllReceived, Weight, Distinct, Single, Marking,
         NoneAfterConfirmed, Logged, Known, Issued, Gone, Kept, Closing, Arriving, H.Counted, H.Waiting, H.Given,
         H.Shutting;
    Settled(w, owner);
    HandedMeansSent(w.c);
    if i in w.sessions[owner].h.ended {
      C.OccursOnce(w.sessions[owner].h.ended, i);
      NotLeased(w.c, w.sessions[owner].ids[i]);
    }
  }

  lemma NotLeased(c: Client, k: KeyId)
    requires Inv(c) && k in c.keys.handed
    ensures !Leased(c.jobs, k)
  {
    hide Weight, Distinct, Single, Marking, NoneAfterConfirmed, HeldUntouched, Known, Issued, Gone, Kept, Logged,
         Closing, Arriving;
  }

  /**
    A session that was closed leaves no key live: once its close is over and its
    calls are done, every key ever registered for it, that of a mint running as it
    was closed among them, has had its end called, and sent unless the client had
    closed; and nothing more is registered for it.
   */
  lemma ClosedSessionLeavesNoKey(events: seq<Event>, owner: Owner, k: KeyId)
    requires Happen(New(), events) && owner in ThenAll(New(), events).sessions
    requires var h := ThenAll(New(), events).sessions[owner].h; h.shut == H.Done && h.leases == map[]
    ensures var c := ThenAll(New(), events).c;
            && (k in c.keys.registered && Owned(c.keys, owner, k) ==>
                  k in c.keys.handed && (k in c.reg.sent || c.reg.closed))
            && !Minting(c.jobs, owner)
  {
    hide Happen, ThenAll, Inv, H.Inv, Together, HandedSent, Minting;
    NewTogether();
    RunTogether(New(), events);
    var w := ThenAll(New(), events);
    ClosedLeaves(w, owner, k);
  }

  lemma ClosedLeaves(w: World, owner: Owner, k: KeyId)
    requires Together(w) && owner in w.sessions
    requires w.sessions[owner].h.shut == H.Done && w.sessions[owner].h.leases == map[]
    ensures k in w.c.keys.registered && Owned(w.c.keys, owner, k) ==>
              k in w.c.keys.handed && (k in w.c.reg.sent || w.c.reg.closed)
    ensures !Minting(w.c.jobs, owner)
  {
    hide K.Reachable, S.Reachable, Apart, OwnersKnown, Minting, Inv, H.Inv, H.InRange;
    Settled(w, owner);
    HandedMeansSent(w.c);
    DoneMintsNothing(w.sessions[owner].h);
    if k in w.c.keys.registered && Owned(w.c.keys, owner, k) {
      var i :| 0 <= i < |w.sessions[owner].ids| && w.sessions[owner].ids[i] == k;
      S.ClosedAndIdleMeansAllEnded(w.sessions[owner].h, i);
      assert i in multiset(w.sessions[owner].h.ended);
    }
  }

  lemma DoneMintsNothing(h: H.Holder)
    requires H.Inv(h) && h.shut == H.Done
    ensures !h.minting
  {
    hide H.Counted, H.Disposed, H.Waiting, H.Given;
  }

  // ---- how long a session's keys last --------------------------------------

  // What a holder has for a credential's expiry is what the registry has for its key's.
  ghost predicate Timed(registered: map<KeyId, real>, minted: seq<H.Credential>, ids: seq<KeyId>) {
    |ids| == |minted| &&
    forall i :: 0 <= i < |ids| ==>
      && ids[i] in registered && minted[i].expiresAt == Instant.At(registered[ids[i]])
      && NotAfter(minted[i].renewAt, minted[i].expiresAt)
  }

  ghost predicate AllTimed(w: World) {
    forall o :: o in w.sessions ==> Timed(w.c.keys.registered, w.sessions[o].h.minted, w.sessions[o].ids)
  }

  // A step changes who uses a credential and whether it is retired, not how long it lasts.
  lemma MintedLasts(h: H.Holder, step: H.Step)
    requires H.Enabled(h, step)
    ensures var minted := H.Next(h, step).minted;
            && |minted| == |h.minted| + (if step.Settle? && step.outcome.Fresh? then 1 else 0)
            && (forall i :: 0 <= i < |h.minted| ==>
                  minted[i].renewAt == h.minted[i].renewAt && minted[i].expiresAt == h.minted[i].expiresAt)
            && (step.Settle? && step.outcome.Fresh? ==>
                  && minted[|h.minted|].renewAt == step.outcome.renewAt
                  && minted[|h.minted|].expiresAt == step.outcome.expiresAt)
  {
    hide Before;
  }

  // A key keeps the expiry it was registered with.
  lemma RegisteredStays(c: Client, step: Step)
    requires Enabled(c, step) && Arriving(c.jobs, c.reg.sent, c.keys)
    ensures forall k :: k in c.keys.registered ==>
              k in Next(c, step).keys.registered && Next(c, step).keys.registered[k] == c.keys.registered[k]
  {
    hide Begin, Prepare, Register, Record, SendEnd, EndKey, Shut, Finish, Unexpired, Minting, Leased;
  }

  lemma {:induction false} SessionRegistersNone(c: Client, steps: seq<Step>, owner: Owner)
    requires Legal(c, steps) && forall i :: 0 <= i < |steps| ==> OfSession(steps[i], owner)
    ensures Run(c, steps).keys.registered == c.keys.registered
    decreases |steps|
  {
    hide Enabled, EndKey, Finish;
    if steps != [] {
      SessionRegistersNone(Next(c, steps[0]), steps[1..], owner);
    }
  }

  lemma ActTimed(w: World, owner: Owner, act: Act)
    requires Together(w) && AllTimed(w) && Can(w, Of(owner, act))
    ensures AllTimed(Then(w, Of(owner, act)))
  {
    hide H.Next, H.Enabled, H.Inv, Inv, Enabled, Next, Joined, Apart, OwnersKnown, ClientSteps, K.Reachable,
         S.Reachable, Elsewhere, AllReceived, Minting;
    var p := View(w, owner);
    Settled(w, owner);
    ActAllowed(p, act, owner);
    SessionSteps(p, act, owner);
    SessionRegistersNone(p.c, ClientSteps(p, act, owner), owner);
    MintedLasts(p.h, HolderStep(act));
  }

  lemma AroundTimed(w: World, other: Step)
    requires Together(w) && AllTimed(w) && Can(w, Around(other))
    ensures AllTimed(Then(w, Around(other)))
  {
    hide Enabled, Next, Joined, Apart, OwnersKnown, K.Reachable, S.Reachable, Outside, Weight, Distinct, Single,
         Marking, NoneAfterConfirmed, Logged, HeldUntouched, Known, Issued, Gone, LeasesHeld, Kept, Closing, Arriving;
    K.ReachableKeeps(w.c);
    RegisteredStays(w.c, other);
    var registered := Next(w.c, other).keys.registered;
    forall o | o in w.sessions ensures Timed(registered, w.sessions[o].h.minted, w.sessions[o].ids) {
      TimedStays(w.c.keys.registered, registered, w.sessions[o].h.minted, w.sessions[o].ids);
    }
  }

  lemma TimedStays(registered: map<KeyId, real>, more: map<KeyId, real>, minted: seq<H.Credential>, ids: seq<KeyId>)
    requires Timed(registered, minted, ids)
    requires forall k :: k in registered ==> k in more && more[k] == registered[k]
    ensures Timed(more, minted, ids)
  {
    forall i | 0 <= i < |ids| ensures ids[i] in registered && ids[i] in more && more[ids[i]] == registered[ids[i]] {
      var k := ids[i];
      assert k in registered;
    }
  }

  lemma {:induction false} RunTimed(w: World, events: seq<Event>)
    requires Together(w) && AllTimed(w) && Happen(w, events)
    ensures AllTimed(ThenAll(w, events))
    decreases |events|
  {
    hide Together, Can, Then, AllTimed;
    if events != [] {
      match events[0] {
        case Opens(owner) => OpensTogether(w, owner); OpensTimed(w, owner);
        case Of(owner, act) => ActTogether(w, owner, act); ActTimed(w, owner, act);
        case Around(other) => AroundTogether(w, other); AroundTimed(w, other);
      }
      RunTimed(Then(w, events[0]), events[1..]);
    }
  }

  lemma NewTimed()
    ensures AllTimed(New())
  {
  }

  lemma OpensTimed(w: World, owner: Owner)
    requires AllTimed(w) && Can(w, Opens(owner))
    ensures AllTimed(Then(w, Opens(owner)))
  {
  }

  /**
    What a call of a session is served at once is a key the registry does not take
    for expired at the reading that admitted it, that was sent no end, and that is
    still live unless the client has since read a clock past its expiry.
   */
  lemma ServedKeyIsLive(events: seq<Event>, owner: Owner, call: H.CallId, first: real, second: real)
    requires Happen(New(), events) && owner in ThenAll(New(), events).sessions
    requires H.Enabled(ThenAll(New(), events).sessions[owner].h, H.Lease(call, first, second))
    requires S.ReplyTo(ThenAll(New(), events).sessions[owner].h, H.Lease(call, first, second)).Leased?
    ensures var w := ThenAll(New(), events);
            var s := w.sessions[owner];
            var i := S.ReplyTo(s.h, H.Lease(call, first, second)).credential;
            && i < |s.ids| == |s.h.minted|
            && s.ids[i] in w.c.keys.registered
            && S.AdmittedAt(s.h.minted[i], first, second) < w.c.keys.registered[s.ids[i]]
            && s.ids[i] !in w.c.reg.sent
            && (w.c.swept == None ==> s.ids[i] in w.c.reg.live || w.c.keys.registered[s.ids[i]] <= w.c.clock)
  {
    hide Happen, ThenAll, Together, H.Next, H.Enabled, H.Inv, Inv, Joined, HandedSent, AllTimed, S.Reachable, S.ReplyTo;
    NewTogether();
    NewTimed();
    RunTogether(New(), events);
    RunTimed(New(), events);
    ServedLives(ThenAll(New(), events), owner, call, first, second);
  }

  lemma ServedLives(w: World, owner: Owner, call: H.CallId, first: real, second: real)
    requires Together(w) && AllTimed(w) && owner in w.sessions
    requires H.Enabled(w.sessions[owner].h, H.Lease(call, first, second))
    requires S.ReplyTo(w.sessions[owner].h, H.Lease(call, first, second)).Leased?
    ensures var s := w.sessions[owner];
            var i := S.ReplyTo(s.h, H.Lease(call, first, second)).credential;
            && i < |s.ids| == |s.h.minted|
            && s.ids[i] in w.c.keys.registered
            && S.AdmittedAt(s.h.minted[i], first, second) < w.c.keys.registered[s.ids[i]]
            && s.ids[i] !in w.c.reg.sent
            && (w.c.swept == None ==> s.ids[i] in w.c.reg.live || w.c.keys.registered[s.ids[i]] <= w.c.clock)
  {
    hide H.Next, H.Enabled, K.Reachable, S.Reachable, Apart, OwnersKnown, Minting, AllReceived, Weight, Distinct,
         Single, Marking, Known, Issued, Gone, Closing, Arriving, H.Counted, H.Waiting, H.Given, H.Shutting, S.ReplyTo,
         S.AdmittedAt, Calling, Open, NoneAfterConfirmed;
    Settled(w, owner);
    HandedMeansSent(w.c);
    S.ServedAtOnce(w.sessions[owner].h, call, first, second);
    NotGarbage(w.sessions[owner].h, H.Lease(call, first, second));
  }

  lemma NotGarbage(h: H.Holder, step: H.Step)
    requires H.Enabled(h, step)
    ensures !h.collected
  {
  }

  // ---- one run, from a call's wait to the end of the key it got ------------

  ghost predicate Leads(from: World, w: World) {
    exists events :: Happen(from, events) && ThenAll(from, events) == w
  }

  lemma LeadsNowhere(w: World)
    ensures Leads(w, w)
  {
    assert Happen(w, []) && ThenAll(w, []) == w;
  }

  lemma {:induction false} HappenMore(w: World, events: seq<Event>, event: Event)
    requires Happen(w, events) && Can(ThenAll(w, events), event)
    ensures Happen(w, events + [event]) && ThenAll(w, events + [event]) == Then(ThenAll(w, events), event)
    decreases |events|
  {
    hide Can, Then;
    if events == [] {
      assert (events + [event])[1..] == [];
      assert Happen(Then(w, event), []);
    } else {
      assert (events + [event])[1..] == events[1..] + [event];
      HappenMore(Then(w, events[0]), events[1..], event);
    }
  }

  lemma LeadsOn(from: World, w: World, event: Event)
    requires Leads(from, w) && Can(w, event)
    ensures Leads(from, Then(w, event))
  {
    hide Can, Then, Happen, ThenAll;
    var events :| Happen(from, events) && ThenAll(from, events) == w;
    HappenMore(from, events, event);
  }

  lemma LeadsTogether(from: World, w: World)
    requires Together(from) && Leads(from, w)
    ensures Together(w)
  {
    hide Happen, ThenAll, Together;
    var events :| Happen(from, events) && ThenAll(from, events) == w;
    RunTogether(from, events);
  }

  lemma LeadsAround(from: World, w: World, other: Step)
    requires Leads(from, w) && Enabled(w.c, other) && Outside(w, other)
    ensures Leads(from, w.(c := Next(w.c, other)))
  {
    hide Enabled, Next, Outside, Leads;
    LeadsOn(from, w, Around(other));
  }

  lemma StaysOpen(r: Registry, user: User, now: real, k: KeyId, key: LiveKey)
    requires !r.closed
    ensures !Begin(r).closed && !Prepare(r, user, now).closed && !Finish(r).closed && !Register(r, k, key).closed
    ensures r.live == map[] ==> Begin(r).live == map[] && Ending(Prepare(r, user, now), user) == {}
  {
  }

  // Call 1, made for session 3, is left waiting, and no key was issued.
  ghost predicate CallWaits(w: World) {
    && !w.c.reg.closed && w.c.reg.live == map[] && w.c.keys == Init().keys && w.c.clock == 0.0
    && w.c.jobs == Jobs(map[1 := None], map[], map[], map[])
    && w.sessions == map[3 := Session(H.Init().(minting := true, waiters := map[1 := 0]), [])]
  }

  // It leases key 7.
  ghost predicate CallLeases(w: World) {
    && !w.c.reg.closed && w.c.keys == Keys(map[7 := 3], map[7 := 9.0], {}, {})
    && w.c.jobs == Jobs(map[1 := Some(7)], map[], map[], map[])
    && w.sessions.Keys == {3} && w.sessions[3].ids == [7]
    && w.sessions[3].h == H.Init().(minted := [H.Credential(Instant.At(8.0), Instant.At(9.0), 1, false)],
                                    current := Some(0), settled := [H.Gives(0)], leases := map[1 := 0])
  }

  // And still does, in a session that was closed.
  ghost predicate SessionCloses(w: World) {
    && !w.c.reg.closed && w.c.keys == Keys(map[7 := 3], map[7 := 9.0], {}, {})
    && w.c.jobs == Jobs(map[1 := Some(7)], map[], map[], map[])
    && w.sessions.Keys == {3} && w.sessions[3].ids == [7]
    && w.sessions[3].h == H.Init().(minted := [H.Credential(Instant.At(8.0), Instant.At(9.0), 1, true)],
                                    settled := [H.Gives(0)], shut := H.Done, leases := map[1 := 0])
  }

  // A call of a new session has to wait for its first key.
  lemma ACallWaits() returns (w: World)
    ensures Leads(New(), w) && CallWaits(w)
  {
    hide Leads;
    LeadsNowhere(New());
    LeadsOn(New(), New(), Opens(3));
    var first := Then(New(), Opens(3));
    LeadsOn(New(), first, Around(CallBegin(1)));
    var begun := Then(first, Around(CallBegin(1)));
    assert begun.sessions == map[3 := Session(H.Init(), [])];
    var lease := Does(H.Lease(1, 0.0, 0.0));
    assert Possible(View(begun, 3), lease, 3);
    LeadsOn(New(), begun, Of(3, lease));
    w := Then(begun, Of(3, lease));
    assert ClientSteps(View(begun, 3), lease, 3) == [];
  }

  // The mint begun for it is asked for.
  lemma AMintAsks(waits: World) returns (w: World)
    requires CallWaits(waits)
    ensures Leads(waits, w) && w.sessions == waits.sessions && !w.c.reg.closed && w.c.keys == Init().keys
    ensures w.c.jobs == Jobs(map[1 := None], map[], map[2 := Waiting(5, 3, false)], map[])
  {
    hide Begin, Prepare, Register, Finish, Unexpired, Leads, Ending;
    LeadsNowhere(waits);
    StaysOpen(waits.c.reg, 5, 0.0, 7, LiveKey(5, 9.0, 3, false, false));
    LeadsAround(waits, waits, MintBegin(2, 5, 3, 0.0));
    w := waits.(c := Next(waits.c, MintBegin(2, 5, 3, 0.0)));
    assert w.c.jobs == Jobs(map[1 := None], map[2 := Waiting(5, 3, false)], map[], map[]);
    StaysOpen(w.c.reg, 5, 0.0, 7, LiveKey(5, 9.0, 3, false, false));
    LeadsAround(waits, w, MintAsk(2));
    w := w.(c := Next(w.c, MintAsk(2)));
  }

  // It gets key 7, which is registered.
  lemma AKeyComes(waits: World) returns (w: World)
    requires CallWaits(waits)
    ensures Leads(waits, w) && w.sessions == waits.sessions && !w.c.reg.closed
    ensures w.c.jobs == waits.c.jobs && w.c.keys == Keys(map[7 := 3], map[7 := 9.0], {}, {})
  {
    hide Begin, Prepare, Register, Finish, Unexpired, Leads;
    w := AMintAsks(waits);
    StaysOpen(w.c.reg, 5, 0.0, 7, LiveKey(5, 9.0, 3, false, false));
    LeadsAround(waits, w, MintReply(2, 7));
    w := w.(c := Next(w.c, MintReply(2, 7)));
    assert w.c.jobs == Jobs(map[1 := None], map[], map[], map[2 := Arrival(5, 3, 7)]);
    StaysOpen(w.c.reg, 5, 0.0, 7, LiveKey(5, 9.0, 3, false, false));
    LeadsAround(waits, w, MintRegister(2, 9.0));
    w := w.(c := Next(w.c, MintRegister(2, 9.0)));
  }

  // It reaches the session's holder.
  lemma AKeyIsHeld(waits: World) returns (w: World)
    requires CallWaits(waits)
    ensures Leads(waits, w) && !w.c.reg.closed
    ensures w.c.jobs == waits.c.jobs && w.c.keys == Keys(map[7 := 3], map[7 := 9.0], {}, {})
    ensures w.sessions.Keys == {3} && w.sessions[3].ids == [7]
    ensures w.sessions[3].h == H.Init().(minted := [H.Credential(Instant.At(8.0), Instant.At(9.0), 0, false)],
                                         current := Some(0), settled := [H.Gives(0)], waiters := map[1 := 0])
  {
    hide Leads;
    var comes := AKeyComes(waits);
    var receives := Receives(7, Instant.At(8.0), Instant.At(9.0), 0.0);
    LeadsOn(waits, comes, Of(3, receives));
    w := Then(comes, Of(3, receives));
    assert ClientSteps(View(comes, 3), receives, 3) == [];
  }

  // The call leases it.
  lemma ACallLeases(waits: World) returns (w: World)
    requires CallWaits(waits)
    ensures Leads(waits, w) && CallLeases(w)
  {
    hide Leads;
    var held := AKeyIsHeld(waits);
    var resumes := Does(H.Resume(1));
    LeadsOn(waits, held, Of(3, resumes));
    w := Then(held, Of(3, resumes));
    assert ClientSteps(View(held, 3), resumes, 3) == [CallLease(1, 7)];
    OneStep(held.c, [CallLease(1, 7)]);
  }

  // The session is closed under the call.
  lemma ASessionCloses(leased: World) returns (w: World)
    requires CallLeases(leased)
    ensures Leads(leased, w) && SessionCloses(w)
  {
    hide Leads;
    LeadsNowhere(leased);
    var closes := Does(H.Close);
    LeadsOn(leased, leased, Of(3, closes));
    w := Then(leased, Of(3, closes));
    assert ClientSteps(View(leased, 3), closes, 3) == [];
  }

  lemma EndingStaysOpen(r: Registry, k: KeyId)
    requires !r.closed
    ensures !EndKey(Finish(r), k).closed
  {
  }

  // The call ends, and with it the key: two steps of the client.
  lemma ACallEnds(w: World) returns (q: World)
    requires Together(w) && SessionCloses(w)
    ensures Leads(w, q) && 3 in q.sessions && q.sessions[3].ids == [7] && !q.c.reg.closed
    ensures q.sessions[3].h == w.sessions[3].h.(minted := [H.Credential(Instant.At(8.0), Instant.At(9.0), 0, true)],
                                                leases := map[], ended := [0])
  {
    hide Leads, Together, EndKey, Finish, Joined, Inv, H.Inv;
    LeadsNowhere(w);
    var p, releases := View(w, 3), Does(H.Release(1));
    Settled(w, 3);
    LeadsOn(w, w, Of(3, releases));
    q := Then(w, Of(3, releases));
    ActAllowed(p, releases, 3);
    var steps := ClientSteps(p, releases, 3);
    assert steps == [CallEnd(1), SessionEnd(7)];
    assert steps[1..] == [SessionEnd(7)];
    OneStep(Next(w.c, CallEnd(1)), [SessionEnd(7)]);
    EndingStaysOpen(w.c.reg, 7);
  }

  // The session has let its key go, and the key was sent its end.
  ghost predicate KeyEnded(w: World) {
    && 3 in w.sessions && w.sessions[3].ids == [7] && w.sessions[3].h.leases == map[] && w.sessions[3].h.ended == [0]
    && 7 in w.c.reg.sent && !w.c.reg.closed
  }

  /**
    There are such runs: a call waits for a session's first key and leases it, the
    session is closed under it, and the key is sent its end as the call is done.
   */
  lemma AKeyIsServedAndEnded()
    ensures exists waits, leased, closed, done ::
              && Leads(New(), waits) && CallWaits(waits)
              && Leads(waits, leased) && CallLeases(leased)
              && Leads(leased, closed) && SessionCloses(closed)
              && Leads(closed, done) && KeyEnded(done)
  {
    hide Leads, Together, CallWaits, CallLeases, SessionCloses;
    var waits := ACallWaits();
    var leased := ACallLeases(waits);
    var closed := ASessionCloses(leased);
    NewTogether();
    LeadsTogether(New(), waits);
    LeadsTogether(waits, leased);
    LeadsTogether(leased, closed);
    var done := ACallEnds(closed);
    LeadsTogether(closed, done);
    KeyFollows(done, 3, 0);
  }
}
