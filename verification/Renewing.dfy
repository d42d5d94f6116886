/**
  The holder itself: `Renewing` of `python/memcoai/_auth.py`, with one method
  per section its lock guards. Each is proved to take the corresponding step
  of CredentialMachine, so what CredentialSafety proves of runs holds of it.

  Starting a thread and calling `_end` happen outside the lock, and are the
  callers' to do: the methods return whether to, and with what.
 */
module Renewing {
  import opened Wrappers
  import opened CredentialTiming
  import opened CredentialMachine

  class Minted {
    const issue: Issue
    const renewAt: Instant
    const expires: Instant
    var users: nat
    var retired: bool
    ghost var index: nat  // its place in `objects`, once it has arrived

    constructor (issue: Issue)
      ensures this.issue == issue && renewAt == RenewAt(issue) && expires == Expires(issue)
      ensures users == 0 && !retired
    {
      this.issue := issue;
      renewAt, expires := RenewAt(issue), Expires(issue);
      users, retired := 0, false;
    }
  }

  class Renewing {
    const watched: bool
    var current: Minted?
    var closed: bool
    var minting: bool
    var attempts: nat
    var failed: Option<Failure>
    var watching: Minted?

    ghost var state: Holder
    ghost var objects: seq<Minted>  // the object of each credential in `state.minted`

    ghost predicate Mirrors(m: Minted, c: Credential)
      reads m
    {
      c == Credential(m.issue, m.renewAt, m.expires, m.users, m.retired)
    }

    ghost predicate Denotes(m: Minted?, i: Option<nat>)
      reads this
    {
      if i.None? then m == null else i.value < |objects| && m == objects[i.value]
    }

    // The fields and the objects are what the model says they are.
    ghost predicate Valid()
      reads this, objects
    {
      && |objects| == |state.minted|
      && (forall i :: 0 <= i < |objects| ==> objects[i].index == i && Mirrors(objects[i], state.minted[i]))
      && Denotes(current, state.current) && Denotes(watching, state.watching)
      && watched == state.watched && closed == state.closed && minting == state.minting
      && attempts == |state.outcomes|
      && failed == (if attempts == 0 then None else state.outcomes[attempts - 1])
    }

    constructor (watched: bool)
      ensures Valid() && state == Init(watched) && objects == []
    {
      this.watched := watched;
      current, closed, minting, attempts, failed, watching := null, false, false, 0, None, null;
      state, objects := Init(watched), [];
    }

    // What a caller is given is what the model replies.
    ghost predicate Answers(held: Minted?, waits: bool, reply: Reply)
      reads this
    {
      && (waits <==> reply == Waits)
      && Denotes(held, if reply.Leased? then Some(reply.credential) else None)
    }

    // The count a lease takes of what is held.
    method Serve(ghost call: CallId) returns (held: Minted)
      requires Valid() && current != null
      modifies this`state, current`users
      ensures Valid()
      ensures state == Grant(old(state), call, old(state).current.value)
      ensures held == current
    {
      held := current;
      held.users := held.users + 1;
      state := Grant(state, call, state.current.value);
    }

    /** `_leasable` up to its wait, and the count taken with it; `renew` says to start a mint. */
    method Lease(ghost call: CallId, first: real, second: real) returns (held: Minted?, waits: bool, renew: bool)
      requires Valid() && !state.collected && call !in state.waiters && call !in state.leases
      requires state.clock <= first <= second
      modifies this, current
      ensures Valid() && objects == old(objects)
      ensures state == AfterLease(old(state), call, first, second).0
      ensures renew <==> minting && !old(minting)
      ensures Answers(held, waits, AfterLease(old(state), call, first, second).1)
    {
      hide Grant, AfterDue;
      state := state.(clock := second);
      held, waits, renew := null, false, false;
      if closed {
      } else if current != null && Before(first, current.renewAt) {
        held := Serve(call);
      } else {
        renew := Start();
        held, waits := Due(call, second);
      }
    }

    method Start() returns (renew: bool)
      requires Valid()
      modifies this`minting, this`state
      ensures Valid() && state == CredentialMachine.Renewing(old(state))
      ensures renew == !old(minting)
    {
      renew := !minting;
      minting := true;
      state := CredentialMachine.Renewing(state);
    }

    method Due(ghost call: CallId, now: real) returns (held: Minted?, waits: bool)
      requires Valid() && now == state.clock
      modifies this`state, current
      ensures Valid()
      ensures state == AfterDue(old(state), call).0
      ensures Answers(held, waits, AfterDue(old(state), call).1)
    {
      hide Grant;
      if current != null && Before(now, current.expires) {
        held := Serve(call);
        waits := false;
      } else {
        held, waits := null, true;
        state := state.(waiters := state.waiters[call := Waiter(attempts, false)]);
      }
    }

    /** The wait loop's test as a waiter wakes, and what follows once it passes. */
    method Resume(ghost call: CallId, seen: nat, now: real)
      returns (held: Minted?, waits: bool, failure: Option<Failure>)
      requires Valid() && state.clock <= now && call in state.waiters && state.waiters[call].seen == seen <= attempts
      modifies this, current
      ensures Valid() && objects == old(objects)
      ensures state == AfterResume(old(state), call, now).0
      ensures Answers(held, waits, AfterResume(old(state), call, now).1)
      ensures failure == RaisedBy(AfterResume(old(state), call, now).1)
    {
      hide Grant, AfterWait;
      state := state.(clock := now);
      if attempts == seen && !closed {
        held, waits, failure := null, true, None;
        state := state.(waiters := state.waiters[call := state.waiters[call].(woken := false)]);
      } else {
        waits := false;
        held, failure := Leave(call, now);
      }
    }

    // Out of the wait loop.
    method Leave(ghost call: CallId, now: real) returns (held: Minted?, failure: Option<Failure>)
      requires Valid() && now == state.clock && (closed || attempts > 0)
      modifies this`state, current
      ensures Valid()
      ensures var left := old(state).(waiters := old(state).waiters - {call});
              && state == AfterWait(left, call).0
              && Answers(held, false, AfterWait(left, call).1)
              && failure == RaisedBy(AfterWait(left, call).1)
    {
      hide Grant, AfterWait;
      state := state.(waiters := state.waiters - {call});
      held, failure := Honoured(call, now);
    }

    ghost function RaisedBy(reply: Reply): Option<Failure> {
      if reply.Raised? then Some(reply.failure) else None
    }

    /** `_honoured`, and the test for a close before it. */
    method Honoured(ghost call: CallId, now: real) returns (held: Minted?, failure: Option<Failure>)
      requires Valid() && now == state.clock && (closed || attempts > 0)
      modifies this`state, current
      ensures Valid()
      ensures state == AfterWait(old(state), call).0
      ensures Answers(held, false, AfterWait(old(state), call).1)
      ensures failure == RaisedBy(AfterWait(old(state), call).1)
    {
      hide Grant;
      held, failure := null, None;
      if closed {
      } else if current != null && Before(now, current.expires) {
        held := Serve(call);
      } else {
        failure := failed;
      }
    }

    /** The end of a lease; `done` is the credential its last lease ends, if this is it. */
    method Release(ghost call: CallId, held: Minted) returns (done: Minted?)
      requires Valid() && call in state.leases && Denotes(held, Some(state.leases[call])) && held.users > 0
      modifies this`state, held`users
      ensures Valid() && objects == old(objects)
      ensures state == AfterRelease(old(state), call)
      ensures state.ended == old(state.ended) + (if done == null then [] else [old(state.leases)[call]])
      ensures done == null || done == held
    {
      held.users := held.users - 1;
      done := if held.retired && held.users == 0 then held else null;
      state := AfterRelease(state, call);
    }

    /** `_retire`: the credential replaced, if nothing is using it. */
    method Retire(minted: Minted?, ghost i: nat) returns (idle: Minted?)
      requires Valid() && Denotes(minted, if minted == null then None else Some(i))
      modifies this`state, minted
      ensures Valid()
      ensures state == (if minted == null then old(state)
                        else old(state).(minted := old(state).minted[i := old(state).minted[i].(retired := true)]))
      ensures idle == (if minted == null || old(state).minted[i].users > 0 then null else minted)
    {
      if minted == null {
        return null;
      }
      minted.retired := true;
      state := state.(minted := state.minted[i := state.minted[i].(retired := true)]);
      return if minted.users != 0 then null else minted;
    }

    /** `_hold`: the credential replaced, if it is to be ended now. */
    method Hold(minted: Minted?, ghost next: Option<nat>) returns (idle: Minted?)
      requires Valid() && Denotes(minted, next)
      modifies this`current, this`watching, this`state, current
      ensures Valid()
      ensures state == CredentialMachine.Hold(old(state), next)
      ensures Returned(idle, old(state.ended))
    {
      ghost var before := state;
      idle := Retire(current, if current == null then 0 else state.current.value);
      watching := if watched then minted else null;
      current := minted;
      state := CredentialMachine.Hold(before, next);
    }

    // What a method returns to be ended is what the model has just added to the log, if anything.
    ghost predicate Returned(m: Minted?, before: seq<nat>)
      reads this
    {
      if m == null then state.ended == before
      else |state.ended| == |before| + 1 && before <= state.ended &&
           state.ended[|before|] < |objects| && objects[state.ended[|before|]] == m
    }

    // The model takes note of a credential a mint returned.
    ghost method Arrive(arrived: Minted)
      requires Valid() && arrived !in objects && Mirrors(arrived, CredentialMachine.Minted(arrived.issue))
      modifies this`objects, this`state, arrived`index
      ensures Valid() && objects == old(objects) + [arrived]
      ensures state == old(state).(minted := old(state).minted + [CredentialMachine.Minted(arrived.issue)])
    {
      arrived.index := |objects|;
      objects := objects + [arrived];
      state := state.(minted := state.minted + [CredentialMachine.Minted(arrived.issue)]);
    }

    /** `_renew` once the mint is over; `stale` is what it must end. */
    method FinishMint(arrived: Minted?, failure: Option<Failure>, ghost now: real) returns (stale: Minted?)
      requires Valid() && minting && state.flights > 0 && state.clock <= now
      requires arrived != null ==>
                 && arrived !in objects && Mirrors(arrived, CredentialMachine.Minted(arrived.issue)) && failure == None
                 && WellTimed(arrived.issue) && (arrived.issue.StaticToken? || arrived.issue.received <= now)
      modifies this, arrived, current
      ensures Valid() && objects == old(objects) + (if arrived == null then [] else [arrived])
      ensures state == AfterFinish(old(state), OutcomeOf(arrived, failure), now)
      ensures Returned(stale, old(state.ended))
    {
      hide AfterArrival, NotifyAll, RenewAt, Expires, WellTimed, CredentialMachine.Minted;
      minting := false;
      attempts := attempts + 1;
      failed := failure;
      state := state.(minting := false, flights := state.flights - 1, outcomes := state.outcomes + [failure],
                      waiters := NotifyAll(state.waiters), clock := now);
      stale := null;
      if arrived != null {
        stale := Land(arrived);
      }
    }

    // Hold what the mint produced, or return it to be ended if closed meanwhile.
    method Land(arrived: Minted) returns (stale: Minted?)
      requires Valid() && arrived !in objects && Mirrors(arrived, CredentialMachine.Minted(arrived.issue))
      modifies this, arrived, current
      ensures Valid() && objects == old(objects) + [arrived]
      ensures state == AfterArrival(old(state), arrived.issue)
      ensures Returned(stale, old(state.ended))
    {
      hide CredentialMachine.Hold, RenewAt, Expires, CredentialMachine.Minted;
      ghost var n := |objects|;
      Arrive(arrived);
      if closed {
        stale := arrived;
        state := state.(ended := state.ended + [n]);
      } else {
        stale := Hold(arrived, Some(n));
      }
    }

    ghost function OutcomeOf(arrived: Minted?, failure: Option<Failure>): Outcome {
      if arrived != null then Fresh(arrived.issue) else if failure.Some? then Failed(failure.value) else Interrupted
    }

    /** `close`; `idle` is what it must end. */
    method Close() returns (idle: Minted?)
      requires Valid() && !state.collected
      modifies this, current
      ensures Valid() && objects == old(objects) && closed
      ensures state == AfterClose(old(state))
      ensures Returned(idle, old(state.ended))
    {
      idle := null;
      if !closed {
        closed := true;
        state := state.(closed := true, waiters := NotifyAll(state.waiters));
        idle := Hold(null, None);
      }
    }

    /** The finalizer, once the holder is garbage: the credential it queues, if any. */
    method Collected() returns (orphan: Minted?)
      requires Valid()
      modifies this`state
      ensures Valid() && state == AfterCollect(old(state))
      ensures Denotes(orphan, if |state.queued| == |old(state.queued)| then None
                              else Some(state.queued[|old(state.queued)|]))
    {
      orphan := watching;
      state := AfterCollect(state);
    }
  }
}
