/**
  The holder itself: `Renewing` of `nodejs/src/internal/auth.ts`, with one method
  per stretch that runs without awaiting. Each is proved to take the
  corresponding step of SessionHolder, so what SessionHolderSafety proves of runs
  holds of it.

  Calling `mint` and `end` are the callers' to do: the methods return whether to,
  and with what.
 */
module SharedRenewing {
  import opened Wrappers
  import opened CredentialTiming
  import opened SessionHolder

  class Minted {
    const renewAt: Instant
    const expiresAt: Instant
    var users: nat
    var retired: bool
    ghost var index: nat  // its place in `objects`, once it has arrived

    constructor (renewAt: Instant, expiresAt: Instant)
      ensures this.renewAt == renewAt && this.expiresAt == expiresAt
      ensures users == 0 && !retired
    {
      this.renewAt, this.expiresAt := renewAt, expiresAt;
      users, retired := 0, false;
    }
  }

  class Renewing {
    var current: Minted?
    var minting: bool  // whether a mint's promise is held
    var closed: bool

    ghost var state: Holder
    ghost var objects: seq<Minted>  // the object of each credential in `state.minted`

    ghost predicate Mirrors(m: Minted, c: Credential)
      reads m
    {
      c == Credential(m.renewAt, m.expiresAt, m.users, m.retired)
    }

    ghost predicate Denotes(m: Minted?, i: Option<nat>)
      reads this
    {
      if i.None? then m == null else i.value < |objects| && m == objects[i.value]
    }

    // The fields and the objects are what the model says they are.
    ghost predicate Valid()
      reads this, objects
    {
      && |objects| == |state.minted|
      && (forall i :: 0 <= i < |objects| ==> objects[i].index == i && Mirrors(objects[i], state.minted[i]))
      && Denotes(current, state.current)
      && minting == state.minting && closed == (state.shut != Not)
    }

    constructor ()
      ensures Valid() && state == Init() && objects == []
    {
      current, minting, closed := null, false, false;
      state, objects := Init(), [];
    }

    // What a method returns to be ended is what the model has just added to the log, if anything.
    ghost predicate Returned(m: Minted?, before: seq<nat>)
      reads this
    {
      if m == null then state.ended == before
      else |state.ended| == |before| + 1 && before <= state.ended &&
           state.ended[|before|] < |objects| && objects[state.ended[|before|]] == m
    }

    // The count a lease takes.
    method Serve(ghost call: CallId, held: Minted)
      requires Valid() && held in objects
      modifies this`state, held`users
      ensures Valid() && state == Grant(old(state), call, held.index)
    {
      held.users := held.users + 1;
      state := Grant(state, call, held.index);
    }

    /** `lease` up to its wait, or to the call it makes; `mints` says to start a mint. */
    method Lease(ghost call: CallId, first: real, second: real) returns (held: Minted?, waits: bool, mints: bool)
      requires Valid() && !state.collected && call !in state.waiters && call !in state.leases
      requires state.clock <= first <= second
      modifies this, current
      ensures Valid() && objects == old(objects)
      ensures state == AfterLease(old(state), call, first, second).0
      ensures var reply := AfterLease(old(state), call, first, second).1;
              && (waits <==> reply == Waits)
              && Denotes(held, if reply.Leased? then Some(reply.credential) else None)
      ensures mints <==> minting && !old(minting)
    {
      hide Grant;
      state := state.(clock := second);
      held, waits, mints := null, false, false;
      if !closed {
        held := current;
        if held != null && !Before(first, held.renewAt) {
          if Before(second, held.expiresAt) {
            mints := !minting;
            minting := true;
            state := state.(minting := true);
          } else {
            held := null;
          }
        }
        if held == null {
          waits, mints := true, !minting;
          minting := true;
          state := state.(minting := true, waiters := state.waiters[call := |state.settled|]);
        } else {
          Serve(call, held);
        }
      }
    }

    /** The rest of `lease`, given the credential its mint settled with; not leased if that was retired. */
    method Resume(ghost call: CallId, given: Minted) returns (leased: bool)
      requires Valid() && call in state.waiters && state.waiters[call] < |state.settled|
      requires state.settled[state.waiters[call]].Gives?
      requires state.settled[state.waiters[call]].credential < |state.minted|
      requires Denotes(given, Some(state.settled[state.waiters[call]].credential))
      modifies this`state, given`users
      ensures Valid()
      ensures state == AfterResume(old(state), call).0
      ensures leased <==> AfterResume(old(state), call).1.Leased?
    {
      hide Grant;
      state := state.(waiters := state.waiters - {call});
      leased := !given.retired;
      if leased {
        Serve(call, given);
      }
    }

    /** The end of a lease; `done` is the credential its last lease ends, if this is it. */
    method Release(ghost call: CallId, held: Minted) returns (done: Minted?)
      requires Valid() && call in state.leases && Denotes(held, Some(state.leases[call])) && held.users > 0
      modifies this`state, held`users
      ensures Valid()
      ensures state == AfterRelease(old(state), call)
      ensures Returned(done, old(state.ended))
    {
      held.users := held.users - 1;
      done := if held.retired && held.users == 0 then held else null;
      state := AfterRelease(state, call);
    }

    /** `retire`, and the assignment after it: the credential replaced, if nothing is using it. */
    method Hold(minted: Minted?, ghost next: Option<nat>) returns (idle: Minted?)
      requires Valid() && Denotes(minted, next)
      modifies this`current, this`state, current
      ensures Valid() && current == minted
      ensures state == SessionHolder.Hold(old(state), next)
      ensures Returned(idle, old(state.ended))
    {
      idle := null;
      if current != null {
        current.retired := true;
        idle := if current.users == 0 then current else null;
      }
      current := minted;
      state := SessionHolder.Hold(state, next);
    }

    // The model takes note of a credential a mint returned.
    ghost method Arrive(arrived: Minted)
      requires Valid() && arrived !in objects && arrived.users == 0 && !arrived.retired
      modifies this`objects, this`state, arrived`index
      ensures Valid() && objects == old(objects) + [arrived]
      ensures state == old(state).(minted := old(state).minted +
                                             [Credential(arrived.renewAt, arrived.expiresAt, 0, false)])
    {
      arrived.index := |objects|;
      objects := objects + [arrived];
      state := state.(minted := state.minted + [Credential(arrived.renewAt, arrived.expiresAt, 0, false)]);
    }

    /**
      The rest of `renew`, with what the mint returned, or null if it failed: the
      credential it gives the leases that wait, if any, and the one it must end.
     */
    method Settle(arrived: Minted?, ghost failure: Failure, now: real) returns (given: Minted?, stale: Minted?)
      requires Valid() && minting && state.clock <= now
      requires arrived != null ==> arrived !in objects && arrived.users == 0 && !arrived.retired
      modifies this, arrived, current
      ensures Valid() && objects == old(objects) + (if arrived == null then [] else [arrived])
      ensures var outcome := if arrived == null then Failed(failure) else Fresh(arrived.renewAt, arrived.expiresAt);
              && state == AfterSettle(old(state), outcome, now)
              && var settled := state.settled[|old(state).settled|];
                 Denotes(given, if settled.Gives? then Some(settled.credential) else None)
      ensures Returned(stale, old(state.ended))
    {
      minting := false;
      stale := null;
      if arrived == null {
        given := if current == null || !Before(now, current.expiresAt) then null else current;
        state := AfterSettle(state, Failed(failure), now);
      } else {
        ghost var before, n := state, |objects|;
        state := state.(minting := false, clock := now);
        Arrive(arrived);
        state := state.(settled := state.settled + [Gives(n)]);
        stale := Hold(arrived, Some(n));
        given := arrived;
        assert state == AfterSettle(before, Fresh(arrived.renewAt, arrived.expiresAt), now);
      }
    }

    /** `close`, and `shut` up to its wait for the running mint; `idle` is what it must end. */
    method Close() returns (idle: Minted?)
      requires Valid() && !state.collected
      modifies this`closed, this`current, this`state, current
      ensures Valid() && closed
      ensures state == AfterClose(old(state))
      ensures Returned(idle, old(state.ended))
    {
      idle := null;
      if !closed {
        closed := true;
        if minting {
          state := state.(shut := Awaits(|state.settled|));
        } else {
          state := state.(shut := Done);
          idle := Hold(null, None);
        }
      }
    }

    /** The rest of `shut`, after the mint it waited for; `idle` is what it must end. */
    method Closing() returns (idle: Minted?)
      requires Valid() && !state.collected && state.shut.Awaits?
      modifies this`current, this`state, current
      ensures Valid()
      ensures state == SessionHolder.Hold(old(state).(shut := Done), None)
      ensures Returned(idle, old(state.ended))
    {
      state := state.(shut := Done);
      idle := Hold(null, None);
    }
  }
}
