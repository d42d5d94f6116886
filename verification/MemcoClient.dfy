/**
  The client of `nodejs/src/client.ts`: the fields that register its keys and
  count its calls, and the methods that change them, each proved to do what
  KeyRegistry says. The ends it sends are kept in `sending` until answered.
 */
module MemcoClient {
  import opened KeyRegistry

  // An end sent while nothing is queued as dropped sends no other.
  lemma NothingDropped(r: Registry)
    requires r.dropped == []
    ensures EndDropped(r) == r
  {
    assert DroppedKeys(r) == {};
    assert Marked(r.live, {}) == r.live;
    assert r.sending + multiset({}) == r.sending && r.sent + {} == r.sent;
  }

  lemma EndDroppedKeys(r: Registry)
    ensures EndDropped(r).live.Keys == r.live.Keys
  {
  }

  lemma EndAllOneMore(r: Registry, keys: set<KeyId>, k: KeyId)
    requires r.dropped == [] && k in r.live && k !in keys && !r.live[k].ending
    ensures EndKey(EndAll(r, keys), k) == EndAll(r, keys + {k})
  {
    if !r.closed {
      var some := EndAll(r, keys);
      NothingDropped(Sent(some, k));
      assert Marked(some.live, {k}) == Marked(r.live, keys + {k});
      assert some.sending + multiset{k} == r.sending + multiset(keys + {k});
      assert some.sent + {k} == r.sent + (keys + {k});
      assert |keys + {k}| == |keys| + 1;
    }
  }

  // One turn of the loop over keys to end: one more is sent, unless it is already being ended.
  lemma EndAllTurn(r: Registry, keys: set<KeyId>, k: KeyId)
    requires r.dropped == [] && k in r.live && k !in keys
    ensures EndKey(EndAll(r, keys), k) == EndAll(r, if r.live[k].ending then keys else keys + {k})
  {
    if !r.live[k].ending {
      EndAllOneMore(r, keys, k);
    }
  }

  lemma EndAllDrops(r: Registry, keys: set<KeyId>)
    ensures EndAll(r, keys).dropped == r.dropped
  {
  }

  lemma EndAllNone(r: Registry)
    ensures EndAll(r, {}) == r
  {
    assert Marked(r.live, {}) == r.live;
    assert r.sending + multiset({}) == r.sending && r.sent + {} == r.sent;
  }

  class Memco {
    var closed: bool
    var inflight: int
    var live: map<KeyId, LiveKey>
    var dropped: seq<Owner>
    var draining: bool
    var sending: multiset<KeyId>
    ghost var sent: set<KeyId>

    ghost function Reg(): Registry
      reads this
    {
      Registry(closed, inflight, live, dropped, draining, sending, sent)
    }

    constructor ()
      ensures Reg() == Init().reg
    {
      closed, inflight, live, dropped, draining, sending, sent := false, 0, map[], [], false, multiset{}, {};
    }

    method EndKey(k: KeyId)
      modifies this
      ensures Reg() == KeyRegistry.EndKey(old(Reg()), k)
      decreases |dropped|, 2
    {
      var known := k in live;
      if known && live[k].ending {
        return;
      }
      var refused := SendEnd(k);
      if known && !refused {
        assert live[k := live[k].(ending := true)] == Marked(live, {k});
        live := live[k := live[k].(ending := true)];
      }
    }

    // Counted in twice: by `sendEnd` itself, and by the call it makes.
    method SendEnd(k: KeyId) returns (refused: bool)
      modifies this
      ensures Reg() == KeyRegistry.SendEnd(old(Reg()), k) && refused == old(closed)
      ensures live.Keys == old(live).Keys
      decreases |dropped|, 1
    {
      hide KeyRegistry.EndDropped;
      if closed {
        return true;
      }
      EndDroppedKeys(KeyRegistry.Sent(Reg(), k));
      inflight := inflight + 2;
      sending, sent := sending + multiset{k}, sent + {k};
      if |dropped| > 0 {
        EndDropped();
      } else {
        NothingDropped(Reg());
      }
      return false;
    }

    method EndDropped()
      modifies this
      ensures Reg() == KeyRegistry.EndDropped(old(Reg()))
      decreases |dropped|, 0
    {
      if |dropped| == 0 {
        NothingDropped(Reg());
        return;
      }
      var owners := dropped;
      ghost var queued := Reg();
      dropped := [];
      var owned := set k | k in live && live[k].owner in owners;
      assert (set k | k in owned && !live[k].ending) == DroppedKeys(queued);
      EndEach(owned);
    }

    // `endKey` on each of some registered keys, which it passes over if already being ended.
    method EndEach(keys: set<KeyId>)
      requires keys <= live.Keys && dropped == []
      modifies this
      ensures Reg() == EndAll(old(Reg()), set k | k in keys && !old(live)[k].ending)
      decreases 0, 3
    {
      hide KeyRegistry.EndKey, EndAll;
      ghost var start := Reg();
      ghost var done: set<KeyId> := {};
      EndAllNone(start);
      var todo := keys;
      while todo != {}
        invariant todo <= keys
        invariant done == set k | k in keys - todo && !start.live[k].ending
        invariant dropped == []
        invariant Reg() == EndAll(start, done)
        decreases todo
      {
        assert exists k :: k in todo by { var _ := Member(todo); }
        var k :| k in todo;
        EndAllTurn(start, done, k);
        EndKey(k);
        if !start.live[k].ending {
          done := done + {k};
        }
        todo := todo - {k};
        EndAllDrops(start, done);
      }
      assert done == set k | k in keys && !start.live[k].ending;
    }

    /** `mintKey` up to its first wait, and the keys whose ends it waits for; refused once closed. */
    method MintBegin(user: User, now: real) returns (refused: bool, awaited: set<KeyId>)
      modifies this
      ensures refused == old(closed)
      ensures awaited == if refused then {} else Ending(Reg(), user)
      ensures Reg() == if refused then old(Reg()) else Prepare(old(Reg()), user, now)
    {
      if closed {
        return true, {};
      }
      ghost var before := Reg();
      inflight := inflight + 1;
      Prune(now);
      assert Reg() == before.(inflight := before.inflight + 1, live := Unexpired(before.live, now));
      EndDropped();
      awaited := EndUsers(user);
      return false, awaited;
    }

    // End again what could not be ended of a user's keys, and pass over what is being
    // ended: all of it is waited for.
    method EndUsers(user: User) returns (theirs: set<KeyId>)
      requires dropped == [] && !closed
      modifies this
      ensures Reg() == EndAll(old(Reg()), FailedKeys(old(Reg()), user))
      ensures theirs == Ending(Reg(), user)
    {
      theirs := set k | k in live && live[k].user == user && (live[k].ending || live[k].endFailed);
      assert (set k | k in theirs && !live[k].ending) == FailedKeys(Reg(), user);
      EndEach(theirs);
    }

    // Forget the keys that have expired.
    method Prune(now: real)
      modifies this`live
      ensures live == Unexpired(old(live), now)
    {
      var before := live;
      var unseen := before.Keys;
      while unseen != {}
        invariant unseen <= before.Keys
        invariant live == map k | k in before && (k in unseen || before[k].expiresAt > now) :: before[k]
        decreases unseen
      {
        assert exists k :: k in unseen by { var _ := Member(unseen); }
        var k :| k in unseen;
        if live[k].expiresAt <= now {
          live := live - {k};
        }
        unseen := unseen - {k};
      }
    }

    /** A call counted in, and the dropped keys it ends; refused once closed. */
    method CallBegin() returns (refused: bool)
      modifies this
      ensures refused == old(closed)
      ensures Reg() == if refused then old(Reg()) else Begin(old(Reg()))
    {
      if closed {
        return true;
      }
      inflight := inflight + 1;
      EndDropped();
      return false;
    }

    /** `finish`. */
    method Finish()
      modifies this`inflight, this`draining
      ensures Reg() == KeyRegistry.Finish(old(Reg()))
    {
      inflight := inflight - 1;
      if inflight == 0 {
        draining := false;
      }
    }

    /** What `sendEnd` does with the answer, in the window its call is counted in. */
    method EndRecord(k: KeyId, gone: bool)
      modifies this
      ensures Reg() == Record(old(Reg()), k, gone)
    {
      if gone {
        live := live - {k};
      } else if k in live {
        live := live[k := live[k].(ending := false, endFailed := true)];
      }
      Finish();
    }

    method Register(k: KeyId, user: User, owner: Owner, expiresAt: real)
      modifies this
      ensures Reg() == KeyRegistry.Register(old(Reg()), k, LiveKey(user, expiresAt, owner, false, false))
    {
      live := live[k := LiveKey(user, expiresAt, owner, false, false)];
      Finish();
    }

    /** The collection of a session credential, which sends nothing. */
    method Abandoned(owner: Owner)
      modifies this`dropped
      ensures Reg() == if closed then old(Reg()) else old(Reg()).(dropped := old(dropped) + [owner])
    {
      if !closed {
        dropped := dropped + [owner];
      }
    }

    /** `shutdown` up to its wait in `drain`, if it waits. */
    method Shut()
      modifies this
      ensures Reg() == KeyRegistry.Shut(old(Reg()))
    {
      if !closed {
        closed := true;
        draining := inflight != 0;
      }
    }
  }
}
