/**
  The asyncio client of `python/memcoai/_aio.py`: the dictionaries and the queue
  that hold its keys and the ends under way, and the methods that change them,
  each proved to do what EventLoopEnds says. `tasks` stands for the loop's tasks.
 */
module AsyncClient {
  import opened Wrappers
  import opened EventLoopEnds

  class AsyncMemco {
    var live: map<KeyId, Live>
    var ending: map<KeyId, Entry>
    var orphans: seq<Orphan>
    var tasks: seq<Task>

    function Reg(): Registry
      reads this
    {
      Registry(live, ending, orphans, tasks)
    }

    constructor ()
      ensures Reg() == Init().reg
    {
      live, ending, orphans, tasks := map[], map[], [], [];
    }

    method EndKey(user: User, k: KeyId) returns (task: TaskId)
      modifies this
      ensures Reg() == EventLoopEnds.EndKey(old(Reg()), user, k) && task == |old(tasks)|
    {
      task := |tasks|;
      tasks := tasks + [Task(user, k, Running)];
      ending := ending[k := Entry(user, task)];
    }

    /** `_ended_with`, the done-callback. */
    method EndedWith(task: TaskId)
      requires task < |tasks|
      modifies this
      ensures Reg() == CallBack(old(Reg()), task)
    {
      var k := tasks[task].key;
      if k in ending && ending[k].task == task {
        ending := ending - {k};
      }
      tasks := tasks[task := tasks[task].(phase := CalledBack)];
    }

    /** The end of `_ended`, once its call is answered. */
    method Ended(task: TaskId, outcome: Outcome) returns (gone: bool)
      requires task < |tasks|
      modifies this
      ensures Reg() == Return(old(Reg()), task, outcome) && gone == (outcome == Gone)
    {
      var k := tasks[task].key;
      tasks := tasks[task := tasks[task].(phase := Returned)];
      gone := false;
      match outcome
      case ClientClosed =>
      case Failed => MarkFailed([k]);
      case Gone =>
        live := live - {k};
        gone := true;
    }

    method MarkFailed(ids: seq<KeyId>)
      modifies this`live
      ensures live == map k | k in old(live) :: if k in ids then old(live)[k].(failed := true) else old(live)[k]
    {
      var i := 0;
      while i < |ids|
        invariant 0 <= i <= |ids|
        invariant live == map k | k in old(live) ::
                            if k in ids[..i] then old(live)[k].(failed := true) else old(live)[k]
      {
        if ids[i] in live {
          live := live[ids[i] := live[ids[i]].(failed := true)];
        }
        assert ids[..i + 1] == ids[..i] + [ids[i]];
        i := i + 1;
      }
    }

    method EndOrphans()
      modifies this
      ensures Reg() == EventLoopEnds.EndOrphans(old(Reg()))
    {
      var taken: seq<Orphan> := [];
      while orphans != []
        invariant taken + orphans == old(orphans)
        invariant live == old(live) && ending == old(ending) && tasks == old(tasks)
        decreases |orphans|
      {
        taken, orphans := taken + [orphans[0]], orphans[1..];
      }
      ghost var start := Reg();
      assert taken == old(orphans) && start == old(Reg()).(orphans := []);
      var i := 0;
      while i < |taken|
        invariant 0 <= i <= |taken|
        invariant EndEach(Reg(), taken[i..]) == EndEach(start, taken)
      {
        var _ := EndKey(taken[i].user, taken[i].key);
        i := i + 1;
      }
      assert taken[i..] == [];
    }

    /** `_prune` before its loop: forget the keys that have expired. */
    method Prune(now: real)
      modifies this`live
      ensures Reg() == EventLoopEnds.Prune(old(Reg()), now)
    {
      var before := live;
      var expired := set k | k in live && live[k].expires <= now;
      while expired != {}
        invariant expired <= before.Keys
        invariant forall k :: k in expired ==> before[k].expires <= now
        invariant live == map k | k in before && (k in expired || before[k].expires > now) :: before[k]
        decreases expired
      {
        var k :| k in expired;
        live := live - {k};
        expired := expired - {k};
      }
    }

    /** One round of `_prune`'s loop: the key to retry for a user, if any, and its end. */
    method Retry(user: User) returns (retry: Option<KeyId>, task: TaskId)
      modifies this
      ensures retry.None? ==> Reg() == old(Reg()) && forall k :: k in live ==> !(live[k].failed && live[k].user == user)
      ensures retry.Some? ==>
                && retry.value in old(live) && old(live)[retry.value].failed && old(live)[retry.value].user == user
                && Reg() == EventLoopEnds.Retry(old(Reg()), retry.value) && task == |old(tasks)|
    {
      task := 0;
      if k :| k in live && live[k].failed && live[k].user == user {
        live := live[k := live[k].(failed := false)];
        task := EndKey(user, k);
        retry := Some(k);
      } else {
        retry := None;
      }
    }
  }
}
