/**
  Counting calls in and out of the Go client, in `go/memcoai/client.go`: the
  close reports its drain by closing a channel, which may be done only once, and
  sweeps the keys it finds; a key that comes too late for that is sent its end by the
  mint it was issued to.
 */
module GoClient {
  import opened Wrappers

  type Job = nat
  type KeyId = nat

  // `closed`, `inflight` and how often the `drained` channel was closed.
  datatype Count = Count(closed: bool, inflight: int, drains: nat)

  function Begun(c: Count): Option<Count> {
    if c.closed then None else Some(c.(inflight := c.inflight + 1))
  }

  function Finished(c: Count): Count {
    var left := c.(inflight := c.inflight - 1);
    if left.closed && left.inflight == 0 then left.(drains := left.drains + 1) else left
  }

  function Shut(c: Count): Count {
    if c.closed then c else c.(closed := true, drains := if c.inflight == 0 then c.drains + 1 else c.drains)
  }

  class Client {
    var closed: bool
    var inflight: int
    var drained: bool          // whether the channel is closed
    ghost var drains: nat      // how often it was

    ghost predicate Valid()
      reads this
    {
      inflight >= 0 && Drained(Counts()) && drained == (drains > 0)
    }

    ghost function Counts(): Count
      reads this
    {
      Count(closed, inflight, drains)
    }

    constructor ()
      ensures Valid() && Counts() == Count(false, 0, 0)
    {
      closed, inflight, drained, drains := false, 0, false, 0;
    }

    // Closing a closed channel panics, so each caller shows it is open.
    method Drain()
      requires !drained
      modifies this`drained, this`drains
      ensures drained && drains == old(drains) + 1
    {
      drained := true;
      drains := drains + 1;
    }

    method Begin() returns (ok: bool)
      requires Valid()
      modifies this`inflight
      ensures Valid() && ok == Begun(old(Counts())).Some?
      ensures Counts() == if ok then Begun(old(Counts())).value else old(Counts())
    {
      if closed {
        return false;
      }
      inflight := inflight + 1;
      return true;
    }

    method End()
      requires Valid() && inflight > 0
      modifies this`inflight, this`drained, this`drains
      ensures Valid() && Counts() == Finished(old(Counts()))
    {
      inflight := inflight - 1;
      if closed && inflight == 0 {
        Drain();
      }
    }

    method Close()
      requires Valid()
      modifies this`closed, this`drained, this`drains
      ensures Valid() && Counts() == Shut(old(Counts()))
    {
      if !closed {
        closed := true;
        if inflight == 0 {
          Drain();
        }
      }
    }
  }

  // The channel is closed exactly when the client is and no call is in flight, and once.
  ghost predicate Drained(c: Count) {
    c.drains == if c.closed && c.inflight == 0 then 1 else 0
  }

  // ---- the registry beside it ----------------------------------------------

  // Where the keys the service issued are, as far as the client knows.
  datatype Keys = Keys(
    issued: set<KeyId>,
    live: set<KeyId>,                // registered, and neither ended nor expired
    ended: set<KeyId>,               // confirmed gone by the service
    expired: set<KeyId>,             // forgotten
    discarding: map<KeyId, Job>,     // being ended by the mint they were issued to, within its call
    swept: Option<set<KeyId>>)       // what the close took to end

  datatype State = State(count: Count, jobs: set<Job>, begun: set<Job>, keys: Keys)

  datatype Step =
    | Begin(job: Job)
    | End(job: Job)
    | Answered(job: Job, key: KeyId, stale: bool)   // a mint's reply, within its call; stale if its lifetime is over
    | Discarded(key: KeyId, gone: bool)             // the end its mint sent is answered
    | Gone(key: KeyId)                              // an end of a registered key is confirmed
    | Forget(keys: set<KeyId>)                      // `Before` drops what has expired
    | Close
    | Sweep(expired: set<KeyId>)                    // once, by the first close done waiting

  predicate Enabled(s: State, step: Step) {
    match step
    case Begin(job) => job !in s.begun
    case End(job) => job in s.jobs && job !in s.keys.discarding.Values
    case Answered(job, key, _) => job in s.jobs && key !in s.keys.issued
    case Discarded(key, _) => key in s.keys.discarding
    case Gone(key) => key in s.keys.live
    case Forget(keys) => keys <= s.keys.live
    case Close => true
    // A close whose context ended sweeps with calls still in flight.
    case Sweep(expired) => s.count.closed && s.keys.swept.None? && expired <= s.keys.live
  }

  function Next(s: State, step: Step): State {
    match step
    case Begin(job) =>
      match Begun(s.count) {
        case None => s.(begun := s.begun + {job})
        case Some(count) => s.(count := count, jobs := s.jobs + {job}, begun := s.begun + {job})
      }
    case End(job) => s.(count := Finished(s.count), jobs := s.jobs - {job})
    case Answered(job, key, stale) => s.(keys := Answer(s.keys, job, key, stale))
    case Discarded(key, gone) => s.(keys := Discard(s.keys, key, gone))
    case Gone(key) => s.(keys := s.keys.(live := s.keys.live - {key}, ended := s.keys.ended + {key}))
    case Forget(keys) => s.(keys := s.keys.(live := s.keys.live - keys, expired := s.keys.expired + keys))
    case Close => s.(count := Shut(s.count))
    case Sweep(expired) =>
      s.(keys := s.keys.(live := {}, expired := s.keys.expired + expired, swept := Some(s.keys.live - expired)))
  }

  // `mint`, on its reply: registered, or refused and sent its end by the mint itself.
  function Answer(keys: Keys, job: Job, key: KeyId, stale: bool): Keys {
    var more := keys.(issued := keys.issued + {key});
    if stale || keys.swept.Some? then more.(discarding := more.discarding[key := job])
    else more.(live := more.live + {key})
  }

  // And on the answer to that end: a refusal is logged, and nothing else.
  function Discard(keys: Keys, key: KeyId, gone: bool): Keys {
    keys.(discarding := keys.discarding - {key}, ended := if gone then keys.ended + {key} else keys.ended)
  }

  function Init(): State {
    State(Count(false, 0, 0), {}, {}, Keys({}, {}, {}, {}, map[], None))
  }

  // ---- every run -----------------------------------------------------------

  function Taken(keys: Keys): set<KeyId> {
    if keys.swept.Some? then keys.swept.value else {}
  }

  // Every place a key can be in.
  function Known(keys: Keys): set<KeyId> {
    keys.live + keys.ended + keys.expired + keys.discarding.Keys + Taken(keys)
  }

  ghost predicate Placed(keys: Keys) {
    && Known(keys) <= keys.issued
    && keys.live !! keys.ended !! keys.expired !! keys.discarding.Keys !! Taken(keys)
    && (keys.swept.Some? ==> keys.live == {})
  }

  // Issued, and nowhere: nothing of the client will end it.
  ghost predicate Lost(keys: Keys, key: KeyId) {
    key in keys.issued && key !in Known(keys)
  }

  ghost predicate Inv(s: State) {
    && Drained(s.count) && s.count.inflight == |s.jobs| && s.jobs <= s.begun
    && Placed(s.keys) && s.keys.discarding.Values <= s.jobs && (s.keys.swept.Some? ==> s.count.closed)
  }

  lemma StepKeeps(s: State, step: Step)
    requires Inv(s) && Enabled(s, step)
    ensures Inv(Next(s, step))
  {
    hide Placed, Answer, Discard;
    match step
    case Begin(_) =>
    case End(_) =>
    case Answered(job, key, stale) => AnswerPlaces(s.keys, job, key, stale);
    case Discarded(key, gone) => DiscardPlaces(s.keys, key, gone);
    case Gone(key) => GonePlaces(s.keys, key);
    case Forget(keys) => ForgetPlaces(s.keys, keys);
    case Close =>
    case Sweep(expired) => SweepPlaces(s.keys, expired);
  }

  lemma GonePlaces(keys: Keys, key: KeyId)
    requires Placed(keys) && key in keys.live
    ensures Placed(keys.(live := keys.live - {key}, ended := keys.ended + {key}))
    ensures keys.swept.None?
  {
  }

  lemma ForgetPlaces(keys: Keys, gone: set<KeyId>)
    requires Placed(keys) && gone <= keys.live
    ensures Placed(keys.(live := keys.live - gone, expired := keys.expired + gone))
  {
  }

  lemma AnswerPlaces(keys: Keys, job: Job, key: KeyId, stale: bool)
    requires Placed(keys) && key !in keys.issued
    ensures var next := Answer(keys, job, key, stale);
            Placed(next) && next.swept == keys.swept && next.discarding.Values <= keys.discarding.Values + {job}
  {
  }

  lemma DiscardPlaces(keys: Keys, key: KeyId, gone: bool)
    requires Placed(keys) && key in keys.discarding
    ensures var next := Discard(keys, key, gone);
            Placed(next) && next.swept == keys.swept && next.discarding.Values <= keys.discarding.Values
  {
  }

  lemma SweepPlaces(keys: Keys, expired: set<KeyId>)
    requires Placed(keys) && keys.swept.None? && expired <= keys.live
    ensures Placed(keys.(live := {}, expired := keys.expired + expired, swept := Some(keys.live - expired)))
  {
  }

  ghost predicate Legal(s: State, steps: seq<Step>)
    decreases |steps|
  {
    steps == [] || (Enabled(s, steps[0]) && Legal(Next(s, steps[0]), steps[1..]))
  }

  function Run(s: State, steps: seq<Step>): State
    decreases |steps|
  {
    if steps == [] then s else Run(Next(s, steps[0]), steps[1..])
  }

  lemma {:induction false} RunKeeps(s: State, steps: seq<Step>)
    requires Inv(s) && Legal(s, steps)
    ensures Inv(Run(s, steps))
    decreases |steps|
  {
    if steps != [] {
      StepKeeps(s, steps[0]);
      RunKeeps(Next(s, steps[0]), steps[1..]);
    }
  }

  /**
    In every run the drain channel is closed at most once, and is closed exactly
    when the client is and no call is in flight.
   */
  lemma DrainedOnce(steps: seq<Step>)
    requires Legal(Init(), steps)
    ensures var s := Run(Init(), steps);
            s.count.drains <= 1 && (s.count.drains == 1 <==> s.count.closed && s.jobs == {})
  {
    RunKeeps(Init(), steps);
  }

  /** From a closed client on, no call is counted in, so no run makes the drained client busy again. */
  lemma {:induction false} ClosedOnlyDrains(s: State, steps: seq<Step>)
    requires s.count.closed && Legal(s, steps)
    ensures var t := Run(s, steps); t.count.closed && t.jobs <= s.jobs
    decreases |steps|
  {
    if steps != [] {
      ClosedOnlyDrains(Next(s, steps[0]), steps[1..]);
    }
  }

  /** A call is in flight from when it begins on an open client until it ends; only a close closes the client. */
  lemma JobsChangeBy(s: State, step: Step, job: Job)
    requires Enabled(s, step)
    ensures var after := Next(s, step);
            && (job in after.jobs <==>
                  (step == Begin(job) && !s.count.closed) || (job in s.jobs && step != End(job)))
            && after.count.closed == (s.count.closed || step.Close?)
  {
    hide Answer, Discard;
  }

  /**
    A key the service issues is registered as its mint is answered, if it is not stale and
    the close has not swept, and else ended by that mint; a registered one is ended,
    forgotten once expired, or taken by the sweep. No step moves any other key.
   */
  lemma KeysChangeBy(s: State, step: Step, key: KeyId)
    requires Enabled(s, step)
    ensures var before, after := s.keys, Next(s, step).keys;
            var answered := step.Answered? && step.key == key;
            var wanted := answered && !step.stale && before.swept.None?;
            && (key in after.issued <==> key in before.issued || answered)
            && (key in after.live <==>
                  || wanted
                  || (key in before.live && step != Gone(key) && !step.Sweep? && !(step.Forget? && key in step.keys)))
            && (key in after.discarding <==>
                  (answered && !wanted) || (key in before.discarding && !(step.Discarded? && step.key == key)))
            && (key in after.ended <==> key in before.ended || step == Gone(key) || step == Discarded(key, true))
            && (key in after.expired <==>
                  key in before.expired || (step.Forget? && key in step.keys) || (step.Sweep? && key in step.expired))
            && after.swept.Some? == (before.swept.Some? || step.Sweep?)
            && (key in Taken(after) <==>
                  if step.Sweep? then key in before.live && key !in step.expired else key in Taken(before))
  {
  }

  // ---- keys nothing will end -----------------------------------------------

  // The step at `n` of a run has the end a mint sent of the key refused.
  ghost predicate RefusedAt(steps: seq<Step>, n: nat, key: KeyId) {
    n < |steps| && steps[n] == Discarded(key, false)
  }

  // And the one at `n` has a mint answered with the key that is not to be registered:
  // it is stale, or the close has swept.
  ghost predicate UnwantedAt(steps: seq<Step>, n: nat, key: KeyId) {
    && n < |steps| && steps[n].Answered? && steps[n].key == key
    && (steps[n].stale || Run(Init(), steps[..n]).keys.swept.Some?)
  }

  lemma {:induction false} LegalPrefix(s: State, steps: seq<Step>, n: nat)
    requires Legal(s, steps) && n + 1 == |steps|
    ensures Legal(s, steps[..n]) && Enabled(Run(s, steps[..n]), steps[n])
    ensures Run(s, steps) == Next(Run(s, steps[..n]), steps[n])
    decreases n
  {
    hide Enabled, Next;
    if n == 0 {
      assert steps[1..] == [] && steps[..0] == [];
    } else {
      assert steps[1..][..n - 1] == steps[..n][1..];
      LegalPrefix(Next(s, steps[0]), steps[1..], n - 1);
    }
  }

  lemma LostStep(s: State, step: Step, key: KeyId)
    requires Inv(s) && Enabled(s, step)
    ensures Lost(Next(s, step).keys, key) <==> Lost(s.keys, key) || step == Discarded(key, false)
    ensures key in Next(s, step).keys.discarding <==>
              (key in s.keys.discarding && !(step.Discarded? && step.key == key))
              || (step.Answered? && step.key == key && (step.stale || s.keys.swept.Some?))
  {
    hide Answer, Discard, Placed, Lost, Drained;
    match step
    case Answered(job, k, stale) => LostAnswer(s.keys, job, k, stale, key);
    case Discarded(k, gone) => LostDiscard(s.keys, k, gone, key);
    case Gone(k) => LostGone(s.keys, k, key);
    case Forget(gone) => LostForget(s.keys, gone, key);
    case Sweep(expired) => LostSweep(s.keys, expired, key);
    case _ =>
  }

  lemma LostGone(keys: Keys, k: KeyId, key: KeyId)
    requires k in keys.live
    ensures Lost(keys.(live := keys.live - {k}, ended := keys.ended + {k}), key) <==> Lost(keys, key)
  {
  }

  lemma LostForget(keys: Keys, gone: set<KeyId>, key: KeyId)
    requires gone <= keys.live
    ensures Lost(keys.(live := keys.live - gone, expired := keys.expired + gone), key) <==> Lost(keys, key)
  {
  }

  lemma LostSweep(keys: Keys, expired: set<KeyId>, key: KeyId)
    requires keys.swept.None? && expired <= keys.live
    ensures Lost(keys.(live := {}, expired := keys.expired + expired, swept := Some(keys.live - expired)), key) <==>
            Lost(keys, key)
  {
  }

  lemma LostAnswer(keys: Keys, job: Job, k: KeyId, stale: bool, key: KeyId)
    requires Placed(keys) && k !in keys.issued
    ensures Lost(Answer(keys, job, k, stale), key) <==> Lost(keys, key)
    ensures key in Answer(keys, job, k, stale).discarding <==>
            key in keys.discarding || (k == key && (stale || keys.swept.Some?))
  {
  }

  lemma LostDiscard(keys: Keys, k: KeyId, gone: bool, key: KeyId)
    requires Placed(keys) && k in keys.discarding
    ensures Lost(Discard(keys, k, gone), key) <==> Lost(keys, key) || (k == key && !gone)
    ensures key in Discard(keys, k, gone).discarding <==> key in keys.discarding && k != key
  {
  }

  /**
    A key is lost if and only if the end that the mint it was issued to sent of it
    was refused; and such a key arrived stale, or after the close had swept.
   */
  lemma {:induction false} LostExactly(steps: seq<Step>, key: KeyId)
    requires Legal(Init(), steps)
    ensures Lost(Run(Init(), steps).keys, key) <==> exists n :: RefusedAt(steps, n, key)
    ensures Lost(Run(Init(), steps).keys, key) || key in Run(Init(), steps).keys.discarding ==>
              exists n :: UnwantedAt(steps, n, key)
    decreases |steps|
  {
    hide Enabled, Next, Lost, UnwantedAt;
    if steps == [] {
      NothingLost(key);
    } else {
      var n := |steps| - 1;
      LegalPrefix(Init(), steps, n);
      LostExactly(steps[..n], key);
      RunKeeps(Init(), steps[..n]);
      LostStep(Run(Init(), steps[..n]), steps[n], key);
      LastRefused(steps, key);
      LastUnwanted(steps, key);
      if steps[n] == Discarded(key, false) {
        DiscardingFirst(Run(Init(), steps[..n]), key);
      }
    }
  }

  lemma NothingLost(key: KeyId)
    ensures !Lost(Init().keys, key) && key !in Init().keys.discarding
  {
  }

  lemma DiscardingFirst(s: State, key: KeyId)
    requires Enabled(s, Discarded(key, false))
    ensures key in s.keys.discarding
  {
  }

  lemma LastRefused(steps: seq<Step>, key: KeyId)
    requires steps != []
    ensures var n := |steps| - 1;
            (exists m :: RefusedAt(steps, m, key)) <==>
            (exists m :: RefusedAt(steps[..n], m, key)) || steps[n] == Discarded(key, false)
  {
    var n := |steps| - 1;
    assert steps[n] == Discarded(key, false) ==> RefusedAt(steps, n, key);
    forall m | RefusedAt(steps, m, key) && m != n ensures RefusedAt(steps[..n], m, key) {
    }
    forall m | RefusedAt(steps[..n], m, key) ensures RefusedAt(steps, m, key) {
    }
  }

  lemma LastUnwanted(steps: seq<Step>, key: KeyId)
    requires steps != []
    ensures var n := |steps| - 1;
            && (steps[n].Answered? && steps[n].key == key &&
                (steps[n].stale || Run(Init(), steps[..n]).keys.swept.Some?) ==>
                  UnwantedAt(steps, n, key))
            && forall m :: UnwantedAt(steps[..n], m, key) ==> UnwantedAt(steps, m, key)
  {
    hide Run;
    var n := |steps| - 1;
    forall m: nat | UnwantedAt(steps[..n], m, key) ensures UnwantedAt(steps, m, key) {
      assert steps[..n][..m] == steps[..m];
    }
  }

  /**
    In every run each key the service issued is registered, ended, expired, taken by
    the close's sweep or being ended by its mint, in one place only, or is lost; and
    none is lost unless a mint's own end was refused.
   */
  lemma NoKeyIsLost(steps: seq<Step>)
    requires Legal(Init(), steps)
    ensures var keys := Run(Init(), steps).keys;
            && (forall key :: key in keys.issued <==> key in Known(keys) || Lost(keys, key))
            && keys.live !! keys.ended !! keys.expired !! keys.discarding.Keys !! Taken(keys)
            && (keys.swept.Some? ==> keys.live == {})
            && ((forall key, n :: !RefusedAt(steps, n, key)) ==> keys.issued == Known(keys))
  {
    hide Inv, Run, RefusedAt;
    RunPlaced(steps);
    var keys := Run(Init(), steps).keys;
    forall key ensures Lost(keys, key) <==> exists n :: RefusedAt(steps, n, key) {
      LostExactly(steps, key);
    }
    if forall key, n :: !RefusedAt(steps, n, key) {
      forall key | key in keys.issued ensures key in Known(keys) {
        assert !Lost(keys, key);
      }
    }
  }

  lemma RunPlaced(steps: seq<Step>)
    requires Legal(Init(), steps)
    ensures Placed(Run(Init(), steps).keys)
  {
    RunKeeps(Init(), steps);
  }

  /**
    A run that loses one: the close gives up on a mint and sweeps, and the end of
    the key that then arrives is refused.
   */
  lemma AKeyCanBeLost() returns (steps: seq<Step>)
    ensures Legal(Init(), steps) && Lost(Run(Init(), steps).keys, 7)
  {
    steps := [Begin(0), Close, Sweep({}), Answered(0, 7, false), Discarded(7, false)];
    var begun := Next(Init(), Begin(0));
    var closed := Next(begun, Close);
    var swept := Next(closed, Sweep({}));
    var answered := Next(swept, Answered(0, 7, false));
    assert Legal(answered, [Discarded(7, false)]);
    assert steps[1..][1..][1..] == [Answered(0, 7, false), Discarded(7, false)];
    assert steps[1..][1..][1..][1..] == [Discarded(7, false)];
    assert Legal(swept, steps[1..][1..][1..]);
    assert Legal(closed, steps[1..][1..]);
    assert Legal(begun, steps[1..]);
    assert RefusedAt(steps, 4, 7);
    LostExactly(steps, 7);
  }

  lemma DrainedStep(s: State, step: Step)
    requires Inv(s) && s.count.drains == 1 && Enabled(s, step)
    ensures Next(s, step).count.drains == 1 && Next(s, step).keys.issued == s.keys.issued
    ensures s.keys.discarding == map[]
  {
    hide Placed;
    DrainedIdle(s);
  }

  /**
    Once the drain is reported no key is issued any more and no mint is ending one,
    so the sweep of a close that waited misses none.
   */
  lemma {:induction false} NothingIssuedAfterTheDrain(s: State, steps: seq<Step>)
    requires Inv(s) && s.count.drains == 1 && Legal(s, steps)
    ensures Run(s, steps).keys.issued == s.keys.issued && s.keys.discarding == map[]
    decreases |steps|
  {
    hide Inv, Next, Enabled;
    if steps != [] {
      StepKeeps(s, steps[0]);
      DrainedStep(s, steps[0]);
      NothingIssuedAfterTheDrain(Next(s, steps[0]), steps[1..]);
    } else {
      DrainedIdle(s);
    }
  }

  lemma DrainedIdle(s: State)
    requires Inv(s) && s.count.drains == 1
    ensures s.jobs == {} && s.keys.discarding == map[]
  {
    hide Placed;
    assert s.jobs == {};
    NoValues(s.keys.discarding);
  }

  lemma NoValues(discarding: map<KeyId, Job>)
    requires discarding.Values == {}
    ensures discarding == map[]
  {
    forall key ensures key !in discarding {
      if key in discarding {
        ValueIn(discarding, key);
      }
    }
  }

  lemma ValueIn(discarding: map<KeyId, Job>, key: KeyId)
    requires key in discarding
    ensures discarding[key] in discarding.Values
  {
  }
}
