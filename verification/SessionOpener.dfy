/**
  `SessionOpener` in `nodejs/src/operations.ts`: awaited any number of times, it
  opens one session, and an attempt that fails is forgotten.
 */
module SessionOpener {
  import opened Wrappers

  type Attempt = nat

  // ---- the object ----------------------------------------------------------

  class Opener {
    var current: Option<Attempt>      // `opened`
    var started: nat                  // how many attempts the service was sent

    constructor ()
      ensures current == None && started == 0
    {
      current, started := None, 0;
    }

    // `then`: the attempt whose promise the await is chained on.
    method Then() returns (attempt: Attempt)
      modifies this
      ensures Opening(attempt, current, started) == Awaited(old(current), old(started))
    {
      if current.None? {
        current, started := Some(started), started + 1;
      }
      return current.value;
    }

    // The handler on a rejected attempt.
    method Forget()
      modifies this`current
      ensures current == None
    {
      current := None;
    }
  }

  datatype Opening = Opening(attempt: Attempt, current: Option<Attempt>, started: nat)

  function Awaited(current: Option<Attempt>, started: nat): Opening {
    if current.Some? then Opening(current.value, current, started)
    else Opening(started, Some(started), started + 1)
  }

  // ---- every run -----------------------------------------------------------

  // Attempts are settled by the service, and a rejected one's handler runs later;
  // an await may come in between.
  datatype State = State(
    current: Option<Attempt>,
    started: nat,
    pending: set<Attempt>,
    sessions: set<Attempt>,       // attempts that opened a session
    rejected: set<Attempt>,      // rejected, their handler not yet run
    forgotten: set<Attempt>,
    awaits: seq<Attempt>)        // what each await was chained on

  datatype Step = Await | Open(attempt: Attempt) | Reject(attempt: Attempt) | Handle(attempt: Attempt)

  predicate Enabled(s: State, step: Step) {
    match step
    case Await => true
    case Open(a) => a in s.pending
    case Reject(a) => a in s.pending
    case Handle(a) => a in s.rejected
  }

  function Next(s: State, step: Step): State {
    match step
    case Await =>
      var after := Awaited(s.current, s.started);
      s.(current := after.current, started := after.started, awaits := s.awaits + [after.attempt],
         pending := if s.current.Some? then s.pending else s.pending + {after.attempt})
    case Open(a) => s.(pending := s.pending - {a}, sessions := s.sessions + {a})
    case Reject(a) => s.(pending := s.pending - {a}, rejected := s.rejected + {a})
    case Handle(a) => s.(rejected := s.rejected - {a}, forgotten := s.forgotten + {a}, current := None)
  }

  function Init(): State {
    State(None, 0, {}, {}, {}, {}, [])
  }

  // Whatever is under way, open or about to be forgotten is the current attempt.
  ghost predicate Inv(s: State) {
    && s.pending + s.sessions + s.rejected == (if s.current.Some? then {s.current.value} else {})
    && s.pending !! s.sessions !! s.rejected
    && (s.current.Some? ==> s.current.value < s.started && s.current.value !in s.forgotten)
    && (forall a :: a in s.forgotten ==> a < s.started)
    && (forall a :: 0 <= a < s.started ==> a in s.forgotten || s.current == Some(a))
  }

  lemma StepKeeps(s: State, step: Step)
    requires Inv(s) && Enabled(s, step)
    ensures Inv(Next(s, step))
  {
    var t := Next(s, step);
    match step
    case Await =>
    case Open(a) =>
      assert s.current == Some(a) && s.pending == {a};
    case Reject(a) =>
      assert s.current == Some(a) && s.pending == {a};
    case Handle(a) =>
      assert s.current == Some(a) && s.rejected == {a};
  }

  ghost predicate Legal(s: State, steps: seq<Step>)
    decreases |steps|
  {
    steps == [] || (Enabled(s, steps[0]) && Legal(Next(s, steps[0]), steps[1..]))
  }

  function Run(s: State, steps: seq<Step>): State
    decreases |steps|
  {
    if steps == [] then s else Run(Next(s, steps[0]), steps[1..])
  }

  lemma {:induction false} RunKeeps(s: State, steps: seq<Step>)
    requires Inv(s) && Legal(s, steps)
    ensures Inv(Run(s, steps))
    decreases |steps|
  {
    hide Inv, Next, Enabled;
    if steps != [] {
      StepKeeps(s, steps[0]);
      RunKeeps(Next(s, steps[0]), steps[1..]);
    }
  }

  /**
    Over any run of awaits and failures at most one session is opened, and at most
    one attempt is under way or open.
   */
  lemma OneSession(steps: seq<Step>)
    requires Legal(Init(), steps)
    ensures var s := Run(Init(), steps); |s.sessions| <= 1 && |s.pending + s.sessions| <= 1
  {
    RunKeeps(Init(), steps);
    var s := Run(Init(), steps);
    if s.current.Some? {
      Only(s.sessions, s.current.value);
      Only(s.pending + s.sessions, s.current.value);
    } else {
      assert s.sessions == {} && s.pending + s.sessions == {};
    }
  }

  lemma Only(attempts: set<Attempt>, attempt: Attempt)
    requires attempts <= {attempt}
    ensures |attempts| <= 1
  {
    if attempts != {} {
      assert attempts == {attempt};
    }
  }

  /** Once a session is open, every await from then on is given that one, and no other attempt is started. */
  lemma {:induction false} OpenStays(s: State, steps: seq<Step>, session: Attempt)
    requires Inv(s) && session in s.sessions && Legal(s, steps)
    ensures var t := Run(s, steps);
            && t.sessions == {session} && t.started == s.started
            && |s.awaits| <= |t.awaits| && t.awaits[..|s.awaits|] == s.awaits
            && forall i :: |s.awaits| <= i < |t.awaits| ==> t.awaits[i] == session
    decreases |steps|
  {
    if steps == [] {
      assert s.sessions == {session};
    } else {
      StepKeeps(s, steps[0]);
      OpenStep(s, steps[0], session);
      OpenStays(Next(s, steps[0]), steps[1..], session);
    }
  }

  lemma OpenStep(s: State, step: Step, session: Attempt)
    requires Inv(s) && session in s.sessions && Enabled(s, step)
    ensures step.Await? && session in Next(s, step).sessions && Next(s, step).started == s.started
    ensures Next(s, step).awaits == s.awaits + [session]
  {
    assert s.current == Some(session);
  }

  /** A failed attempt is not held on to: the next await after it is handled starts another. */
  lemma FailureForgotten(s: State, attempt: Attempt)
    requires Inv(s) && attempt in s.rejected
    ensures var t := Next(Next(s, Handle(attempt)), Await);
            Inv(t) && t.current == Some(s.started) && t.started == s.started + 1 && s.started in t.pending
            && t.awaits == s.awaits + [s.started] && s.started != attempt
  {
    StepKeeps(s, Handle(attempt));
    StepKeeps(Next(s, Handle(attempt)), Await);
  }
}
