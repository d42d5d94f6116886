/**
  The close's last job: ending the keys that are still live, one after the
  other, until one cannot be ended. `endLive` in `nodejs/src/client.ts`,
  `_end_live` in `python/memcoai/_aio.py`.
 */
module CloseSweep {
  import opened Wrappers
  import opened Text
  import R = KeyRegistry

  type KeyId = R.KeyId

  datatype Live = Live(id: KeyId, expires: real)

  // What ending a key comes to: the call, or the lease of the credential it is
  // sent under, may fail.
  datatype Answer = Done | NotFound | Refused

  // What the sweep did: the ends it sent, in order, and the keys it named in its one warning.
  datatype Sweep = Sweep(sent: seq<KeyId>, warned: Option<seq<KeyId>>)

  // The keys not yet expired, in the order they are registered.
  function Unexpired(live: seq<Live>, now: real): seq<KeyId> {
    if live == [] then []
    else (if live[0].expires > now then [live[0].id] else []) + Unexpired(live[1..], now)
  }

  lemma UnexpiredNone(live: seq<Live>, now: real)
    ensures Unexpired(live[|live|..], now) == []
  {
  }

  lemma UnexpiredOne(live: seq<Live>, i: nat, now: real)
    requires i < |live|
    ensures Unexpired(live[i..], now) ==
            (if live[i].expires > now then [live[i].id] else []) + Unexpired(live[i + 1..], now)
  {
    assert live[i..][1..] == live[i + 1..];
  }

  method UnexpiredKeys(live: seq<Live>, now: real) returns (ids: seq<KeyId>)
    ensures ids == Unexpired(live, now)
  {
    hide Unexpired;
    ids := [];
    var i := 0;
    assert live[0..] == live;
    while i < |live|
      invariant 0 <= i <= |live|
      invariant ids + Unexpired(live[i..], now) == Unexpired(live, now)
    {
      UnexpiredOne(live, i, now);
      Regroup(ids, if live[i].expires > now then [live[i].id] else [], Unexpired(live[i + 1..], now));
      if live[i].expires > now {
        ids := ids + [live[i].id];
      }
      i := i + 1;
    }
    UnexpiredNone(live, now);
  }

  // Whether the end was refused; one the service never answers was, too.
  predicate Refuses(answers: map<KeyId, Answer>, id: KeyId) {
    id !in answers || answers[id].Refused?
  }

  // How many keys come before the first that could not be ended.
  function Gone(ids: seq<KeyId>, answers: map<KeyId, Answer>): (n: nat)
    ensures n <= |ids|
  {
    if ids == [] || Refuses(answers, ids[0]) then 0 else 1 + Gone(ids[1..], answers)
  }

  function Swept(ids: seq<KeyId>, answers: map<KeyId, Answer>): Sweep {
    var n := Gone(ids, answers);
    if n == |ids| then Sweep(ids, None) else Sweep(ids[..n + 1], Some(ids[n..]))
  }

  lemma {:induction false} GoneIs(ids: seq<KeyId>, answers: map<KeyId, Answer>, n: nat)
    requires n <= |ids| && (forall i :: 0 <= i < n ==> !Refuses(answers, ids[i]))
    requires n < |ids| ==> Refuses(answers, ids[n])
    ensures Gone(ids, answers) == n
  {
    if n > 0 {
      GoneIs(ids[1..], answers, n - 1);
    }
  }

  method EndLive(live: seq<Live>, now: real, answers: map<KeyId, Answer>) returns (r: Sweep)
    ensures r == Swept(Unexpired(live, now), answers)
  {
    hide Gone, Refuses, Unexpired;
    var ids := UnexpiredKeys(live, now);
    var sent: seq<KeyId> := [];
    var i := 0;
    while i < |ids|
      invariant 0 <= i <= |ids|
      invariant sent == ids[..i]
      invariant forall k :: 0 <= k < i ==> !Refuses(answers, ids[k])
    {
      sent := sent + [ids[i]];
      if Refuses(answers, ids[i]) {
        GoneIs(ids, answers, i);
        return Sweep(sent, Some(ids[i..]));
      }
      i := i + 1;
    }
    GoneIs(ids, answers, i);
    return Sweep(sent, None);
  }

  // Answered, and by then the service has no such key: ended now, or not there any more.
  predicate IsGone(answers: map<KeyId, Answer>, id: KeyId) {
    id in answers && (answers[id] == Done || answers[id] == NotFound)
  }

  lemma {:induction false} GoneUntil(ids: seq<KeyId>, answers: map<KeyId, Answer>)
    ensures var n := Gone(ids, answers);
            (forall i :: 0 <= i < n ==> IsGone(answers, ids[i])) && (n < |ids| ==> !IsGone(answers, ids[n]))
  {
    if ids != [] && !Refuses(answers, ids[0]) {
      GoneUntil(ids[1..], answers);
    }
  }

  /**
    The sweep divides the keys, in order, into those that are gone and those its
    one warning names: none is lost and none in both. Each that is gone was answered
    that it was ended or that it is not there; the first that was refused, or never
    answered, is the last that was sent, and is named with all that come after it.
   */
  lemma SweepDivides(ids: seq<KeyId>, answers: map<KeyId, Answer>) returns (gone: seq<KeyId>, named: seq<KeyId>)
    ensures ids == gone + named
    ensures forall id :: id in gone ==> id in answers && (answers[id] == Done || answers[id] == NotFound)
    ensures named != [] ==> named[0] !in answers || answers[named[0]] == Refused
    ensures (forall i, j :: 0 <= i < j < |ids| ==> ids[i] != ids[j]) ==> forall id :: id in gone ==> id !in named
    ensures var sweep := Swept(ids, answers);
            && sweep.warned == (if named == [] then None else Some(named))
            && sweep.sent == gone + named[..if named == [] then 0 else 1]
  {
    var n := Gone(ids, answers);
    gone, named := ids[..n], ids[n..];
    GoneUntil(ids, answers);
    assert n < |ids| ==> ids[..n + 1] == gone + named[..1];
  }

  /** What it divides is every unexpired key, and nothing else. */
  lemma {:induction false} UnexpiredExactly(live: seq<Live>, now: real, id: KeyId)
    ensures id in Unexpired(live, now) <==> exists i :: 0 <= i < |live| && live[i].id == id && live[i].expires > now
  {
    if live != [] {
      UnexpiredExactly(live[1..], now, id);
      assert live == [live[0]] + live[1..];
      if i :| 0 <= i < |live| && live[i].id == id && live[i].expires > now {
        assert i > 0 ==> live[1..][i - 1] == live[i];
      }
      if i :| 0 <= i < |live[1..]| && live[1..][i].id == id && live[1..][i].expires > now {
        assert live[i + 1] == live[1..][i];
      }
    }
  }

  lemma {:induction false} PlaceOf(live: seq<Live>, now: real, i: nat) returns (p: nat)
    requires i < |Unexpired(live, now)|
    ensures p < |live| && live[p].id == Unexpired(live, now)[i]
  {
    if live[0].expires > now && i == 0 {
      p := 0;
    } else {
      p := PlaceOf(live[1..], now, if live[0].expires > now then i - 1 else i);
      p := p + 1;
    }
  }

  /** They come in the order they were registered in. */
  lemma {:induction false} UnexpiredInOrder(live: seq<Live>, now: real, i: nat, j: nat) returns (p: nat, q: nat)
    requires i < j < |Unexpired(live, now)|
    ensures p < q < |live| && live[p].id == Unexpired(live, now)[i] && live[q].id == Unexpired(live, now)[j]
  {
    if live[0].expires > now && i == 0 {
      p := 0;
      q := PlaceOf(live[1..], now, j - 1);
      q := q + 1;
    } else {
      var skip := if live[0].expires > now then 1 else 0;
      p, q := UnexpiredInOrder(live[1..], now, i - skip, j - skip);
      p, q := p + 1, q + 1;
    }
  }

  // The registry's live keys, in the order they were registered.
  ghost predicate Lists(live: seq<Live>, keys: map<KeyId, R.LiveKey>) {
    && (forall i, j :: 0 <= i < j < |live| ==> live[i].id != live[j].id)
    && (forall i :: 0 <= i < |live| ==> live[i].id in keys && keys[live[i].id].expiresAt == live[i].expires)
    && (forall k :: k in keys ==> exists i :: 0 <= i < |live| && live[i].id == k)
  }

  lemma {:induction false} UnexpiredOnce(live: seq<Live>, now: real)
    requires forall i, j :: 0 <= i < j < |live| ==> live[i].id != live[j].id
    ensures var ids := Unexpired(live, now); forall i, j :: 0 <= i < j < |ids| ==> ids[i] != ids[j]
  {
    if live != [] {
      UnexpiredOnce(live[1..], now);
      UnexpiredExactly(live[1..], now, live[0].id);
    }
  }

  /**
    What the close's last job divides is what the registry's sweep took, each key
    once: every one of them is gone or named, and nothing else is sent an end.
   */
  lemma SweepDividesTheSwept(c: R.Client, now: real, live: seq<Live>, answers: map<KeyId, Answer>)
    returns (gone: seq<KeyId>, named: seq<KeyId>)
    requires R.Enabled(c, R.Sweep(now)) && Lists(live, c.reg.live)
    ensures Unexpired(live, now) == gone + named
    ensures var swept := R.Next(c, R.Sweep(now)).swept.value;
            && (forall k :: k in swept <==> k in gone || k in named)
            && (forall k :: k in gone ==> k !in named)
            && (forall k :: k in gone ==> k in answers && (answers[k] == Done || answers[k] == NotFound))
            && (named != [] ==> named[0] !in answers || answers[named[0]] == Refused)
            && var sweep := Swept(Unexpired(live, now), answers);
               && sweep.warned == (if named == [] then None else Some(named))
               && forall k :: k in sweep.sent ==> k in swept
  {
    hide Refuses, Gone, Swept;
    UnexpiredOnce(live, now);
    gone, named := SweepDivides(Unexpired(live, now), answers);
    forall k ensures k in R.Next(c, R.Sweep(now)).swept.value <==> k in gone || k in named {
      SweptExactly(c, now, live, k);
      assert k in Unexpired(live, now) <==> k in gone || k in named;
    }
    assert named != [] ==> named[..1] == [named[0]];
  }

  lemma SweptExactly(c: R.Client, now: real, live: seq<Live>, k: KeyId)
    requires R.Enabled(c, R.Sweep(now)) && Lists(live, c.reg.live)
    ensures k in R.Next(c, R.Sweep(now)).swept.value <==> k in Unexpired(live, now)
  {
    UnexpiredExactly(live, now, k);
  }
}
