/**
  The registry of impersonation keys in `nodejs/src/client.ts`, and every job
  that touches it, as a state machine. One step per stretch of code that runs
  without awaiting; what the service and the sessions do arrives as steps of
  their own, in any order.
 */
module KeyRegistry {
  import opened Wrappers

  type KeyId = int
  type User = int
  type Owner = int  // the token standing for a session credential
  type JobId = int

  datatype LiveKey = LiveKey(user: User, expiresAt: real, owner: Owner, endFailed: bool, ending: bool)

  // The client's own fields, and the ends it has on the wire.
  datatype Registry = Registry(
    closed: bool,
    inflight: int,
    live: map<KeyId, LiveKey>,
    dropped: seq<Owner>,
    draining: bool,          // the close waits in `drain`
    sending: multiset<KeyId>,
    sent: set<KeyId>)        // every key an end was ever sent of

  lemma Member<T>(s: set<T>) returns (x: T)
    requires s != {}
    ensures x in s
  {
    x :| x in s;
  }

  // ---- what the client does ------------------------------------------------

  function Marked(live: map<KeyId, LiveKey>, keys: set<KeyId>): map<KeyId, LiveKey> {
    map k | k in live :: if k in keys then live[k].(ending := true) else live[k]
  }

  // Send the end of each of these registered keys, unless the client is closed.
  function EndAll(r: Registry, keys: set<KeyId>): Registry {
    if r.closed then r
    else r.(live := Marked(r.live, keys), sending := r.sending + multiset(keys), sent := r.sent + keys,
             inflight := r.inflight + 2 * |keys|)
  }

  function DroppedKeys(r: Registry): set<KeyId> {
    set k | k in r.live && r.live[k].owner in r.dropped && !r.live[k].ending
  }

  // `endDropped`: the queue is emptied before any key is ended.
  function EndDropped(r: Registry): Registry {
    EndAll(r.(dropped := []), DroppedKeys(r))
  }

  // One end on the wire, counted in twice: by `sendEnd` itself, and by the call it makes.
  function Sent(r: Registry, k: KeyId): Registry {
    r.(inflight := r.inflight + 2, sending := r.sending + multiset{k}, sent := r.sent + {k})
  }

  // `sendEnd` up to its first wait. The call it makes ends dropped keys too.
  function SendEnd(r: Registry, k: KeyId): Registry {
    if r.closed then r
    else EndDropped(Sent(r, k))
  }

  // `endKey`. The key is marked only once `sendEnd` has returned.
  function EndKey(r: Registry, k: KeyId): Registry {
    if k in r.live && r.live[k].ending then r
    else
      var sent := SendEnd(r, k);
      if k in r.live && !r.closed then sent.(live := Marked(sent.live, {k})) else sent
  }

  // `finish`: the count reaching zero wakes the close waiting in `drain`.
  function Finish(r: Registry): Registry {
    r.(inflight := r.inflight - 1, draining := r.draining && r.inflight != 1)
  }

  // `shutdown` up to the end of `drain`, run once.
  function Shut(r: Registry): Registry {
    if r.closed then r else r.(closed := true, draining := r.inflight != 0)
  }

  // A call counted in; `call` ends dropped keys on the way.
  function Begin(r: Registry): Registry {
    EndDropped(r.(inflight := r.inflight + 1))
  }

  function Unexpired(live: map<KeyId, LiveKey>, now: real): map<KeyId, LiveKey> {
    map k | k in live && live[k].expiresAt > now :: live[k]
  }

  function FailedKeys(r: Registry, user: User): set<KeyId> {
    set k | k in r.live && r.live[k].user == user && r.live[k].endFailed && !r.live[k].ending
  }

  // `mintKey` up to its first wait: forget the expired, end the dropped, retry the failed.
  function Prepare(r: Registry, user: User, now: real): Registry {
    var pruned := EndDropped(r.(inflight := r.inflight + 1, live := Unexpired(r.live, now)));
    EndAll(pruned, FailedKeys(pruned, user))
  }

  // The keys of a user that are being ended.
  function Ending(r: Registry, user: User): set<KeyId> {
    set k | k in r.live && r.live[k].user == user && r.live[k].ending
  }

  function Register(r: Registry, k: KeyId, key: LiveKey): Registry {
    Finish(r.(live := r.live[k := key]))
  }

  // What `sendEnd` records once its call is answered, in the same window.
  function Record(r: Registry, k: KeyId, gone: bool): Registry {
    Finish(r.(live := if gone then r.live - {k}
                      else if k in r.live then r.live[k := r.live[k].(ending := false, endFailed := true)]
                      else r.live))
  }

  // ---- everything around it ------------------------------------------------

  // A mint waiting for ends of its user's keys, or for that of the expired key it got.
  datatype Waiting = Waiting(user: User, owner: Owner, discarding: bool)

  datatype Arrival = Arrival(user: User, owner: Owner, key: KeyId)

  // The answers to ends: those not yet recorded, and the keys ever confirmed ended.
  datatype Ends = Ends(gone: multiset<KeyId>, refused: multiset<KeyId>, confirmed: set<KeyId>)

  datatype Jobs = Jobs(
    calls: map<JobId, Option<KeyId>>,   // calls in flight, and the session key each leases
    waiting: map<JobId, Waiting>,
    asking: map<JobId, Waiting>,        // mints whose request is with the service
    arrived: map<JobId, Arrival>)       // mints answered, their key not yet registered

  datatype Keys = Keys(
    issued: map<KeyId, Owner>,          // every key the service issued
    registered: map<KeyId, real>,       // every key registered, and its expiry
    handed: set<KeyId>,                 // keys whose session has called its end
    collected: set<Owner>)              // session credentials that are garbage

  datatype Client = Client(
    reg: Registry,
    ends: Ends,
    jobs: Jobs,
    awaited: map<JobId, set<KeyId>>,    // the ends each waiting mint found under way, and not yet recorded
    keys: Keys,
    swept: Option<set<KeyId>>,          // what the close's sweep found
    clock: real)

  datatype Step =
    | CallBegin(job: JobId)
    | CallLease(job: JobId, key: KeyId)          // the call gets a session key to send
    | CallEnd(job: JobId)
    | MintBegin(job: JobId, user: User, owner: Owner, now: real)
    | MintAsk(job: JobId)
    | MintFailed(job: JobId)
    | MintReply(job: JobId, key: KeyId)
    | MintRegister(job: JobId, expiresAt: real)  // the lifetime is positive
    | MintDiscard(job: JobId)                    // the key arrived expired by the local clock
    | SessionEnd(key: KeyId)                     // a session credential calls its end
    | EndReply(key: KeyId, gone: bool)
    | EndRecord(key: KeyId, gone: bool)
    | Drop(owner: Owner)
    | Close
    | Sweep(now: real)

  function Init(): Client {
    Client(Registry(false, 0, map[], [], false, multiset{}, {}), Ends(multiset{}, multiset{}, {}),
           Jobs(map[], map[], map[], map[]), map[], Keys(map[], map[], {}, {}), None, 0.0)
  }

  // How many ends of a key are under way: sent, or answered and not yet recorded.
  function Open(sending: multiset<KeyId>, ends: Ends, k: KeyId): nat {
    sending[k] + ends.gone[k] + ends.refused[k]
  }

  // Held by a session that is still there: registered, and its end never called.
  predicate Held(keys: Keys, k: KeyId) {
    k in keys.registered && k in keys.issued && k !in keys.handed && keys.issued[k] !in keys.collected
  }

  ghost predicate Leased(jobs: Jobs, k: KeyId) {
    exists job :: job in jobs.calls && jobs.calls[job] == Some(k)
  }

  ghost predicate Minting(jobs: Jobs, owner: Owner) {
    || (exists job :: job in jobs.waiting && jobs.waiting[job].owner == owner)
    || (exists job :: job in jobs.asking && jobs.asking[job].owner == owner)
    || (exists job :: job in jobs.arrived && jobs.arrived[job].owner == owner)
  }

  predicate NewJob(jobs: Jobs, job: JobId) {
    job !in jobs.calls && job !in jobs.waiting && job !in jobs.asking && job !in jobs.arrived
  }

  // An end was recorded: whoever awaits it stops.
  function Recorded(awaited: map<JobId, set<KeyId>>, k: KeyId): map<JobId, set<KeyId>> {
    map job | job in awaited :: awaited[job] - {k}
  }

  // What the environment may do. A mint asks once every end it awaits is recorded.
  // A session credential keeps the holder's promises (Sessions): it ends a key once,
  // under no lease, and does nothing once collected.
  ghost predicate Enabled(c: Client, step: Step) {
    match step
    case CallBegin(job) => !c.reg.closed && NewJob(c.jobs, job)
    case CallLease(job, key) => job in c.jobs.calls && c.jobs.calls[job] == None && Held(c.keys, key)
    case CallEnd(job) => job in c.jobs.calls
    case MintBegin(job, _, owner, now) =>
      !c.reg.closed && NewJob(c.jobs, job) && owner !in c.keys.collected && c.clock <= now
    case MintAsk(job) => job in c.jobs.waiting && (job in c.awaited ==> c.awaited[job] == {})
    case MintFailed(job) => job in c.jobs.asking
    case MintReply(job, key) => job in c.jobs.asking && key !in c.keys.issued
    case MintRegister(job, _) => job in c.jobs.arrived
    case MintDiscard(job) => job in c.jobs.arrived
    case SessionEnd(key) => Held(c.keys, key) && !Leased(c.jobs, key)
    case EndReply(key, _) => c.reg.sending[key] > 0
    case EndRecord(key, gone) => if gone then c.ends.gone[key] > 0 else c.ends.refused[key] > 0
    case Drop(owner) =>
      && owner !in c.keys.collected && !Minting(c.jobs, owner)
      && forall k :: Leased(c.jobs, k) && k in c.keys.issued ==> c.keys.issued[k] != owner
    case Close => true
    case Sweep(now) => c.reg.closed && !c.reg.draining && c.swept == None && c.clock <= now
  }

  function Next(c: Client, step: Step): Client
    requires Enabled(c, step)
  {
    var j := c.jobs;
    match step
    case CallBegin(job) => c.(reg := Begin(c.reg), jobs := j.(calls := j.calls[job := None]))
    case CallLease(job, key) => c.(jobs := j.(calls := j.calls[job := Some(key)]))
    case CallEnd(job) => c.(reg := Finish(c.reg), jobs := j.(calls := j.calls - {job}))
    case MintBegin(job, user, owner, now) =>
      var prepared := Prepare(c.reg, user, now);
      c.(reg := prepared, clock := now,
         jobs := j.(waiting := j.waiting[job := Waiting(user, owner, false)]),
         awaited := c.awaited[job := Ending(prepared, user)])
    case MintAsk(job) =>
      var w := j.waiting[job];
      var asks := c.(awaited := c.awaited - {job});
      if w.discarding || c.reg.closed then asks.(reg := Finish(c.reg), jobs := j.(waiting := j.waiting - {job}))
      else asks.(reg := Begin(c.reg), jobs := j.(waiting := j.waiting - {job}, asking := j.asking[job := w]))
    case MintFailed(job) => c.(reg := Finish(Finish(c.reg)), jobs := j.(asking := j.asking - {job}))
    case MintReply(job, key) =>
      var w := j.asking[job];
      c.(reg := Finish(c.reg), keys := c.keys.(issued := c.keys.issued[key := w.owner]),
         jobs := j.(asking := j.asking - {job}, arrived := j.arrived[job := Arrival(w.user, w.owner, key)]))
    case MintRegister(job, expiresAt) =>
      var a := j.arrived[job];
      c.(reg := Register(c.reg, a.key, LiveKey(a.user, expiresAt, a.owner, false, false)),
         keys := c.keys.(registered := c.keys.registered[a.key := expiresAt]),
         jobs := j.(arrived := j.arrived - {job}))
    case MintDiscard(job) =>
      var a := j.arrived[job];
      if c.reg.closed then c.(reg := Finish(c.reg), jobs := j.(arrived := j.arrived - {job}))
      else
        c.(reg := SendEnd(c.reg, a.key),
           jobs := j.(arrived := j.arrived - {job}, waiting := j.waiting[job := Waiting(a.user, a.owner, true)]),
           awaited := c.awaited[job := {a.key}])
    case SessionEnd(key) => c.(reg := EndKey(c.reg, key), keys := c.keys.(handed := c.keys.handed + {key}))
    case EndReply(key, gone) =>
      c.(reg := Finish(c.reg.(sending := c.reg.sending - multiset{key})),
         ends := if gone then c.ends.(gone := c.ends.gone + multiset{key}, confirmed := c.ends.confirmed + {key})
                 else c.ends.(refused := c.ends.refused + multiset{key}))
    case EndRecord(key, gone) =>
      c.(reg := Record(c.reg, key, gone), awaited := Recorded(c.awaited, key),
         ends := if gone then c.ends.(gone := c.ends.gone - multiset{key})
                 else c.ends.(refused := c.ends.refused - multiset{key}))
    case Drop(owner) =>
      c.(reg := if c.reg.closed then c.reg else c.reg.(dropped := c.reg.dropped + [owner]),
         keys := c.keys.(collected := c.keys.collected + {owner}))
    case Close => c.(reg := Shut(c.reg))
    case Sweep(now) =>
      c.(reg := c.reg.(live := map[]), swept := Some(Unexpired(c.reg.live, now).Keys), clock := now)
  }

  ghost predicate Legal(c: Client, steps: seq<Step>)
    decreases |steps|
  {
    steps == [] || (Enabled(c, steps[0]) && Legal(Next(c, steps[0]), steps[1..]))
  }

  function Run(c: Client, steps: seq<Step>): Client
    requires Legal(c, steps)
    decreases |steps|
  {
    if steps == [] then c else Run(Next(c, steps[0]), steps[1..])
  }

  // ---- the invariant -------------------------------------------------------

  // Everything counted in flight is still to be counted out.
  ghost function Weight(sending: multiset<KeyId>, ends: Ends, jobs: Jobs): int {
    |jobs.calls| + |jobs.waiting| + 2 * |jobs.asking| + |jobs.arrived| + 2 * |sending| + |ends.gone| + |ends.refused|
  }

  // A job is in one phase at a time.
  ghost predicate Distinct(jobs: Jobs) {
    && (forall job :: job in jobs.calls ==> job !in jobs.waiting && job !in jobs.asking && job !in jobs.arrived)
    && (forall job :: job in jobs.waiting ==> job !in jobs.asking && job !in jobs.arrived)
    && (forall job :: job in jobs.asking ==> job !in jobs.arrived)
  }

  ghost predicate Single(sending: multiset<KeyId>, ends: Ends) {
    forall k {:trigger Open(sending, ends, k)} :: Open(sending, ends, k) <= 1
  }

  ghost predicate Marking(live: map<KeyId, LiveKey>, sending: multiset<KeyId>, ends: Ends) {
    forall k :: k in live ==> (live[k].ending <==> Open(sending, ends, k) == 1)
  }

  ghost predicate NoneAfterConfirmed(live: map<KeyId, LiveKey>, sending: multiset<KeyId>, ends: Ends) {
    && (forall k :: k in ends.confirmed ==> sending[k] == 0 && ends.refused[k] == 0 && (k in live ==> ends.gone[k] > 0))
    && (forall k :: ends.gone[k] > 0 ==> k in ends.confirmed)
  }

  // The log of ends holds every key one is under way of, or was confirmed of.
  ghost predicate Logged(sent: set<KeyId>, sending: multiset<KeyId>, ends: Ends) {
    forall k :: Open(sending, ends, k) > 0 || k in ends.confirmed ==> k in sent
  }

  // A key its session still holds has never been touched.
  ghost predicate HeldUntouched(live: map<KeyId, LiveKey>, sent: set<KeyId>, keys: Keys) {
    forall k :: Held(keys, k) ==> k !in sent && (k in live ==> !live[k].endFailed)
  }

  ghost predicate Known(live: map<KeyId, LiveKey>, keys: Keys) {
    forall k :: k in live ==>
      && k in keys.registered && k in keys.issued
      && keys.registered[k] == live[k].expiresAt && keys.issued[k] == live[k].owner
  }

  ghost predicate Issued(sent: set<KeyId>, keys: Keys) {
    forall k :: k in keys.registered || k in sent ==> k in keys.issued
  }

  ghost predicate Gone(dropped: seq<Owner>, keys: Keys) {
    forall o :: o in dropped ==> o in keys.collected
  }

  ghost predicate LeasesHeld(jobs: Jobs, keys: Keys) {
    forall job :: job in jobs.calls && jobs.calls[job].Some? ==> Held(keys, jobs.calls[job].value)
  }

  // A key on its way to be registered is nowhere else yet.
  ghost predicate Arriving(jobs: Jobs, sent: set<KeyId>, keys: Keys) {
    && (forall job :: job in jobs.arrived ==>
          var k := jobs.arrived[job].key;
          && k in keys.issued && keys.issued[k] == jobs.arrived[job].owner
          && k !in keys.registered && k !in sent)
    && (forall i, j :: i in jobs.arrived && j in jobs.arrived && jobs.arrived[i].key == jobs.arrived[j].key ==> i == j)
  }

  // Registered keys stay until they are confirmed ended, expire, or are swept.
  ghost predicate Kept(live: map<KeyId, LiveKey>, registered: map<KeyId, real>, confirmed: set<KeyId>, clock: real) {
    forall k :: k in registered ==> k in live || k in confirmed || registered[k] <= clock
  }

  ghost predicate Closing(c: Client) {
    && (c.reg.closed && !c.reg.draining ==> c.reg.inflight == 0)
    && (c.reg.draining ==> c.reg.closed && c.reg.inflight > 0)
    && (c.swept.Some? ==> c.reg.closed && !c.reg.draining && c.reg.live == map[])
  }

  ghost predicate Inv(c: Client) {
    && c.reg.inflight == Weight(c.reg.sending, c.ends, c.jobs)
    && Distinct(c.jobs)
    && Single(c.reg.sending, c.ends)
    && Marking(c.reg.live, c.reg.sending, c.ends)
    && NoneAfterConfirmed(c.reg.live, c.reg.sending, c.ends)
    && Logged(c.reg.sent, c.reg.sending, c.ends)
    && HeldUntouched(c.reg.live, c.reg.sent, c.keys)
    && Known(c.reg.live, c.keys)
    && Issued(c.reg.sent, c.keys)
    && Gone(c.reg.dropped, c.keys)
    && LeasesHeld(c.jobs, c.keys)
    && Arriving(c.jobs, c.reg.sent, c.keys)
    && (c.swept == None ==> Kept(c.reg.live, c.keys.registered, c.ends.confirmed, c.clock))
    && Closing(c)
  }

  // ---- keys nothing will end -----------------------------------------------

  ghost predicate OnItsWay(jobs: Jobs, k: KeyId) {
    exists job :: job in jobs.arrived && jobs.arrived[job].key == k
  }

  // A key of the service's that no part of the client knows: it was issued and is
  // neither about to be registered nor ever was, and no end of it is under way or
  // was confirmed.
  ghost predicate Abandoned(c: Client, k: KeyId) {
    && k in c.keys.issued && k !in c.keys.registered && !OnItsWay(c.jobs, k)
    && Open(c.reg.sending, c.ends, k) == 0 && k !in c.ends.confirmed
  }

  // A key on no other way was sent an end as it arrived, unless the client had closed.
  ghost predicate AllPlaced(c: Client) {
    forall k :: k in c.keys.issued && k !in c.keys.registered && !OnItsWay(c.jobs, k) ==>
      k in c.reg.sent || c.reg.closed
  }
}
