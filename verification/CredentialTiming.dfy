/**
  How long a credential is held for: the lifetime arithmetic of
  `key_lifetime` and of the two mints in `_aio.py`. Times are monotonic
  readings in seconds, as reals.
 */
module CredentialTiming {

  // Never is `math.inf`: a static token is neither renewed nor expires.
  datatype Instant = At(t: real) | Never

  predicate Before(now: real, point: Instant) {
    point.Never? || now < point.t
  }

  predicate NotAfter(point: Instant, other: Instant) {
    other.Never? || (point.At? && point.t <= other.t)
  }

  const RENEW_AFTER: real := 0.8

  /**
    What a mint produced, and when.
    - `sent` and `received` are readings taken around the request;
    - `issued` is when, on the same clock, the service started counting;
    - `wall` is the host's wall clock on receipt, `expiresAt` the service's.
   */
  datatype Issue =
    | StaticToken
    | ClientToken(sent: real, issued: real, received: real, expiresIn: int)
    | SessionKey(keyId: string, sent: real, issued: real, received: real,
                 expiresIn: int, expiresAt: int, wall: real)

  // The service issues between the two readings; a token's lifetime is never negative.
  predicate WellTimed(issue: Issue) {
    match issue
    case StaticToken => true
    case ClientToken(sent, issued, received, expiresIn) => sent <= issued <= received && 0 <= expiresIn
    case SessionKey(_, sent, issued, received, _, _, _) => sent <= issued <= received
  }

  // The reading a lifetime runs from, and its length.
  function Lifetime(issue: Issue): (real, real)
    requires !issue.StaticToken?
  {
    match issue
    case ClientToken(sent, _, _, expiresIn) => (sent, expiresIn as real)
    case SessionKey(_, sent, _, received, expiresIn, expiresAt, wall) =>
      if expiresIn > 0 then (sent, expiresIn as real) else (received, expiresAt as real - wall)
  }

  function RenewAt(issue: Issue): Instant {
    if issue.StaticToken? then Never else var (since, left) := Lifetime(issue); At(since + RENEW_AFTER * left)
  }

  function Expires(issue: Issue): Instant {
    if issue.StaticToken? then Never else var (since, left) := Lifetime(issue); At(since + left)
  }

  // Whether the lifetime is the service's own count rather than a wall-clock reading.
  predicate CountedByService(issue: Issue) {
    issue.ClientToken? || (issue.SessionKey? && issue.expiresIn > 0)
  }

  // Whether the service still honours the credential at `now`, by its own count.
  predicate HonouredByService(issue: Issue, now: real)
    requires CountedByService(issue)
  {
    now < issue.issued + issue.expiresIn as real
  }

  /** Timing starts before the request, so a counted lifetime can only run out early. */
  lemma UnexpiredHereIsUnexpiredThere(issue: Issue, now: real)
    requires WellTimed(issue) && CountedByService(issue)
    ensures Before(now, Expires(issue)) ==> HonouredByService(issue, now)
    ensures Before(now, RenewAt(issue)) ==> Before(now, Expires(issue))
  {
    var (since, left) := Lifetime(issue);
    assert RENEW_AFTER * left <= left;
  }

  /**
    A lifetime the service counts runs out here as many seconds after the request
    was sent, and falls due once four fifths of them have passed: never later than
    at the service, and no earlier than by the time the request took.
   */
  lemma CountedExactly(issue: Issue, now: real)
    requires WellTimed(issue) && CountedByService(issue)
    ensures Before(now, Expires(issue)) <==> now - issue.sent < issue.expiresIn as real
    ensures Before(now, RenewAt(issue)) <==> 5.0 * (now - issue.sent) < 4.0 * issue.expiresIn as real
    ensures !Before(now, Expires(issue)) ==> !HonouredByService(issue, now + (issue.received - issue.sent))
  {
  }

  /**
    A key that comes without a count is held for what is left of it by the host's
    wall clock: it is unexpired as long as that clock, gone on from receipt, is
    short of the service's expiry, and falls due once four fifths of what was left
    have passed. One past its expiry by the wall clock is past both from receipt on.
   */
  lemma WallClockExactly(issue: Issue, now: real)
    requires issue.SessionKey? && issue.expiresIn <= 0 && issue.received <= now
    ensures Before(now, Expires(issue)) <==> issue.wall + (now - issue.received) < issue.expiresAt as real
    ensures Before(now, RenewAt(issue)) <==>
            5.0 * (now - issue.received) < 4.0 * (issue.expiresAt as real - issue.wall)
    ensures issue.expiresAt as real <= issue.wall ==> !Before(now, Expires(issue)) && !Before(now, RenewAt(issue))
  {
  }

  /** A static token neither falls due nor expires. */
  lemma StaticNeverExpires(now: real)
    ensures Before(now, RenewAt(StaticToken)) && Before(now, Expires(StaticToken))
  {
  }

  // It came with something left of it, by the count it came with or by the wall clock.
  predicate Alive(issue: Issue) {
    match issue
    case StaticToken => true
    case ClientToken(_, _, _, expiresIn) => expiresIn > 0
    case SessionKey(_, _, _, _, expiresIn, expiresAt, wall) => expiresIn > 0 || wall < expiresAt as real
  }

  /**
    A reading at or after receipt that is before the renewal point is before
    the expiry too, and what passes either test came with something left of it.
   */
  lemma NothingSkewedPasses(issue: Issue, now: real)
    requires WellTimed(issue) && !issue.StaticToken? && issue.received <= now
    requires Before(now, RenewAt(issue)) || Before(now, Expires(issue))
    ensures Before(now, Expires(issue))
    ensures Alive(issue)
  {
    var (since, left) := Lifetime(issue);
    assert since <= issue.received;
    assert left <= 0.0 ==> RENEW_AFTER * left <= 0.0;
    assert left > 0.0 ==> RENEW_AFTER * left <= left;
  }
}
