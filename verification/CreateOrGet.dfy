/**
  `CreateOrGet` of `go/memcoai/admin.go` and `createOrGet` of
  `nodejs/src/administration.ts`: a network is created, or the one that holds its
  name is looked for on the pages of a listing and adopted if it is the same.
 */
module CreateOrGet {
  import opened Wrappers
  import T = Text

  // An empty owner, domain or scope is one not given.
  datatype Network = Network(name: string, owner: string, domain: string, scope: string)
  datatype Page = Page(networks: seq<Network>, total: int)

  // Why a call to the service failed.
  datatype Failure = AlreadyExists | Other(code: int)

  // Who has a name that was refused.
  datatype Holder =
    | NoOwner
    | OtherOwner(owner: string)
    | OtherDomain(domain: string)
    | OtherScope(scope: string)
    | Unlisted

  datatype Outcome =
    | Created(network: Network)
    | Adopted(network: Network)
    | Held(holder: Holder)
    | Failed(failure: Failure)

  // ---- `strings.TrimSpace` -------------------------------------------------

  predicate IsSpace(c: char) {
    var n := c as int;
    || 0x09 <= n <= 0x0D || n == 0x20 || n == 0x85 || n == 0xA0 || n == 0x1680
    || 0x2000 <= n <= 0x200A || n == 0x2028 || n == 0x2029 || n == 0x202F || n == 0x205F || n == 0x3000
  }

  // It goes by the same characters as Python's `str.isspace`, but for four separators.
  lemma SpaceInBoth(c: char)
    ensures IsSpace(c) <==> T.IsSpace(c) && !(0x1C <= c as int <= 0x1F)
  {
  }

  function TrimSpace(s: string): string
    decreases |s|
  {
    if s == "" then ""
    else if IsSpace(s[0]) then TrimSpace(s[1..])
    else if IsSpace(s[|s| - 1]) then TrimSpace(s[..|s| - 1])
    else s
  }

  // ---- adopting ------------------------------------------------------------

  // The network asked for, apart from how the service stores its owner.
  predicate Matches(existing: Network, asked: Network) {
    && existing.name == asked.name
    && existing.owner == TrimSpace(asked.owner)
    && (asked.domain != "" ==> existing.domain == asked.domain)
    && (asked.scope != "" ==> existing.scope == asked.scope)
  }

  // The first thing about a network of the name that is not as asked, and what it is.
  predicate Differs(existing: Network, asked: Network, holder: Holder) {
    var sameOwner := existing.owner == TrimSpace(asked.owner);
    var sameDomain := asked.domain == "" || existing.domain == asked.domain;
    match holder
    case NoOwner => !sameOwner && existing.owner == ""
    case OtherOwner(owner) => !sameOwner && existing.owner != "" && owner == existing.owner
    case OtherDomain(domain) => sameOwner && !sameDomain && domain == existing.domain
    case OtherScope(scope) =>
      sameOwner && sameDomain && asked.scope != "" && existing.scope != asked.scope && scope == existing.scope
    case Unlisted => false
  }

  function Verdict(existing: Network, asked: Network): (r: Outcome)
    requires existing.name == asked.name
    ensures r == Adopted(existing) <==> Matches(existing, asked)
    ensures r.Adopted? || (r.Held? && Differs(existing, asked, r.holder))
  {
    var owner := TrimSpace(asked.owner);
    if existing.owner != owner && existing.owner == "" then Held(NoOwner)
    else if existing.owner != owner then Held(OtherOwner(existing.owner))
    else if asked.domain != "" && existing.domain != asked.domain then Held(OtherDomain(existing.domain))
    else if asked.scope != "" && existing.scope != asked.scope then Held(OtherScope(existing.scope))
    else Adopted(existing)
  }

  // ---- the walk ------------------------------------------------------------

  // What listing a page returns, or how it fails. Past the last page nothing is listed.
  type Listing = seq<Result<Page, Failure>>

  function List(listing: Listing, page: nat): Result<Page, Failure> {
    if page < |listing| then listing[page] else Ok(Page([], 0))
  }

  // The first network of exactly this name.
  function FirstNamed(networks: seq<Network>, name: string): (r: Option<Network>)
    ensures r.Some? ==> r.value in networks && r.value.name == name
    ensures r.None? ==> forall network :: network in networks ==> network.name != name
  {
    if networks == [] then None
    else if networks[0].name == name then Some(networks[0])
    else FirstNamed(networks[1..], name)
  }

  // How many networks the pages before this one list.
  function Seen(listing: Listing, page: nat): nat {
    if page == 0 then 0
    else Seen(listing, page - 1) + match List(listing, page - 1) case Ok(p) => |p.networks| case Err(_) => 0
  }

  // The walk goes no further than a page that fails, holds the name, is empty, or
  // completes what its total says there is.
  predicate Stops(listing: Listing, page: nat, name: string) {
    match List(listing, page)
    case Err(_) => true
    case Ok(p) =>
      || FirstNamed(p.networks, name).Some?
      || |p.networks| == 0 || Seen(listing, page + 1) >= p.total
  }

  // Where the walk that has come to this page ends.
  function StopFrom(listing: Listing, page: nat, name: string): (stop: nat)
    ensures page <= stop && Stops(listing, stop, name)
    ensures forall k :: page <= k < stop ==> !Stops(listing, k, name)
    decreases |listing| - page
  {
    if Stops(listing, page, name) then page else StopFrom(listing, page + 1, name)
  }

  function Stop(listing: Listing, name: string): nat {
    StopFrom(listing, 0, name)
  }

  function At(listing: Listing, page: nat, asked: Network): Outcome {
    match List(listing, page)
    case Err(failure) => Failed(failure)
    case Ok(p) =>
      match FirstNamed(p.networks, asked.name)
      case Some(existing) => Verdict(existing, asked)
      case None => Held(Unlisted)
  }

  // ---- the methods ---------------------------------------------------------

  // The inner loop: what the first network of the name on a page comes to.
  method Settle(networks: seq<Network>, asked: Network) returns (r: Option<Outcome>)
    ensures r == match FirstNamed(networks, asked.name)
                 case Some(existing) => Some(Verdict(existing, asked))
                 case None => None
  {
    var i := 0;
    while i < |networks|
      invariant 0 <= i <= |networks|
      invariant FirstNamed(networks, asked.name) == FirstNamed(networks[i..], asked.name)
    {
      var existing := networks[i];
      if existing.name == asked.name {
        var owner := TrimSpace(asked.owner);
        if existing.owner != owner && existing.owner == "" {
          return Some(Held(NoOwner));
        } else if existing.owner != owner {
          return Some(Held(OtherOwner(existing.owner)));
        } else if asked.domain != "" && existing.domain != asked.domain {
          return Some(Held(OtherDomain(existing.domain)));
        } else if asked.scope != "" && existing.scope != asked.scope {
          return Some(Held(OtherScope(existing.scope)));
        }
        return Some(Adopted(existing));
      }
      assert networks[i..][1..] == networks[i + 1..];
      i := i + 1;
    }
    return None;
  }

  method Run(created: Result<Network, Failure>, listing: Listing, asked: Network) returns (r: Outcome)
    ensures r == match created
                 case Ok(network) => Created(network)
                 case Err(AlreadyExists) => At(listing, Stop(listing, asked.name), asked)
                 case Err(failure) => Failed(failure)
  {
    if created.Ok? {
      return Created(created.value);
    } else if created.error != AlreadyExists {
      return Failed(created.error);
    }
    var seen := 0;
    var page := 0;
    while true
      invariant seen == Seen(listing, page)
      invariant Stop(listing, asked.name) == StopFrom(listing, page, asked.name)
      decreases |listing| - page
    {
      var listed := List(listing, page);
      if listed.Err? {
        return Failed(listed.error);
      }
      var settled := Settle(listed.value.networks, asked);
      if settled.Some? {
        return settled.value;
      }
      seen := seen + |listed.value.networks|;
      if |listed.value.networks| == 0 || seen >= listed.value.total {
        return Held(Unlisted);
      }
      page := page + 1;
    }
  }

  // ---- what the walk goes by -----------------------------------------------

  // The text from `i` to `j` is all there is but whitespace around it.
  ghost predicate InkSpan(s: string, i: nat, j: nat) {
    && i <= j <= |s|
    && (forall k :: 0 <= k < i || j <= k < |s| ==> IsSpace(s[k]))
    && (i < j ==> !IsSpace(s[i]) && !IsSpace(s[j - 1]))
  }

  /** Trimming an owner leaves what stands between the whitespace, and nothing of one that is all whitespace. */
  lemma {:induction false} TrimSpaceIs(s: string, i: nat, j: nat)
    requires InkSpan(s, i, j)
    ensures TrimSpace(s) == s[i..j]
    decreases |s|
  {
    if s != "" && IsSpace(s[0]) {
      TrimSpaceIs(s[1..], if i == 0 then 0 else i - 1, if i == 0 then 0 else j - 1);
    } else if s != "" && IsSpace(s[|s| - 1]) {
      TrimSpaceIs(s[..|s| - 1], i, j);
    }
  }

  /** It is the first network of the name on the page that decides. */
  lemma {:induction false} FirstOfTheName(networks: seq<Network>, name: string, i: nat)
    requires i < |networks| && networks[i].name == name && forall k :: 0 <= k < i ==> networks[k].name != name
    ensures FirstNamed(networks, name) == Some(networks[i])
  {
    if i > 0 {
      FirstOfTheName(networks[1..], name, i - 1);
    }
  }

  // Where a network stands: its page, and its place on it.
  ghost function Places(listing: Listing, page: nat): set<(nat, nat)> {
    set k: nat, i: nat | k < page && List(listing, k).Ok? && i < |List(listing, k).value.networks| :: (k, i)
  }

  // The first places of a page.
  ghost function Row(page: nat, n: nat): set<(nat, nat)> {
    set i: nat | i < n :: (page, i)
  }

  ghost function RowOf(listing: Listing, page: nat): set<(nat, nat)> {
    if List(listing, page).Ok? then Row(page, |List(listing, page).value.networks|) else {}
  }

  lemma {:induction false} RowIs(page: nat, n: nat)
    ensures |Row(page, n)| == n
  {
    if n == 0 {
      assert Row(page, 0) == {};
    } else {
      RowIs(page, n - 1);
      assert Row(page, n) == Row(page, n - 1) + {(page, n - 1)};
    }
  }

  lemma PlacesMore(listing: Listing, page: nat)
    ensures Places(listing, page + 1) == Places(listing, page) + RowOf(listing, page)
    ensures Places(listing, page) !! RowOf(listing, page)
  {
    hide List;
  }

  /** What the total is held against is how many networks the pages have listed so far. */
  lemma {:induction false} SeenIsListed(listing: Listing, page: nat)
    ensures Seen(listing, page) == |Places(listing, page)|
  {
    hide List, Row;
    if page == 0 {
      assert Places(listing, 0) == {};
    } else {
      SeenIsListed(listing, page - 1);
      PlacesMore(listing, page - 1);
      if List(listing, page - 1).Ok? {
        RowIs(page - 1, |List(listing, page - 1).value.networks|);
      }
    }
  }

  // ---- what it comes to ----------------------------------------------------

  ghost predicate HoldsName(listing: Listing, page: nat, name: string) {
    match List(listing, page)
    case Ok(p) => exists network :: network in p.networks && network.name == name
    case Err(_) => false
  }

  /** Only a network of exactly the name, with the owner, domain and scope asked for, is adopted, and it was listed. */
  lemma AdoptsOnlyTheSame(listing: Listing, asked: Network)
    ensures var stop := Stop(listing, asked.name);
            forall network :: At(listing, stop, asked) == Adopted(network) ==>
              Matches(network, asked) && List(listing, stop).Ok? && network in List(listing, stop).value.networks
  {
  }

  // A page that was listed and is empty, or completes what its total says there is.
  predicate Exhausts(listing: Listing, page: nat) {
    match List(listing, page)
    case Err(_) => false
    case Ok(p) => |p.networks| == 0 || Seen(listing, page + 1) >= p.total
  }

  // Every page before this one is listed, and none of them exhausts the listing.
  ghost predicate Readable(listing: Listing, page: nat) {
    forall k: nat :: k < page ==> List(listing, k).Ok? && !Exhausts(listing, k)
  }

  lemma StopsIff(listing: Listing, page: nat, name: string)
    ensures Stops(listing, page, name) <==>
            List(listing, page).Err? || HoldsName(listing, page, name) || Exhausts(listing, page)
    ensures List(listing, page).Ok? ==>
              (HoldsName(listing, page, name) <==> FirstNamed(List(listing, page).value.networks, name).Some?)
  {
  }

  /**
    A name is reported unlisted exactly when some page exhausts the listing, and
    every page up to it is listed and does not hold the name.
   */
  lemma UnlistedExactly(listing: Listing, asked: Network)
    ensures At(listing, Stop(listing, asked.name), asked) == Held(Unlisted) <==>
            exists page: nat :: Exhausts(listing, page) &&
              forall k: nat :: k <= page ==> List(listing, k).Ok? && !HoldsName(listing, k, asked.name)
  {
    hide Stops, HoldsName, Exhausts;
    var stop := Stop(listing, asked.name);
    forall page: nat
      ensures Stops(listing, page, asked.name) <==>
              List(listing, page).Err? || HoldsName(listing, page, asked.name) || Exhausts(listing, page)
      ensures List(listing, page).Ok? ==>
                (HoldsName(listing, page, asked.name) <==>
                 FirstNamed(List(listing, page).value.networks, asked.name).Some?)
    {
      StopsIff(listing, page, asked.name);
    }
    if At(listing, stop, asked) == Held(Unlisted) {
      assert Exhausts(listing, stop);
    }
  }

  // Where a walk for a name ends, if this is the first page that holds it.
  lemma WalksTo(listing: Listing, first: nat, name: string)
    requires HoldsName(listing, first, name) && forall k: nat :: k < first ==> !HoldsName(listing, k, name)
    ensures Stop(listing, name) <= first
    ensures Stop(listing, name) == first <==> Readable(listing, first)
  {
    hide Stops, HoldsName, Exhausts;
    forall page: nat
      ensures Stops(listing, page, name) <==>
              List(listing, page).Err? || HoldsName(listing, page, name) || Exhausts(listing, page)
    {
      StopsIff(listing, page, name);
    }
  }

  /**
    A name that some page holds is reported unlisted exactly when a page before
    the first that holds it is empty, or completes what its total says there is,
    and no page up to that one fails: the total, or an empty page, hid it.
   */
  lemma HeldYetUnlisted(listing: Listing, asked: Network, first: nat)
    requires HoldsName(listing, first, asked.name)
    requires forall k: nat :: k < first ==> !HoldsName(listing, k, asked.name)
    ensures At(listing, Stop(listing, asked.name), asked) == Held(Unlisted) <==>
            exists page: nat :: page < first && Exhausts(listing, page) &&
              forall k: nat :: k <= page ==> List(listing, k).Ok?
  {
    hide At, Stop, HoldsName, Exhausts, List;
    UnlistedExactly(listing, asked);
  }

  /**
    The loser of a race is handed the verdict on the winner's network exactly when
    every page before the one that lists it is listed, and none exhausts the listing.
   */
  lemma HandedTheWinners(listing: Listing, asked: Network, winner: Network, first: nat)
    requires List(listing, first).Ok?
    requires winner in List(listing, first).value.networks && winner.name == asked.name
    requires forall network :: network in List(listing, first).value.networks && network.name == asked.name ==>
               network == winner
    requires forall k: nat :: k < first ==> !HoldsName(listing, k, asked.name)
    ensures At(listing, Stop(listing, asked.name), asked) == Verdict(winner, asked) <==> Readable(listing, first)
  {
    hide Stop, Readable, Verdict;
    assert HoldsName(listing, first, asked.name);
    WalksTo(listing, first, asked.name);
    var stop := Stop(listing, asked.name);
    StopsIff(listing, stop, asked.name);
  }

  /** A total that counts too few ends the walk before the page that holds the name. */
  lemma ATotalCanHideTheName(asked: Network, other: Network) returns (listing: Listing)
    requires other.name != asked.name
    ensures HoldsName(listing, 1, asked.name)
    ensures At(listing, Stop(listing, asked.name), asked) == Held(Unlisted)
  {
    var first, second := Page([other], 1), Page([asked], 1);
    listing := [Ok(first), Ok(second)];
    assert List(listing, 0) == Ok(first) && List(listing, 1) == Ok(second);
    assert asked in second.networks;
    assert Seen(listing, 1) == 1;
    assert Stop(listing, asked.name) == 0;
  }
}
