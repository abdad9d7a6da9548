/**
 One project service's ownership lease, as `service.ts` decides it.

 `Apply` is what a transition does with the lease file it loaded: the file it leaves and the answer it
 gives. Clock readings, unit records and pane lists are observations, arbitrary from one call
 to the next, and so is whether the endpoint record is there.
 */
module Lease {
  import opened Prelude

  type UnitId = string
  type Token = string
  type PaneId = string

  datatype LeaseState =
    | Vacant
    | Reserved(token: Token, expiresAt: int)
    | Active(holder: UnitId)

  datatype Lease = Lease(generation: nat, state: LeaseState)

  // ----- liveness of a unit's session (identity.ts) -----

  datatype UnitStatus = Running | Exited | Stopped

  datatype UnitRecord = UnitRecord(status: UnitStatus, pane: Option<PaneId>)

  /** `panes` is what the unit's multiplexer answered; an empty list is no answer. A session is gone
      only on positive evidence. */
  predicate SessionLive(unit: UnitRecord, panes: seq<PaneId>): (live: bool)
    ensures !live <==>
              || unit.status.Exited? || unit.status.Stopped?
              || (unit.pane.Some? && panes != [] && unit.pane.value !in panes)
  {
    if unit.status.Exited? || unit.status.Stopped? then false
    else if unit.pane.None? then true
    else if |panes| == 0 then true
    else unit.pane.value in panes
  }

  // ----- requests, observations, answers -----

  datatype Request =
    | Acquire(force: Option<int>, ttl: int, minted: Token)
    | Bind(generation: int, token: Token, unit: UnitId)
    | Release(generation: int, givenToken: Option<Token>, givenUnit: Option<UnitId>)
    | Handoff(generation: int, from: UnitId, to: UnitId)

  datatype Observation = Observation(
    endpoint: bool,                     // the endpoint record exists
    viewNow: int,                       // the clock when the reservation's expiry is judged
    now: int,                           // the clock when a new reservation is dated
    units: map<UnitId, UnitRecord>,
    panes: seq<PaneId>)

  datatype Refusal = Stale | UnitNotLive | UnknownUnit | NoService

  datatype Answer =
    | Resolved
    | Starting
    | Granted(generation: nat, token: Token)
    | Done
    | Refused(why: Refusal)

  datatype Health = VacantHealth | StartingHealth | ExpiredHealth | Healthy | Unhealthy

  predicate LiveUnit(obs: Observation, unit: UnitId) {
    unit in obs.units && SessionLive(obs.units[unit], obs.panes)
  }

  function View(lease: Lease, obs: Observation): Health {
    match lease.state
    case Vacant => VacantHealth
    case Reserved(_, expiresAt) => if obs.viewNow > expiresAt then ExpiredHealth else StartingHealth
    case Active(holder) =>
      if holder !in obs.units then Unhealthy
      else if !SessionLive(obs.units[holder], obs.panes) then Unhealthy
      else Healthy
  }

  const VACANT_LEASE := Lease(0, Vacant)

  /** The lease a transition works on; a service never started has none unless it is being created. */
  function Load(file: Option<Lease>, endpoint: bool, create: bool): Result<Lease, Refusal> {
    if file.Some? && endpoint then Success(file.value)
    else if !create then Failure(NoService)
    else Success(if file.Some? then file.value else VACANT_LEASE)
  }

  function Apply(file: Option<Lease>, q: Request, obs: Observation): (Option<Lease>, Answer) {
    var loaded := Load(file, obs.endpoint, q.Acquire?);
    if loaded.Failure? then (file, Refused(loaded.error))
    else
      var lease := loaded.value;
      match q
      case Acquire(force, ttl, minted) =>
        var health := View(lease, obs);
        if force.Some? && force.value != lease.generation then (file, Refused(Stale))
        else if force.None? && health.Healthy? then (file, Resolved)
        else if force.None? && health.StartingHealth? then (file, Starting)
        else (Some(Lease(lease.generation + 1, Reserved(minted, obs.now + ttl))), Granted(lease.generation + 1, minted))
      case Bind(generation, token, unit) =>
        if !lease.state.Reserved? || lease.generation != generation || lease.state.token != token then
          (file, Refused(Stale))
        else if unit !in obs.units then (file, Refused(UnknownUnit))
        else if !SessionLive(obs.units[unit], obs.panes) then (file, Refused(UnitNotLive))
        else (Some(lease.(state := Active(unit))), Done)
      case Release(generation, token, holder) =>
        if lease.generation == generation
           && ((lease.state.Reserved? && token == Some(lease.state.token))
               || (lease.state.Active? && holder == Some(lease.state.holder)))
        then (Some(lease.(state := Vacant)), Done)
        else (file, Refused(Stale))
      case Handoff(generation, from, to) =>
        if !lease.state.Active? || lease.generation != generation || lease.state.holder != from then
          (file, Refused(Stale))
        else if to !in obs.units then (file, Refused(UnknownUnit))
        else if !SessionLive(obs.units[to], obs.panes) then (file, Refused(UnitNotLive))
        else (Some(Lease(lease.generation + 1, Active(to))), Done)
  }

  predicate Owns(file: Option<Lease>, unit: UnitId, generation: int) {
    file.Some? && file.value.state == Active(unit) && file.value.generation == generation
  }

  /** The fencing check: read the lease and compare, without the lock and without writing. */
  function VerifyOwnership(file: Option<Lease>, endpoint: bool, unit: UnitId, generation: int): Option<Refusal> {
    if file.None? || !endpoint then Some(NoService)
    else if !Owns(file, unit, generation) then Some(Stale)
    else None
  }

  // ----- which requests change a lease -----

  /** The guard under which a request ends what the lease says now. */
  predicate Ends(lease: Lease, q: Request, obs: Observation) {
    match q
    case Acquire(Some(n), _, _) => n == lease.generation
    case Acquire(None, _, _) =>
      (match lease.state
       case Vacant => true
       case Reserved(_, expiresAt) => obs.viewNow > expiresAt
       case Active(holder) => !LiveUnit(obs, holder))
    case Bind(generation, token, unit) =>
      obs.endpoint && generation == lease.generation && lease.state.Reserved? && token == lease.state.token
      && LiveUnit(obs, unit)
    case Release(generation, token, holder) =>
      obs.endpoint && generation == lease.generation
      && (match lease.state
          case Vacant => false
          case Reserved(t, _) => token == Some(t)
          case Active(h) => holder == Some(h))
    case Handoff(generation, from, to) =>
      obs.endpoint && generation == lease.generation && lease.state == Active(from) && LiveUnit(obs, to)
  }

  /** A request leaves the lease as it is exactly when it does not end it, and an unforced acquire then
      answers with what is there. */
  lemma ChangesIffEnds(lease: Lease, q: Request, obs: Observation)
    ensures Apply(Some(lease), q, obs).0 == Some(lease) <==> !Ends(lease, q, obs)
    ensures q.Acquire? && q.force.None? && !Ends(lease, q, obs) ==>
              Apply(Some(lease), q, obs).1 == (if lease.state.Reserved? then Starting else Resolved)
    ensures Ends(lease, q, obs) ==>
              Apply(Some(lease), q, obs).1 == (if q.Acquire? then Granted(lease.generation + 1, q.minted) else Done)
  {
  }

  /** What a grant writes and how long it stands: the reservation is under the next generation and the token
      handed out, and from then on an unforced acquire answers `starting` exactly until its time to live has
      passed, and takes over after. */
  lemma GrantStandsForItsTtl(file: Option<Lease>, force: Option<int>, ttl: int, minted: Token, obs: Observation,
                             ttl2: int, minted2: Token, obs2: Observation)
    requires Apply(file, Acquire(force, ttl, minted), obs).1.Granted?
    ensures var (after, answer) := Apply(file, Acquire(force, ttl, minted), obs);
            && answer.token == minted
            && answer.generation == 1 + (if file.Some? then file.value.generation else 0)
            && after == Some(Lease(answer.generation, Reserved(minted, obs.now + ttl)))
            && (Apply(after, Acquire(None, ttl2, minted2), obs2).1 == Starting <==> obs2.viewNow <= obs.now + ttl)
            && (Apply(after, Acquire(None, ttl2, minted2), obs2).1.Granted? <==> obs2.viewNow > obs.now + ttl)
  {
  }

  /** The claim a bind, release or handoff makes is the one the lease holds. */
  predicate ClaimIsCurrent(lease: Lease, q: Request) {
    match q
    case Acquire(_, _, _) => true
    case Bind(g, token, _) => lease.generation == g && lease.state.Reserved? && lease.state.token == token
    case Release(g, token, holder) =>
      lease.generation == g && !lease.state.Vacant?
      && (if lease.state.Reserved? then token == Some(lease.state.token) else holder == Some(lease.state.holder))
    case Handoff(g, from, _) => lease.generation == g && lease.state == Active(from)
  }

  /** Why a bind, release or handoff is refused: the service is not there, the claim is not the current one,
      or the unit it names is unknown or not live, in that order; else it is done. */
  lemma RefusalTells(lease: Lease, q: Request, obs: Observation)
    requires !q.Acquire?
    ensures var answer := Apply(Some(lease), q, obs).1;
            && (answer == Refused(NoService) <==> !obs.endpoint)
            && (answer == Refused(Stale) <==> obs.endpoint && !ClaimIsCurrent(lease, q))
            && (answer == Refused(UnknownUnit) <==>
                  obs.endpoint && ClaimIsCurrent(lease, q) && Named(q).Some? && Named(q).value !in obs.units)
            && (answer == Refused(UnitNotLive) <==>
                  obs.endpoint && ClaimIsCurrent(lease, q) && Named(q).Some? && Named(q).value in obs.units
                  && !LiveUnit(obs, Named(q).value))
            && (answer.Refused? || answer.Done?)
  {
  }

  /** The unit a request would make the owner. */
  function Named(q: Request): Option<UnitId> {
    match q
    case Bind(_, _, unit) => Some(unit)
    case Handoff(_, _, to) => Some(to)
    case _ => None
  }

  type Ask = (Request, Observation)

  /** The lease file after the first `k` of a sequence of transitions. */
  function Replay(file: Option<Lease>, asks: seq<Ask>, k: nat): Option<Lease>
    requires k <= |asks|
  {
    if k == 0 then file else Apply(Replay(file, asks, k - 1), asks[k - 1].0, asks[k - 1].1).0
  }

  lemma {:induction false} KeptWhileNoneEnds(lease: Lease, asks: seq<Ask>, k: nat)
    requires k <= |asks|
    requires forall j :: 0 <= j < k ==> !Ends(lease, asks[j].0, asks[j].1)
    ensures Replay(Some(lease), asks, k) == Some(lease)
  {
    if k > 0 {
      KeptWhileNoneEnds(lease, asks, k - 1);
      ChangesIffEnds(lease, asks[k - 1].0, asks[k - 1].1);
    }
  }

  ghost predicate KeptThroughout(lease: Lease, asks: seq<Ask>) {
    forall k: nat :: k <= |asks| ==> Replay(Some(lease), asks, k) == Some(lease)
  }

  ghost predicate NoneEnds(lease: Lease, asks: seq<Ask>) {
    forall k: nat :: k < |asks| ==> !Ends(lease, asks[k].0, asks[k].1)
  }

  /** Over any sequence of transitions: the lease stays what it is throughout exactly when none of
      them meets its guard. From a reservation, those guards are expiry, the matching bind, the
      release with its token and a force that names its generation; from a holder, being seen not
      live, its own release or handoff, and such a force. So a reservation is exclusive and a live
      holder is never silently displaced. */
  lemma KeptIffNoneEnds(lease: Lease, asks: seq<Ask>)
    ensures KeptThroughout(lease, asks) <==> NoneEnds(lease, asks)
  {
    if NoneEnds(lease, asks) {
      forall k: nat | k <= |asks|
        ensures Replay(Some(lease), asks, k) == Some(lease)
      {
        KeptWhileNoneEnds(lease, asks, k);
      }
    }
    if KeptThroughout(lease, asks) {
      forall k: nat | k < |asks|
        ensures !Ends(lease, asks[k].0, asks[k].1)
      {
        assert Replay(Some(lease), asks, k) == Some(lease);
        assert Replay(Some(lease), asks, k + 1) == Apply(Replay(Some(lease), asks, k), asks[k].0, asks[k].1).0;
        ChangesIffEnds(lease, asks[k].0, asks[k].1);
      }
    }
  }

  /** While a reservation is not ended, every unforced acquire answers `starting` and no acquire at all
      is granted. */
  lemma ReservationIsExclusive(generation: nat, token: Token, expiresAt: int, asks: seq<Ask>, k: nat)
    requires k < |asks| && asks[k].0.Acquire?
    requires forall j :: 0 <= j <= k ==> !Ends(Lease(generation, Reserved(token, expiresAt)), asks[j].0, asks[j].1)
    ensures var before := Replay(Some(Lease(generation, Reserved(token, expiresAt))), asks, k);
            before == Some(Lease(generation, Reserved(token, expiresAt)))
            && Apply(before, asks[k].0, asks[k].1).1 == if asks[k].0.force.None? then Starting else Refused(Stale)
  {
    KeptWhileNoneEnds(Lease(generation, Reserved(token, expiresAt)), asks, k);
  }

  /** While a holder is not displaced, every unforced acquire resolves to it. */
  lemma LiveHolderIsResolved(generation: nat, holder: UnitId, asks: seq<Ask>, k: nat)
    requires k < |asks| && asks[k].0.Acquire?
    requires forall j :: 0 <= j <= k ==> !Ends(Lease(generation, Active(holder)), asks[j].0, asks[j].1)
    ensures var before := Replay(Some(Lease(generation, Active(holder))), asks, k);
            before == Some(Lease(generation, Active(holder)))
            && Apply(before, asks[k].0, asks[k].1).1 == if asks[k].0.force.None? then Resolved else Refused(Stale)
  {
    KeptWhileNoneEnds(Lease(generation, Active(holder)), asks, k);
  }
  /** The check accepts exactly the unit and generation an existing service's lease is active at. */
  lemma VerifiesIff(file: Option<Lease>, endpoint: bool, unit: UnitId, generation: nat)
    ensures VerifyOwnership(file, endpoint, unit, generation) == None <==>
              endpoint && file == Some(Lease(generation, Active(unit)))
    ensures VerifyOwnership(file, endpoint, unit, generation) == Some(NoService) <==> file.None? || !endpoint
  {
  }

  /** A bound unit verifies at its generation; a handoff makes the other unit verify at the next one and
      refuses the one that handed off, as stale. */
  lemma OwnershipFollowsTransitions(file: Option<Lease>, q: Request, obs: Observation)
    requires obs.endpoint && Apply(file, q, obs).1 == Done
    ensures var after := Apply(file, q, obs).0;
            && (q.Bind? ==> VerifyOwnership(after, true, q.unit, q.generation) == None)
            && (q.Handoff? ==> && VerifyOwnership(after, true, q.to, q.generation + 1) == None
                               && VerifyOwnership(after, true, q.from, q.generation) == Some(Stale))
            && (q.Release? ==> after == Some(Lease(q.generation, Vacant)))
  {
  }
}
