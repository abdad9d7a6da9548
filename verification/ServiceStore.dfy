/**
 The transitions of `service.ts` as methods on the stored lease, each proved to do what `Lease.Apply`
 says. Everything here runs while the service's lock is held.
 */
module ServiceStore {
  import opened Prelude
  import opened Lease
  import opened Fencing

  /** How the launch of a runtime came out. */
  datatype Launch = Up(unit: UnitId) | Threw

  datatype StartResult =
    | NotStarted(answer: Answer)
    | Started(generation: nat)
    | NotOwner(generation: nat, why: Refusal)   // the launched unit must be stopped
    | LaunchFailed(generation: nat)

  /** The reservation a grant over `file` makes. */
  function MadeBy(file: Option<Lease>, minted: Token, expiresAt: int): Option<Lease> {
    Some(Lease(Current(file).generation + 1, Reserved(minted, expiresAt)))
  }

  /** Others' transitions leave the lease as it is. */
  predicate Undisturbed(file: Option<Lease>, others: seq<Ask>) {
    Replay(file, others, |others|) == file
  }

  class Service {
    /** The lease file, and whether the endpoint record exists. */
    var lease: Option<Lease>
    var endpoint: bool

    ghost function Seen(obs: Observation): Observation
      reads this
    {
      obs.(endpoint := endpoint)
    }

    method AcquireService(force: Option<int>, ttl: int, minted: Token, obs: Observation) returns (a: Answer)
      modifies this
      ensures (lease, a) == Apply(old(lease), Acquire(force, ttl, minted), old(Seen(obs)))
      ensures endpoint
      ensures a.Granted? ==> lease != old(lease) && a.generation == Current(old(lease)).generation + 1
      ensures a.Granted? ==> lease == Some(Lease(a.generation, Reserved(minted, obs.now + ttl))) && a.token == minted
      ensures !a.Granted? ==> lease == old(lease)
      ensures a.Granted? <==> Ends(Current(old(lease)), Acquire(force, ttl, minted), obs)
    {
      var current := VACANT_LEASE;
      if lease.Some? {
        current := lease.value;
      }
      endpoint := true;
      if force.Some? {
        if force.value != current.generation {
          return Refused(Stale);
        }
      } else {
        var health := View(current, obs);
        if health == Healthy {
          return Resolved;
        } else if health == StartingHealth {
          return Starting;
        }
      }
      var generation := current.generation + 1;
      lease := Some(Lease(generation, Reserved(minted, obs.now + ttl)));
      a := Granted(generation, minted);
    }

    method LiveUnitOrRefusal(obs: Observation, unit: UnitId) returns (refusal: Option<Refusal>)
      ensures refusal == None <==> LiveUnit(obs, unit)
      ensures refusal.Some? ==> refusal.value == if unit in obs.units then UnitNotLive else UnknownUnit
    {
      if unit !in obs.units {
        return Some(UnknownUnit);
      }
      if !SessionLive(obs.units[unit], obs.panes) {
        return Some(UnitNotLive);
      }
      return None;
    }

    method BindService(generation: int, token: Token, unit: UnitId, obs: Observation) returns (a: Answer)
      modifies this`lease
      ensures (lease, a) == Apply(old(lease), Bind(generation, token, unit), Seen(obs))
      ensures a.Done? <==> lease != old(lease)
      ensures a.Done? ==> Owns(lease, unit, generation)
      ensures a.Done? <==>
                && old(lease).Some? && endpoint && Current(old(lease)).generation == generation
                && Current(old(lease)).state.Reserved? && Current(old(lease)).state.token == token
                && LiveUnit(obs, unit)
    {
      if lease.None? || !endpoint {
        return Refused(NoService);
      }
      var current := lease.value;
      if !current.state.Reserved? || current.generation != generation || current.state.token != token {
        return Refused(Stale);
      }
      var refusal := LiveUnitOrRefusal(obs, unit);
      if refusal.Some? {
        return Refused(refusal.value);
      }
      lease := Some(Lease(current.generation, Active(unit)));
      a := Done;
    }

    method ReleaseService(generation: int, token: Option<Token>, unit: Option<UnitId>, obs: Observation)
      returns (a: Answer)
      modifies this`lease
      ensures (lease, a) == Apply(old(lease), Release(generation, token, unit), Seen(obs))
      ensures a.Done? ==> Current(lease) == Lease(Current(old(lease)).generation, Vacant)
      ensures !a.Done? ==> lease == old(lease)
      ensures a.Done? <==>
                && old(lease).Some? && endpoint && Current(old(lease)).generation == generation
                && match Current(old(lease)).state
                   case Vacant => false
                   case Reserved(held, _) => token == Some(held)
                   case Active(holder) => unit == Some(holder)
    {
      if lease.None? || !endpoint {
        return Refused(NoService);
      }
      var current := lease.value;
      var matches := false;
      if current.generation == generation {
        match current.state
        case Reserved(held, _) => matches := token == Some(held);
        case Active(holder) => matches := unit == Some(holder);
        case Vacant =>
      }
      if !matches {
        return Refused(Stale);
      }
      lease := Some(Lease(current.generation, Vacant));
      a := Done;
    }

    method HandoffService(generation: int, from: UnitId, to: UnitId, obs: Observation) returns (a: Answer)
      modifies this`lease
      ensures (lease, a) == Apply(old(lease), Handoff(generation, from, to), Seen(obs))
      ensures a.Done? ==> Owns(lease, to, generation + 1) && !Owns(lease, from, generation)
      ensures !a.Done? ==> lease == old(lease)
      ensures a.Done? <==> old(lease).Some? && endpoint && Owns(old(lease), from, generation) && LiveUnit(obs, to)
    {
      if lease.None? || !endpoint {
        return Refused(NoService);
      }
      var current := lease.value;
      if current.state != Active(from) || current.generation != generation {
        return Refused(Stale);
      }
      var refusal := LiveUnitOrRefusal(obs, to);
      if refusal.Some? {
        return Refused(refusal.value);
      }
      lease := Some(Lease(current.generation + 1, Active(to)));
      a := Done;
    }

    /** Transitions by other callers, run while this one does not hold the lock. */
    method Others(asks: seq<Ask>)
      modifies this`lease
      ensures lease == Replay(old(lease), asks, |asks|)
      ensures lease == old(lease) || Rank(old(lease)) < Rank(lease)
    {
      var k := 0;
      while k < |asks|
        invariant k <= |asks|
        invariant lease == Replay(old(lease), asks, k)
        invariant lease == old(lease) || Rank(old(lease)) < Rank(lease)
      {
        StepRaisesRank(lease, Transition(asks[k].0, asks[k].1), Apply(lease, asks[k].0, asks[k].1).0);
        lease := Apply(lease, asks[k].0, asks[k].1).0;
        k := k + 1;
      }
    }

    /** One call end to end, against any transitions others make while it launches. */
    method StartService(force: Option<int>, ttl: int, minted: Token, atAcquire: Observation,
                        launch: Launch, others: seq<Ask>, releaseLost: bool, atEnd: Observation)
      returns (r: StartResult)
      modifies this
      // It starts nothing exactly when the acquire ends nothing, and says what is there.
      ensures r.NotStarted? <==> !Ends(Current(old(lease)), Acquire(force, ttl, minted), atAcquire)
      ensures r.NotStarted? ==> lease == old(lease)
      ensures r.NotStarted? ==>
                r.answer == if force.Some? then Refused(Stale)
                            else if Current(old(lease)).state.Reserved? then Starting else Resolved
      ensures !r.NotStarted? ==> r.generation == Current(old(lease)).generation + 1
      // A unit that came up becomes the owner exactly when it is live and the reservation is still there.
      ensures r.Started? <==>
                && !r.NotStarted? && launch.Up? && LiveUnit(atEnd, launch.unit)
                && Undisturbed(MadeBy(old(lease), minted, atAcquire.now + ttl), others)
      ensures r.Started? ==> lease == Some(Lease(r.generation, Active(launch.unit)))
      ensures r.NotOwner? <==> !r.NotStarted? && launch.Up? && !r.Started?
      ensures r.NotOwner? ==>
                r.why == if !Undisturbed(MadeBy(old(lease), minted, atAcquire.now + ttl), others) then Stale
                         else if launch.unit in atEnd.units then UnitNotLive else UnknownUnit
      ensures r.NotOwner? && r.why.Stale? ==> Rank(lease) > 3 * r.generation
      // A refused bind changes nothing, so after a unit that is not live the reservation stays until it expires.
      ensures r.NotOwner? || (r.LaunchFailed? && releaseLost) ==>
                lease == Replay(MadeBy(old(lease), minted, atAcquire.now + ttl), others, |others|)
      ensures r.LaunchFailed? <==> !r.NotStarted? && launch.Threw?
      // A failed launch gives up its own reservation, and nothing else.
      ensures r.LaunchFailed? && !releaseLost ==>
                lease == if Undisturbed(MadeBy(old(lease), minted, atAcquire.now + ttl), others)
                         then Some(Lease(r.generation, Vacant))
                         else Replay(MadeBy(old(lease), minted, atAcquire.now + ttl), others, |others|)
      ensures r.LaunchFailed? && !releaseLost ==>
                Current(lease).generation != r.generation || !Current(lease).state.Reserved?
    {
      var acquired := AcquireService(force, ttl, minted, atAcquire);
      if !acquired.Granted? {
        return NotStarted(acquired);
      }
      var generation, token := acquired.generation, acquired.token;
      ghost var reserved := lease;
      Others(others);
      assert Rank(reserved) == 3 * generation;
      match launch
      case Threw =>
        if !releaseLost {
          var _ := ReleaseService(generation, Some(token), None, atEnd);
        }
        r := LaunchFailed(generation);
      case Up(unit) =>
        var bound := BindService(generation, token, unit, atEnd);
        if bound.Refused? {
          r := NotOwner(generation, bound.why);
        } else {
          r := Started(generation);
        }
    }
  }
}
