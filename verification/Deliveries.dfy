/**
 Deliveries that spawn a presence into a standing owner's home (`presence-spawn.ts`).

 A delivery loads the owner's record and looks at its home before it takes the presence lock, and spawns
 into that home under the lock. In between anybody may refresh the record. So a delivery is two events of a
 run: an unlocked look, and a locked section later.
 */
module Deliveries {
  import opened Prelude
  import opened LockedSection
  import opened Presence

  /** Where one delivery has got to; `at` is the moment of the run at which it looked at the home. */
  datatype Delivery =
    | Arrived
    | Refused                                   // the owner was gone or had no home
    | Looked(at: nat, home: Home)
    | SpawnedAt(at: nat, home: Home, k: nat)      // operation `k` of the run is its spawn
    | Ended                                     // a presence was live, the owner gone, or the spawn failed

  datatype Hub = Hub(start: Record, run: PresenceRun, deliveries: seq<Delivery>)

  datatype DeliveryEvent =
    | Other(op: PresenceOp, after: Record)      // any locked operation that spawns nothing
    | LookAtHome(d: nat)
    | SpawnThere(d: nat, unit: UnitId, live: set<UnitId>, after: Record)
    | End(d: nat)

  function Now(h: Hub): Record {
    At(h.start, h.run, |h.run|)
  }

  function HomeOf(v: Record): Option<Home> {
    if v.Some? then v.value.home else None
  }

  ghost predicate Ready(h: Hub, e: DeliveryEvent) {
    match e
    case Other(op, after) => !op.Spawn? && PresenceStep(Now(h), op, after)
    case LookAtHome(d) => d < |h.deliveries| && h.deliveries[d].Arrived?
    case SpawnThere(d, unit, live, after) =>
      && d < |h.deliveries| && h.deliveries[d].Looked?
      && PresenceStep(Now(h), Spawn(unit, live, h.deliveries[d].home), after)
    case End(d) => d < |h.deliveries| && h.deliveries[d].Looked?
  }

  ghost function After(h: Hub, e: DeliveryEvent): Hub
    requires Ready(h, e)
  {
    match e
    case Other(op, after) => h.(run := h.run + [Entry(Now(h), op, after)])
    case LookAtHome(d) =>
      var home := HomeOf(Now(h));
      h.(deliveries := h.deliveries[d := if home.Some? then Looked(|h.run|, home.value) else Refused])
    case SpawnThere(d, unit, live, after) =>
      var home := h.deliveries[d].home;
      h.(run := h.run + [Entry(Now(h), Spawn(unit, live, home), after)],
         deliveries := h.deliveries[d := SpawnedAt(h.deliveries[d].at, home, |h.run|)])
    case End(d) => h.(deliveries := h.deliveries[d := Ended])
  }

  ghost predicate IsDeliveryRun(h: Hub, es: seq<DeliveryEvent>)
    decreases |es|
  {
    es == [] || (Ready(h, es[0]) && IsDeliveryRun(After(h, es[0]), es[1..]))
  }

  ghost function ExecDeliveries(h: Hub, es: seq<DeliveryEvent>): Hub
    requires IsDeliveryRun(h, es)
    decreases |es|
  {
    if es == [] then h else ExecDeliveries(After(h, es[0]), es[1..])
  }

  // ----- where every spawn goes -----

  ghost predicate SawHome(h: Hub, at: nat, home: Home) {
    at <= |h.run| && HomeOf(At(h.start, h.run, at)) == Some(home)
  }

  ghost predicate DeliveryOk(h: Hub, d: nat)
    requires d < |h.deliveries|
  {
    match h.deliveries[d]
    case Looked(at, home) => SawHome(h, at, home)
    case SpawnedAt(at, home, k) =>
      SawHome(h, at, home) && at <= k < |h.run| && h.run[k].op.Spawn? && h.run[k].op.home == home
    case _ => true
  }

  /** Operation `k` of the run is the spawn of delivery `d`. */
  predicate IsSpawnOf(h: Hub, d: nat, k: nat) {
    d < |h.deliveries| && h.deliveries[d].SpawnedAt? && h.deliveries[d].k == k
  }

  ghost predicate HubInv(h: Hub) {
    && AtomicRun(PresenceStep, h.start, h.run)
    && (forall d :: 0 <= d < |h.deliveries| ==> DeliveryOk(h, d))
    && (forall k :: 0 <= k < |h.run| && h.run[k].op.Spawn? ==> exists d :: IsSpawnOf(h, d, k))
  }

  /** Deliveries arrive at a record in any state. */
  ghost predicate HubInit(h: Hub) {
    h.run == [] && forall d :: 0 <= d < |h.deliveries| ==> h.deliveries[d] == Arrived
  }

  /** One more operation: what the deliveries saw, and which spawns are whose, stays so. */
  lemma RunGrows(h: Hub, op: PresenceOp, after: Record)
    requires HubInv(h) && PresenceStep(Now(h), op, after)
    ensures var t := h.(run := h.run + [Entry(Now(h), op, after)]);
            && AtomicRun(PresenceStep, t.start, t.run)
            && (forall d :: 0 <= d < |h.deliveries| ==> DeliveryOk(t, d))
            && (forall k :: 0 <= k < |h.run| && t.run[k].op.Spawn? ==> exists d :: IsSpawnOf(t, d, k))
  {
    var e := Entry(Now(h), op, after);
    AtomicRunExtends(PresenceStep, h.start, h.run, e);
    var t := h.(run := h.run + [e]);
    forall d | 0 <= d < |h.deliveries|
      ensures DeliveryOk(t, d)
    {
      assert DeliveryOk(h, d);
    }
    forall k | 0 <= k < |h.run| && t.run[k].op.Spawn?
      ensures exists d :: IsSpawnOf(t, d, k)
    {
      assert h.run[k].op.Spawn?;
      var d :| IsSpawnOf(h, d, k);
      assert IsSpawnOf(t, d, k);
    }
  }

  lemma EventKeepsHub(h: Hub, e: DeliveryEvent)
    requires HubInv(h) && Ready(h, e)
    ensures HubInv(After(h, e))
  {
    var t := After(h, e);
    match e
    case Other(op, after) => RunGrows(h, op, after);
    case SpawnThere(d, unit, live, after) =>
      assert DeliveryOk(h, d);
      SpawnKeepsHub(h, d, Spawn(unit, live, h.deliveries[d].home), after);
    case LookAtHome(d) => OneDeliveryMoves(h, d, t);
    case End(d) => OneDeliveryMoves(h, d, t);
  }

  lemma SpawnKeepsHub(h: Hub, d: nat, op: PresenceOp, after: Record)
    requires HubInv(h) && d < |h.deliveries| && h.deliveries[d].Looked?
    requires op.Spawn? && op.home == h.deliveries[d].home && PresenceStep(Now(h), op, after)
    ensures HubInv(Hub(h.start, h.run + [Entry(Now(h), op, after)],
                       h.deliveries[d := SpawnedAt(h.deliveries[d].at, op.home, |h.run|)]))
  {
    RunGrows(h, op, after);
    var grown := h.(run := h.run + [Entry(Now(h), op, after)]);
    var t := grown.(deliveries := h.deliveries[d := SpawnedAt(h.deliveries[d].at, op.home, |h.run|)]);
    assert DeliveryOk(h, d) && DeliveryOk(grown, d) && SawHome(grown, h.deliveries[d].at, op.home);
    assert t.run[|h.run|].op == op;
    forall x | 0 <= x < |t.deliveries|
      ensures DeliveryOk(t, x)
    {
      assert DeliveryOk(grown, x);
    }
    forall k | 0 <= k < |t.run| && t.run[k].op.Spawn?
      ensures exists x :: IsSpawnOf(t, x, k)
    {
      if k < |h.run| {
        var x :| IsSpawnOf(grown, x, k);
        assert IsSpawnOf(t, x, k);
      } else {
        assert IsSpawnOf(t, d, k);
      }
    }
  }

  lemma OneDeliveryMoves(h: Hub, d: nat, t: Hub)
    requires HubInv(h) && d < |h.deliveries| && !h.deliveries[d].SpawnedAt?
    requires t.start == h.start && t.run == h.run && |t.deliveries| == |h.deliveries|
    requires forall x :: 0 <= x < |h.deliveries| && x != d ==> t.deliveries[x] == h.deliveries[x]
    requires DeliveryOk(t, d)
    ensures HubInv(t)
  {
    forall x | 0 <= x < |t.deliveries|
      ensures DeliveryOk(t, x)
    {
      assert DeliveryOk(h, x);
    }
    forall k | 0 <= k < |t.run| && t.run[k].op.Spawn?
      ensures exists x :: IsSpawnOf(t, x, k)
    {
      var x :| IsSpawnOf(h, x, k);
      assert IsSpawnOf(t, x, k);
    }
  }

  lemma {:induction false} RunKeepsHub(h: Hub, es: seq<DeliveryEvent>)
    requires HubInv(h) && IsDeliveryRun(h, es)
    ensures HubInv(ExecDeliveries(h, es))
    decreases |es|
  {
    if es != [] {
      EventKeepsHub(h, es[0]);
      RunKeepsHub(After(h, es[0]), es[1..]);
    }
  }

  // ----- when a spawn goes into a home the record no longer has -----

  /** The operation names a home, or none, other than `home`. */
  predicate Unsets(op: PresenceOp, home: Home) {
    op.Refresh? && (op.input.DropHome? || (op.input.SetHome? && op.input.home != home))
  }

  predicate SetsBack(op: PresenceOp, home: Home) {
    op.Refresh? && op.input == SetHome(home)
  }

  /** Operation `j` drops or replaces the home, and none up to `k` sets it back. */
  predicate LosesHome(run: PresenceRun, j: nat, k: nat, home: Home)
    requires j < k <= |run|
  {
    Unsets(run[j].op, home) && forall i :: j < i < k ==> !SetsBack(run[i].op, home)
  }

  predicate HomeLost(run: PresenceRun, at: nat, k: nat, home: Home)
    requires at <= k <= |run|
  {
    exists j: nat :: at <= j < k && LosesHome(run, j, k, home)
  }

  lemma StepHome(v: Record, op: PresenceOp, w: Record, home: Home)
    requires PresenceStep(v, op, w)
    ensures Unsets(op, home) ==> HomeOf(w) != Some(home)
    ensures SetsBack(op, home) ==> HomeOf(w) == Some(home)
    ensures !Unsets(op, home) && !SetsBack(op, home) ==> HomeOf(w) == HomeOf(v)
  {
  }

  lemma LostStep(run: PresenceRun, at: nat, k: nat, home: Home)
    requires at < k <= |run|
    ensures HomeLost(run, at, k, home) <==>
              Unsets(run[k - 1].op, home) || (HomeLost(run, at, k - 1, home) && !SetsBack(run[k - 1].op, home))
  {
    if Unsets(run[k - 1].op, home) {
      assert LosesHome(run, k - 1, k, home);
    } else if HomeLost(run, at, k - 1, home) && !SetsBack(run[k - 1].op, home) {
      var j: nat :| at <= j < k - 1 && LosesHome(run, j, k - 1, home);
      assert LosesHome(run, j, k, home);
    }
    if HomeLost(run, at, k, home) {
      var j: nat :| at <= j < k && LosesHome(run, j, k, home);
      if j < k - 1 {
        assert LosesHome(run, j, k - 1, home);
      }
    }
  }

  /** From a moment at which the record has `home`, it is gone later exactly when a refresh since dropped or
      replaced it and none has set it back. */
  lemma {:induction false} HomeGoneIff(v: Record, run: PresenceRun, at: nat, k: nat, home: Home)
    requires AtomicRun(PresenceStep, v, run) && at <= k <= |run|
    requires HomeOf(At(v, run, at)) == Some(home)
    ensures HomeOf(At(v, run, k)) != Some(home) <==> HomeLost(run, at, k, home)
    decreases k
  {
    if at < k {
      HomeGoneIff(v, run, at, k - 1, home);
      assert Linked(PresenceStep, v, run, k - 1);
      StepHome(run[k - 1].before, run[k - 1].op, run[k - 1].after, home);
      LostStep(run, at, k, home);
    }
  }

  /** Every spawn is the spawn of a delivery that saw the home it goes into, at a moment before. The record
      no longer has that home if and only if a refresh between the look and the spawn dropped or replaced it
      and none has set it back. */
  lemma SpawnHomeIsGoneIff(h: Hub, es: seq<DeliveryEvent>, k: nat)
    requires HubInit(h) && IsDeliveryRun(h, es)
    requires k < |ExecDeliveries(h, es).run| && ExecDeliveries(h, es).run[k].op.Spawn?
    ensures exists d: nat :: IsSpawnOf(ExecDeliveries(h, es), d, k)
    ensures forall d: nat :: IsSpawnOf(ExecDeliveries(h, es), d, k) ==> SpawnsWhereItLooked(ExecDeliveries(h, es), d, k)
  {
    RunKeepsHub(h, es);
    var t := ExecDeliveries(h, es);
    forall d: nat | IsSpawnOf(t, d, k)
      ensures SpawnsWhereItLooked(t, d, k)
    {
      assert DeliveryOk(t, d);
      HomeGoneIff(t.start, t.run, t.deliveries[d].at, k, t.deliveries[d].home);
    }
  }

  /** What there is to say of the home that delivery `d` spawns into by operation `k`. */
  ghost predicate SpawnsWhereItLooked(h: Hub, d: nat, k: nat)
    requires k < |h.run| && h.run[k].op.Spawn? && IsSpawnOf(h, d, k)
  {
    var at, home := h.deliveries[d].at, h.deliveries[d].home;
    && at <= k && home == h.run[k].op.home
    && HomeOf(At(h.start, h.run, at)) == Some(home)
    && (HomeOf(At(h.start, h.run, k)) != Some(home) <==> HomeLost(h.run, at, k, home))
  }

  /** The same of the stored record, down to single file-system calls with crashes and no mis-captured lock:
      of a spawn after moment `es` into the home the record had then. */
  lemma StoredHomeIsGoneIff(v: Record, w: PresenceWorld, es: PresenceEvents, more: PresenceEvents, k: nat, home: Home)
    requires WorldInit(v, w)
    requires IsWorldRun(PresenceStep, w, es) && NoMisCaptureRun(PresenceStep, w, es)
    requires var x := ExecWorld(PresenceStep, w, es);
             && IsWorldRun(PresenceStep, x, more) && NoMisCaptureRun(PresenceStep, x, more)
             && x.file.Whole? && HomeOf(x.file.value) == Some(home)
             && |x.journal| <= k < |ExecWorld(PresenceStep, x, more).journal|
    ensures var x := ExecWorld(PresenceStep, w, es);
            var run := ExecWorld(PresenceStep, x, more).journal;
            HomeOf(run[k].before) != Some(home) <==> HomeLost(run, |x.journal|, k, home)
  {
    InitEstablishesWorldInv(PresenceStep, v, w);
    LockedWritesAreAtomic(PresenceStep, v, w, es);
    var x := ExecWorld(PresenceStep, w, es);
    LockedWritesAreAtomic(PresenceStep, v, x, more);
    var run := ExecWorld(PresenceStep, x, more).journal;
    assert At(v, run, |x.journal|) == At(v, x.journal, |x.journal|);
    assert Linked(PresenceStep, v, run, k);
    HomeGoneIff(v, run, |x.journal|, k, home);
  }

  lemma EventThen(h: Hub, e: DeliveryEvent, es: seq<DeliveryEvent>)
    requires Ready(h, e) && IsDeliveryRun(After(h, e), es)
    ensures IsDeliveryRun(h, [e] + es) && ExecDeliveries(h, [e] + es) == ExecDeliveries(After(h, e), es)
  {
    assert ([e] + es)[1..] == es;
  }

  /** One delivery to an owner that has a home and no presence. */
  function OneArrived(home: Home): Hub {
    Hub(Some(Standing(None, Some(home))), [], [Arrived])
  }

  /** It happens: a delivery looks at the home, a refresh drops it, and the delivery spawns into it. */
  lemma SpawnsAfterHomeDropped(home: Home, unit: UnitId)
    ensures exists es ::
              IsDeliveryRun(OneArrived(home), es)
              && SpawnedIntoLostHome(ExecDeliveries(OneArrived(home), es), home, unit)
  {
    var v := Some(Standing(None, Some(home)));
    var dropped, ended := Some(Standing(None, None)), Some(Standing(Some(unit), None));
    var h0 := OneArrived(home);
    var refresh := Other(Refresh(DropHome), dropped);
    var spawn := SpawnThere(0, unit, {}, ended);
    var h1 := After(h0, LookAtHome(0));
    var h2 := After(h1, refresh);
    var h3 := After(h2, spawn);
    EventThen(h2, spawn, []);
    EventThen(h1, refresh, [spawn] + []);
    EventThen(h0, LookAtHome(0), [refresh] + ([spawn] + []));
    var es := [LookAtHome(0)] + ([refresh] + ([spawn] + []));
    assert h3.run == [Entry(v, Refresh(DropHome), dropped), Entry(dropped, Spawn(unit, {}, home), ended)];
    assert LosesHome(h3.run, 0, 1, home);
    assert IsDeliveryRun(h0, es) && SpawnedIntoLostHome(ExecDeliveries(h0, es), home, unit);
  }

  /** The only delivery spawned `unit` into `home`, which the record had lost by then, and the record ends
      with that presence and no home. */
  predicate SpawnedIntoLostHome(h: Hub, home: Home, unit: UnitId) {
    && |h.deliveries| == 1 && h.deliveries[0] == SpawnedAt(0, home, 1) && |h.run| == 2
    && HomeLost(h.run, 0, 1, home)
    && Now(h) == Some(Standing(Some(unit), None))
  }
}
