/**
 Unit records and the pane index: two maps that every lifecycle operation has to keep in step.

 A record says which pane its unit runs in; the index says, pane by pane, which unit a session in
 that pane is. Each operation of `identity.ts`, `session.ts`, `unit-runtime.ts` and
 `decommission.ts` is one step on the pair.
 */
module PaneIndex {
  import opened Prelude

  type UnitId = string
  type PaneId = string
  type Key = string

  function SanitizeChar(c: char): char {
    if 'A' <= c <= 'Z' || 'a' <= c <= 'z' || '0' <= c <= '9' || c == '_' || c == '-' then c else '_'
  }

  /** The pane's file name in the index. */
  function SanitizePane(pane: PaneId): Key {
    seq(|pane|, i requires 0 <= i < |pane| => SanitizeChar(pane[i]))
  }

  lemma SanitizeIsIdempotent(pane: PaneId)
    ensures SanitizePane(SanitizePane(pane)) == SanitizePane(pane)
  {
  }

  predicate IsKeyChar(c: char) {
    'A' <= c <= 'Z' || 'a' <= c <= 'z' || '0' <= c <= '9' || c in {'_', '-'}
  }

  /** A key is a plain file name as long as the pane's id, which it keeps where that is plain already. */
  lemma SanitizedIsPlain(pane: PaneId)
    ensures |SanitizePane(pane)| == |pane|
    ensures forall i :: 0 <= i < |pane| ==>
              SanitizePane(pane)[i] == if IsKeyChar(pane[i]) then pane[i] else '_'
    ensures (forall i :: 0 <= i < |pane| ==> IsKeyChar(pane[i])) ==> SanitizePane(pane) == pane
  {
    if forall i :: 0 <= i < |pane| ==> IsKeyChar(pane[i]) {
      assert SanitizePane(pane) == pane;
    }
  }

  datatype Kind = Session | Standing | Service
  datatype Status = Active | Exited | Stopped | OtherStatus

  /** A record can carry a pane of two multiplexers only. */
  datatype Mux = Tmux | Herdr | Unstorable

  datatype Pane = Pane(mux: Mux, id: PaneId)

  datatype Unit = Unit(kind: Kind, status: Status, pane: Option<Pane>)

  datatype Registry = Registry(records: map<UnitId, Unit>, index: map<Key, UnitId>)

  function Located(mux: Mux, pane: PaneId): Option<Pane> {
    if mux.Unstorable? then None else Some(Pane(mux, pane))
  }

  // ----- lookups -----

  function ResolvePane(r: Registry, pane: PaneId): Option<UnitId> {
    var k := SanitizePane(pane);
    if k in r.index then Some(r.index[k]) else None
  }

  ghost predicate PointsTo(r: Registry, k: Key, u: UnitId) {
    k in r.index && r.index[k] == u
  }

  /** A pane the index holds for a unit, by the index's own file name for it. */
  ghost function FindPane(r: Registry, u: UnitId): (k: Option<Key>)
    ensures k.Some? ==> PointsTo(r, k.value, u)
    ensures k.None? ==> forall j :: !PointsTo(r, j, u)
  {
    if exists j :: PointsTo(r, j, u) then (var j :| PointsTo(r, j, u); Some(j)) else None
  }

  ghost function RuntimePane(r: Registry, u: UnitId): Option<PaneId>
    requires u in r.records
  {
    if r.records[u].pane.Some? then Some(r.records[u].pane.value.id) else FindPane(r, u)
  }

  // ----- operations -----

  datatype Where = InPane(mux: Mux, pane: PaneId) | NoPane(env: Option<UnitId>)

  datatype Op =
    | Register(at: Where, minted: UnitId)
    | Spawn(minted: UnitId, mux: Mux, pane: PaneId)
    | Adopt(panes: seq<(Pane, UnitId)>)                          // each with the id it would mint
    | Stop(u: UnitId, isSelf: bool, reachable: bool, listed: seq<PaneId>)
    | Restart(u: UnitId, refused: bool, reachable: bool, listed: seq<PaneId>, target: Option<Pane>)
    | Rebind(u: UnitId, here: Pane, reachable: bool, listed: seq<PaneId>)
    | Close(u: UnitId, aborted: bool)
    | MarkExited(u: UnitId)                                      // what prune and reconcile write

  function RemovePointer(index: map<Key, UnitId>, pane: PaneId): map<Key, UnitId> {
    index - {SanitizePane(pane)}
  }

  function SelfId(r: Registry, at: Where): Option<UnitId> {
    match at
    case InPane(_, pane) => ResolvePane(r, pane)
    case NoPane(env) => env
  }

  function RegisterNext(r: Registry, at: Where, minted: UnitId): Registry {
    var self := SelfId(r, at);
    var id := if self.Some? then self.value else minted;
    match at
    case InPane(mux, pane) =>
      Registry(r.records[id := Unit(Session, Active, Located(mux, pane))],
               if mux.Unstorable? then r.index else r.index[SanitizePane(pane) := id])
    case NoPane(_) => r.(records := r.records[id := Unit(Session, Active, None)])
  }

  function SpawnNext(r: Registry, minted: UnitId, mux: Mux, pane: PaneId): Registry {
    Registry(r.records[minted := Unit(Session, Active, Located(mux, pane))], r.index[SanitizePane(pane) := minted])
  }

  predicate Bears(u: Unit, p: Pane) {
    u.pane == Some(p)
  }

  /** A pane is bound when its pointer leads to a record, or a record of the listing bears it. */
  predicate Bound(r: Registry, agents: map<UnitId, Unit>, p: Pane) {
    || (ResolvePane(r, p.id).Some? && ResolvePane(r, p.id).value in r.records)
    || (exists a :: a in agents && Bears(agents[a], p))
  }

  function AdoptOne(r: Registry, agents: map<UnitId, Unit>, p: Pane, minted: UnitId): Registry {
    if p.mux.Unstorable? || Bound(r, agents, p) then r
    else SpawnNext(r, minted, p.mux, p.id)
  }

  function AdoptNext(r: Registry, agents: map<UnitId, Unit>, panes: seq<(Pane, UnitId)>): Registry
    decreases |panes|
  {
    if panes == [] then r
    else AdoptNext(AdoptOne(r, agents, panes[0].0, panes[0].1), agents, panes[1..])
  }

  function MarkStopped(r: Registry, u: UnitId, pane: Option<PaneId>): Registry
    requires u in r.records
  {
    Registry(r.records[u := r.records[u].(status := Stopped, pane := None)],
             if pane.Some? then RemovePointer(r.index, pane.value) else r.index)
  }

  /** None when the backend still lists the pane: the stop did not take effect and nothing is recorded. */
  ghost function StopRuntime(r: Registry, u: UnitId, reachable: bool, listed: seq<PaneId>): Option<Registry>
    requires u in r.records
  {
    var pane := RuntimePane(r, u);
    if pane.Some? && reachable && pane.value in listed then None else Some(MarkStopped(r, u, pane))
  }

  predicate HasRuntime(r: Registry, u: UnitId) {
    u in r.records && r.records[u].kind.Session?
  }

  ghost function StopNext(r: Registry, u: UnitId, isSelf: bool, reachable: bool, listed: seq<PaneId>): Registry {
    if !HasRuntime(r, u) || isSelf || r.records[u].status.Stopped? then r
    else
      var stopped := StopRuntime(r, u, reachable, listed);
      if stopped.None? then r else stopped.value
  }

  ghost function RestartNext(r: Registry, u: UnitId, refused: bool, reachable: bool, listed: seq<PaneId>,
                             target: Option<Pane>): Registry
  {
    if !HasRuntime(r, u) || refused then r
    else
      var stopped := if r.records[u].status.Stopped? then Some(r) else StopRuntime(r, u, reachable, listed);
      if stopped.None? then r
      else if target.None? then stopped.value
      else
        var s := stopped.value;
        Registry(s.records[u := s.records[u].(status := Active, pane := Located(target.value.mux, target.value.id))],
                 s.index[SanitizePane(target.value.id) := u])
  }

  /** Another unit that may be running holds the pane. */
  predicate PaneTaken(r: Registry, u: UnitId, pane: PaneId) {
    var holder := ResolvePane(r, pane);
    && holder.Some? && holder.value != u && holder.value in r.records
    && !r.records[holder.value].status.Stopped? && !r.records[holder.value].status.Exited?
  }

  /** The unit's own runtime may still be running somewhere else: its backend lists its old
      pane, or gives no answer. */
  ghost predicate MayStillRun(r: Registry, u: UnitId, pane: PaneId, reachable: bool, listed: seq<PaneId>)
    requires u in r.records
  {
    var was := RuntimePane(r, u);
    && was.Some? && was.value != pane
    && !r.records[u].status.Stopped? && !r.records[u].status.Exited?
    && (!reachable || |listed| == 0 || was.value in listed)
  }

  ghost function RebindNext(r: Registry, u: UnitId, pane: Pane, reachable: bool, listed: seq<PaneId>): Registry {
    if !HasRuntime(r, u) || pane.mux.Unstorable? then r
    else if Bears(r.records[u], pane) && ResolvePane(r, pane.id) == Some(u) then r
    else if PaneTaken(r, u, pane.id) || MayStillRun(r, u, pane.id, reachable, listed) then r
    else
      var was := RuntimePane(r, u);
      var index := if was.Some? && was.value != pane.id then RemovePointer(r.index, was.value) else r.index;
      Registry(r.records[u := r.records[u].(status := Active, pane := Some(pane))], index[SanitizePane(pane.id) := u])
  }

  ghost function CloseNext(r: Registry, u: UnitId, aborted: bool): Registry {
    if u !in r.records || r.records[u].kind.Service? || aborted then r
    else
      var pane := RuntimePane(r, u);
      Registry(r.records - {u}, if pane.Some? then RemovePointer(r.index, pane.value) else r.index)
  }

  predicate Prunable(unit: Unit) {
    unit.kind.Session? && !unit.status.Exited? && !unit.status.Stopped?
  }

  function MarkExitedNext(r: Registry, u: UnitId): Registry {
    if u in r.records && Prunable(r.records[u]) then r.(records := r.records[u := r.records[u].(status := Exited)])
    else r
  }

  ghost function Next(r: Registry, op: Op): Registry {
    match op
    case Register(at, minted) => RegisterNext(r, at, minted)
    case Spawn(minted, mux, pane) => SpawnNext(r, minted, mux, pane)
    case Adopt(panes) => AdoptNext(r, r.records, panes)
    case Stop(u, isSelf, reachable, listed) => StopNext(r, u, isSelf, reachable, listed)
    case Restart(u, refused, reachable, listed, target) => RestartNext(r, u, refused, reachable, listed, target)
    case Rebind(u, pane, reachable, listed) => RebindNext(r, u, pane, reachable, listed)
    case Close(u, aborted) => CloseNext(r, u, aborted)
    case MarkExited(u) => MarkExitedNext(r, u)
  }

  // ----- what the operations keep -----

  ghost predicate NoPointer(r: Registry, u: UnitId) {
    forall k :: !PointsTo(r, k, u)
  }

  /** A minted id is new: no record has it and no pointer names it. */
  ghost predicate NewId(r: Registry, id: UnitId) {
    id !in r.records && NoPointer(r, id)
  }

  ghost predicate MintsNewIds(r: Registry, op: Op) {
    match op
    case Register(_, minted) => NewId(r, minted)
    case Spawn(minted, _, _) => NewId(r, minted)
    case Adopt(panes) =>
      && (forall i :: 0 <= i < |panes| ==> NewId(r, panes[i].1))
      && (forall i, j :: 0 <= i < j < |panes| ==> panes[i].1 != panes[j].1)
    case _ => true
  }

  /** What a pointer guarantees about the unit it names. */
  ghost predicate PointerOk(r: Registry, k: Key)
    requires k in r.index
  {
    var u := r.index[k];
    && SanitizePane(k) == k
    && u in r.records && !r.records[u].status.Stopped?
    && (r.records[u].pane.Some? ==> k == SanitizePane(r.records[u].pane.value.id))
  }

  ghost predicate InStep(r: Registry) {
    && (forall k :: k in r.index ==> PointerOk(r, k))
    && (forall j, k :: j in r.index && k in r.index && r.index[j] == r.index[k] ==> j == k)
  }

  /** Writing one record and pointing one key at it keeps the maps in step when no other key names it. */
  lemma BindKeeps(r: Registry, u: UnitId, unit: Unit, pane: PaneId)
    requires InStep(r) && !unit.status.Stopped? && (unit.pane.Some? ==> unit.pane.value.id == pane)
    requires forall k :: PointsTo(r, k, u) ==> k == SanitizePane(pane)
    ensures InStep(Registry(r.records[u := unit], r.index[SanitizePane(pane) := u]))
  {
    SanitizeIsIdempotent(pane);
    var t := Registry(r.records[u := unit], r.index[SanitizePane(pane) := u]);
    forall k | k in t.index
      ensures PointerOk(t, k)
    {
      if k != SanitizePane(pane) {
        assert PointerOk(r, k) && !PointsTo(r, k, u);
      }
    }
    assert forall j :: j in t.index && t.index[j] == u ==> j == SanitizePane(pane) || PointsTo(r, j, u);
  }

  /** A unit's own pane is where all its pointers are. */
  lemma PointersAtRuntimePane(r: Registry, u: UnitId)
    requires InStep(r) && u in r.records
    ensures forall k :: PointsTo(r, k, u) ==>
              RuntimePane(r, u).Some? && k == SanitizePane(RuntimePane(r, u).value)
  {
    forall k | PointsTo(r, k, u)
      ensures RuntimePane(r, u).Some? && k == SanitizePane(RuntimePane(r, u).value)
    {
      assert PointerOk(r, k);
    }
  }

  lemma DropKeeps(r: Registry, index: map<Key, UnitId>, records: map<UnitId, Unit>, u: UnitId)
    requires InStep(r) && forall k :: k in index ==> k in r.index && index[k] == r.index[k] && index[k] != u
    requires forall v :: v in r.records && v != u ==> v in records && records[v] == r.records[v]
    ensures InStep(Registry(records, index)) && NoPointer(Registry(records, index), u)
  {
    var t := Registry(records, index);
    forall k | k in t.index
      ensures PointerOk(t, k)
    {
      assert PointerOk(r, k);
    }
  }

  /** Stopping a unit at its own pane leaves no pointer to it. */
  lemma StopKeeps(r: Registry, u: UnitId)
    requires InStep(r) && u in r.records
    ensures InStep(MarkStopped(r, u, RuntimePane(r, u))) && NoPointer(MarkStopped(r, u, RuntimePane(r, u)), u)
  {
    PointersAtRuntimePane(r, u);
    var t := MarkStopped(r, u, RuntimePane(r, u));
    forall k | k in t.index
      ensures t.index[k] != u
    {
      assert !PointsTo(r, k, u);
    }
    DropKeeps(r, t.index, t.records, u);
  }

  lemma RegisterKeeps(r: Registry, at: Where, minted: UnitId)
    requires InStep(r) && NewId(r, minted)
    ensures InStep(RegisterNext(r, at, minted))
  {
    var self := SelfId(r, at);
    var id := if self.Some? then self.value else minted;
    match at
    case InPane(mux, pane) =>
      if !mux.Unstorable? {
        forall k | PointsTo(r, k, id)
          ensures k == SanitizePane(pane)
        {
        }
        BindKeeps(r, id, Unit(Session, Active, Located(mux, pane)), pane);
      } else {
        RecordKeeps(r, id, Unit(Session, Active, None));
      }
    case NoPane(_) => RecordKeeps(r, id, Unit(Session, Active, None));
  }

  lemma RecordKeeps(r: Registry, u: UnitId, unit: Unit)
    requires InStep(r) && !unit.status.Stopped?
    requires unit.pane.None? || (u in r.records && unit.pane == r.records[u].pane)
    ensures InStep(r.(records := r.records[u := unit]))
  {
    var t := r.(records := r.records[u := unit]);
    forall k | k in t.index
      ensures PointerOk(t, k)
    {
      assert PointerOk(r, k);
    }
  }

  lemma SpawnKeeps(r: Registry, minted: UnitId, mux: Mux, pane: PaneId)
    requires InStep(r) && NewId(r, minted)
    ensures InStep(SpawnNext(r, minted, mux, pane))
  {
    assert forall k :: !PointsTo(r, k, minted);
    BindKeeps(r, minted, Unit(Session, Active, Located(mux, pane)), pane);
  }

  lemma AdoptOneKeeps(r: Registry, agents: map<UnitId, Unit>, panes: seq<(Pane, UnitId)>)
    requires InStep(r) && MintsNewIds(r, Adopt(panes)) && panes != []
    ensures var t := AdoptOne(r, agents, panes[0].0, panes[0].1); InStep(t) && MintsNewIds(t, Adopt(panes[1..]))
  {
    var t := AdoptOne(r, agents, panes[0].0, panes[0].1);
    if t != r {
      SpawnKeeps(r, panes[0].1, panes[0].0.mux, panes[0].0.id);
    }
    forall i | 0 <= i < |panes[1..]|
      ensures NewId(t, panes[1..][i].1)
    {
      var id := panes[i + 1].1;
      assert panes[1..][i] == panes[i + 1] && NewId(r, id) && panes[0].1 != id;
      forall k
        ensures !PointsTo(t, k, id)
      {
        assert !PointsTo(r, k, id);
      }
    }
  }

  lemma {:induction false} AdoptKeeps(r: Registry, agents: map<UnitId, Unit>, panes: seq<(Pane, UnitId)>)
    requires InStep(r) && MintsNewIds(r, Adopt(panes))
    ensures InStep(AdoptNext(r, agents, panes))
    decreases |panes|
  {
    if panes != [] {
      AdoptOneKeeps(r, agents, panes);
      AdoptKeeps(AdoptOne(r, agents, panes[0].0, panes[0].1), agents, panes[1..]);
    }
  }

  lemma RestartKeeps(r: Registry, u: UnitId, refused: bool, reachable: bool, listed: seq<PaneId>, target: Option<Pane>)
    requires InStep(r)
    ensures InStep(RestartNext(r, u, refused, reachable, listed, target))
  {
    if HasRuntime(r, u) && !refused {
      var s := r;
      if r.records[u].status.Stopped? {
        forall k
          ensures !PointsTo(r, k, u)
        {
          assert k in r.index ==> PointerOk(r, k);
        }
      } else {
        StopKeeps(r, u);
        s := MarkStopped(r, u, RuntimePane(r, u));
      }
      assert NoPointer(s, u);
      if target.Some? {
        var unit := s.records[u].(status := Active, pane := Located(target.value.mux, target.value.id));
        BindKeeps(s, u, unit, target.value.id);
      }
    }
  }

  /** The rebind is not refused, and the unit is not bound there already. */
  ghost predicate Rebinds(r: Registry, u: UnitId, pane: Pane, reachable: bool, listed: seq<PaneId>) {
    && HasRuntime(r, u) && !pane.mux.Unstorable?
    && !(Bears(r.records[u], pane) && ResolvePane(r, pane.id) == Some(u))
    && !PaneTaken(r, u, pane.id) && !MayStillRun(r, u, pane.id, reachable, listed)
  }

  /** A rebind keeps the maps in step, and leaves the unit exactly one pointer, the new pane's. */
  lemma RebindKeeps(r: Registry, u: UnitId, pane: Pane, reachable: bool, listed: seq<PaneId>)
    requires InStep(r)
    ensures InStep(RebindNext(r, u, pane, reachable, listed))
    ensures Rebinds(r, u, pane, reachable, listed) ==>
              forall k :: PointsTo(RebindNext(r, u, pane, reachable, listed), k, u) <==> k == SanitizePane(pane.id)
  {
    if RebindNext(r, u, pane, reachable, listed) != r {
      PointersAtRuntimePane(r, u);
      var was := RuntimePane(r, u);
      var unit := r.records[u].(status := Active, pane := Some(pane));
      if was.Some? && was.value != pane.id {
        var index := RemovePointer(r.index, was.value);
        forall k | k in index
          ensures index[k] != u
        {
          assert !PointsTo(r, k, u);
        }
        DropKeeps(r, index, r.records, u);
        BindKeeps(r.(index := index), u, unit, pane.id);
      } else {
        BindKeeps(r, u, unit, pane.id);
      }
    }
  }

  lemma CloseKeeps(r: Registry, u: UnitId, aborted: bool)
    requires InStep(r)
    ensures InStep(CloseNext(r, u, aborted))
    ensures u !in CloseNext(r, u, aborted).records ==> NoPointer(CloseNext(r, u, aborted), u)
  {
    var t := CloseNext(r, u, aborted);
    if t != r {
      PointersAtRuntimePane(r, u);
      forall k | k in t.index
        ensures t.index[k] != u
      {
        assert !PointsTo(r, k, u);
      }
      DropKeeps(r, t.index, t.records, u);
    } else if u !in r.records {
      forall k
        ensures !PointsTo(r, k, u)
      {
        assert k in r.index ==> PointerOk(r, k);
      }
    }
  }

  lemma StepKeeps(r: Registry, op: Op)
    requires InStep(r) && MintsNewIds(r, op)
    ensures InStep(Next(r, op))
  {
    match op
    case Register(at, minted) => RegisterKeeps(r, at, minted);
    case Spawn(minted, mux, pane) => SpawnKeeps(r, minted, mux, pane);
    case Adopt(panes) => AdoptKeeps(r, r.records, panes);
    case Stop(u, _, _, _) =>
      if HasRuntime(r, u) {
        StopKeeps(r, u);
      }
    case Restart(u, refused, reachable, listed, target) => RestartKeeps(r, u, refused, reachable, listed, target);
    case Rebind(u, pane, reachable, listed) => RebindKeeps(r, u, pane, reachable, listed);
    case Close(u, aborted) => CloseKeeps(r, u, aborted);
    case MarkExited(u) =>
      if u in r.records {
        RecordKeeps(r, u, r.records[u].(status := Exited));
      }
  }

  /** The operation is about the unit itself. */
  predicate IsAbout(r: Registry, op: Op, v: UnitId) {
    match op
    case Register(at, _) => SelfId(r, at) == Some(v)
    case Spawn(_, _, _) => false
    case Adopt(_) => false
    case Stop(u, _, _, _) => u == v
    case Restart(u, _, _, _, _) => u == v
    case Rebind(u, _, _, _) => u == v
    case Close(u, _) => u == v
    case MarkExited(u) => u == v
  }

  lemma {:induction false} AdoptSparesRecords(r: Registry, agents: map<UnitId, Unit>, panes: seq<(Pane, UnitId)>,
                                              v: UnitId)
    requires v in r.records && forall i :: 0 <= i < |panes| ==> panes[i].1 != v
    ensures var t := AdoptNext(r, agents, panes); v in t.records && t.records[v] == r.records[v]
    decreases |panes|
  {
    if panes != [] {
      AdoptSparesRecords(AdoptOne(r, agents, panes[0].0, panes[0].1), agents, panes[1..], v);
    }
  }

  /** No operation touches the record of a unit it is not about. */
  lemma StepSparesOthers(r: Registry, op: Op, v: UnitId)
    requires MintsNewIds(r, op) && v in r.records && !IsAbout(r, op, v)
    ensures var t := Next(r, op); v in t.records && t.records[v] == r.records[v]
  {
    if op.Adopt? {
      forall i | 0 <= i < |op.panes|
        ensures op.panes[i].1 != v
      {
        assert NewId(r, op.panes[i].1);
      }
      AdoptSparesRecords(r, r.records, op.panes, v);
    }
  }

  ghost predicate IsRun(r: Registry, ops: seq<Op>)
    decreases |ops|
  {
    ops == [] || (MintsNewIds(r, ops[0]) && IsRun(Next(r, ops[0]), ops[1..]))
  }

  ghost function Run(r: Registry, ops: seq<Op>): Registry
    decreases |ops|
  {
    if ops == [] then r else Run(Next(r, ops[0]), ops[1..])
  }

  /** Over any sequence of operations: no two pane pointers name the same unit, a pointer to a unit whose
      record carries a pane is that pane's key, and a stopped or closed unit has no pointer. */
  lemma {:induction false} PointersStayInStep(r: Registry, ops: seq<Op>, u: UnitId)
    requires InStep(r) && IsRun(r, ops)
    ensures var t := Run(r, ops);
            && InStep(t)
            && (forall j, k :: PointsTo(t, j, u) && PointsTo(t, k, u) ==> j == k)
            && (u in t.records && t.records[u].pane.Some? ==>
                  forall k :: PointsTo(t, k, u) ==> k == SanitizePane(t.records[u].pane.value.id))
            && (u !in t.records || t.records[u].status.Stopped? ==> NoPointer(t, u))
    decreases |ops|
  {
    if ops == [] {
      forall k | PointsTo(r, k, u)
        ensures PointerOk(r, k)
      {
      }
    } else {
      StepKeeps(r, ops[0]);
      PointersStayInStep(Next(r, ops[0]), ops[1..], u);
    }
  }

  // ----- when an operation goes through -----

  /** A unit that may have a session running: neither stopped nor exited. */
  predicate Running(unit: Unit) {
    unit.status.Active? || unit.status.OtherStatus?
  }

  /** A stop is recorded exactly when the unit is not known to run on: it has no pane, or its backend does not
      list the pane any more. */
  lemma StopIsRecordedIff(r: Registry, u: UnitId, isSelf: bool, reachable: bool, listed: seq<PaneId>)
    requires HasRuntime(r, u) && !isSelf && !r.records[u].status.Stopped?
    ensures var t := StopNext(r, u, isSelf, reachable, listed);
            var pane := RuntimePane(r, u);
            && u in t.records
            && (t.records[u] == Unit(Session, Stopped, None) <==>
                  pane.None? || !reachable || pane.value !in listed)
            && (pane.Some? && reachable && pane.value in listed ==> t == r)
  {
  }

  /** A rebind refuses another running unit's pane, and a unit that runs in another pane its backend lists or
      gives no answer about; otherwise the unit is active and found in the pane. */
  lemma RebindGoesThroughIff(r: Registry, u: UnitId, pane: Pane, reachable: bool, listed: seq<PaneId>)
    requires InStep(r) && HasRuntime(r, u) && !pane.mux.Unstorable?
    requires !(r.records[u].pane == Some(pane) && ResolvePane(r, pane.id) == Some(u))
    ensures var t := RebindNext(r, u, pane, reachable, listed);
            var holder, was := ResolvePane(r, pane.id), RuntimePane(r, u);
            var taken := holder.Some? && holder.value != u && Running(r.records[holder.value]);
            var elsewhere := && was.Some? && was.value != pane.id && Running(r.records[u])
                             && (!reachable || listed == [] || was.value in listed);
            && (taken || elsewhere ==> t == r)
            && (!taken && !elsewhere ==>
                  && u in t.records && t.records[u] == Unit(Session, Active, Some(pane))
                  && ResolvePane(t, pane.id) == Some(u))
  {
    var key := SanitizePane(pane.id);
    assert key in r.index ==> PointerOk(r, key);
  }

  /** A restart that gets a new session has the unit active in its pane, whatever it was before; one whose open
      fails leaves it stopped; one that is refused, or whose stop does not take effect, leaves all as it was. */
  lemma RestartOutcome(r: Registry, u: UnitId, refused: bool, reachable: bool, listed: seq<PaneId>,
                       target: Option<Pane>)
    requires HasRuntime(r, u)
    ensures var t := RestartNext(r, u, refused, reachable, listed, target);
            var pane := RuntimePane(r, u);
            var blocked := || refused
                           || (!r.records[u].status.Stopped? && pane.Some? && reachable && pane.value in listed);
            && u in t.records
            && (blocked ==> t == r)
            && (!blocked && target.None? ==> t.records[u].status.Stopped?)
            && (!blocked && target.Some? ==>
                  && t.records[u].status.Active? && ResolvePane(t, target.value.id) == Some(u)
                  && (!target.value.mux.Unstorable? ==> t.records[u].pane == target))
  {
  }

  /** Panes that are bound already are left alone. */
  lemma {:induction false} AdoptLeavesBound(r: Registry, panes: seq<(Pane, UnitId)>)
    requires forall i :: 0 <= i < |panes| ==> panes[i].0.mux.Unstorable? || IsBoundIn(r, panes[i].0)
    ensures AdoptNext(r, r.records, panes) == r
    decreases |panes|
  {
    if panes != [] {
      assert AdoptOne(r, r.records, panes[0].0, panes[0].1) == r;
      AdoptLeavesBound(r, panes[1..]);
    }
  }

  /** So adopting the same panes again changes nothing, whatever ids it would mint. */
  lemma AdoptTwiceIsOnce(r: Registry, panes: seq<(Pane, UnitId)>, again: seq<(Pane, UnitId)>)
    requires InStep(r) && MintsNewIds(r, Adopt(panes))
    requires forall k :: 0 <= k < |again| ==> exists i :: 0 <= i < |panes| && panes[i].0 == again[k].0
    ensures var t := Next(r, Adopt(panes)); Next(t, Adopt(again)) == t
  {
    var t := Next(r, Adopt(panes));
    forall k | 0 <= k < |again|
      ensures again[k].0.mux.Unstorable? || IsBoundIn(t, again[k].0)
    {
      if !again[k].0.mux.Unstorable? {
        AdoptBindsAll(r, r.records, panes, again[k].0);
      }
    }
    AdoptLeavesBound(t, again);
  }

  /** Only a session's record that is neither stopped nor exited already is marked exited, and keeps its pane;
      a standing or service record never is. */
  lemma MarkExitedOutcome(r: Registry, u: UnitId)
    requires u in r.records
    ensures var t := MarkExitedNext(r, u);
            && t.index == r.index && u in t.records
            && t.records[u] == if r.records[u].kind.Session? && Running(r.records[u])
                               then Unit(Session, Exited, r.records[u].pane) else r.records[u]
  {
  }

  /** A unit is found by the pane, or a record says that its unit runs there. */
  predicate IsBoundIn(r: Registry, p: Pane) {
    || (ResolvePane(r, p.id).Some? && ResolvePane(r, p.id).value in r.records)
    || exists u :: u in r.records && r.records[u].pane == Some(p)
  }

  lemma AdoptOneBinds(r: Registry, agents: map<UnitId, Unit>, p: Pane, minted: UnitId)
    requires !p.mux.Unstorable? && forall a :: a in agents ==> a in r.records && r.records[a] == agents[a]
    ensures IsBoundIn(AdoptOne(r, agents, p, minted), p)
  {
    var t := AdoptOne(r, agents, p, minted);
    if t == r && !(ResolvePane(r, p.id).Some? && ResolvePane(r, p.id).value in r.records) {
      var a :| a in agents && Bears(agents[a], p);
      assert a in t.records && Bears(t.records[a], p);
    }
  }

  lemma AdoptOneKeepsBound(r: Registry, agents: map<UnitId, Unit>, q: Pane, minted: UnitId, p: Pane)
    requires InStep(r) && NewId(r, minted) && IsBoundIn(r, p)
    ensures IsBoundIn(AdoptOne(r, agents, q, minted), p)
  {
    var t := AdoptOne(r, agents, q, minted);
    if ResolvePane(r, p.id).Some? && ResolvePane(r, p.id).value in r.records {
      assert ResolvePane(t, p.id).Some? && ResolvePane(t, p.id).value in t.records;
    } else {
      var a :| a in r.records && Bears(r.records[a], p);
      assert a in t.records && Bears(t.records[a], p);
    }
  }

  /** After an adoption every listed pane that a record can carry is bound, and a pane bound before still is. */
  lemma {:induction false} AdoptBindsAll(r: Registry, agents: map<UnitId, Unit>, panes: seq<(Pane, UnitId)>, p: Pane)
    requires InStep(r) && MintsNewIds(r, Adopt(panes)) && !p.mux.Unstorable?
    requires forall a :: a in agents ==> a in r.records && r.records[a] == agents[a]
    requires IsBoundIn(r, p) || exists i :: 0 <= i < |panes| && panes[i].0 == p
    ensures IsBoundIn(AdoptNext(r, agents, panes), p)
    decreases |panes|
  {
    if panes != [] {
      var t := AdoptOne(r, agents, panes[0].0, panes[0].1);
      assert NewId(r, panes[0].1);
      AdoptOneKeeps(r, agents, panes);
      if panes[0].0 == p {
        AdoptOneBinds(r, agents, p, panes[0].1);
      } else if IsBoundIn(r, p) {
        AdoptOneKeepsBound(r, agents, panes[0].0, panes[0].1, p);
      } else {
        var i :| 0 <= i < |panes| && panes[i].0 == p;
        assert panes[1..][i - 1].0 == p;
      }
      AdoptBindsAll(t, agents, panes[1..], p);
    }
  }

  // ----- whose pointers an operation takes along -----

  /** The operation takes the pointer of `v` away: some pane resolved to it before, and none does after. */
  ghost predicate TakesPointer(r: Registry, t: Registry, v: UnitId) {
    !NoPointer(r, v) && NoPointer(t, v)
  }

  /** Some pane other than `v`'s own gives its pointer up, or another unit's pointer takes its place. */
  lemma PointerTakenIff(r: Registry, t: Registry, keys: set<Key>, v: UnitId)
    requires InStep(r)
    requires forall k :: k !in keys ==> (PointsTo(t, k, v) <==> PointsTo(r, k, v))
    requires forall k :: k in keys ==> !PointsTo(t, k, v)
    ensures TakesPointer(r, t, v) <==> exists k :: k in keys && PointsTo(r, k, v)
  {
    if k :| k in keys && PointsTo(r, k, v) {
      forall j
        ensures !PointsTo(t, j, v)
      {
        assert PointsTo(r, j, v) ==> j == k;
      }
    } else if !NoPointer(r, v) {
      var k :| PointsTo(r, k, v);
      assert PointsTo(t, k, v);
    }
  }

  /** The key a stop, close or rebind of `u` removes. */
  ghost function RuntimeKeys(r: Registry, u: UnitId): set<Key>
    requires u in r.records
  {
    if RuntimePane(r, u).Some? then {SanitizePane(RuntimePane(r, u).value)} else {}
  }

  lemma StopTakesForeignPointerIff(r: Registry, u: UnitId, v: UnitId)
    requires InStep(r) && u in r.records && v != u
    ensures TakesPointer(r, MarkStopped(r, u, RuntimePane(r, u)), v) <==>
              exists k :: k in RuntimeKeys(r, u) && PointsTo(r, k, v)
  {
    PointerTakenIff(r, MarkStopped(r, u, RuntimePane(r, u)), RuntimeKeys(r, u), v);
  }

  lemma CloseTakesForeignPointerIff(r: Registry, u: UnitId, v: UnitId)
    requires InStep(r) && u in r.records && !r.records[u].kind.Service? && v != u
    ensures TakesPointer(r, CloseNext(r, u, false), v) <==>
              exists k :: k in RuntimeKeys(r, u) && PointsTo(r, k, v)
  {
    PointerTakenIff(r, CloseNext(r, u, false), RuntimeKeys(r, u), v);
  }

  lemma RebindTakesForeignPointerIff(r: Registry, u: UnitId, pane: Pane, reachable: bool, listed: seq<PaneId>,
                                     v: UnitId)
    requires InStep(r) && v != u
    ensures TakesPointer(r, RebindNext(r, u, pane, reachable, listed), v) <==>
              && Rebinds(r, u, pane, reachable, listed)
              && exists k :: k in RuntimeKeys(r, u) + {SanitizePane(pane.id)} && PointsTo(r, k, v)
  {
    var t := RebindNext(r, u, pane, reachable, listed);
    if Rebinds(r, u, pane, reachable, listed) {
      PointerTakenIff(r, t, RuntimeKeys(r, u) + {SanitizePane(pane.id)}, v);
    }
  }

  /** The restart is not refused, and its stop, if one is needed, takes effect. */
  ghost predicate Restarts(r: Registry, u: UnitId, refused: bool, reachable: bool, listed: seq<PaneId>) {
    && HasRuntime(r, u) && !refused
    && (r.records[u].status.Stopped? || StopRuntime(r, u, reachable, listed).Some?)
  }

  ghost function TargetKeys(target: Option<Pane>): set<Key> {
    if target.Some? then {SanitizePane(target.value.id)} else {}
  }

  /** Also when the open after the stop fails. */
  lemma RestartTakesForeignPointerIff(r: Registry, u: UnitId, refused: bool, reachable: bool, listed: seq<PaneId>,
                                      target: Option<Pane>, v: UnitId)
    requires InStep(r) && v != u
    ensures TakesPointer(r, RestartNext(r, u, refused, reachable, listed, target), v) <==>
              && Restarts(r, u, refused, reachable, listed)
              && exists k :: k in RestartKeys(r, u, target) && PointsTo(r, k, v)
  {
    if Restarts(r, u, refused, reachable, listed) {
      var t := RestartNext(r, u, refused, reachable, listed, target);
      PointerTakenIff(r, t, RestartKeys(r, u, target), v);
    }
  }

  ghost function RestartKeys(r: Registry, u: UnitId, target: Option<Pane>): set<Key>
    requires u in r.records
  {
    (if r.records[u].status.Stopped? then {} else RuntimeKeys(r, u)) + TargetKeys(target)
  }

  lemma SpawnTakesForeignPointerIff(r: Registry, minted: UnitId, mux: Mux, pane: PaneId, v: UnitId)
    requires InStep(r) && NewId(r, minted)
    ensures TakesPointer(r, SpawnNext(r, minted, mux, pane), v) <==> PointsTo(r, SanitizePane(pane), v)
  {
    if v != minted {
      PointerTakenIff(r, SpawnNext(r, minted, mux, pane), {SanitizePane(pane)}, v);
    }
  }

  /** A pane whose pointer names a unit is never adopted, so an adoption takes nobody's pointer. */
  lemma {:induction false} AdoptTakesNoPointer(r: Registry, agents: map<UnitId, Unit>, panes: seq<(Pane, UnitId)>,
                                               k: Key)
    requires InStep(r) && MintsNewIds(r, Adopt(panes)) && k in r.index
    ensures var t := AdoptNext(r, agents, panes); k in t.index && t.index[k] == r.index[k]
    decreases |panes|
  {
    if panes != [] {
      var t := AdoptOne(r, agents, panes[0].0, panes[0].1);
      assert PointerOk(r, k);
      AdoptOneKeeps(r, agents, panes);
      AdoptTakesNoPointer(t, agents, panes[1..], k);
    }
  }

  /** For each operation, the keys whose pointers it removes or points at its own unit. */
  ghost function TakenKeys(r: Registry, op: Op): set<Key> {
    match op
    case Register(_, _) => {}
    case Spawn(_, _, pane) => {SanitizePane(pane)}
    case Adopt(_) => {}
    case Stop(u, isSelf, reachable, listed) =>
      if HasRuntime(r, u) && !isSelf && Restarts(r, u, false, reachable, listed) && !r.records[u].status.Stopped?
      then RuntimeKeys(r, u) else {}
    case Restart(u, refused, reachable, listed, target) =>
      if Restarts(r, u, refused, reachable, listed) then RestartKeys(r, u, target) else {}
    case Rebind(u, pane, reachable, listed) =>
      if Rebinds(r, u, pane, reachable, listed) then RuntimeKeys(r, u) + {SanitizePane(pane.id)} else {}
    case Close(u, aborted) =>
      if u in r.records && !r.records[u].kind.Service? && !aborted then RuntimeKeys(r, u) else {}
    case MarkExited(_) => {}
  }

  /** When a pane's id was recycled, an operation on the unit that ran there before takes the pointer of the
      unit that runs there now. For every operation: a unit it is not about loses its pointer exactly when
      the index names that unit at a pane the operation stops, closes, leaves or takes over. */
  lemma TakesForeignPointerIff(r: Registry, op: Op, v: UnitId)
    requires InStep(r) && MintsNewIds(r, op) && !IsAbout(r, op, v)
    ensures TakesPointer(r, Next(r, op), v) <==> exists k :: k in TakenKeys(r, op) && PointsTo(r, k, v)
  {
    match op
    case Register(at, minted) => RegisterTakesNoPointer(r, at, minted, v);
    case Spawn(minted, mux, pane) =>
      SpawnTakesForeignPointerIff(r, minted, mux, pane, v);
      if PointsTo(r, SanitizePane(pane), v) {
        assert SanitizePane(pane) in TakenKeys(r, op);
      }
    case Adopt(panes) =>
      if k :| PointsTo(r, k, v) {
        AdoptTakesNoPointer(r, r.records, panes, k);
        assert PointsTo(Next(r, op), k, v);
      }
    case Stop(u, isSelf, reachable, listed) =>
      if HasRuntime(r, u) {
        StopTakesForeignPointerIff(r, u, v);
      }
    case Restart(u, refused, reachable, listed, target) =>
      RestartTakesForeignPointerIff(r, u, refused, reachable, listed, target, v);
    case Rebind(u, pane, reachable, listed) => RebindTakesForeignPointerIff(r, u, pane, reachable, listed, v);
    case Close(u, aborted) =>
      if u in r.records && !r.records[u].kind.Service? {
        CloseTakesForeignPointerIff(r, u, v);
      }
    case MarkExited(u) => SameIndexTakesNothing(r, Next(r, op), v);
  }

  lemma SameIndexTakesNothing(r: Registry, t: Registry, v: UnitId)
    requires t.index == r.index
    ensures !TakesPointer(r, t, v)
  {
    if k :| PointsTo(r, k, v) {
      assert PointsTo(t, k, v);
    }
  }

  /** A session registers under the unit its pane's pointer names, so it takes nobody else's. */
  lemma RegisterTakesNoPointer(r: Registry, at: Where, minted: UnitId, v: UnitId)
    requires InStep(r) && NewId(r, minted)
    ensures !TakesPointer(r, RegisterNext(r, at, minted), v)
  {
    if k :| PointsTo(r, k, v) {
      assert PointsTo(RegisterNext(r, at, minted), k, v);
    }
  }

  const NO_UNITS := Registry(map[], map[])

  lemma RunStep(r: Registry, op: Op, ops: seq<Op>)
    requires MintsNewIds(r, op) && IsRun(Next(r, op), ops)
    ensures IsRun(r, [op] + ops) && Run(r, [op] + ops) == Run(Next(r, op), ops)
  {
    assert ([op] + ops)[1..] == ops;
  }

  /** `dead` has exited in the pane, and `young` was spawned into it. */
  function Recycled(dead: UnitId, young: UnitId, pane: PaneId): Registry {
    var at := Some(Pane(Tmux, pane));
    Registry(map[dead := Unit(Session, Exited, at), young := Unit(Session, Active, at)],
             map[SanitizePane(pane) := young])
  }

  lemma RecyclingRun(dead: UnitId, young: UnitId, pane: PaneId) returns (ops: seq<Op>)
    requires dead != young
    ensures IsRun(NO_UNITS, ops) && Run(NO_UNITS, ops) == Recycled(dead, young, pane)
  {
    var k := SanitizePane(pane);
    var at := Some(Pane(Tmux, pane));
    var r1 := Registry(map[dead := Unit(Session, Active, at)], map[k := dead]);
    var r2 := Registry(map[dead := Unit(Session, Exited, at)], map[k := dead]);
    assert Next(NO_UNITS, Register(InPane(Tmux, pane), dead)) == r1;
    assert Next(r1, MarkExited(dead)) == r2;
    assert NewId(r2, young) && Next(r2, Spawn(young, Tmux, pane)) == Recycled(dead, young, pane);
    RunStep(r2, Spawn(young, Tmux, pane), []);
    RunStep(r1, MarkExited(dead), [Spawn(young, Tmux, pane)]);
    RunStep(NO_UNITS, Register(InPane(Tmux, pane), dead), [MarkExited(dead)] + [Spawn(young, Tmux, pane)]);
    ops := [Register(InPane(Tmux, pane), dead)] + ([MarkExited(dead)] + [Spawn(young, Tmux, pane)]);
  }

  lemma StopAfterRecycling(dead: UnitId, young: UnitId, pane: PaneId)
    requires dead != young
    ensures LosesPointer(Recycled(dead, young, pane), dead, young, pane)
  {
    assert (map[SanitizePane(pane) := young] - {SanitizePane(pane)}).Keys == {};
  }

  /** It happens: a unit is registered in a pane, its session dies, the multiplexer hands the pane's id to
      a newly spawned unit, and stopping the dead unit takes the new one's pointer. */
  lemma RecycledPaneLosesPointer(dead: UnitId, young: UnitId, pane: PaneId)
    requires dead != young
    ensures exists ops :: IsRun(NO_UNITS, ops) && LosesPointer(Run(NO_UNITS, ops), dead, young, pane)
  {
    var ops := RecyclingRun(dead, young, pane);
    StopAfterRecycling(dead, young, pane);
    assert IsRun(NO_UNITS, ops) && LosesPointer(Run(NO_UNITS, ops), dead, young, pane);
  }

  /** Stopping `dead` takes the pointer of `young`, which is active in the pane and resolved there before. */
  ghost predicate LosesPointer(r: Registry, dead: UnitId, young: UnitId, pane: PaneId) {
    var t := Next(r, Stop(dead, false, true, []));
    && ResolvePane(r, pane) == Some(young)
    && NoPointer(t, young)
    && young in t.records && t.records[young] == Unit(Session, Active, Some(Pane(Tmux, pane)))
  }
}
