/**
 The lifecycle operations as they rewrite the stored records and the pane index, each proved to do what
 `PaneIndex.Next` says. They assume and keep the two maps in step.
 */
module UnitRegistry {
  import opened Prelude
  import opened PaneIndex

  class Hub {
    var records: map<UnitId, Unit>
    var index: map<Key, UnitId>

    ghost function State(): Registry
      reads this
    {
      Registry(records, index)
    }

    constructor ()
      ensures State() == NO_UNITS && InStep(State())
    {
      records, index := map[], map[];
    }

    /** Scans the index files for one that names the unit. */
    method FindPaneByAgentId(u: UnitId) returns (found: Option<Key>)
      requires InStep(State())
      ensures found == FindPane(State(), u)
    {
      var todo := index.Keys;
      while todo != {}
        invariant todo <= index.Keys
        invariant forall k :: k in index && k !in todo ==> index[k] != u
        decreases todo
      {
        var k :| k in todo;
        if index[k] == u {
          assert PointsTo(State(), k, u);
          return Some(k);
        }
        todo := todo - {k};
      }
      return None;
    }

    method RuntimePaneOf(u: UnitId) returns (pane: Option<PaneId>)
      requires InStep(State()) && u in records
      ensures pane == RuntimePane(State(), u)
    {
      if records[u].pane.Some? {
        return Some(records[u].pane.value.id);
      }
      pane := FindPaneByAgentId(u);
    }

    method RegisterUnit(at: Where, minted: UnitId) returns (id: UnitId)
      requires InStep(State()) && NewId(State(), minted)
      modifies this
      ensures State() == Next(old(State()), Register(at, minted)) && InStep(State())
      ensures at.InPane? && !at.mux.Unstorable? ==> ResolvePane(State(), at.pane) == Some(id)
      ensures records == old(records)[id := Unit(Session, Active,
                if at.InPane? && !at.mux.Unstorable? then Some(Pane(at.mux, at.pane)) else None)]
      ensures id == if at.InPane? then (if SanitizePane(at.pane) in old(index) then old(index)[SanitizePane(at.pane)]
                                        else minted)
                    else if at.env.Some? then at.env.value else minted
      ensures index == if at.InPane? && !at.mux.Unstorable? then old(index)[SanitizePane(at.pane) := id]
                       else old(index)
    {
      RegisterKeeps(State(), at, minted);
      id := minted;
      match at {
        case InPane(mux, pane) =>
          if SanitizePane(pane) in index {
            id := index[SanitizePane(pane)];
          }
          records := records[id := Unit(Session, Active, Located(mux, pane))];
          if !mux.Unstorable? {
            index := index[SanitizePane(pane) := id];
          }
        case NoPane(env) =>
          if env.Some? {
            id := env.value;
          }
          records := records[id := Unit(Session, Active, None)];
      }
    }

    /** The registry writes that end a spawn. */
    method SpawnUnit(minted: UnitId, mux: Mux, pane: PaneId)
      requires InStep(State()) && NewId(State(), minted)
      modifies this
      ensures State() == Next(old(State()), Spawn(minted, mux, pane)) && InStep(State())
      ensures ResolvePane(State(), pane) == Some(minted)
      ensures records == old(records)[minted := Unit(Session, Active, if mux.Unstorable? then None
                                                                      else Some(Pane(mux, pane)))]
      ensures index == old(index)[SanitizePane(pane) := minted]
    {
      SpawnKeeps(State(), minted, mux, pane);
      records := records[minted := Unit(Session, Active, Located(mux, pane))];
      index := index[SanitizePane(pane) := minted];
    }

    method AdoptPanes(panes: seq<(Pane, UnitId)>)
      requires InStep(State()) && MintsNewIds(State(), PaneIndex.Adopt(panes))
      modifies this
      ensures State() == Next(old(State()), PaneIndex.Adopt(panes)) && InStep(State())
      ensures forall i :: 0 <= i < |panes| && !panes[i].0.mux.Unstorable? ==> IsBoundIn(State(), panes[i].0)
    {
      forall i | 0 <= i < |panes| && !panes[i].0.mux.Unstorable?
        ensures IsBoundIn(AdoptNext(State(), records, panes), panes[i].0)
      {
        AdoptBindsAll(State(), records, panes, panes[i].0);
      }
      AdoptKeeps(State(), records, panes);
      var agents := records;
      ghost var start := State();
      var n := 0;
      while n < |panes|
        invariant n <= |panes|
        invariant AdoptNext(State(), agents, panes[n..]) == AdoptNext(start, agents, panes)
      {
        var (pane, minted) := panes[n];
        assert panes[n..][0] == panes[n] && panes[n..][1..] == panes[n + 1..];
        if !pane.mux.Unstorable? && !Bound(Registry(records, index), agents, pane) {
          records := records[minted := Unit(Session, Active, Located(pane.mux, pane.id))];
          index := index[SanitizePane(pane.id) := minted];
        }
        n := n + 1;
      }
    }

    /** `reconcile`'s cull: every prunable record of the caller's multiplexer whose pane is not listed
        exits; an empty list culls nothing. */
    method Reconcile(mux: Mux, listed: set<PaneId>)
      requires InStep(State())
      modifies this`records
      ensures InStep(State())
      ensures records.Keys == old(records).Keys
      ensures forall u :: u in records ==>
                records[u] == if listed != {} && Prunable(old(records)[u]) && old(records)[u].pane.Some?
                                 && old(records)[u].pane.value.mux == mux && old(records)[u].pane.value.id !in listed
                              then old(records)[u].(status := Exited) else old(records)[u]
    {
      if listed == {} {
        return;
      }
      var agents := records;
      var todo := agents.Keys;
      while todo != {}
        invariant todo <= agents.Keys && records.Keys == agents.Keys
        invariant InStep(State())
        invariant forall u :: u in todo ==> records[u] == agents[u]
        invariant forall u :: u in agents && u !in todo ==>
                    records[u] == if Prunable(agents[u]) && agents[u].pane.Some?
                                     && agents[u].pane.value.mux == mux && agents[u].pane.value.id !in listed
                                  then agents[u].(status := Exited) else agents[u]
        decreases todo
      {
        var u :| u in todo;
        var rec := agents[u];
        if Prunable(rec) && rec.pane.Some? && rec.pane.value.mux == mux && rec.pane.value.id !in listed {
          RecordKeeps(State(), u, rec.(status := Exited));
          records := records[u := rec.(status := Exited)];
        }
        todo := todo - {u};
      }
    }

    /** Tears the pane down and records the stop, unless the backend still lists the pane. */
    method StopRuntimeOf(u: UnitId, reachable: bool, listed: seq<PaneId>) returns (ok: bool)
      requires InStep(State()) && u in records
      modifies this
      ensures ok == StopRuntime(old(State()), u, reachable, listed).Some?
      ensures State() == if ok then StopRuntime(old(State()), u, reachable, listed).value else old(State())
      ensures InStep(State()) && (ok ==> NoPointer(State(), u))
      ensures ok <==> var pane := RuntimePane(old(State()), u);
                      pane.None? || !reachable || pane.value !in listed
      ensures ok ==> records == old(records)[u := old(records)[u].(status := Stopped, pane := None)]
    {
      StopKeeps(State(), u);
      var pane := RuntimePaneOf(u);
      if pane.Some? && reachable && pane.value in listed {
        return false;
      }
      records := records[u := records[u].(status := Stopped, pane := None)];
      if pane.Some? {
        index := index - {SanitizePane(pane.value)};
      }
      return true;
    }

    method StopUnit(u: UnitId, isSelf: bool, reachable: bool, listed: seq<PaneId>) returns (stopped: bool)
      requires InStep(State())
      modifies this
      ensures State() == Next(old(State()), PaneIndex.Stop(u, isSelf, reachable, listed)) && InStep(State())
      ensures stopped ==> u in records && records[u].status.Stopped? && NoPointer(State(), u)
      ensures !stopped ==> State() == old(State())
      ensures stopped <==>
                && u in old(records) && old(records)[u].kind.Session? && !isSelf
                && (old(records)[u].status.Stopped? || StopRuntime(old(State()), u, reachable, listed).Some?)
    {
      if u !in records || !records[u].kind.Session? || isSelf {
        return false;
      }
      if records[u].status.Stopped? {
        forall k
          ensures !PointsTo(State(), k, u)
        {
          assert k in index ==> PointerOk(State(), k);
        }
        return true;
      }
      stopped := StopRuntimeOf(u, reachable, listed);
    }

    method RestartUnit(u: UnitId, refused: bool, reachable: bool, listed: seq<PaneId>, target: Option<Pane>)
      returns (running: bool)
      requires InStep(State())
      modifies this
      ensures State() == Next(old(State()), PaneIndex.Restart(u, refused, reachable, listed, target)) && InStep(State())
      ensures running ==> target.Some? && ResolvePane(State(), target.value.id) == Some(u)
      ensures running <==> target.Some? && Restarts(old(State()), u, refused, reachable, listed)
      ensures running ==> u in records && records[u].status.Active?
                          && records[u].pane == Located(target.value.mux, target.value.id)
    {
      RestartKeeps(State(), u, refused, reachable, listed, target);
      if u !in records || !records[u].kind.Session? || refused {
        return false;
      }
      if !records[u].status.Stopped? {
        var ok := StopRuntimeOf(u, reachable, listed);
        if !ok {
          return false;
        }
      }
      if target.None? {
        return false;
      }
      records := records[u := records[u].(status := Active, pane := Located(target.value.mux, target.value.id))];
      index := index[SanitizePane(target.value.id) := u];
      return true;
    }

    method RebindUnit(u: UnitId, here: Pane, reachable: bool, listed: seq<PaneId>) returns (holds: bool)
      requires InStep(State())
      modifies this
      ensures State() == Next(old(State()), PaneIndex.Rebind(u, here, reachable, listed)) && InStep(State())
      ensures holds ==> u in records && Bears(records[u], here) && ResolvePane(State(), here.id) == Some(u)
      // It refuses exactly a unit without a runtime here, another running unit's pane, and a unit that may
      // still be running elsewhere.
      ensures holds <==>
                || Rebinds(old(State()), u, here, reachable, listed)
                || (&& old(HasRuntime(State(), u)) && !here.mux.Unstorable? && Bears(old(records)[u], here)
                    && ResolvePane(old(State()), here.id) == Some(u))
      ensures !holds ==> State() == old(State())
    {
      RebindKeeps(State(), u, here, reachable, listed);
      if u !in records || !records[u].kind.Session? || here.mux.Unstorable? {
        return false;
      }
      var was := RuntimePaneOf(u);
      var rec := records[u];
      var key := SanitizePane(here.id);
      if rec.pane == Some(here) && key in index && index[key] == u {
        return true;
      }
      if key in index && index[key] != u && index[key] in records {
        var holder := records[index[key]];
        if !holder.status.Stopped? && !holder.status.Exited? {
          return false;
        }
      }
      if was.Some? && was.value != here.id && !rec.status.Stopped? && !rec.status.Exited?
         && (!reachable || |listed| == 0 || was.value in listed)
      {
        return false;
      }
      records := records[u := rec.(status := Active, pane := Some(here))];
      if was.Some? && was.value != here.id {
        index := index - {SanitizePane(was.value)};
      }
      index := index[key := u];
      return true;
    }

    /** The reap step: what closing a unit removes. */
    method CloseUnit(u: UnitId, aborted: bool) returns (closed: bool)
      requires InStep(State())
      modifies this
      ensures State() == Next(old(State()), PaneIndex.Close(u, aborted)) && InStep(State())
      ensures closed ==> records == old(records) - {u} && NoPointer(State(), u)
      ensures closed <==> u in old(records) && !old(records)[u].kind.Service? && !aborted
      ensures !closed ==> State() == old(State())
    {
      CloseKeeps(State(), u, aborted);
      if u !in records || records[u].kind.Service? || aborted {
        return false;
      }
      var pane := RuntimePaneOf(u);
      records := records - {u};
      if pane.Some? {
        index := index - {SanitizePane(pane.value)};
      }
      return true;
    }
  }
}
