/**
 A standing owner's presence pointer (`identity.ts`, `presence-spawn.ts`).

 Claims, clears, refreshes and the delivery doorbell's spawns all load the standing record, decide, and
 save it back under one lock. `LockedSection` makes every interleaving of them a run of the atomic
 operations below on the stored record.
 */
module Presence {
  import opened Prelude
  import opened LockedSection

  type UnitId = string

  datatype Home = Home(dir: string, launch: string)

  datatype Standing = Standing(presence: Option<UnitId>, home: Option<Home>)

  type Record = Option<Standing>

  /** What a registration says about the home: nothing, drop it, or replace it. */
  datatype HomeInput = KeepHome | DropHome | SetHome(home: Home)

  datatype PresenceOp =
    | Claim(unit: UnitId)
    | Clear
    | Refresh(input: HomeInput)
    | Look(live: set<UnitId>)                            // a delivery finds the bound presence live
    | Spawn(unit: UnitId, live: set<UnitId>, home: Home) // a delivery finds none live, and binds the unit it spawned
    | Unbind(unit: UnitId)                               // its trust prompt never cleared

  /** The bound unit, when its record exists and is not exited; `live` is what the registry shows. */
  function PresenceOf(r: Standing, live: set<UnitId>): Option<UnitId> {
    if r.presence.Some? && r.presence.value in live then r.presence else None
  }

  function Refreshed(r: Record, home: HomeInput): Standing {
    Standing(
      if r.Some? then r.value.presence else None,
      match home
      case KeepHome => if r.Some? then r.value.home else None
      case DropHome => None
      case SetHome(h) => Some(h))
  }

  ghost predicate PresenceStep(v: Record, op: PresenceOp, w: Record) {
    match op
    case Claim(unit) => v.Some? && w == Some(v.value.(presence := Some(unit)))
    case Clear => v.Some? && w == Some(v.value.(presence := None))
    case Refresh(home) => w == Some(Refreshed(v, home))
    case Look(live) => v.Some? && PresenceOf(v.value, live).Some? && w == v
    case Spawn(unit, live, _) =>
      v.Some? && PresenceOf(v.value, live).None? && w == Some(v.value.(presence := Some(unit)))
    case Unbind(unit) =>
      w == if v.Some? && v.value.presence == Some(unit) then Some(v.value.(presence := None)) else v
  }

  type PresenceRun = seq<Entry<Record, PresenceOp>>

  function Pointer(v: Record): Option<UnitId> {
    if v.Some? then v.value.presence else None
  }

  /** What one operation means to say the pointer is, given what it was. */
  function Wrote(op: PresenceOp, was: Option<UnitId>): Option<UnitId> {
    match op
    case Claim(unit) => Some(unit)
    case Clear => None
    case Refresh(_) => was
    case Look(_) => was
    case Spawn(unit, _, _) => Some(unit)
    case Unbind(unit) => if was == Some(unit) then None else was
  }

  predicate Writes(op: PresenceOp) {
    op.Claim? || op.Clear? || op.Spawn?
  }

  lemma StepPointer(v: Record, op: PresenceOp, w: Record)
    requires PresenceStep(v, op, w)
    ensures Pointer(w) == Wrote(op, Pointer(v))
    ensures op.Spawn? && Pointer(v).Some? ==> Pointer(v).value !in op.live
    ensures op.Look? ==> Pointer(v).Some? && Pointer(v).value in op.live
  {
  }

  /** The pointer after the first `k` operations, every locked write applied in the order it took effect. */
  function Folded(was: Option<UnitId>, run: PresenceRun, k: nat): Option<UnitId>
    requires k <= |run|
  {
    if k == 0 then was else Wrote(run[k - 1].op, Folded(was, run, k - 1))
  }

  /** No update is lost over any run: the pointer is all the locked writes, unbinds included, one after the
      other. */
  lemma {:induction false} PointerIsFoldOfWrites(v: Record, run: PresenceRun, k: nat)
    requires AtomicRun(PresenceStep, v, run) && k <= |run|
    ensures Pointer(At(v, run, k)) == Folded(Pointer(v), run, k)
  {
    if k > 0 {
      PointerIsFoldOfWrites(v, run, k - 1);
      assert Linked(PresenceStep, v, run, k - 1);
      StepPointer(run[k - 1].before, run[k - 1].op, run[k - 1].after);
    }
  }

  /** Some operation from `i` to `j` unbinds `unit`. */
  predicate UnbindsBetween(run: PresenceRun, i: nat, j: nat, unit: UnitId)
    requires i <= j <= |run|
  {
    exists k :: i <= k < j && run[k].op == Unbind(unit)
  }

  lemma {:induction false} FoldAfterLastWrite(was: Option<UnitId>, run: PresenceRun, last: nat, k: nat)
    requires last < k <= |run| && Writes(run[last].op)
    requires forall i :: last < i < k ==> !Writes(run[i].op)
    ensures var wrote := Wrote(run[last].op, None);
            Folded(was, run, k) ==
            if wrote.Some? && UnbindsBetween(run, last + 1, k, wrote.value) then None else wrote
    decreases k
  {
    if k > last + 1 {
      FoldAfterLastWrite(was, run, last, k - 1);
      var wrote := Wrote(run[last].op, None);
      if wrote.Some? && UnbindsBetween(run, last + 1, k - 1, wrote.value) {
        var i :| last + 1 <= i < k - 1 && run[i].op == Unbind(wrote.value);
        assert UnbindsBetween(run, last + 1, k, wrote.value);
      }
    }
  }

  /** After any run the pointer is what the last claim, clear or spawn wrote, unless that very unit has been
      unbound since; refreshes, deliveries that found the presence live, and unbinds of any other unit
      leave it. */
  lemma PointerIsLastWrite(v: Record, run: PresenceRun, last: nat)
    requires AtomicRun(PresenceStep, v, run) && last < |run| && Writes(run[last].op)
    requires forall k :: last < k < |run| ==> !Writes(run[k].op)
    ensures var wrote := Wrote(run[last].op, None);
            Pointer(At(v, run, |run|)) ==
            if wrote.Some? && UnbindsBetween(run, last + 1, |run|, wrote.value) then None else wrote
  {
    PointerIsFoldOfWrites(v, run, |run|);
    FoldAfterLastWrite(Pointer(v), run, last, |run|);
  }

  /** The registry shows `unit` with a record that is not exited whenever a delivery looks. */
  ghost predicate StaysLive(run: PresenceRun, i: nat, j: nat, unit: UnitId)
    requires i <= j <= |run|
  {
    forall k :: i <= k < j ==> run[k].op.Spawn? || run[k].op.Look? ==> unit in run[k].op.live
  }

  /** Nothing from `i` to `j` moves `unit` out of the presence, and deliveries find it live. */
  ghost predicate StaysPresence(run: PresenceRun, i: nat, j: nat, unit: UnitId)
    requires i <= j <= |run|
  {
    && StaysLive(run, i, j, unit)
    && forall k :: i <= k < j ==>
         !run[k].op.Clear? && run[k].op != Unbind(unit) && (run[k].op.Claim? ==> run[k].op.unit == unit)
  }

  /** Once a unit is the presence and stays live, no delivery ever spawns a second one, until somebody
      else claims, clears, or the unit itself is unbound. */
  lemma {:induction false} NoSecondSpawn(v: Record, run: PresenceRun, i: nat, j: nat, unit: UnitId)
    requires AtomicRun(PresenceStep, v, run) && i <= j <= |run|
    requires Pointer(At(v, run, i)) == Some(unit) && StaysPresence(run, i, j, unit)
    ensures Pointer(At(v, run, j)) == Some(unit)
    ensures forall k :: i <= k < j ==> !run[k].op.Spawn?
    decreases j - i
  {
    if i < j {
      NoSecondSpawn(v, run, i, j - 1, unit);
      assert Linked(PresenceStep, v, run, j - 1);
      StepPointer(run[j - 1].before, run[j - 1].op, run[j - 1].after);
    }
  }

  // ----- every interleaving, down to single file-system calls -----

  type PresenceWorld = World<Record, PresenceOp>
  type PresenceEvents = seq<Event<Record, PresenceOp>>

  /** With crashes anywhere and no mis-captured lock, the record is whole and its pointer is all the locked
      writes so far, unbinds included, one after the other. */
  lemma PresenceIsAtomic(v: Record, w: PresenceWorld, es: PresenceEvents)
    requires WorldInit(v, w)
    requires IsWorldRun(PresenceStep, w, es) && NoMisCaptureRun(PresenceStep, w, es)
    ensures var t := ExecWorld(PresenceStep, w, es);
            && AtomicRun(PresenceStep, v, t.journal)
            && t.file == Whole(At(v, t.journal, |t.journal|))
            && Pointer(t.file.value) == Folded(Pointer(v), t.journal, |t.journal|)
  {
    InitEstablishesWorldInv(PresenceStep, v, w);
    LockedWritesAreAtomic(PresenceStep, v, w, es);
    var t := ExecWorld(PresenceStep, w, es);
    PointerIsFoldOfWrites(v, t.journal, |t.journal|);
  }

  /** So in any such run the stored pointer is the last claim, clear or spawn, unless unbound since. */
  lemma StoredPointerIsLastWrite(v: Record, w: PresenceWorld, es: PresenceEvents, last: nat)
    requires WorldInit(v, w)
    requires IsWorldRun(PresenceStep, w, es) && NoMisCaptureRun(PresenceStep, w, es)
    requires var run := ExecWorld(PresenceStep, w, es).journal;
             && last < |run| && Writes(run[last].op)
             && forall k :: last < k < |run| ==> !Writes(run[k].op)
    ensures var t := ExecWorld(PresenceStep, w, es);
            var wrote := Wrote(t.journal[last].op, None);
            && t.file.Whole?
            && Pointer(t.file.value) ==
               if wrote.Some? && UnbindsBetween(t.journal, last + 1, |t.journal|, wrote.value) then None else wrote
  {
    PresenceIsAtomic(v, w, es);
    PointerIsLastWrite(v, ExecWorld(PresenceStep, w, es).journal, last);
  }

  /** And from a moment at which `unit` is the stored presence, no delivery in any continuation spawns a
      second one while it stays live and nobody moves it. */
  lemma NoSecondSpawnStored(v: Record, w: PresenceWorld, es: PresenceEvents, more: PresenceEvents, unit: UnitId)
    requires WorldInit(v, w)
    requires IsWorldRun(PresenceStep, w, es) && NoMisCaptureRun(PresenceStep, w, es)
    requires var x := ExecWorld(PresenceStep, w, es);
             && IsWorldRun(PresenceStep, x, more) && NoMisCaptureRun(PresenceStep, x, more)
             && x.file.Whole? && Pointer(x.file.value) == Some(unit)
             && var y := ExecWorld(PresenceStep, x, more);
                |x.journal| <= |y.journal| && StaysPresence(y.journal, |x.journal|, |y.journal|, unit)
    ensures var x := ExecWorld(PresenceStep, w, es);
            var y := ExecWorld(PresenceStep, x, more);
            && y.file.Whole? && Pointer(y.file.value) == Some(unit)
            && forall k :: |x.journal| <= k < |y.journal| ==> !y.journal[k].op.Spawn?
  {
    InitEstablishesWorldInv(PresenceStep, v, w);
    LockedWritesAreAtomic(PresenceStep, v, w, es);
    var x := ExecWorld(PresenceStep, w, es);
    LockedWritesAreAtomic(PresenceStep, v, x, more);
    var y := ExecWorld(PresenceStep, x, more);
    assert At(v, y.journal, |x.journal|) == At(v, x.journal, |x.journal|);
    NoSecondSpawn(v, y.journal, |x.journal|, |y.journal|, unit);
  }

  // ----- the operations as they run under the lock -----

  /** How the trust step of a spawn came out: cleared, left showing, or failed with an error. */
  datatype Trust = TrustCleared | TrustBlocked | TrustThrew

  datatype SpawnResult =
    | NoHome
    | OwnerGone
    | Existing(unit: UnitId)
    | SpawnThrew
    | Spawned(unit: UnitId, unbound: bool)
    | SpawnUndone

  class StandingStore {
    var record: Record

    method ClaimPresence(unit: UnitId) returns (ok: bool)
      modifies this
      ensures ok == old(record).Some?
      ensures if ok then PresenceStep(old(record), Claim(unit), record) else record == old(record)
      ensures ok ==> record == Some(old(record).value.(presence := Some(unit)))
    {
      if record.None? {
        return false;
      }
      record := Some(record.value.(presence := Some(unit)));
      return true;
    }

    method ClearPresence() returns (ok: bool)
      modifies this
      ensures ok == old(record).Some?
      ensures if ok then PresenceStep(old(record), Clear, record) else record == old(record)
      ensures ok ==> record == Some(old(record).value.(presence := None))
    {
      if record.None? {
        return false;
      }
      if record.value.presence.Some? {
        record := Some(record.value.(presence := None));
      }
      return true;
    }

    method WriteStanding(home: HomeInput)
      modifies this
      ensures PresenceStep(old(record), Refresh(home), record)
      ensures record.Some? && Pointer(record) == Pointer(old(record))
      ensures home.SetHome? ==> record.value.home == Some(home.home)
      ensures home.DropHome? ==> record.value.home == None
      ensures home.KeepHome? ==> record.value.home == if old(record).Some? then old(record).value.home else None
    {
      var existing := record;
      var written := Standing(None, None);
      if existing.Some? {
        written := written.(presence := existing.value.presence);
      }
      match home {
        case KeepHome =>
          if existing.Some? {
            written := written.(home := existing.value.home);
          }
        case DropHome =>
        case SetHome(h) => written := written.(home := Some(h));
      }
      record := Some(written);
    }

    /** Re-read, decide, spawn, bind, settle trust, and unbind again when trust did not clear. The home
        is the one the delivery loaded before it took the presence lock; a refresh may have dropped it
        meanwhile, and the spawn goes ahead all the same. */
    method SpawnPresence(home: Option<Home>, live: set<UnitId>, spawned: Option<UnitId>, trust: Trust)
      returns (r: SpawnResult)
      modifies this
      ensures r.NoHome? <==> home.None?
      ensures r.OwnerGone? <==> home.Some? && old(record).None?
      ensures r.Existing? <==> home.Some? && Pointer(old(record)).Some? && Pointer(old(record)).value in live
      ensures r.Existing? ==> PresenceStep(old(record), Look(live), record) && Pointer(record) == Some(r.unit)
      ensures r.SpawnThrew? ==> spawned.None?
      // The trust step decides what a spawn comes to: bound, unbound and reported, or unbound and rethrown.
      ensures r.Spawned? || r.SpawnUndone? ==> (r.SpawnUndone? <==> trust.TrustThrew?)
      ensures r.NoHome? || r.OwnerGone? || r.Existing? || r.SpawnThrew? ==> record == old(record)
      ensures r.Spawned? && !r.unbound ==> record == Some(old(record).value.(presence := Some(r.unit)))
      ensures r.Spawned? && !r.unbound ==> PresenceStep(old(record), Spawn(r.unit, live, home.value), record)
      ensures (r.Spawned? && r.unbound) || r.SpawnUndone? ==>
                record == Some(old(record).value.(presence := None)) && PresenceOf(old(record).value, live).None?
      ensures r.SpawnThrew? || r.Spawned? || r.SpawnUndone? ==> Pointer(old(record)).None? ||
                                                                 Pointer(old(record)).value !in live
      ensures r.Spawned? ==> spawned == Some(r.unit) && r.unbound == trust.TrustBlocked?
      // It spawns exactly when no presence is live under the lock and the opening succeeds, whatever home
      // the record has by then.
      ensures r.Spawned? || r.SpawnUndone? <==>
                && home.Some? && spawned.Some?
                && old(record).Some? && PresenceOf(old(record).value, live).None?
    {
      if home.None? {
        return NoHome;
      }
      if record.None? {
        return OwnerGone;
      }
      var current := record.value;
      var presence := PresenceOf(current, live);
      if presence.Some? {
        return Existing(presence.value);
      }
      if spawned.None? {
        return SpawnThrew;
      }
      record := Some(current.(presence := spawned));
      match trust
      case TrustThrew =>
        var _ := Release(spawned.value);
        r := SpawnUndone;
      case TrustBlocked =>
        var unbound := Release(spawned.value);
        r := Spawned(spawned.value, unbound);
      case TrustCleared =>
        r := Spawned(spawned.value, false);
    }

    method Release(unit: UnitId) returns (released: bool)
      modifies this
      ensures PresenceStep(old(record), Unbind(unit), record)
      ensures record == if Pointer(old(record)) == Some(unit) then Some(old(record).value.(presence := None))
                        else old(record)
      ensures released == (Pointer(old(record)) == Some(unit))
    {
      if record.None? || record.value.presence != Some(unit) {
        return false;
      }
      record := Some(record.value.(presence := None));
      return true;
    }
  }
}
