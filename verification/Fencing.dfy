/**
 Fencing over whole runs: who may act as a service's authority, and for how long.

 The theorems are about runs of atomic operations on the lease file, and `LockedSection` makes every
 interleaving of the lock-wrapped transitions of any number of processes such a run.
 */
module Fencing {
  import opened Prelude
  import opened Lease
  import opened LockedSection

  type File = Option<Lease>

  /** What a process does while holding a service's lock: a transition, or `withOwnership` running its
      action as the verified owner. */
  datatype LeaseOp =
    | Transition(q: Request, obs: Observation)
    | OwnedAction(unit: UnitId, generation: int)

  ghost predicate LeaseStep(v: File, op: LeaseOp, w: File) {
    match op
    case Transition(q, obs) => w == Apply(v, q, obs).0
    case OwnedAction(unit, generation) => w == v && Owns(v, unit, generation)
  }

  type LeaseRun = seq<Entry<File, LeaseOp>>

  function Current(v: File): Lease {
    if v.Some? then v.value else VACANT_LEASE
  }

  /** Generation first, then how far the lease has come within it: reserved, active, vacant. */
  function Rank(v: File): nat {
    3 * Current(v).generation
    + match Current(v).state
      case Reserved(_, _) => 0
      case Active(_) => 1
      case Vacant => 2
  }

  /** Every write moves the lease up: within a generation only from reserved to active to vacant,
      and never back. */
  lemma StepRaisesRank(v: File, op: LeaseOp, w: File)
    requires LeaseStep(v, op, w)
    ensures w == v || Rank(v) < Rank(w)
    ensures Current(w).generation <= Current(v).generation + 1
  {
  }

  lemma {:induction false} RankGrows(v: File, run: LeaseRun, i: nat, j: nat)
    requires AtomicRun(LeaseStep, v, run) && i <= j <= |run|
    ensures At(v, run, i) == At(v, run, j) || Rank(At(v, run, i)) < Rank(At(v, run, j))
    decreases j - i
  {
    if i < j {
      RankGrows(v, run, i, j - 1);
      assert Linked(LeaseStep, v, run, j - 1);
      StepRaisesRank(run[j - 1].before, run[j - 1].op, run[j - 1].after);
    }
  }

  lemma GenerationNeverDecreases(v: File, run: LeaseRun, i: nat, j: nat)
    requires AtomicRun(LeaseStep, v, run) && i <= j <= |run|
    ensures Current(At(v, run, i)).generation <= Current(At(v, run, j)).generation
  {
    RankGrows(v, run, i, j);
  }

  /** Over the whole run a generation has at most one holder, ever. */
  lemma OneHolderPerGeneration(v: File, run: LeaseRun, i: nat, j: nat, g: int, one: UnitId, other: UnitId)
    requires AtomicRun(LeaseStep, v, run) && i <= |run| && j <= |run|
    requires Owns(At(v, run, i), one, g) && Owns(At(v, run, j), other, g)
    ensures one == other
  {
    if i <= j {
      RankGrows(v, run, i, j);
    } else {
      RankGrows(v, run, j, i);
    }
  }

  ghost predicate Binds(e: Entry<File, LeaseOp>, g: int) {
    && e.op.Transition? && e.op.q.Bind? && e.op.q.generation == g
    && Apply(e.before, e.op.q, e.op.obs).1 == Done
  }

  lemma BindRanks(e: Entry<File, LeaseOp>, g: int)
    requires LeaseStep(e.before, e.op, e.after) && Binds(e, g)
    ensures Rank(e.before) == 3 * g && Rank(e.after) == 3 * g + 1
  {
  }

  /** A generation is bound at most once. */
  lemma OneBindPerGeneration(v: File, run: LeaseRun, i: nat, j: nat, g: int)
    requires AtomicRun(LeaseStep, v, run) && i < |run| && j < |run|
    requires Binds(run[i], g) && Binds(run[j], g)
    ensures i == j
  {
    assert Linked(LeaseStep, v, run, i) && Linked(LeaseStep, v, run, j);
    BindRanks(run[i], g);
    BindRanks(run[j], g);
    if i < j {
      RankGrows(v, run, i + 1, j);
    } else if j < i {
      RankGrows(v, run, j + 1, i);
    }
  }

  /** A unit that verified at a generation and is then refused as stale is never accepted again at that
      generation, whether or not the endpoint record is deleted and created again in between. */
  lemma StaleForever(v: File, run: LeaseRun, i: nat, j: nat, k: nat, unit: UnitId, g: int,
                     endpoints: (bool, bool, bool))
    requires AtomicRun(LeaseStep, v, run) && i <= j <= k <= |run|
    requires VerifyOwnership(At(v, run, i), endpoints.0, unit, g) == None
    requires VerifyOwnership(At(v, run, j), endpoints.1, unit, g) == Some(Stale)
    ensures VerifyOwnership(At(v, run, k), endpoints.2, unit, g).Some?
  {
    RankGrows(v, run, i, j);
    RankGrows(v, run, j, k);
  }

  /** `withOwnership` runs its action exactly when the check accepts, and leaves the lease alone; and it is
      logged with the unit and generation that were checked. */
  lemma OwnedActionRunsIff(v: File, unit: UnitId, generation: int, w: File)
    ensures LeaseStep(v, OwnedAction(unit, generation), w) <==>
              w == v && VerifyOwnership(v, true, unit, generation) == None
  {
  }

  lemma ActionIsLogged(run: LeaseRun, e: Entry<File, LeaseOp>)
    ensures ActionLog(run + [e]) ==
            ActionLog(run) + (if e.op.OwnedAction? then [(e.op.generation, e.op.unit)] else [])
  {
    assert (run + [e])[..|run|] == run;
  }

  // ----- the log of actions run by `withOwnership` -----

  /** The actions run by verified owners, in the order in which they ran. */
  function ActionLog(run: LeaseRun): seq<(int, UnitId)> {
    if run == [] then []
    else
      var rest := ActionLog(run[..|run| - 1]);
      var op := run[|run| - 1].op;
      if op.OwnedAction? then rest + [(op.generation, op.unit)] else rest
  }

  /** Each logged action ran at a point of the run where the file named its unit and generation. */
  lemma {:induction false} LoggedActionOwned(v: File, run: LeaseRun, n: nat) returns (k: nat)
    requires AtomicRun(LeaseStep, v, run) && n < |ActionLog(run)|
    ensures k < |run| && Owns(At(v, run, k), ActionLog(run)[n].1, ActionLog(run)[n].0)
    ensures |ActionLog(run[..k])| == n
  {
    var shorter := run[..|run| - 1];
    forall m: nat | m < |shorter|
      ensures Linked(LeaseStep, v, shorter, m)
    {
      assert Linked(LeaseStep, v, run, m);
    }
    if n < |ActionLog(shorter)| {
      k := LoggedActionOwned(v, shorter, n);
      assert shorter[..k] == run[..k] && At(v, shorter, k) == At(v, run, k);
    } else {
      k := |run| - 1;
      assert Linked(LeaseStep, v, run, k);
    }
  }

  lemma {:induction false} LogGrows(run: LeaseRun, i: nat, j: nat)
    requires i <= j <= |run|
    ensures |ActionLog(run[..i])| <= |ActionLog(run[..j])|
    decreases j - i
  {
    if i < j {
      assert run[..j][..j - 1] == run[..j - 1];
      LogGrows(run, i, j - 1);
    }
  }

  /** The log is fenced: generations never decrease along it, and each has exactly one acting unit. */
  lemma ActionLogIsFenced(v: File, run: LeaseRun, m: nat, n: nat)
    requires AtomicRun(LeaseStep, v, run) && m < n < |ActionLog(run)|
    ensures ActionLog(run)[m].0 <= ActionLog(run)[n].0
    ensures ActionLog(run)[m].0 == ActionLog(run)[n].0 ==> ActionLog(run)[m].1 == ActionLog(run)[n].1
  {
    var i := LoggedActionOwned(v, run, m);
    var j := LoggedActionOwned(v, run, n);
    if j < i {
      LogGrows(run, j, i);
    }
    RankGrows(v, run, i, j);
  }

  // ----- end to end: every interleaving of the lock-wrapped transitions -----

  type LeaseWorld = World<File, LeaseOp>
  type LeaseEvents = seq<Event<File, LeaseOp>>

  /** Two moments of one run, at the granularity of single file-system calls: the lease file is whole at
      both, its generation has not gone down, and one generation has not named two holders. */
  lemma LeaseFileIsFenced(v: File, w: LeaseWorld, es: LeaseEvents, more: LeaseEvents)
    requires WorldInit(v, w)
    requires IsWorldRun(LeaseStep, w, es) && NoMisCaptureRun(LeaseStep, w, es)
    requires var x := ExecWorld(LeaseStep, w, es);
             IsWorldRun(LeaseStep, x, more) && NoMisCaptureRun(LeaseStep, x, more)
    ensures var x := ExecWorld(LeaseStep, w, es);
            var y := ExecWorld(LeaseStep, x, more);
            && x.file.Whole? && y.file.Whole?
            && (x.file == y.file || Rank(x.file.value) < Rank(y.file.value))
            && Current(x.file.value).generation <= Current(y.file.value).generation
            && (forall one, other, g ::
                  Owns(x.file.value, one, g) && Owns(y.file.value, other, g) ==> one == other)
  {
    InitEstablishesWorldInv(LeaseStep, v, w);
    LockedWritesAreAtomic(LeaseStep, v, w, es);
    var x := ExecWorld(LeaseStep, w, es);
    LockedWritesAreAtomic(LeaseStep, v, x, more);
    var y := ExecWorld(LeaseStep, x, more);
    var k := |x.journal|;
    assert At(v, y.journal, k) == At(v, x.journal, k);
    RankGrows(v, y.journal, k, |y.journal|);
  }

  /** Three moments of one run: a unit that verifies at the first and is refused as stale at the second is
      refused at the third too, whatever becomes of the endpoint record in between. */
  lemma StaleStaysStale(v: File, w: LeaseWorld, es: LeaseEvents, more: LeaseEvents, rest: LeaseEvents,
                        unit: UnitId, g: int, endpoints: (bool, bool, bool))
    requires WorldInit(v, w)
    requires IsWorldRun(LeaseStep, w, es) && NoMisCaptureRun(LeaseStep, w, es)
    requires var x := ExecWorld(LeaseStep, w, es);
             && IsWorldRun(LeaseStep, x, more) && NoMisCaptureRun(LeaseStep, x, more)
             && x.file.Whole? && VerifyOwnership(x.file.value, endpoints.0, unit, g) == None
             && var y := ExecWorld(LeaseStep, x, more);
                && IsWorldRun(LeaseStep, y, rest) && NoMisCaptureRun(LeaseStep, y, rest)
                && y.file.Whole? && VerifyOwnership(y.file.value, endpoints.1, unit, g) == Some(Stale)
    ensures var z := ExecWorld(LeaseStep, ExecWorld(LeaseStep, ExecWorld(LeaseStep, w, es), more), rest);
            z.file.Whole? && VerifyOwnership(z.file.value, endpoints.2, unit, g).Some?
  {
    InitEstablishesWorldInv(LeaseStep, v, w);
    LockedWritesAreAtomic(LeaseStep, v, w, es);
    var x := ExecWorld(LeaseStep, w, es);
    LockedWritesAreAtomic(LeaseStep, v, x, more);
    var y := ExecWorld(LeaseStep, x, more);
    LockedWritesAreAtomic(LeaseStep, v, y, rest);
    var run := ExecWorld(LeaseStep, y, rest).journal;
    assert At(v, run, |x.journal|) == At(v, y.journal, |x.journal|) == At(v, x.journal, |x.journal|);
    assert At(v, run, |y.journal|) == At(v, y.journal, |y.journal|);
    StaleForever(v, run, |x.journal|, |y.journal|, |run|, unit, g, endpoints);
  }

  /** The log of actions run under `withOwnership` in any such run, whatever the clocks read. */
  lemma ActionsAreFenced(v: File, w: LeaseWorld, es: LeaseEvents)
    requires WorldInit(v, w)
    requires IsWorldRun(LeaseStep, w, es) && NoMisCaptureRun(LeaseStep, w, es)
    ensures var log := ActionLog(ExecWorld(LeaseStep, w, es).journal);
            forall m, n :: 0 <= m < n < |log| ==>
              log[m].0 <= log[n].0 && (log[m].0 == log[n].0 ==> log[m].1 == log[n].1)
  {
    InitEstablishesWorldInv(LeaseStep, v, w);
    LockedWritesAreAtomic(LeaseStep, v, w, es);
    var run := ExecWorld(LeaseStep, w, es).journal;
    forall m, n | 0 <= m < n < |ActionLog(run)|
      ensures ActionLog(run)[m].0 <= ActionLog(run)[n].0
      ensures ActionLog(run)[m].0 == ActionLog(run)[n].0 ==> ActionLog(run)[m].1 == ActionLog(run)[n].1
    {
      ActionLogIsFenced(v, run, m, n);
    }
  }
}
