/**
 `startService`: acquire, launch, and bind or release, with any number of calls interleaved with each
 other and with anyone else's transitions. A launch takes far longer than the lock may be held, so
 every call gives the lock up in between.
 */
module StartService {
  import opened Prelude
  import opened Lease
  import opened Fencing
  import opened LockedSection

  /** Where one call of `startService` has got to; `g` is the generation it was granted. */
  datatype Call =
    | Fresh
    | Answered                                            // `resolved`, `starting`, or a refused force
    | Launching(g: nat, token: Token)
    | Launched(g: nat, token: Token, unit: UnitId)
    | LaunchThrew(g: nat, token: Token)
    | Started(g: nat, unit: UnitId)
    | Rejected(g: nat, why: Refusal)                      // the launched unit could not become the owner
    | Abandoned(g: nat, released: bool)                   // the launch error is rethrown
  {
    predicate Pending() {
      Launching? || Launched? || LaunchThrew?
    }
  }

  datatype Starts = Starts(file: File, calls: seq<Call>)

  datatype StartEvent =
    | Contact(i: nat, force: Option<int>, ttl: int, minted: Token, obs: Observation)
    | LaunchReturns(i: nat, unit: UnitId)
    | LaunchThrows(i: nat)
    | BindOwn(i: nat, obs: Observation)
    | ReleaseOwn(i: nat, obs: Observation)
    | ReleaseLost(i: nat)                                 // the release itself failed; its error is swallowed
    | Elsewhere(q: Request, obs: Observation)             // a transition by anyone else

  predicate Ready(s: Starts, e: StartEvent) {
    match e
    case Contact(i, _, _, _, _) => i < |s.calls| && s.calls[i].Fresh?
    case LaunchReturns(i, _) => i < |s.calls| && s.calls[i].Launching?
    case LaunchThrows(i) => i < |s.calls| && s.calls[i].Launching?
    case BindOwn(i, _) => i < |s.calls| && s.calls[i].Launched?
    case ReleaseOwn(i, _) => i < |s.calls| && s.calls[i].LaunchThrew?
    case ReleaseLost(i) => i < |s.calls| && s.calls[i].LaunchThrew?
    case Elsewhere(_, _) => true
  }

  function After(s: Starts, e: StartEvent): Starts
    requires Ready(s, e)
  {
    match e
    case Contact(i, force, ttl, minted, obs) =>
      var (file, answer) := Apply(s.file, Acquire(force, ttl, minted), obs);
      Starts(file, s.calls[i := if answer.Granted? then Launching(answer.generation, answer.token) else Answered])
    case LaunchReturns(i, unit) => s.(calls := s.calls[i := Launched(s.calls[i].g, s.calls[i].token, unit)])
    case LaunchThrows(i) => s.(calls := s.calls[i := LaunchThrew(s.calls[i].g, s.calls[i].token)])
    case BindOwn(i, obs) =>
      var c := s.calls[i];
      var (file, answer) := Apply(s.file, Bind(c.g, c.token, c.unit), obs);
      Starts(file, s.calls[i := if answer.Refused? then Rejected(c.g, answer.why) else Started(c.g, c.unit)])
    case ReleaseOwn(i, obs) =>
      var c := s.calls[i];
      var (file, answer) := Apply(s.file, Release(c.g, Some(c.token), None), obs);
      Starts(file, s.calls[i := Abandoned(c.g, obs.endpoint)])
    case ReleaseLost(i) => s.(calls := s.calls[i := Abandoned(s.calls[i].g, false)])
    case Elsewhere(q, obs) => s.(file := Apply(s.file, q, obs).0)
  }

  predicate IsStartRun(s: Starts, es: seq<StartEvent>)
    decreases |es|
  {
    es == [] || (Ready(s, es[0]) && IsStartRun(After(s, es[0]), es[1..]))
  }

  function ExecStarts(s: Starts, es: seq<StartEvent>): Starts
    requires IsStartRun(s, es)
    decreases |es|
  {
    if es == [] then s else ExecStarts(After(s, es[0]), es[1..])
  }

  predicate Granted(c: Call) {
    !c.Fresh? && !c.Answered?
  }

  /** The lease still waits for the start that was granted generation `g`. */
  predicate StillReserved(file: File, g: nat) {
    Current(file).generation == g && Current(file).state.Reserved?
  }

  predicate CallInv(s: Starts, i: nat)
    requires i < |s.calls|
  {
    var c := s.calls[i];
    Granted(c) ==>
      && c.g <= Current(s.file).generation
      && (c.Pending() && StillReserved(s.file, c.g) ==> Current(s.file).state.token == c.token)
      && (c.Abandoned? && c.released ==> !StillReserved(s.file, c.g))
      && (c.Started? ==> !StillReserved(s.file, c.g))
  }

  ghost predicate StartsInv(s: Starts) {
    && (forall i :: 0 <= i < |s.calls| ==> CallInv(s, i))
    && (forall i, j :: 0 <= i < j < |s.calls| && Granted(s.calls[i]) && Granted(s.calls[j]) ==>
          s.calls[i].g != s.calls[j].g)
  }

  /** A transition by someone else never brings a reservation back. */
  lemma ReservationNeverReturns(file: File, q: Request, obs: Observation, g: nat)
    requires g <= Current(file).generation
    ensures var after := Apply(file, q, obs).0;
            && g <= Current(file).generation <= Current(after).generation
            && (StillReserved(after, g) ==> StillReserved(file, g) && after == file)
  {
    StepRaisesRank(file, Transition(q, obs), Apply(file, q, obs).0);
  }

  lemma EventKeepsCalls(s: Starts, e: StartEvent)
    requires StartsInv(s) && Ready(s, e)
    ensures StartsInv(After(s, e))
  {
    var t := After(s, e);
    forall k | 0 <= k < |t.calls|
      ensures CallInv(t, k)
    {
      assert CallInv(s, k);
      if Granted(s.calls[k]) {
        match e
        case Contact(_, force, ttl, minted, obs) =>
          ReservationNeverReturns(s.file, Acquire(force, ttl, minted), obs, s.calls[k].g);
        case BindOwn(i, obs) =>
          ReservationNeverReturns(s.file, Bind(s.calls[i].g, s.calls[i].token, s.calls[i].unit), obs, s.calls[k].g);
        case ReleaseOwn(i, obs) =>
          ReservationNeverReturns(s.file, Release(s.calls[i].g, Some(s.calls[i].token), None), obs, s.calls[k].g);
        case Elsewhere(q, obs) => ReservationNeverReturns(s.file, q, obs, s.calls[k].g);
        case _ =>
      }
    }
    forall i, j | 0 <= i < j < |t.calls| && Granted(t.calls[i]) && Granted(t.calls[j])
      ensures t.calls[i].g != t.calls[j].g
    {
      assert CallInv(s, i) && CallInv(s, j);
    }
  }

  lemma {:induction false} RunKeepsCalls(s: Starts, es: seq<StartEvent>)
    requires StartsInv(s) && IsStartRun(s, es)
    ensures StartsInv(ExecStarts(s, es))
    ensures |ExecStarts(s, es).calls| == |s.calls|
    decreases |es|
  {
    if es != [] {
      EventKeepsCalls(s, es[0]);
      RunKeepsCalls(After(s, es[0]), es[1..]);
    }
  }

  /** Calls start fresh, whatever the lease file holds. */
  predicate StartsInit(s: Starts) {
    forall i :: 0 <= i < |s.calls| ==> s.calls[i].Fresh?
  }

  /** Every launch runs under a generation of its own, so at most one call per generation reports
      `started`; and an abandoned start whose release was not itself lost is no longer reserved. */
  lemma LaunchesAreDistinct(s: Starts, es: seq<StartEvent>, i: nat, j: nat)
    requires StartsInit(s) && IsStartRun(s, es) && i < |s.calls| && j < |s.calls|
    ensures var t := ExecStarts(s, es);
            && |t.calls| == |s.calls|
            && (Granted(t.calls[i]) && Granted(t.calls[j]) && t.calls[i].g == t.calls[j].g ==> i == j)
            && (t.calls[i].Started? && t.calls[j].Started? && t.calls[i].g == t.calls[j].g ==> i == j)
            && (t.calls[i].Abandoned? && t.calls[i].released ==> !StillReserved(t.file, t.calls[i].g))
  {
    RunKeepsCalls(s, es);
    var t := ExecStarts(s, es);
    assert CallInv(t, i);
  }

  /** A call reports `started` exactly when its bind made its unit the owner at its own generation. */
  lemma StartedMeansOwner(s: Starts, i: nat, obs: Observation)
    requires Ready(s, BindOwn(i, obs))
    ensures var t := After(s, BindOwn(i, obs));
            t.calls[i].Started? <==>
              (t.file != s.file && Owns(t.file, s.calls[i].unit, s.calls[i].g))
    ensures var t := After(s, BindOwn(i, obs));
            t.calls[i].Rejected? ==> t.file == s.file
  {
  }

  /** The service's lease is the reservation this call was granted. */
  predicate HoldsReservation(s: Starts, i: nat) {
    && i < |s.calls| && s.calls[i].Pending()
    && s.file.Some? && s.file.value.generation == s.calls[i].g
    && s.file.value.state.Reserved? && s.file.value.state.token == s.calls[i].token
  }

  /** What becomes of a call at each of its turns: it launches exactly when its acquire takes over, a launched
      unit becomes the owner exactly when it is live and the reservation is still the call's, and a failed
      launch gives up exactly its own reservation. */
  lemma CallTurns(s: Starts, i: nat, force: Option<int>, ttl: int, minted: Token, obs: Observation)
    ensures Ready(s, Contact(i, force, ttl, minted, obs)) ==>
              var t := After(s, Contact(i, force, ttl, minted, obs));
              && (t.calls[i].Launching? <==> Ends(Current(s.file), Acquire(force, ttl, minted), obs))
              && (t.calls[i].Launching? ==> HoldsReservation(t, i) && t.calls[i].token == minted)
              && (!t.calls[i].Launching? ==> t.file == s.file)
    ensures Ready(s, BindOwn(i, obs)) ==>
              var t := After(s, BindOwn(i, obs));
              && (t.calls[i].Started? <==> HoldsReservation(s, i) && obs.endpoint && LiveUnit(obs, s.calls[i].unit))
              && (t.calls[i].Started? ==> t.file == Some(Lease(s.calls[i].g, Active(s.calls[i].unit))))
    ensures Ready(s, ReleaseOwn(i, obs)) ==>
              var t := After(s, ReleaseOwn(i, obs));
              && t.calls[i].Abandoned?
              && t.file == if HoldsReservation(s, i) && obs.endpoint then Some(Lease(s.calls[i].g, Vacant)) else s.file
  {
  }

  lemma StartThen(s: Starts, e: StartEvent, es: seq<StartEvent>)
    requires Ready(s, e) && IsStartRun(After(s, e), es)
    ensures IsStartRun(s, [e] + es) && ExecStarts(s, [e] + es) == ExecStarts(After(s, e), es)
  {
    assert ([e] + es)[1..] == es;
  }

  /** A start nobody interferes with succeeds: from a lease that its acquire may take over, with a launch that
      brings up a live unit, the call reports `started` and the unit is the owner. */
  lemma UncontestedStartSucceeds(s: Starts, i: nat, force: Option<int>, ttl: int, minted: Token, unit: UnitId,
                                 atAcquire: Observation, atBind: Observation)
    requires i < |s.calls| && s.calls[i].Fresh? && Ends(Current(s.file), Acquire(force, ttl, minted), atAcquire)
    requires atBind.endpoint && LiveUnit(atBind, unit)
    ensures var es := [Contact(i, force, ttl, minted, atAcquire)]
                      + ([LaunchReturns(i, unit)] + ([BindOwn(i, atBind)] + []));
            && IsStartRun(s, es)
            && var t := ExecStarts(s, es);
               && t.calls == s.calls[i := Started(Current(s.file).generation + 1, unit)]
               && t.file == Some(Lease(Current(s.file).generation + 1, Active(unit)))
  {
    var s1 := After(s, Contact(i, force, ttl, minted, atAcquire));
    CallTurns(s, i, force, ttl, minted, atAcquire);
    var s2 := After(s1, LaunchReturns(i, unit));
    CallTurns(s2, i, force, ttl, minted, atBind);
    StartThen(s2, BindOwn(i, atBind), []);
    StartThen(s1, LaunchReturns(i, unit), [BindOwn(i, atBind)] + []);
    StartThen(s, Contact(i, force, ttl, minted, atAcquire), [LaunchReturns(i, unit)] + ([BindOwn(i, atBind)] + []));
  }

  /** And one whose launch fails leaves the service vacant, to be started again at once. */
  lemma FailedStartIsRetryable(s: Starts, i: nat, force: Option<int>, ttl: int, minted: Token,
                               atAcquire: Observation, atRelease: Observation)
    requires i < |s.calls| && s.calls[i].Fresh? && Ends(Current(s.file), Acquire(force, ttl, minted), atAcquire)
    requires atRelease.endpoint
    ensures var es := [Contact(i, force, ttl, minted, atAcquire)]
                      + ([LaunchThrows(i)] + ([ReleaseOwn(i, atRelease)] + []));
            && IsStartRun(s, es)
            && var t := ExecStarts(s, es);
               && |t.calls| == |s.calls| && t.calls[i].Abandoned?
               && t.file == Some(Lease(Current(s.file).generation + 1, Vacant))
               && forall ttl2: int, minted2: Token, obs2: Observation ::
                    Apply(t.file, Acquire(None, ttl2, minted2), obs2).1.Granted?
  {
    var s1 := After(s, Contact(i, force, ttl, minted, atAcquire));
    CallTurns(s, i, force, ttl, minted, atAcquire);
    var s2 := After(s1, LaunchThrows(i));
    CallTurns(s2, i, force, ttl, minted, atRelease);
    StartThen(s2, ReleaseOwn(i, atRelease), []);
    StartThen(s1, LaunchThrows(i), [ReleaseOwn(i, atRelease)] + []);
    StartThen(s, Contact(i, force, ttl, minted, atAcquire), [LaunchThrows(i)] + ([ReleaseOwn(i, atRelease)] + []));
  }

  /** Someone else has moved the service on past the generation this call was granted. */
  predicate Superseded(s: Starts, i: nat) {
    i < |s.calls| && Granted(s.calls[i]) && s.calls[i].g < Current(s.file).generation
  }

  /** Refused as the authority, and not for its unit's sake. */
  predicate RefusedAsStale(c: Call) {
    c.Rejected? ==> c.why.Stale? || c.why.NoService?
  }

  /** Once superseded, a start never succeeds: its own bind is refused as stale, in every run on. */
  lemma {:induction false} SupersededNeverStarts(s: Starts, es: seq<StartEvent>, i: nat)
    requires IsStartRun(s, es) && Superseded(s, i) && !s.calls[i].Started? && RefusedAsStale(s.calls[i])
    ensures var t := ExecStarts(s, es);
            Superseded(t, i) && !t.calls[i].Started? && RefusedAsStale(t.calls[i])
    decreases |es|
  {
    if es != [] {
      var t := After(s, es[0]);
      match es[0] {
        case Contact(_, force, ttl, minted, obs) =>
          StepRaisesRank(s.file, Transition(Acquire(force, ttl, minted), obs), t.file);
        case BindOwn(k, obs) =>
          StepRaisesRank(s.file, Transition(Bind(s.calls[k].g, s.calls[k].token, s.calls[k].unit), obs), t.file);
        case ReleaseOwn(k, obs) =>
          StepRaisesRank(s.file, Transition(Release(s.calls[k].g, Some(s.calls[k].token), None), obs), t.file);
        case Elsewhere(q, obs) => StepRaisesRank(s.file, Transition(q, obs), t.file);
        case _ =>
      }
      SupersededNeverStarts(t, es[1..], i);
    }
  }
  // ----- every interleaving, down to single file-system calls -----

  /** The transition an event makes, if it makes one. */
  function TransitionOf(s: Starts, e: StartEvent): Option<LeaseOp>
    requires Ready(s, e)
  {
    match e
    case Contact(i, force, ttl, minted, obs) => Some(Transition(Acquire(force, ttl, minted), obs))
    case BindOwn(i, obs) => Some(Transition(Bind(s.calls[i].g, s.calls[i].token, s.calls[i].unit), obs))
    case ReleaseOwn(i, obs) => Some(Transition(Release(s.calls[i].g, Some(s.calls[i].token), None), obs))
    case Elsewhere(q, obs) => Some(Transition(q, obs))
    case _ => None
  }

  /** The events make exactly the transitions of the run, in its order; actions of owners in between make
      none. */
  predicate Tells(s: Starts, es: seq<StartEvent>, run: LeaseRun)
    decreases |es| + |run|
  {
    if run != [] && run[0].op.OwnedAction? then Tells(s, es, run[1..])
    else if es == [] then run == []
    else
      && Ready(s, es[0])
      && var op := TransitionOf(s, es[0]);
         if op.None? then Tells(After(s, es[0]), es[1..], run)
         else run != [] && run[0].op == op.value && Tells(After(s, es[0]), es[1..], run[1..])
  }

  lemma TransitionMoves(s: Starts, e: StartEvent, w: File)
    requires Ready(s, e)
    requires TransitionOf(s, e).Some? ==> LeaseStep(s.file, TransitionOf(s, e).value, w)
    ensures TransitionOf(s, e).Some? ==> After(s, e).file == w
    ensures TransitionOf(s, e).None? ==> After(s, e).file == s.file
  {
  }

  /** Told by a run of the lease file, the starts are a run of their own that ends with the same file. */
  lemma {:induction false} ToldStartsRun(s: Starts, es: seq<StartEvent>, run: LeaseRun)
    requires AtomicRun(LeaseStep, s.file, run) && Tells(s, es, run)
    ensures IsStartRun(s, es) && ExecStarts(s, es).file == At(s.file, run, |run|)
    decreases |es| + |run|
  {
    if run != [] && run[0].op.OwnedAction? {
      assert Linked(LeaseStep, s.file, run, 0);
      AtomicRunTail(LeaseStep, s.file, run, 1, run[1..]);
      ToldStartsRun(s, es, run[1..]);
    } else if es != [] {
      var t := After(s, es[0]);
      if TransitionOf(s, es[0]).None? {
        TransitionMoves(s, es[0], s.file);
        ToldStartsRun(t, es[1..], run);
      } else {
        assert Linked(LeaseStep, s.file, run, 0);
        TransitionMoves(s, es[0], run[0].after);
        AtomicRunTail(LeaseStep, s.file, run, 1, run[1..]);
        ToldStartsRun(t, es[1..], run[1..]);
      }
    }
  }

  /** The starts `s` and their events `es` are what the world's processes do on the lease file from `v`. */
  ghost predicate StartsOf(v: File, w: LeaseWorld, events: LeaseEvents, s: Starts, es: seq<StartEvent>) {
    && WorldInit(v, w) && IsWorldRun(LeaseStep, w, events) && NoMisCaptureRun(LeaseStep, w, events)
    && StartsInit(s) && s.file == v
    && Tells(s, es, ExecWorld(LeaseStep, w, events).journal)
  }

  /** Any number of starts in any interleaving of single file-system calls, with crashes and no mis-captured
      lock: the stored lease is whole, every launch runs under a generation of its own, at most one start per
      generation reports `started`, and an abandoned one whose release was not lost is not reserved in it. */
  lemma StoredLaunchesAreDistinct(v: File, w: LeaseWorld, events: LeaseEvents, s: Starts, es: seq<StartEvent>,
                                  i: nat, j: nat)
    requires StartsOf(v, w, events, s, es) && i < |s.calls| && j < |s.calls|
    ensures IsStartRun(s, es)
    ensures var t := ExecStarts(s, es);
            && ExecWorld(LeaseStep, w, events).file == Whole(t.file)
            && |t.calls| == |s.calls|
            && (Granted(t.calls[i]) && Granted(t.calls[j]) && t.calls[i].g == t.calls[j].g ==> i == j)
            && (t.calls[i].Started? && t.calls[j].Started? && t.calls[i].g == t.calls[j].g ==> i == j)
            && (t.calls[i].Abandoned? && t.calls[i].released ==> !StillReserved(t.file, t.calls[i].g))
  {
    InitEstablishesWorldInv(LeaseStep, v, w);
    LockedWritesAreAtomic(LeaseStep, v, w, events);
    ToldStartsRun(s, es, ExecWorld(LeaseStep, w, events).journal);
    LaunchesAreDistinct(s, es, i, j);
  }

  /** Two moments of such a run: a start whose generation the stored lease has passed at the first, and that
      has not become the owner, has not become it at the second, and is refused as stale if it tried. */
  lemma StoredSupersededNeverStarts(v: File, w: LeaseWorld, events: LeaseEvents, later: LeaseEvents, s: Starts,
                                    es: seq<StartEvent>, more: seq<StartEvent>, i: nat)
    requires StartsOf(v, w, events, s, es) && IsStartRun(s, es)
    requires var x := ExecWorld(LeaseStep, w, events);
             && IsWorldRun(LeaseStep, x, later) && NoMisCaptureRun(LeaseStep, x, later)
             && var y := ExecWorld(LeaseStep, x, later);
                |x.journal| <= |y.journal| && Tells(ExecStarts(s, es), more, y.journal[|x.journal|..])
    requires var t := ExecStarts(s, es);
             Superseded(t, i) && !t.calls[i].Started? && RefusedAsStale(t.calls[i])
    ensures IsStartRun(ExecStarts(s, es), more)
    ensures var u := ExecStarts(ExecStarts(s, es), more);
            && ExecWorld(LeaseStep, ExecWorld(LeaseStep, w, events), later).file == Whole(u.file)
            && Superseded(u, i) && !u.calls[i].Started? && RefusedAsStale(u.calls[i])
  {
    InitEstablishesWorldInv(LeaseStep, v, w);
    LockedWritesAreAtomic(LeaseStep, v, w, events);
    var x := ExecWorld(LeaseStep, w, events);
    ToldStartsRun(s, es, x.journal);
    JournalContinues(LeaseStep, v, x, later);
    ToldStartsRun(ExecStarts(s, es), more, ExecWorld(LeaseStep, x, later).journal[|x.journal|..]);
    SupersededNeverStarts(ExecStarts(s, es), more, i);
  }
}
