/**
 A read-decide-write of one file under the lock: the shape of `transition` in `service.ts`, of
 the presence pointer in `identity.ts` and of `withOwnership`.

 The world adds to `LockProtocol.Lock` one file that only lock holders write, each process's
 temporary file, and what each process knows inside its critical section. A write is the
 three calls of `writeFileAtomic`: open the temporary file, fill it, rename it into place.
 `R(v, op, w)` says that operation `op`, decided on content `v`, leaves content `w`.

 The journal records every operation in the order in which it took effect. The main result is
 that the journal is a run of atomic operations on the file, whatever the interleaving.
 */
module LockedSection {
  import opened Prelude
  import opened LockProtocol

  datatype Section<V, Op> =
    | Outside
    | Entered
    | Loaded(seen: V)
    | Opened(seen: V, op: Op, next: V)
    | Filled(seen: V, op: Op, next: V)

  datatype Entry<V, Op> = Entry(before: V, op: Op, after: V)

  datatype World<V, Op> = World(
    lock: Lock,
    file: Content<V>,
    tmps: seq<Option<Content<V>>>,
    sections: seq<Section<V, Op>>,
    journal: seq<Entry<V, Op>>)

  datatype Event<V, Op> =
    | LockCall(a: Action)
    | Load(i: Pid)
    | Act(i: Pid, op: Op)               // an operation that leaves the file as it is
    | OpenTmp(i: Pid, op: Op, next: V)
    | FillTmp(i: Pid)
    | Rename(i: Pid)

  predicate InSection<V, Op>(w: World<V, Op>, i: Pid) {
    && i < |w.lock.procs| == |w.sections| == |w.tmps|
    && w.lock.procs[i].alive && w.lock.procs[i].pc.Held?
  }

  predicate EventEnabled<V(==), Op>(R: (V, Op, V) -> bool, w: World<V, Op>, e: Event<V, Op>) {
    match e
    case LockCall(a) => Enabled(w.lock, a) && |w.sections| == |w.lock.procs|
    case Load(i) => InSection(w, i) && !w.sections[i].Outside? && w.file.Whole?
    case Act(i, op) => InSection(w, i) && w.sections[i].Loaded? && R(w.sections[i].seen, op, w.sections[i].seen)
    case OpenTmp(i, op, next) => InSection(w, i) && w.sections[i].Loaded? && R(w.sections[i].seen, op, next)
    case FillTmp(i) => InSection(w, i) && w.sections[i].Opened?
    case Rename(i) => InSection(w, i) && w.sections[i].Filled? && w.tmps[i].Some?
  }

  /** The lock is taken when holder.json is written, and given up when the release starts. */
  function SectionAfter<V, Op>(lock: Lock, a: Action, section: Section<V, Op>): Section<V, Op>
    requires Enabled(lock, a)
  {
    if a.WriteHolder? && lock.path.Some? then Entered
    else if a.Unlink? then Outside
    else section
  }

  function EventNext<V(==), Op>(R: (V, Op, V) -> bool, w: World<V, Op>, e: Event<V, Op>): World<V, Op>
    requires EventEnabled(R, w, e)
  {
    match e
    case LockCall(a) =>
      w.(lock := Next(w.lock, a),
         sections := w.sections[a.i := SectionAfter(w.lock, a, w.sections[a.i])])
    case Load(i) => w.(sections := w.sections[i := Loaded(w.file.value)])
    case Act(i, op) =>
      var v := w.sections[i].seen;
      w.(journal := w.journal + [Entry(v, op, v)])
    case OpenTmp(i, op, next) =>
      w.(tmps := w.tmps[i := Some(Torn)], sections := w.sections[i := Opened(w.sections[i].seen, op, next)])
    case FillTmp(i) =>
      var s := w.sections[i];
      w.(tmps := w.tmps[i := Some(Whole(s.next))], sections := w.sections[i := Filled(s.seen, s.op, s.next)])
    case Rename(i) =>
      var s := w.sections[i];
      w.(file := w.tmps[i].value,
         tmps := w.tmps[i := None],
         sections := w.sections[i := Loaded(s.next)],
         journal := w.journal + [Entry(s.seen, s.op, s.next)])
  }

  predicate IsWorldRun<V(==), Op>(R: (V, Op, V) -> bool, w: World<V, Op>, es: seq<Event<V, Op>>)
    decreases |es|
  {
    es == [] || (EventEnabled(R, w, es[0]) && IsWorldRun(R, EventNext(R, w, es[0]), es[1..]))
  }

  function ExecWorld<V(==), Op>(R: (V, Op, V) -> bool, w: World<V, Op>, es: seq<Event<V, Op>>): World<V, Op>
    requires IsWorldRun(R, w, es)
    decreases |es|
  {
    if es == [] then w else ExecWorld(R, EventNext(R, w, es[0]), es[1..])
  }

  predicate EventNoMisCapture<V, Op>(w: World<V, Op>, e: Event<V, Op>) {
    e.LockCall? && Enabled(w.lock, e.a) ==> NoMisCapture(w.lock, e.a)
  }

  predicate NoMisCaptureRun<V(==), Op>(R: (V, Op, V) -> bool, w: World<V, Op>, es: seq<Event<V, Op>>)
    requires IsWorldRun(R, w, es)
    decreases |es|
  {
    es == [] || (EventNoMisCapture(w, es[0]) && NoMisCaptureRun(R, EventNext(R, w, es[0]), es[1..]))
  }

  // ----- runs of atomic operations -----

  /** The content after the first `k` operations of a run that starts from `v`. */
  function At<V, Op>(v: V, run: seq<Entry<V, Op>>, k: nat): V
    requires k <= |run|
  {
    if k == 0 then v else run[k - 1].after
  }

  /** Operation `k` takes effect on exactly what the one before it left. */
  ghost predicate Linked<V, Op>(R: (V, Op, V) -> bool, v: V, run: seq<Entry<V, Op>>, k: nat)
    requires k < |run|
  {
    run[k].before == At(v, run, k) && R(run[k].before, run[k].op, run[k].after)
  }

  ghost predicate AtomicRun<V, Op>(R: (V, Op, V) -> bool, v: V, run: seq<Entry<V, Op>>) {
    forall k: nat :: k < |run| ==> Linked(R, v, run, k)
  }

  lemma AtomicRunExtends<V, Op>(R: (V, Op, V) -> bool, v: V, run: seq<Entry<V, Op>>, e: Entry<V, Op>)
    requires AtomicRun(R, v, run)
    requires e.before == At(v, run, |run|) && R(e.before, e.op, e.after)
    ensures AtomicRun(R, v, run + [e]) && At(v, run + [e], |run| + 1) == e.after
    ensures forall k :: 0 <= k <= |run| ==> At(v, run + [e], k) == At(v, run, k)
  {
    var run' := run + [e];
    forall k: nat | k < |run'|
      ensures Linked(R, v, run', k)
    {
      assert k < |run| ==> run'[k] == run[k] && Linked(R, v, run, k);
    }
  }

  /** What is left of an atomic run after its first `i` operations is one, from what they left. */
  lemma AtomicRunTail<V, Op>(R: (V, Op, V) -> bool, v: V, run: seq<Entry<V, Op>>, i: nat, tail: seq<Entry<V, Op>>)
    requires AtomicRun(R, v, run) && i <= |run| && tail == run[i..]
    ensures AtomicRun(R, At(v, run, i), tail)
    ensures At(At(v, run, i), tail, |tail|) == At(v, run, |run|)
  {
    forall k: nat | k < |tail|
      ensures Linked(R, At(v, run, i), tail, k)
    {
      assert Linked(R, v, run, i + k) && tail[k] == run[i + k];
    }
  }

  // ----- the invariant -----

  /** What a live process knows in its critical section is what the file holds. */
  ghost predicate SectionInv<V, Op>(R: (V, Op, V) -> bool, w: World<V, Op>, i: Pid)
    requires i < |w.lock.procs| == |w.sections| == |w.tmps|
  {
    var s := w.sections[i];
    && (!s.Outside? ==> w.lock.procs[i].pc.Held?)
    && (s.Loaded? || s.Opened? || s.Filled? ==> w.file == Whole(s.seen))
    && (s.Opened? || s.Filled? ==> R(s.seen, s.op, s.next))
    && (s.Filled? ==> w.tmps[i] == Some(Whole(s.next)))
  }

  ghost predicate WorldInv<V, Op>(R: (V, Op, V) -> bool, v: V, w: World<V, Op>) {
    && Inv(w.lock)
    && |w.lock.procs| == |w.sections| == |w.tmps|
    && (forall i :: 0 <= i < |w.lock.procs| && w.lock.procs[i].alive ==> SectionInv(R, w, i))
    && AtomicRun(R, v, w.journal)
    && w.file == Whole(At(v, w.journal, |w.journal|))
  }

  /** No process is inside, and the file holds `v`. */
  ghost predicate WorldInit<V, Op>(v: V, w: World<V, Op>) {
    && Init(w.lock)
    && |w.lock.procs| == |w.sections| == |w.tmps|
    && (forall i :: 0 <= i < |w.sections| ==> w.sections[i].Outside?)
    && w.file == Whole(v) && w.journal == []
  }

  lemma InitEstablishesWorldInv<V, Op>(R: (V, Op, V) -> bool, v: V, w: World<V, Op>)
    requires WorldInit(v, w)
    ensures WorldInv(R, v, w)
  {
    InitEstablishesInv(w.lock);
  }

  lemma {:induction false} LockCallKeepsInv<V, Op>(R: (V, Op, V) -> bool, v: V, w: World<V, Op>, a: Action)
    requires WorldInv(R, v, w) && EventEnabled(R, w, LockCall(a)) && NoMisCapture(w.lock, a)
    ensures WorldInv(R, v, EventNext(R, w, LockCall(a)))
  {
    StepKeepsInv(w.lock, a);
    StepKeepsWellFormed(w.lock, a);
    assert PcInv(w.lock, a.i);
    var w' := EventNext(R, w, LockCall(a));
    forall j | 0 <= j < |w'.lock.procs| && w'.lock.procs[j].alive
      ensures SectionInv(R, w', j)
    {
      assert SectionInv(R, w, j);
    }
  }

  /** At most one live process is inside, so no other one's knowledge goes stale. */
  lemma OnlyOneInside<V, Op>(w: World<V, Op>, i: Pid, j: Pid)
    requires Inv(w.lock) && InSection(w, i) && InSection(w, j)
    ensures i == j
  {
    InvGivesMutualExclusion(w.lock);
    assert LiveCritical(w.lock, i) && LiveCritical(w.lock, j);
  }

  lemma FileEventKeepsInv<V, Op>(R: (V, Op, V) -> bool, v: V, w: World<V, Op>, e: Event<V, Op>)
    requires WorldInv(R, v, w) && EventEnabled(R, w, e) && !e.LockCall?
    ensures WorldInv(R, v, EventNext(R, w, e))
  {
    var w' := EventNext(R, w, e);
    assert SectionInv(R, w, e.i);
    if e.Rename? || e.Act? {
      AtomicRunExtends(R, v, w.journal, w'.journal[|w.journal|]);
    }
    forall j | 0 <= j < |w'.lock.procs| && w'.lock.procs[j].alive
      ensures SectionInv(R, w', j)
    {
      assert SectionInv(R, w, j);
      if j != e.i && !w.sections[j].Outside? {
        OnlyOneInside(w, e.i, j);
      }
    }
  }

  lemma EventKeepsInv<V, Op>(R: (V, Op, V) -> bool, v: V, w: World<V, Op>, e: Event<V, Op>)
    requires WorldInv(R, v, w) && EventEnabled(R, w, e) && EventNoMisCapture(w, e)
    ensures WorldInv(R, v, EventNext(R, w, e))
    ensures w.journal <= EventNext(R, w, e).journal
  {
    if e.LockCall? {
      LockCallKeepsInv(R, v, w, e.a);
    } else {
      FileEventKeepsInv(R, v, w, e);
    }
  }

  /** The main result: in every interleaving of any number of processes, with crashes at any step
      and no mis-captured lock, the operations take effect one after another on the file. The file
      is never torn, and after a crash it holds what the last complete rename left. */
  lemma {:induction false} LockedWritesAreAtomic<V, Op>(
      R: (V, Op, V) -> bool, v: V, w: World<V, Op>, es: seq<Event<V, Op>>)
    requires WorldInv(R, v, w) && IsWorldRun(R, w, es) && NoMisCaptureRun(R, w, es)
    ensures WorldInv(R, v, ExecWorld(R, w, es))
    ensures w.journal <= ExecWorld(R, w, es).journal
    decreases |es|
  {
    if es != [] {
      EventKeepsInv(R, v, w, es[0]);
      LockedWritesAreAtomic(R, v, EventNext(R, w, es[0]), es[1..]);
    }
  }

  /** What an atomic run gains is an atomic run from what its beginning left. */
  lemma GainedRun<V, Op>(R: (V, Op, V) -> bool, v: V, begun: seq<Entry<V, Op>>, run: seq<Entry<V, Op>>,
                         gained: seq<Entry<V, Op>>, from: V)
    requires AtomicRun(R, v, run) && begun <= run && gained == run[|begun|..] && from == At(v, begun, |begun|)
    ensures AtomicRun(R, from, gained) && At(from, gained, |gained|) == At(v, run, |run|)
  {
    assert At(v, run, |begun|) == from;
    AtomicRunTail(R, v, run, |begun|, gained);
  }

  /** The same from any moment of a run on: what the journal gained is a run of atomic operations from what
      the file held then to what it holds now. */
  lemma JournalContinues<V, Op>(R: (V, Op, V) -> bool, v: V, x: World<V, Op>, es: seq<Event<V, Op>>)
    requires WorldInv(R, v, x) && IsWorldRun(R, x, es) && NoMisCaptureRun(R, x, es)
    ensures var y := ExecWorld(R, x, es);
            && x.file.Whole? && x.journal <= y.journal
            && var gained := y.journal[|x.journal|..];
               && AtomicRun(R, x.file.value, gained)
               && y.file == Whole(At(x.file.value, gained, |gained|))
  {
    LockedWritesAreAtomic(R, v, x, es);
    var y := ExecWorld(R, x, es);
    JournalsLink(R, v, x, y, y.journal[|x.journal|..]);
  }

  lemma JournalsLink<V, Op>(R: (V, Op, V) -> bool, v: V, x: World<V, Op>, y: World<V, Op>, gained: seq<Entry<V, Op>>)
    requires WorldInv(R, v, x) && WorldInv(R, v, y) && x.journal <= y.journal && gained == y.journal[|x.journal|..]
    ensures AtomicRun(R, x.file.value, gained) && y.file == Whole(At(x.file.value, gained, |gained|))
  {
    GainedRun(R, v, x.journal, y.journal, gained, x.file.value);
  }
  // ----- a section runs to its end -----

  lemma EventThen<V, Op>(R: (V, Op, V) -> bool, w: World<V, Op>, e: Event<V, Op>, es: seq<Event<V, Op>>)
    requires EventEnabled(R, w, e) && IsWorldRun(R, EventNext(R, w, e), es)
    ensures IsWorldRun(R, w, [e] + es) && ExecWorld(R, w, [e] + es) == ExecWorld(R, EventNext(R, w, e), es)
    ensures NoMisCaptureRun(R, EventNext(R, w, e), es) && EventNoMisCapture(w, e) ==> NoMisCaptureRun(R, w, [e] + es)
  {
    assert ([e] + es)[1..] == es;
  }

  /** Whenever a filled temporary file is renamed, whatever others did meanwhile, the file holds exactly what
      its writer decided, and the journal says so. */
  lemma RenameInstalls<V, Op>(R: (V, Op, V) -> bool, v: V, w: World<V, Op>, i: Pid)
    requires WorldInv(R, v, w) && EventEnabled(R, w, Rename(i))
    ensures var s := w.sections[i];
            var t := EventNext(R, w, Rename(i));
            && t.file == Whole(s.next) && t.journal == w.journal + [Entry(s.seen, s.op, s.next)]
            && t.sections[i] == Loaded(s.next) && t.tmps[i] == None
  {
    assert SectionInv(R, w, i);
  }

  /** A write that is decided lands: it can be opened, filled and renamed, and the file then holds it. */
  lemma WriteLands<V, Op>(R: (V, Op, V) -> bool, v: V, w: World<V, Op>, i: Pid, op: Op, next: V)
    requires WorldInv(R, v, w) && EventEnabled(R, w, OpenTmp(i, op, next))
    ensures var es := [OpenTmp(i, op, next)] + ([FillTmp(i)] + ([Rename(i)] + []));
            && IsWorldRun(R, w, es) && NoMisCaptureRun(R, w, es)
            && var t := ExecWorld(R, w, es);
               && t.lock == w.lock && t.file == Whole(next)
               && t.journal == w.journal + [Entry(w.sections[i].seen, op, next)]
               && t.sections == w.sections[i := Loaded(next)]
  {
    var w1 := EventNext(R, w, OpenTmp(i, op, next));
    var w2 := EventNext(R, w1, FillTmp(i));
    EventThen(R, w2, Rename(i), []);
    EventThen(R, w1, FillTmp(i), [Rename(i)] + []);
    EventThen(R, w, OpenTmp(i, op, next), [FillTmp(i)] + ([Rename(i)] + []));
  }

  /** A process that dies while it writes leaves its temporary file behind, torn or whole, and the file as it
      was, with no operation done. */
  lemma CrashLeavesOldContent<V, Op>(R: (V, Op, V) -> bool, v: V, w: World<V, Op>, i: Pid, op: Op, next: V)
    requires WorldInv(R, v, w) && EventEnabled(R, w, OpenTmp(i, op, next))
    ensures var begun := EventNext(R, w, OpenTmp(i, op, next));
            && EventEnabled(R, begun, FillTmp(i)) && EventEnabled(R, begun, LockCall(Crash(i)))
            && var filled := EventNext(R, begun, FillTmp(i));
               && EventEnabled(R, filled, LockCall(Crash(i)))
               && var (torn, whole) := (EventNext(R, begun, LockCall(Crash(i))),
                                        EventNext(R, filled, LockCall(Crash(i))));
                  && torn.tmps[i] == Some(Torn) && whole.tmps[i] == Some(Whole(next))
                  && w.file.Whole? && torn.file == whole.file == w.file
                  && torn.journal == whole.journal == w.journal
  {
  }

  /** A process that has entered its section can read the file and decide on exactly what it holds. */
  lemma SectionLoads<V, Op>(R: (V, Op, V) -> bool, v: V, w: World<V, Op>, i: Pid)
    requires WorldInv(R, v, w) && InSection(w, i) && !w.sections[i].Outside?
    ensures w.file.Whole? && EventEnabled(R, w, Load(i))
    ensures EventNext(R, w, Load(i)) == w.(sections := w.sections[i := Loaded(w.file.value)])
  {
  }

  /** An operation that leaves the file as it is takes effect too, and is in the journal. */
  lemma ActionRuns<V, Op>(R: (V, Op, V) -> bool, v: V, w: World<V, Op>, i: Pid, op: Op)
    requires WorldInv(R, v, w) && InSection(w, i) && w.sections[i].Loaded?
    requires R(w.sections[i].seen, op, w.sections[i].seen)
    ensures EventEnabled(R, w, Act(i, op))
    ensures var t := EventNext(R, w, Act(i, op));
            t.file == w.file && w.file.Whole? && t.journal == w.journal + [Entry(w.file.value, op, w.file.value)]
  {
    assert SectionInv(R, w, i);
  }

  /** An idle process takes the free lock and is in its section. */
  lemma EntersSection<V, Op>(R: (V, Op, V) -> bool, v: V, w: World<V, Op>, i: Pid)
    returns (es: seq<Event<V, Op>>)
    requires WorldInv(R, v, w) && w.lock.path.None? && i < |w.lock.procs| && w.lock.procs[i] == Proc(true, Idle)
    ensures IsWorldRun(R, w, es) && NoMisCaptureRun(R, w, es)
    ensures var t := ExecWorld(R, w, es);
            && WorldInv(R, v, t) && InSection(t, i) && t.sections == w.sections[i := Entered]
            && t.file == w.file && t.journal == w.journal && |t.lock.procs| == |w.lock.procs|
  {
    var w1 := EventNext(R, w, LockCall(Begin(i)));
    var w2 := EventNext(R, w1, LockCall(Mkdir(i)));
    assert SectionInv(R, w, i);
    EventThen(R, w2, LockCall(WriteHolder(i)), []);
    EventThen(R, w1, LockCall(Mkdir(i)), [LockCall(WriteHolder(i))] + []);
    es := [LockCall(Begin(i))] + ([LockCall(Mkdir(i))] + ([LockCall(WriteHolder(i))] + []));
    EventThen(R, w, LockCall(Begin(i)), [LockCall(Mkdir(i))] + ([LockCall(WriteHolder(i))] + []));
    LockedWritesAreAtomic(R, v, w, es);
  }

  /** A process in its section releases the lock and is outside. */
  lemma LeavesSection<V, Op>(R: (V, Op, V) -> bool, v: V, w: World<V, Op>, i: Pid)
    returns (es: seq<Event<V, Op>>)
    requires WorldInv(R, v, w) && InSection(w, i)
    ensures IsWorldRun(R, w, es) && NoMisCaptureRun(R, w, es)
    ensures var t := ExecWorld(R, w, es);
            && t.lock.path.None? && t.sections == w.sections[i := Outside]
            && |t.lock.procs| == |w.lock.procs| && t.lock.procs[i] == Proc(true, Idle)
            && t.file == w.file && t.journal == w.journal
  {
    assert PcInv(w.lock, i);
    var w1 := EventNext(R, w, LockCall(Unlink(i)));
    EventThen(R, w1, LockCall(Rmdir(i)), []);
    es := [LockCall(Unlink(i))] + ([LockCall(Rmdir(i))] + []);
    EventThen(R, w, LockCall(Unlink(i)), [LockCall(Rmdir(i))] + []);
  }

  lemma {:induction false} WorldRunsCompose<V, Op>(R: (V, Op, V) -> bool, w: World<V, Op>,
                                                       xs: seq<Event<V, Op>>, ys: seq<Event<V, Op>>)
    requires IsWorldRun(R, w, xs) && IsWorldRun(R, ExecWorld(R, w, xs), ys)
    ensures IsWorldRun(R, w, xs + ys) && ExecWorld(R, w, xs + ys) == ExecWorld(R, ExecWorld(R, w, xs), ys)
    ensures NoMisCaptureRun(R, w, xs) && NoMisCaptureRun(R, ExecWorld(R, w, xs), ys) ==> NoMisCaptureRun(R, w, xs + ys)
    decreases |xs|
  {
    if xs == [] {
      assert xs + ys == ys;
    } else {
      assert (xs + ys)[0] == xs[0] && (xs + ys)[1..] == xs[1..] + ys;
      WorldRunsCompose(R, EventNext(R, w, xs[0]), xs[1..], ys);
    }
  }

  /** From inside its section a process can read, write and leave. */
  lemma SectionCompletes<V, Op>(R: (V, Op, V) -> bool, v: V, w: World<V, Op>, i: Pid, op: Op, next: V)
    returns (es: seq<Event<V, Op>>)
    requires WorldInv(R, v, w) && InSection(w, i) && !w.sections[i].Outside?
    requires w.file.Whole? && R(w.file.value, op, next)
    ensures IsWorldRun(R, w, es) && NoMisCaptureRun(R, w, es) && HasRun(w, ExecWorld(R, w, es), i, op, next)
  {
    SectionLoads(R, v, w, i);
    EventKeepsInv(R, v, w, Load(i));
    var w2 := EventNext(R, w, Load(i));
    WriteLands(R, v, w2, i, op, next);
    var write := [OpenTmp(i, op, next)] + ([FillTmp(i)] + ([Rename(i)] + []));
    LockedWritesAreAtomic(R, v, w2, write);
    var leave := LeavesSection(R, v, ExecWorld(R, w2, write), i);
    WorldRunsCompose(R, w2, write, leave);
    EventThen(R, w, Load(i), write + leave);
    es := [Load(i)] + (write + leave);
  }

  /** The file holds `next`, the journal has gained the operation, and the lock is free again. */
  ghost predicate HasRun<V, Op>(w: World<V, Op>, t: World<V, Op>, i: Pid, op: Op, next: V) {
    && w.file.Whole? && t.file == Whole(next) && t.journal == w.journal + [Entry(w.file.value, op, next)]
    && t.lock.path.None? && |t.lock.procs| == |w.lock.procs| && i < |t.lock.procs|
    && t.lock.procs[i] == Proc(true, Idle)
  }

  /** A whole section: any operation that the relation allows on what the file holds can be carried out by an
      idle process at a free lock, from the mkdir to the release. */
  lemma {:induction false} SectionRuns<V, Op>(R: (V, Op, V) -> bool, v: V, w: World<V, Op>, i: Pid, op: Op, next: V)
    requires WorldInv(R, v, w) && w.lock.path.None? && i < |w.lock.procs| && w.lock.procs[i] == Proc(true, Idle)
    requires w.file.Whole? && R(w.file.value, op, next)
    ensures exists es :: IsWorldRun(R, w, es) && NoMisCaptureRun(R, w, es)
                         && HasRun(w, ExecWorld(R, w, es), i, op, next)
  {
    var enter := EntersSection(R, v, w, i);
    var rest := SectionCompletes(R, v, ExecWorld(R, w, enter), i, op, next);
    WorldRunsCompose(R, w, enter, rest);
    assert HasRun(w, ExecWorld(R, w, enter + rest), i, op, next);
  }

  // ----- nobody disturbs a section -----

  function Actor<V, Op>(e: Event<V, Op>): Pid {
    if e.LockCall? then e.a.i else e.i
  }

  predicate ByOthers<V, Op>(i: Pid, es: seq<Event<V, Op>>) {
    forall k :: 0 <= k < |es| ==> Actor(es[k]) != i
  }

  /** Process `i` is where it was, with what it knew and its temporary file, and the file is as it was. */
  predicate Undisturbed<V(==), Op(==)>(w: World<V, Op>, t: World<V, Op>, i: Pid)
    requires InSection(w, i)
  {
    InSection(t, i) && t.sections[i] == w.sections[i] && t.tmps[i] == w.tmps[i]
    && t.file == w.file && t.journal == w.journal
  }

  lemma OtherEventDisturbsNothing<V, Op>(R: (V, Op, V) -> bool, v: V, w: World<V, Op>, i: Pid, e: Event<V, Op>)
    requires WorldInv(R, v, w) && InSection(w, i)
    requires EventEnabled(R, w, e) && EventNoMisCapture(w, e) && Actor(e) != i
    ensures Undisturbed(w, EventNext(R, w, e), i)
  {
    if e.LockCall? {
      StepKeepsWellFormed(w.lock, e.a);
    } else {
      OnlyOneInside(w, e.i, i);
    }
  }

  /** While a process is in its section, whatever the others do, crashes included, changes neither the file
      nor the journal nor what the process knows; so its write still lands. */
  lemma {:induction false} SectionIsUndisturbed<V, Op>(
      R: (V, Op, V) -> bool, v: V, w: World<V, Op>, i: Pid, es: seq<Event<V, Op>>)
    requires WorldInv(R, v, w) && InSection(w, i)
    requires IsWorldRun(R, w, es) && NoMisCaptureRun(R, w, es) && ByOthers(i, es)
    ensures Undisturbed(w, ExecWorld(R, w, es), i)
    decreases |es|
  {
    if es != [] {
      assert Actor(es[0]) != i;
      OtherEventDisturbsNothing(R, v, w, i, es[0]);
      EventKeepsInv(R, v, w, es[0]);
      assert forall k :: 0 <= k < |es[1..]| ==> es[1..][k] == es[k + 1];
      SectionIsUndisturbed(R, v, EventNext(R, w, es[0]), i, es[1..]);
    }
  }
}
