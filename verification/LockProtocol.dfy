/**
 The advisory lock of `store/lock.ts` at the granularity of single file-system calls.

 Independent processes share one lock path. A process is a program counter; an action is one
 file-system call (or one liveness probe) by one process, or the crash of a process. Lock
 directories carry an identity of their own, because `rename` moves a directory while the
 path it leaves can be created again. No process can see that identity: it appears in a
 program counter only to say which directory a call touched.
 */
module LockProtocol {
  import opened Prelude

  type Pid = nat
  type DirId = nat

  // ----- process-liveness.ts -----

  /** The kernel's answer to signal 0: delivered, no such process, or any other error. */
  datatype KillAnswer = Delivered | NoSuchProcess | OtherError

  datatype Liveness = Alive | Dead | Unknown

  function ProbeProcess(self: Pid, pid: Pid, answer: KillAnswer): (r: Liveness)
    ensures r.Dead? <==> pid != self && answer.NoSuchProcess?
    ensures r.Unknown? ==> pid != self && answer.OtherError?
  {
    if pid == self then Alive
    else match answer
      case Delivered => Alive
      case NoSuchProcess => Dead
      case OtherError => Unknown
  }

  /** The lock's policy: what cannot be ruled out as alive is never stolen from. */
  predicate HeldByLiveOrUnknownPid(self: Pid, pid: Pid, answer: KillAnswer) {
    ProbeProcess(self, pid, answer) != Dead
  }

  // ----- processes and the shared directory -----

  datatype Pc =
    | Idle
    | Trying                                              // about to mkdir the lock path
    | Contending                                          // mkdir said EEXIST: about to read holder.json
    | Probing(seen: DirId, pid: Pid)                      // read a holder: about to probe it
    | Stealing(seen: DirId, pid: Pid)                     // holder read as dead: about to rename the lock away
    | Rereading(pid: Pid, grave: DirId)                   // rename won: about to read the captured holder.json
    | Rechecking(pid: Pid, grave: DirId, captured: Pid)   // about to probe the captured holder
    | Restoring(grave: DirId)                             // captured a holder not known dead: about to rename it back
    | Dropping(grave: DirId, won: bool)                   // about to remove the captured directory
    | Waiting                                             // about to check the deadline, sleep and retry
    | Made(dir: DirId)                                    // mkdir succeeded: about to write holder.json
    | Held(dir: DirId)                                    // in the critical section
    | Releasing(dir: DirId)                               // holder.json removed: about to remove the directory
  {
    /** Between a successful mkdir and the end of the release. */
    predicate Critical() {
      Made? || Held? || Releasing?
    }
  }

  datatype Proc = Proc(alive: bool, pc: Pc)

  /** `path` is the directory at the lock path, `creators[d]` the process whose mkdir made
      directory d, `holders` the pid each readable holder.json records. */
  datatype Lock = Lock(path: Option<DirId>, holders: map<DirId, Pid>, creators: seq<Pid>, procs: seq<Proc>)

  datatype Action =
    | Begin(i: Pid)
    | Mkdir(i: Pid)
    | WriteHolder(i: Pid)
    | ReadHolder(i: Pid)
    | Probe(i: Pid, answer: KillAnswer)
    | Capture(i: Pid)
    | Reread(i: Pid)
    | Recheck(i: Pid, answer: KillAnswer)
    | Restore(i: Pid)
    | Drop(i: Pid)
    | Retry(i: Pid)
    | GiveUp(i: Pid)
    | Unlink(i: Pid)
    | Rmdir(i: Pid)
    | Crash(i: Pid)

  /** The kernel reports "no such process" only of a process that is gone. */
  predicate KernelSound(s: Lock, pid: Pid, answer: KillAnswer) {
    answer.NoSuchProcess? ==> pid < |s.procs| ==> !s.procs[pid].alive
  }

  predicate Enabled(s: Lock, a: Action) {
    && a.i < |s.procs|
    && s.procs[a.i].alive
    && var pc := s.procs[a.i].pc;
       match a
       case Begin(_) => pc.Idle?
       case Mkdir(_) => pc.Trying?
       case WriteHolder(_) => pc.Made?
       case ReadHolder(_) => pc.Contending?
       case Probe(_, answer) => pc.Probing? && KernelSound(s, pc.pid, answer)
       case Capture(_) => pc.Stealing?
       case Reread(_) => pc.Rereading?
       case Recheck(_, answer) =>
         && pc.Rechecking?
         && KernelSound(s, pc.captured, answer)
         // A pid this process already found gone stays gone: pids are not reused.
         && (pc.captured == pc.pid ==> answer.NoSuchProcess?)
       case Restore(_) => pc.Restoring?
       case Drop(_) => pc.Dropping?
       case Retry(_) => pc.Waiting?
       case GiveUp(_) => pc.Waiting?
       case Unlink(_) => pc.Held?
       case Rmdir(_) => pc.Releasing?
       case Crash(_) => true
  }

  function Goto(s: Lock, i: Pid, pc: Pc): Lock
    requires i < |s.procs|
  {
    s.(procs := s.procs[i := s.procs[i].(pc := pc)])
  }

  /** What one call does. Every call works on whatever directory is at the lock path now. */
  function Next(s: Lock, a: Action): Lock
    requires Enabled(s, a)
  {
    var pc := s.procs[a.i].pc;
    match a
    case Begin(i) => Goto(s, i, Trying)
    case Mkdir(i) =>
      if s.path.Some? then Goto(s, i, Contending)
      else Goto(s.(path := Some(|s.creators|), creators := s.creators + [i]), i, Made(|s.creators|))
    case WriteHolder(i) =>
      // With the path gone the write fails with ENOENT and the error leaves `acquireLock`.
      if s.path.None? then Goto(s, i, Idle)
      else Goto(s.(holders := s.holders[s.path.value := i]), i, Held(pc.dir))
    case ReadHolder(i) =>
      if s.path.Some? && s.path.value in s.holders
      then Goto(s, i, Probing(s.path.value, s.holders[s.path.value]))
      else Goto(s, i, Waiting)
    case Probe(i, answer) =>
      if HeldByLiveOrUnknownPid(i, pc.pid, answer) then Goto(s, i, Waiting)
      else Goto(s, i, Stealing(pc.seen, pc.pid))
    case Capture(i) =>
      if s.path.None? then Goto(s, i, Waiting)
      else Goto(s.(path := None), i, Rereading(pc.pid, s.path.value))
    case Reread(i) =>
      if pc.grave in s.holders then Goto(s, i, Rechecking(pc.pid, pc.grave, s.holders[pc.grave]))
      else Goto(s, i, Dropping(pc.grave, true))
    case Recheck(i, answer) =>
      if HeldByLiveOrUnknownPid(i, pc.captured, answer) then Goto(s, i, Restoring(pc.grave))
      else Goto(s, i, Dropping(pc.grave, true))
    case Restore(i) =>
      // Renaming a directory onto an existing one succeeds only when that one is empty.
      if s.path.None? || s.path.value !in s.holders then Goto(s.(path := Some(pc.grave)), i, Waiting)
      else Goto(s, i, Dropping(pc.grave, false))
    case Drop(i) =>
      Goto(s.(holders := s.holders - {pc.grave}), i, if pc.won then Trying else Waiting)
    case Retry(i) => Goto(s, i, Trying)
    case GiveUp(i) => Goto(s, i, Idle)
    case Unlink(i) =>
      if s.path.None? then Goto(s, i, Idle)
      else Goto(s.(holders := s.holders - {s.path.value}), i, Releasing(pc.dir))
    case Rmdir(i) => Goto(s.(path := None), i, Idle)
    case Crash(i) => s.(procs := s.procs[i := s.procs[i].(alive := false)])
  }

  // ----- runs -----

  predicate IsRun(s: Lock, acts: seq<Action>)
    decreases |acts|
  {
    acts == [] || (Enabled(s, acts[0]) && IsRun(Next(s, acts[0]), acts[1..]))
  }

  function Exec(s: Lock, acts: seq<Action>): Lock
    requires IsRun(s, acts)
    decreases |acts|
  {
    if acts == [] then s else Exec(Next(s, acts[0]), acts[1..])
  }

  /** A rename that takes a lock away takes the very directory whose dead holder was read. */
  predicate NoMisCapture(s: Lock, a: Action)
    requires Enabled(s, a)
  {
    a.Capture? && s.path.Some? ==> s.path.value == s.procs[a.i].pc.seen
  }

  predicate NoMisCaptures(s: Lock, acts: seq<Action>)
    requires IsRun(s, acts)
    decreases |acts|
  {
    acts == [] || (NoMisCapture(s, acts[0]) && NoMisCaptures(Next(s, acts[0]), acts[1..]))
  }

  predicate LiveCritical(s: Lock, i: Pid) {
    i < |s.procs| && s.procs[i].alive && s.procs[i].pc.Critical()
  }

  ghost predicate MutualExclusion(s: Lock) {
    forall i, j :: LiveCritical(s, i) && LiveCritical(s, j) ==> i == j
  }

  predicate WellFormed(s: Lock) {
    && (s.path.Some? ==> s.path.value < |s.creators|)
    && (forall d :: d in s.holders ==> d < |s.creators| && s.holders[d] == s.creators[d])
    && (forall d :: 0 <= d < |s.creators| ==> s.creators[d] < |s.procs|)
  }

  /** Every process is outside the lock; what is left at the path was left by a dead process. */
  predicate Init(s: Lock) {
    && WellFormed(s)
    && (forall i :: 0 <= i < |s.procs| ==> s.procs[i].pc.Idle?)
    && (s.path.Some? ==> !s.procs[s.creators[s.path.value]].alive)
  }

  predicate DeadDir(s: Lock, d: DirId, pid: Pid) {
    && d < |s.creators| && s.creators[d] == pid
    && pid < |s.procs| && !s.procs[pid].alive
  }

  /** What each live process's program counter guarantees about the shared directory. */
  predicate PcInv(s: Lock, i: Pid)
    requires WellFormed(s) && i < |s.procs|
  {
    match s.procs[i].pc
    case Made(d) => s.path == Some(d) && s.creators[d] == i
    case Held(d) => s.path == Some(d) && s.creators[d] == i
    case Releasing(d) => s.path == Some(d) && s.creators[d] == i
    case Probing(seen, pid) => seen < |s.creators| && s.creators[seen] == pid
    case Stealing(seen, pid) => DeadDir(s, seen, pid)
    case Rereading(pid, grave) => DeadDir(s, grave, pid)
    case Rechecking(pid, grave, captured) => DeadDir(s, grave, pid) && captured == pid
    case Restoring(_) => false
    case Dropping(grave, _) => grave < |s.creators| && DeadDir(s, grave, s.creators[grave])
    case _ => true
  }

  predicate Inv(s: Lock) {
    && WellFormed(s)
    && (forall i :: 0 <= i < |s.procs| && s.procs[i].alive ==> PcInv(s, i))
  }

  lemma InitEstablishesInv(s: Lock)
    requires Init(s)
    ensures Inv(s)
  {
  }

  /** A step of another process leaves a process's guarantees alone, unless it takes the lock
      path away from a process in its critical section. */
  lemma OtherPcKept(s: Lock, t: Lock, j: Pid)
    requires Inv(s) && WellFormed(t)
    requires j < |s.procs| == |t.procs| && t.procs[j] == s.procs[j] && s.procs[j].alive
    requires s.creators <= t.creators
    requires forall k :: 0 <= k < |s.procs| && !s.procs[k].alive ==> !t.procs[k].alive
    requires t.path == s.path || !s.procs[j].pc.Critical()
    ensures PcInv(t, j)
  {
    assert PcInv(s, j);
  }

  lemma DirectoriesStayNamed(s: Lock, a: Action)
    requires Inv(s) && Enabled(s, a)
    ensures WellFormed(Next(s, a))
  {
    assert PcInv(s, a.i);
  }

  lemma OthersUnchanged(s: Lock, a: Action)
    requires Enabled(s, a)
    ensures |Next(s, a).procs| == |s.procs| && s.creators <= Next(s, a).creators
    ensures forall k :: 0 <= k < |s.procs| && k != a.i ==> Next(s, a).procs[k] == s.procs[k]
  {
  }

  lemma StepKeepsWellFormed(s: Lock, a: Action)
    requires Inv(s) && Enabled(s, a)
    ensures WellFormed(Next(s, a))
    ensures |Next(s, a).procs| == |s.procs| && s.creators <= Next(s, a).creators
    ensures forall k :: 0 <= k < |s.procs| && !s.procs[k].alive ==> !Next(s, a).procs[k].alive
    ensures forall k :: 0 <= k < |s.procs| && k != a.i ==> Next(s, a).procs[k] == s.procs[k]
  {
    DirectoriesStayNamed(s, a);
    OthersUnchanged(s, a);
  }

  lemma OthersStayPut(s: Lock, a: Action)
    requires Enabled(s, a)
    ensures |Next(s, a).procs| == |s.procs|
    ensures forall k :: k != a.i ==> (LiveCritical(Next(s, a), k) <==> LiveCritical(s, k))
  {
  }

  /** Only these calls change which directory is at the lock path. */
  lemma PathChanges(s: Lock, a: Action)
    requires Enabled(s, a)
    ensures Next(s, a).path == s.path || a.Mkdir? || a.Capture? || a.Restore? || a.Rmdir?
  {
  }

  lemma OwnPcKept(s: Lock, a: Action)
    requires Inv(s) && Enabled(s, a) && NoMisCapture(s, a) && !a.Crash?
    ensures WellFormed(Next(s, a)) && PcInv(Next(s, a), a.i)
  {
    StepKeepsWellFormed(s, a);
    assert PcInv(s, a.i);
  }

  lemma {:induction false} StepKeepsInv(s: Lock, a: Action)
    requires Inv(s) && Enabled(s, a) && NoMisCapture(s, a)
    ensures Inv(Next(s, a))
  {
    var t := Next(s, a);
    StepKeepsWellFormed(s, a);
    PathChanges(s, a);
    forall j | 0 <= j < |t.procs| && t.procs[j].alive
      ensures PcInv(t, j)
    {
      if j == a.i {
        OwnPcKept(s, a);
      } else {
        assert PcInv(s, a.i) && PcInv(s, j);
        OtherPcKept(s, t, j);
      }
    }
  }

  /** A live process in its critical section made the directory at the lock path. */
  lemma CriticalOwnsPath(s: Lock, j: Pid)
    requires Inv(s)
    ensures LiveCritical(s, j) ==> s.path.Some? && s.path.value < |s.creators| && s.creators[s.path.value] == j
  {
    assert j < |s.procs| && s.procs[j].alive ==> PcInv(s, j);
  }

  lemma InvGivesMutualExclusion(s: Lock)
    requires Inv(s)
    ensures MutualExclusion(s)
  {
    forall i, j | LiveCritical(s, i) && LiveCritical(s, j)
      ensures i == j
    {
      CriticalOwnsPath(s, i);
      CriticalOwnsPath(s, j);
    }
  }

  /** Mutual exclusion over every run, with crashes at any step, in which no rename captured a
      directory other than the one whose dead holder was read. */
  lemma {:induction false} RunKeepsInv(s: Lock, acts: seq<Action>)
    requires Inv(s) && IsRun(s, acts) && NoMisCaptures(s, acts)
    ensures Inv(Exec(s, acts)) && MutualExclusion(Exec(s, acts))
    decreases |acts|
  {
    if acts == [] {
      InvGivesMutualExclusion(s);
    } else {
      StepKeepsInv(s, acts[0]);
      RunKeepsInv(Next(s, acts[0]), acts[1..]);
    }
  }

  // ----- crash-free runs -----

  predicate CrashFree(acts: seq<Action>) {
    forall k :: 0 <= k < |acts| ==> !acts[k].Crash?
  }

  predicate AllAlive(s: Lock) {
    forall i :: 0 <= i < |s.procs| ==> s.procs[i].alive
  }

  /** With no crash nothing is ever reclaimed, so mutual exclusion needs no hypothesis on captures. */
  lemma {:induction false} CrashFreeRunsNeverReclaim(s: Lock, acts: seq<Action>)
    requires Inv(s) && AllAlive(s) && IsRun(s, acts) && CrashFree(acts)
    ensures forall k :: 0 <= k < |acts| ==> !acts[k].Capture?
    ensures MutualExclusion(Exec(s, acts))
    decreases |acts|
  {
    if acts == [] {
      InvGivesMutualExclusion(s);
    } else {
      assert PcInv(s, acts[0].i);
      StepKeepsInv(s, acts[0]);
      StepKeepsWellFormed(s, acts[0]);
      assert forall k :: 0 <= k < |acts[1..]| ==> acts[1..][k] == acts[k + 1];
      assert AllAlive(Next(s, acts[0]));
      CrashFreeRunsNeverReclaim(Next(s, acts[0]), acts[1..]);
      forall k | 0 <= k < |acts|
        ensures !acts[k].Capture?
      {
        if k > 0 {
          assert acts[k] == acts[1..][k - 1];
        }
      }
    }
  }

  // ----- why the hypothesis is needed, and that it is no stronger than needed -----

  /** The directory at the lock path is the lock of a live process in its critical section. */
  predicate LiveLock(s: Lock, d: DirId) {
    d < |s.creators| && LiveCritical(s, s.creators[d])
  }

  /** From any state the protocol can be in, when one process is about to rename the lock away
      and another is about to mkdir it, the two calls keep mutual exclusion exactly when the
      rename finds nothing, or the directory that was read, or a lock no live process is in. */
  lemma CaptureIsSafeIff(s: Lock, i: Pid, k: Pid)
    requires Inv(s) && i != k
    requires Enabled(s, Capture(i)) && Enabled(s, Mkdir(k))
    ensures Enabled(Next(s, Capture(i)), Mkdir(k))
    ensures MutualExclusion(Next(Next(s, Capture(i)), Mkdir(k))) <==>
            (s.path.None? || s.path.value == s.procs[i].pc.seen || !LiveLock(s, s.path.value))
  {
    var t := Next(s, Capture(i));
    var u := Next(t, Mkdir(k));
    assert PcInv(s, i);
    assert u.path == Some(|s.creators|) && LiveCritical(u, k);
    forall j | LiveCritical(s, j)
      ensures j != i && j != k && LiveCritical(u, j) && s.path.Some? && s.creators[s.path.value] == j
    {
      assert PcInv(s, j);
    }
    assert forall j :: LiveCritical(u, j) ==> j == k || LiveCritical(s, j);
  }

  lemma {:induction false} RunsCompose(s: Lock, xs: seq<Action>, ys: seq<Action>)
    requires IsRun(s, xs) && IsRun(Exec(s, xs), ys)
    ensures IsRun(s, xs + ys) && Exec(s, xs + ys) == Exec(Exec(s, xs), ys)
    decreases |xs|
  {
    if xs == [] {
      assert xs + ys == ys;
    } else {
      assert (xs + ys)[0] == xs[0] && (xs + ys)[1..] == xs[1..] + ys;
      RunsCompose(Next(s, xs[0]), xs[1..], ys);
    }
  }

  lemma RunStep(s: Lock, a: Action, acts: seq<Action>)
    requires Enabled(s, a) && IsRun(Next(s, a), acts)
    ensures IsRun(s, [a] + acts) && Exec(s, [a] + acts) == Exec(Next(s, a), acts)
  {
    assert ([a] + acts)[1..] == acts;
  }

  /** No action starts another call of `acquireLock`. */
  predicate SameCall(acts: seq<Action>) {
    forall k :: 0 <= k < |acts| ==> !acts[k].Begin?
  }

  /** An idle process that finds a dead holder's lock gets as far as being about to steal it. */
  lemma {:induction false} ReadsDeadHolder(s: Lock, i: Pid) returns (acts: seq<Action>)
    requires i < |s.procs| && s.procs[i] == Proc(true, Idle)
    requires s.path.Some? && s.path.value in s.holders
    requires var pid := s.holders[s.path.value]; pid < |s.procs| && !s.procs[pid].alive
    ensures IsRun(s, acts)
    ensures forall k :: 0 <= k < |acts| ==> acts[k].i == i && !acts[k].Crash?
    ensures acts != [] && acts[0] == Begin(i) && SameCall(acts[1..])
    ensures Exec(s, acts) == Goto(s, i, Stealing(s.path.value, s.holders[s.path.value]))
  {
    var s1 := Next(s, Begin(i));
    var s2 := Next(s1, Mkdir(i));
    var s3 := Next(s2, ReadHolder(i));
    var last := Probe(i, NoSuchProcess);
    RunStep(s3, last, []);
    RunStep(s2, ReadHolder(i), [last]);
    RunStep(s1, Mkdir(i), [ReadHolder(i)] + [last]);
    acts := [Begin(i)] + ([Mkdir(i)] + ([ReadHolder(i)] + [last]));
    RunStep(s, Begin(i), [Mkdir(i)] + ([ReadHolder(i)] + [last]));
  }

  /** A process about to steal the dead lock that is still there recovers it and makes its own. */
  lemma RecoversDeadLock(s: Lock, i: Pid) returns (acts: seq<Action>)
    requires Inv(s) && i < |s.procs| && s.procs[i].alive && s.procs[i].pc.Stealing?
    requires s.path == Some(s.procs[i].pc.seen) && s.path.value in s.holders
    ensures IsRun(s, acts)
    ensures forall k :: 0 <= k < |acts| ==> acts[k].i == i && !acts[k].Crash? && !acts[k].Begin?
    ensures var n := |s.creators|;
            Exec(s, acts) == Lock(Some(n), s.holders - {s.path.value}, s.creators + [i],
                                  s.procs[i := Proc(true, Made(n))])
  {
    assert PcInv(s, i);
    var s1 := Next(s, Capture(i));
    var s2 := Next(s1, Reread(i));
    var recheck := Recheck(i, NoSuchProcess);
    var s3 := Next(s2, recheck);
    var s4 := Next(s3, Drop(i));
    RunStep(s4, Mkdir(i), []);
    RunStep(s3, Drop(i), [Mkdir(i)]);
    RunStep(s2, recheck, [Drop(i)] + [Mkdir(i)]);
    RunStep(s1, Reread(i), [recheck] + ([Drop(i)] + [Mkdir(i)]));
    acts := [Capture(i)] + ([Reread(i)] + ([recheck] + ([Drop(i)] + [Mkdir(i)])));
    RunStep(s, Capture(i), [Reread(i)] + ([recheck] + ([Drop(i)] + [Mkdir(i)])));
  }

  /** Taking away a lock with no holder.json in it: the re-check reads that as abandoned. */
  lemma TakesUnnamedLock(s: Lock, i: Pid) returns (acts: seq<Action>)
    requires i < |s.procs| && s.procs[i].alive && s.procs[i].pc.Stealing?
    requires s.path.Some? && s.path.value !in s.holders
    ensures IsRun(s, acts)
    ensures forall k :: 0 <= k < |acts| ==> acts[k].i == i && !acts[k].Crash?
    ensures var n := |s.creators|;
            Exec(s, acts) == Lock(Some(n), s.holders, s.creators + [i], s.procs[i := Proc(true, Made(n))])
  {
    var s1 := Next(s, Capture(i));
    var s2 := Next(s1, Reread(i));
    var s3 := Next(s2, Drop(i));
    assert s.holders - {s.path.value} == s.holders;
    RunStep(s3, Mkdir(i), []);
    RunStep(s2, Drop(i), [Mkdir(i)]);
    RunStep(s1, Reread(i), [Drop(i)] + [Mkdir(i)]);
    acts := [Capture(i)] + ([Reread(i)] + ([Drop(i)] + [Mkdir(i)]));
    RunStep(s, Capture(i), [Reread(i)] + ([Drop(i)] + [Mkdir(i)]));
  }

  // ----- a reclaim that runs by itself -----

  /** Every action is process `i`'s. */
  predicate Solo(i: Pid, acts: seq<Action>) {
    forall k :: 0 <= k < |acts| ==> acts[k].i == i
  }

  /** Only process `i` can be inside. */
  predicate NobodyElseInside(s: Lock, i: Pid) {
    forall j :: 0 <= j < |s.procs| && j != i ==> !LiveCritical(s, j)
  }

  lemma {:induction false} AloneKeepsOthersOut(s: Lock, i: Pid, acts: seq<Action>)
    requires NobodyElseInside(s, i) && IsRun(s, acts) && Solo(i, acts)
    ensures NobodyElseInside(Exec(s, acts), i)
    decreases |acts|
  {
    if acts != [] {
      OthersStayPut(s, acts[0]);
      AloneKeepsOthersOut(Next(s, acts[0]), i, acts[1..]);
    }
  }

  /** Process `i` is outside, and the lock of the live process `c`, which names `c`, is at the path or in
      `i`'s hands on its way back there. */
  predicate NamedLockWithstands(s: Lock, i: Pid, d: DirId, c: Pid) {
    && i < |s.procs| && c < |s.procs| && c != i && LiveCritical(s, c)
    && d in s.holders && s.holders[d] == c
    && (forall j :: 0 <= j < |s.procs| && j != i && j != c ==> !LiveCritical(s, j))
    && var pc := s.procs[i].pc;
       match pc
       case Rereading(pid, grave) => s.path.None? && grave == d && pid != c
       case Rechecking(pid, grave, captured) => s.path.None? && grave == d && captured == c && pid != c
       case Restoring(grave) => s.path.None? && grave == d
       case Probing(_, pid) => s.path == Some(d) && pid == c
       case Stealing(_, pid) => s.path == Some(d) && pid != c
       case _ => s.path == Some(d) && (pc.Idle? || pc.Trying? || pc.Contending? || pc.Waiting?)
  }

  lemma {:induction false} NamedLockIsNeverFinalized(s: Lock, i: Pid, d: DirId, c: Pid, acts: seq<Action>)
    requires NamedLockWithstands(s, i, d, c) && IsRun(s, acts) && Solo(i, acts)
    ensures NamedLockWithstands(Exec(s, acts), i, d, c)
    decreases |acts|
  {
    if acts != [] {
      NamedLockStepWithstands(s, i, d, c, acts[0]);
      NamedLockIsNeverFinalized(Next(s, acts[0]), i, d, c, acts[1..]);
    }
  }

  lemma NamedLockStepWithstands(s: Lock, i: Pid, d: DirId, c: Pid, a: Action)
    requires NamedLockWithstands(s, i, d, c) && Enabled(s, a) && a.i == i
    ensures NamedLockWithstands(Next(s, a), i, d, c)
  {
    OthersStayPut(s, a);
  }

  /** The lock at the path is a live process's, and does not name it yet. */
  predicate UnnamedLiveLock(s: Lock) {
    s.path.Some? && LiveLock(s, s.path.value) && s.path.value !in s.holders
  }

  /** Exactly when a reclaim finalizes a live lock. From every state the protocol can be in, a process about
      to rename the lock away can by itself get in beside a live holder if and only if the lock at the path
      is a live one whose holder.json is not written: a live lock that names its holder is always restored,
      however long the process goes on. */
  lemma {:induction false} SoloReclaimBreaksIff(s: Lock, i: Pid)
    requires Inv(s) && Enabled(s, Capture(i))
    ensures (exists acts :: IsRun(s, acts) && Solo(i, acts) && !MutualExclusion(Exec(s, acts)))
            <==> UnnamedLiveLock(s)
  {
    assert PcInv(s, i);
    if UnnamedLiveLock(s) {
      UnnamedLiveLockIsFinalized(s, i);
    } else if s.path.Some? && LiveLock(s, s.path.value) {
      NamedLiveLockIsSafe(s, i);
    } else {
      NoLiveLockIsSafe(s, i);
    }
  }

  lemma {:induction false} UnnamedLiveLockIsFinalized(s: Lock, i: Pid)
    requires Inv(s) && Enabled(s, Capture(i)) && UnnamedLiveLock(s)
    ensures exists acts :: IsRun(s, acts) && Solo(i, acts) && !MutualExclusion(Exec(s, acts))
  {
    var c := s.creators[s.path.value];
    var acts := TakesUnnamedLock(s, i);
    assert LiveCritical(Exec(s, acts), i) && LiveCritical(Exec(s, acts), c);
    assert IsRun(s, acts) && Solo(i, acts) && !MutualExclusion(Exec(s, acts));
  }

  lemma {:induction false} NamedLiveLockIsSafe(s: Lock, i: Pid)
    requires Inv(s) && Enabled(s, Capture(i))
    requires s.path.Some? && LiveLock(s, s.path.value) && s.path.value in s.holders
    ensures forall acts :: IsRun(s, acts) && Solo(i, acts) ==> MutualExclusion(Exec(s, acts))
  {
    var d := s.path.value;
    var c := s.creators[d];
    assert PcInv(s, i) && PcInv(s, c);
    forall j | 0 <= j < |s.procs| && j != i && j != c
      ensures !LiveCritical(s, j)
    {
      CriticalOwnsPath(s, j);
    }
    forall acts | IsRun(s, acts) && Solo(i, acts)
      ensures MutualExclusion(Exec(s, acts))
    {
      NamedLockIsNeverFinalized(s, i, d, c, acts);
    }
  }

  lemma {:induction false} NoLiveLockIsSafe(s: Lock, i: Pid)
    requires Inv(s) && Enabled(s, Capture(i)) && (s.path.Some? ==> !LiveLock(s, s.path.value))
    ensures forall acts :: IsRun(s, acts) && Solo(i, acts) ==> MutualExclusion(Exec(s, acts))
  {
    forall j | 0 <= j < |s.procs| && j != i
      ensures !LiveCritical(s, j)
    {
      CriticalOwnsPath(s, j);
    }
    forall acts | IsRun(s, acts) && Solo(i, acts)
      ensures MutualExclusion(Exec(s, acts))
    {
      AloneKeepsOthersOut(s, i, acts);
    }
  }

  // ----- runs that lose the lock -----

  /** Two live processes are outside, and the lock of a dead one is still there. */
  predicate Abandoned(s: Lock, i: Pid, k: Pid) {
    && Init(s) && s.path.Some? && s.path.value in s.holders
    && i < |s.procs| && k < |s.procs| && i != k
    && s.procs[i].alive && s.procs[k].alive
  }

  /** Both have read the dead holder, and one of them has recovered the lock and made its own. */
  function Recovered(s: Lock, i: Pid, k: Pid): Lock
    requires Abandoned(s, i, k)
  {
    var d := s.path.value;
    var n := |s.creators|;
    Lock(Some(n), s.holders - {d}, s.creators + [k],
         s.procs[i := Proc(true, Stealing(d, s.holders[d]))][k := Proc(true, Made(n))])
  }

  lemma BothReadThenOneRecovers(s: Lock, i: Pid, k: Pid) returns (acts: seq<Action>)
    requires Abandoned(s, i, k)
    ensures IsRun(s, acts) && Exec(s, acts) == Recovered(s, i, k)
    ensures forall n :: 0 <= n < |acts| ==> acts[n].i in {i, k} && !acts[n].Crash?
  {
    var stealing := Stealing(s.path.value, s.holders[s.path.value]);
    var first := ReadsDeadHolder(s, i);
    var s1 := Goto(s, i, stealing);
    var second := ReadsDeadHolder(s1, k);
    var s2 := Goto(s1, k, stealing);
    assert Inv(s2);
    var third := RecoversDeadLock(s2, k);
    assert Exec(s2, third) == Recovered(s, i, k);
    RunsCompose(s1, second, third);
    RunsCompose(s, first, second + third);
    acts := first + (second + third);
  }

  lemma TwoInside(s: Lock, i: Pid, k: Pid)
    requires i != k && LiveCritical(s, i) && LiveCritical(s, k)
    ensures !MutualExclusion(s)
  {
  }

  lemma ViolationIsMisCapture(s: Lock, acts: seq<Action>, i: Pid, k: Pid)
    requires Init(s) && IsRun(s, acts) && i != k
    requires LiveCritical(Exec(s, acts), i) && LiveCritical(Exec(s, acts), k)
    ensures !NoMisCaptures(s, acts)
  {
    InitEstablishesInv(s);
    TwoInside(Exec(s, acts), i, k);
    if NoMisCaptures(s, acts) {
      RunKeepsInv(s, acts);
    }
  }

  /** A run with no crash that breaks mutual exclusion. */
  ghost predicate LosesTheLock(s: Lock, acts: seq<Action>) {
    IsRun(s, acts) && CrashFree(acts) && !MutualExclusion(Exec(s, acts)) && !NoMisCaptures(s, acts)
  }

  /** Two live contenders are enough to break mutual exclusion, wherever a dead process left its lock:
      the captured lock is a live one whose holder.json is not written yet. */
  lemma {:induction false} UnnamedLiveLockIsTaken(s: Lock, i: Pid, k: Pid)
    requires Abandoned(s, i, k)
    ensures exists acts: seq<Action> :: LosesTheLock(s, acts) && forall n :: 0 <= n < |acts| ==> acts[n].i in {i, k}
  {
    var prefix := BothReadThenOneRecovers(s, i, k);
    var t := Recovered(s, i, k);
    var rest := TakesUnnamedLock(t, i);
    RunsCompose(s, prefix, rest);
    ViolationIsMisCapture(s, prefix + rest, i, k);
    TwoInside(Exec(s, prefix + rest), i, k);
    assert LosesTheLock(s, prefix + rest);
  }

  /** While `i` holds `k`'s captured lock in its grave, `third` finds the lock path free. */
  lemma EntersDuringCapture(s: Lock, i: Pid, k: Pid, third: Pid) returns (acts: seq<Action>)
    requires i < |s.procs| && k < |s.procs| && third < |s.procs| && third != i && third != k && i != k
    requires s.procs[i].alive && s.procs[i].pc.Stealing? && s.procs[third] == Proc(true, Idle)
    requires s.procs[k].alive && s.procs[k].pc.Made? && s.path.Some?
    ensures IsRun(s, acts)
    ensures forall n :: 0 <= n < |acts| ==> !acts[n].Crash?
    ensures var u := Exec(s, acts);
            && |u.procs| == |s.procs| && u.procs[k] == Proc(true, Held(s.procs[k].pc.dir))
            && u.holders == s.holders[s.path.value := k] && LiveCritical(u, third)
  {
    var s1 := Next(s, WriteHolder(k));
    var s2 := Next(s1, Capture(i));
    var s3 := Next(s2, Begin(third));
    RunStep(s3, Mkdir(third), []);
    RunStep(s2, Begin(third), [Mkdir(third)]);
    RunStep(s1, Capture(i), [Begin(third)] + [Mkdir(third)]);
    acts := [WriteHolder(k)] + ([Capture(i)] + ([Begin(third)] + [Mkdir(third)]));
    RunStep(s, WriteHolder(k), [Capture(i)] + ([Begin(third)] + [Mkdir(third)]));
  }

  /** With a third contender even a fully written live lock is lost. */
  lemma {:induction false} ThirdContenderEntersDuringCapture(s: Lock, i: Pid, k: Pid, third: Pid)
    requires Abandoned(s, i, k) && third < |s.procs| && s.procs[third].alive && third != i && third != k
    ensures exists acts: seq<Action> :: LosesTheLock(s, acts) && NamedHolderInside(Exec(s, acts), k, |s.creators|)
  {
    var prefix := BothReadThenOneRecovers(s, i, k);
    var rest := EntersDuringCapture(Recovered(s, i, k), i, k, third);
    RunsCompose(s, prefix, rest);
    ViolationIsMisCapture(s, prefix + rest, k, third);
    TwoInside(Exec(s, prefix + rest), k, third);
    assert LosesTheLock(s, prefix + rest) && NamedHolderInside(Exec(s, prefix + rest), k, |s.creators|);
  }

  /** Process `k` is in its critical section with its own directory `d`, which names it. */
  predicate NamedHolderInside(s: Lock, k: Pid, d: DirId) {
    k < |s.procs| && s.procs[k] == Proc(true, Held(d)) && d in s.holders && s.holders[d] == k
  }

  // ----- the price of never stealing on an unreadable holder -----

  predicate HasSeen(s: Lock, i: Pid, d: DirId) {
    && i < |s.procs| && s.procs[i].alive
    && var pc := s.procs[i].pc; (pc.Probing? || pc.Stealing?) && pc.seen == d
  }

  /** A dead process's directory with no holder.json in it, that nobody is about to reclaim. */
  ghost predicate Orphan(s: Lock, d: DirId) {
    && s.path == Some(d) && d < |s.creators| && d !in s.holders
    && DeadDir(s, d, s.creators[d])
    && forall i :: !HasSeen(s, i, d)
  }

  /** A process that dies between its mkdir and its holder.json leaves such a directory. */
  lemma CrashBeforeHolderLeavesOrphan(s: Lock, i: Pid)
    requires Inv(s) && Enabled(s, Mkdir(i)) && s.path.None?
    ensures var t := Next(s, Mkdir(i)); Enabled(t, Crash(i)) && Orphan(Next(t, Crash(i)), |s.creators|)
  {
    var u := Next(Next(s, Mkdir(i)), Crash(i));
    forall j: Pid
      ensures !HasSeen(u, j, |s.creators|)
    {
      if j < |s.procs| && s.procs[j].alive {
        assert PcInv(s, j);
      }
    }
  }

  /** So does a process that dies in the middle of its release, when its holder.json is gone and its
      directory is not, unless somebody had read that file before and is on the way to reclaim it. */
  lemma CrashMidReleaseLeavesOrphanIff(s: Lock, i: Pid, d: DirId)
    requires Inv(s) && Enabled(s, Unlink(i)) && s.path == Some(d)
    ensures var t := Next(s, Unlink(i));
            Enabled(t, Crash(i)) && (Orphan(Next(t, Crash(i)), d) <==> forall j :: !HasSeen(s, j, d))
  {
    assert PcInv(s, i);
    var u := Next(Next(s, Unlink(i)), Crash(i));
    forall j: Pid
      ensures HasSeen(u, j, d) <==> HasSeen(s, j, d)
    {
    }
  }

  /** A process outside can reach its critical section by itself. */
  ghost predicate CanEnterAlone(s: Lock, i: Pid) {
    exists acts :: IsRun(s, acts) && Solo(i, acts) && LiveCritical(Exec(s, acts), i)
  }

  /** An unnamed directory is at the path, and process `i` is outside and has read nothing. */
  predicate KeptOut(s: Lock, i: Pid) {
    && s.path.Some? && s.path.value !in s.holders && i < |s.procs|
    && var pc := s.procs[i].pc; (pc.Idle? || pc.Trying? || pc.Contending? || pc.Waiting?)
  }

  lemma {:induction false} UnnamedDirectoryKeepsOut(s: Lock, i: Pid, acts: seq<Action>)
    requires KeptOut(s, i) && IsRun(s, acts) && Solo(i, acts)
    ensures KeptOut(Exec(s, acts), i)
    decreases |acts|
  {
    if acts != [] {
      UnnamedDirectoryKeepsOut(Next(s, acts[0]), i, acts[1..]);
    }
  }

  /** The lock is free, or names a process that is gone. */
  predicate Takable(s: Lock) {
    s.path.Some? ==> s.path.value in s.holders && s.holders[s.path.value] < |s.procs|
                     && !s.procs[s.holders[s.path.value]].alive
  }

  /** Getting as far as being about to steal captures nothing. */
  lemma SoloRunKeepsInv(s: Lock, i: Pid, acts: seq<Action>)
    requires Inv(s) && i < |s.procs| && s.path.Some? && DeadDir(s, s.path.value, s.creators[s.path.value])
    requires s.path.value in s.holders && IsRun(s, acts)
    requires Exec(s, acts) == Goto(s, i, Stealing(s.path.value, s.holders[s.path.value]))
    ensures Inv(Exec(s, acts))
  {
    var t := Exec(s, acts);
    forall j | 0 <= j < |t.procs| && t.procs[j].alive
      ensures PcInv(t, j)
    {
      assert j != i && s.procs[j].alive ==> PcInv(s, j);
    }
  }

  /** An idle process recovers a dead process's lock and makes its own. */
  lemma TakesDeadLock(s: Lock, i: Pid) returns (acts: seq<Action>)
    requires Inv(s) && i < |s.procs| && s.procs[i] == Proc(true, Idle) && s.path.Some? && Takable(s)
    ensures IsRun(s, acts) && Solo(i, acts) && acts != [] && acts[0] == Begin(i) && SameCall(acts[1..])
    ensures LiveCritical(Exec(s, acts), i)
  {
    var first := ReadsDeadHolder(s, i);
    var t := Exec(s, first);
    assert Inv(t) by { SoloRunKeepsInv(s, i, first); }
    var second := RecoversDeadLock(t, i);
    RunsCompose(s, first, second);
    acts := first + second;
    assert acts[1..] == first[1..] + second;
  }

  /** Exactly when a dead process's lock is recovered: an idle contender can get in if and only if the lock
      still names the dead process. */
  lemma {:induction false} RecoverableIff(s: Lock, i: Pid)
    requires Inv(s) && i < |s.procs| && s.procs[i] == Proc(true, Idle)
    requires s.path.Some? && DeadDir(s, s.path.value, s.creators[s.path.value])
    ensures CanEnterAlone(s, i) <==> s.path.value in s.holders
  {
    if s.path.value in s.holders {
      var acts := TakesDeadLock(s, i);
      assert IsRun(s, acts) && Solo(i, acts) && LiveCritical(Exec(s, acts), i);
    } else {
      forall acts | IsRun(s, acts) && Solo(i, acts)
        ensures !LiveCritical(Exec(s, acts), i)
      {
        UnnamedDirectoryKeepsOut(s, i, acts);
      }
    }
  }

  lemma StepKeepsOrphan(s: Lock, a: Action, d: DirId)
    requires Inv(s) && Orphan(s, d) && Enabled(s, a) && NoMisCapture(s, a)
    ensures Orphan(Next(s, a), d)
  {
    assert PcInv(s, a.i) && !HasSeen(s, a.i, d);
    StepKeepsWellFormed(s, a);
    var t := Next(s, a);
    forall j: Pid
      ensures !HasSeen(t, j, d)
    {
      assert !HasSeen(s, j, d);
    }
  }

  /** Nobody ever enters the lock again: the liveness given up for never stealing on an unclear read. */
  lemma {:induction false} OrphanBlocksForever(s: Lock, acts: seq<Action>, d: DirId)
    requires Inv(s) && Orphan(s, d) && IsRun(s, acts) && NoMisCaptures(s, acts)
    ensures Orphan(Exec(s, acts), d)
    ensures forall j :: !LiveCritical(Exec(s, acts), j)
    decreases |acts|
  {
    if acts == [] {
      forall j: Pid
        ensures !LiveCritical(s, j)
      {
        CriticalOwnsPath(s, j);
      }
    } else {
      StepKeepsInv(s, acts[0]);
      StepKeepsOrphan(s, acts[0], d);
      OrphanBlocksForever(Next(s, acts[0]), acts[1..], d);
    }
  }

  // ----- what a contender and a holder can do by themselves -----

  /** Process `i` is outside, and the lock at the path names the live process `c`, which may be `i`. */
  predicate NamedAlive(s: Lock, i: Pid, c: Pid) {
    && s.path.Some? && s.path.value in s.holders && s.holders[s.path.value] == c
    && c < |s.procs| && (s.procs[c].alive || c == i) && i < |s.procs|
    && var pc := s.procs[i].pc;
       (pc.Idle? || pc.Trying? || pc.Contending? || pc.Waiting? || (pc.Probing? && pc.pid == c))
  }

  /** Nothing but process `i`'s own program counter and life differs. */
  predicate OnlyMoves(s: Lock, t: Lock, i: Pid) {
    && t.path == s.path && t.holders == s.holders && t.creators == s.creators
    && |t.procs| == |s.procs| && forall k :: 0 <= k < |s.procs| && k != i ==> t.procs[k] == s.procs[k]
  }

  lemma NamedAliveStep(s: Lock, i: Pid, c: Pid, a: Action)
    requires NamedAlive(s, i, c) && Enabled(s, a) && a.i == i
    ensures NamedAlive(Next(s, a), i, c) && OnlyMoves(s, Next(s, a), i)
  {
  }

  lemma {:induction false} NamedAliveKeepsOut(s: Lock, i: Pid, c: Pid, acts: seq<Action>)
    requires NamedAlive(s, i, c) && IsRun(s, acts) && Solo(i, acts)
    ensures NamedAlive(Exec(s, acts), i, c) && OnlyMoves(s, Exec(s, acts), i)
    decreases |acts|
  {
    if acts != [] {
      NamedAliveStep(s, i, c, acts[0]);
      NamedAliveKeepsOut(Next(s, acts[0]), i, c, acts[1..]);
    }
  }

  lemma UnnamedStep(s: Lock, i: Pid, a: Action)
    requires KeptOut(s, i) && Enabled(s, a) && a.i == i
    ensures KeptOut(Next(s, a), i) && OnlyMoves(s, Next(s, a), i)
  {
  }

  lemma {:induction false} UnnamedChangesNothing(s: Lock, i: Pid, acts: seq<Action>)
    requires KeptOut(s, i) && IsRun(s, acts) && Solo(i, acts)
    ensures KeptOut(Exec(s, acts), i) && OnlyMoves(s, Exec(s, acts), i)
    decreases |acts|
  {
    if acts != [] {
      UnnamedStep(s, i, acts[0]);
      UnnamedChangesNothing(Next(s, acts[0]), i, acts[1..]);
    }
  }

  /** An idle process makes and names its own lock at a free path. */
  lemma FreeLockIsAcquired(s: Lock, i: Pid) returns (acts: seq<Action>)
    requires s.path.None? && i < |s.procs| && s.procs[i] == Proc(true, Idle)
    ensures acts == [Begin(i), Mkdir(i), WriteHolder(i)] && IsRun(s, acts) && Solo(i, acts)
    ensures var n := |s.creators|;
            Exec(s, acts) == Lock(Some(n), s.holders[n := i], s.creators + [i], s.procs[i := Proc(true, Held(n))])
  {
    var s1 := Next(s, Begin(i));
    var s2 := Next(s1, Mkdir(i));
    RunStep(s2, WriteHolder(i), []);
    RunStep(s1, Mkdir(i), [WriteHolder(i)] + []);
    acts := [Begin(i)] + ([Mkdir(i)] + ([WriteHolder(i)] + []));
    RunStep(s, Begin(i), [Mkdir(i)] + ([WriteHolder(i)] + []));
  }

  /** Exactly when a lock can be had. From every state that meets the invariant an idle contender can get in
      by itself if and only if the lock is free or names a process that is gone. */
  lemma {:induction false} CanEnterAloneIff(s: Lock, i: Pid)
    requires Inv(s) && i < |s.procs| && s.procs[i] == Proc(true, Idle)
    ensures CanEnterAlone(s, i) <==> Takable(s)
  {
    if s.path.None? {
      var acts := FreeLockIsAcquired(s, i);
      assert IsRun(s, acts) && Solo(i, acts) && LiveCritical(Exec(s, acts), i);
    } else if s.path.value !in s.holders || !s.procs[s.holders[s.path.value]].alive {
      if s.path.value in s.holders {
        RecoverableIff(s, i);
      } else {
        forall acts | IsRun(s, acts) && Solo(i, acts)
          ensures !LiveCritical(Exec(s, acts), i)
        {
          UnnamedChangesNothing(s, i, acts);
        }
      }
    } else {
      forall acts | IsRun(s, acts) && Solo(i, acts)
        ensures !LiveCritical(Exec(s, acts), i)
      {
        NamedAliveKeepsOut(s, i, s.holders[s.path.value], acts);
      }
    }
  }

  /** A contender that cannot get in changes nothing, however long it tries by itself. */
  lemma KeptOutChangesNothing(s: Lock, i: Pid, acts: seq<Action>)
    requires Inv(s) && i < |s.procs| && s.procs[i] == Proc(true, Idle) && !Takable(s)
    requires IsRun(s, acts) && Solo(i, acts)
    ensures OnlyMoves(s, Exec(s, acts), i)
  {
    if s.path.value in s.holders {
      NamedAliveKeepsOut(s, i, s.holders[s.path.value], acts);
    } else {
      UnnamedChangesNothing(s, i, acts);
    }
  }

  /** And it can give up at its deadline, and is then as it was before the call. */
  lemma {:induction false} GivesUpWithoutTrace(s: Lock, i: Pid)
    requires Inv(s) && i < |s.procs| && s.procs[i] == Proc(true, Idle) && !Takable(s)
    ensures exists acts :: IsRun(s, acts) && Solo(i, acts) && acts != [] && Exec(s, acts) == s
  {
    var s1 := Next(s, Begin(i));
    var s2 := Next(s1, Mkdir(i));
    var s3 := Next(s2, ReadHolder(i));
    if s.path.value in s.holders {
      var s4 := Next(s3, Probe(i, Delivered));
      RunStep(s4, GiveUp(i), []);
      RunStep(s3, Probe(i, Delivered), [GiveUp(i)] + []);
      var rest := [Probe(i, Delivered)] + ([GiveUp(i)] + []);
      WaitsThen(s, i, rest);
      assert Next(s4, GiveUp(i)) == s;
    } else {
      RunStep(s3, GiveUp(i), []);
      WaitsThen(s, i, [GiveUp(i)] + []);
      assert Next(s3, GiveUp(i)) == s;
    }
  }

  lemma {:induction false} WaitsThen(s: Lock, i: Pid, rest: seq<Action>)
    requires i < |s.procs| && s.procs[i] == Proc(true, Idle) && s.path.Some? && Solo(i, rest)
    requires IsRun(Next(Next(Next(s, Begin(i)), Mkdir(i)), ReadHolder(i)), rest)
    ensures var acts := [Begin(i)] + ([Mkdir(i)] + ([ReadHolder(i)] + rest));
            IsRun(s, acts) && Solo(i, acts)
            && Exec(s, acts) == Exec(Next(Next(Next(s, Begin(i)), Mkdir(i)), ReadHolder(i)), rest)
  {
    var s1 := Next(s, Begin(i));
    var s2 := Next(s1, Mkdir(i));
    RunStep(s2, ReadHolder(i), rest);
    RunStep(s1, Mkdir(i), [ReadHolder(i)] + rest);
    RunStep(s, Begin(i), [Mkdir(i)] + ([ReadHolder(i)] + rest));
  }

  /** A waiting process can get in by itself before its call ends. */
  ghost predicate WaiterCanEnter(s: Lock, i: Pid) {
    exists acts :: IsRun(s, acts) && Solo(i, acts) && SameCall(acts) && LiveCritical(Exec(s, acts), i)
  }

  /** A retry goes on as a new call does after its start. */
  lemma {:induction false} RetriesAsBegun(s: Lock, i: Pid, acts: seq<Action>)
    requires i < |s.procs| && s.procs[i] == Proc(true, Waiting) && Solo(i, acts)
    requires acts != [] && acts[0] == Begin(i) && SameCall(acts[1..])
    requires IsRun(Goto(s, i, Idle), acts) && LiveCritical(Exec(Goto(s, i, Idle), acts), i)
    ensures WaiterCanEnter(s, i)
  {
    var rest := acts[1..];
    assert Next(s, Retry(i)) == Next(Goto(s, i, Idle), Begin(i));
    RunStep(s, Retry(i), rest);
    var all := [Retry(i)] + rest;
    assert IsRun(s, all) && Solo(i, all) && SameCall(all) && LiveCritical(Exec(s, all), i);
  }

  lemma IdleKeepsInv(s: Lock, i: Pid)
    requires Inv(s) && i < |s.procs|
    ensures Inv(Goto(s, i, Idle))
  {
    var t := Goto(s, i, Idle);
    forall j | 0 <= j < |t.procs| && t.procs[j].alive
      ensures PcInv(t, j)
    {
      assert j != i ==> PcInv(s, j);
    }
  }

  lemma {:induction false} WaiterTakesLock(s: Lock, i: Pid)
    requires Inv(s) && i < |s.procs| && s.procs[i] == Proc(true, Waiting) && Takable(s)
    ensures WaiterCanEnter(s, i)
  {
    var idle := Goto(s, i, Idle);
    IdleKeepsInv(s, i);
    if s.path.None? {
      var acts := FreeLockIsAcquired(idle, i);
      RetriesAsBegun(s, i, acts);
    } else {
      var acts := TakesDeadLock(idle, i);
      RetriesAsBegun(s, i, acts);
    }
  }

  /** The wait is for the lock to become takable: until its call gives up, a waiting process can get in by
      itself if and only if the lock is free or names a process that is gone. */
  lemma {:induction false} WaiterCanEnterIff(s: Lock, i: Pid)
    requires Inv(s) && i < |s.procs| && s.procs[i] == Proc(true, Waiting)
    ensures WaiterCanEnter(s, i) <==> Takable(s)
  {
    if Takable(s) {
      WaiterTakesLock(s, i);
    } else {
      forall acts | IsRun(s, acts) && Solo(i, acts)
        ensures !LiveCritical(Exec(s, acts), i)
      {
        if s.path.value in s.holders {
          NamedAliveKeepsOut(s, i, s.holders[s.path.value], acts);
        } else {
          UnnamedChangesNothing(s, i, acts);
        }
      }
    }
  }

  /** A process that loses the race to rename a dead lock away has changed nothing, and its call goes on: it
      can still get in by itself, the path being free. */
  lemma {:induction false} LostRaceGoesOn(s: Lock, i: Pid)
    requires Inv(s) && Enabled(s, Capture(i)) && s.path.None?
    ensures var t := Next(s, Capture(i)); OnlyMoves(s, t, i) && WaiterCanEnter(t, i)
  {
    StepKeepsInv(s, Capture(i));
    WaiterCanEnterIff(Next(s, Capture(i)), i);
  }

  /** A maker whose directory is renamed away before it is named has its call fail: it is outside, with nothing
      changed. Had the path been left alone, the same write would have named its lock. */
  lemma CapturedMakerFails(s: Lock, i: Pid, k: Pid)
    requires Enabled(s, Capture(i)) && Enabled(s, WriteHolder(k)) && s.path.Some?
    ensures var t := Next(s, Capture(i));
            && Enabled(t, WriteHolder(k))
            && var u := Next(t, WriteHolder(k));
               OnlyMoves(t, u, k) && !LiveCritical(u, k) && Enabled(u, Begin(k))
    ensures var u := Next(s, WriteHolder(k));
            LiveCritical(u, k) && Enabled(u, Unlink(k)) && u.path == s.path && u.holders == s.holders[s.path.value := k]
  {
  }

  /** The two steps of a release take away whatever directory is at the path, and change nothing else. */
  lemma ReleaseTakesWhatIsThere(s: Lock, i: Pid)
    requires Enabled(s, Unlink(i)) && s.path.Some?
    ensures var t := Next(s, Unlink(i));
            && Enabled(t, Rmdir(i))
            && Next(t, Rmdir(i))
               == Lock(None, s.holders - {s.path.value}, s.creators, s.procs[i := Proc(true, Idle)])
  {
  }

  /** A holder whose lock was renamed away releases nothing while the path is free. Once another process has
      made its own lock there, the release takes that one away. */
  lemma CapturedHolderReleases(s: Lock, i: Pid, k: Pid, third: Pid)
    requires Enabled(s, Capture(i)) && Enabled(s, Unlink(k)) && s.path.Some?
    requires third != i && third != k && third < |s.procs| && s.procs[third] == Proc(true, Idle)
    ensures var t := Next(s, Capture(i));
            Enabled(t, Unlink(k)) && Next(t, Unlink(k)) == Goto(t, k, Idle)
    ensures exists acts :: IsRun(Next(s, Capture(i)), acts)
                           && var u := Exec(Next(s, Capture(i)), acts);
                              u.path.None? && LiveCritical(u, third) && k < |u.procs| && u.procs[k] == Proc(true, Idle)
  {
    var t := Next(s, Capture(i));
    var enter := FreeLockIsAcquired(t, third);
    var u := Exec(t, enter);
    ReleaseTakesWhatIsThere(u, k);
    var v := Next(u, Unlink(k));
    RunStep(v, Rmdir(k), []);
    RunStep(u, Unlink(k), [Rmdir(k)] + []);
    RunsCompose(t, enter, [Unlink(k)] + ([Rmdir(k)] + []));
    var acts := enter + ([Unlink(k)] + ([Rmdir(k)] + []));
    assert IsRun(t, acts) && Exec(t, acts) == Next(v, Rmdir(k));
  }

  /** A release frees the lock: after its two steps nothing is at the path, nothing else has changed, and any
      other idle process can get in by itself. */
  lemma ReleaseFreesTheLock(s: Lock, i: Pid, k: Pid)
    requires Inv(s) && Enabled(s, Unlink(i))
    requires k < |s.procs| && k != i && s.procs[k] == Proc(true, Idle)
    ensures var t := Next(s, Unlink(i));
            && Enabled(t, Rmdir(i)) && s.path.Some?
            && var u := Next(t, Rmdir(i));
               && u == Lock(None, s.holders - {s.path.value}, s.creators, s.procs[i := Proc(true, Idle)])
               && CanEnterAlone(u, k)
  {
    assert PcInv(s, i);
    ReleaseTakesWhatIsThere(s, i);
    var u := Next(Next(s, Unlink(i)), Rmdir(i));
    var acts := FreeLockIsAcquired(u, k);
    assert IsRun(u, acts) && Solo(k, acts) && LiveCritical(Exec(u, acts), k);
  }

  /** A restore never replaces a lock that names a holder: that one stays, and the captured one is dropped. */
  lemma RestoreSparesNamedLock(s: Lock, i: Pid)
    requires Enabled(s, Restore(i)) && s.path.Some? && s.path.value in s.holders
    requires s.path.value != s.procs[i].pc.grave
    ensures var t := Next(s, Restore(i));
            && Enabled(t, Drop(i))
            && var u := Next(t, Drop(i));
               && u.path == s.path && u.path.value in u.holders && u.holders[u.path.value] == s.holders[s.path.value]
               && s.procs[i].pc.grave !in u.holders && u.procs[i] == Proc(true, Waiting)
  {
  }

  /** Otherwise it puts the captured lock back, over an unnamed one if there is one: the maker of that one
      then writes its name into the lock that was put back. */
  lemma RestoreReplacesUnnamedLock(s: Lock, i: Pid, k: Pid)
    requires Enabled(s, Restore(i)) && (s.path.None? || s.path.value !in s.holders)
    ensures var t := Next(s, Restore(i));
            && t == Lock(Some(s.procs[i].pc.grave), s.holders, s.creators, s.procs[i := Proc(true, Waiting)])
            && (Enabled(s, WriteHolder(k)) ==>
                  && Enabled(t, WriteHolder(k))
                  && Next(t, WriteHolder(k)).holders == s.holders[s.procs[i].pc.grave := k])
  {
  }

  /** A captured lock whose holder turns out to be alive goes back as it was: when nobody else moves, the four
      steps of the attempt leave everything as they found it, and the process waiting. */
  lemma {:induction false} RestoreUndoesCapture(s: Lock, i: Pid)
    requires WellFormed(s) && Enabled(s, Capture(i)) && s.path.Some? && s.path.value in s.holders
    requires s.procs[s.holders[s.path.value]].alive && s.holders[s.path.value] != s.procs[i].pc.pid
    ensures var acts := [Capture(i)] + ([Reread(i)] + ([Recheck(i, Delivered)] + ([Restore(i)] + [])));
            IsRun(s, acts) && Exec(s, acts) == Goto(s, i, Waiting)
  {
    var s1 := Next(s, Capture(i));
    var s2 := Next(s1, Reread(i));
    var s3 := Next(s2, Recheck(i, Delivered));
    RunStep(s3, Restore(i), []);
    RunStep(s2, Recheck(i, Delivered), [Restore(i)] + []);
    RunStep(s1, Reread(i), [Recheck(i, Delivered)] + ([Restore(i)] + []));
    RunStep(s, Capture(i), [Reread(i)] + ([Recheck(i, Delivered)] + ([Restore(i)] + [])));
  }
}
