/**
 What the re-check in `tryReclaimStale` buys.

 Two contenders that never crash, whatever a dead process left at the lock path, and acquire (mkdir and
 holder.json together) and release each taken as one step. Here a rename may capture the other's
 live lock, and mutual exclusion still holds: a captured live lock is restored or dropped before
 its captor can reach a mkdir again. The price shows too: restoring a lock whose holder has
 released it meanwhile blocks the lock for as long as both live.
 */
module LockRecheck {
  import opened Prelude
  import opened LockProtocol

  type Contender = i: nat | i < 2

  /** What is at the lock path or in a grave: a dead process's directory, or a contender's lock. */
  datatype Dir = Leftover(named: bool) | LockOf(holder: Contender)

  datatype Step =
    | Outside
    | Contends
    | Steals
    | Captured(grave: Dir)
    | Restores(grave: Dir)
    | Drops(grave: Dir)
    | Inside

  datatype Pair = Pair(path: Option<Dir>, steps: seq<Step>)

  datatype Move =
    | TryAcquire(i: Contender)
    | ReadHolderAndProbe(i: Contender, answer: KillAnswer)
    | Take(i: Contender)
    | Check(i: Contender, answer: KillAnswer)
    | PutBack(i: Contender)
    | Discard(i: Contender)
    | Leave(i: Contender)

  function DeadPid(): Pid { 2 }

  /** The holder a directory's holder.json records, if it can be read. */
  function HolderOf(d: Dir): Option<Pid> {
    match d
    case Leftover(named) => if named then Some(DeadPid()) else None
    case LockOf(i) => Some(i)
  }

  /** Both contenders are alive, so "no such process" is never said of them. */
  predicate Truthful(d: Dir, answer: KillAnswer) {
    d.LockOf? ==> !answer.NoSuchProcess?
  }

  predicate Moves(s: Pair, m: Move) {
    && |s.steps| == 2
    && match m
       case TryAcquire(i) => s.steps[i].Outside?
       case ReadHolderAndProbe(i, answer) => s.steps[i].Contends? && (s.path.Some? ==> Truthful(s.path.value, answer))
       case Take(i) => s.steps[i].Steals?
       case Check(i, answer) => s.steps[i].Captured? && Truthful(s.steps[i].grave, answer)
       case PutBack(i) => s.steps[i].Restores?
       case Discard(i) => s.steps[i].Drops?
       case Leave(i) => s.steps[i].Inside?
  }

  function Moved(s: Pair, m: Move): Pair
    requires Moves(s, m)
  {
    match m
    case TryAcquire(i) =>
      if s.path.None? then Pair(Some(LockOf(i)), s.steps[i := Inside])
      else s.(steps := s.steps[i := Contends])
    case ReadHolderAndProbe(i, answer) =>
      var holder := if s.path.Some? then HolderOf(s.path.value) else None;
      if holder.Some? && !HeldByLiveOrUnknownPid(i, holder.value, answer) then s.(steps := s.steps[i := Steals])
      else s.(steps := s.steps[i := Outside])
    case Take(i) =>
      if s.path.None? then s.(steps := s.steps[i := Outside])
      else Pair(None, s.steps[i := Captured(s.path.value)])
    case Check(i, answer) =>
      var d := s.steps[i].grave;
      var holder := HolderOf(d);
      if holder.Some? && HeldByLiveOrUnknownPid(i, holder.value, answer) then s.(steps := s.steps[i := Restores(d)])
      else s.(steps := s.steps[i := Drops(d)])
    case PutBack(i) =>
      var d := s.steps[i].grave;
      if s.path.None? || s.path == Some(Leftover(false)) then Pair(Some(d), s.steps[i := Outside])
      else s.(steps := s.steps[i := Drops(d)])
    case Discard(i) => s.(steps := s.steps[i := Outside])
    case Leave(i) => Pair(None, s.steps[i := Outside])
  }

  predicate IsMoves(s: Pair, ms: seq<Move>)
    decreases |ms|
  {
    ms == [] || (Moves(s, ms[0]) && IsMoves(Moved(s, ms[0]), ms[1..]))
  }

  function Play(s: Pair, ms: seq<Move>): Pair
    requires IsMoves(s, ms)
    decreases |ms|
  {
    if ms == [] then s else Play(Moved(s, ms[0]), ms[1..])
  }

  predicate Start(s: Pair) {
    && s.steps == [Outside, Outside]
    && (s.path.Some? ==> s.path.value.Leftover?)
  }

  predicate HasInGrave(s: Pair, i: Contender, d: Dir)
    requires |s.steps| == 2
  {
    (s.steps[i].Captured? || s.steps[i].Restores?) && s.steps[i].grave == d
  }

  /** A contender inside has its lock at the path, or the other one has just captured it. */
  predicate PairInv(s: Pair) {
    && |s.steps| == 2
    && (forall j: Contender :: s.steps[j].Inside? ==>
          s.path == Some(LockOf(j)) || (s.path.None? && HasInGrave(s, 1 - j, LockOf(j))))
  }

  lemma MoveKeepsInv(s: Pair, m: Move)
    requires PairInv(s) && Moves(s, m)
    ensures PairInv(Moved(s, m))
  {
  }

  /** Mutual exclusion in every run, captures of live locks included. */
  lemma {:induction false} TwoContendersExclude(s: Pair, ms: seq<Move>)
    requires PairInv(s) && IsMoves(s, ms)
    ensures PairInv(Play(s, ms))
    ensures !(Play(s, ms).steps[0].Inside? && Play(s, ms).steps[1].Inside?)
    decreases |ms|
  {
    if ms != [] {
      MoveKeepsInv(s, ms[0]);
      TwoContendersExclude(Moved(s, ms[0]), ms[1..]);
    } else {
      var other: Contender := 1;
      assert s.steps[other].Inside? ==> s.path == Some(LockOf(1)) || HasInGrave(s, 0, LockOf(1));
    }
  }

  lemma StartsExcluded(s: Pair, ms: seq<Move>)
    requires Start(s) && IsMoves(s, ms)
    ensures |Play(s, ms).steps| == 2
    ensures !(Play(s, ms).steps[0].Inside? && Play(s, ms).steps[1].Inside?)
  {
    TwoContendersExclude(s, ms);
  }

  /** A release that nobody interferes with frees the lock, and the other contender can get in. */
  lemma ReleaseLetsTheOtherIn(s: Pair, i: Contender)
    requires PairInv(s) && s.steps[i].Inside? && s.path.Some? && s.steps[1 - i].Outside?
    ensures Moves(s, Leave(i)) && Moves(Moved(s, Leave(i)), TryAcquire(1 - i))
    ensures Moved(Moved(s, Leave(i)), TryAcquire(1 - i))
            == Pair(Some(LockOf(1 - i)), s.steps[i := Outside][1 - i := Inside])
  {
    assert s.path == Some(LockOf(i));
  }

  // ----- what restoring costs -----

  /** The lock at the path names contender `j`, and `j` is not in it. */
  predicate LeftBehind(s: Pair, j: Contender)
    requires |s.steps| == 2
  {
    s.path == Some(LockOf(j)) && !s.steps[j].Inside?
  }

  /** Exactly when a restore leaves a lock nobody is in at the path: its holder has released it meanwhile,
      and the path is free or holds an empty leftover for the rename to replace, or a lock of the same holder
      has been left behind there already. */
  lemma RestoreLeavesBehindIff(s: Pair, i: Contender, j: Contender)
    requires PairInv(s) && s.steps[i] == Restores(LockOf(j))
    ensures Moves(s, PutBack(i))
    ensures LeftBehind(Moved(s, PutBack(i)), j) <==>
              && !s.steps[j].Inside?
              && (s.path.None? || s.path == Some(Leftover(false)) || s.path == Some(LockOf(j)))
  {
  }

  /** No run from here lets anybody in. */
  ghost predicate NobodyEverEnters(s: Pair)
    requires |s.steps| == 2
  {
    forall ms :: IsMoves(s, ms) ==> NobodyInside(Play(s, ms))
  }

  predicate NobodyInside(s: Pair) {
    forall i :: 0 <= i < |s.steps| ==> !s.steps[i].Inside?
  }

  /** A contender's lock is at the path, and nobody is in it or about to take it away. */
  predicate Stuck(s: Pair) {
    && |s.steps| == 2
    && s.path.Some? && s.path.value.LockOf?
    && NobodyInside(s)
    && (forall i :: 0 <= i < |s.steps| ==> !s.steps[i].Steals?)
  }

  lemma {:induction false} StuckForever(s: Pair, ms: seq<Move>)
    requires Stuck(s) && IsMoves(s, ms)
    ensures Stuck(Play(s, ms))
    decreases |ms|
  {
    if ms != [] {
      StuckForever(Moved(s, ms[0]), ms[1..]);
    }
  }

  lemma MoveThen(s: Pair, m: Move, ms: seq<Move>)
    requires Moves(s, m) && IsMoves(Moved(s, m), ms)
    ensures IsMoves(s, [m] + ms) && Play(s, [m] + ms) == Play(Moved(s, m), ms)
  {
    assert ([m] + ms)[1..] == ms;
  }

  /** A contender outside, at the free lock path, gets in. */
  lemma EntersFreePath(s: Pair, i: Contender) returns (ms: seq<Move>)
    requires |s.steps| == 2 && s.path.None? && s.steps[i].Outside?
    ensures IsMoves(s, ms) && Play(s, ms).steps == s.steps[i := Inside]
  {
    MoveThen(s, TryAcquire(i), []);
    ms := [TryAcquire(i)] + [];
  }

  /** While `i` is about to take the lock away, the other contender can come outside, or take it first. */
  lemma StealLetsIn(s: Pair, i: Contender) returns (ms: seq<Move>)
    requires |s.steps| == 2 && s.path.Some? && s.path.value.LockOf? && NobodyInside(s) && s.steps[i].Steals?
    ensures IsMoves(s, ms) && !NobodyInside(Play(s, ms))
    decreases Distance(s.steps[1 - i])
  {
    var other: Contender := 1 - i;
    var m := NextMove(s, other);
    var t := Moved(s, m);
    var rest;
    if s.steps[other].Outside? {
      // `i` takes the lock, and the other one finds the path free.
      t := Moved(s, Take(i));
      rest := EntersFreePath(t, other);
      MoveThen(s, Take(i), rest);
      assert Play(t, rest).steps[other].Inside?;
      return [Take(i)] + rest;
    } else if s.steps[other].Steals? {
      // The other one takes it first; `i` then finds nothing to take and the path free.
      var u := Moved(t, Take(i));
      rest := EntersFreePath(u, i);
      MoveThen(t, Take(i), rest);
      MoveThen(s, m, [Take(i)] + rest);
      assert Play(u, rest).steps[i].Inside?;
      return [m] + ([Take(i)] + rest);
    }
    rest := StealLetsIn(t, i);
    MoveThen(s, m, rest);
    return [m] + rest;
  }

  /** How far a contender is from being outside while the other one waits. */
  function Distance(step: Step): nat {
    match step
    case Captured(_) => 3
    case Restores(_) => 2
    case Drops(_) => 1
    case Contends => 1
    case _ => 0
  }

  /** A move that takes a contender that is not inside one step nearer to being outside. */
  function NextMove(s: Pair, i: Contender): (m: Move)
    requires |s.steps| == 2 && !s.steps[i].Inside?
    ensures Moves(s, m)
  {
    match s.steps[i]
    case Outside => TryAcquire(i)
    case Contends => ReadHolderAndProbe(i, Delivered)
    case Steals => Take(i)
    case Captured(_) => Check(i, Delivered)
    case Restores(_) => PutBack(i)
    case Drops(_) => Discard(i)
  }

  /** A lock left behind blocks both contenders for as long as they live, if and only if neither had already
      found the lock before it abandoned and is about to take whatever is at the path. */
  lemma {:induction false} LeftBehindBlocksIff(s: Pair, j: Contender)
    requires PairInv(s) && LeftBehind(s, j)
    ensures NobodyEverEnters(s) <==> !s.steps[0].Steals? && !s.steps[1].Steals?
  {
    var zero: Contender, one: Contender := 0, 1;
    assert s.steps[zero].Inside? ==> s.path == Some(LockOf(zero)) || s.path.None?;
    assert s.steps[one].Inside? ==> s.path == Some(LockOf(one)) || s.path.None?;
    assert NobodyInside(s);
    if s.steps[0].Steals? {
      var ms := StealLetsIn(s, 0);
      assert IsMoves(s, ms);
    } else if s.steps[1].Steals? {
      var ms := StealLetsIn(s, 1);
      assert IsMoves(s, ms);
    } else {
      forall ms | IsMoves(s, ms)
        ensures NobodyInside(Play(s, ms))
      {
        StuckForever(s, ms);
      }
    }
  }

  /** So a restore blocks the lock for good exactly when it leaves one behind and the other contender is not
      about to take it. */
  lemma RestoreBlocksForeverIff(s: Pair, i: Contender, j: Contender)
    requires PairInv(s) && s.steps[i] == Restores(LockOf(j))
    ensures Moves(s, PutBack(i)) && |Moved(s, PutBack(i)).steps| == 2
    ensures LeftBehind(Moved(s, PutBack(i)), j) && NobodyEverEnters(Moved(s, PutBack(i))) <==>
              && !s.steps[j].Inside? && !s.steps[1 - i].Steals?
              && (s.path.None? || s.path == Some(Leftover(false)) || s.path == Some(LockOf(j)))
  {
    var t := Moved(s, PutBack(i));
    RestoreLeavesBehindIff(s, i, j);
    MoveKeepsInv(s, PutBack(i));
    assert t.steps[1 - i] == s.steps[1 - i] && !t.steps[i].Steals?;
    if LeftBehind(t, j) {
      LeftBehindBlocksIff(t, j);
    }
  }

  /** A release that falls between a capture and its restore removes nothing, and the restore then puts
      back a lock nobody holds. */
  lemma RestoreAfterReleaseSticks(s: Pair, i: Contender, j: Contender, answer: KillAnswer) returns (ms: seq<Move>)
    requires PairInv(s) && i != j
    requires s.steps[i] == Captured(LockOf(j)) && s.steps[j].Inside? && !answer.NoSuchProcess?
    ensures ms == [Leave(j), Check(i, answer), PutBack(i)] && IsMoves(s, ms)
    ensures Play(s, ms) == Pair(Some(LockOf(j)), [Outside, Outside]) && Stuck(Play(s, ms))
  {
    var s1 := Moved(s, Leave(j));
    var s2 := Moved(s1, Check(i, answer));
    MoveThen(s2, PutBack(i), []);
    MoveThen(s1, Check(i, answer), [PutBack(i)] + []);
    MoveThen(s, Leave(j), [Check(i, answer)] + ([PutBack(i)] + []));
    ms := [Leave(j)] + ([Check(i, answer)] + ([PutBack(i)] + []));
  }

  // ----- a run that gets there -----

  const ABANDONED := Pair(Some(Leftover(true)), [Outside, Outside])

  /** Both have read the dead holder. */
  lemma BothFindItDead() returns (ms: seq<Move>)
    ensures IsMoves(ABANDONED, ms) && Play(ABANDONED, ms) == Pair(Some(Leftover(true)), [Steals, Steals])
  {
    var s1 := Moved(ABANDONED, TryAcquire(0));
    var s2 := Moved(s1, TryAcquire(1));
    var s3 := Moved(s2, ReadHolderAndProbe(0, NoSuchProcess));
    var last := ReadHolderAndProbe(1, NoSuchProcess);
    MoveThen(s3, last, []);
    MoveThen(s2, ReadHolderAndProbe(0, NoSuchProcess), [last] + []);
    MoveThen(s1, TryAcquire(1), [ReadHolderAndProbe(0, NoSuchProcess)] + ([last] + []));
    ms := [TryAcquire(0)] + ([TryAcquire(1)] + ([ReadHolderAndProbe(0, NoSuchProcess)] + ([last] + [])));
    MoveThen(ABANDONED, TryAcquire(0), [TryAcquire(1)] + ([ReadHolderAndProbe(0, NoSuchProcess)] + ([last] + [])));
  }

  /** Contender 1 reclaims the lock and enters, and contender 0 takes its live lock away. */
  lemma LiveLockIsCaptured() returns (ms: seq<Move>)
    ensures IsMoves(Pair(Some(Leftover(true)), [Steals, Steals]), ms)
    ensures Play(Pair(Some(Leftover(true)), [Steals, Steals]), ms) == Pair(None, [Captured(LockOf(1)), Inside])
  {
    var s0 := Pair(Some(Leftover(true)), [Steals, Steals]);
    var s1 := Moved(s0, Take(1));
    var s2 := Moved(s1, Check(1, NoSuchProcess));
    var s3 := Moved(s2, Discard(1));
    var s4 := Moved(s3, TryAcquire(1));
    MoveThen(s4, Take(0), []);
    MoveThen(s3, TryAcquire(1), [Take(0)] + []);
    MoveThen(s2, Discard(1), [TryAcquire(1)] + ([Take(0)] + []));
    MoveThen(s1, Check(1, NoSuchProcess), [Discard(1)] + ([TryAcquire(1)] + ([Take(0)] + [])));
    ms := [Take(1)] + ([Check(1, NoSuchProcess)] + ([Discard(1)] + ([TryAcquire(1)] + ([Take(0)] + []))));
    MoveThen(s0, Take(1), [Check(1, NoSuchProcess)] + ([Discard(1)] + ([TryAcquire(1)] + ([Take(0)] + []))));
  }

  lemma {:induction false} MovesCompose(s: Pair, xs: seq<Move>, ys: seq<Move>)
    requires IsMoves(s, xs) && IsMoves(Play(s, xs), ys)
    ensures IsMoves(s, xs + ys) && Play(s, xs + ys) == Play(Play(s, xs), ys)
    decreases |xs|
  {
    if xs == [] {
      assert xs + ys == ys;
    } else {
      assert (xs + ys)[0] == xs[0] && (xs + ys)[1..] == xs[1..] + ys;
      MovesCompose(Moved(s, xs[0]), xs[1..], ys);
    }
  }

  /** It happens: from a dead process's lock, a release that falls between a capture and its restore ends
      with both contenders outside, their lock at the path, and neither ever getting in again. */
  lemma ReleasedLockBlocksBoth()
    ensures Start(ABANDONED)
    ensures exists ms :: IsMoves(ABANDONED, ms) && Blocked(Play(ABANDONED, ms))
  {
    var first := BothFindItDead();
    var second := LiveLockIsCaptured();
    var third := RestoreAfterReleaseSticks(Pair(None, [Captured(LockOf(1)), Inside]), 0, 1, Delivered);
    MovesCompose(ABANDONED, first, second);
    MovesCompose(ABANDONED, first + second, third);
    var t := Pair(Some(LockOf(1)), [Outside, Outside]);
    LeftBehindBlocksIff(t, 1);
    assert IsMoves(ABANDONED, first + second + third) && Blocked(Play(ABANDONED, first + second + third));
  }

  ghost predicate Blocked(s: Pair) {
    s.steps == [Outside, Outside] && LeftBehind(s, 1) && NobodyEverEnters(s)
  }
}
