/**
 Typing into a pane without trampling a human's unsent draft (`withDraftGuard` in `prompt-guard.ts`).

 The screen reads and clock readings are observations: a `Watch` lists them in the order the guard asks
 for them. The guard's waiting is judged against that list, and its typing against a one-line input box.
 */
module DraftGuard {
  import opened Prelude
  import opened ScreenReader

  // ----- what the guard observes -----

  datatype Options = Options(own: string -> bool, idleMs: int, maxWaitMs: int, pollMs: int)

  /** One turn of the polling loop: the clock at the loop's guard, the clock at the deadline test, the read
      after the sleep, and the clock right after a read that differs. */
  datatype Tick = Tick(guard: int, check: int, next: PromptState, changed: int)

  datatype Watch = Watch(start: int, first: PromptState, ticks: seq<Tick>)

  /** What the box read after `n` sleeps. */
  function Seen(w: Watch, n: nat): PromptState
    requires n <= |w.ticks|
  {
    if n == 0 then w.first else w.ticks[n - 1].next
  }

  predicate SameDraft(a: PromptState, b: PromptState) {
    a.Draft? && b.Draft? && a.text == b.text
  }

  /** When the text on screen last changed, as the guard knows it after `n` sleeps. */
  function ChangedAt(w: Watch, n: nat): int
    requires n <= |w.ticks|
  {
    if n == 0 then w.start
    else if SameDraft(Seen(w, n - 1), Seen(w, n)) then ChangedAt(w, n - 1)
    else w.ticks[n - 1].changed
  }

  /** A draft the caller did not type. */
  predicate Foreign(o: Options, state: PromptState) {
    state.Draft? && !o.own(state.text)
  }

  predicate StillFresh(o: Options, w: Watch, n: nat)
    requires n < |w.ticks|
  {
    Foreign(o, Seen(w, n)) && w.ticks[n].guard - ChangedAt(w, n) < o.idleMs
  }

  predicate InTime(o: Options, w: Watch, n: nat)
    requires n < |w.ticks|
  {
    w.ticks[n].check - w.start + o.pollMs <= o.maxWaitMs
  }

  /** The guard sleeps once more after `n` sleeps. */
  predicate Sleeps(o: Options, w: Watch, n: nat) {
    n < |w.ticks| && StillFresh(o, w, n) && InTime(o, w, n)
  }

  // ----- what it types -----

  datatype Action = EndOfLine | KillLine | RunSend | TypeBack(text: string)

  datatype Outcome =
    | Done(actions: seq<Action>)
    | GaveUp
    | LeftRows(rows: nat)
    | Waiting // the watch ended first

  const CLEAR_LINE := [EndOfLine, KillLine]

  /** What the guard types once the box `state` has settled; `after` is the read after a clear. */
  function Settled(o: Options, state: PromptState, after: PromptState): Outcome {
    if !state.Draft? then Done([RunSend])
    else if o.own(state.text) then Done(CLEAR_LINE + [RunSend])
    else if state.rows > 1 then LeftRows(state.rows)
    else if SameDraft(after, state) then Done(CLEAR_LINE + [RunSend])
    else Done(CLEAR_LINE + [RunSend, TypeBack(state.text)])
  }

  /** From sleep `j` to sleep `n` the box read the same draft every time. */
  predicate StoodStill(w: Watch, j: nat, n: nat, text: string) {
    && j <= n <= |w.ticks|
    && forall i :: j <= i <= n ==> Seen(w, i).Draft? && Seen(w, i).text == text
  }

  /** When sleep `j`'s read was first taken to be a change. */
  function ReadTime(w: Watch, j: nat): int
    requires j <= |w.ticks|
  {
    if j == 0 then w.start else w.ticks[j - 1].changed
  }

  /** The clock moves on by at least the poll interval over every sleep. */
  predicate ClockAdvances(o: Options, w: Watch) {
    && (|w.ticks| > 0 ==> w.ticks[0].check >= w.start)
    && forall i :: 0 < i < |w.ticks| ==> w.ticks[i].check >= w.ticks[i - 1].check + o.pollMs
  }

  lemma {:induction false} ChangedAtIsAReadTime(w: Watch, n: nat) returns (j: nat)
    requires n <= |w.ticks| && Seen(w, n).Draft?
    ensures StoodStill(w, j, n, Seen(w, n).text)
    ensures ChangedAt(w, n) == ReadTime(w, j)
  {
    if n > 0 && SameDraft(Seen(w, n - 1), Seen(w, n)) {
      j := ChangedAtIsAReadTime(w, n - 1);
    } else {
      j := n;
    }
  }

  lemma {:induction false} ClockHasMoved(o: Options, w: Watch, n: nat)
    requires n < |w.ticks| && ClockAdvances(o, w)
    ensures w.ticks[n].check >= w.start + n * o.pollMs
  {
    if n > 0 {
      ClockHasMoved(o, w, n - 1);
      assert n * o.pollMs == (n - 1) * o.pollMs + o.pollMs;
    }
  }

  /** The text on screen changed with read `j`: it is the first one, or the read before showed another. */
  predicate ChangedWith(w: Watch, j: nat)
    requires j <= |w.ticks|
  {
    j == 0 || !SameDraft(Seen(w, j - 1), Seen(w, j))
  }

  lemma {:induction false} StandingSince(w: Watch, j: nat, n: nat, text: string)
    requires StoodStill(w, j, n, text) && ChangedWith(w, j)
    ensures ChangedAt(w, n) == ReadTime(w, j)
    decreases n
  {
    if j < n {
      assert SameDraft(Seen(w, n - 1), Seen(w, n));
      StandingSince(w, j, n - 1, text);
    }
  }

  /** What the guard does about a draft that has stood still since read `j`: it sleeps once more exactly while
      the draft is another's, has stood for less than `idleMs`, and another sleep fits in `maxWaitMs`. */
  lemma SleepsOnStandingDraftIff(o: Options, w: Watch, j: nat, n: nat, text: string)
    requires StoodStill(w, j, n, text) && ChangedWith(w, j) && n < |w.ticks|
    ensures Sleeps(o, w, n) <==>
              && !o.own(text)
              && w.ticks[n].guard - ReadTime(w, j) < o.idleMs
              && w.ticks[n].check - w.start + o.pollMs <= o.maxWaitMs
  {
    StandingSince(w, j, n, text);
    assert Seen(w, n).text == text;
  }

  /** So a draft that stands still from the first read is settled, cleared and typed back, at the first guard
      that finds it idle, when the deadline leaves room until then. */
  lemma IdleDraftIsSettled(o: Options, w: Watch, n: nat, text: string, sleeps: nat)
    requires StoodStill(w, 0, n, text) && n < |w.ticks| && !o.own(text)
    requires forall i :: 0 <= i < n ==>
               w.ticks[i].guard - w.start < o.idleMs && w.ticks[i].check - w.start + o.pollMs <= o.maxWaitMs
    requires w.ticks[n].guard - w.start >= o.idleMs
    requires sleeps <= |w.ticks| && (forall i :: 0 <= i < sleeps ==> Sleeps(o, w, i)) && !Sleeps(o, w, sleeps)
    ensures sleeps == n && !StillFresh(o, w, n) && Foreign(o, Seen(w, n))
  {
    forall i | 0 <= i <= n
      ensures Sleeps(o, w, i) <==> i < n
    {
      SleepsOnStandingDraftIff(o, w, 0, i, text);
    }
    StandingSince(w, 0, n, text);
    assert Seen(w, n).text == text;
    assert !Sleeps(o, w, n);
  }

  /** The waiting fits in `maxWaitMs`. */
  lemma SleepsFit(o: Options, w: Watch, n: nat)
    requires ClockAdvances(o, w) && 0 < n && Sleeps(o, w, n - 1)
    ensures n * o.pollMs <= o.maxWaitMs
  {
    ClockHasMoved(o, w, n - 1);
    assert n * o.pollMs == (n - 1) * o.pollMs + o.pollMs;
  }

  /** The guard: waits on a fresh draft, then clears it, sends and types it back. */
  method WithDraftGuard(o: Options, w: Watch, after: PromptState) returns (outcome: Outcome, sleeps: nat)
    // It sleeps while, and only while, another's draft is fresh and the deadline leaves room for a sleep.
    ensures sleeps <= |w.ticks| && forall i :: 0 <= i < sleeps ==> Sleeps(o, w, i)
    ensures outcome.Waiting? <==> sleeps == |w.ticks| && Foreign(o, Seen(w, sleeps))
    ensures outcome.GaveUp? <==> sleeps < |w.ticks| && StillFresh(o, w, sleeps) && !InTime(o, w, sleeps)
    ensures !outcome.Waiting? && !outcome.GaveUp? ==> outcome == Settled(o, Seen(w, sleeps), after)
    ensures ClockAdvances(o, w) && sleeps > 0 ==> sleeps * o.pollMs <= o.maxWaitMs
    ensures !outcome.Waiting? ==> !Sleeps(o, w, sleeps)
    // Another's draft is cleared only after it stood still for `idleMs`, and only on one row.
    ensures outcome.Done? && KillLine in outcome.actions && Foreign(o, Seen(w, sleeps)) ==>
              && Seen(w, sleeps).rows <= 1 && sleeps < |w.ticks|
              && exists j :: StoodStill(w, j, sleeps, Seen(w, sleeps).text)
                             && w.ticks[sleeps].guard - ReadTime(w, j) >= o.idleMs
  {
    sleeps := 0;
    var state := w.first;
    var changedAt := w.start;
    while state.Draft? && !o.own(state.text)
      invariant sleeps <= |w.ticks| && forall i :: 0 <= i < sleeps ==> Sleeps(o, w, i)
      invariant state == Seen(w, sleeps) && changedAt == ChangedAt(w, sleeps)
      decreases |w.ticks| - sleeps
    {
      if sleeps == |w.ticks| {
        if sleeps > 0 && ClockAdvances(o, w) { SleepsFit(o, w, sleeps); }
        return Waiting, sleeps;
      }
      var tick := w.ticks[sleeps];
      if tick.guard - changedAt >= o.idleMs {
        break;
      }
      if tick.check - w.start + o.pollMs > o.maxWaitMs {
        if sleeps > 0 && ClockAdvances(o, w) { SleepsFit(o, w, sleeps); }
        return GaveUp, sleeps;
      }
      if !tick.next.Draft? || tick.next.text != state.text {
        changedAt := tick.changed;
      }
      state := tick.next;
      sleeps := sleeps + 1;
    }
    if sleeps > 0 && ClockAdvances(o, w) { SleepsFit(o, w, sleeps); }
    if !state.Draft? {
      return Done([RunSend]), sleeps;
    }
    if o.own(state.text) {
      return Done(CLEAR_LINE + [RunSend]), sleeps;
    }
    if state.rows > 1 {
      return LeftRows(state.rows), sleeps;
    }
    ghost var j := ChangedAtIsAReadTime(w, sleeps);
    assert StoodStill(w, j, sleeps, state.text) && w.ticks[sleeps].guard - ReadTime(w, j) >= o.idleMs;
    var actions := CLEAR_LINE + [RunSend];
    if !(after.Draft? && after.text == state.text) {
      actions := actions + [TypeBack(state.text)];
      assert actions == CLEAR_LINE + [RunSend, TypeBack(state.text)];
    }
    return Done(actions), sleeps;
  }

  /** A watch longer than `maxWaitMs` allows always ends the waiting: the guard sends, or gives up. */
  lemma WaitingEnds(o: Options, w: Watch, n: nat)
    requires ClockAdvances(o, w) && 0 < n <= |w.ticks| && n * o.pollMs > o.maxWaitMs
    ensures exists i :: 0 <= i < n && !Sleeps(o, w, i)
  {
    if Sleeps(o, w, n - 1) {
      SleepsFit(o, w, n);
      assert false;
    }
  }

  // ----- the input box -----

  /** A one-line box, and the turns its harness has received. */
  datatype Box = Box(content: string, cursor: nat, received: seq<string>)

  predicate ValidBox(b: Box) {
    b.cursor <= |b.content|
  }

  /** What `send` does: submits its text, fails before typing, or fails with the text still staged. */
  datatype SendEffect = Submits | Refuses | Stages

  function Insert(b: Box, text: string): Box
    requires ValidBox(b)
  {
    b.(content := b.content[..b.cursor] + text + b.content[b.cursor..], cursor := b.cursor + |text|)
  }

  function Press(b: Box, action: Action, effect: SendEffect, text: string): (after: Box)
    requires ValidBox(b)
    ensures ValidBox(after)
  {
    match action
    case EndOfLine => b.(cursor := |b.content|)
    case KillLine => b.(content := b.content[b.cursor..], cursor := 0)
    case TypeBack(draft) => Insert(b, draft)
    case RunSend =>
      match effect
      case Refuses => b
      case Stages => Insert(b, text)
      case Submits => Box("", 0, b.received + [Insert(b, text).content])
  }

  function PressAll(b: Box, actions: seq<Action>, effect: SendEffect, text: string): (after: Box)
    requires ValidBox(b)
    ensures ValidBox(after)
    decreases |actions|
  {
    if actions == [] then b else PressAll(Press(b, actions[0], effect, text), actions[1..], effect, text)
  }

  /** What the harness shows in the box: the text in it, or its hint when there is none. */
  function Shown(content: string, hint: string): string {
    if content == "" then hint else content
  }

  /** What a box on screen reads as. Text the reader's patterns take for more than one line, such as one
      with a line separator in it, is no box to the reader. */
  function BoxState(harness: Harness, content: string, hint: string): PromptState {
    var shown := Shown(content, hint);
    if OneLine(shown) then Judge(harness, [TrimEnd(shown)]) else Unknown
  }

  lemma OneRowJudged(harness: Harness, shown: string)
    ensures Judge(harness, Visible([shown] + [])) == Judge(harness, [TrimEnd(shown)])
  {
    assert Visible([shown] + []) == [TrimEnd(shown)];
  }

  /** That is what the screen reader makes of the box painted on a screen, whatever is in it, when it is the
      only box there; above it may be another one when it is read itself. */
  lemma {:induction false} BoxOnScreen(
      screen: string, rows: seq<string>, harness: Harness, separator: char, above: seq<string>, shown: string,
      below: seq<string>, content: string, hint: string)
    requires shown == Shown(content, hint) && rows == SplitRows(screen)
    requires rows == above + PaintBox(ShapeOf(harness), separator, shown, []) + below
    requires separator in ShapeOf(harness).separators
    requires Framed(ShapeOf(harness), above, below) && NoBoxBeneath(rows, ShapeOf(harness), |below|)
    requires !OneLine(shown) ==> NoBoxAbove(rows, ShapeOf(harness), |above|)
    ensures ReadPrompt(screen, Some(harness)) == BoxState(harness, content, hint)
  {
    if OneLine(shown) {
      PaintedScreenReadsBack(screen, rows, harness, separator, above, shown, [], below);
      OneRowJudged(harness, shown);
    } else {
      KnownHarnessReads(screen, harness);
      BrokenHeadIsNoBox(rows, harness, separator, above, shown, below);
    }
  }

  /** The box after the guard has run on it: `state` read before the clear, `after` read behind it. */
  function Guarded(o: Options, harness: Harness, hint: string, b: Box, effect: SendEffect, text: string): Box
    requires ValidBox(b)
  {
    var outcome := Settled(o, BoxState(harness, b.content, hint), BoxState(harness, "", hint));
    if outcome.Done? then PressAll(b, outcome.actions, effect, text) else b
  }

  lemma ClearedThen(b: Box, actions: seq<Action>, effect: SendEffect, text: string)
    requires ValidBox(b)
    ensures PressAll(b, CLEAR_LINE + actions, effect, text)
            == PressAll(b.(content := "", cursor := 0), actions, effect, text)
  {
    var all := CLEAR_LINE + actions;
    assert all[0] == EndOfLine && all[1..][0] == KillLine && all[1..][1..] == actions;
    var end := Press(b, EndOfLine, effect, text);
    assert Press(end, KillLine, effect, text) == b.(content := "", cursor := 0);
  }

  lemma OneAction(b: Box, action: Action, effect: SendEffect, text: string)
    requires ValidBox(b)
    ensures PressAll(b, [action], effect, text) == Press(b, action, effect, text)
  {
    assert [action][1..] == [];
  }

  lemma TwoActions(b: Box, one: Action, two: Action, effect: SendEffect, text: string)
    requires ValidBox(b)
    ensures PressAll(b, [one, two], effect, text) == Press(Press(b, one, effect, text), two, effect, text)
  {
    assert [one, two][1..] == [two];
    OneAction(Press(b, one, effect, text), two, effect, text);
  }

  /** There is no draft, or the reader can read it whole: it is one line, no white space ends it, and it is
      told apart from a known placeholder, from the caller's own text, and from a hint that reads the same. */
  predicate GivenBack(o: Options, harness: Harness, hint: string, content: string) {
    || content == ""
    || (&& OneLine(content) && Trimmed(content)
        && !Placeholder(harness, content) && !o.own(content)
        && !(OneLine(hint) && TrimEnd(hint) == content))
  }

  predicate ReadsAsDraft(harness: Harness, content: string, hint: string) {
    BoxState(harness, content, hint).Draft?
  }

  lemma ReadsAsDraftIff(harness: Harness, content: string, hint: string)
    ensures var text := TrimEnd(Shown(content, hint));
            && (ReadsAsDraft(harness, content, hint) <==>
                  OneLine(Shown(content, hint)) && text != "" && !Placeholder(harness, text))
            && (ReadsAsDraft(harness, content, hint) ==> BoxState(harness, content, hint) == Draft(text, 1))
  {
    var text := TrimEnd(Shown(content, hint));
    assert [text] + [] == [text];
    ReadsEmptyIff(harness, text, []);
  }

  /** What becomes of the box, case by case. */
  lemma GuardedBox(o: Options, harness: Harness, hint: string, b: Box, effect: SendEffect, text: string)
    requires ValidBox(b)
    ensures var shown := TrimEnd(Shown(b.content, hint));
            var sent := Press(b.(content := "", cursor := 0), RunSend, effect, text);
            Guarded(o, harness, hint, b, effect, text) ==
              if !ReadsAsDraft(harness, b.content, hint) then Press(b, RunSend, effect, text)
              else if o.own(shown) || (OneLine(hint) && shown == TrimEnd(hint)) then sent
              else Insert(sent, shown)
  {
    ReadsAsDraftIff(harness, b.content, hint);
    ReadsAsDraftIff(harness, "", hint);
    var shown := TrimEnd(Shown(b.content, hint));
    OneAction(b, RunSend, effect, text);
    ClearedThen(b, [RunSend], effect, text);
    ClearedThen(b, [RunSend, TypeBack(shown)], effect, text);
    OneAction(b.(content := "", cursor := 0), RunSend, effect, text);
    TwoActions(b.(content := "", cursor := 0), RunSend, TypeBack(shown), effect, text);
  }

  /** When `send` submits: the harness receives exactly the caller's text and the box ends holding what it
      held, if and only if there was nothing or a draft the guard can tell apart. */
  lemma DraftSurvivesIff(o: Options, harness: Harness, hint: string, b: Box, text: string)
    requires ValidBox(b)
    ensures var done := Guarded(o, harness, hint, b, Submits, text);
            done.received == b.received + [text] && done.content == b.content
            <==> GivenBack(o, harness, hint, b.content)
  {
    GuardedBox(o, harness, hint, b, Submits, text);
    ReadsAsDraftIff(harness, b.content, hint);
    TrimEndCuts(Shown(b.content, hint));
    assert Insert(b.(content := "", cursor := 0), text).content == text;
    assert |Insert(b, text).content| == |b.content| + |text|;
    var done := Guarded(o, harness, hint, b, Submits, text);
    assert done.received[|b.received|..] == [done.received[|b.received|]];
  }

  /** The same when `send` throws before it typed anything; then white space and a placeholder's wording,
      which read as an empty box, are left alone too. */
  lemma DraftSurvivesARefusalIff(o: Options, harness: Harness, hint: string, b: Box, text: string)
    requires ValidBox(b)
    ensures var done := Guarded(o, harness, hint, b, Refuses, text);
            done.received == b.received
            && (done.content == b.content
                <==> GivenBack(o, harness, hint, b.content) || !ReadsAsDraft(harness, b.content, hint))
  {
    GuardedBox(o, harness, hint, b, Refuses, text);
    ReadsAsDraftIff(harness, b.content, hint);
    TrimEndCuts(Shown(b.content, hint));
  }

  /** When `send` throws with its text still staged, the draft is typed behind that text: both stay. */
  lemma StagedTextStaysBeforeTheDraft(o: Options, harness: Harness, hint: string, b: Box, text: string)
    requires ValidBox(b) && b.content != "" && GivenBack(o, harness, hint, b.content)
    ensures Guarded(o, harness, hint, b, Stages, text).content == text + b.content
    ensures Guarded(o, harness, hint, b, Stages, text).received == b.received
  {
    GuardedBox(o, harness, hint, b, Stages, text);
    ReadsAsDraftIff(harness, b.content, hint);
    TrimEndCuts(b.content);
  }

  /** The caller's own text is cleared: the harness receives the new text alone and nothing is typed back. */
  lemma OwnTextIsReplaced(o: Options, harness: Harness, hint: string, b: Box, text: string)
    requires ValidBox(b) && ReadsAsDraft(harness, b.content, hint) && o.own(TrimEnd(Shown(b.content, hint)))
    ensures Guarded(o, harness, hint, b, Submits, text) == Box("", 0, b.received + [text])
  {
    GuardedBox(o, harness, hint, b, Submits, text);
    assert Insert(b.(content := "", cursor := 0), text).content == text;
  }

  // ----- drafts of more than one row -----

  lemma LeavesLongReadings(o: Options, harness: Harness, lines: seq<string>, whole: bool, state: PromptState,
                           after: PromptState)
    requires |lines| > 0 && state == if whole then Judge(harness, lines) else Unknown
    requires state.Draft? ==> !o.own(state.text)
    ensures Settled(o, state, after).LeftRows? <==> whole && |lines| > 1
  {
    JoinedRowsEmptyIff(lines);
  }

  /** An idle draft painted on more than one row is left untouched if and only if none of its further lines
      is blank; or, in a box no rules fence, the first of them is not and few enough rows stand below the
      blank one. */
  lemma LongDraftIsLeftIff(
      o: Options, rows: seq<string>, harness: Harness, separator: char, above: seq<string>, first: string,
      more: seq<string>, below: seq<string>, n: nat, state: PromptState, after: PromptState)
    requires rows == above + PaintBox(ShapeOf(harness), separator, first, more) + below
    requires separator in ShapeOf(harness).separators && OneLine(first) && more != [] && FirstBlankAt(more, n)
    requires Framed(ShapeOf(harness), above, below)
    requires NoBoxAbove(rows, ShapeOf(harness), |above|) && NoBoxBeneath(rows, ShapeOf(harness), |below|)
    requires state == ReadRows(rows, ShapeOf(harness)) && (state.Draft? ==> !o.own(state.text))
    ensures |above| + 1 + n <= |rows|
    ensures Settled(o, state, after).LeftRows? <==> n > 0 && ReadUpTo(harness, rows, |above| + 1 + n, n, |more|)
  {
    PaintedDraftReads(rows, harness, separator, above, first, more, below, n);
    var lines := Visible([first] + more[..n]);
    LeavesLongReadings(o, harness, lines, ReadUpTo(harness, rows, |above| + 1 + n, n, |more|), state, after);
  }
}
