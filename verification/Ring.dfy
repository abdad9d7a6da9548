/**
 Submitting a message to a pane as a taken turn (`ringTurn` in `ring.ts`).

 What a screen shows is an observation: how many rows carry the message, and whether its text sits
 unsent at the bottom. The log lists what the ring typed and how it judged each screen.
 */
module Ring {

  datatype Screen = Screen(copies: int, staged: bool)

  datatype Verdict = Taken | Staged | Lost

  /** How a screen is judged against the copies counted before the ring. */
  function Judge(before: int, requirePosted: bool, screen: Screen): Verdict {
    if screen.staged then (if screen.copies >= before + 2 then Taken else Staged)
    else if screen.copies > before || !requirePosted then Taken
    else Lost
  }

  /** What a screen shows of a ring: `posts` new copies in the transcript or the queue, and the text in the
      input box or not. */
  function Shows(before: int, posts: int, inBox: bool): Screen {
    Screen(before + posts + (if inBox then 1 else 0), inBox)
  }

  /** A turn counts as taken exactly when the harness posted the text, or it left the box and that is enough;
      as staged exactly when it is in the box only; as lost exactly when it is nowhere and had to be posted. */
  lemma JudgedByPosts(before: int, posts: int, inBox: bool, requirePosted: bool)
    ensures var verdict := Judge(before, requirePosted, Shows(before, posts, inBox));
            && (verdict == Taken <==> posts >= 1 || (!inBox && !requirePosted))
            && (verdict == Staged <==> posts < 1 && inBox)
            && (verdict == Lost <==> posts < 1 && !inBox && requirePosted)
  {
  }

  datatype Event = Typed | Enter | Checked(verdict: Verdict)

  datatype Outcome = Rung(resubmits: nat) | PaneGone | NeverTaken(last: Verdict)

  function TypedCount(log: seq<Event>): nat {
    if log == [] then 0 else TypedCount(log[..|log| - 1]) + (if log[|log| - 1].Typed? then 1 else 0)
  }

  /** The verdicts in the log, in order. */
  function Verdicts(log: seq<Event>): seq<Verdict> {
    if log == [] then []
    else Verdicts(log[..|log| - 1]) + (if log[|log| - 1].Checked? then [log[|log| - 1].verdict] else [])
  }

  predicate TwoLost(log: seq<Event>, i: nat)
    requires i <= |log|
  {
    i >= 2 && log[i - 1] == Checked(Lost) && log[i - 2] == Checked(Lost)
  }

  /** The rule of the ring: it types the message first, presses a bare Enter right after a staged screen
      and only then, types again right after two lost screens in a row and only then, and nothing happens
      after a taken screen. */
  predicate WellRung(log: seq<Event>) {
    forall i :: 0 <= i < |log| ==> FollowsRule(log, i)
  }

  predicate FollowsRule(log: seq<Event>, i: nat)
    requires i < |log|
  {
    if i == 0 then log[0] == Typed
    else
      && log[i - 1] != Checked(Taken)
      && (log[i] == Enter <==> log[i - 1] == Checked(Staged))
      && (log[i] == Typed <==> TwoLost(log, i))
  }

  lemma FollowsRuleInPrefix(log: seq<Event>, n: nat)
    requires n <= |log|
    ensures WellRung(log) ==> WellRung(log[..n])
  {
    forall i | WellRung(log) && 0 <= i < n
      ensures FollowsRule(log[..n], i)
    {
      assert FollowsRule(log, i);
    }
  }

  function Trailing(log: seq<Event>): nat {
    if TwoLost(log, |log|) then 2
    else if log == [] || log[|log| - 1] == Typed then 0
    else 1
  }

  /** Each retyping has used up two screens of its own. */
  lemma {:induction false} RetypingCostsTwoScreens(log: seq<Event>)
    requires WellRung(log) && log != []
    ensures TypedCount(log) >= 1
    ensures 2 * (TypedCount(log) - 1) + Trailing(log) <= |Verdicts(log)|
  {
    var last := |log| - 1;
    assert FollowsRule(log, last);
    if last > 0 {
      FollowsRuleInPrefix(log, last);
      RetypingCostsTwoScreens(log[..last]);
      if last > 1 { assert FollowsRule(log, last - 1); }
      if last > 2 { assert FollowsRule(log, last - 2); }
    } else {
      assert log[..0] == [];
    }
  }

  /** With `n` screens the message is typed at most `1 + (n - 1) / 2` times. */
  lemma TypingIsBounded(log: seq<Event>)
    requires WellRung(log) && log != [] && log[|log| - 1].Checked?
    ensures 1 <= TypedCount(log) <= 1 + (|Verdicts(log)| - 1) / 2
  {
    RetypingCostsTwoScreens(log);
  }

  /** The bound is met when every screen is lost. */
  lemma {:induction false} AllLostTypesAgain(log: seq<Event>)
    requires WellRung(log) && log != []
    requires forall i :: 0 <= i < |log| ==> log[i] == Typed || log[i] == Checked(Lost)
    ensures 2 * (TypedCount(log) - 1) + Trailing(log) == |Verdicts(log)|
    ensures log[|log| - 1].Checked? ==> TypedCount(log) == 1 + (|Verdicts(log)| - 1) / 2
  {
    var last := |log| - 1;
    assert FollowsRule(log, last);
    if last > 0 {
      FollowsRuleInPrefix(log, last);
      AllLostTypesAgain(log[..last]);
      if last > 1 { assert FollowsRule(log, last - 1); }
      if last > 2 { assert FollowsRule(log, last - 2); }
    } else {
      assert log[..0] == [];
    }
  }

  /** Without a lost screen the message is typed exactly once. */
  lemma {:induction false} TypedOnceWithoutLoss(log: seq<Event>)
    requires WellRung(log) && log != [] && Lost !in Verdicts(log)
    ensures TypedCount(log) == 1
  {
    var last := |log| - 1;
    assert FollowsRule(log, last);
    if last > 0 {
      FollowsRuleInPrefix(log, last);
      TypedOnceWithoutLoss(log[..last]);
    } else {
      assert log[..0] == [];
    }
  }

  /** The verdicts are the screens' own, in the order they were read. */
  predicate JudgesScreens(verdicts: seq<Verdict>, before: int, requirePosted: bool, screens: nat -> Screen) {
    forall k :: 0 <= k < |verdicts| ==> verdicts[k] == Judge(before, requirePosted, screens(k))
  }

  function LastOf(log: seq<Event>): Event
    requires log != []
  {
    log[|log| - 1]
  }

  /** The rule lets `event` come next. */
  predicate MayFollow(log: seq<Event>, event: Event) {
    if log == [] then event == Typed
    else
      && LastOf(log) != Checked(Taken)
      && (event == Enter <==> LastOf(log) == Checked(Staged))
      && (event == Typed <==> TwoLost(log, |log|))
  }

  lemma RuleKeptEarlier(log: seq<Event>, longer: seq<Event>, i: nat)
    requires log <= longer && i < |log| && FollowsRule(log, i)
    ensures FollowsRule(longer, i)
  {
    assert longer[i] == log[i];
    if i > 0 { assert longer[i - 1] == log[i - 1]; }
    if i > 1 { assert longer[i - 2] == log[i - 2]; }
  }

  lemma MayFollowFollows(log: seq<Event>, longer: seq<Event>, event: Event)
    requires longer == log + [event] && MayFollow(log, event)
    ensures FollowsRule(longer, |log|)
  {
    var n := |log|;
    assert longer[n] == event;
    if n > 0 { assert longer[n - 1] == log[n - 1]; }
    if n > 1 { assert longer[n - 2] == log[n - 2]; }
  }

  lemma VerdictsExtend(log: seq<Event>, longer: seq<Event>, event: Event)
    requires longer == log + [event]
    ensures Verdicts(longer) == Verdicts(log) + (if event.Checked? then [event.verdict] else [])
  {
    assert longer[..|log|] == log && longer[|log|] == event;
  }

  lemma TwoLostExtends(log: seq<Event>, longer: seq<Event>, event: Event)
    requires longer == log + [event]
    ensures TwoLost(longer, |longer|) <==> event == Checked(Lost) && log != [] && LastOf(log) == Checked(Lost)
  {
    assert longer[|log|] == event;
    if log != [] { assert longer[|log| - 1] == log[|log| - 1]; }
  }

  lemma RuleExtends(log: seq<Event>, longer: seq<Event>, event: Event)
    requires longer == log + [event] && WellRung(log) && MayFollow(log, event)
    ensures WellRung(longer)
  {
    forall i | 0 <= i < |longer|
      ensures FollowsRule(longer, i)
    {
      if i < |log| {
        assert FollowsRule(log, i);
        RuleKeptEarlier(log, longer, i);
      } else {
        MayFollowFollows(log, longer, event);
      }
    }
  }

  /** A log of a ring that has read `n` screens and typed accordingly. */
  predicate Ringing(log: seq<Event>, n: nat, before: int, requirePosted: bool, screens: nat -> Screen) {
    WellRung(log) && |Verdicts(log)| == n && JudgesScreens(Verdicts(log), before, requirePosted, screens)
  }

  method Submit(log: seq<Event>, event: Event, ghost n: nat, ghost before: int, ghost requirePosted: bool,
                ghost screens: nat -> Screen)
    returns (longer: seq<Event>)
    requires Ringing(log, n, before, requirePosted, screens) && MayFollow(log, event) && !event.Checked?
    ensures Ringing(longer, n, before, requirePosted, screens)
    ensures longer != [] && LastOf(longer) == event && !TwoLost(longer, |longer|)
  {
    longer := log + [event];
    RuleExtends(log, longer, event);
    VerdictsExtend(log, longer, event);
    TwoLostExtends(log, longer, event);
  }

  /** Reads the next screen and judges it. */
  method Check(log: seq<Event>, n: nat, before: int, requirePosted: bool, screens: nat -> Screen)
    returns (state: Verdict, longer: seq<Event>)
    requires Ringing(log, n, before, requirePosted, screens) && log != []
    requires LastOf(log) == Typed || LastOf(log) == Enter || (LastOf(log) == Checked(Lost) && !TwoLost(log, |log|))
    ensures Ringing(longer, n + 1, before, requirePosted, screens)
    ensures longer != [] && LastOf(longer) == Checked(state)
    ensures TwoLost(longer, |longer|) <==> state == Lost && LastOf(log) == Checked(Lost)
  {
    state := Judge(before, requirePosted, screens(n));
    longer := log + [Checked(state)];
    RuleExtends(log, longer, Checked(state));
    VerdictsExtend(log, longer, Checked(state));
    TwoLostExtends(log, longer, Checked(state));
  }

  lemma TypingOfARing(log: seq<Event>, n: nat, before: int, requirePosted: bool, screens: nat -> Screen)
    requires Ringing(log, n, before, requirePosted, screens) && log != [] && LastOf(log).Checked?
    ensures 1 <= TypedCount(log) <= 1 + (n - 1) / 2
    ensures !requirePosted ==> TypedCount(log) == 1
  {
    TypingIsBounded(log);
    if !requirePosted {
      TypedOnceWithoutLoss(log);
    }
  }

  /** How often the loop may run. */
  function Retries(attempts: int): nat {
    if attempts > 0 then attempts else 0
  }

  /** Rings the pane. `screens(k)` is the screen after the `k`-th settle; `before` the copies counted before
      the ring. */
  method RingTurn(paneExists: bool, before: int, requirePosted: bool, attempts: int, screens: nat -> Screen)
    returns (outcome: Outcome, log: seq<Event>)
    ensures outcome.PaneGone? <==> !paneExists
    ensures outcome.PaneGone? <==> log == []
    ensures WellRung(log) && JudgesScreens(Verdicts(log), before, requirePosted, screens)
    // It reports a taken turn exactly when its last screen was taken, after as many further screens.
    ensures paneExists ==> LastOf(log).Checked?
    ensures outcome.Rung? <==> log != [] && LastOf(log) == Checked(Taken)
    ensures outcome.Rung? ==> |Verdicts(log)| == 1 + outcome.resubmits <= 1 + Retries(attempts)
    ensures outcome.NeverTaken? ==> LastOf(log) == Checked(outcome.last) && |Verdicts(log)| == 1 + Retries(attempts)
    // The typing is bounded.
    ensures paneExists ==> 1 <= TypedCount(log) <= 1 + Retries(attempts) / 2
    ensures paneExists && !requirePosted ==> TypedCount(log) == 1
  {
    log := [];
    if !paneExists {
      return PaneGone, log;
    }
    log := Submit(log, Typed, 0, before, requirePosted, screens);
    var state;
    state, log := Check(log, 0, before, requirePosted, screens);
    if state.Taken? {
      TypingOfARing(log, 1, before, requirePosted, screens);
      return Rung(0), log;
    }
    var lostReads := if state.Lost? then 1 else 0;
    var attempt := 1;
    while attempt <= attempts
      invariant 1 <= attempt <= Retries(attempts) + 1
      invariant Ringing(log, attempt, before, requirePosted, screens)
      invariant log != [] && LastOf(log) == Checked(state) && state != Taken
      invariant lostReads >= 2 <==> TwoLost(log, |log|)
      invariant lostReads >= 1 <==> state == Lost
    {
      if state.Staged? {
        log := Submit(log, Enter, attempt, before, requirePosted, screens);
      } else if lostReads >= 2 {
        log := Submit(log, Typed, attempt, before, requirePosted, screens);
        lostReads := 0;
      }
      state, log := Check(log, attempt, before, requirePosted, screens);
      if state.Taken? {
        TypingOfARing(log, attempt + 1, before, requirePosted, screens);
        return Rung(attempt), log;
      }
      lostReads := if state.Lost? then lostReads + 1 else 0;
      attempt := attempt + 1;
    }
    TypingOfARing(log, attempt, before, requirePosted, screens);
    return NeverTaken(state), log;
  }
}
