/**
 Any number of `awaitReply` calls on one mailbox, interleaved with each other and with every other sender,
 reader and deleter at the granularity of `Mailbox`'s file calls (`await.ts`, `file-store.ts`).

 A wait scans the unread directory while others move messages, picks the oldest match of what it listed,
 and then tries to acknowledge it. By then somebody else may have done so.
 */
module Waits {
  import opened Prelude
  import opened Mailbox
  import opened Inbox

  /** Where one call has got to; `from` is how many file calls had been made when its scan began. */
  datatype Wait =
    | Polling
    | Scanning(from: nat)
    | Picked(msg: Msg)
    | Returned(msg: Msg)     // acknowledged
    | Threw(id: MsgId)       // its file was no longer there to read or to acknowledge
    | GaveUp                 // a deadline passed

  /** The mailbox at the start, the file calls made since, and the calls that wait on it. */
  datatype Shared = Shared(start: Box, calls: seq<Call>, waits: seq<Wait>, queries: seq<Query>)

  datatype Event =
    | Elsewhere(c: Call)
    | BeginScan(w: nat)
    | EndScan(w: nat, found: map<MsgId, Msg>, pick: Option<Msg>)
    | ScanThrows(w: nat, dir: Dir, id: MsgId) // a listed file moved before it was read
    | Ack(w: nat)
    | Deadline(w: nat)

  function Now(s: Shared): Box {
    StateAt(s.start, s.calls, |s.calls|)
  }

  /** The oldest of the listed messages that match, if any does. */
  ghost predicate IsOldestMatch(q: Query, found: map<MsgId, Msg>, pick: Option<Msg>) {
    if pick.None? then forall id :: id in found ==> !Matches(q, found[id])
    else
      && Matches(q, pick.value)
      && (exists id :: id in found && found[id] == pick.value)
      && forall id :: id in found && Matches(q, found[id]) ==> IdLe(pick.value.id, found[id].id)
  }

  /** The file was in the directory at some moment since `from`, and later was not. */
  ghost predicate LeftMeanwhile(s: Shared, dir: Dir, from: nat, id: MsgId) {
    exists t: nat, u: nat :: from <= t <= u <= |s.calls|
      && id in Files(StateAt(s.start, s.calls, t), dir) && id !in Files(StateAt(s.start, s.calls, u), dir)
  }

  ghost predicate Ready(s: Shared, e: Event) {
    match e
    case Elsewhere(_) => true
    case BeginScan(w) => w < |s.waits| && s.waits[w].Polling?
    case EndScan(w, found, pick) =>
      && w < |s.waits| == |s.queries| && s.waits[w].Scanning? && s.waits[w].from <= |s.calls|
      && Scanned(s.start, s.calls, UnreadDir, s.waits[w].from, |s.calls|, found)
      && IsOldestMatch(s.queries[w], found, pick)
    case ScanThrows(w, dir, id) =>
      w < |s.waits| && s.waits[w].Scanning? && LeftMeanwhile(s, dir, s.waits[w].from, id)
    case Ack(w) => w < |s.waits| && s.waits[w].Picked?
    case Deadline(w) => w < |s.waits| && s.waits[w].Polling?
  }

  ghost function After(s: Shared, e: Event): Shared
    requires Ready(s, e)
  {
    match e
    case Elsewhere(c) => s.(calls := s.calls + [c])
    case BeginScan(w) => s.(waits := s.waits[w := Scanning(|s.calls|)])
    case EndScan(w, _, pick) => s.(waits := s.waits[w := if pick.None? then Polling else Picked(pick.value)])
    case ScanThrows(w, _, id) => s.(waits := s.waits[w := Threw(id)])
    case Ack(w) =>
      var msg := s.waits[w].msg;
      s.(calls := s.calls + [AckRename(w, msg.id)],
         waits := s.waits[w := if msg.id in Now(s).unread then Returned(msg) else Threw(msg.id)])
    case Deadline(w) => s.(waits := s.waits[w := GaveUp])
  }

  ghost predicate IsWaitRun(s: Shared, es: seq<Event>)
    decreases |es|
  {
    es == [] || (Ready(s, es[0]) && IsWaitRun(After(s, es[0]), es[1..]))
  }

  ghost function ExecWaits(s: Shared, es: seq<Event>): Shared
    requires IsWaitRun(s, es)
    decreases |es|
  {
    if es == [] then s else ExecWaits(After(s, es[0]), es[1..])
  }

  // ----- the mailbox while it grows -----

  ghost predicate SentById(b: Box) {
    forall id :: id in b.sent ==> b.sent[id].id == id
  }

  lemma {:induction false} StateAtPrefix(b: Box, calls: seq<Call>, c: Call, t: nat)
    requires t <= |calls|
    ensures StateAt(b, calls + [c], t) == StateAt(b, calls, t)
  {
    if t > 0 {
      StateAtPrefix(b, calls, c, t - 1);
    }
  }

  lemma {:induction false} SentByIdAlways(b: Box, calls: seq<Call>, t: nat)
    requires SentById(b) && Conserved(b) && t <= |calls|
    ensures SentById(StateAt(b, calls, t))
  {
    if t > 0 {
      SentByIdAlways(b, calls, t - 1);
    }
  }

  /** One more call: what was sent stays sent, what has moved on has not come back, and acknowledgements
      are only added. */
  lemma CallGrows(s: Shared, c: Call, id: MsgId)
    requires BoxInv(s.start)
    ensures var b, b' := Now(s), Now(s.(calls := s.calls + [c]));
            && b' == Next(b, c) && b.acks <= b'.acks
            && Phase(b, id) <= Phase(b', id)
            && (id in b.sent ==> id in b'.sent && b'.sent[id] == b.sent[id])
  {
    StateAtPrefix(s.start, s.calls, c, |s.calls|);
    RunKeepsBoxInv(s.start, s.calls, |s.calls|);
    CallForward(Now(s), c, id);
  }

  // ----- what every wait keeps -----

  predicate IsSent(b: Box, msg: Msg) {
    msg.id in b.sent && b.sent[msg.id] == msg
  }

  ghost predicate AckedBy(b: Box, w: nat, id: MsgId) {
    exists k :: 0 <= k < |b.acks| && b.acks[k] == (w, id)
  }

  ghost predicate WaitOk(s: Shared, w: nat)
    requires w < |s.waits|
  {
    match s.waits[w]
    case Scanning(from) => from <= |s.calls|
    case Picked(msg) => IsSent(Now(s), msg)
    case Returned(msg) => IsSent(Now(s), msg) && AckedBy(Now(s), w, msg.id)
    case Threw(id) => id in Now(s).sent && Phase(Now(s), id) >= 2
    case _ => true
  }

  ghost predicate WaitsInv(s: Shared) {
    && BoxInv(s.start) && SentById(s.start)
    && |s.waits| == |s.queries|
    && forall w :: 0 <= w < |s.waits| ==> WaitOk(s, w)
  }

  /** The calls begin polling a mailbox in any state it can be in. */
  ghost predicate WaitsInit(s: Shared) {
    && BoxInv(s.start) && SentById(s.start) && s.calls == []
    && |s.waits| == |s.queries|
    && forall w :: 0 <= w < |s.waits| ==> s.waits[w] == Polling
  }

  lemma CallKeepsWait(s: Shared, c: Call, w: nat)
    requires WaitsInv(s) && w < |s.waits|
    ensures WaitOk(s.(calls := s.calls + [c]), w)
  {
    assert WaitOk(s, w);
    var wait := s.waits[w];
    if wait.Threw? {
      CallGrows(s, c, wait.id);
    } else if wait.Picked? || wait.Returned? {
      var id := wait.msg.id;
      CallGrows(s, c, id);
      if wait.Returned? {
        var k :| 0 <= k < |Now(s).acks| && Now(s).acks[k] == (w, id);
        assert Now(s.(calls := s.calls + [c])).acks[k] == (w, id);
      }
    }
  }

  /** What a wait picks was sent, and is exactly as it was sent. */
  lemma PickIsSent(s: Shared, w: nat, found: map<MsgId, Msg>, pick: Option<Msg>)
    requires WaitsInv(s) && Ready(s, EndScan(w, found, pick)) && pick.Some?
    ensures IsSent(Now(s), pick.value)
  {
    var id :| id in found && found[id] == pick.value;
    ListingIsTrue(s.start, s.calls, UnreadDir, s.waits[w].from, |s.calls|, found, id);
    SentByIdAlways(s.start, s.calls, |s.calls|);
  }

  /** Acknowledging it succeeds exactly when it is still unread, and then records the caller. */
  lemma AckDecides(s: Shared, w: nat)
    requires WaitsInv(s) && Ready(s, Ack(w))
    ensures WaitOk(After(s, Ack(w)), w)
  {
    assert WaitOk(s, w);
    var msg := s.waits[w].msg;
    CallGrows(s, AckRename(w, msg.id), msg.id);
    RunKeepsBoxInv(s.start, s.calls, |s.calls|);
    PhaseOf(Now(s), msg.id);
    if msg.id in Now(s).unread {
      var t := After(s, Ack(w));
      assert Now(t) == Next(Now(s), AckRename(w, msg.id));
      assert Now(t).acks[|Now(s).acks|] == (w, msg.id);
    }
  }

  /** A file that left a directory was acknowledged or deleted. */
  lemma LeftIsConsumed(s: Shared, dir: Dir, from: nat, id: MsgId)
    requires BoxInv(s.start) && LeftMeanwhile(s, dir, from, id)
    ensures id in Now(s).sent && Phase(Now(s), id) >= 2
  {
    var t: nat, u: nat :| from <= t <= u <= |s.calls|
      && id in Files(StateAt(s.start, s.calls, t), dir) && id !in Files(StateAt(s.start, s.calls, u), dir);
    PhaseAt(s.start, s.calls, t, u, id);
    PhaseAt(s.start, s.calls, u, |s.calls|, id);
    RunKeepsBoxInv(s.start, s.calls, |s.calls|);
    PhaseOf(Now(s), id);
  }

  lemma EventKeepsWaits(s: Shared, e: Event)
    requires WaitsInv(s) && Ready(s, e)
    ensures WaitsInv(After(s, e))
  {
    var t := After(s, e);
    forall v | 0 <= v < |t.waits|
      ensures WaitOk(t, v)
    {
      assert WaitOk(s, v);
      match e
      case Elsewhere(c) => CallKeepsWait(s, c, v);
      case EndScan(w, found, pick) =>
        if v == w && pick.Some? {
          PickIsSent(s, w, found, pick);
        }
      case ScanThrows(w, dir, id) =>
        if v == w {
          LeftIsConsumed(s, dir, s.waits[w].from, id);
        }
      case Ack(w) =>
        if v == w {
          AckDecides(s, w);
        } else {
          CallKeepsWait(s, AckRename(w, s.waits[w].msg.id), v);
        }
      case _ =>
    }
  }

  lemma {:induction false} RunKeepsWaits(s: Shared, es: seq<Event>)
    requires WaitsInv(s) && IsWaitRun(s, es)
    ensures WaitsInv(ExecWaits(s, es)) && |ExecWaits(s, es).waits| == |s.waits|
    decreases |es|
  {
    if es != [] {
      EventKeepsWaits(s, es[0]);
      RunKeepsWaits(After(s, es[0]), es[1..]);
    }
  }

  /** A message is acknowledged by one caller at most. */
  lemma AckedByOne(s: Shared, v: nat, w: nat, id: MsgId)
    requires BoxInv(s.start) && AckedBy(Now(s), v, id) && AckedBy(Now(s), w, id)
    ensures v == w
  {
    var acks := Now(s).acks;
    var j :| 0 <= j < |acks| && acks[j] == (v, id);
    var k :| 0 <= k < |acks| && acks[k] == (w, id);
    AcksAreDistinct(s.start, s.calls, j, k);
  }

  /** In every interleaving, two waits never return the same message. */
  lemma WaitsReturnDistinctMessages(s: Shared, es: seq<Event>, v: nat, w: nat)
    requires WaitsInit(s) && IsWaitRun(s, es) && v < |s.waits| && w < |s.waits| && v != w
    ensures var t := ExecWaits(s, es);
            |t.waits| == |s.waits|
            && (t.waits[v].Returned? && t.waits[w].Returned? ==> t.waits[v].msg.id != t.waits[w].msg.id)
  {
    RunKeepsWaits(s, es);
    var t := ExecWaits(s, es);
    assert WaitOk(t, v) && WaitOk(t, w);
    if t.waits[v].Returned? && t.waits[w].Returned? && t.waits[v].msg.id == t.waits[w].msg.id {
      AckedByOne(t, v, w, t.waits[v].msg.id);
    }
  }

  /** A wait returns a message as it was sent, and has consumed it; it throws, while listing or while
      acknowledging, only on a message that is consumed or deleted already. */
  lemma WaitOutcome(s: Shared, es: seq<Event>, w: nat)
    requires WaitsInit(s) && IsWaitRun(s, es) && w < |s.waits|
    ensures var t := ExecWaits(s, es);
            && |t.waits| == |s.waits|
            && (t.waits[w].Returned? ==> IsSent(Now(t), t.waits[w].msg) && IsConsumed(Now(t), t.waits[w].msg.id))
            && (t.waits[w].Threw? ==> IsConsumed(Now(t), t.waits[w].id))
  {
    RunKeepsWaits(s, es);
    var t := ExecWaits(s, es);
    assert WaitOk(t, w);
    RunKeepsBoxInv(t.start, t.calls, |t.calls|);
    if t.waits[w].Returned? {
      PhaseOf(Now(t), t.waits[w].msg.id);
    } else if t.waits[w].Threw? {
      PhaseOf(Now(t), t.waits[w].id);
    }
  }

  predicate IsConsumed(b: Box, id: MsgId) {
    id in b.sent && (id in b.read || id in b.gone)
  }

  lemma WaitThen(s: Shared, e: Event, es: seq<Event>)
    requires Ready(s, e) && IsWaitRun(After(s, e), es)
    ensures IsWaitRun(s, [e] + es) && ExecWaits(s, [e] + es) == ExecWaits(After(s, e), es)
  {
    assert ([e] + es)[1..] == es;
  }

  predicate HasEnded(wait: Wait) {
    wait.Returned? || wait.Threw? || wait.GaveUp?
  }

  lemma {:induction false} EndedStaysEnded(s: Shared, es: seq<Event>, w: nat)
    requires IsWaitRun(s, es) && w < |s.waits| && HasEnded(s.waits[w])
    ensures w < |ExecWaits(s, es).waits| && ExecWaits(s, es).waits[w] == s.waits[w]
    decreases |es|
  {
    if es != [] {
      EndedStaysEnded(After(s, es[0]), es[1..], w);
    }
  }

  /** A listing that fails over a file that moved is an error that leaves the call: the mailbox is untouched by
      it, and the wait neither returns a message nor polls again, whatever happens later. */
  lemma FailedListingEndsTheWait(s: Shared, w: nat, dir: Dir, id: MsgId, es: seq<Event>)
    requires Ready(s, ScanThrows(w, dir, id)) && IsWaitRun(After(s, ScanThrows(w, dir, id)), es)
    ensures Now(After(s, ScanThrows(w, dir, id))) == Now(s)
    ensures var t := ExecWaits(After(s, ScanThrows(w, dir, id)), es); w < |t.waits| && t.waits[w] == Threw(id)
  {
    EndedStaysEnded(After(s, ScanThrows(w, dir, id)), es, w);
  }

  /** The whole unread directory, as a scan that nobody interferes with lists it. */
  function AllUnread(b: Box): map<MsgId, Msg> {
    map id | id in b.unread && b.unread[id].Whole? :: b.unread[id].value
  }

  /** It lists the whole directory and picks the oldest match. */
  lemma UndisturbedPick(s: Shared, w: nat, pick: Msg)
    requires WaitsInv(s) && w < |s.waits| && s.waits[w].Polling?
    requires IsOldestMatch(s.queries[w], AllUnread(Now(s)), Some(pick))
    ensures var s1 := After(s, BeginScan(w));
            && Ready(s1, EndScan(w, AllUnread(Now(s)), Some(pick)))
            && var s2 := After(s1, EndScan(w, AllUnread(Now(s)), Some(pick)));
               WaitsInv(s2) && s2 == s.(waits := s.waits[w := Picked(pick)]) && pick.id in Now(s2).unread
  {
    var found := AllUnread(Now(s));
    RunKeepsBoxInv(s.start, s.calls, |s.calls|);
    var s1 := After(s, BeginScan(w));
    assert Now(s1) == Now(s);
    UndisturbedScan(s1, found);
    EventKeepsWaits(s, BeginScan(w));
    EventKeepsWaits(s1, EndScan(w, found, Some(pick)));
    SentByIdAlways(s.start, s.calls, |s.calls|);
    PickIsUnread(s, pick);
  }

  /** A wait that nobody interferes with returns the oldest match in the mailbox, and has moved it to read. */
  lemma UndisturbedWaitReturns(s: Shared, w: nat, pick: Msg)
    requires WaitsInv(s) && w < |s.waits| && s.waits[w].Polling?
    requires IsOldestMatch(s.queries[w], AllUnread(Now(s)), Some(pick))
    ensures var es := [BeginScan(w)] + ([EndScan(w, AllUnread(Now(s)), Some(pick))] + ([Ack(w)] + []));
            && IsWaitRun(s, es)
            && var t := ExecWaits(s, es);
               && t.waits == s.waits[w := Returned(pick)]
               && pick.id in Now(t).read && pick.id !in Now(t).unread
  {
    var found := AllUnread(Now(s));
    UndisturbedPick(s, w, pick);
    var s1 := After(s, BeginScan(w));
    var s2 := After(s1, EndScan(w, found, Some(pick)));
    UndisturbedAck(s2, w, pick);
    WaitThen(s2, Ack(w), []);
    WaitThen(s1, EndScan(w, found, Some(pick)), [Ack(w)] + []);
    WaitThen(s, BeginScan(w), [EndScan(w, found, Some(pick))] + ([Ack(w)] + []));
  }

  lemma PickIsUnread(s: Shared, pick: Msg)
    requires BoxInv(Now(s)) && SentById(Now(s)) && exists id :: id in AllUnread(Now(s)) && AllUnread(Now(s))[id] == pick
    ensures pick.id in Now(s).unread
  {
    var id :| id in AllUnread(Now(s)) && AllUnread(Now(s))[id] == pick;
    assert Placed(Now(s), id);
  }

  lemma UndisturbedAck(s: Shared, w: nat, pick: Msg)
    requires WaitsInv(s) && w < |s.waits| && s.waits[w] == Picked(pick) && pick.id in Now(s).unread
    ensures var t := After(s, Ack(w));
            && t.waits == s.waits[w := Returned(pick)]
            && pick.id in Now(t).read && pick.id !in Now(t).unread
  {
    RunKeepsBoxInv(s.start, s.calls, |s.calls|);
    CallGrows(s, AckRename(w, pick.id), pick.id);
    CallMovesItsMessage(Now(s), w, pick.id);
    assert Now(After(s, Ack(w))) == Now(s.(calls := s.calls + [AckRename(w, pick.id)]));
  }

  lemma UndisturbedScan(s: Shared, found: map<MsgId, Msg>)
    requires BoxInv(Now(s)) && found == AllUnread(Now(s))
    ensures Scanned(s.start, s.calls, UnreadDir, |s.calls|, |s.calls|, found)
  {
    var now := |s.calls|;
    forall id | id !in found
      ensures id !in Files(StateAt(s.start, s.calls, now), UnreadDir)
    {
      assert Placed(Now(s), id);
    }
  }

  // ----- the pick is the inbox's first item -----

  /** `msgs` are the messages of the listed files, in the order the directory gave them. */
  ghost predicate ListsFiles(found: map<MsgId, Msg>, msgs: seq<Msg>) {
    && (forall id :: id in found ==> found[id].id == id && found[id] in msgs)
    && (forall i :: 0 <= i < |msgs| ==> msgs[i].id in found && found[msgs[i].id] == msgs[i])
  }

  /** What a wait picks is the first item of the unread inbox over what it listed, and nothing when that
      inbox is empty. */
  lemma PickIsFirstOfInbox(q: Query, found: map<MsgId, Msg>, snap: Snapshot, pick: Option<Msg>)
    requires q.unreadOnly && ListsFiles(found, snap.unread)
    ensures IsOldestMatch(q, found, pick) <==>
              pick == if ListInbox(snap, q) == [] then None else Some(ListInbox(snap, q)[0].msg)
  {
    var items := ListInbox(snap, q);
    if items == [] {
      NoneShown(snap, q);
    } else {
      OldestFirst(snap, q);
      var first := items[0].msg;
      assert first in snap.unread && found[first.id] == first && Matches(q, first);
      assert IsOldestMatch(q, found, Some(first));
      if IsOldestMatch(q, found, pick) && pick.Some? {
        IdLeTotal(pick.value.id, first.id);
      }
    }
  }
}
