/**
 A mailbox as two directories of message files (`file-store.ts`), one file-system call at a time.

 Any number of processes send, acknowledge, delete and list at once. A message is sent by filling a
 temporary file and renaming it into the unread directory, acknowledged by renaming it into the
 read directory, and deleted by removing its file. Temporary names never end in `.json`, so no
 listing shows them.
 */
module Mailbox {
  import opened Prelude

  type MsgId = string

  datatype Msg = Msg(id: MsgId, from: string, fromHandle: string, thread: Option<string>, body: string)

  datatype Draft = Draft(msg: Msg, content: Content<Msg>)

  /** `sent`, `gone` and `acks` are history: every message put, every one deleted, and every
      acknowledgement that succeeded, by caller. */
  datatype Box = Box(
    unread: map<MsgId, Content<Msg>>,
    read: map<MsgId, Content<Msg>>,
    tmps: map<nat, Draft>,
    sent: map<MsgId, Msg>,
    gone: set<MsgId>,
    acks: seq<(nat, MsgId)>)

  datatype Call =
    | OpenTmp(name: nat, msg: Msg)
    | FillTmp(name: nat)
    | Place(name: nat)
    | AckRename(caller: nat, id: MsgId)
    | RemoveUnread(id: MsgId)
    | RemoveRead(id: MsgId)

  /** One call. A call that does not find its file, or would reuse a message id or a temporary name,
      changes nothing. */
  function Next(b: Box, c: Call): Box {
    match c
    case OpenTmp(name, msg) => if name in b.tmps then b else b.(tmps := b.tmps[name := Draft(msg, Torn)])
    case FillTmp(name) =>
      if name !in b.tmps then b else b.(tmps := b.tmps[name := Draft(b.tmps[name].msg, Whole(b.tmps[name].msg))])
    case Place(name) =>
      if name !in b.tmps || b.tmps[name].content.Torn? || b.tmps[name].msg.id in b.sent then b
      else
        var d := b.tmps[name];
        b.(unread := b.unread[d.msg.id := d.content], tmps := b.tmps - {name}, sent := b.sent[d.msg.id := d.msg])
    case AckRename(caller, id) =>
      if id !in b.unread then b
      else b.(unread := b.unread - {id}, read := b.read[id := b.unread[id]], acks := b.acks + [(caller, id)])
    case RemoveUnread(id) => if id !in b.unread then b else b.(unread := b.unread - {id}, gone := b.gone + {id})
    case RemoveRead(id) => if id !in b.read then b else b.(read := b.read - {id}, gone := b.gone + {id})
  }

  function StateAt(b: Box, calls: seq<Call>, t: nat): Box
    requires t <= |calls|
  {
    if t == 0 then b else Next(StateAt(b, calls, t - 1), calls[t - 1])
  }

  const EMPTY := Box(map[], map[], map[], map[], {}, [])

  /** A message put is in exactly one of unread, read and gone, whole and as it was sent; one that was
      never put is in none of them. */
  predicate Placed(b: Box, id: MsgId) {
    && (id in b.unread ==> id !in b.read && id !in b.gone && id in b.sent && b.unread[id] == Whole(b.sent[id]))
    && (id in b.read ==> id !in b.gone && id in b.sent && b.read[id] == Whole(b.sent[id]))
    && (id in b.gone ==> id in b.sent)
    && (id in b.sent ==> id in b.unread || id in b.read || id in b.gone)
  }

  ghost predicate Conserved(b: Box) {
    && (forall id: MsgId :: Placed(b, id))
    && (forall name :: name in b.tmps && b.tmps[name].content.Whole? ==>
          b.tmps[name].content.value == b.tmps[name].msg)
  }

  /** Acknowledged messages have left the unread directory, and none was acknowledged twice. */
  ghost predicate AcksOnce(b: Box) {
    && (forall k :: 0 <= k < |b.acks| ==> b.acks[k].1 in b.read || b.acks[k].1 in b.gone)
    && (forall j, k :: 0 <= j < k < |b.acks| ==> b.acks[j].1 != b.acks[k].1)
  }

  ghost predicate BoxInv(b: Box) {
    Conserved(b) && AcksOnce(b)
  }

  lemma CallConserves(b: Box, c: Call)
    requires Conserved(b)
    ensures Conserved(Next(b, c))
  {
    forall id: MsgId
      ensures Placed(Next(b, c), id)
    {
      assert Placed(b, id);
    }
  }

  lemma CallKeepsBoxInv(b: Box, c: Call)
    requires BoxInv(b)
    ensures BoxInv(Next(b, c))
  {
    CallConserves(b, c);
    var b' := Next(b, c);
    forall k | 0 <= k < |b'.acks|
      ensures b'.acks[k].1 in b'.read || b'.acks[k].1 in b'.gone
    {
      if k < |b.acks| {
        assert b'.acks[k] == b.acks[k] && Placed(b, b.acks[k].1);
      }
    }
    forall j, k | 0 <= j < k < |b'.acks|
      ensures b'.acks[j].1 != b'.acks[k].1
    {
      assert Placed(b, b.acks[j].1);
    }
  }

  /** Conservation and single consumption over any interleaving of calls. */
  lemma {:induction false} RunKeepsBoxInv(b: Box, calls: seq<Call>, t: nat)
    requires BoxInv(b) && t <= |calls|
    ensures BoxInv(StateAt(b, calls, t))
  {
    if t > 0 {
      RunKeepsBoxInv(b, calls, t - 1);
      CallKeepsBoxInv(StateAt(b, calls, t - 1), calls[t - 1]);
    }
  }

  lemma EveryMessageIsConserved(calls: seq<Call>, t: nat)
    requires t <= |calls|
    ensures BoxInv(StateAt(EMPTY, calls, t))
  {
    RunKeepsBoxInv(EMPTY, calls, t);
  }

  // ----- every call takes effect, on its own message only -----

  /** The message a call is about. */
  function Subject(b: Box, c: Call): Option<MsgId> {
    match c
    case OpenTmp(_, _) => None
    case FillTmp(_) => None
    case Place(name) => if name in b.tmps then Some(b.tmps[name].msg.id) else None
    case AckRename(_, id) => Some(id)
    case RemoveUnread(id) => Some(id)
    case RemoveRead(id) => Some(id)
  }

  /** A message no call is about stays where it is, as it is. */
  lemma OthersStay(b: Box, c: Call, id: MsgId)
    requires Subject(b, c) != Some(id)
    ensures var t := Next(b, c);
            && (id in t.unread <==> id in b.unread) && (id in b.unread ==> t.unread[id] == b.unread[id])
            && (id in t.read <==> id in b.read) && (id in b.read ==> t.read[id] == b.read[id])
            && (id in t.gone <==> id in b.gone) && (id in t.sent <==> id in b.sent)
  {
  }

  /** An acknowledgement of an unread message moves it, as it is, to read; a deletion of a message makes it
      gone. */
  lemma CallMovesItsMessage(b: Box, caller: nat, id: MsgId)
    requires Conserved(b)
    ensures id in b.unread ==>
              var t := Next(b, AckRename(caller, id));
              && id !in t.unread && id in t.read && t.read[id] == b.unread[id] && t.acks == b.acks + [(caller, id)]
    ensures id in b.unread ==> Phase(Next(b, RemoveUnread(id)), id) == 3 && id !in Next(b, RemoveUnread(id)).unread
    ensures id in b.read ==> Phase(Next(b, RemoveRead(id)), id) == 3 && id !in Next(b, RemoveRead(id)).read
  {
    assert Placed(b, id);
  }

  /** Neither opens a temporary file under this name nor fills, places or sends the same message. */
  predicate LeavesDraft(b: Box, c: Call, name: nat, id: MsgId) {
    match c
    case OpenTmp(n, _) => n != name
    case FillTmp(n) => n != name
    case Place(n) => n != name && (n in b.tmps ==> b.tmps[n].msg.id != id)
    case _ => true
  }

  /** The temporary file of a message that has not been sent, empty or filled. */
  predicate HoldsDraft(b: Box, name: nat, msg: Msg, content: Content<Msg>) {
    name in b.tmps && b.tmps[name] == Draft(msg, content) && msg.id !in b.sent
  }

  lemma DraftIsUndisturbed(b: Box, c: Call, name: nat, msg: Msg, content: Content<Msg>)
    requires HoldsDraft(b, name, msg, content) && LeavesDraft(b, c, name, msg.id)
    ensures HoldsDraft(Next(b, c), name, msg, content)
  {
  }

  /** A message put arrives: its file is opened, filled and renamed, whatever others do in between, and then
      it is unread, whole and as it was sent. */
  lemma PutArrives(b: Box, name: nat, msg: Msg)
    requires name !in b.tmps && msg.id !in b.sent
    ensures HoldsDraft(Next(b, OpenTmp(name, msg)), name, msg, Torn)
    ensures forall later: Box ::
              HoldsDraft(later, name, msg, Torn) ==> HoldsDraft(Next(later, FillTmp(name)), name, msg, Whole(msg))
    ensures forall later: Box :: HoldsDraft(later, name, msg, Whole(msg)) ==>
              Arrived(Next(later, Place(name)), msg) && name !in Next(later, Place(name)).tmps
  {
  }

  predicate Arrived(b: Box, msg: Msg) {
    && msg.id in b.unread && b.unread[msg.id] == Whole(msg)
    && msg.id in b.sent && b.sent[msg.id] == msg
  }

  // ----- messages only move forward -----

  /** 0 before it is put, then unread, read, gone. */
  function Phase(b: Box, id: MsgId): nat {
    if id in b.gone then 3 else if id in b.read then 2 else if id in b.unread then 1 else 0
  }

  lemma PhaseOf(b: Box, id: MsgId)
    requires Conserved(b)
    ensures Phase(b, id) == 1 <==> id in b.unread
    ensures Phase(b, id) == 2 <==> id in b.read
    ensures Phase(b, id) == 3 <==> id in b.gone
    ensures Phase(b, id) == 0 <==> id !in b.sent
  {
    assert Placed(b, id);
  }

  lemma CallForward(b: Box, c: Call, id: MsgId)
    requires Conserved(b)
    ensures Phase(b, id) <= Phase(Next(b, c), id)
    ensures id in b.sent ==> id in Next(b, c).sent && Next(b, c).sent[id] == b.sent[id]
  {
    assert Placed(b, id);
  }

  lemma {:induction false} OnlyForward(b: Box, calls: seq<Call>, s: nat, t: nat, id: MsgId)
    requires BoxInv(b) && s <= t <= |calls|
    ensures Phase(StateAt(b, calls, s), id) <= Phase(StateAt(b, calls, t), id)
    ensures id in StateAt(b, calls, s).sent ==>
              id in StateAt(b, calls, t).sent && StateAt(b, calls, t).sent[id] == StateAt(b, calls, s).sent[id]
    decreases t - s
  {
    if s < t {
      OnlyForward(b, calls, s, t - 1, id);
      RunKeepsBoxInv(b, calls, t - 1);
      CallForward(StateAt(b, calls, t - 1), calls[t - 1], id);
    }
  }

  lemma {:induction false} PhaseAt(b: Box, calls: seq<Call>, s: nat, t: nat, id: MsgId)
    requires BoxInv(b) && s <= t <= |calls|
    ensures Phase(StateAt(b, calls, s), id) <= Phase(StateAt(b, calls, t), id)
    ensures forall x :: x in {s, t} ==>
              var c := StateAt(b, calls, x);
              && (Phase(c, id) == 1 <==> id in c.unread)
              && (Phase(c, id) == 2 <==> id in c.read)
              && (Phase(c, id) == 3 <==> id in c.gone)
  {
    OnlyForward(b, calls, s, t, id);
    RunKeepsBoxInv(b, calls, s);
    RunKeepsBoxInv(b, calls, t);
    PhaseOf(StateAt(b, calls, s), id);
    PhaseOf(StateAt(b, calls, t), id);
  }

  // ----- listing while others move messages -----

  datatype Dir = UnreadDir | ReadDir

  function Files(b: Box, dir: Dir): map<MsgId, Content<Msg>> {
    if dir.UnreadDir? then b.unread else b.read
  }

  /** A directory scanned between two moments: a name there all the while is listed, a name never there
      is not, and a name that came or went in between may be either. Each listed file was then read
      at some moment, and was there; had it not been, the listing would have thrown. */
  ghost predicate Scanned(b: Box, calls: seq<Call>, dir: Dir, from: nat, to: nat, found: map<MsgId, Msg>)
    requires from <= to <= |calls|
  {
    && (forall id :: id !in found ==> exists t: nat :: from <= t <= to && id !in Files(StateAt(b, calls, t), dir))
    && (forall id :: id in found ==>
          exists t: nat :: from <= t <= to && id in Files(StateAt(b, calls, t), dir)
                           && Files(StateAt(b, calls, t), dir)[id] == Whole(found[id]))
  }

  /** `listInbox`: the unread directory first, the read directory after it. */
  ghost predicate Listed(b: Box, calls: seq<Call>, from: nat, mid: nat, to: nat,
                         unread: map<MsgId, Msg>, read: map<MsgId, Msg>)
    requires from <= mid <= to <= |calls|
  {
    Scanned(b, calls, UnreadDir, from, mid, unread) && Scanned(b, calls, ReadDir, mid, to, read)
  }

  /** Whatever acks, deliveries and deletions run meanwhile, a listing that returns has every message
      that was in the mailbox when it began and was not deleted by its end. */
  lemma {:induction false} ListingNeverMisses(b: Box, calls: seq<Call>, from: nat, mid: nat, to: nat,
                           unread: map<MsgId, Msg>, read: map<MsgId, Msg>, id: MsgId)
    requires BoxInv(b) && from <= mid <= to <= |calls| && Listed(b, calls, from, mid, to, unread, read)
    requires id in StateAt(b, calls, from).unread || id in StateAt(b, calls, from).read
    requires id !in StateAt(b, calls, to).gone
    ensures id in unread || id in read
  {
    if id !in unread && id !in read {
      var t: nat :| from <= t <= mid && id !in Files(StateAt(b, calls, t), UnreadDir);
      var u: nat :| mid <= u <= to && id !in Files(StateAt(b, calls, u), ReadDir);
      PhaseAt(b, calls, from, t, id);
      PhaseAt(b, calls, t, u, id);
      PhaseAt(b, calls, u, to, id);
    }
  }

  /** And it has nothing else: every message listed was sent, and is read back exactly as it was sent,
      never torn. */
  lemma {:induction false} ListingIsTrue(b: Box, calls: seq<Call>, dir: Dir, from: nat, to: nat,
                                         found: map<MsgId, Msg>, id: MsgId)
    requires BoxInv(b) && from <= to <= |calls| && Scanned(b, calls, dir, from, to, found) && id in found
    ensures id in StateAt(b, calls, to).sent && found[id] == StateAt(b, calls, to).sent[id]
  {
    var t: nat :| from <= t <= to && id in Files(StateAt(b, calls, t), dir)
                  && Files(StateAt(b, calls, t), dir)[id] == Whole(found[id]);
    RunKeepsBoxInv(b, calls, t);
    assert Placed(StateAt(b, calls, t), id);
    OnlyForward(b, calls, t, to, id);
  }

  /** The order matters: read before unread can miss a message that is in the mailbox throughout. */
  lemma ReverseOrderMisses(m: Msg)
    ensures var b := Box(map[m.id := Whole(m)], map[], map[], map[m.id := m], {}, []);
            var calls := [AckRename(0, m.id)];
            && BoxInv(b)
            && Scanned(b, calls, ReadDir, 0, 0, map[]) && Scanned(b, calls, UnreadDir, 1, 1, map[])
            && m.id in b.unread && m.id !in StateAt(b, calls, 1).gone
  {
    var b := Box(map[m.id := Whole(m)], map[], map[], map[m.id := m], {}, []);
    var calls := [AckRename(0, m.id)];
    assert StateAt(b, calls, 0) == b;
    assert StateAt(b, calls, 1) == Next(b, calls[0]);
    forall id: MsgId
      ensures id !in Files(StateAt(b, calls, 0), ReadDir) && id !in Files(StateAt(b, calls, 1), UnreadDir)
    {
    }
  }

  // ----- single consumption -----

  /** An acknowledgement of a message succeeds at most once. */
  lemma AcksAreDistinct(b: Box, calls: seq<Call>, j: nat, k: nat)
    requires BoxInv(b) && j < |StateAt(b, calls, |calls|).acks| && k < |StateAt(b, calls, |calls|).acks|
    requires StateAt(b, calls, |calls|).acks[j].1 == StateAt(b, calls, |calls|).acks[k].1
    ensures j == k
  {
    RunKeepsBoxInv(b, calls, |calls|);
  }
}
