/**
 Reading a mailbox (`message.ts`) and waiting on it (`await.ts`, `watch.ts`).

 The two waiting loops run against an arbitrary script of what they observe: what each poll finds, what
 the clock reads and whether an acknowledgement succeeds. A script is finite, so a loop also ends,
 unfinished, where its script does.
 */
module Inbox {
  import opened Prelude
  import opened Mailbox

  datatype Item = Item(msg: Msg, read: bool)

  /** What one `listInbox` returned; a message moved meanwhile can be in both parts. */
  datatype Snapshot = Snapshot(unread: seq<Msg>, read: seq<Msg>)

  datatype Query = Query(unreadOnly: bool, from: string, thread: string)

  // ----- ordering by id -----

  predicate IdLe(a: string, b: string) {
    if a == [] then true
    else if b == [] then false
    else if a[0] != b[0] then a[0] < b[0]
    else IdLe(a[1..], b[1..])
  }

  lemma {:induction false} IdLeTotal(a: string, b: string)
    ensures IdLe(a, b) || IdLe(b, a)
    ensures IdLe(a, b) && IdLe(b, a) ==> a == b
  {
    if a != [] && b != [] && a[0] == b[0] {
      IdLeTotal(a[1..], b[1..]);
      assert a == [a[0]] + a[1..] && b == [b[0]] + b[1..];
    }
  }

  lemma {:induction false} IdLeTransitive(a: string, b: string, c: string)
    requires IdLe(a, b) && IdLe(b, c)
    ensures IdLe(a, c)
  {
    if a != [] && b != [] && c != [] && a[0] == b[0] == c[0] {
      IdLeTransitive(a[1..], b[1..], c[1..]);
    }
  }

  /** At `k`, and not before, `a` and `b` differ, and `a` has the smaller character. */
  predicate SmallerAt(a: string, b: string, k: nat) {
    k < |a| && k < |b| && a[k] < b[k] && forall i :: 0 <= i < k ==> a[i] == b[i]
  }

  lemma SmallerAtTail(a: string, b: string, k: nat)
    requires a != [] && b != [] && a[0] == b[0]
    ensures SmallerAt(a, b, k + 1) <==> SmallerAt(a[1..], b[1..], k)
  {
    if SmallerAt(a[1..], b[1..], k) {
      forall i | 0 <= i < k + 1
        ensures a[i] == b[i]
      {
        if i > 0 {
          assert a[1..][i - 1] == b[1..][i - 1];
        }
      }
    }
  }

  /** The first character in which two ids differ decides, and a prefix comes first. */
  lemma {:induction false} IdLeIsLexical(a: string, b: string)
    ensures IdLe(a, b) <==> a <= b || exists k: nat :: SmallerAt(a, b, k)
  {
    if a != [] && b != [] {
      if a[0] == b[0] {
        IdLeIsLexical(a[1..], b[1..]);
        assert a <= b <==> a[1..] <= b[1..] by {
          assert a == [a[0]] + a[1..] && b == [b[0]] + b[1..];
        }
        if k: nat :| SmallerAt(a[1..], b[1..], k) {
          SmallerAtTail(a, b, k);
        }
        if k: nat :| SmallerAt(a, b, k) {
          SmallerAtTail(a, b, k - 1);
        }
      } else {
        assert SmallerAt(a, b, 0) <==> a[0] < b[0];
      }
    }
  }

  predicate IsDigits(s: string) {
    forall i :: 0 <= i < |s| ==> '0' <= s[i] <= '9'
  }

  /** The number that decimal digits spell. */
  function Value(digits: string): nat
    requires IsDigits(digits)
  {
    if digits == "" then 0 else 10 * Value(digits[..|digits| - 1]) + (digits[|digits| - 1] as int - '0' as int)
  }

  /** The leading digits decide, or are the same number and the last one does. */
  lemma SmallerValue(a: string, b: string)
    requires a != "" && b != "" && IsDigits(a) && IsDigits(b) && Value(a) < Value(b)
    ensures var high, low := a[..|a| - 1], b[..|b| - 1];
            Value(high) < Value(low) || (Value(high) == Value(low) && a[|a| - 1] < b[|b| - 1])
  {
    var x, y := a[|a| - 1], b[|b| - 1];
    assert '0' <= x <= '9' && '0' <= y <= '9';
  }

  /** Of two times spelled with equally many digits the smaller one comes first, whatever follows: ids that
      start with the time in milliseconds sort by it. */
  lemma {:induction false} EarlierSortsFirst(a: string, b: string, x: string, y: string)
    requires |a| == |b| && IsDigits(a) && IsDigits(b) && Value(a) < Value(b)
    ensures IdLe(a + x, b + y) && !IdLe(b + y, a + x)
  {
    assert a != "" && b != "";
    var last := |a| - 1;
    var high, low, u, v := a[..last], b[..last], [a[last]] + x, [b[last]] + y;
    assert a + x == high + u && b + y == low + v;
    SmallerValue(a, b);
    if Value(high) < Value(low) {
      EarlierSortsFirst(high, low, u, v);
    } else {
      SameValueSameDigits(high, low);
      assert u[0] < v[0];
      SamePrefixDecidesLater(high, u, v);
      SamePrefixDecidesLater(high, v, u);
    }
  }

  lemma {:induction false} SameValueSameDigits(a: string, b: string)
    requires |a| == |b| && IsDigits(a) && IsDigits(b) && Value(a) == Value(b)
    ensures a == b
  {
    if a != "" {
      var last := |a| - 1;
      SameValueSameDigits(a[..last], b[..last]);
      assert a == a[..last] + [a[last]] && b == b[..last] + [b[last]];
    }
  }

  lemma {:induction false} SamePrefixDecidesLater(p: string, a: string, b: string)
    ensures IdLe(p + a, p + b) <==> IdLe(a, b)
  {
    if p == "" {
      assert p + a == a && p + b == b;
    } else {
      SamePrefixDecidesLater(p[1..], a, b);
      assert (p + a)[1..] == p[1..] + a && (p + b)[1..] == p[1..] + b;
    }
  }

  ghost predicate Sorted(items: seq<Item>) {
    forall i, j :: 0 <= i < j < |items| ==> IdLe(items[i].msg.id, items[j].msg.id)
  }

  function Insert(item: Item, items: seq<Item>): seq<Item> {
    if items == [] || IdLe(item.msg.id, items[0].msg.id) then [item] + items
    else [items[0]] + Insert(item, items[1..])
  }

  /** A stable sort by id. */
  function SortById(items: seq<Item>): seq<Item> {
    if items == [] then [] else Insert(items[0], SortById(items[1..]))
  }

  ghost predicate NoneBefore(id: string, items: seq<Item>) {
    forall j :: 0 <= j < |items| ==> IdLe(id, items[j].msg.id)
  }

  lemma SortedCons(item: Item, items: seq<Item>)
    requires NoneBefore(item.msg.id, items) && Sorted(items)
    ensures Sorted([item] + items)
  {
  }

  lemma {:induction false} InsertPermutes(item: Item, items: seq<Item>)
    ensures multiset(Insert(item, items)) == multiset{item} + multiset(items)
  {
    if items != [] {
      assert items == [items[0]] + items[1..];
      InsertPermutes(item, items[1..]);
    }
  }

  lemma {:induction false} InsertBounded(id: string, item: Item, items: seq<Item>)
    requires IdLe(id, item.msg.id) && NoneBefore(id, items)
    ensures NoneBefore(id, Insert(item, items))
  {
    if items != [] {
      InsertBounded(id, item, items[1..]);
    }
  }

  lemma {:induction false} InsertSorts(item: Item, items: seq<Item>)
    requires Sorted(items)
    ensures Sorted(Insert(item, items))
  {
    if items == [] {
    } else if IdLe(item.msg.id, items[0].msg.id) {
      forall j | 0 <= j < |items|
        ensures IdLe(item.msg.id, items[j].msg.id)
      {
        if j > 0 {
          IdLeTransitive(item.msg.id, items[0].msg.id, items[j].msg.id);
        }
      }
      SortedCons(item, items);
    } else {
      IdLeTotal(item.msg.id, items[0].msg.id);
      InsertSorts(item, items[1..]);
      InsertBounded(items[0].msg.id, item, items[1..]);
      SortedCons(items[0], Insert(item, items[1..]));
    }
  }

  lemma {:induction false} SortIsSorted(items: seq<Item>)
    ensures Sorted(SortById(items)) && multiset(SortById(items)) == multiset(items)
  {
    if items != [] {
      SortIsSorted(items[1..]);
      InsertSorts(items[0], SortById(items[1..]));
      InsertPermutes(items[0], SortById(items[1..]));
      assert items == [items[0]] + items[1..];
    }
  }

  // ----- the inbox -----

  function Tagged(msgs: seq<Msg>, read: bool): seq<Item> {
    seq(|msgs|, i requires 0 <= i < |msgs| => Item(msgs[i], read))
  }

  predicate Matches(q: Query, m: Msg) {
    && (q.from == "" || m.from == q.from || m.fromHandle == q.from)
    && (q.thread == "" || m.thread == Some(q.thread))
  }

  function Matching(q: Query, items: seq<Item>): seq<Item> {
    if items == [] then []
    else if Matches(q, items[0].msg) then [items[0]] + Matching(q, items[1..])
    else Matching(q, items[1..])
  }

  function ListInbox(snap: Snapshot, q: Query): seq<Item> {
    SortById(Matching(q, Tagged(snap.unread, false) + if q.unreadOnly then [] else Tagged(snap.read, true)))
  }

  predicate Shows(snap: Snapshot, q: Query, item: Item) {
    && Matches(q, item.msg)
    && (if item.read then !q.unreadOnly && item.msg in snap.read else item.msg in snap.unread)
  }

  lemma {:induction false} MatchingKeeps(q: Query, items: seq<Item>, item: Item)
    ensures item in Matching(q, items) <==> item in items && Matches(q, item.msg)
  {
    if items != [] {
      MatchingKeeps(q, items[1..], item);
      assert item in items <==> item == items[0] || item in items[1..];
    }
  }

  lemma TaggedHas(msgs: seq<Msg>, read: bool, item: Item)
    ensures item in Tagged(msgs, read) <==> item.read == read && item.msg in msgs
  {
    if item.read == read && item.msg in msgs {
      var i :| 0 <= i < |msgs| && msgs[i] == item.msg;
      assert Tagged(msgs, read)[i] == item;
    }
  }

  /** The inbox shows exactly the matching messages of the snapshot, oldest id first. */
  lemma InboxShows(snap: Snapshot, q: Query, item: Item)
    ensures Sorted(ListInbox(snap, q))
    ensures item in ListInbox(snap, q) <==> Shows(snap, q, item)
  {
    var all := Tagged(snap.unread, false) + if q.unreadOnly then [] else Tagged(snap.read, true);
    SortIsSorted(Matching(q, all));
    assert item in ListInbox(snap, q) <==> item in multiset(ListInbox(snap, q));
    assert item in Matching(q, all) <==> item in multiset(Matching(q, all));
    MatchingKeeps(q, all, item);
    TaggedHas(snap.unread, false, item);
    TaggedHas(snap.read, true, item);
  }

  /** What the filters mean: without one every unread message is shown, and every read one unless only unread
      ones are asked for; a sender filter keeps those sent from that id or handle, a thread filter those that
      carry that thread. */
  lemma FiltersMean(snap: Snapshot, q: Query, item: Item)
    ensures item in ListInbox(snap, Query(q.unreadOnly, "", "")) <==>
              if item.read then !q.unreadOnly && item.msg in snap.read else item.msg in snap.unread
    ensures item in ListInbox(snap, q) <==>
              && item in ListInbox(snap, Query(q.unreadOnly, "", ""))
              && (q.from != "" ==> q.from in {item.msg.from, item.msg.fromHandle})
              && (q.thread != "" ==> item.msg.thread.Some? && item.msg.thread.value == q.thread)
  {
    InboxShows(snap, q, item);
    InboxShows(snap, Query(q.unreadOnly, "", ""), item);
  }

  // ----- await.ts -----

  const POLL_MS := 1000

  /** One poll: what the inbox listing returned, whether an acknowledgement then succeeded (`Waits` says of
      whom it does), and the two clock readings after a poll without a match. */
  datatype Poll = Poll(snap: Snapshot, ackSucceeds: bool, elapsedAt: int, cycleAt: int)

  datatype AwaitOutcome =
    | Matched(item: Item)
    | AckFailed                // someone else consumed it first; the error leaves `awaitReply`
    | WaitingCap
    | TimedOut
    | Unfinished

  datatype Await = Await(q: Query, timeoutMs: int, maxWaitMs: int, start: int)

  predicate Expired(w: Await, p: Poll) {
    w.timeoutMs != 0 && p.elapsedAt - w.start >= w.timeoutMs
  }

  predicate Capped(w: Await, p: Poll) {
    p.cycleAt >= w.start + w.maxWaitMs
  }

  /** Nothing to return yet: no unread match, no deadline passed. */
  predicate KeepsWaiting(w: Await, p: Poll) {
    && (forall m :: m in p.snap.unread ==> !Matches(w.q, m))
    && !Expired(w, p) && !Capped(w, p)
  }

  /** The clock advances by at least the poll interval from one poll to the next. */
  ghost predicate Steady(w: Await, polls: seq<Poll>) {
    forall k :: 0 <= k < |polls| ==> polls[k].cycleAt >= w.start + k * POLL_MS
  }

  /** `awaitReply`: every poll but the last keeps waiting, and the last decides. It returns and
      acknowledges the oldest matching unread message, and acknowledges nothing otherwise; with a
      clock that advances by the poll interval it is back within the cap. */
  method AwaitReply(w: Await, polls: seq<Poll>) returns (r: AwaitOutcome, polled: nat, acked: seq<MsgId>)
    requires w.q.unreadOnly
    ensures polled <= |polls|
    ensures forall k :: 0 <= k < polled - 1 ==> KeepsWaiting(w, polls[k])
    ensures r.Unfinished? <==> polled == |polls| && (polled == 0 || KeepsWaiting(w, polls[polled - 1]))
    ensures !r.Unfinished? ==> polled > 0 && !KeepsWaiting(w, polls[polled - 1])
    ensures r.Matched? ==> polls[polled - 1].ackSucceeds && r.item.msg in polls[polled - 1].snap.unread
                           && Matches(w.q, r.item.msg)
    ensures r.Matched? ==>
              forall m :: m in polls[polled - 1].snap.unread && Matches(w.q, m) ==> IdLe(r.item.msg.id, m.id)
    ensures acked == if r.Matched? then [r.item.msg.id] else []
    ensures r.AckFailed? ==> !polls[polled - 1].ackSucceeds
                             && exists m :: m in polls[polled - 1].snap.unread && Matches(w.q, m)
    ensures r.TimedOut? || r.WaitingCap? ==> forall m :: m in polls[polled - 1].snap.unread ==> !Matches(w.q, m)
    // Every poll but the last came before both deadlines, and the last one says which has passed.
    ensures forall k :: 0 <= k < polled - 1 ==>
              && (w.timeoutMs == 0 || polls[k].elapsedAt - w.start < w.timeoutMs)
              && polls[k].cycleAt < w.start + w.maxWaitMs
    ensures r.TimedOut? ==> w.timeoutMs != 0 && polls[polled - 1].elapsedAt - w.start >= w.timeoutMs
    ensures r.WaitingCap? ==> && (w.timeoutMs == 0 || polls[polled - 1].elapsedAt - w.start < w.timeoutMs)
                              && polls[polled - 1].cycleAt >= w.start + w.maxWaitMs
    ensures Steady(w, polls) && polled > 1 ==> (polled - 2) * POLL_MS < w.maxWaitMs
  {
    polled := 0;
    while polled < |polls|
      invariant polled <= |polls|
      invariant Steady(w, polls) && polled > 0 ==> (polled - 1) * POLL_MS < w.maxWaitMs
      invariant forall k :: 0 <= k < polled ==> KeepsWaiting(w, polls[k])
    {
      var p := polls[polled];
      polled := polled + 1;
      var items := ListInbox(p.snap, w.q);
      if |items| > 0 {
        OldestFirst(p.snap, w.q);
        if !p.ackSucceeds {
          return AckFailed, polled, [];
        }
        return Matched(items[0]), polled, [items[0].msg.id];
      }
      NoneShown(p.snap, w.q);
      if Expired(w, p) {
        return TimedOut, polled, [];
      }
      if Capped(w, p) {
        return WaitingCap, polled, [];
      }
    }
    return Unfinished, polled, [];
  }

  lemma OldestFirst(snap: Snapshot, q: Query)
    requires q.unreadOnly && |ListInbox(snap, q)| > 0
    ensures var first := ListInbox(snap, q)[0];
            && first.msg in snap.unread && Matches(q, first.msg)
            && forall m :: m in snap.unread && Matches(q, m) ==> IdLe(first.msg.id, m.id)
  {
    var items := ListInbox(snap, q);
    InboxShows(snap, q, items[0]);
    forall m | m in snap.unread && Matches(q, m)
      ensures IdLe(items[0].msg.id, m.id)
    {
      InboxShows(snap, q, Item(m, false));
      var k :| 0 <= k < |items| && items[k] == Item(m, false);
      IdLeTotal(m.id, m.id);
    }
  }

  lemma NoneShown(snap: Snapshot, q: Query)
    requires ListInbox(snap, q) == []
    ensures forall m :: m in snap.unread ==> !Matches(q, m)
  {
    forall m | m in snap.unread
      ensures !Matches(q, m)
    {
      InboxShows(snap, q, Item(m, false));
    }
  }

  // ----- watch.ts -----

  function Ids(items: seq<Item>): set<MsgId> {
    set i | 0 <= i < |items| :: items[i].msg.id
  }

  lemma IdsExtend(items: seq<Item>, item: Item)
    ensures Ids(items + [item]) == Ids(items) + {item.msg.id}
    ensures forall k :: 0 <= k < |items| ==> items[k].msg.id in Ids(items)
  {
    assert forall k :: 0 <= k < |items| ==> (items + [item])[k] == items[k];
    assert (items + [item])[|items|] == item;
  }

  lemma IdsConcat(xs: seq<Item>, ys: seq<Item>)
    ensures Ids(xs + ys) == Ids(xs) + Ids(ys)
  {
    forall id | id in Ids(xs) + Ids(ys)
      ensures id in Ids(xs + ys)
    {
      if id in Ids(xs) {
        var i :| 0 <= i < |xs| && xs[i].msg.id == id;
        assert (xs + ys)[i].msg.id == id;
      } else {
        var i :| 0 <= i < |ys| && ys[i].msg.id == id;
        assert (xs + ys)[|xs| + i].msg.id == id;
      }
    }
  }

  ghost predicate DistinctIds(items: seq<Item>) {
    forall j, k :: 0 <= j < k < |items| ==> items[j].msg.id != items[k].msg.id
  }

  /** The items of one poll whose id is new, each id once. */
  method EmitNew(items: seq<Item>, seen: set<MsgId>) returns (found: seq<Item>)
    ensures Ids(found) == Ids(items) - seen && DistinctIds(found)
    ensures forall k :: 0 <= k < |found| ==> found[k] in items
  {
    found := [];
    var n := 0;
    while n < |items|
      invariant n <= |items|
      invariant Ids(found) == Ids(items[..n]) - seen && DistinctIds(found)
      invariant forall k :: 0 <= k < |found| ==> found[k] in items
    {
      var item := items[n];
      assert items[..n + 1] == items[..n] + [item];
      IdsExtend(items[..n], item);
      IdsExtend(found, item);
      if item.msg.id !in seen + Ids(found) {
        found := found + [item];
      }
      n := n + 1;
    }
    assert items[..n] == items;
  }

  /** The ids the first `n` polls show. */
  function ShownIds(polls: seq<seq<Item>>, n: nat): set<MsgId>
    requires n <= |polls|
  {
    if n == 0 then {} else ShownIds(polls, n - 1) + Ids(polls[n - 1])
  }

  predicate ShownBy(polls: seq<seq<Item>>, n: nat, item: Item)
    requires n <= |polls|
  {
    exists p :: 0 <= p < n && item in polls[p]
  }

  /** `watchMail`: each poll is one answer of `inbox` (`ListInbox`). Seeded with what is there when it
      starts, it then emits every other message that any poll shows, each id once, in whatever state
      the message is, and nothing else. */
  method WatchMail(seed: seq<Item>, polls: seq<seq<Item>>, maxIterations: Option<nat>)
    returns (emitted: seq<Item>, iterations: nat)
    ensures iterations <= |polls|
    ensures maxIterations.None? ==> iterations == |polls|
    ensures maxIterations.Some? ==> iterations == |polls| || iterations == 1 || iterations <= maxIterations.value
    ensures maxIterations.Some? && iterations < |polls| ==> iterations >= maxIterations.value
    ensures DistinctIds(emitted)
    ensures Ids(emitted) == ShownIds(polls, iterations) - Ids(seed)
    ensures forall k :: 0 <= k < |emitted| ==> ShownBy(polls, iterations, emitted[k])
  {
    var seen := Ids(seed);
    emitted := [];
    iterations := 0;
    while iterations < |polls|
      invariant iterations <= |polls|
      invariant maxIterations.Some? ==> iterations < maxIterations.value || iterations == 0
      invariant seen == Ids(seed) + ShownIds(polls, iterations)
      invariant DistinctIds(emitted)
      invariant Ids(emitted) == ShownIds(polls, iterations) - Ids(seed)
      invariant forall k :: 0 <= k < |emitted| ==> ShownBy(polls, iterations, emitted[k])
    {
      var items := polls[iterations];
      var more := EmitNew(items, seen);
      IdsConcat(emitted, more);
      NewAreDistinct(emitted, more);
      seen := seen + Ids(items);
      emitted := emitted + more;
      iterations := iterations + 1;
      if maxIterations.Some? && iterations >= maxIterations.value {
        return;
      }
    }
  }

  lemma NewAreDistinct(xs: seq<Item>, ys: seq<Item>)
    requires DistinctIds(xs) && DistinctIds(ys) && Ids(xs) !! Ids(ys)
    ensures DistinctIds(xs + ys)
  {
    forall j, k | 0 <= j < k < |xs + ys|
      ensures (xs + ys)[j].msg.id != (xs + ys)[k].msg.id
    {
      if j < |xs| <= k {
        assert xs[j].msg.id in Ids(xs) && ys[k - |xs|].msg.id in Ids(ys);
      }
    }
  }
}
