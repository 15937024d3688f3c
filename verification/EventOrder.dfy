/** The order in which waits become active in module EventLoop: in a batch of events the first event of
    each poll counts, and a broadcast wakes its waiters in the order of their queue. */
module EventOrder {
  import opened Sequences
  import opened TimeoutItem
  import opened EventLoop
  import T = TimingWheel

  // The events of a batch, one after another.
  function EventsReady(s: Loop, events: seq<Item>): Loop {
    if events == [] then s else EventReady(EventsReady(s, events[..|events| - 1]), events[|events| - 1])
  }

  lemma EventsSnoc(s: Loop, items: seq<Item>, i: nat)
    requires i < |items|
    ensures EventsReady(s, items[..i + 1]) == EventReady(EventsReady(s, items[..i]), items[i])
  {
    assert items[..i + 1][..i] == items[..i];
  }

  // ---- One event -----------------------------------------------------------------------------------

  // Nothing but the wheel, the active list and the set of detached polls differs.
  predicate ListsOnly(s: Loop, s': Loop) {
    s' == s.(wheel := s'.wheel, active := s'.active, detached := s'.detached)
  }

  // The first event of a poll takes its item from wherever it is to the end of the active list; a further
  // one does nothing.
  lemma FirstEventCounts(s: Loop, x: Item)
    ensures var s' := EventReady(s, x);
            && (x in s.detached ==> s' == s)
            && (x !in s.detached ==>
                  && ListsOnly(s, s') && s'.detached == s.detached + {x}
                  && s'.active == Drop(s.active, x) + [x]
                  && T.Pending(s'.wheel) == T.Pending(s.wheel)[x := 0])
  {
    FlattenDrop(s.wheel.slots, x);
    DropMultiset(Flatten(s.wheel.slots), x);
  }

  // ---- A list without some of its items ------------------------------------------------------------

  function Rest<A(==)>(s: seq<A>, gone: seq<A>): seq<A> {
    if s == [] then [] else (if s[0] in gone then [] else [s[0]]) + Rest(s[1..], gone)
  }

  lemma {:induction false} RestConcat<A>(a: seq<A>, b: seq<A>, gone: seq<A>)
    ensures Rest(a + b, gone) == Rest(a, gone) + Rest(b, gone)
  {
    if a == [] {
      assert a + b == b;
    } else {
      RestConcat(a[1..], b, gone);
      var head := if a[0] in gone then [] else [a[0]];
      assert (a + b)[0] == a[0] && (a + b)[1..] == a[1..] + b;
      assert head + (Rest(a[1..], gone) + Rest(b, gone)) == (head + Rest(a[1..], gone)) + Rest(b, gone);
    }
  }

  lemma {:induction false} RestOfNone<A>(s: seq<A>)
    ensures Rest(s, []) == s
  {
    if s != [] {
      RestOfNone(s[1..]);
      assert s == [s[0]] + s[1..];
    }
  }

  // One more is taken out, afterwards or before.
  lemma {:induction false} RestThenDrop<A>(s: seq<A>, gone: seq<A>, x: A)
    ensures Drop(Rest(s, gone), x) == Rest(s, gone + [x])
  {
    if s != [] {
      RestThenDrop(s[1..], gone, x);
      DropConcat(if s[0] in gone then [] else [s[0]], Rest(s[1..], gone), x);
      assert s[0] in gone + [x] <==> s[0] in gone || s[0] == x;
      assert Drop([s[0]], x) == if s[0] == x then [] else [s[0]];
    }
  }

  lemma {:induction false} DropThenRest<A>(s: seq<A>, x: A, gone: seq<A>)
    ensures Rest(Drop(s, x), gone) == Rest(s, [x] + gone)
  {
    if s != [] {
      DropThenRest(s[1..], x, gone);
      RestConcat(if s[0] == x then [] else [s[0]], Drop(s[1..], x), gone);
      assert s[0] in [x] + gone <==> s[0] == x || s[0] in gone;
      assert Rest([s[0]], gone) == if s[0] in gone then [] else [s[0]];
    }
  }

  // ---- A batch of events -----------------------------------------------------------------------------

  // The polls whose first event this batch brings, in the order of those events.
  function FirstEvents(items: seq<Item>, detached: set<Item>): (f: seq<Item>)
    ensures forall x :: x in f <==> x in items && x !in detached
  {
    if items == [] then []
    else
      var before, x := items[..|items| - 1], items[|items| - 1];
      assert items == before + [x];
      FirstEvents(before, detached) + if x in detached || x in before then [] else [x]
  }

  function FirstIndex(items: seq<Item>, x: Item): (i: nat)
    requires x in items
    ensures i < |items| && items[i] == x && x !in items[..i]
  {
    if items[0] == x then 0
    else
      var i := FirstIndex(items[1..], x);
      assert items[..i + 1] == [items[0]] + items[1..][..i];
      i + 1
  }

  lemma {:induction false} FirstIndexIs(items: seq<Item>, x: Item, j: nat)
    requires j < |items| && items[j] == x && x !in items[..j]
    ensures FirstIndex(items, x) == j
  {
    if j > 0 {
      assert items[0] in items[..j];
      assert items[1..][..j - 1] == items[..j][1..];
      FirstIndexIs(items[1..], x, j - 1);
    }
  }

  lemma FirstIndexOfPrefix(items: seq<Item>, n: nat, x: Item)
    requires n <= |items| && x in items[..n]
    ensures FirstIndex(items, x) == FirstIndex(items[..n], x)
  {
    var j := FirstIndex(items[..n], x);
    assert items[..n][..j] == items[..j];
    FirstIndexIs(items, x, j);
  }

  ghost predicate InOrder(items: seq<Item>, f: seq<Item>) {
    && (forall a | 0 <= a < |f| :: f[a] in items)
    && forall a, b | 0 <= a < b < |f| :: FirstIndex(items, f[a]) < FirstIndex(items, f[b])
  }

  lemma InOrderLonger(before: seq<Item>, x: Item, f: seq<Item>)
    requires InOrder(before, f)
    ensures InOrder(before + [x], f)
  {
    var items := before + [x];
    forall a | 0 <= a < |f| ensures f[a] in items && FirstIndex(items, f[a]) == FirstIndex(before, f[a]) {
      assert items[..|before|] == before;
      FirstIndexOfPrefix(items, |before|, f[a]);
    }
  }

  lemma InOrderWithLast(before: seq<Item>, x: Item, f: seq<Item>)
    requires InOrder(before, f) && x !in before
    ensures InOrder(before + [x], f + [x])
  {
    var items := before + [x];
    assert items[..|before|] == before;
    FirstIndexIs(items, x, |before|);
    forall a | 0 <= a < |f| ensures FirstIndex(items, f[a]) == FirstIndex(before, f[a]) {
      FirstIndexOfPrefix(items, |before|, f[a]);
    }
    InOrderLonger(before, x, f);
  }

  // The order does not depend on how the batch is gone through: it is that of the first positions.
  lemma {:induction false} FirstEventsInOrder(items: seq<Item>, detached: set<Item>)
    ensures InOrder(items, FirstEvents(items, detached))
  {
    if items != [] {
      var before, x := items[..|items| - 1], items[|items| - 1];
      assert items == before + [x];
      FirstEventsInOrder(before, detached);
      if x in detached || x in before {
        InOrderLonger(before, x, FirstEvents(before, detached));
      } else {
        InOrderWithLast(before, x, FirstEvents(before, detached));
      }
    }
  }

  lemma BatchStep(active: seq<Item>, f: seq<Item>, x: Item)
    requires x !in f
    ensures Drop(Rest(active, f) + f, x) + [x] == Rest(active, f + [x]) + (f + [x])
  {
    DropConcat(Rest(active, f), f, x);
    DropAbsent(f, x);
    RestThenDrop(active, f, x);
  }

  // The polls f are the last active ones, in this order, and out of the wheel; nobody else has moved.
  ghost predicate Activated(s: Loop, s': Loop, f: seq<Item>) {
    && ListsOnly(s, s') && s'.active == Rest(s.active, f) + f
    && forall x :: T.Pending(s'.wheel)[x] == if x in f then 0 else T.Pending(s.wheel)[x]
  }

  lemma OneMoreActivated(s: Loop, s1: Loop, f: seq<Item>, x: Item)
    requires Activated(s, s1, f) && x !in f && x !in s1.detached
    ensures Activated(s, EventReady(s1, x), f + [x])
  {
    FirstEventCounts(s1, x);
    BatchStep(s.active, f, x);
  }

  // So it is after a batch, for the polls whose first event it brings.
  lemma {:induction false} BatchOrder(s: Loop, items: seq<Item>)
    ensures Activated(s, EventsReady(s, items), FirstEvents(items, s.detached))
    ensures forall x :: x in EventsReady(s, items).detached <==> x in s.detached || x in items
    decreases |items|
  {
    if items == [] {
      RestOfNone(s.active);
    } else {
      var before, x := items[..|items| - 1], items[|items| - 1];
      assert items == before + [x];
      BatchOrder(s, before);
      FirstEventCounts(EventsReady(s, before), x);
      if x !in s.detached && x !in before {
        OneMoreActivated(s, EventsReady(s, before), FirstEvents(before, s.detached), x);
      } else {
        assert FirstEvents(items, s.detached) == FirstEvents(before, s.detached);
      }
    }
  }

  // ---- A broadcast -----------------------------------------------------------------------------------

  lemma WakeStep(active: seq<Item>, x: Item, q: seq<Item>)
    requires x !in q
    ensures Rest(Drop(active, x) + [x], q) + q == Rest(active, [x] + q) + ([x] + q)
  {
    RestConcat(Drop(active, x), [x], q);
    DropThenRest(active, x, q);
    assert Rest([x], q) == [x];
  }

  lemma WakeOne(s: Loop, c: nat)
    requires Inv(s) && Queue(s, c) != []
    ensures var q, s' := Queue(s, c), Signal(s, c);
            && Inv(s') && Queue(s', c) == q[1..] && q[0] !in q[1..] && s'.active == Drop(s.active, q[0]) + [q[0]]
  {
    SignalMoves(s, c);
    SignalKeepsInv(s, c);
  }

  // All waiters of the condition are the last active ones, in the order in which they began to wait.
  lemma {:induction false} BroadcastInOrder(s: Loop, c: nat)
    requires Inv(s)
    ensures Broadcast(s, c).active == Rest(s.active, Queue(s, c)) + Queue(s, c)
    decreases |Queue(s, c)|
  {
    var q := Queue(s, c);
    if q == [] {
      RestOfNone(s.active);
    } else {
      WakeOne(s, c);
      BroadcastInOrder(Signal(s, c), c);
      WakeStep(s.active, q[0], q[1..]);
      assert [q[0]] + q[1..] == q;
    }
  }
}
