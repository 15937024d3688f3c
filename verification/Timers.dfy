/** The timer set of corlib/timer.cpp. The set is ordered by m_next alone, so it holds at most one
    timer per deadline: it is a map from deadlines, an insert at a taken deadline has no effect, and
    a find may meet another timer. Time is in nanoseconds, as system_clock's. */
module Timers {
  import opened Sequences

  datatype Option<T> = None | Some(value: T)

  const MS := 1_000_000
  const HOUR := 3_600_000 * MS

  datatype Timer = Timer(next: int, ms: nat, recurring: bool, cb: Option<nat>)

  type Objects = map<nat, Timer>   // every timer ever made, in the set or not
  type Heap = map<int, nat>        // m_timers: the timer at each deadline

  datatype Manager = Manager(
    objs: Objects,
    timers: Heap,
    tickled: bool,         // m_tickled
    // History, read by the properties only.
    seen: Option<int>,     // the earliest deadline at the last getNextTimer; None: there was none
    calls: nat,            // calls of onTimerInsertedAtFront since then
    clock: int             // the latest reading of the clock that an operation has used
  )

  // ---- begin() -------------------------------------------------------------------------------

  ghost predicate IsFirst(keys: set<int>, k: int) {
    k in keys && forall j | j in keys :: k <= j
  }

  lemma {:induction false} FirstExists(keys: set<int>)
    requires keys != {}
    ensures exists k :: IsFirst(keys, k)
  {
    var x := Member(keys);
    var rest := keys - {x};
    assert keys == rest + {x};
    if rest == {} {
      assert IsFirst(keys, x);
    } else {
      FirstExists(rest);
      var y :| IsFirst(rest, y);
      assert IsFirst(keys, if x < y then x else y);
    }
  }

  ghost function First(keys: set<int>): (k: int)
    requires keys != {}
    ensures IsFirst(keys, k)
  {
    FirstExists(keys);
    var k :| IsFirst(keys, k);
    k
  }

  // ---- The operations ------------------------------------------------------------------------

  function Later(a: int, b: int): int {
    if a < b then b else a
  }

  // std::set::insert.
  function Inserted(timers: Heap, objs: Objects, id: nat): Heap
    requires id in objs
  {
    if objs[id].next in timers then timers else timers[objs[id].next := id]
  }

  // addTimer(timer): the iterator is that of the timer at this deadline, old or new.
  ghost function AddTimer(m: Manager, id: nat): Manager
    requires id in m.objs
  {
    var timers := Inserted(m.timers, m.objs, id);
    assert m.objs[id].next in timers.Keys;
    var atFront := First(timers.Keys) == m.objs[id].next && !m.tickled;
    m.(timers := timers, tickled := m.tickled || atFront, calls := if atFront then m.calls + 1 else m.calls)
  }

  // A timer is made with the clock as its constructor reads it, and then filed.
  function Made(m: Manager, id: nat, ms: nat, cb: nat, recurring: bool, now: int): Manager
    requires id !in m.objs
  {
    m.(objs := m.objs[id := Timer(now + ms * MS, ms, recurring, Some(cb))], clock := Later(m.clock, now))
  }

  // addTimer(ms, cb, recurring).
  ghost function NewTimer(m: Manager, id: nat, ms: nat, cb: nat, recurring: bool, now: int): Manager
    requires id !in m.objs
  {
    AddTimer(Made(m, id, ms, cb, recurring, now), id)
  }

  function Cancel(m: Manager, id: nat): (Manager, bool)
    requires id in m.objs
  {
    var t := m.objs[id];
    if t.cb.None? then (m, false)
    else (m.(objs := m.objs[id := t.(cb := None)], timers := m.timers - {t.next}), true)
  }

  // The timer out of the set, with its new period and deadline.
  function Unfiled(m: Manager, id: nat, ms: nat, fromNow: bool, now: int): Manager
    requires id in m.objs
  {
    var t := m.objs[id];
    var start := if fromNow then now else t.next - t.ms * MS;
    m.(objs := m.objs[id := t.(ms := ms, next := start + ms * MS)], timers := m.timers - {t.next},
       clock := if fromNow then Later(m.clock, now) else m.clock)
  }

  function Refresh(m: Manager, id: nat, now: int): (Manager, bool)
    requires id in m.objs
  {
    var t := m.objs[id];
    if t.cb.None? || t.next !in m.timers then (m, false)
    else
      var m1 := Unfiled(m, id, t.ms, true, now);
      (m1.(timers := Inserted(m1.timers, m1.objs, id)), true)
  }

  ghost function Reset(m: Manager, id: nat, ms: nat, fromNow: bool, now: int): (Manager, bool)
    requires id in m.objs
  {
    var t := m.objs[id];
    if ms == t.ms && !fromNow then (m, true)
    else if t.cb.None? || t.next !in m.timers then (m, false)
    else (AddTimer(Unfiled(m, id, ms, fromNow, now), id), true)
  }

  // The result is in milliseconds; None is ~0.
  ghost function GetNextTimer(m: Manager, now: int): (Manager, Option<nat>) {
    var m1 := m.(tickled := false, calls := 0);
    if m.timers == map[] then (m1.(seen := None), None)
    else
      var first := First(m.timers.Keys);
      (m1.(seen := Some(first)), Some(if now >= first then 0 else (first - now) / MS))
  }

  // ---- listExpiredCb -------------------------------------------------------------------------

  ghost function Due(timers: Heap, now: int): set<int> {
    set k | k in timers && k <= now
  }

  // One round of the loop.
  function ExpireAt(timers: Heap, objs: Objects, now: int, k: int): (Heap, Objects)
    requires k in timers && timers[k] in objs
  {
    var id, rest := timers[k], timers - {k};
    var t := objs[id];
    if t.recurring then
      var objs1 := objs[id := t.(next := now + t.ms * MS)];
      (Inserted(rest, objs1, id), objs1)
    else
      (rest, objs[id := t.(cb := None)])
  }

  // In a heap each timer sits at its own deadline and still has its callback.
  ghost predicate HeapInv(timers: Heap, objs: Objects) {
    forall k | k in timers :: timers[k] in objs && objs[timers[k]].next == k && objs[timers[k]].cb.Some?
  }

  // A timer that comes due again as soon as it is re-armed.
  predicate Spinner(t: Timer) {
    t.recurring && t.ms == 0
  }

  // The loop does not end: the timer that is, or will be, at the deadline `now` is a spinner.
  ghost predicate SpinsForever(timers: Heap, objs: Objects, now: int)
    requires HeapInv(timers, objs)
  {
    if now in timers then Spinner(objs[timers[now]])
    else exists k :: k in timers && k <= now && Spinner(objs[timers[k]])
  }

  // The state after n rounds, or when nothing is due any more.
  ghost function Rounds(timers: Heap, objs: Objects, now: int, n: nat): (r: (Heap, Objects))
    requires HeapInv(timers, objs)
    ensures HeapInv(r.0, r.1)
    decreases n
  {
    if n == 0 || Due(timers, now) == {} then (timers, objs)
    else
      FirstIsDue(timers, now);
      var k := First(timers.Keys);
      ExpireKeepsHeap(timers, objs, now, k);
      var (timers1, objs1) := ExpireAt(timers, objs, now, k);
      Rounds(timers1, objs1, now, n - 1)
  }

  lemma ExpireKeepsHeap(timers: Heap, objs: Objects, now: int, k: int)
    requires HeapInv(timers, objs) && k in timers
    ensures HeapInv(ExpireAt(timers, objs, now, k).0, ExpireAt(timers, objs, now, k).1)
  {
  }

  // With a spinner in the way of `now`, every round leaves something due.
  lemma SpinGoesOn(timers: Heap, objs: Objects, now: int, k: int)
    requires HeapInv(timers, objs) && IsFirst(timers.Keys, k) && k <= now && SpinsForever(timers, objs, now)
    ensures var (timers1, objs1) := ExpireAt(timers, objs, now, k);
            HeapInv(timers1, objs1) && SpinsForever(timers1, objs1, now) && Due(timers1, now) != {}
  {
    ExpireKeepsHeap(timers, objs, now, k);
    var (timers1, objs1) := ExpireAt(timers, objs, now, k);
    if now in timers || Spinner(objs[timers[k]]) {
      assert now in timers1 && Spinner(objs1[timers1[now]]);
      assert now in Due(timers1, now);
    } else {
      var j :| j in timers && j <= now && Spinner(objs[timers[j]]);
      assert j in timers1 && timers1[j] == timers[j] && objs1[timers1[j]] == objs[timers[j]];
      assert j in Due(timers1, now);
    }
  }

  // Without one, every round leaves one timer fewer due.
  lemma RoundEndsOne(timers: Heap, objs: Objects, now: int, k: int)
    requires HeapInv(timers, objs) && IsFirst(timers.Keys, k) && k <= now && !SpinsForever(timers, objs, now)
    ensures var (timers1, objs1) := ExpireAt(timers, objs, now, k);
            && HeapInv(timers1, objs1) && !SpinsForever(timers1, objs1, now)
            && Due(timers1, now) == Due(timers, now) - {k}
            && forall j | j in timers && j != k ::
                 j in timers1 && timers1[j] == timers[j] && objs1[timers[j]] == objs[timers[j]]
  {
    ExpireKeepsHeap(timers, objs, now, k);
    assert k in Due(timers, now);
  }

  lemma {:induction false} SpinsOn(timers: Heap, objs: Objects, now: int, n: nat)
    requires HeapInv(timers, objs) && SpinsForever(timers, objs, now)
    ensures Due(Rounds(timers, objs, now, n).0, now) != {}
    decreases n
  {
    assert Due(timers, now) != {} by {
      if now in timers {
        assert now in Due(timers, now);
      } else {
        var k :| k in timers && k <= now && Spinner(objs[timers[k]]);
        assert k in Due(timers, now);
      }
    }
    if n > 0 {
      FirstIsDue(timers, now);
      var k := First(timers.Keys);
      SpinGoesOn(timers, objs, now, k);
      var (timers1, objs1) := ExpireAt(timers, objs, now, k);
      SpinsOn(timers1, objs1, now, n - 1);
    }
  }

  // If anything is due, the first timer is.
  lemma FirstIsDue(timers: Heap, now: int)
    requires Due(timers, now) != {}
    ensures timers.Keys != {} && First(timers.Keys) in Due(timers, now)
  {
    var j :| j in Due(timers, now);
    assert j in timers.Keys;
    assert First(timers.Keys) <= j;
  }

  // The whole loop, when it ends: the heap, the timers, and the callbacks in the order of the list.
  ghost function Expired(timers: Heap, objs: Objects, now: int): (r: (Heap, Objects, seq<nat>))
    requires HeapInv(timers, objs) && !SpinsForever(timers, objs, now)
    ensures HeapInv(r.0, r.1) && Due(r.0, now) == {}
    decreases |Due(timers, now)|
  {
    if Due(timers, now) == {} then (timers, objs, [])
    else
      FirstIsDue(timers, now);
      var k := First(timers.Keys);
      RoundEndsOne(timers, objs, now, k);
      var (timers1, objs1) := ExpireAt(timers, objs, now, k);
      var r := Expired(timers1, objs1, now);
      (r.0, r.1, [objs[timers[k]].cb.value] + r.2)
  }

  lemma {:induction false} RoundsReachExpired(timers: Heap, objs: Objects, now: int)
    requires HeapInv(timers, objs) && !SpinsForever(timers, objs, now)
    ensures var (r, e) := (Rounds(timers, objs, now, |Due(timers, now)|), Expired(timers, objs, now));
            r.0 == e.0 && r.1 == e.1
    decreases |Due(timers, now)|
  {
    if Due(timers, now) != {} {
      FirstIsDue(timers, now);
      var k := First(timers.Keys);
      RoundEndsOne(timers, objs, now, k);
      var (timers1, objs1) := ExpireAt(timers, objs, now, k);
      RoundsReachExpired(timers1, objs1, now);
    }
  }

  // listExpiredCb terminates exactly when no spinner gets to the deadline `now`.
  lemma TerminatesIff(timers: Heap, objs: Objects, now: int)
    requires HeapInv(timers, objs)
    ensures (exists n: nat :: Due(Rounds(timers, objs, now, n).0, now) == {}) <==> !SpinsForever(timers, objs, now)
  {
    if SpinsForever(timers, objs, now) {
      forall n: nat ensures Due(Rounds(timers, objs, now, n).0, now) != {} {
        SpinsOn(timers, objs, now, n);
      }
    } else {
      RoundsReachExpired(timers, objs, now);
    }
  }

  // ---- What the loop does ------------------------------------------------------------------

  ghost function Ascending(keys: set<int>): seq<int> {
    if keys == {} then [] else [First(keys)] + Ascending(keys - {First(keys)})
  }

  lemma {:induction false} AscendingHas(keys: set<int>)
    ensures |Ascending(keys)| == |keys| && forall k :: k in Ascending(keys) <==> k in keys
  {
    if keys != {} {
      AscendingHas(keys - {First(keys)});
    }
  }

  lemma {:induction false} AscendingSorts(keys: set<int>)
    ensures forall i, j | 0 <= i < j < |Ascending(keys)| :: Ascending(keys)[i] < Ascending(keys)[j]
  {
    if keys != {} {
      var k := First(keys);
      var rest := Ascending(keys - {k});
      AscendingSorts(keys - {k});
      AscendingHas(keys - {k});
      forall j | 0 <= j < |rest| ensures k < rest[j] {
        assert rest[j] in rest;
      }
      assert Ascending(keys) == [k] + rest;
    }
  }

  ghost function Callbacks(timers: Heap, objs: Objects, ks: seq<int>): seq<nat>
    requires HeapInv(timers, objs) && forall k | k in ks :: k in timers
  {
    if ks == [] then []
    else
      var k := ks[0];
      assert k in ks && k in timers;
      [objs[timers[k]].cb.value] + Callbacks(timers, objs, ks[1..])
  }

  lemma {:induction false} CallbacksSame(timers: Heap, objs: Objects, timers1: Heap, objs1: Objects, ks: seq<int>)
    requires HeapInv(timers, objs) && HeapInv(timers1, objs1)
    requires forall k | k in ks ::
               k in timers && k in timers1 && timers1[k] == timers[k] && objs1[timers[k]] == objs[timers[k]]
    ensures Callbacks(timers1, objs1, ks) == Callbacks(timers, objs, ks)
  {
    if ks != [] {
      CallbacksSame(timers, objs, timers1, objs1, ks[1..]);
    }
  }

  // The callbacks are those of exactly the timers that were due, once each, in deadline order.
  lemma {:induction false} CallbacksAreExact(timers: Heap, objs: Objects, now: int)
    requires HeapInv(timers, objs) && !SpinsForever(timers, objs, now)
    ensures var ks := Ascending(Due(timers, now));
            && (forall k :: k in ks <==> k in Due(timers, now)) && (forall i, j | 0 <= i < j < |ks| :: ks[i] < ks[j])
            && Expired(timers, objs, now).2 == Callbacks(timers, objs, ks)
    decreases |Due(timers, now)|
  {
    var due := Due(timers, now);
    AscendingSorts(due);
    AscendingHas(due);
    if due != {} {
      FirstIsDue(timers, now);
      var k := First(timers.Keys);
      assert IsFirst(due, k);
      assert First(due) == k;
      RoundEndsOne(timers, objs, now, k);
      var (timers1, objs1) := ExpireAt(timers, objs, now, k);
      CallbacksAreExact(timers1, objs1, now);
      var rest := Ascending(due - {k});
      AscendingHas(due - {k});
      assert Ascending(due) == [k] + rest;
      CallbacksSame(timers, objs, timers1, objs1, rest);
    }
  }

  // Timers that are not due are left alone.
  lemma {:induction false} NotDueIsKept(timers: Heap, objs: Objects, now: int, k: int)
    requires HeapInv(timers, objs) && !SpinsForever(timers, objs, now) && k in timers && k > now
    ensures var e := Expired(timers, objs, now);
            k in e.0 && e.0[k] == timers[k] && timers[k] in e.1 && e.1[timers[k]] == objs[timers[k]]
    decreases |Due(timers, now)|
  {
    if Due(timers, now) != {} {
      FirstIsDue(timers, now);
      var j := First(timers.Keys);
      RoundEndsOne(timers, objs, now, j);
      var (timers1, objs1) := ExpireAt(timers, objs, now, j);
      NotDueIsKept(timers1, objs1, now, k);
    }
  }

  function NextDeadline(t: Timer, now: int): int {
    now + t.ms * MS
  }

  // Nobody else holds, or is re-armed earlier at, the deadline at which the timer at k is re-armed.
  ghost predicate FreshDeadline(timers: Heap, objs: Objects, now: int, k: int)
    requires HeapInv(timers, objs) && k in timers
  {
    var q := NextDeadline(objs[timers[k]], now);
    && q > now && q !in timers
    && forall j | j in timers && j < k && objs[timers[j]].recurring :: NextDeadline(objs[timers[j]], now) != q
  }

  // The first round makes its timer's next deadline one that a later timer finds taken.
  lemma FreshAfter(timers: Heap, objs: Objects, now: int, j: int, k: int)
    requires HeapInv(timers, objs) && IsFirst(timers.Keys, j) && !SpinsForever(timers, objs, now)
    requires k in timers && j < k <= now
    ensures var (timers1, objs1) := ExpireAt(timers, objs, now, j);
            HeapInv(timers1, objs1) && k in timers1 && timers1[k] == timers[k] && objs1[timers[k]] == objs[timers[k]]
            && (FreshDeadline(timers1, objs1, now, k) <==> FreshDeadline(timers, objs, now, k))
  {
    RoundEndsOne(timers, objs, now, j);
    var (timers1, objs1) := ExpireAt(timers, objs, now, j);
    var q := NextDeadline(objs[timers[k]], now);
    if q > now {
      assert q in timers1 <==> q in timers || (objs[timers[j]].recurring && NextDeadline(objs[timers[j]], now) == q);
      forall i | i in timers1 && i < k ensures i in timers && i != j && objs1[timers1[i]] == objs[timers[i]] {
        assert i in Due(timers1, now);
      }
      forall i | i in timers && i < k && i != j ensures i in timers1 && objs1[timers1[i]] == objs[timers[i]] {
        assert i in Due(timers, now);
      }
    }
  }

  lemma {:induction false} GoneStaysGone(timers: Heap, objs: Objects, now: int, id: nat)
    requires HeapInv(timers, objs) && !SpinsForever(timers, objs, now) && id in objs && id !in timers.Values
    ensures var e := Expired(timers, objs, now);
            id in e.1 && e.1[id] == objs[id] && id !in e.0.Values
    decreases |Due(timers, now)|
  {
    if Due(timers, now) != {} {
      FirstIsDue(timers, now);
      var k := First(timers.Keys);
      RoundEndsOne(timers, objs, now, k);
      var (timers1, objs1) := ExpireAt(timers, objs, now, k);
      assert timers[k] in timers.Values;
      forall j | j in timers1 ensures timers1[j] != id {
        assert timers1[j] in timers.Values;
      }
      GoneStaysGone(timers1, objs1, now, id);
    }
  }

  // A one-shot timer that was due is gone. A recurring one is re-armed at now + period exactly when
  // that deadline is fresh; otherwise it is lost, for the set keeps the timer that was there first.
  lemma {:induction false} DueIsRearmedIff(timers: Heap, objs: Objects, now: int, k: int)
    requires HeapInv(timers, objs) && !SpinsForever(timers, objs, now) && k in timers && k <= now
    ensures var t, e := objs[timers[k]], Expired(timers, objs, now);
            && timers[k] in e.1
            && e.1[timers[k]] == (if t.recurring then t.(next := now + t.ms * MS) else t.(cb := None))
            && (timers[k] in e.0.Values <==> t.recurring && FreshDeadline(timers, objs, now, k))
    decreases |Due(timers, now)|
  {
    assert k in Due(timers, now);
    FirstIsDue(timers, now);
    var j := First(timers.Keys);
    RoundEndsOne(timers, objs, now, j);
    var (timers1, objs1) := ExpireAt(timers, objs, now, j);
    if j != k {
      FreshAfter(timers, objs, now, j, k);
      DueIsRearmedIff(timers1, objs1, now, k);
    } else {
      RearmedFirst(timers, objs, now, k);
    }
  }

  // The case of the timer that is first.
  lemma RearmedFirst(timers: Heap, objs: Objects, now: int, k: int)
    requires HeapInv(timers, objs) && !SpinsForever(timers, objs, now) && IsFirst(timers.Keys, k) && k <= now
    ensures var (timers1, objs1) := ExpireAt(timers, objs, now, k);
            var t := objs[timers[k]];
            HeapInv(timers1, objs1) && !SpinsForever(timers1, objs1, now)
            && var e := Expired(timers1, objs1, now);
            && timers[k] in e.1
            && e.1[timers[k]] == (if t.recurring then t.(next := NextDeadline(t, now)) else t.(cb := None))
            && (timers[k] in e.0.Values <==> t.recurring && FreshDeadline(timers, objs, now, k))
  {
    RoundEndsOne(timers, objs, now, k);
    var (timers1, objs1) := ExpireAt(timers, objs, now, k);
    var id, t := timers[k], objs[timers[k]];
    var q := NextDeadline(t, now);
    if t.recurring && q !in timers {
      assert q in timers1 && timers1[q] == id;
      assert q !in Due(timers1, now);
      NotDueIsKept(timers1, objs1, now, q);
      assert id in Expired(timers1, objs1, now).0.Values;
    } else {
      forall j | j in timers1 ensures timers1[j] != id {
        assert objs[timers[j]].next == j;
      }
      GoneStaysGone(timers1, objs1, now, id);
    }
  }

  // Re-arming never brings the earliest deadline forward.
  lemma {:induction false} NotEarlier(timers: Heap, objs: Objects, now: int, q: int) returns (k: int)
    requires HeapInv(timers, objs) && !SpinsForever(timers, objs, now) && q in Expired(timers, objs, now).0
    ensures k in timers && k <= q
    decreases |Due(timers, now)|
  {
    if Due(timers, now) == {} {
      return q;
    }
    FirstIsDue(timers, now);
    var j := First(timers.Keys);
    RoundEndsOne(timers, objs, now, j);
    var (timers1, objs1) := ExpireAt(timers, objs, now, j);
    k := NotEarlier(timers1, objs1, now, q);
    if k !in timers {
      k := j;
    }
  }

  // ---- What the operations answer and change -----------------------------------------------------

  // There is a timeout if and only if there is a timer. It is 0 when the earliest deadline has come, and
  // otherwise the whole milliseconds until then. Nothing else but the flag changes.
  lemma TimeoutIsExact(m: Manager, now: int, first: int)
    requires m.timers.Keys != {} ==> IsFirst(m.timers.Keys, first)
    ensures var (m', timeout) := GetNextTimer(m, now);
            && (timeout.None? <==> m.timers.Keys == {})
            && (timeout.Some? && first <= now ==> timeout.value == 0)
            && (timeout.Some? && now < first ==>
                  now + timeout.value * 1_000_000 <= first < now + (timeout.value + 1) * 1_000_000)
            && m'.objs == m.objs && m'.timers == m.timers && m'.clock == m.clock && !m'.tickled && m'.calls == 0
  {
    if m.timers.Keys != {} {
      assert First(m.timers.Keys) == first;
    } else {
      assert m.timers == map[];
    }
  }

  // cancel() says whether the timer still had its callback; then it has none any more, and nothing is left
  // at its deadline.
  lemma CancelIs(m: Manager, id: nat)
    requires id in m.objs
    ensures var (m', r) := Cancel(m, id);
            && (r <==> m.objs[id].cb.Some?)
            && (!r ==> m' == m)
            && (r ==> m'.objs == m.objs[id := m.objs[id].(cb := None)] && m.objs[id].next !in m'.timers
                      && forall k | k != m.objs[id].next :: SameAt(m.timers, m'.timers, k))
  {
  }

  predicate SameAt(timers: Heap, timers': Heap, k: int) {
    (k in timers' <==> k in timers) && (k in timers ==> timers'[k] == timers[k])
  }

  // refresh() says whether there was anything at the timer's deadline and a callback; then the period
  // starts anew.
  lemma RefreshIs(m: Manager, id: nat, now: int)
    requires id in m.objs
    ensures var (m', r) := Refresh(m, id, now);
            var t := m.objs[id];
            && (r <==> t.cb.Some? && t.next in m.timers)
            && (!r ==> m' == m)
            && (r ==>
                  && m'.objs == m.objs[id := t.(next := now + t.ms * MS)]
                  && m'.tickled == m.tickled && m'.calls == m.calls && m'.clock == Later(m.clock, now))
  {
  }

  // reset() says the same, unless the period stays and does not start anew: then it is true and changes
  // nothing. Otherwise the new period starts now or where the old one did.
  lemma ResetIs(m: Manager, id: nat, ms: nat, fromNow: bool, now: int)
    requires id in m.objs
    ensures var (m', r) := Reset(m, id, ms, fromNow, now);
            var t := m.objs[id];
            var same := ms == t.ms && !fromNow;
            && (r <==> same || (t.cb.Some? && t.next in m.timers))
            && (!r || same ==> m' == m)
            && (r && !same ==>
                  && m'.objs[id := t] == m.objs && id in m'.objs && m'.objs[id].cb == t.cb
                  && m'.objs[id].ms == ms && m'.objs[id].recurring == t.recurring
                  && m'.objs[id].next == (if fromNow then now else t.next - t.ms * MS) + ms * MS)
  {
  }

  // The hook is called for a timer that is first, unless it has been called since the last getNextTimer.
  lemma HookIs(m: Manager, id: nat)
    requires id in m.objs
    ensures var m' := AddTimer(m, id);
            && m'.objs == m.objs && m.objs[id].next in m'.timers
            && (m'.calls > m.calls <==> !m.tickled && forall k | k in m'.timers :: m.objs[id].next <= k)
            && (m'.tickled <==> m.tickled || m'.calls > m.calls)
  {
    var m', k := AddTimer(m, id), m.objs[id].next;
    assert k in m'.timers.Keys;
    assert IsFirst(m'.timers.Keys, First(m'.timers.Keys));
  }

  // ---- Collisions ----------------------------------------------------------------------------

  // A new timer is in the set exactly when its deadline was free; the one that was there stays.
  lemma NewIsFiledIff(m: Manager, id: nat, ms: nat, cb: nat, recurring: bool, now: int)
    requires HeapInv(m.timers, m.objs) && id !in m.objs
    ensures var m' := NewTimer(m, id, ms, cb, recurring, now);
            && (id in m'.timers.Values <==> now + ms * MS !in m.timers)
            && forall k | k in m.timers :: k in m'.timers && m'.timers[k] == m.timers[k]
  {
    var m' := NewTimer(m, id, ms, cb, recurring, now);
    var q := now + ms * MS;
    if q !in m.timers {
      assert q in m'.timers && m'.timers[q] == id;
    } else {
      assert m'.timers == m.timers;
      assert forall k | k in m.timers :: m.timers[k] in m.objs;
    }
  }

  // cancel() of a timer that still has its callback takes out whatever is at its deadline: itself
  // if it is in the set, and otherwise the timer that kept it out, if that is still there.
  lemma CancelTakesOut(m: Manager, id: nat)
    requires HeapInv(m.timers, m.objs) && id in m.objs && m.objs[id].cb.Some?
    ensures var m' := Cancel(m, id).0;
            && id !in m'.timers.Values
            && (m'.timers == m.timers <==> m.objs[id].next !in m.timers)
            && (id in m.timers.Values <==> m.objs[id].next in m.timers && m.timers[m.objs[id].next] == id)
  {
    var k := m.objs[id].next;
    assert k in m.timers && m.timers[k] == id ==> id in m.timers.Values;
    forall j | j in m.timers && m.timers[j] == id ensures j == k {
    }
  }

  // refresh() of a timer with a callback takes out whatever is at its deadline; the timer itself goes
  // in if its new deadline is free. So a timer that never got in displaces the one that kept it out.
  lemma RefreshDisplaces(m: Manager, id: nat, now: int)
    requires HeapInv(m.timers, m.objs) && id in m.objs && m.objs[id].cb.Some? && m.objs[id].next in m.timers
    ensures var k, q, m' := m.objs[id].next, now + m.objs[id].ms * MS, Refresh(m, id, now).0;
            && (m.timers[k] != id ==> m.timers[k] !in m'.timers.Values && m'.objs[m.timers[k]].cb.Some?)
            && (id in m'.timers.Values <==> q == k || q !in m.timers)
            && forall j | j in m.timers && j != k :: j in m'.timers && m'.timers[j] == m.timers[j]
  {
    var k, q, m' := m.objs[id].next, now + m.objs[id].ms * MS, Refresh(m, id, now).0;
    var m1 := Unfiled(m, id, m.objs[id].ms, true, now);
    FiledAlone(m, m1, id, k, q);
  }

  // The same for reset(), unless it changes nothing.
  lemma ResetDisplaces(m: Manager, id: nat, ms: nat, fromNow: bool, now: int)
    requires HeapInv(m.timers, m.objs) && id in m.objs && m.objs[id].cb.Some? && m.objs[id].next in m.timers
    requires !(ms == m.objs[id].ms && !fromNow)
    ensures var k, m' := m.objs[id].next, Reset(m, id, ms, fromNow, now).0;
            var q := (if fromNow then now else k - m.objs[id].ms * MS) + ms * MS;
            && (m.timers[k] != id ==> m.timers[k] !in m'.timers.Values && m'.objs[m.timers[k]].cb.Some?)
            && (id in m'.timers.Values <==> q == k || q !in m.timers)
            && forall j | j in m.timers && j != k :: j in m'.timers && m'.timers[j] == m.timers[j]
  {
    var k := m.objs[id].next;
    FiledAlone(m, Unfiled(m, id, ms, fromNow, now), id, k, (if fromNow then now else k - m.objs[id].ms * MS) + ms * MS);
  }

  lemma FiledAlone(m: Manager, m1: Manager, id: nat, k: int, q: int)
    requires HeapInv(m.timers, m.objs) && id in m.objs && m.objs[id].next == k && k in m.timers
    requires id in m1.objs && m1.objs[id].next == q && m1.timers == m.timers - {k}
    ensures var timers := Inserted(m1.timers, m1.objs, id);
            && (m.timers[k] != id ==> m.timers[k] !in timers.Values)
            && (id in timers.Values <==> q == k || q !in m.timers)
            && forall j | j in m.timers && j != k :: j in timers && timers[j] == m.timers[j]
  {
    var timers := Inserted(m1.timers, m1.objs, id);
    forall j | j in timers && j in m.timers && j != k ensures timers[j] != id && timers[j] != m.timers[k] {
      assert m.objs[m.timers[j]].next == j && m.objs[m.timers[k]].next == k;
    }
    if q == k || q !in m.timers {
      assert q in timers && timers[q] == id;
    }
  }

  // A timer whose deadline was taken when it was made evicts the holder when it is cancelled.
  lemma LostTimerEvicts(m: Manager, id: nat, ms: nat, cb: nat, recurring: bool, now: int)
    requires HeapInv(m.timers, m.objs) && id !in m.objs && now + ms * MS in m.timers
    ensures var m' := Cancel(NewTimer(m, id, ms, cb, recurring, now), id).0;
            var holder := m.timers[now + ms * MS];
            && m'.timers == m.timers - {now + ms * MS}
            && holder !in m'.timers.Values && holder in m'.objs && m'.objs[holder].cb.Some?
  {
    var q := now + ms * MS;
    var m1 := NewTimer(m, id, ms, cb, recurring, now);
    assert m1.timers == m.timers && m1.objs[id].next == q;
    forall j | j in m.timers && j != q ensures m.timers[j] != m.timers[q] {
      assert m.objs[m.timers[j]].next == j && m.objs[m.timers[q]].next == q;
    }
  }

  // ---- The invariants of a run -----------------------------------------------------------------

  // No timer's period starts in the future.
  ghost predicate StartInv(objs: Objects, clock: int) {
    forall id | id in objs :: objs[id].next - objs[id].ms * MS <= clock
  }

  // The earliest deadline is before the one that the last getNextTimer saw.
  ghost predicate Overtaken(timers: Heap, seen: Option<int>) {
    timers.Keys != {} && (seen.None? || First(timers.Keys) < seen.value)
  }

  ghost predicate WakeInv(timers: Heap, seen: Option<int>, tickled: bool, calls: nat) {
    && calls == (if tickled then 1 else 0)
    && (Overtaken(timers, seen) ==> tickled)
  }

  ghost predicate Inv(m: Manager) {
    && HeapInv(m.timers, m.objs) && StartInv(m.objs, m.clock)
    && WakeInv(m.timers, m.seen, m.tickled, m.calls)
  }

  datatype Step =
    | New(id: nat, ms: nat, cb: nat, recurring: bool, now: int)
    | CancelTimer(id: nat)
    | RefreshTimer(id: nat, now: int)
    | ResetTimer(id: nat, ms: nat, fromNow: bool, now: int)
    | NextTimer(now: int)
    | Expire(now: int)

  // refresh() reads the clock under the lock, so with a clock that does not go back it reads no less
  // than any operation before it; the others may use an older reading.
  ghost predicate Enabled(m: Manager, t: Step) {
    match t
    case New(id, _, _, _, _) => id !in m.objs
    case CancelTimer(id) => id in m.objs
    case RefreshTimer(id, now) => id in m.objs && m.clock <= now
    case ResetTimer(id, _, _, _) => id in m.objs
    case NextTimer(_) => true
    case Expire(now) => HeapInv(m.timers, m.objs) && !SpinsForever(m.timers, m.objs, now)
  }

  ghost function Next(m: Manager, t: Step): Manager
    requires Enabled(m, t)
  {
    match t
    case New(id, ms, cb, recurring, now) => NewTimer(m, id, ms, cb, recurring, now)
    case CancelTimer(id) => Cancel(m, id).0
    case RefreshTimer(id, now) => Refresh(m, id, now).0
    case ResetTimer(id, ms, fromNow, now) => Reset(m, id, ms, fromNow, now).0
    case NextTimer(now) => GetNextTimer(m, now).0
    case Expire(now) =>
      var e := Expired(m.timers, m.objs, now);
      m.(timers := e.0, objs := e.1, clock := Later(m.clock, now))
  }

  // The earliest deadline has not come forward.
  ghost predicate NoEarlier(timers: Heap, timers1: Heap) {
    timers1.Keys != {} ==> timers.Keys != {} && First(timers.Keys) <= First(timers1.Keys)
  }

  // A change of the set that brings no deadline forward needs no wake-up.
  lemma NotOvertaken(timers: Heap, timers1: Heap, seen: Option<int>)
    requires forall q | q in timers1 :: exists k :: k in timers && k <= q
    ensures NoEarlier(timers, timers1) && (Overtaken(timers1, seen) ==> Overtaken(timers, seen))
  {
    if timers1.Keys != {} {
      var q := First(timers1.Keys);
      assert q in timers1;
      var k :| k in timers && k <= q;
      assert k in timers.Keys;
    }
  }

  // Whatever is inserted by addTimer, the wake-up is given if it is needed.
  lemma AddKeepsWake(m: Manager, id: nat, timers0: Heap)
    requires id in m.objs && HeapInv(m.timers, m.objs) && m.objs[id].cb.Some?
    requires WakeInv(timers0, m.seen, m.tickled, m.calls)
    requires forall k | k in m.timers :: k in timers0
    ensures var m' := AddTimer(m, id);
            HeapInv(m'.timers, m'.objs) && WakeInv(m'.timers, m'.seen, m'.tickled, m'.calls)
  {
    var m' := AddTimer(m, id);
    var k := m.objs[id].next;
    assert k in m'.timers.Keys;
    var first := First(m'.timers.Keys);
    if first != k {
      assert first in m.timers && first in timers0.Keys;
      assert First(timers0.Keys) <= first;
    }
  }

  lemma NewKeeps(m: Manager, id: nat, ms: nat, cb: nat, recurring: bool, now: int)
    requires Inv(m) && id !in m.objs
    ensures Inv(NewTimer(m, id, ms, cb, recurring, now))
  {
    AddKeepsWake(Made(m, id, ms, cb, recurring, now), id, m.timers);
  }

  lemma CancelKeeps(m: Manager, id: nat)
    requires Inv(m) && id in m.objs
    ensures Inv(Cancel(m, id).0)
  {
    if m.objs[id].cb.Some? {
      NotOvertaken(m.timers, m.timers - {m.objs[id].next}, m.seen);
    }
  }

  // The refreshed deadline is not before the old one, for the timer's period began in the past.
  lemma RefreshKeeps(m: Manager, id: nat, now: int)
    requires Inv(m) && id in m.objs && m.clock <= now
    ensures Inv(Refresh(m, id, now).0) && NoEarlier(m.timers, Refresh(m, id, now).0.timers)
  {
    var t := m.objs[id];
    if t.cb.Some? && t.next in m.timers {
      var m1 := Unfiled(m, id, t.ms, true, now);
      var timers := Inserted(m1.timers, m1.objs, id);
      assert t.next <= now + t.ms * MS;
      forall q | q in timers ensures exists k :: k in m.timers && k <= q {
        assert q in m.timers || t.next <= q;
      }
      NotOvertaken(m.timers, timers, m.seen);
    }
  }

  lemma ResetKeeps(m: Manager, id: nat, ms: nat, fromNow: bool, now: int)
    requires Inv(m) && id in m.objs
    ensures Inv(Reset(m, id, ms, fromNow, now).0)
  {
    var t := m.objs[id];
    if !(ms == t.ms && !fromNow) && t.cb.Some? && t.next in m.timers {
      var m1 := Unfiled(m, id, ms, fromNow, now);
      assert HeapInv(m1.timers, m1.objs) && StartInv(m1.objs, m1.clock);
      AddKeepsWake(m1, id, m.timers);
    }
  }

  lemma {:induction false} ExpireKeepsStart(timers: Heap, objs: Objects, now: int, clock: int)
    requires HeapInv(timers, objs) && !SpinsForever(timers, objs, now) && StartInv(objs, clock) && now <= clock
    ensures StartInv(Expired(timers, objs, now).1, clock)
    decreases |Due(timers, now)|
  {
    if Due(timers, now) != {} {
      FirstIsDue(timers, now);
      var k := First(timers.Keys);
      RoundEndsOne(timers, objs, now, k);
      var (timers1, objs1) := ExpireAt(timers, objs, now, k);
      ExpireKeepsStart(timers1, objs1, now, clock);
    }
  }

  lemma ExpireKeeps(m: Manager, now: int)
    requires Inv(m) && Enabled(m, Expire(now))
    ensures Inv(Next(m, Expire(now))) && NoEarlier(m.timers, Next(m, Expire(now)).timers)
  {
    var e := Expired(m.timers, m.objs, now);
    forall q | q in e.0 ensures exists k :: k in m.timers && k <= q {
      var k := NotEarlier(m.timers, m.objs, now, q);
    }
    NotOvertaken(m.timers, e.0, m.seen);
    ExpireKeepsStart(m.timers, m.objs, now, Later(m.clock, now));
  }

  lemma StepKeeps(m: Manager, t: Step)
    requires Inv(m) && Enabled(m, t)
    ensures Inv(Next(m, t))
  {
    match t
    case New(id, ms, cb, recurring, now) => NewKeeps(m, id, ms, cb, recurring, now);
    case CancelTimer(id) => CancelKeeps(m, id);
    case RefreshTimer(id, now) => RefreshKeeps(m, id, now);
    case ResetTimer(id, ms, fromNow, now) => ResetKeeps(m, id, ms, fromNow, now);
    case NextTimer(_) =>
    case Expire(now) => ExpireKeeps(m, now);
  }

  ghost predicate Legal(m: Manager, ts: seq<Step>)
    decreases |ts|
  {
    ts == [] || (Enabled(m, ts[0]) && Legal(Next(m, ts[0]), ts[1..]))
  }

  ghost function Run(m: Manager, ts: seq<Step>): Manager
    requires Legal(m, ts)
    decreases |ts|
  {
    if ts == [] then m else Run(Next(m, ts[0]), ts[1..])
  }

  function Start(clock: int): Manager {
    Manager(map[], map[], false, None, 0, clock)
  }

  lemma {:induction false} RunKeeps(m: Manager, ts: seq<Step>)
    requires Inv(m) && Legal(m, ts)
    ensures Inv(Run(m, ts))
    decreases |ts|
  {
    if ts != [] {
      StepKeeps(m, ts[0]);
      RunKeeps(Next(m, ts[0]), ts[1..]);
    }
  }

  // In every run: onTimerInsertedAtFront is called at most once between two calls of getNextTimer,
  // and it has been called whenever the earliest deadline is before the one last seen. That holds
  // with colliding deadlines too.
  lemma WakeUpIsNotMissed(clock: int, ts: seq<Step>)
    requires Legal(Start(clock), ts)
    ensures var m := Run(Start(clock), ts);
            && m.calls <= 1
            && (m.timers.Keys != {} && (m.seen.None? || First(m.timers.Keys) < m.seen.value) ==> m.calls == 1)
  {
    RunKeeps(Start(clock), ts);
  }

  // The premise on the clock is needed: a refresh leaves an earlier deadline without a wake-up exactly
  // when none was given since the last getNextTimer and the new deadline is before what that one saw.
  lemma RefreshMissesIff(m: Manager, id: nat, now: int)
    requires Inv(m) && id in m.objs && m.objs[id].cb.Some? && m.objs[id].next in m.timers
    ensures var m' := Refresh(m, id, now).0;
            Overtaken(m'.timers, m'.seen) && m'.calls == 0 <==>
            !m.tickled && m.seen.Some? && now + m.objs[id].ms * MS < m.seen.value
  {
    var t, m' := m.objs[id], Refresh(m, id, now).0;
    var q := now + t.ms * MS;
    assert m.timers.Keys != {} && q in m'.timers.Keys;
    forall k | k in m'.timers.Keys ensures k == q || First(m.timers.Keys) <= k {
      assert k != q ==> k in m.timers.Keys;
    }
    assert First(m'.timers.Keys) <= q;
  }

  // ---- A clock that was set back -----------------------------------------------------------------

  // The state after n rounds of a loop that takes every timer.
  ghost function RolloverRounds(timers: Heap, objs: Objects, now: int, n: nat): (r: (Heap, Objects))
    requires HeapInv(timers, objs)
    ensures HeapInv(r.0, r.1)
    decreases n
  {
    if n == 0 || timers.Keys == {} then (timers, objs)
    else
      var k := First(timers.Keys);
      ExpireKeepsHeap(timers, objs, now, k);
      var (timers1, objs1) := ExpireAt(timers, objs, now, k);
      RolloverRounds(timers1, objs1, now, n - 1)
  }

  // Every recurring timer finds its next deadline taken by a later timer, and so is lost when it is taken.
  ghost predicate AllLost(timers: Heap, objs: Objects, now: int)
    requires HeapInv(timers, objs)
  {
    forall k | k in timers && objs[timers[k]].recurring ::
      k < NextDeadline(objs[timers[k]], now) && NextDeadline(objs[timers[k]], now) in timers
  }

  // A recurring timer that was put back sits at its own next deadline.
  ghost predicate Settled(timers: Heap, objs: Objects, now: int)
    requires HeapInv(timers, objs)
  {
    exists k :: k in timers && objs[timers[k]].recurring && NextDeadline(objs[timers[k]], now) == k
  }

  lemma LostRound(timers: Heap, objs: Objects, now: int, k: int)
    requires HeapInv(timers, objs) && IsFirst(timers.Keys, k) && AllLost(timers, objs, now)
    ensures var (timers1, objs1) := ExpireAt(timers, objs, now, k);
            && timers1 == timers - {k} && HeapInv(timers1, objs1) && AllLost(timers1, objs1, now)
            && timers1.Keys == timers.Keys - {k} && |timers1.Keys| == |timers.Keys| - 1
            && (forall j | j in timers1 :: objs1[timers[j]] == objs[timers[j]])
  {
    ExpireKeepsHeap(timers, objs, now, k);
    var (timers1, objs1) := ExpireAt(timers, objs, now, k);
    forall j | j in timers1 && objs1[timers1[j]].recurring
      ensures j < NextDeadline(objs1[timers1[j]], now) && NextDeadline(objs1[timers1[j]], now) in timers1
    {
      assert k <= j;
    }
    assert timers1.Keys == timers.Keys - {k};
  }

  lemma SettledRound(timers: Heap, objs: Objects, now: int, k: int)
    requires HeapInv(timers, objs) && k in timers && Settled(timers, objs, now)
    ensures var (timers1, objs1) := ExpireAt(timers, objs, now, k);
            HeapInv(timers1, objs1) && Settled(timers1, objs1, now)
  {
    ExpireKeepsHeap(timers, objs, now, k);
    var (timers1, objs1) := ExpireAt(timers, objs, now, k);
    var j :| j in timers && objs[timers[j]].recurring && NextDeadline(objs[timers[j]], now) == j;
    assert j in timers1 && objs1[timers1[j]].recurring && NextDeadline(objs1[timers1[j]], now) == j;
  }

  // A round in which not all are lost either settles its timer or leaves one that is not lost.
  lemma RoundNotLost(timers: Heap, objs: Objects, now: int, k: int)
    requires HeapInv(timers, objs) && IsFirst(timers.Keys, k) && !AllLost(timers, objs, now)
    ensures var (timers1, objs1) := ExpireAt(timers, objs, now, k);
            HeapInv(timers1, objs1) && (Settled(timers1, objs1, now) || !AllLost(timers1, objs1, now))
  {
    ExpireKeepsHeap(timers, objs, now, k);
    var (timers1, objs1) := ExpireAt(timers, objs, now, k);
    var t := objs[timers[k]];
    var q := NextDeadline(t, now);
    if t.recurring && q !in timers - {k} {
      assert q in timers1 && objs1[timers1[q]].recurring && NextDeadline(objs1[timers1[q]], now) == q;
    } else {
      assert timers1 == timers - {k};
      var j :| j in timers && objs[timers[j]].recurring &&
               !(j < NextDeadline(objs[timers[j]], now) && NextDeadline(objs[timers[j]], now) in timers);
      assert j in timers1 && objs1[timers1[j]] == objs[timers[j]];
    }
  }

  lemma {:induction false} SettledNeverEnds(timers: Heap, objs: Objects, now: int, n: nat)
    requires HeapInv(timers, objs) && Settled(timers, objs, now)
    ensures RolloverRounds(timers, objs, now, n).0.Keys != {}
    decreases n
  {
    var j :| j in timers && objs[timers[j]].recurring && NextDeadline(objs[timers[j]], now) == j;
    assert j in timers.Keys;
    if n > 0 {
      var k := First(timers.Keys);
      SettledRound(timers, objs, now, k);
      var (timers1, objs1) := ExpireAt(timers, objs, now, k);
      SettledNeverEnds(timers1, objs1, now, n - 1);
    }
  }

  lemma {:induction false} NotLostNeverEnds(timers: Heap, objs: Objects, now: int, n: nat)
    requires HeapInv(timers, objs) && !AllLost(timers, objs, now)
    ensures RolloverRounds(timers, objs, now, n).0.Keys != {}
    decreases n
  {
    var j :| j in timers && objs[timers[j]].recurring;
    assert j in timers.Keys;
    if n > 0 {
      var k := First(timers.Keys);
      RoundNotLost(timers, objs, now, k);
      var (timers1, objs1) := ExpireAt(timers, objs, now, k);
      if Settled(timers1, objs1, now) {
        SettledNeverEnds(timers1, objs1, now, n - 1);
      } else {
        NotLostNeverEnds(timers1, objs1, now, n - 1);
      }
    }
  }

  // The whole loop after a rollover, when it ends: every timer is taken, and none goes back.
  ghost function RolledOver(timers: Heap, objs: Objects, now: int): (r: (Heap, Objects, seq<nat>))
    requires HeapInv(timers, objs) && AllLost(timers, objs, now)
    ensures r.0 == map[]
    decreases |timers.Keys|
  {
    if timers.Keys == {} then (timers, objs, [])
    else
      var k := First(timers.Keys);
      LostRound(timers, objs, now, k);
      var (timers1, objs1) := ExpireAt(timers, objs, now, k);
      var r := RolledOver(timers1, objs1, now);
      (r.0, r.1, [objs[timers[k]].cb.value] + r.2)
  }

  lemma {:induction false} RoundsReachRolledOver(timers: Heap, objs: Objects, now: int)
    requires HeapInv(timers, objs) && AllLost(timers, objs, now)
    ensures var (r, e) := (RolloverRounds(timers, objs, now, |timers.Keys|), RolledOver(timers, objs, now));
            r.0 == e.0 && r.1 == e.1
    decreases |timers.Keys|
  {
    if timers.Keys != {} {
      var k := First(timers.Keys);
      LostRound(timers, objs, now, k);
      var (timers1, objs1) := ExpireAt(timers, objs, now, k);
      RoundsReachRolledOver(timers1, objs1, now);
    }
  }

  // After a rollover the loop ends if and only if every recurring timer finds its next deadline taken
  // by a timer that comes after it.
  lemma RolloverEndsIff(timers: Heap, objs: Objects, now: int)
    requires HeapInv(timers, objs)
    ensures (exists n: nat :: RolloverRounds(timers, objs, now, n).0.Keys == {}) <==>
            forall k | k in timers && objs[timers[k]].recurring ::
              k < NextDeadline(objs[timers[k]], now) && NextDeadline(objs[timers[k]], now) in timers
  {
    if AllLost(timers, objs, now) {
      RoundsReachRolledOver(timers, objs, now);
      assert RolloverRounds(timers, objs, now, |timers.Keys|).0.Keys == {};
    } else {
      forall n: nat ensures RolloverRounds(timers, objs, now, n).0.Keys != {} {
        NotLostNeverEnds(timers, objs, now, n);
      }
    }
  }

  // Then the callbacks are those of all timers, once each, in deadline order.
  lemma {:induction false} RolledOverIsExact(timers: Heap, objs: Objects, now: int)
    requires HeapInv(timers, objs) && AllLost(timers, objs, now)
    ensures var ks := Ascending(timers.Keys);
            && (forall k :: k in ks <==> k in timers) && (forall i, j | 0 <= i < j < |ks| :: ks[i] < ks[j])
            && RolledOver(timers, objs, now).2 == Callbacks(timers, objs, ks)
    decreases |timers.Keys|
  {
    AscendingHas(timers.Keys);
    AscendingSorts(timers.Keys);
    if timers.Keys != {} {
      var k := First(timers.Keys);
      LostRound(timers, objs, now, k);
      var (timers1, objs1) := ExpireAt(timers, objs, now, k);
      RolledOverIsExact(timers1, objs1, now);
      var rest := Ascending(timers.Keys - {k});
      AscendingHas(timers.Keys - {k});
      assert Ascending(timers.Keys) == [k] + rest;
      CallbacksSame(timers, objs, timers1, objs1, rest);
    }
  }

  // One round of the loop without a rollover, taken off the front.
  lemma ExpiredStep(timers: Heap, objs: Objects, now: int)
    requires HeapInv(timers, objs) && timers.Keys != {} && First(timers.Keys) <= now && !SpinsForever(timers, objs, now)
    ensures var k := First(timers.Keys);
            var (timers1, objs1) := ExpireAt(timers, objs, now, k);
            && HeapInv(timers1, objs1) && !SpinsForever(timers1, objs1, now)
            && |Due(timers1, now)| < |Due(timers, now)|
            && var (e, e1) := (Expired(timers, objs, now), Expired(timers1, objs1, now));
               e == (e1.0, e1.1, [objs[timers[k]].cb.value] + e1.2)
  {
    var k := First(timers.Keys);
    assert k in Due(timers, now);
    RoundEndsOne(timers, objs, now, k);
  }

  // ---- Inputs for which the loops and the wake-up fail ---------------------------------------------

  lemma ThenRun(m: Manager, t: Step, ts: seq<Step>)
    requires Enabled(m, t) && Legal(Next(m, t), ts)
    ensures Legal(m, [t] + ts) && Run(m, [t] + ts) == Run(Next(m, t), ts)
  {
    assert ([t] + ts)[1..] == ts;
  }

  // A new manager with one timer.
  lemma OneTimer(start: int, ms: nat, cb: nat, recurring: bool)
    ensures Legal(Start(start), [New(0, ms, cb, recurring, start)] + [])
    ensures var m := Run(Start(start), [New(0, ms, cb, recurring, start)] + []);
            && m.objs == map[0 := Timer(start + ms * MS, ms, recurring, Some(cb))]
            && m.timers == map[start + ms * MS := 0] && HeapInv(m.timers, m.objs)
  {
    ThenRun(Start(start), New(0, ms, cb, recurring, start), []);
  }

  // A recurring timer of period 0: the expiry loop never ends, whenever it is run.
  lemma PeriodZeroNeverEnds(start: int, cb: nat, now: int)
    requires start <= now
    ensures Legal(Start(start), [New(0, 0, cb, true, start)] + [])
    ensures var m := Run(Start(start), [New(0, 0, cb, true, start)] + []);
            HeapInv(m.timers, m.objs) && forall n: nat :: Due(Rounds(m.timers, m.objs, now, n).0, now) != {}
  {
    OneTimer(start, 0, cb, true);
    var m := Run(Start(start), [New(0, 0, cb, true, start)] + []);
    assert start in m.timers && Spinner(m.objs[m.timers[start]]);
    forall n: nat ensures Due(Rounds(m.timers, m.objs, now, n).0, now) != {} {
      SpinsOn(m.timers, m.objs, now, n);
    }
  }

  // One recurring timer of any period: the loop after a rollover never ends, whatever the clock was set to.
  lemma OneRecurringNeverEnds(start: int, ms: nat, cb: nat, now: int)
    ensures Legal(Start(start), [New(0, ms, cb, true, start)] + [])
    ensures var m := Run(Start(start), [New(0, ms, cb, true, start)] + []);
            && HeapInv(m.timers, m.objs)
            && forall n: nat :: RolloverRounds(m.timers, m.objs, now, n).0.Keys != {}
  {
    OneTimer(start, ms, cb, true);
    var m := Run(Start(start), [New(0, ms, cb, true, start)] + []);
    assert start + ms * MS in m.timers && m.timers[start + ms * MS] == 0;
    forall n: nat ensures RolloverRounds(m.timers, m.objs, now, n).0.Keys != {} {
      NotLostNeverEnds(m.timers, m.objs, now, n);
    }
  }

  // A timer that getNextTimer has seen is refreshed after the clock was set back: its new deadline is
  // earlier than what was seen, and nobody is told.
  lemma RefreshIsMissed(start: int, ms: nat, cb: nat, recurring: bool, now: int)
    requires now < start
    ensures var ts := [New(0, ms, cb, recurring, start)] + ([NextTimer(start)] + []);
            && Legal(Start(start), ts) && 0 in Run(Start(start), ts).objs
            && var m' := Refresh(Run(Start(start), ts), 0, now).0;
               Overtaken(m'.timers, m'.seen) && m'.calls == 0
  {
    var ts := [New(0, ms, cb, recurring, start)] + ([NextTimer(start)] + []);
    var m1 := Next(Start(start), New(0, ms, cb, recurring, start));
    OneTimer(start, ms, cb, recurring);
    ThenRun(Start(start), New(0, ms, cb, recurring, start), []);
    assert m1 == Run(Start(start), [New(0, ms, cb, recurring, start)] + []);
    ThenRun(m1, NextTimer(start), []);
    ThenRun(Start(start), New(0, ms, cb, recurring, start), [NextTimer(start)] + []);
    RunKeeps(Start(start), ts);
    assert First(m1.timers.Keys) == start + ms * MS;
    RefreshMissesIff(Run(Start(start), ts), 0, now);
  }
}
