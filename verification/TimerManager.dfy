/** The objects of corlib/timer.cpp: timers rewritten in place, each method proved to do what its
    function in Timers does. The clock readings are parameters. */
module TimerManager {
  import opened Timers

  class TimerObject {
    var next: int            // m_next
    var ms: nat              // m_ms
    const recurring: bool    // m_recurring
    var cb: Option<nat>      // m_cb

    constructor (ms: nat, cb: nat, recurring: bool, now: int)
      ensures Shown() == Timer(now + ms * MS, ms, recurring, Some(cb))
    {
      this.next, this.ms, this.recurring, this.cb := now + ms * MS, ms, recurring, Some(cb);
    }

    function Shown(): Timer
      reads this
    {
      Timer(next, ms, recurring, cb)
    }
  }

  class TimerManager {
    var timers: map<int, TimerObject>           // m_timers
    var tickled: bool                           // m_tickled
    var previousTime: int                       // m_previouseTime
    ghost var objects: map<nat, TimerObject>    // every timer made, by its number in the model

    ghost predicate Shows(m: Manager)
      reads this, objects.Values
    {
      && Same(objects, m.objs)
      && Filed(timers, objects, m.timers)
      && tickled == m.tickled
    }

    constructor (now: int)
      ensures Shows(Start(now)) && previousTime == now
    {
      timers, tickled, previousTime, objects := map[], false, now, map[];
    }

    // m_timers.begin().
    method Begin() returns (k: int)
      requires timers.Keys != {}
      ensures k == First(timers.Keys)
    {
      FirstExists(timers.Keys);
      k :| k in timers.Keys && forall j | j in timers.Keys :: k <= j;
    }

    // m_timers.insert(timer).
    method Insert(timer: TimerObject, ghost heap: Heap, ghost objs: Objects, ghost id: nat)
      requires Filed(timers, objects, heap) && id in objects && objects[id] == timer
      requires id in objs && objs[id].next == timer.next
      modifies this`timers
      ensures Filed(timers, objects, Inserted(heap, objs, id))
      ensures timers == if timer.next in old(timers) then old(timers) else old(timers)[timer.next := timer]
    {
      if timer.next !in timers {
        timers := timers[timer.next := timer];
      }
    }

    // A timer out of the set gets a new deadline and goes back in.
    method Rearm(timer: TimerObject, next: int, ghost heap: Heap, ghost objs: Objects, ghost id: nat)
      requires Same(objects, objs) && Filed(timers, objects, heap) && id in objs && objects[id] == timer
      modifies this`timers, timer`next
      ensures var objs1 := objs[id := objs[id].(next := next)];
              Same(objects, objs1) && Filed(timers, objects, Inserted(heap, objs1, id))
      ensures timer.next == next && next in timers
    {
      timer.next := next;
      Insert(timer, heap, objs[id := objs[id].(next := next)], id);
    }

    // m_timers.erase(it).
    method Erase(k: int, ghost heap: Heap)
      requires Filed(timers, objects, heap)
      modifies this`timers
      ensures Filed(timers, objects, heap - {k})
    {
      timers := timers - {k};
    }

    // addTimer(timer); the result says whether onTimerInsertedAtFront is called.
    method AddTimer(timer: TimerObject, ghost m: Manager, ghost id: nat) returns (atFront: bool)
      requires Shows(m) && id in m.objs && objects[id] == timer
      modifies this`timers, this`tickled
      ensures Shows(Timers.AddTimer(m, id)) && (atFront <==> Timers.AddTimer(m, id).calls > m.calls)
      ensures timers == if timer.next in old(timers) then old(timers) else old(timers)[timer.next := timer]
      ensures tickled == (old(tickled) || atFront)
    {
      Insert(timer, m.timers, m.objs, id);
      assert timer.next in timers.Keys;
      var first := Begin();
      atFront := first == timer.next && !tickled;
      if atFront {
        tickled := true;
      }
    }

    // The constructor of Timer; the new timer is not in the set yet.
    method Make(ms: nat, cb: nat, recurring: bool, now: int, ghost m: Manager, ghost id: nat)
      returns (timer: TimerObject)
      requires Shows(m) && id !in m.objs
      modifies this`objects
      ensures Shows(Made(m, id, ms, cb, recurring, now)) && fresh(timer) && objects == old(objects)[id := timer]
      ensures timer.Shown() == Timer(now + ms * MS, ms, recurring, Some(cb))
    {
      timer := new TimerObject(ms, cb, recurring, now);
      FiledWithMore(timers, objects, m.timers, id, timer);
      objects := objects[id := timer];
    }

    method NewTimer(ms: nat, cb: nat, recurring: bool, now: int, ghost m: Manager, ghost id: nat)
      returns (timer: TimerObject, atFront: bool)
      requires Shows(m) && id !in m.objs
      modifies this`timers, this`tickled, this`objects
      ensures Shows(Timers.NewTimer(m, id, ms, cb, recurring, now)) && fresh(timer)
      ensures timer.Shown() == Timer(now + ms * MS, ms, recurring, Some(cb))
      ensures objects == old(objects)[id := timer]
    {
      timer := Make(ms, cb, recurring, now, m, id);
      atFront := AddTimer(timer, Made(m, id, ms, cb, recurring, now), id);
    }

    method Cancel(timer: TimerObject, ghost m: Manager, ghost id: nat) returns (r: bool)
      requires Shows(m) && id in m.objs && objects[id] == timer
      modifies this`timers, timer`cb
      ensures Shows(Timers.Cancel(m, id).0) && r == Timers.Cancel(m, id).1
      ensures (r <==> old(timer.cb).Some?) && timer.cb.None?
      ensures timers == if r then old(timers) - {timer.next} else old(timers)
    {
      if timer.cb.None? {
        return false;
      }
      timer.cb := None;
      timers := timers - {timer.next};
      r := true;
    }

    method Refresh(timer: TimerObject, now: int, ghost m: Manager, ghost id: nat) returns (r: bool)
      requires Shows(m) && id in m.objs && objects[id] == timer
      modifies this`timers, timer`next
      ensures Shows(Timers.Refresh(m, id, now).0) && r == Timers.Refresh(m, id, now).1
      ensures r <==> timer.cb.Some? && old(timer.next in timers)
      ensures if r then timer.next == now + timer.ms * MS && timer.next in timers
              else unchanged(this) && unchanged(timer)
    {
      if timer.cb.None? || timer.next !in timers {
        return false;
      }
      RefreshFiled(timer, now, m, id);
      r := true;
    }

    // refresh() of a timer whose deadline is in the set.
    method RefreshFiled(timer: TimerObject, now: int, ghost m: Manager, ghost id: nat)
      requires Shows(m) && id in m.objs && objects[id] == timer && timer.cb.Some? && timer.next in timers
      modifies this`timers, timer`next
      ensures Shows(Timers.Refresh(m, id, now).0)
      ensures timer.next == now + timer.ms * MS && timer.next in timers
    {
      assert timer.Shown() == m.objs[id];
      RenewedIs(m, id, now);
      Renew(timer, now, m.timers, m.objs, id);
    }

    // The period starts anew.
    method Renew(timer: TimerObject, now: int, ghost heap: Heap, ghost objs: Objects, ghost id: nat)
      requires Same(objects, objs) && Filed(timers, objects, heap) && id in objs && objects[id] == timer
      modifies this`timers, timer`next
      ensures var objs1 := objs[id := objs[id].(next := now + timer.ms * MS)];
              Same(objects, objs1) && Filed(timers, objects, Inserted(heap - {old(timer.next)}, objs1, id))
      ensures timer.next == now + timer.ms * MS && timer.next in timers
    {
      ghost var was := timer.next;
      Erase(timer.next, heap);
      Rearm(timer, now + timer.ms * MS, heap - {was}, objs, id);
    }

    method Reset(timer: TimerObject, ms: nat, fromNow: bool, now: int, ghost m: Manager, ghost id: nat)
      returns (r: bool)
      requires Shows(m) && id in m.objs && objects[id] == timer
      modifies this`timers, this`tickled, timer`next, timer`ms
      ensures Shows(Timers.Reset(m, id, ms, fromNow, now).0) && r == Timers.Reset(m, id, ms, fromNow, now).1
      ensures r <==> (ms == old(timer.ms) && !fromNow) || (timer.cb.Some? && old(timer.next in timers))
      ensures if r && !(ms == old(timer.ms) && !fromNow) then
                timer.ms == ms && timer.next == (if fromNow then now else old(timer.next - timer.ms * MS)) + ms * MS
              else unchanged(this) && unchanged(timer)
    {
      if ms == timer.ms && !fromNow {
        return true;
      }
      if timer.cb.None? || timer.next !in timers {
        return false;
      }
      Restart(timer, ms, fromNow, now, m, id);
      r := true;
    }

    // A new period, from now or from where the old one started.
    method Restart(timer: TimerObject, ms: nat, fromNow: bool, now: int, ghost m: Manager, ghost id: nat)
      requires Shows(m) && id in m.objs && objects[id] == timer && timer.cb.Some? && timer.next in timers
      requires !(ms == timer.ms && !fromNow)
      modifies this`timers, this`tickled, timer`next, timer`ms
      ensures Shows(Timers.Reset(m, id, ms, fromNow, now).0) && timer.ms == ms
      ensures timer.next == (if fromNow then now else old(timer.next - timer.ms * MS)) + ms * MS
    {
      ghost var m1 := Unfiled(m, id, ms, fromNow, now);
      Erase(timer.next, m.timers);
      var start := if fromNow then now else timer.next - timer.ms * MS;
      timer.ms := ms;
      timer.next := start + ms * MS;
      var _ := AddTimer(timer, m1, id);
    }

    method GetNextTimer(now: int, ghost m: Manager) returns (timeout: Option<nat>)
      requires Shows(m)
      modifies this`tickled
      ensures Shows(Timers.GetNextTimer(m, now).0) && timeout == Timers.GetNextTimer(m, now).1
      ensures !tickled && (timeout.None? <==> timers.Keys == {})
      ensures timeout.Some? ==>
                var first := First(timers.Keys);
                if first <= now then timeout.value == 0
                else now + timeout.value * MS <= first < now + (timeout.value + 1) * MS
    {
      tickled := false;
      if timers.Keys == {} {
        assert m.timers == map[];
        return None;
      }
      var time := Begin();
      timeout := Some(if now >= time then 0 else (time - now) / MS);
    }

    method DetectClockRollover(now: int) returns (rollover: bool)
      modifies this`previousTime
      ensures rollover <==> now < old(previousTime) - HOUR
      ensures previousTime == now
    {
      rollover := now < previousTime - HOUR;
      previousTime := now;
    }

    // One round of the loop in listExpiredCb.
    method ExpireOne(k: int, now: int, ghost m: Manager) returns (cb: nat)
      requires Shows(m) && HeapInv(m.timers, m.objs) && k in timers
      modifies this`timers, {timers[k]}`next, {timers[k]}`cb
      ensures var (timers1, objs1) := ExpireAt(m.timers, m.objs, now, k); Shows(m.(timers := timers1, objs := objs1))
      ensures cb == m.objs[m.timers[k]].cb.value
    {
      ghost var id := m.timers[k];
      var temp := timers[k];
      cb := Retire(k, temp, now, m.timers, m.objs, id);
    }

    // The timer at k leaves the set, and goes back in if it is recurring.
    method Retire(k: int, temp: TimerObject, now: int, ghost heap: Heap, ghost objs: Objects, ghost id: nat)
      returns (cb: nat)
      requires Same(objects, objs) && Filed(timers, objects, heap) && k in heap && heap[k] == id
      requires id in objs && objects[id] == temp && temp.cb.Some?
      modifies this`timers, temp`next, temp`cb
      ensures Same(objects, ExpireAt(heap, objs, now, k).1) && Filed(timers, objects, ExpireAt(heap, objs, now, k).0)
      ensures cb == objs[id].cb.value
    {
      cb := temp.cb.value;
      Erase(k, heap);
      if temp.recurring {
        Rearm(temp, now + temp.ms * MS, heap - {k}, objs, id);
      } else {
        temp.cb := None;
      }
    }

    // Without a rollover the loop takes what is due at `now`, and after one every timer; the requires
    // is exactly that it ends.
    method ListExpiredCb(now: int, now2: int, ghost m: Manager) returns (cbs: seq<nat>, ghost m': Manager)
      requires Shows(m) && HeapInv(m.timers, m.objs)
      requires if now2 < previousTime - HOUR then AllLost(m.timers, m.objs, now)
               else !SpinsForever(m.timers, m.objs, now)
      modifies this`timers, this`previousTime, objects.Values
      ensures (m'.timers, m'.objs, cbs) ==
              if now2 < old(previousTime) - HOUR then RolledOver(m.timers, m.objs, now)
              else Expired(m.timers, m.objs, now)
      ensures Shows(m') && previousTime == now2
    {
      var rollover := DetectClockRollover(now2);
      ExpiredFromStart(m, now, rollover);
      cbs, m' := [], m;
      while timers.Keys != {}
        invariant Shows(m') && ExpiredFrom(m, m', now, rollover, cbs)
        decreases RoundsLeft(m', now, rollover)
        modifies this`timers, objects.Values
      {
        var k := Begin();
        if !rollover && k > now {
          break;
        }
        ExpiredFromStep(m, m', now, rollover, cbs);
        assert timers[k] in objects.Values;
        var cb := ExpireOne(k, now, m');
        ghost var (timers1, objs1) := ExpireAt(m'.timers, m'.objs, now, k);
        m' := m'.(timers := timers1, objs := objs1);
        cbs := cbs + [cb];
      }
      ExpiredFromEnd(m, m', now, rollover, cbs);
    }
  }

  ghost function RoundsLeft(m: Manager, now: int, rollover: bool): nat {
    if rollover then |m.timers.Keys| else |Due(m.timers, now)|
  }

  ghost predicate Ends(m: Manager, now: int, rollover: bool) {
    HeapInv(m.timers, m.objs) &&
    if rollover then AllLost(m.timers, m.objs, now) else !SpinsForever(m.timers, m.objs, now)
  }

  ghost function WholeLoop(m: Manager, now: int, rollover: bool): (Heap, Objects, seq<nat>)
    requires Ends(m, now, rollover)
  {
    if rollover then RolledOver(m.timers, m.objs, now) else Expired(m.timers, m.objs, now)
  }

  lemma RenewedIs(m: Manager, id: nat, now: int)
    requires id in m.objs && m.objs[id].cb.Some? && m.objs[id].next in m.timers
    ensures var t, m' := m.objs[id], Timers.Refresh(m, id, now).0;
            var objs1 := m.objs[id := t.(next := now + t.ms * MS)];
            m'.objs == objs1 && m'.timers == Inserted(m.timers - {t.next}, objs1, id) && m'.tickled == m.tickled
  {
  }

  // The callbacks so far are the beginning of what the whole loop returns.
  ghost predicate ExpiredFrom(m: Manager, m': Manager, now: int, rollover: bool, cbs: seq<nat>) {
    && Ends(m, now, rollover) && Ends(m', now, rollover)
    && var (e, e1) := (WholeLoop(m, now, rollover), WholeLoop(m', now, rollover));
       e == (e1.0, e1.1, cbs + e1.2)
  }

  lemma ExpiredFromStart(m: Manager, now: int, rollover: bool)
    requires Ends(m, now, rollover)
    ensures ExpiredFrom(m, m, now, rollover, [])
  {
    var e := WholeLoop(m, now, rollover);
    assert [] + e.2 == e.2;
  }

  lemma ExpiredFromEnd(m: Manager, m': Manager, now: int, rollover: bool, cbs: seq<nat>)
    requires ExpiredFrom(m, m', now, rollover, cbs)
    requires m'.timers.Keys != {} ==> !rollover && First(m'.timers.Keys) > now
    ensures (m'.timers, m'.objs, cbs) == WholeLoop(m, now, rollover)
  {
    assert !rollover ==> Due(m'.timers, now) == {} by {
      forall k | k in m'.timers && !rollover ensures k > now {
        assert k in m'.timers.Keys;
      }
    }
    assert cbs + [] == cbs;
  }

  lemma ExpiredFromStep(m: Manager, m': Manager, now: int, rollover: bool, cbs: seq<nat>)
    requires ExpiredFrom(m, m', now, rollover, cbs) && m'.timers.Keys != {}
    requires rollover || First(m'.timers.Keys) <= now
    ensures var k := First(m'.timers.Keys);
            var (timers1, objs1) := ExpireAt(m'.timers, m'.objs, now, k);
            var m1 := m'.(timers := timers1, objs := objs1);
            && ExpiredFrom(m, m1, now, rollover, cbs + [m'.objs[m'.timers[k]].cb.value])
            && RoundsLeft(m1, now, rollover) < RoundsLeft(m', now, rollover)
  {
    var k := First(m'.timers.Keys);
    if rollover {
      LostRound(m'.timers, m'.objs, now, k);
    } else {
      ExpiredStep(m'.timers, m'.objs, now);
    }
    var (timers1, objs1) := ExpireAt(m'.timers, m'.objs, now, k);
    var cb, rest := m'.objs[m'.timers[k]].cb.value, WholeLoop(m'.(timers := timers1, objs := objs1), now, rollover).2;
    assert cbs + ([cb] + rest) == (cbs + [cb]) + rest;
  }

  ghost predicate Filed(timers: map<int, TimerObject>, objects: map<nat, TimerObject>, heap: Heap) {
    timers.Keys == heap.Keys && forall k | k in timers :: heap[k] in objects && timers[k] == objects[heap[k]]
  }

  lemma FiledWithMore(timers: map<int, TimerObject>, objects: map<nat, TimerObject>, heap: Heap, id: nat,
                      timer: TimerObject)
    requires Filed(timers, objects, heap) && id !in objects
    ensures Filed(timers, objects[id := timer], heap)
  {
  }

  // The objects are distinct and in the states of the model.
  ghost predicate Same(objects: map<nat, TimerObject>, objs: Objects)
    reads objects.Values
  {
    && objects.Keys == objs.Keys
    && (forall a, b | a in objects && b in objects && a != b :: objects[a] != objects[b])
    && forall id | id in objects :: objects[id].Shown() == objs[id]
  }
}
