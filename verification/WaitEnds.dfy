/** When the waits of module EventLoop end: a coroutine is resumed only when its deadline has come or
    somebody has woken it, and the loop alone can bring every timed wait to its end. */
module WaitEnds {
  import opened Sequences
  import opened TimeoutItem
  import opened EventLoop
  import T = TimingWheel

  // ---- No sooner -----------------------------------------------------------------------------------

  // The waits that a step wakes: an event for a poll, a signal for the first waiter, a broadcast for all.
  function Woken(s: Loop, e: Event): set<Item> {
    match e
    case EEventReady(x) => {x}
    case ESignal(c) => if Queue(s, c) == [] then {} else {Queue(s, c)[0]}
    case EBroadcast(c) => set x | x in Queue(s, c)
    case _ => {}
  }

  ghost function WokenIn(s: Loop, es: seq<Event>): set<Item>
    requires Legal(s, es)
    decreases |es|
  {
    if es == [] then {} else Woken(s, es[0]) + WokenIn(Apply(s, es[0]), es[1..])
  }

  // Everybody on the active list has been woken or has timed out, and everybody who was resumed has been
  // woken or was due at one of these times.
  ghost predicate Justified(s: Loop, woken: set<Item>, times: set<nat>) {
    && (forall x | x in s.active :: x in s.flagged || x in woken)
    && (forall x | x in s.resumed :: x in woken || exists now :: now in times && x.deadline <= now)
    && (s.phase.Draining? ==> s.phase.now in times)
  }

  function Times(e: Event): set<nat> {
    if e.ETake? then {e.now} else {}
  }

  ghost function TimesIn(es: seq<Event>): set<nat> {
    if es == [] then {} else Times(es[0]) + TimesIn(es[1..])
  }

  lemma TakeJustified(s: Loop, now: nat, woken: set<Item>, times: set<nat>)
    requires Inv(s) && Enabled(s, ETake(now)) && Justified(s, woken, times)
    ensures Justified(Take(s, now), woken, times + {now})
  {
    var s' := Take(s, now);
    TakeIs(s, now, T.TakeAllTimeout(s.wheel, now).1);
    forall x | x in s'.resumed ensures x in woken || exists t :: t in times + {now} && x.deadline <= t {
      if x !in woken {
        var t :| t in times && x.deadline <= t;
        assert t in times + {now};
      }
    }
  }

  lemma DrainJustified(s: Loop, woken: set<Item>, times: set<nat>)
    requires Inv(s) && Enabled(s, EDrain) && Justified(s, woken, times)
    ensures Justified(Drain(s), woken, times)
  {
    HeadFacts(s);
    DrainFacts(s);
    DrainNeverEarly(s);
  }

  lemma MovedJustified(s: Loop, s': Loop, more: set<Item>, woken: set<Item>, times: set<nat>)
    requires Justified(s, woken, times)
    requires s'.flagged == s.flagged && s'.resumed == s.resumed && s'.phase == s.phase
    requires forall x | x in s'.active :: x in s.active || x in more
    ensures Justified(s', woken + more, times)
  {
    forall x | x in s'.resumed ensures x in woken + more || exists t :: t in times && x.deadline <= t {
      assert x in s.resumed;
    }
  }

  lemma WaitMovesNobody(s: Loop, e: Event)
    requires |s.wheel.slots| > 0 && Enabled(s, e) && (e.ECondWait? || e.EPollWait?)
    ensures var s' := Apply(s, e);
            s'.active == s.active && s'.flagged == s.flagged && s'.resumed == s.resumed && s'.phase == s.phase
  {
  }

  lemma StepJustified(s: Loop, e: Event, woken: set<Item>, times: set<nat>)
    requires Inv(s) && Enabled(s, e) && Justified(s, woken, times)
    ensures Justified(Apply(s, e), woken + Woken(s, e), times + Times(e))
  {
    assert times + {} == times && woken + {} == woken;
    match e
    case ETake(now) => TakeJustified(s, now, woken, times);
    case EDrain => DrainJustified(s, woken, times);
    case EEndDrain =>
    case EEventReady(x) =>
      ActivateFacts(s.(detached := s.detached + {x}), x);
      MovedJustified(s, EventReady(s, x), {x}, woken, times);
    case ESignal(c) =>
      if Queue(s, c) != [] {
        SignalMoves(s, c);
      }
      MovedJustified(s, Signal(s, c), Woken(s, e), woken, times);
    case EBroadcast(c) =>
      BroadcastMoves(s, c);
      BroadcastFrame(s, c);
      MovedJustified(s, Broadcast(s, c), Woken(s, e), woken, times);
    case ECondWait(x, now) =>
      WaitMovesNobody(s, e);
      MovedJustified(s, Apply(s, e), {}, woken, times);
    case EPollWait(x, now) =>
      WaitMovesNobody(s, e);
      MovedJustified(s, Apply(s, e), {}, woken, times);
  }

  lemma Regroup<A>(a: set<A>, b: set<A>, c: set<A>)
    ensures (a + b) + c == a + (b + c)
  {
  }

  lemma {:induction false} RunJustified(s: Loop, es: seq<Event>, woken: set<Item>, times: set<nat>)
    requires Inv(s) && Legal(s, es) && Justified(s, woken, times)
    ensures Justified(Run(s, es), woken + WokenIn(s, es), times + TimesIn(es))
    decreases |es|
  {
    if es == [] {
      assert woken + {} == woken && times + {} == times;
    } else {
      StepJustified(s, es[0], woken, times);
      StepKeepsInv(s, es[0]);
      RunJustified(Apply(s, es[0]), es[1..], woken + Woken(s, es[0]), times + Times(es[0]));
      Regroup(woken, Woken(s, es[0]), WokenIn(Apply(s, es[0]), es[1..]));
      Regroup(times, Times(es[0]), TimesIn(es[1..]));
    }
  }

  lemma {:induction false} TimesAreTakes(es: seq<Event>, now: nat)
    requires now in TimesIn(es)
    ensures ETake(now) in es
  {
    if now !in Times(es[0]) {
      TimesAreTakes(es[1..], now);
    }
  }

  // In every run: whoever was resumed had been woken by an event, a signal or a broadcast, or the loop had
  // taken its timeouts at a time not before the deadline.
  lemma NobodyIsResumedEarly(size: nat, start: nat, es: seq<Event>, x: Item)
    requires 0 < size < 0x8000_0000 && 0 < start && Legal(Init(size, start), es)
    requires x in Run(Init(size, start), es).resumed
    ensures x in WokenIn(Init(size, start), es) || exists now :: ETake(now) in es && x.deadline <= now
  {
    var s := Init(size, start);
    InitInv(size, start);
    RunJustified(s, es, {}, {});
    if x !in WokenIn(s, es) {
      var now :| now in {} + TimesIn(es) && x.deadline <= now;
      TimesAreTakes(es, now);
    }
  }

  // ---- The loop ends every timed wait ----------------------------------------------------------------

  // What the loop does by itself.
  predicate LoopStep(e: Event) {
    e.ETake? || e.EDrain? || e.EEndDrain?
  }

  lemma OneDrain(s: Loop)
    requires Inv(s) && Enabled(s, EDrain)
    ensures var s' := Drain(s);
            && Inv(s') && s'.phase == s.phase && s'.active == s.active[1..]
            && s'.wheel.ullStart == s.wheel.ullStart && |s'.wheel.slots| == |s.wheel.slots| && s'.used == s.used
  {
    StepKeepsInv(s, EDrain);
    DrainFacts(s);
    if IsEarly(s, s.active[0], s.phase.now) {
      RefileFacts(s);
    }
  }

  function Gap(s: Loop, x: Item): nat {
    if s.wheel.ullStart < x.deadline then x.deadline - s.wheel.ullStart else 0
  }

  // How far the wait x is from its end: the time to go, less if the present drain owes it a resume.
  function Distance(s: Loop, x: Item): nat {
    2 * Gap(s, x) + if s.phase.Draining? && x in s.due then 0 else 1
  }

  // The next thing the loop does; it lets a millisecond pass if x is not due yet.
  function Onward(s: Loop, x: Item): Event {
    if s.phase.Draining? then if s.active != [] then EDrain else EEndDrain
    else ETake(if Gap(s, x) > 0 then s.wheel.ullStart + 1 else s.wheel.ullStart)
  }

  // It goes on: in time, from the drain to its end, or down the active list.
  ghost predicate Closer(s: Loop, s': Loop, x: Item) {
    || Distance(s', x) < Distance(s, x)
    || (Distance(s', x) == Distance(s, x) && s.phase.Draining? &&
        (s'.phase.Idle? || (s'.phase.Draining? && |s'.active| < |s.active|)))
  }

  lemma TakeMovesOrigin(s: Loop, now: nat)
    requires Inv(s) && s.phase.Idle? && s.wheel.ullStart <= now <= s.wheel.ullStart + 1
    ensures Enabled(s, ETake(now))
    ensures var s' := Take(s, now); s'.wheel.ullStart == now && s'.used == s.used && s'.phase == Draining(now)
  {
    T.ShortGapsAreFaithful(now - s.wheel.ullStart, |s.wheel.slots|);
    T.TakeKeepsValid(s.wheel, now);
    TakeIs(s, now, T.TakeAllTimeout(s.wheel, now).1);
  }

  lemma TimedIsLinked(s: Loop, x: Item)
    requires Inv(s) && Waits(s, x) && !Untimed(x)
    ensures x in Linked(s)
  {
    assert Findable(s.waiting[x.co], T.Pending(s.wheel), s.active, s.queues);
  }

  lemma TakeIsCloser(s: Loop, x: Item)
    requires Inv(s) && s.phase.Idle? && Waits(s, x) && !Untimed(x)
    ensures var e := Onward(s, x);
            Enabled(s, e) && Inv(Apply(s, e)) && Apply(s, e).used == s.used && Closer(s, Apply(s, e), x)
  {
    var now := Onward(s, x).now;
    TakeMovesOrigin(s, now);
    TakeKeepsInv(s, now);
    if Gap(s, x) == 0 {
      TimedIsLinked(s, x);
      TakeOwes(s, now, x);
    }
  }

  lemma PopIsCloser(s: Loop, x: Item)
    requires Inv(s) && Enabled(s, EDrain)
    ensures Inv(Drain(s)) && Drain(s).used == s.used && Closer(s, Drain(s), x)
  {
    OneDrain(s);
    StepKeepsDebt(s, EDrain);
  }

  lemma EndIsCloser(s: Loop, x: Item)
    requires Inv(s) && s.phase.Draining? && s.active == [] && x !in s.resumed
    ensures Inv(EndDrain(s)) && EndDrain(s).used == s.used && Closer(s, EndDrain(s), x)
  {
    StepKeepsInv(s, EEndDrain);
  }

  lemma DrainIsCloser(s: Loop, x: Item)
    requires Inv(s) && s.phase.Draining? && x !in s.resumed
    ensures var e := Onward(s, x);
            Enabled(s, e) && Inv(Apply(s, e)) && Apply(s, e).used == s.used && Closer(s, Apply(s, e), x)
  {
    if s.active != [] {
      PopIsCloser(s, x);
    } else {
      EndIsCloser(s, x);
    }
  }

  lemma {:induction false} CanEnd(s: Loop, x: Item) returns (es: seq<Event>)
    requires Inv(s) && x in s.used && !Untimed(x)
    ensures Legal(s, es) && (forall e | e in es :: LoopStep(e)) && x in Run(s, es).resumed
    decreases Distance(s, x), if s.phase.Draining? then 1 else 0, |s.active|
  {
    es := [];
    if x !in s.resumed {
      assert Waits(s, x);
      var e := Onward(s, x);
      if s.phase.Idle? {
        TakeIsCloser(s, x);
      } else {
        DrainIsCloser(s, x);
      }
      var rest := CanEnd(Apply(s, e), x);
      ThenRun(s, e, rest);
      es := [e] + rest;
    }
  }

  ghost predicate EndsBy(s: Loop, es: seq<Event>, x: Item) {
    Legal(s, es) && (forall e | e in es :: LoopStep(e)) && x in Run(s, es).resumed
  }

  // A waiter without a deadline that is on the active list is resumed by the drain.
  lemma UntimedIsNotEarly(s: Loop, x: Item)
    requires Inv(s) && Untimed(x)
    ensures x !in s.flagged
  {
  }

  lemma ActiveStaysOrEnds(s: Loop, x: Item)
    requires Inv(s) && Untimed(x) && x in s.active
    ensures var e := if s.phase.Idle? then ETake(s.wheel.ullStart) else EDrain;
            && Enabled(s, e)
            && var s' := Apply(s, e);
            && Inv(s') && s'.phase.Draining?
            && (x in s'.resumed || (x in s'.active && (e.EDrain? ==> |s'.active| < |s.active|)))
  {
    if s.phase.Idle? {
      TakeMovesOrigin(s, s.wheel.ullStart);
      TakeKeepsInv(s, s.wheel.ullStart);
    } else {
      UntimedIsNotEarly(s, x);
      OneDrain(s);
      HeadFacts(s);
      DrainNeverEarly(s);
    }
  }

  lemma {:induction false} CanEndActive(s: Loop, x: Item) returns (es: seq<Event>)
    requires Inv(s) && Untimed(x) && x in s.active
    ensures EndsBy(s, es, x)
    decreases if s.phase.Idle? then 1 else 0, |s.active|
  {
    var e := if s.phase.Idle? then ETake(s.wheel.ullStart) else EDrain;
    ActiveStaysOrEnds(s, x);
    var rest := [];
    if x !in Apply(s, e).resumed {
      rest := CanEndActive(Apply(s, e), x);
    }
    EndsAfter(s, e, rest, x);
    es := [e] + rest;
  }

  lemma EndsAfter(s: Loop, e: Event, rest: seq<Event>, x: Item)
    requires |s.wheel.slots| > 0 && Enabled(s, e) && LoopStep(e) && EndsBy(Apply(s, e), rest, x)
    ensures EndsBy(s, [e] + rest, x)
  {
    ThenRun(s, e, rest);
  }

  // No step of the loop by itself wakes a waiter without a deadline.
  lemma UntimedNeedsWaking(s: Loop, e: Event, x: Item)
    requires Inv(s) && Enabled(s, e) && LoopStep(e) && Untimed(x) && x !in s.active && x !in s.resumed
    ensures x !in Apply(s, e).active && x !in Apply(s, e).resumed
  {
    match e
    case ETake(now) => TakeFacts(s, now);
    case EDrain =>
      HeadFacts(s);
      DrainFacts(s);
      DrainNeverEarly(s);
    case EEndDrain =>
  }

  lemma {:induction false} UntimedStays(s: Loop, es: seq<Event>, x: Item)
    requires Inv(s) && Untimed(x) && x !in s.active && x !in s.resumed
    ensures !EndsBy(s, es, x)
    decreases |es|
  {
    if es != [] && Legal(s, es) && forall e | e in es :: LoopStep(e) {
      UntimedNeedsWaking(s, es[0], x);
      StepKeepsInv(s, es[0]);
      UntimedStays(Apply(s, es[0]), es[1..], x);
    }
  }

  // In every reachable state, a wait that was entered can be brought to its resume by the loop alone,
  // without another event or signal, if and only if it has a deadline, is on the active list already, or
  // has been resumed.
  lemma LoopCanEndIff(size: nat, start: nat, before: seq<Event>, x: Item)
    requires 0 < size < 0x8000_0000 && 0 < start && Legal(Init(size, start), before)
    requires x in Run(Init(size, start), before).used
    ensures var s := Run(Init(size, start), before);
            (exists es :: EndsBy(s, es, x)) <==> !Untimed(x) || x in s.active || x in s.resumed
  {
    InitInv(size, start);
    RunKeepsInv(Init(size, start), before);
    var s := Run(Init(size, start), before);
    if !Untimed(x) {
      var es := CanEnd(s, x);
      assert EndsBy(s, es, x);
    } else if x in s.active {
      var es := CanEndActive(s, x);
      assert EndsBy(s, es, x);
    } else if x in s.resumed {
      assert EndsBy(s, [], x);
    } else {
      forall es ensures !EndsBy(s, es, x) {
        UntimedStays(s, es, x);
      }
    }
  }
}
