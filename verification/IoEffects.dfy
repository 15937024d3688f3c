/** What each operation of module IoEvents answers and changes, said without naming the operation's own
    steps; and which call of addEvent a registration comes from. */
module IoEffects {
  import opened IoEvents

  // The other fds, their contexts and what the kernel lists for them, are as before.
  ghost predicate OnlyAt(io: Io, io': Io, fd: nat) {
    && OthersSame(io.ctxs, io'.ctxs, fd)
    && forall g: nat | g != fd :: (g in io'.table <==> g in io.table) && (g in io.table ==> io'.table[g] == io.table[g])
  }

  // The kernel lists the fd with this mask, or not at all.
  predicate Lists(table: map<nat, Mask>, fd: nat, mask: Mask) {
    if mask == {} then fd !in table else fd in table && table[fd] == mask
  }

  lemma AddAccepted(io: Io, fd: nat, d: Dir)
    requires Inv(io) && fd < |io.ctxs| && d !in io.ctxs[fd].events
    ensures AddEvent(io, fd, d, false) == (Register(io.(table := io.table[fd := io.ctxs[fd].events + {d}]), fd, d), 0)
  {
    AddAnswer(io, fd, d, false);
  }

  lemma RegisterFills(c: Ctx, d: Dir, r: nat)
    ensures var c' := WithContext(c.(events := c.events + {d}), d, Some(r));
            && c'.events == c.events + {d} && EventContext(c', d) == Some(r)
            && forall e | e != d :: EventContext(c', e) == EventContext(c, e)
  {
  }

  // The answer is 0 exactly if the direction was free and the kernel did not fail. Then the direction has
  // a registration of its own; otherwise nothing has changed.
  lemma AddRegisters(io: Io, fd: nat, d: Dir, fails: bool)
    requires Inv(io) && fd < |io.ctxs|
    ensures var (io', rt) := AddEvent(io, fd, d, fails);
            && (rt == 0 <==> d !in io.ctxs[fd].events && !fails)
            && (rt != 0 ==> rt == -1 && io' == io)
            && (rt == 0 ==>
                  && OnlyAt(io, io', fd) && Lists(io'.table, fd, io.ctxs[fd].events + {d})
                  && io'.ctxs[fd].events == io.ctxs[fd].events + {d}
                  && EventContext(io'.ctxs[fd], d) == Some(|io.places|)
                  && (forall e | e != d :: EventContext(io'.ctxs[fd], e) == EventContext(io.ctxs[fd], e))
                  && io'.places == io.places + [Live(fd, d)] && io'.scheduled == io.scheduled
                  && io'.pending == io.pending + 1)
  {
    AddAnswer(io, fd, d, fails);
    if d !in io.ctxs[fd].events && !fails {
      AddAccepted(io, fd, d);
      RegisterFills(io.ctxs[fd], d, |io.places|);
    }
  }

  // The registrations of the fired directions are scheduled, and those directions are free again.
  ghost predicate Fired(io: Io, io': Io, fd: nat, mask: Mask) {
    && fd < |io.ctxs| && OnlyAt(io, io', fd) && Lists(io'.table, fd, io.ctxs[fd].events - mask)
    && Freed(io.ctxs[fd], io'.ctxs[fd], mask)
    && io'.scheduled == io.scheduled + Owners(io.ctxs[fd], mask) && io'.pending == io.pending - |mask|
    && PlacesMoved(io.places, io'.places, Owners(io.ctxs[fd], mask), Scheduled)
  }

  predicate Freed(c: Ctx, c': Ctx, mask: Mask) {
    c'.events == c.events - mask && forall d :: EventContext(c', d) == if d in mask then None else EventContext(c, d)
  }

  // These registrations are at a new place, all others where they were.
  predicate PlacesMoved(places: seq<Place>, places': seq<Place>, moved: seq<nat>, to: Place) {
    && |places'| == |places|
    && forall k | 0 <= k < |places| :: places'[k] == if k in moved then to else places[k]
  }

  // delEvent says whether the event was there. It is dropped, with its registration, unless the kernel fails.
  lemma DelDrops(io: Io, fd: nat, d: Dir, fails: bool)
    requires Inv(io)
    ensures var (io', r) := DelEvent(io, fd, d, fails);
            && (r <==> fd < |io.ctxs| && d in io.ctxs[fd].events)
            && (!r || fails ==> io' == io)
            && (r && !fails ==>
                  && OnlyAt(io, io', fd) && Lists(io'.table, fd, io.ctxs[fd].events - {d})
                  && Freed(io.ctxs[fd], io'.ctxs[fd], {d})
                  && io'.scheduled == io.scheduled && io'.pending == io.pending - 1
                  && PlacesMoved(io.places, io'.places, Owners(io.ctxs[fd], {d}), Dropped))
  {
    if fd < |io.ctxs| && d in io.ctxs[fd].events {
      var c := io.ctxs[fd];
      MirrorUpdate(io.ctxs, io.table, fd, c.(events := c.events - {d}), OpFor(c.events - {d}));
      assert EventContext(c, d).Some?;
      assert io.places[EventContext(c, d).value] == Live(fd, d);
      OwnersOfOne(c, d);
    }
  }

  lemma OwnersOfOne(c: Ctx, d: Dir)
    requires EventContext(c, d).Some?
    ensures Owners(c, {d}) == [EventContext(c, d).value]
  {
  }

  // ---- Firing ------------------------------------------------------------------------------------

  lemma FireFrees(io: Io, fd: nat, d: Dir)
    requires Core(io) && fd < |io.ctxs| && d in io.ctxs[fd].events
    ensures var io' := Fire(io, fd, d);
            && Core(io') && io'.table == io.table && OthersSame(io.ctxs, io'.ctxs, fd)
            && Freed(io.ctxs[fd], io'.ctxs[fd], {d})
            && io'.pending == io.pending - 1 && PlacesMoved(io.places, io'.places, Owners(io.ctxs[fd], {d}), Scheduled)
  {
    FireKeeps(io, fd, d);
    OwnersOfOne(io.ctxs[fd], d);
  }

  lemma FreedTwice(c: Ctx, c1: Ctx, c2: Ctx)
    requires Freed(c, c1, {READ}) && Freed(c1, c2, {WRITE})
    ensures Freed(c, c2, {READ, WRITE}) && Owners(c1, {WRITE}) == Owners(c, {WRITE})
    ensures Owners(c, {READ, WRITE}) == Owners(c, {READ}) + Owners(c, {WRITE})
  {
    assert EventContext(c1, WRITE) == EventContext(c, WRITE);
  }

  lemma MovedTwice(places: seq<Place>, places1: seq<Place>, places2: seq<Place>, a: seq<nat>, b: seq<nat>, to: Place)
    requires PlacesMoved(places, places1, a, to) && PlacesMoved(places1, places2, b, to)
    ensures PlacesMoved(places, places2, a + b, to)
  {
  }

  lemma MaskIs(mask: Mask)
    ensures mask == (if READ in mask then {READ} else {}) + if WRITE in mask then {WRITE} else {}
  {
    forall d | d in mask ensures d == READ || d == WRITE {
      match d
      case READ =>
      case WRITE =>
    }
  }

  lemma FireAllFrees(io: Io, fd: nat, mask: Mask)
    requires Core(io) && fd < |io.ctxs| && mask <= io.ctxs[fd].events
    ensures var io' := FireAll(io, fd, mask);
            && io'.table == io.table && OthersSame(io.ctxs, io'.ctxs, fd)
            && Freed(io.ctxs[fd], io'.ctxs[fd], mask)
            && io'.pending == io.pending - |mask|
            && PlacesMoved(io.places, io'.places, Owners(io.ctxs[fd], mask), Scheduled)
  {
    MaskIs(mask);
    if READ in mask && WRITE in mask {
      var io1 := Fire(io, fd, READ);
      FireFrees(io, fd, READ);
      FireFrees(io1, fd, WRITE);
      FreedTwice(io.ctxs[fd], io1.ctxs[fd], Fire(io1, fd, WRITE).ctxs[fd]);
      MovedTwice(io.places, io1.places, Fire(io1, fd, WRITE).places, Owners(io.ctxs[fd], {READ}),
                 Owners(io.ctxs[fd], {WRITE}), Scheduled);
      assert mask == {READ, WRITE};
    } else if READ in mask {
      FireFrees(io, fd, READ);
    } else if WRITE in mask {
      FireFrees(io, fd, WRITE);
    }
  }

  // The kernel accepts what is left, and the mask fires.
  lemma TellAndFire(io: Io, fd: nat, mask: Mask, op: Op)
    requires Inv(io) && fd < |io.ctxs| && mask <= io.ctxs[fd].events && mask != {}
    requires op == OpFor(io.ctxs[fd].events - mask)
    ensures LegalOp(io.table, op, fd)
    ensures var table := Ctl(io.table, op, fd, io.ctxs[fd].events - mask, false).value;
            Fired(io, FireAll(io.(table := table), fd, mask), fd, mask)
  {
    var left := io.ctxs[fd].events - mask;
    MirrorUpdate(io.ctxs, io.table, fd, io.ctxs[fd].(events := left), op);
    var io1 := io.(table := Ctl(io.table, op, fd, left, false).value);
    assert Core(io1);
    FireAllFrees(io1, fd, mask);
    FireAllSchedules(io1, fd, mask);
  }

  // cancelEvent says whether the event was there, and fires it unless the kernel fails.
  lemma CancelFires(io: Io, fd: nat, d: Dir, fails: bool)
    requires Inv(io)
    ensures var (io', r) := CancelEvent(io, fd, d, fails);
            && (r <==> fd < |io.ctxs| && d in io.ctxs[fd].events)
            && (!r || fails ==> io' == io)
            && (r && !fails ==> Fired(io, io', fd, {d}))
  {
    if fd < |io.ctxs| && d in io.ctxs[fd].events {
      var left := io.ctxs[fd].events - {d};
      TellAndFire(io, fd, {d}, OpFor(left));
      FireAllOfOne(io.(table := Ctl(io.table, OpFor(left), fd, left, false).value), fd, d);
    }
  }

  lemma FireAllOfOne(io: Io, fd: nat, d: Dir)
    requires fd < |io.ctxs| && d in io.ctxs[fd].events
    ensures FireAll(io, fd, {d}) == Fire(io, fd, d)
  {
  }

  // cancelAll says whether there was any, and fires all there are.
  lemma CancelAllFires(io: Io, fd: nat, fails: bool)
    requires Inv(io)
    ensures var (io', r) := CancelAll(io, fd, fails);
            && (r <==> fd < |io.ctxs| && io.ctxs[fd].events != {})
            && (!r || fails ==> io' == io)
            && (r && !fails ==> Fired(io, io', fd, io.ctxs[fd].events))
  {
    if fd < |io.ctxs| && io.ctxs[fd].events != {} {
      assert io.ctxs[fd].events - io.ctxs[fd].events == {};
      TellAndFire(io, fd, io.ctxs[fd].events, DEL);
    }
  }

  // A dispatch that finishes fires what is reported, an error counting for every registered direction;
  // it leaves everything as it was if nothing registered is reported or the kernel fails.
  lemma DispatchFires(io: Io, fd: nat, report: Mask, errOrHup: bool, fails: bool)
    requires Inv(io) && fd < |io.ctxs| && Dispatch(io, fd, report, errOrHup, fails).Some?
    ensures var io', events := Dispatch(io, fd, report, errOrHup, fails).value, io.ctxs[fd].events;
            var fired := if errOrHup then events else report * events;
            if fired == {} || fails then io' == io else Fired(io, io', fd, fired)
  {
    var events := io.ctxs[fd].events;
    var all := Real(report, errOrHup, events);
    var fired := if errOrHup then events else report * events;
    DispatchAbortsIff(io, fd, report, errOrHup, fails);
    HeardIs(report, errOrHup, events);
    if fired != {} && !fails {
      TellAndFire(io, fd, fired, OpFor(events - fired));
    }
  }

  lemma HeardIs(report: Mask, errOrHup: bool, events: Mask)
    ensures var all, fired := Real(report, errOrHup, events), if errOrHup then events else report * events;
            events * all == fired && (report <= events ==> all == fired)
  {
  }

  // ---- Where registrations come from ---------------------------------------------------------------

  // The calls of addEvent in a run that were answered 0, in order.
  ghost function Adds(io: Io, ts: seq<Step>): seq<(nat, Dir)>
    requires Legal(io, ts)
    decreases |ts|
  {
    if ts == [] then [] else Added(io, ts[0]) + Adds(Next(io, ts[0]), ts[1..])
  }

  function Added(io: Io, t: Step): seq<(nat, Dir)>
    requires t.Add? ==> t.fd < |io.ctxs|
  {
    if t.Add? && AddEvent(io, t.fd, t.d, t.fails).1 == 0 then [(t.fd, t.d)] else []
  }

  // The registrations there were are where they were, scheduled or dropped; the new ones are at home.
  predicate Follows(places: seq<Place>, places': seq<Place>, adds: seq<(nat, Dir)>) {
    && |places'| == |places| + |adds|
    && (forall k | 0 <= k < |places| && places'[k].Live? :: places'[k] == places[k])
    && forall k | |places| <= k < |places'| && places'[k].Live? ::
         places'[k] == Live(adds[k - |places|].0, adds[k - |places|].1)
  }

  lemma FollowsOn(places: seq<Place>, places1: seq<Place>, places2: seq<Place>, a: seq<(nat, Dir)>, b: seq<(nat, Dir)>)
    requires Follows(places, places1, a) && Follows(places1, places2, b)
    ensures Follows(places, places2, a + b)
  {
    forall k | |places| <= k < |places2| && places2[k].Live?
      ensures places2[k] == Live((a + b)[k - |places|].0, (a + b)[k - |places|].1)
    {
      if k < |places1| {
        assert places2[k] == places1[k] && (a + b)[k - |places|] == a[k - |places|];
      }
    }
  }

  lemma StepFollows(io: Io, t: Step)
    requires Inv(io) && Enabled(io, t)
    ensures Follows(io.places, Next(io, t).places, Added(io, t))
  {
    match t
    case Find(_, _) =>
    case Add(fd, d, fails) => AddRegisters(io, fd, d, fails);
    case Del(fd, d, fails) => DelDrops(io, fd, d, fails);
    case Cancel(fd, d, fails) => CancelFires(io, fd, d, fails);
    case CancelBoth(fd, fails) => CancelAllFires(io, fd, fails);
    case Ready(fd, report, errOrHup, fails) =>
      if Dispatch(io, fd, report, errOrHup, fails).Some? {
        DispatchFires(io, fd, report, errOrHup, fails);
      }
  }

  lemma {:induction false} RunFollows(io: Io, ts: seq<Step>)
    requires Inv(io) && Legal(io, ts)
    ensures Follows(io.places, Run(io, ts).places, Adds(io, ts))
    decreases |ts|
  {
    if ts != [] {
      var io1 := Next(io, ts[0]);
      StepFollows(io, ts[0]);
      StepKeeps(io, ts[0]);
      RunFollows(io1, ts[1..]);
      FollowsOn(io.places, io1.places, Run(io, ts).places, Added(io, ts[0]), Adds(io1, ts[1..]));
    }
  }

  // Where registration k is now.
  ghost predicate IsAt(io: Io, k: nat, fd: nat, d: Dir)
    requires k < |io.places|
  {
    if io.places[k].Live? then
      fd < |io.ctxs| && d in io.ctxs[fd].events && EventContext(io.ctxs[fd], d) == Some(k)
    else
      io.places[k] == Dropped || (io.places[k] == Scheduled && k in io.scheduled)
  }

  lemma PlaceTells(io: Io, k: nat, fd: nat, d: Dir)
    requires Core(io) && k < |io.places| && (io.places[k].Live? ==> io.places[k] == Live(fd, d))
    ensures IsAt(io, k, fd, d)
  {
  }

  // In every run the k-th call of addEvent that is answered 0 has registration k, which is registered for
  // its fd and direction, scheduled or dropped; there are no others.
  lemma EveryAddHasItsRegistration(ts: seq<Step>)
    requires Legal(Start(), ts)
    ensures var io, adds := Run(Start(), ts), Adds(Start(), ts);
            |io.places| == |adds| && forall k | 0 <= k < |adds| :: IsAt(io, k, adds[k].0, adds[k].1)
  {
    StartHolds();
    RunFollows(Start(), ts);
    RunKeeps(Start(), ts);
    var io, adds := Run(Start(), ts), Adds(Start(), ts);
    forall k | 0 <= k < |adds| ensures IsAt(io, k, adds[k].0, adds[k].1) {
      PlaceTells(io, k, adds[k].0, adds[k].1);
    }
  }
}
