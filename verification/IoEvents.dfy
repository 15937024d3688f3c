/** Event registration and dispatch of corlib/ioscheduler.cpp. Each function below is one region under
    an fd's mutex (or, for Resize, under m_mutex), together with the epoll_ctl call it makes. */
module IoEvents {

  datatype Option<T> = None | Some(value: T)

  // Event; NONE is the empty mask.
  datatype Dir = READ | WRITE
  type Mask = set<Dir>

  // FdContext: an EventContext holds the registration (its callback or fiber), or is reset.
  datatype Ctx = Ctx(events: Mask, read: Option<nat>, write: Option<nat>)

  const EMPTY := Ctx({}, None, None)

  // History of a registration.
  datatype Place = Live(fd: nat, dir: Dir) | Scheduled | Dropped

  datatype Io = Io(
    ctxs: seq<Ctx>,            // m_fdContexts, by fd
    pending: int,              // m_pendingEventCount
    table: map<nat, Mask>,     // the kernel's interest list
    scheduled: seq<nat>,       // registrations passed to scheduleLock, in order
    places: seq<Place>         // by registration
  )

  function EventContext(c: Ctx, d: Dir): Option<nat> {
    if d == READ then c.read else c.write
  }

  function WithContext(c: Ctx, d: Dir, r: Option<nat>): Ctx {
    if d == READ then c.(read := r) else c.(write := r)
  }

  // ---- epoll_ctl -----------------------------------------------------------------------------

  datatype Op = ADD | MOD | DEL

  // ADD needs an fd that is not in the list, MOD and DEL one that is.
  predicate LegalOp(table: map<nat, Mask>, op: Op, fd: nat) {
    op == ADD <==> fd !in table
  }

  // A call fails when it is not legal, and may fail for reasons of the kernel's own.
  function Ctl(table: map<nat, Mask>, op: Op, fd: nat, mask: Mask, fails: bool): Option<map<nat, Mask>> {
    if fails || !LegalOp(table, op, fd) then None
    else if op == DEL then Some(table - {fd})
    else Some(table[fd := mask])
  }

  function OpFor(left: Mask): Op {
    if left != {} then MOD else DEL
  }

  // ---- The operations ------------------------------------------------------------------------

  // The number returned is the code's; a failed epoll_ctl makes delEvent, cancelEvent and cancelAll
  // return -1 as a bool, which is true.
  function AddEvent(io: Io, fd: nat, d: Dir, fails: bool): (Io, int)
    requires fd < |io.ctxs|
  {
    var c := io.ctxs[fd];
    if d in c.events then (io, -1)
    else
      var table := Ctl(io.table, if c.events != {} then MOD else ADD, fd, c.events + {d}, fails);
      if table.None? then (io, -1) else (Register(io.(table := table.value), fd, d), 0)
  }

  // What addEvent does after epoll_ctl.
  function Register(io: Io, fd: nat, d: Dir): Io
    requires fd < |io.ctxs|
  {
    var c := io.ctxs[fd];
    io.(ctxs := io.ctxs[fd := WithContext(c.(events := c.events + {d}), d, Some(|io.places|))],
        pending := io.pending + 1, places := io.places + [Live(fd, d)])
  }

  function DelEvent(io: Io, fd: nat, d: Dir, fails: bool): (Io, bool) {
    if fd >= |io.ctxs| || d !in io.ctxs[fd].events then (io, false)
    else
      var c := io.ctxs[fd];
      var left := c.events - {d};
      var table := Ctl(io.table, OpFor(left), fd, left, fails);
      if table.None? then (io, true)
      else
        (io.(ctxs := io.ctxs[fd := WithContext(c.(events := left), d, None)], pending := io.pending - 1,
             table := table.value, places := Moved(io.places, EventContext(c, d), Dropped)), true)
  }

  function Moved(places: seq<Place>, r: Option<nat>, p: Place): seq<Place> {
    if r.Some? && r.value < |places| then places[r.value := p] else places
  }

  // triggerEvent; its assertion is the precondition. A null task is not queued by scheduleLock.
  function Trigger(io: Io, fd: nat, d: Dir): Io
    requires fd < |io.ctxs| && d in io.ctxs[fd].events
  {
    var c := io.ctxs[fd];
    var r := EventContext(c, d);
    io.(ctxs := io.ctxs[fd := WithContext(c.(events := c.events - {d}), d, None)],
        scheduled := if r.Some? then io.scheduled + [r.value] else io.scheduled,
        places := Moved(io.places, r, Scheduled))
  }

  function Fire(io: Io, fd: nat, d: Dir): Io
    requires fd < |io.ctxs| && d in io.ctxs[fd].events
  {
    Trigger(io, fd, d).(pending := io.pending - 1)
  }

  function CancelEvent(io: Io, fd: nat, d: Dir, fails: bool): (Io, bool) {
    if fd >= |io.ctxs| || d !in io.ctxs[fd].events then (io, false)
    else
      var left := io.ctxs[fd].events - {d};
      var table := Ctl(io.table, OpFor(left), fd, left, fails);
      if table.None? then (io, true) else (Fire(io.(table := table.value), fd, d), true)
  }

  // Fire what is in the mask, READ first.
  function FireAll(io: Io, fd: nat, mask: Mask): (r: Io)
    requires fd < |io.ctxs| && mask <= io.ctxs[fd].events
  {
    var io1 := if READ in mask then Fire(io, fd, READ) else io;
    if WRITE in mask then Fire(io1, fd, WRITE) else io1
  }

  function CancelAll(io: Io, fd: nat, fails: bool): (Io, bool) {
    if fd >= |io.ctxs| || io.ctxs[fd].events == {} then (io, false)
    else
      var table := Ctl(io.table, DEL, fd, {}, fails);
      if table.None? then (io, true) else (FireAll(io.(table := table.value), fd, io.ctxs[fd].events), true)
  }

  // What epoll_wait reports: EPOLLIN and EPOLLOUT as READ and WRITE, and EPOLLERR or EPOLLHUP.
  function Real(report: Mask, errOrHup: bool, events: Mask): Mask {
    if errOrHup then report + events else report
  }

  // One round of the dispatch loop in idle(). None: the assertion of triggerEvent fails.
  function Dispatch(io: Io, fd: nat, report: Mask, errOrHup: bool, fails: bool): Option<Io>
    requires fd < |io.ctxs|
  {
    var events := io.ctxs[fd].events;
    var fired := Real(report, errOrHup, events);
    if events * fired == {} then Some(io)
    else
      var left := events - fired;
      var table := Ctl(io.table, OpFor(left), fd, left, fails);
      if table.None? then Some(io)
      else if fired <= events then Some(FireAll(io.(table := table.value), fd, fired))
      else None
  }

  function Repeat(n: nat): (r: seq<Ctx>)
    ensures |r| == n && forall i | 0 <= i < n :: r[i] == EMPTY
  {
    if n == 0 then [] else Repeat(n - 1) + [EMPTY]
  }

  // contextResize, which also shrinks.
  function Resize(io: Io, n: nat): Io {
    io.(ctxs := if n <= |io.ctxs| then io.ctxs[..n] else io.ctxs + Repeat(n - |io.ctxs|))
  }

  // fd * 1.5, truncated.
  function SizeFor(fd: nat): nat {
    fd * 3 / 2
  }

  // ---- The invariant -----------------------------------------------------------------------

  // An event context is filled exactly when its bit is set.
  ghost predicate FilledInv(ctxs: seq<Ctx>) {
    forall fd, d | 0 <= fd < |ctxs| :: d in ctxs[fd].events <==> EventContext(ctxs[fd], d).Some?
  }

  // The kernel lists exactly the fds with a bit, each with its mask.
  ghost predicate MirrorInv(ctxs: seq<Ctx>, table: map<nat, Mask>) {
    && (forall fd | fd in table :: fd < |ctxs|)
    && forall fd | 0 <= fd < |ctxs| ::
         if ctxs[fd].events == {} then fd !in table else fd in table && table[fd] == ctxs[fd].events
  }

  // The number of set bits.
  function Bits(ctxs: seq<Ctx>): nat {
    if ctxs == [] then 0 else Bits(ctxs[..|ctxs| - 1]) + |ctxs[|ctxs| - 1].events|
  }

  // Every registration sits in the event context it was made for, or was scheduled or dropped.
  ghost predicate PlaceInv(ctxs: seq<Ctx>, places: seq<Place>) {
    && (forall fd, d | 0 <= fd < |ctxs| && EventContext(ctxs[fd], d).Some? ::
          EventContext(ctxs[fd], d).value < |places| && places[EventContext(ctxs[fd], d).value] == Live(fd, d))
    && forall k | 0 <= k < |places| && places[k].Live? ::
         places[k].fd < |ctxs| && EventContext(ctxs[places[k].fd], places[k].dir) == Some(k)
  }

  ghost predicate ScheduledInv(scheduled: seq<nat>, places: seq<Place>) {
    && (forall i | 0 <= i < |scheduled| :: scheduled[i] < |places| && places[scheduled[i]] == Scheduled)
    && (forall i, j | 0 <= i < j < |scheduled| :: scheduled[i] != scheduled[j])
    && forall k | 0 <= k < |places| && places[k] == Scheduled :: k in scheduled
  }

  // All but the kernel's list, which changes before the contexts do.
  ghost predicate Core(io: Io) {
    && FilledInv(io.ctxs) && io.pending == Bits(io.ctxs)
    && PlaceInv(io.ctxs, io.places) && ScheduledInv(io.scheduled, io.places)
  }

  ghost predicate Inv(io: Io) {
    Core(io) && MirrorInv(io.ctxs, io.table)
  }

  lemma {:induction false} BitsUpdate(ctxs: seq<Ctx>, fd: nat, c: Ctx)
    requires fd < |ctxs|
    ensures Bits(ctxs[fd := c]) == Bits(ctxs) - |ctxs[fd].events| + |c.events|
  {
    var n := |ctxs| - 1;
    if fd < n {
      BitsUpdate(ctxs[..n], fd, c);
      assert ctxs[fd := c][..n] == ctxs[..n][fd := c];
    } else {
      assert ctxs[fd := c][..n] == ctxs[..n];
    }
  }

  lemma FilledUpdate(ctxs: seq<Ctx>, fd: nat, d: Dir, events: Mask, r: Option<nat>)
    requires FilledInv(ctxs) && fd < |ctxs| && (d in events <==> r.Some?)
    requires forall e | e != d :: e in events <==> e in ctxs[fd].events
    ensures FilledInv(ctxs[fd := WithContext(ctxs[fd].(events := events), d, r)])
  {
  }

  lemma MirrorUpdate(ctxs: seq<Ctx>, table: map<nat, Mask>, fd: nat, c: Ctx, op: Op)
    requires MirrorInv(ctxs, table) && fd < |ctxs|
    requires op == if ctxs[fd].events == {} then ADD else OpFor(c.events)
    requires op == ADD ==> c.events != {}
    ensures LegalOp(table, op, fd)
    ensures MirrorInv(ctxs[fd := c], Ctl(table, op, fd, c.events, false).value)
  {
  }

  lemma ContextAfter(ctxs: seq<Ctx>, fd: nat, d: Dir, events: Mask, r: Option<nat>, g: nat, e: Dir)
    requires fd < |ctxs| && g < |ctxs|
    ensures EventContext(ctxs[fd := WithContext(ctxs[fd].(events := events), d, r)][g], e) ==
            if g == fd && e == d then r else EventContext(ctxs[g], e)
  {
  }

  lemma PlaceAdd(ctxs: seq<Ctx>, places: seq<Place>, fd: nat, d: Dir, events: Mask)
    requires PlaceInv(ctxs, places) && fd < |ctxs| && EventContext(ctxs[fd], d).None?
    ensures PlaceInv(ctxs[fd := WithContext(ctxs[fd].(events := events), d, Some(|places|))], places + [Live(fd, d)])
  {
    var places' := places + [Live(fd, d)];
    var ctxs' := ctxs[fd := WithContext(ctxs[fd].(events := events), d, Some(|places|))];
    forall g, e | 0 <= g < |ctxs| && EventContext(ctxs'[g], e).Some?
      ensures EventContext(ctxs'[g], e).value < |places'| && places'[EventContext(ctxs'[g], e).value] == Live(g, e)
    {
      ContextAfter(ctxs, fd, d, events, Some(|places|), g, e);
    }
    forall k | 0 <= k < |places'| && places'[k].Live?
      ensures places'[k].fd < |ctxs| && EventContext(ctxs'[places'[k].fd], places'[k].dir) == Some(k)
    {
      ContextAfter(ctxs, fd, d, events, Some(|places|), places'[k].fd, places'[k].dir);
    }
  }

  lemma PlaceMove(ctxs: seq<Ctx>, places: seq<Place>, fd: nat, d: Dir, events: Mask, p: Place)
    requires PlaceInv(ctxs, places) && fd < |ctxs| && EventContext(ctxs[fd], d).Some? && !p.Live?
    ensures PlaceInv(ctxs[fd := WithContext(ctxs[fd].(events := events), d, None)],
                     Moved(places, EventContext(ctxs[fd], d), p))
  {
    var places' := Moved(places, EventContext(ctxs[fd], d), p);
    var ctxs' := ctxs[fd := WithContext(ctxs[fd].(events := events), d, None)];
    forall g, e | 0 <= g < |ctxs| && EventContext(ctxs'[g], e).Some?
      ensures EventContext(ctxs'[g], e).value < |places'| && places'[EventContext(ctxs'[g], e).value] == Live(g, e)
    {
      ContextAfter(ctxs, fd, d, events, None, g, e);
    }
    forall k | 0 <= k < |places'| && places'[k].Live?
      ensures places'[k].fd < |ctxs| && EventContext(ctxs'[places'[k].fd], places'[k].dir) == Some(k)
    {
      ContextAfter(ctxs, fd, d, events, None, places'[k].fd, places'[k].dir);
    }
  }

  lemma ScheduledAppend(scheduled: seq<nat>, places: seq<Place>, p: Place)
    requires ScheduledInv(scheduled, places) && p.Live?
    ensures ScheduledInv(scheduled, places + [p])
  {
  }

  lemma ScheduledDropped(scheduled: seq<nat>, places: seq<Place>, k: nat)
    requires ScheduledInv(scheduled, places) && k < |places| && places[k].Live?
    ensures ScheduledInv(scheduled, places[k := Dropped])
  {
  }

  lemma ScheduledFired(scheduled: seq<nat>, places: seq<Place>, k: nat)
    requires ScheduledInv(scheduled, places) && k < |places| && places[k].Live?
    ensures ScheduledInv(scheduled + [k], places[k := Scheduled])
  {
  }

  lemma RegisterKeeps(io: Io, fd: nat, d: Dir)
    requires Core(io) && fd < |io.ctxs| && d !in io.ctxs[fd].events
    ensures Core(Register(io, fd, d))
  {
    var c := io.ctxs[fd];
    assert EventContext(c, d).None?;
    BitsUpdate(io.ctxs, fd, WithContext(c.(events := c.events + {d}), d, Some(|io.places|)));
    FilledUpdate(io.ctxs, fd, d, c.events + {d}, Some(|io.places|));
    PlaceAdd(io.ctxs, io.places, fd, d, c.events + {d});
    ScheduledAppend(io.scheduled, io.places, Live(fd, d));
  }

  lemma AddKeeps(io: Io, fd: nat, d: Dir, fails: bool)
    requires Inv(io) && fd < |io.ctxs|
    ensures Inv(AddEvent(io, fd, d, fails).0)
  {
    var c := io.ctxs[fd];
    if d !in c.events && !fails {
      var op := if c.events != {} then MOD else ADD;
      MirrorUpdate(io.ctxs, io.table, fd, WithContext(c.(events := c.events + {d}), d, Some(|io.places|)), op);
      RegisterKeeps(io.(table := Ctl(io.table, op, fd, c.events + {d}, false).value), fd, d);
    }
  }

  lemma DelKeeps(io: Io, fd: nat, d: Dir, fails: bool)
    requires Inv(io)
    ensures Inv(DelEvent(io, fd, d, fails).0)
  {
    if fd < |io.ctxs| && d in io.ctxs[fd].events {
      var c := io.ctxs[fd];
      assert EventContext(c, d).Some?;
      var left := c.events - {d};
      var c' := WithContext(c.(events := left), d, None);
      MirrorUpdate(io.ctxs, io.table, fd, c', OpFor(left));
      BitsUpdate(io.ctxs, fd, c');
      FilledUpdate(io.ctxs, fd, d, left, None);
      PlaceMove(io.ctxs, io.places, fd, d, left, Dropped);
      ScheduledDropped(io.scheduled, io.places, EventContext(c, d).value);
    }
  }

  // Firing one event: its registration, and no other, is scheduled.
  lemma FireKeeps(io: Io, fd: nat, d: Dir)
    requires Core(io) && fd < |io.ctxs| && d in io.ctxs[fd].events
    ensures var io', r := Fire(io, fd, d), EventContext(io.ctxs[fd], d);
            && Core(io') && io'.table == io.table
            && OthersSame(io.ctxs, io'.ctxs, fd) && io'.ctxs[fd].events == io.ctxs[fd].events - {d}
            && r.Some? && r.value < |io.places| && io.places[r.value] == Live(fd, d)
            && io'.scheduled == io.scheduled + [r.value] && io'.places == io.places[r.value := Scheduled]
  {
    var c := io.ctxs[fd];
    assert EventContext(c, d).Some?;
    var left := c.events - {d};
    BitsUpdate(io.ctxs, fd, WithContext(c.(events := left), d, None));
    FilledUpdate(io.ctxs, fd, d, left, None);
    PlaceMove(io.ctxs, io.places, fd, d, left, Scheduled);
    ScheduledFired(io.scheduled, io.places, EventContext(c, d).value);
  }

  lemma MaskInTurn(events: Mask, mask: Mask)
    ensures var events1 := if READ in mask then events - {READ} else events;
            (if WRITE in mask then events1 - {WRITE} else events1) == events - mask
  {
    var events1 := if READ in mask then events - {READ} else events;
    var events2 := if WRITE in mask then events1 - {WRITE} else events1;
    forall e: Dir ensures e in events2 <==> e in events - mask {
      match e
      case READ =>
      case WRITE =>
    }
  }

  // Two states with the same contexts but for one.
  predicate OthersSame(ctxs: seq<Ctx>, ctxs': seq<Ctx>, fd: nat) {
    |ctxs'| == |ctxs| && forall g | 0 <= g < |ctxs| && g != fd :: ctxs'[g] == ctxs[g]
  }

  lemma FireAllKeeps(io: Io, fd: nat, mask: Mask)
    requires Core(io) && fd < |io.ctxs| && mask <= io.ctxs[fd].events
    ensures var io' := FireAll(io, fd, mask);
            && Core(io') && io'.table == io.table && OthersSame(io.ctxs, io'.ctxs, fd)
            && io'.ctxs[fd].events == io.ctxs[fd].events - mask
  {
    MaskInTurn(io.ctxs[fd].events, mask);
    if READ in mask {
      FireKeeps(io, fd, READ);
      if WRITE in mask {
        FireKeeps(Fire(io, fd, READ), fd, WRITE);
      }
    } else if WRITE in mask {
      FireKeeps(io, fd, WRITE);
    }
  }

  // The kernel was told the mask that is left, so firing the rest restores the mirror.
  lemma FireAllMirrors(io: Io, fd: nat, mask: Mask, op: Op)
    requires Inv(io) && fd < |io.ctxs| && mask <= io.ctxs[fd].events && mask != {}
    requires op == OpFor(io.ctxs[fd].events - mask)
    ensures LegalOp(io.table, op, fd)
    ensures Inv(FireAll(io.(table := Ctl(io.table, op, fd, io.ctxs[fd].events - mask, false).value), fd, mask))
  {
    var left := io.ctxs[fd].events - mask;
    MirrorUpdate(io.ctxs, io.table, fd, io.ctxs[fd].(events := left), op);
    var io1 := io.(table := Ctl(io.table, op, fd, left, false).value);
    FireAllKeeps(io1, fd, mask);
  }

  lemma CancelKeeps(io: Io, fd: nat, d: Dir, fails: bool)
    requires Inv(io)
    ensures Inv(CancelEvent(io, fd, d, fails).0)
  {
    if fd < |io.ctxs| && d in io.ctxs[fd].events {
      FireAllMirrors(io, fd, {d}, OpFor(io.ctxs[fd].events - {d}));
    }
  }

  lemma CancelAllKeeps(io: Io, fd: nat, fails: bool)
    requires Inv(io)
    ensures Inv(CancelAll(io, fd, fails).0)
  {
    if fd < |io.ctxs| && io.ctxs[fd].events != {} {
      assert io.ctxs[fd].events - io.ctxs[fd].events == {};
      FireAllMirrors(io, fd, io.ctxs[fd].events, DEL);
    }
  }

  lemma DispatchKeeps(io: Io, fd: nat, report: Mask, errOrHup: bool, fails: bool)
    requires Inv(io) && fd < |io.ctxs|
    ensures var r := Dispatch(io, fd, report, errOrHup, fails); r.Some? ==> Inv(r.value)
  {
    var events := io.ctxs[fd].events;
    var fired := Real(report, errOrHup, events);
    if events * fired != {} && fired <= events {
      assert fired != {};
      FireAllMirrors(io, fd, fired, OpFor(events - fired));
    }
  }

  // ---- What the operations answer ------------------------------------------------------------

  // The ADD, MOD or DEL that the code chooses is always legal, so an operation fails only when the
  // kernel fails it; and when the kernel does, delEvent and cancelEvent say true and keep the event.
  lemma Answers(io: Io, fd: nat, d: Dir, fails: bool)
    requires Inv(io) && fd < |io.ctxs|
    ensures AddEvent(io, fd, d, fails).1 == if d in io.ctxs[fd].events || fails then -1 else 0
    ensures var io' := AddEvent(io, fd, d, fails).0;
            if d in io.ctxs[fd].events || fails then io' == io
            else d in io'.ctxs[fd].events && io'.places == io.places + [Live(fd, d)]
    ensures DelEvent(io, fd, d, fails).1 <==> d in io.ctxs[fd].events
    ensures CancelEvent(io, fd, d, fails).1 <==> d in io.ctxs[fd].events
    ensures CancelAll(io, fd, fails).1 <==> io.ctxs[fd].events != {}
    ensures d in io.ctxs[fd].events ==> (d in DelEvent(io, fd, d, fails).0.ctxs[fd].events <==> fails)
    ensures d in io.ctxs[fd].events ==> (d in CancelEvent(io, fd, d, fails).0.ctxs[fd].events <==> fails)
  {
    AddAnswer(io, fd, d, fails);
    if d in io.ctxs[fd].events {
      DelEventEmpties(io, fd, d);
      CancelEventEmpties(io, fd, d);
    }
  }

  lemma AddAnswer(io: Io, fd: nat, d: Dir, fails: bool)
    requires Inv(io) && fd < |io.ctxs|
    ensures AddEvent(io, fd, d, fails).1 == if d in io.ctxs[fd].events || fails then -1 else 0
  {
  }

  lemma CancelEventEmpties(io: Io, fd: nat, d: Dir)
    requires Inv(io) && fd < |io.ctxs| && d in io.ctxs[fd].events
    ensures var io' := CancelEvent(io, fd, d, false).0;
            |io'.ctxs| == |io.ctxs| && io'.ctxs[fd].events == io.ctxs[fd].events - {d}
  {
    var left := io.ctxs[fd].events - {d};
    FireAllMirrors(io, fd, {d}, OpFor(left));
    FireKeeps(io.(table := Ctl(io.table, OpFor(left), fd, left, false).value), fd, d);
  }

  lemma DelEventEmpties(io: Io, fd: nat, d: Dir)
    requires Inv(io) && fd < |io.ctxs| && d in io.ctxs[fd].events
    ensures var io' := DelEvent(io, fd, d, false).0;
            && |io'.ctxs| == |io.ctxs| && io'.ctxs[fd].events == io.ctxs[fd].events - {d}
            && io'.scheduled == io.scheduled
  {
    var c := io.ctxs[fd];
    MirrorUpdate(io.ctxs, io.table, fd, c.(events := c.events - {d}), OpFor(c.events - {d}));
  }

  // The registrations of the directions in a mask, READ's first.
  function Owners(c: Ctx, mask: Mask): seq<nat> {
    (if READ in mask && c.read.Some? then [c.read.value] else []) +
    (if WRITE in mask && c.write.Some? then [c.write.value] else [])
  }

  // A dispatch schedules exactly the registrations that fired and leaves every other one in place.
  lemma DispatchDelivers(io: Io, fd: nat, report: Mask, errOrHup: bool)
    requires Inv(io) && fd < |io.ctxs|
    requires var fired := Real(report, errOrHup, io.ctxs[fd].events); fired <= io.ctxs[fd].events && fired != {}
    ensures var fired, r := Real(report, errOrHup, io.ctxs[fd].events), Dispatch(io, fd, report, errOrHup, false);
            && r.Some? && |r.value.ctxs| == |io.ctxs|
            && r.value.scheduled == io.scheduled + Owners(io.ctxs[fd], fired)
            && r.value.ctxs[fd].events == io.ctxs[fd].events - fired
            && forall g | 0 <= g < |io.ctxs| && g != fd :: r.value.ctxs[g] == io.ctxs[g]
  {
    var fired := Real(report, errOrHup, io.ctxs[fd].events);
    assert io.ctxs[fd].events * fired == fired;
    var left := io.ctxs[fd].events - fired;
    FireAllMirrors(io, fd, fired, OpFor(left));
    var io1 := io.(table := Ctl(io.table, OpFor(left), fd, left, false).value);
    assert Dispatch(io, fd, report, errOrHup, false) == Some(FireAll(io1, fd, fired));
    assert Core(io1);
    FireAllKeeps(io1, fd, fired);
    FireAllSchedules(io1, fd, fired);
  }

  lemma FireAllSchedules(io: Io, fd: nat, mask: Mask)
    requires Core(io) && fd < |io.ctxs| && mask <= io.ctxs[fd].events
    ensures FireAll(io, fd, mask).scheduled == io.scheduled + Owners(io.ctxs[fd], mask)
  {
    var io1 := if READ in mask then Fire(io, fd, READ) else io;
    if READ in mask {
      FireKeeps(io, fd, READ);
    }
    if WRITE in mask {
      FireKeeps(io1, fd, WRITE);
    }
  }

  // The assertion of triggerEvent fails exactly when a report mixes a registered with an
  // unregistered direction and the kernel accepts the change.
  lemma DispatchAbortsIff(io: Io, fd: nat, report: Mask, errOrHup: bool, fails: bool)
    requires Inv(io) && fd < |io.ctxs|
    ensures var events := io.ctxs[fd].events;
            Dispatch(io, fd, report, errOrHup, fails).None? <==>
            !fails && events * (report + if errOrHup then events else {}) != {} && !(report <= events)
  {
    var events := io.ctxs[fd].events;
    var fired := Real(report, errOrHup, events);
    assert fired <= events <==> report <= events;
    if events * fired != {} {
      var left := events - fired;
      MirrorUpdate(io.ctxs, io.table, fd, io.ctxs[fd].(events := left), OpFor(left));
    }
  }

  // It can happen: the direction is deleted after epoll_wait reported both and before the fd is locked.
  lemma StaleReportAborts(io: Io, fd: nat)
    requires Inv(io) && fd < |io.ctxs| && io.ctxs[fd].events == {READ, WRITE}
    ensures Dispatch(DelEvent(io, fd, WRITE, false).0, fd, {READ, WRITE}, false, false).None?
  {
    DelKeeps(io, fd, WRITE, false);
    DelEventEmpties(io, fd, WRITE);
    assert READ in {READ, WRITE} - {WRITE};
    DispatchAbortsIff(DelEvent(io, fd, WRITE, false).0, fd, {READ, WRITE}, false, false);
  }

  // ---- Growing the table of contexts -----------------------------------------------------------

  lemma {:induction false} BitsOfEmpty(ctxs: seq<Ctx>, n: nat)
    requires n <= |ctxs| && forall fd | n <= fd < |ctxs| :: ctxs[fd].events == {}
    ensures Bits(ctxs) == Bits(ctxs[..n])
    decreases |ctxs|
  {
    if n < |ctxs| {
      BitsOfEmpty(ctxs[..|ctxs| - 1], n);
      assert ctxs[..|ctxs| - 1][..n] == ctxs[..n];
    } else {
      assert ctxs[..n] == ctxs;
    }
  }

  // A resize is harmless exactly when no context that it cuts off has an event.
  lemma ResizeKeepsIff(io: Io, n: nat)
    requires Inv(io)
    ensures Inv(Resize(io, n)) <==> forall fd | n <= fd < |io.ctxs| :: io.ctxs[fd].events == {}
  {
    var io' := Resize(io, n);
    if n <= |io.ctxs| {
      if forall fd | n <= fd < |io.ctxs| :: io.ctxs[fd].events == {} {
        BitsOfEmpty(io.ctxs, n);
        CutKeeps(io, n);
      } else {
        var fd :| n <= fd < |io.ctxs| && io.ctxs[fd].events != {};
        assert fd in io.table;
        assert !MirrorInv(io'.ctxs, io'.table);
      }
    } else {
      BitsOfEmpty(io'.ctxs, |io.ctxs|);
      assert io'.ctxs[..|io.ctxs|] == io.ctxs;
      GrowKeeps(io, n);
    }
  }

  lemma CutKeeps(io: Io, n: nat)
    requires Inv(io) && n <= |io.ctxs| && forall fd | n <= fd < |io.ctxs| :: io.ctxs[fd].events == {}
    ensures FilledInv(io.ctxs[..n]) && MirrorInv(io.ctxs[..n], io.table) && PlaceInv(io.ctxs[..n], io.places)
  {
    var ctxs := io.ctxs[..n];
    assert forall fd | 0 <= fd < n :: ctxs[fd] == io.ctxs[fd];
    forall k | 0 <= k < |io.places| && io.places[k].Live? ensures io.places[k].fd < n {
      var Live(fd, d) := io.places[k];
      assert EventContext(io.ctxs[fd], d) == Some(k);
      assert d in io.ctxs[fd].events;
    }
  }

  lemma GrowKeeps(io: Io, n: nat)
    requires Inv(io) && n >= |io.ctxs|
    ensures var ctxs := io.ctxs + Repeat(n - |io.ctxs|);
            FilledInv(ctxs) && MirrorInv(ctxs, io.table) && PlaceInv(ctxs, io.places)
  {
    var ctxs := io.ctxs + Repeat(n - |io.ctxs|);
    assert forall fd | 0 <= fd < n :: ctxs[fd] == if fd < |io.ctxs| then io.ctxs[fd] else EMPTY;
  }

  // addEvent's lookup: it resizes if the size it saw, before it took the write lock, was too small.
  function Lookup(io: Io, fd: nat, seen: nat): Io {
    if seen > fd then io else Resize(io, SizeFor(fd))
  }

  // A resize keeps the contexts below the new size and adds empty ones.
  lemma ResizeIs(io: Io, n: nat)
    ensures var io' := Resize(io, n);
            && io' == io.(ctxs := io'.ctxs) && |io'.ctxs| == n
            && forall fd | 0 <= fd < n :: io'.ctxs[fd] == if fd < |io.ctxs| then io.ctxs[fd] else EMPTY
  {
  }

  // The table never has fewer than 32 entries, so the lookup reaches its fd; but it may cut off the
  // contexts of a larger resize that came in between.
  lemma LookupReaches(io: Io, fd: nat, seen: nat)
    requires Inv(io) && 32 <= seen <= |io.ctxs|
    ensures fd < |Lookup(io, fd, seen).ctxs|
    ensures seen <= fd ==> |Lookup(io, fd, seen).ctxs| == fd * 3 / 2
    ensures Inv(Lookup(io, fd, seen)) <==>
            (seen > fd || forall g | SizeFor(fd) <= g < |io.ctxs| :: io.ctxs[g].events == {})
  {
    ResizeKeepsIff(io, SizeFor(fd));
  }

  // ---- Runs -----------------------------------------------------------------------------------

  datatype Step =
    | Find(fd: nat, seen: nat)
    | Add(fd: nat, d: Dir, fails: bool)
    | Del(fd: nat, d: Dir, fails: bool)
    | Cancel(fd: nat, d: Dir, fails: bool)
    | CancelBoth(fd: nat, fails: bool)
    | Ready(fd: nat, report: Mask, errOrHup: bool, fails: bool)

  // Premises: no larger resize between addEvent's two locks, and no report that would abort.
  ghost predicate Enabled(io: Io, t: Step) {
    match t
    case Find(fd, seen) => 32 <= seen <= |io.ctxs| && (seen > fd || |io.ctxs| <= SizeFor(fd))
    case Add(fd, _, _) => fd < |io.ctxs|
    case Ready(fd, report, errOrHup, _) =>
      fd < |io.ctxs| && (report <= io.ctxs[fd].events || (report * io.ctxs[fd].events == {} && !errOrHup))
    case _ => true
  }

  ghost function Next(io: Io, t: Step): Io
    requires Enabled(io, t)
  {
    match t
    case Find(fd, seen) => Lookup(io, fd, seen)
    case Add(fd, d, fails) => AddEvent(io, fd, d, fails).0
    case Del(fd, d, fails) => DelEvent(io, fd, d, fails).0
    case Cancel(fd, d, fails) => CancelEvent(io, fd, d, fails).0
    case CancelBoth(fd, fails) => CancelAll(io, fd, fails).0
    case Ready(fd, report, errOrHup, fails) =>
      var r := Dispatch(io, fd, report, errOrHup, fails);
      if r.Some? then r.value else io
  }

  lemma StepKeeps(io: Io, t: Step)
    requires Inv(io) && Enabled(io, t)
    ensures Inv(Next(io, t))
  {
    match t
    case Find(fd, seen) => LookupReaches(io, fd, seen);
    case Add(fd, d, fails) => AddKeeps(io, fd, d, fails);
    case Del(fd, d, fails) => DelKeeps(io, fd, d, fails);
    case Cancel(fd, d, fails) => CancelKeeps(io, fd, d, fails);
    case CancelBoth(fd, fails) => CancelAllKeeps(io, fd, fails);
    case Ready(fd, report, errOrHup, fails) => DispatchKeeps(io, fd, report, errOrHup, fails);
  }

  // Under the premise of a run, a dispatch does not abort.
  lemma ReadyDoesNotAbort(io: Io, fd: nat, report: Mask, errOrHup: bool, fails: bool)
    requires Inv(io) && Enabled(io, Ready(fd, report, errOrHup, fails))
    ensures Dispatch(io, fd, report, errOrHup, fails).Some?
  {
    DispatchAbortsIff(io, fd, report, errOrHup, fails);
  }

  ghost predicate Legal(io: Io, ts: seq<Step>)
    decreases |ts|
  {
    ts == [] || (Enabled(io, ts[0]) && Legal(Next(io, ts[0]), ts[1..]))
  }

  ghost function Run(io: Io, ts: seq<Step>): Io
    requires Legal(io, ts)
    decreases |ts|
  {
    if ts == [] then io else Run(Next(io, ts[0]), ts[1..])
  }

  // After the constructor: contextResize(32).
  function Start(): Io {
    Io(Repeat(32), 0, map[], [], [])
  }

  lemma StartHolds()
    ensures Inv(Start())
  {
    BitsOfEmpty(Start().ctxs, 0);
  }

  lemma {:induction false} RunKeeps(io: Io, ts: seq<Step>)
    requires Inv(io) && Legal(io, ts)
    ensures Inv(Run(io, ts))
    decreases |ts|
  {
    if ts != [] {
      StepKeeps(io, ts[0]);
      RunKeeps(Next(io, ts[0]), ts[1..]);
    }
  }

  lemma FirstFind(g: nat)
    requires 32 <= g
    ensures Enabled(Start(), Find(g, 32))
    ensures var io := Lookup(Start(), g, 32); Inv(io) && g < |io.ctxs| == SizeFor(g) && io.ctxs[g] == EMPTY
  {
    StartHolds();
    LookupReaches(Start(), g, 32);
    ResizeIs(Start(), SizeFor(g));
  }

  lemma FirstAdd(g: nat, d: Dir)
    requires 32 <= g
    ensures Legal(Start(), [Find(g, 32)] + ([Add(g, d, false)] + []))
    ensures var io := Run(Start(), [Find(g, 32)] + ([Add(g, d, false)] + []));
            Inv(io) && |io.ctxs| == SizeFor(g) && g < |io.ctxs| && io.ctxs[g].events == {d}
  {
    FirstFind(g);
    var io1 := Lookup(Start(), g, 32);
    AddKeeps(io1, g, d, false);
    ThenRun(io1, Add(g, d, false), []);
    ThenRun(Start(), Find(g, 32), [Add(g, d, false)] + []);
  }

  // The premise on addEvent's two locks is needed: two calls see the table at its first size, the one for
  // the larger fd g finishes, and the other one's resize then cuts g off, which the kernel still lists.
  lemma LateResizeCutsOff(f: nat, g: nat, d: Dir)
    requires 32 <= f && SizeFor(f) <= g
    ensures var ts := [Find(g, 32)] + ([Add(g, d, false)] + []);
            && Legal(Start(), ts)
            && var io, io' := Run(Start(), ts), Lookup(Run(Start(), ts), f, 32);
            && f < g < |io.ctxs| && d in io.ctxs[g].events
            && |io'.ctxs| <= g && g in io'.table && !Inv(io')
  {
    FirstAdd(g, d);
    LookupReaches(Run(Start(), [Find(g, 32)] + ([Add(g, d, false)] + [])), f, 32);
  }

  lemma ThenRun(io: Io, t: Step, ts: seq<Step>)
    requires Enabled(io, t) && Legal(Next(io, t), ts)
    ensures Legal(io, [t] + ts) && Run(io, [t] + ts) == Run(Next(io, t), ts)
  {
    assert ([t] + ts)[1..] == ts;
  }

  ghost predicate Registered(io: Io, k: nat) {
    exists fd, d :: 0 <= fd < |io.ctxs| && EventContext(io.ctxs[fd], d) == Some(k)
  }

  // In every run, the pending count is the number of set bits, a context is filled exactly when its
  // bit is set, the kernel lists exactly the non-zero masks, and each registration is still
  // registered, or was scheduled once, or was dropped by delEvent: one of the three.
  lemma EventsAreDeliveredOnce(ts: seq<Step>)
    requires Legal(Start(), ts)
    ensures var io := Run(Start(), ts);
            && io.pending == Bits(io.ctxs)
            && (forall fd, d | 0 <= fd < |io.ctxs| :: d in io.ctxs[fd].events <==> EventContext(io.ctxs[fd], d).Some?)
            && (forall fd: nat :: fd in io.table <==> fd < |io.ctxs| && io.ctxs[fd].events != {})
            && (forall fd | fd in io.table :: fd < |io.ctxs| && io.table[fd] == io.ctxs[fd].events)
            && (forall i, j | 0 <= i < j < |io.scheduled| :: io.scheduled[i] != io.scheduled[j])
            && forall k | 0 <= k < |io.places| ::
                 && (Registered(io, k) <==> io.places[k].Live?)
                 && (k in io.scheduled <==> io.places[k] == Scheduled)
  {
    StartHolds();
    RunKeeps(Start(), ts);
    var io := Run(Start(), ts);
    forall k | 0 <= k < |io.places| ensures Registered(io, k) <==> io.places[k].Live? {
      if io.places[k].Live? {
        assert EventContext(io.ctxs[io.places[k].fd], io.places[k].dir) == Some(k);
      }
    }
  }

  // Only delEvent drops a registration.
  lemma OnlyDelDrops(io: Io, t: Step, k: nat)
    requires Inv(io) && Enabled(io, t) && k < |io.places| && !t.Del?
    ensures k < |Next(io, t).places| && (Next(io, t).places[k] == Dropped <==> io.places[k] == Dropped)
  {
    match t
    case Find(_, _) =>
    case Add(_, _, _) =>
    case Del(_, _, _) =>
    case Cancel(fd, d, fails) => CancelDropsNone(io, fd, d, fails, k);
    case CancelBoth(fd, fails) => CancelAllDropsNone(io, fd, fails, k);
    case Ready(fd, report, errOrHup, fails) => DispatchDropsNone(io, fd, report, errOrHup, fails, k);
  }

  predicate StillDropped(io: Io, io': Io, k: nat) {
    k < |io.places| && k < |io'.places| && (io'.places[k] == Dropped <==> io.places[k] == Dropped)
  }

  lemma CancelDropsNone(io: Io, fd: nat, d: Dir, fails: bool, k: nat)
    requires Inv(io) && k < |io.places|
    ensures StillDropped(io, CancelEvent(io, fd, d, fails).0, k)
  {
    if fd < |io.ctxs| && d in io.ctxs[fd].events {
      OnlyFired(io, fd, {d}, OpFor(io.ctxs[fd].events - {d}), k);
    }
  }

  lemma CancelAllDropsNone(io: Io, fd: nat, fails: bool, k: nat)
    requires Inv(io) && k < |io.places|
    ensures StillDropped(io, CancelAll(io, fd, fails).0, k)
  {
    if fd < |io.ctxs| && io.ctxs[fd].events != {} {
      assert io.ctxs[fd].events - io.ctxs[fd].events == {};
      OnlyFired(io, fd, io.ctxs[fd].events, DEL, k);
    }
  }

  lemma DispatchDropsNone(io: Io, fd: nat, report: Mask, errOrHup: bool, fails: bool, k: nat)
    requires Inv(io) && fd < |io.ctxs| && k < |io.places|
    ensures var r := Dispatch(io, fd, report, errOrHup, fails); r.Some? ==> StillDropped(io, r.value, k)
  {
    var fired := Real(report, errOrHup, io.ctxs[fd].events);
    if io.ctxs[fd].events * fired != {} && fired <= io.ctxs[fd].events {
      OnlyFired(io, fd, fired, OpFor(io.ctxs[fd].events - fired), k);
    }
  }

  lemma OnlyFired(io: Io, fd: nat, mask: Mask, op: Op, k: nat)
    requires Inv(io) && fd < |io.ctxs| && mask <= io.ctxs[fd].events && mask != {} && k < |io.places|
    requires op == OpFor(io.ctxs[fd].events - mask)
    ensures LegalOp(io.table, op, fd)
    ensures var table := Ctl(io.table, op, fd, io.ctxs[fd].events - mask, false).value;
            StillDropped(io, FireAll(io.(table := table), fd, mask), k)
  {
    FireAllMirrors(io, fd, mask, op);
    FireAllDropsNone(io.(table := Ctl(io.table, op, fd, io.ctxs[fd].events - mask, false).value), fd, mask, k);
  }

  lemma FireAllDropsNone(io: Io, fd: nat, mask: Mask, k: nat)
    requires Core(io) && fd < |io.ctxs| && mask <= io.ctxs[fd].events && k < |io.places|
    ensures StillDropped(io, FireAll(io, fd, mask), k)
  {
    var io1 := if READ in mask then Fire(io, fd, READ) else io;
    if READ in mask {
      FireKeeps(io, fd, READ);
    }
    if WRITE in mask {
      FireKeeps(io1, fd, WRITE);
    }
  }
}
