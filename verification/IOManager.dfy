/** The objects of corlib/ioscheduler.cpp: FdContexts updated in place, each method one locked region
    proved to do what its function in IoEvents does. */
module IOManager {
  import opened IoEvents

  class FdContext {
    const fd: nat
    var events: Mask
    var read: Option<nat>    // an EventContext, by its registration
    var write: Option<nat>

    constructor (fd: nat)
      ensures this.fd == fd && Shown() == EMPTY
    {
      this.fd, events, read, write := fd, {}, None, None;
    }

    function Shown(): Ctx
      reads this
    {
      Ctx(events, read, write)
    }

    method SetContext(d: Dir, r: Option<nat>)
      modifies this`read, this`write
      ensures Shown() == WithContext(old(Shown()), d, r)
    {
      if d == READ {
        read := r;
      } else {
        write := r;
      }
    }

    // triggerEvent: the registration to schedule is the result.
    method TriggerEvent(d: Dir) returns (r: Option<nat>)
      requires d in events
      modifies this
      ensures r == EventContext(old(Shown()), d)
      ensures Shown() == WithContext(old(Shown()).(events := old(events) - {d}), d, None)
    {
      events := events - {d};
      r := if d == READ then read else write;
      SetContext(d, None);
    }
  }

  class IOManager {
    var fdContexts: seq<FdContext>
    var pendingEventCount: int
    var table: map<nat, Mask>      // the epoll instance
    var scheduled: seq<nat>        // what scheduleLock was given

    // The object is in the state io of the model.
    ghost predicate Shows(io: Io)
      reads this, fdContexts
    {
      && Contexts(fdContexts, io.ctxs)
      && pendingEventCount == io.pending && table == io.table && scheduled == io.scheduled
    }

    constructor ()
      ensures Shows(Start()) && |fdContexts| == 32 && pendingEventCount == 0
    {
      fdContexts, pendingEventCount, table, scheduled := [], 0, map[], [];
      new;
      ContextResize(32, Io([], 0, map[], [], []));
      assert Repeat(0) == [];
    }

    method ContextResize(size: nat, ghost io: Io)
      requires Shows(io)
      modifies this`fdContexts
      ensures Shows(Resize(io, size)) && |fdContexts| == size
      ensures forall fd | 0 <= fd < size ::
                if fd < |old(fdContexts)| then fdContexts[fd] == old(fdContexts)[fd]
                else fresh(fdContexts[fd]) && fdContexts[fd].Shown() == EMPTY
    {
      if size <= |fdContexts| {
        fdContexts := fdContexts[..size];
      } else {
        ghost var n := |fdContexts|;
        while |fdContexts| < size
          invariant n <= |fdContexts| <= size
          invariant Contexts(fdContexts, io.ctxs + Repeat(|fdContexts| - n))
          invariant fdContexts[..n] == old(fdContexts) && forall fd | n <= fd < |fdContexts| :: fresh(fdContexts[fd])
          invariant pendingEventCount == io.pending && table == io.table && scheduled == io.scheduled
        {
          var ctx := new FdContext(|fdContexts|);
          fdContexts := fdContexts + [ctx];
        }
      }
    }

    // The call of epoll_ctl; the result is its return code's being zero.
    method EpollCtl(op: Op, fd: nat, mask: Mask, fails: bool) returns (ok: bool)
      modifies this`table
      ensures ok <==> Ctl(old(table), op, fd, mask, fails).Some?
      ensures table == if ok then Ctl(old(table), op, fd, mask, fails).value else old(table)
    {
      var r := Ctl(table, op, fd, mask, fails);
      ok := r.Some?;
      if ok {
        table := r.value;
      }
    }

    // addEvent once it has its context; cb is the new registration.
    method AddEvent(fd: nat, d: Dir, cb: nat, fails: bool, ghost io: Io) returns (rt: int)
      requires Shows(io) && fd < |fdContexts| && cb == |io.places|
      modifies this`table, this`pendingEventCount, fdContexts[fd]
      ensures Shows(IoEvents.AddEvent(io, fd, d, fails).0) && rt == IoEvents.AddEvent(io, fd, d, fails).1
      ensures rt == 0 || rt == -1
      ensures rt == 0 ==>
                && d !in old(fdContexts[fd].events) && fdContexts[fd].events == old(fdContexts[fd].events) + {d}
                && EventContext(fdContexts[fd].Shown(), d) == Some(cb)
                && pendingEventCount == old(pendingEventCount) + 1 && fd in table && table[fd] == fdContexts[fd].events
      ensures rt != 0 ==> unchanged(this) && unchanged(fdContexts[fd])
    {
      var ctx := fdContexts[fd];
      if d in ctx.events {
        return -1;
      }
      var ok := EpollCtl(if ctx.events != {} then MOD else ADD, fd, ctx.events + {d}, fails);
      if !ok {
        return -1;
      }
      pendingEventCount := pendingEventCount + 1;
      ctx.events := ctx.events + {d};
      ctx.SetContext(d, Some(cb));
      rt := 0;
    }

    method DelEvent(fd: nat, d: Dir, fails: bool, ghost io: Io) returns (r: bool)
      requires Shows(io)
      modifies this`table, this`pendingEventCount, if fd < |fdContexts| then {fdContexts[fd]} else {}
      ensures Shows(IoEvents.DelEvent(io, fd, d, fails).0) && r == IoEvents.DelEvent(io, fd, d, fails).1
      ensures r <==> old(fd < |fdContexts| && d in fdContexts[fd].events)
      ensures !r || fails ==> unchanged(this) && (fd < |fdContexts| ==> unchanged(fdContexts[fd]))
    {
      if fd >= |fdContexts| {
        return false;
      }
      var ctx := fdContexts[fd];
      if d !in ctx.events {
        return false;
      }
      var left := ctx.events - {d};
      var ok := EpollCtl(OpFor(left), fd, left, fails);
      if !ok {
        return true;
      }
      pendingEventCount := pendingEventCount - 1;
      ctx.events := left;
      ctx.SetContext(d, None);
      r := true;
    }

    // triggerEvent on a context of this manager, with the count.
    method Fire(fd: nat, d: Dir, ghost io: Io)
      requires Shows(io) && fd < |fdContexts| && d in fdContexts[fd].events
      modifies this`pendingEventCount, this`scheduled, fdContexts[fd]
      ensures Shows(IoEvents.Fire(io, fd, d))
    {
      var r := fdContexts[fd].TriggerEvent(d);
      if r.Some? {
        scheduled := scheduled + [r.value];
      }
      pendingEventCount := pendingEventCount - 1;
    }

    method CancelEvent(fd: nat, d: Dir, fails: bool, ghost io: Io) returns (r: bool)
      requires Shows(io)
      modifies this`table, this`pendingEventCount, this`scheduled
      modifies if fd < |fdContexts| then {fdContexts[fd]} else {}
      ensures Shows(IoEvents.CancelEvent(io, fd, d, fails).0) && r == IoEvents.CancelEvent(io, fd, d, fails).1
      ensures r <==> old(fd < |fdContexts| && d in fdContexts[fd].events)
      ensures !r || fails ==> unchanged(this) && (fd < |fdContexts| ==> unchanged(fdContexts[fd]))
    {
      if fd >= |fdContexts| || d !in fdContexts[fd].events {
        return false;
      }
      var left := fdContexts[fd].events - {d};
      var ok := EpollCtl(OpFor(left), fd, left, fails);
      if !ok {
        return true;
      }
      Fire(fd, d, io.(table := table));
      r := true;
    }

    method CancelAll(fd: nat, fails: bool, ghost io: Io) returns (r: bool)
      requires Shows(io)
      modifies this`table, this`pendingEventCount, this`scheduled
      modifies if fd < |fdContexts| then {fdContexts[fd]} else {}
      ensures Shows(IoEvents.CancelAll(io, fd, fails).0) && r == IoEvents.CancelAll(io, fd, fails).1
      ensures r <==> old(fd < |fdContexts| && fdContexts[fd].events != {})
      ensures !r || fails ==> unchanged(this) && (fd < |fdContexts| ==> unchanged(fdContexts[fd]))
    {
      if fd >= |fdContexts| || fdContexts[fd].events == {} {
        return false;
      }
      var ok := EpollCtl(DEL, fd, {}, fails);
      if !ok {
        return true;
      }
      FireAll(fd, fdContexts[fd].events, io.(table := table));
      r := true;
    }

    method FireAll(fd: nat, mask: Mask, ghost io: Io)
      requires Shows(io) && fd < |fdContexts| && mask <= fdContexts[fd].events
      modifies this`pendingEventCount, this`scheduled, fdContexts[fd]
      ensures Shows(IoEvents.FireAll(io, fd, mask))
    {
      if READ in mask {
        Fire(fd, READ, io);
      }
      if WRITE in mask {
        Fire(fd, WRITE, if READ in mask then IoEvents.Fire(io, fd, READ) else io);
      }
    }

    // One round of the loop in idle(), when it does not abort.
    method Dispatch(fd: nat, report: Mask, errOrHup: bool, fails: bool, ghost io: Io)
      requires Shows(io) && fd < |fdContexts| && IoEvents.Dispatch(io, fd, report, errOrHup, fails).Some?
      modifies this`table, this`pendingEventCount, this`scheduled, fdContexts[fd]
      ensures Shows(IoEvents.Dispatch(io, fd, report, errOrHup, fails).value)
      ensures fails || (if errOrHup then old(fdContexts[fd].events) else report * old(fdContexts[fd].events)) == {} ==>
                unchanged(this) && unchanged(fdContexts[fd])
    {
      var events := fdContexts[fd].events;
      var fired := if errOrHup then report + events else report;
      if events * fired == {} {
        return;
      }
      var left := events - fired;
      var ok := EpollCtl(OpFor(left), fd, left, fails);
      if ok {
        FireAll(fd, fired, io.(table := table));
      }
    }
  }

  ghost predicate Contexts(fdContexts: seq<FdContext>, ctxs: seq<Ctx>)
    reads fdContexts
  {
    && |fdContexts| == |ctxs|
    && forall i | 0 <= i < |fdContexts| :: fdContexts[i].fd == i && fdContexts[i].Shown() == ctxs[i]
  }
}
