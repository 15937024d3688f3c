/** corlib/fiber.cpp: the fiber object and the thread-locals that say who runs. A swapcontext is the
    return of the method; where control goes is t_fiber. */
module Fiber {
  import opened TaskQueue
  import opened Workers

  // t_fiber, t_thread_fiber and t_scheduler_fiber of one thread, after GetThis() has set them.
  class ThreadLocals {
    var fiber: Fiber
    var threadFiber: Fiber
    var schedulerFiber: Fiber

    constructor (main: Fiber)
      ensures fiber == main && threadFiber == main && schedulerFiber == main
    {
      fiber, threadFiber, schedulerFiber := main, main, main;
    }
  }

  class Fiber {
    var state: FState
    var cb: Option<nat>
    const hasStack: bool
    const runInScheduler: bool

    // The main fiber of a thread: no stack of its own, and running.
    constructor Main()
      ensures state == RUNNING && !hasStack && cb.None?
    {
      state, cb, hasStack, runInScheduler := RUNNING, None, false, false;
    }

    constructor (cb: nat, runInScheduler: bool)
      ensures state == READY && hasStack && this.cb == Some(cb) && this.runInScheduler == runInScheduler
    {
      this.state, this.cb, this.hasStack, this.runInScheduler := READY, Some(cb), true, runInScheduler;
    }

    // The fiber that gets control when this one yields.
    function Home(th: ThreadLocals): Fiber
      reads th
    {
      if runInScheduler then th.schedulerFiber else th.threadFiber
    }

    method Resume(th: ThreadLocals)
      requires state == READY
      modifies this`state, th`fiber
      ensures state == RUNNING && th.fiber == this
    {
      state := RUNNING;
      th.fiber := this;
    }

    method Yield(th: ThreadLocals)
      requires state == RUNNING || state == TERM
      modifies this`state, th`fiber
      ensures state == if old(state) == TERM then TERM else READY
      ensures th.fiber == if runInScheduler then th.schedulerFiber else th.threadFiber
    {
      if state != TERM {
        state := READY;
      }
      th.fiber := Home(th);
    }

    // MainFunc after m_cb has returned.
    method MainFuncEnds(th: ThreadLocals)
      requires state == RUNNING
      modifies this`state, this`cb, th`fiber
      ensures state == TERM && cb.None?
      ensures th.fiber == if runInScheduler then th.schedulerFiber else th.threadFiber
    {
      cb := None;
      state := TERM;
      Yield(th);
    }

    method Reset(cb: nat)
      requires hasStack && state == TERM
      modifies this`state, this`cb
      ensures state == READY && this.cb == Some(cb)
    {
      this.state, this.cb := READY, Some(cb);
    }
  }

  // The steps of the pool between taking a fiber's lock and releasing it, when nothing comes between.
  ghost function Visited(s: Pool, t: nat, ends: bool): Pool
    requires Enabled(s, Event.Resume(t))
  {
    var s1 := Resumed(s, t);
    if s1.pcs[t].Inside? then Left(s1, t, if ends then TERM else READY) else s1
  }

  // A visit to a fiber by thread t of the pool leaves the fiber in the state that the pool's steps
  // give it, whether it yields, ends, or had ended before. The thread-local afterwards names the
  // resumer exactly if the resumer was the fiber's home.
  method Visit(th: ThreadLocals, f: Fiber, ends: bool, ghost s: Pool, ghost t: nat)
    requires f.state != RUNNING
    requires Enabled(s, Event.Resume(t)) && s.pcs[t].fiber in s.fibers && s.fibers[s.pcs[t].fiber] == f.state
    modifies f`state, f`cb, th`fiber
    ensures f.state == if old(f.state) == TERM || ends then TERM else READY
    ensures Visited(s, t, ends).fibers == s.fibers[s.pcs[t].fiber := f.state]
    ensures old(f.state) == TERM ==> th.fiber == old(th.fiber)
    ensures old(f.state) == READY ==> (th.fiber == old(th.fiber) <==> old(th.fiber) == old(f.Home(th)))
  {
    if f.state != TERM {
      f.Resume(th);
      if ends {
        f.MainFuncEnds(th);
      } else {
        f.Yield(th);
      }
    }
  }
}
