/** Shared-stack multiplexing (co_resume, co_yield_env, co_swap, save_stack_buffer, co_free,
    co_reset in libco/co_routine.cpp): many coroutines run in one buffer, and each must find its
    own stack image when it is resumed. */
module SharedStack {

  newtype Byte = x: int | 0 <= x < 256

  class StackMem {
    var occupy_co: Co?
    const stack_buffer: array<Byte>

    constructor (buffer: array<Byte>)
      requires 16 <= buffer.Length
      ensures stack_buffer == buffer && occupy_co == null
    {
      stack_buffer, occupy_co := buffer, null;
    }

    // Where coctx_make puts its word: below the top, aligned down to 16. An image is what lies
    // between the stack pointer and this word.
    function Top(): int {
      stack_buffer.Length - 8 - (stack_buffer.Length - 8) % 16
    }
  }

  class Co {
    const stack_mem: StackMem
    const cIsMain: bool
    const cIsShareStack: bool
    var cStart: bool
    var cEnd: bool
    var stack_sp: nat                  // offset into the buffer
    var save_buffer: seq<Byte>         // meaningful when hasSave
    var hasSave: bool                  // save_buffer is not NULL
    ghost var image: seq<Byte>         // the private stack at the last switch-out

    constructor (mem: StackMem, isMain: bool, isShare: bool)
      ensures stack_mem == mem && cIsMain == isMain && cIsShareStack == isShare
      ensures !cStart && !cEnd && !hasSave
    {
      stack_mem, cIsMain, cIsShareStack := mem, isMain, isShare;
      cStart, cEnd, stack_sp, save_buffer, hasSave := false, false, 0, [], false;
    }

    // The buffer is this coroutine's own at the moment.
    predicate InMemory()
      reads this, stack_mem
    {
      !cIsShareStack || stack_mem.occupy_co == this
    }

    // A switched-out coroutine's image is in memory or in its save buffer.
    ghost predicate Safe()
      reads this, stack_mem, stack_mem.stack_buffer
    {
      var buffer, top := stack_mem.stack_buffer, stack_mem.Top();
      && stack_sp <= top <= buffer.Length
      && if InMemory() then buffer[stack_sp..top] == image
         else hasSave && |save_buffer| == buffer.Length - stack_sp && save_buffer[..top - stack_sp] == image
    }
  }

  // memcpy of the bytes above the stack pointer into a fresh block.
  method SaveStackBuffer(occupy: Co)
    requires occupy.stack_sp <= occupy.stack_mem.stack_buffer.Length
    modifies occupy`save_buffer, occupy`hasSave
    ensures occupy.hasSave && occupy.save_buffer == occupy.stack_mem.stack_buffer[occupy.stack_sp..]
  {
    occupy.save_buffer := occupy.stack_mem.stack_buffer[occupy.stack_sp..];
    occupy.hasSave := true;
  }

  // memcpy of the saved block back to the stack pointer.
  method CopyBack(co: Co)
    requires co.stack_sp + |co.save_buffer| <= co.stack_mem.stack_buffer.Length
    modifies co.stack_mem.stack_buffer
    ensures var buffer, sp, n := co.stack_mem.stack_buffer, co.stack_sp, |co.save_buffer|;
            buffer[..] == old(buffer[..])[..sp] + co.save_buffer + old(buffer[..])[sp + n..]
  {
    var buffer, sp := co.stack_mem.stack_buffer, co.stack_sp;
    forall i | 0 <= i < |co.save_buffer| {
      buffer[sp + i] := co.save_buffer[i];
    }
  }

  // coctx_make writes the entry address at the top of the buffer, whoever occupies it.
  method CoctxMake(co: Co, pfn: seq<Byte>)
    requires |pfn| == 8 && 16 <= co.stack_mem.stack_buffer.Length
    modifies co.stack_mem.stack_buffer
    ensures var buffer, top := co.stack_mem.stack_buffer, co.stack_mem.Top();
            && 0 <= top <= buffer.Length - 8
            && buffer[..top] == old(buffer[..top])
            && buffer[top..top + 8] == pfn
  {
    var buffer := co.stack_mem.stack_buffer;
    var sp := buffer.Length - 8;
    sp := sp - sp % 16;
    forall i | 0 <= i < 8 {
      buffer[sp + i] := pfn[i];
    }
  }

  // Memories are exclusive unless shared; an occupant lives in the memory it occupies.
  ghost predicate Layout(cos: set<Co>)
    reads cos, set c | c in cos :: c.stack_mem
  {
    (forall c | c in cos :: Occupied(c, cos)) && Separate(cos)
  }

  ghost predicate Separate(cos: set<Co>) {
    && (forall c | c in cos :: 16 <= c.stack_mem.stack_buffer.Length)
    && (forall c | c in cos && c.cIsMain :: !c.cIsShareStack)
    && forall c, d | c in cos && d in cos ::
         && (c != d && c.stack_mem == d.stack_mem ==> c.cIsShareStack && d.cIsShareStack)
         && (c.stack_mem != d.stack_mem ==> c.stack_mem.stack_buffer != d.stack_mem.stack_buffer)
  }

  ghost predicate Occupied(c: Co, cos: set<Co>)
    reads c.stack_mem, cos
  {
    var occ := c.stack_mem.occupy_co;
    occ != null ==> occ in cos && occ.stack_mem == c.stack_mem && occ.cIsShareStack && occ.cStart && !occ.cIsMain
  }

  // All switched-out coroutines are safe, the main one included.
  ghost predicate AllSafe(cos: set<Co>, running: Co)
    reads cos, set c | c in cos :: c.stack_mem, set c | c in cos :: c.stack_mem.stack_buffer
  {
    forall c | c in cos && c != running && (c.cStart || c.cIsMain) :: c.Safe()
  }

  ghost predicate SafeBut(cos: set<Co>, a: Co, b: Co)
    reads cos, set c | c in cos :: c.stack_mem, set c | c in cos :: c.stack_mem.stack_buffer
  {
    forall c | c in cos && c != a && c != b && (c.cStart || c.cIsMain) :: c.Safe()
  }

  // A memory that a new coroutine may use: shared by all that are in it, and occupied by one of them.
  ghost predicate MemoryFor(cos: set<Co>, mem: StackMem, isShare: bool)
    reads mem
  {
    && (forall c | c in cos ::
          if c.stack_mem == mem then isShare && c.cIsShareStack else c.stack_mem.stack_buffer != mem.stack_buffer)
    && (mem.occupy_co != null ==> mem.occupy_co in cos && mem.occupy_co.stack_mem == mem)
  }

  function Opt(c: Co?): (s: set<Co>) {
    if c == null then {} else {c}
  }

  class Env {
    var pCallStack: seq<Co>
    var pending_co: Co?
    var occupy_co: Co?
    var cos: set<Co>                   // the coroutines that exist

    ghost predicate Valid()
      reads this, cos, set c | c in cos :: c.stack_mem, set c | c in cos :: c.stack_mem.stack_buffer
    {
      && StackValid()
      && Layout(cos)
      && (Running().cIsShareStack ==> Running().stack_mem.occupy_co == Running())
      && AllSafe(cos, Running())
    }

    // The call stack holds started coroutines, the running one last; nobody has resumed itself.
    ghost predicate StackValid()
      reads this, cos
    {
      && 0 < |pCallStack| <= 128
      && (forall c | c in pCallStack :: c in cos && (c.cStart || c.cIsMain))
      && forall i, j | 0 <= i < |pCallStack| && j == i + 1 && j < |pCallStack| :: pCallStack[i] != pCallStack[j]
    }

    // co_init_curr_thread_env: the main coroutine runs, on a stack of its own.
    constructor (size: nat)
      requires 16 <= size
      ensures Valid() && Manned() && |pCallStack| == 1 && cos == {Running()} && Running().cIsMain && !Running().cStart
      ensures fresh(Running()) && fresh(Running().stack_mem) && fresh(Running().stack_mem.stack_buffer)
      ensures Running().stack_mem.stack_buffer.Length == size && !Running().cEnd && !Running().cIsShareStack
    {
      var buffer := new Byte[size];
      var mem := new StackMem(buffer);
      var self := new Co(mem, true, false);
      pCallStack, pending_co, occupy_co, cos := [self], null, null, {self};
    }

    // co_create_env with the memory it uses: one that co_get_stackmem has taken from a shared stack, or
    // one that no other coroutine has.
    method CoCreate(mem: StackMem, isShare: bool) returns (co: Co)
      requires Valid() && 16 <= mem.stack_buffer.Length && MemoryFor(cos, mem, isShare)
      modifies this`cos
      ensures Valid() && fresh(co) && co.stack_mem == mem && cos == old(cos) + {co}
      ensures !co.cStart && !co.cEnd && !co.cIsMain && co.cIsShareStack == isShare
      ensures old(Manned()) ==> Manned()
    {
      co := new Co(mem, false, isShare);
      cos := cos + {co};
    }

    // co_alloc_stackmem gives a memory of one's own.
    method CoCreatePrivate(size: nat) returns (co: Co)
      requires Valid() && 16 <= size
      modifies this`cos
      ensures Valid() && fresh(co) && fresh(co.stack_mem) && fresh(co.stack_mem.stack_buffer) && cos == old(cos) + {co}
      ensures !co.cStart && !co.cEnd && !co.cIsMain && !co.cIsShareStack && co.stack_mem.stack_buffer.Length == size
      ensures old(Manned()) ==> Manned()
    {
      var buffer := new Byte[size];
      var mem := new StackMem(buffer);
      co := CoCreate(mem, false);
    }

    function Running(): Co
      requires |pCallStack| > 0
      reads this
    {
      pCallStack[|pCallStack| - 1]
    }

    // The running coroutine computes: it may leave anything in its own buffer.
    method Compute(stack: seq<Byte>)
      requires Valid() && |stack| == Running().stack_mem.stack_buffer.Length
      modifies Running().stack_mem.stack_buffer
      ensures Valid() && Running().stack_mem.stack_buffer[..] == stack
    {
      var buffer := Running().stack_mem.stack_buffer;
      forall i | 0 <= i < |stack| {
        buffer[i] := stack[i];
      }
    }

    method RecordSp(curr: Co, pending: Co, sp: nat)
      requires Layout(cos) && curr in cos && pending in cos && curr != pending
      requires curr.cIsShareStack ==> curr.stack_mem.occupy_co == curr
      requires sp <= curr.stack_mem.Top() && SafeBut(cos, curr, pending)
      modifies curr`stack_sp, curr`image
      ensures Layout(cos) && AllSafe(cos, pending)
      ensures curr.stack_sp == sp && curr.image == curr.stack_mem.stack_buffer[sp..curr.stack_mem.Top()]
    {
      curr.stack_sp := sp;
      curr.image := curr.stack_mem.stack_buffer[sp..curr.stack_mem.Top()];
    }

    // pending takes over its shared buffer; the previous occupant's bytes go to its save buffer.
    method Occupy(pending: Co)
      requires Layout(cos) && pending in cos && pending.cIsShareStack && AllSafe(cos, pending)
      requires pending.cStart && !pending.cIsMain
      modifies pending.stack_mem`occupy_co
      modifies Opt(pending.stack_mem.occupy_co)`save_buffer, Opt(pending.stack_mem.occupy_co)`hasSave
      ensures Layout(cos) && AllSafe(cos, pending) && pending.stack_mem.occupy_co == pending
      ensures pending.save_buffer == old(pending.save_buffer) && pending.hasSave == old(pending.hasSave)
    {
      var occupy := pending.stack_mem.occupy_co;
      pending.stack_mem.occupy_co := pending;
      if occupy != null && occupy != pending {
        SaveStackBuffer(occupy);
      }
    }

    // co_swap up to coctx_swap: curr's stack pointer is recorded, and whoever occupies the shared
    // buffer that pending needs is copied out.
    method SwapOut(curr: Co, pending: Co, sp: nat)
      requires Layout(cos) && curr in cos && pending in cos && curr != pending
      requires curr.cIsShareStack ==> curr.stack_mem.occupy_co == curr
      requires sp <= curr.stack_mem.Top()
      requires SafeBut(cos, curr, pending) && (pending.cIsShareStack ==> pending.cStart && !pending.cIsMain)
      modifies this`pending_co, this`occupy_co, curr`stack_sp, curr`image, pending.stack_mem`occupy_co
      modifies Opt(pending.stack_mem.occupy_co)`save_buffer, Opt(pending.stack_mem.occupy_co)`hasSave
      ensures Layout(cos) && (pending.cIsShareStack ==> pending.stack_mem.occupy_co == pending)
      ensures AllSafe(cos, pending)
      ensures curr.stack_sp == sp && curr.image == old(curr.stack_mem.stack_buffer[sp..curr.stack_mem.Top()])
      ensures pending_co == (if pending.cIsShareStack then pending else null)
      ensures occupy_co == (if pending.cIsShareStack then old(pending.stack_mem.occupy_co) else null)
      ensures pending.save_buffer == old(pending.save_buffer) && pending.hasSave == old(pending.hasSave)
    {
      RecordSp(curr, pending, sp);
      if !pending.cIsShareStack {
        pending_co, occupy_co := null, null;
      } else {
        pending_co := pending;
        occupy_co := pending.stack_mem.occupy_co;
        Occupy(pending);
      }
    }

    // co_swap after coctx_swap, run by the coroutine that has been resumed: its bytes are copied
    // back if somebody else occupied its buffer.
    method SwapIn()
      requires Valid() && (pending_co != null ==> pending_co == Running() && pending_co.cIsShareStack)
      requires pending_co != null && pending_co.hasSave && occupy_co != null && occupy_co != pending_co ==>
                 pending_co.stack_sp + |pending_co.save_buffer| == pending_co.stack_mem.stack_buffer.Length
      modifies Running().stack_mem.stack_buffer
      ensures Valid()
      ensures var buffer := Running().stack_mem.stack_buffer;
              buffer[..] == if Restores() then old(buffer[..Running().stack_sp]) + Running().save_buffer
                            else old(buffer[..])
    {
      var update_occupy_co, update_pending_co := occupy_co, pending_co;
      if update_occupy_co != null && update_pending_co != null && update_occupy_co != update_pending_co {
        if update_pending_co.hasSave && |update_pending_co.save_buffer| > 0 {
          CopyBack(update_pending_co);
        }
      }
    }

    // The guard of lines 671-674.
    predicate Restores()
      reads this, Opt(pending_co)
    {
      occupy_co != null && pending_co != null && occupy_co != pending_co && pending_co.hasSave
      && |pending_co.save_buffer| > 0
    }

    // Every started coroutine's shared buffer has an occupant.
    ghost predicate Manned()
      reads this, cos, set c | c in cos :: c.stack_mem
    {
      forall c | c in cos && c.cStart && c.cIsShareStack :: c.stack_mem.occupy_co != null
    }

    // A resumed coroutine finds its image above its stack pointer if and only if it did not share the
    // buffer, somebody occupied it, or the bytes left there happened to be the image.
    twostate predicate Found(co: Co)
      reads this, co, co.stack_mem.stack_buffer
    {
      var buffer, sp, top := co.stack_mem.stack_buffer, co.stack_sp, co.stack_mem.Top();
      && sp == old(co.stack_sp) && co.image == old(co.image) && sp <= top <= buffer.Length
      && (buffer[sp..top] == co.image <==>
            !co.cIsShareStack || old(co.stack_mem.occupy_co) != null || old(buffer[sp..top]) == co.image)
    }

    // A coroutine gets control back and finds its image; if it shares its buffer it occupies it.
    twostate predicate Refound(co: Co)
      reads co, co.stack_mem, co.stack_mem.stack_buffer
    {
      var buffer, sp, top := co.stack_mem.stack_buffer, co.stack_sp, co.stack_mem.Top();
      && sp <= top <= buffer.Length && buffer[sp..top] == co.image == old(co.image)
      && co.stack_mem.occupy_co == if co.cIsShareStack then co else old(co.stack_mem.occupy_co)
    }

    // co_swap between two coroutines that have both run before; the call stack already ends in next.
    method CoSwap(curr: Co, next: Co, sp: nat)
      requires StackValid() && next == Running() && curr in cos && curr != next
      requires Layout(cos) && AllSafe(cos, curr) && (next.cStart || next.cIsMain)
      requires curr.cIsShareStack ==> curr.stack_mem.occupy_co == curr
      requires sp <= curr.stack_mem.Top()
      modifies this`pending_co, this`occupy_co, curr`stack_sp, curr`image, next.stack_mem`occupy_co
      modifies next.stack_mem.stack_buffer
      modifies Opt(next.stack_mem.occupy_co)`save_buffer, Opt(next.stack_mem.occupy_co)`hasSave
      ensures Valid() && Found(next)
      ensures curr.stack_sp == sp && curr.image == old(curr.stack_mem.stack_buffer[sp..curr.stack_mem.Top()])
    {
      SwapOut(curr, next, sp);
      BackIn(next, next.stack_mem.stack_buffer);
    }

    // What co_swap has noted about the coroutine it switches to: its image is in the buffer if nobody
    // else occupied it, and in the save buffer otherwise.
    ghost predicate Awaited(next: Co)
      reads this, next, next.stack_mem.stack_buffer
    {
      var buffer, sp, top := next.stack_mem.stack_buffer, next.stack_sp, next.stack_mem.Top();
      && sp <= top <= buffer.Length && pending_co == (if next.cIsShareStack then next else null)
      && if !next.cIsShareStack || occupy_co == next then buffer[sp..top] == next.image
         else next.hasSave && |next.save_buffer| == buffer.Length - sp && next.save_buffer[..top - sp] == next.image
    }

    // The second half of co_swap, in a coroutine that was switched out before.
    method BackIn(next: Co, buffer: array<Byte>)
      requires Valid() && next == Running() && next.stack_mem.stack_buffer == buffer
      requires Awaited(next)
      modifies buffer
      ensures Valid()
      ensures var sp, top := next.stack_sp, next.stack_mem.Top();
              && sp <= top <= buffer.Length
              && (buffer[sp..top] == next.image <==>
                    !next.cIsShareStack || occupy_co != null || old(buffer[sp..top]) == next.image)
    {
      ghost var sp, top := next.stack_sp, next.stack_mem.Top();
      SwapIn();
      assert buffer[sp..top] == buffer[..][sp..top];
      assert old(buffer[sp..top]) == old(buffer[..])[sp..top];
    }

    method CoYieldEnv(sp: nat)
      requires Valid() && |pCallStack| >= 2 && sp <= Running().stack_mem.Top()
      modifies this`pCallStack, this`pending_co, this`occupy_co, Running()`stack_sp, Running()`image
      modifies pCallStack[|pCallStack| - 2].stack_mem`occupy_co
      modifies pCallStack[|pCallStack| - 2].stack_mem.stack_buffer
      modifies Opt(pCallStack[|pCallStack| - 2].stack_mem.occupy_co)`save_buffer
      modifies Opt(pCallStack[|pCallStack| - 2].stack_mem.occupy_co)`hasSave
      ensures Valid() && pCallStack == old(pCallStack)[..|old(pCallStack)| - 1]
      ensures Found(Running())
      ensures var curr := old(Running());
              curr.stack_sp == sp && curr.image == old(curr.stack_mem.stack_buffer[sp..curr.stack_mem.Top()])
    {
      var last, curr := pCallStack[|pCallStack| - 2], pCallStack[|pCallStack| - 1];
      pCallStack := pCallStack[..|pCallStack| - 1];
      CoSwap(curr, last, sp);
    }

    method YieldKeepsManned(sp: nat)
      requires Valid() && Manned() && |pCallStack| >= 2 && sp <= Running().stack_mem.Top()
      modifies this`pCallStack, this`pending_co, this`occupy_co, Running()`stack_sp, Running()`image
      modifies pCallStack[|pCallStack| - 2].stack_mem`occupy_co
      modifies pCallStack[|pCallStack| - 2].stack_mem.stack_buffer
      modifies Opt(pCallStack[|pCallStack| - 2].stack_mem.occupy_co)`save_buffer
      modifies Opt(pCallStack[|pCallStack| - 2].stack_mem.occupy_co)`hasSave
      ensures Valid() && Manned() && pCallStack == old(pCallStack)[..|old(pCallStack)| - 1]
      ensures Running() == old(pCallStack[|pCallStack| - 2]) && Refound(Running())
      ensures var curr := old(Running());
              curr.stack_sp == sp && curr.image == old(curr.stack_mem.stack_buffer[sp..curr.stack_mem.Top()])
    {
      CoYieldEnv(sp);
    }

    method CoResume(co: Co, sp: nat, pfn: seq<Byte>)
      requires Valid() && co in cos && !co.cIsMain && co != Running() && |pCallStack| < 128
      requires sp <= Running().stack_mem.Top() && |pfn| == 8
      modifies this`pCallStack, this`pending_co, this`occupy_co, Running()`stack_sp, Running()`image
      modifies co`cStart, co.stack_mem`occupy_co, co.stack_mem.stack_buffer
      modifies Opt(co.stack_mem.occupy_co)`save_buffer, Opt(co.stack_mem.occupy_co)`hasSave
      ensures Valid() && pCallStack == old(pCallStack) + [co] && co.cStart
      ensures old(co.cStart) ==> Found(co)
      ensures var curr := old(Running());
              curr.stack_sp == sp && curr.image == old(curr.stack_mem.stack_buffer[sp..curr.stack_mem.Top()])
      ensures co.cIsShareStack ==> co.stack_mem.occupy_co == co
    {
      var lpCurrRoutine := Running();
      if co.cStart {
        pCallStack := pCallStack + [co];
        CoSwap(lpCurrRoutine, co, sp);
      } else {
        StartCo(co, pfn);
        pCallStack := pCallStack + [co];
        SwapOut(lpCurrRoutine, co, sp);
      }
    }

    // If every started coroutine's buffer is occupied, that stays so.
    method ResumeKeepsManned(co: Co, sp: nat, pfn: seq<Byte>)
      requires Valid() && Manned() && co in cos && !co.cIsMain && co != Running() && |pCallStack| < 128
      requires sp <= Running().stack_mem.Top() && |pfn| == 8
      modifies this`pCallStack, this`pending_co, this`occupy_co, Running()`stack_sp, Running()`image
      modifies co`cStart, co.stack_mem`occupy_co, co.stack_mem.stack_buffer
      modifies Opt(co.stack_mem.occupy_co)`save_buffer, Opt(co.stack_mem.occupy_co)`hasSave
      ensures Valid() && Manned() && pCallStack == old(pCallStack) + [co] && co.cStart
      ensures old(co.cStart) ==> Found(co)
      ensures var curr := old(Running());
              curr.stack_sp == sp && curr.image == old(curr.stack_mem.stack_buffer[sp..curr.stack_mem.Top()])
    {
      CoResume(co, sp, pfn);
    }

    // Lines 562-566 for a coroutine that has not run yet.
    method StartCo(co: Co, pfn: seq<Byte>)
      requires |pCallStack| > 0 && |pfn| == 8
      requires Layout(cos) && co in cos && !co.cStart && !co.cIsMain && AllSafe(cos, Running()) && co != Running()
      modifies co`cStart, co.stack_mem.stack_buffer
      ensures Layout(cos) && SafeBut(cos, Running(), co) && co.cStart
      ensures co.stack_mem.stack_buffer[..co.stack_mem.Top()] == old(co.stack_mem.stack_buffer[..co.stack_mem.Top()])
    {
      CoctxMake(co, pfn);
      co.cStart := true;
    }

    // A coroutine returns from its function: it is marked and yields for good.
    method FinishRunning()
      requires Valid()
      modifies Running()`cEnd
      ensures Valid() && Running().cEnd
    {
      Running().cEnd := true;
    }

    // Nobody else that has started lives in co's buffer.
    predicate Alone(co: Co)
      reads this, cos
    {
      forall c | c in cos && c != co && c.stack_mem == co.stack_mem :: !c.cStart
    }

    method CoFree(co: Co)
      requires Valid() && co in cos && co !in pCallStack && !co.cIsMain
      modifies this`cos, co.stack_mem`occupy_co
      ensures Valid() && cos == old(cos) - {co}
      ensures co.stack_mem.occupy_co == if old(co.stack_mem.occupy_co) == co then null else old(co.stack_mem.occupy_co)
      ensures old(Manned()) && (old(co.InMemory()) ==> old(Alone(co))) ==> Manned()
    {
      if co.cIsShareStack && co.stack_mem.occupy_co == co {
        co.stack_mem.occupy_co := null;
      }
      cos := cos - {co};
    }

    method CoReset(co: Co)
      requires Valid() && co in cos && co !in pCallStack
      modifies co`cStart, co`cEnd, co`hasSave, co`save_buffer, co.stack_mem`occupy_co
      ensures Valid()
      ensures !old(co.cStart) || co.cIsMain ==> unchanged(co) && unchanged(co.stack_mem)
      ensures old(co.cStart) && !co.cIsMain ==> !co.cStart && !co.cEnd && !co.hasSave
      ensures old(co.cStart) && !co.cIsMain ==>
                co.stack_mem.occupy_co ==
                if old(co.stack_mem.occupy_co) == co then null else old(co.stack_mem.occupy_co)
      ensures old(Manned()) && (old(co.InMemory()) ==> old(Alone(co))) ==> Manned()
    {
      if !co.cStart || co.cIsMain {
        return;
      }
      Forget(co);
    }

    // The first lines of co_reset; if co occupies its buffer, that is still to be taken back.
    method Unstart(co: Co)
      requires Valid() && co in cos && co !in pCallStack && co.cStart && !co.cIsMain
      modifies co`cStart, co`cEnd, co`hasSave, co`save_buffer
      ensures StackValid() && AllSafe(cos, Running()) && !co.cStart && !co.cEnd && !co.hasSave
      ensures forall c | c in cos :: c.stack_mem.occupy_co == co || Occupied(c, cos)
    {
      co.cStart, co.cEnd := false, false;
      if co.hasSave {
        co.hasSave, co.save_buffer := false, [];
      }
    }

    method Forget(co: Co)
      requires Valid() && co in cos && co !in pCallStack && co.cStart && !co.cIsMain
      modifies co`cStart, co`cEnd, co`hasSave, co`save_buffer, co.stack_mem`occupy_co
      ensures Valid() && !co.cStart && !co.cEnd && !co.hasSave
      ensures co.stack_mem.occupy_co == if old(co.stack_mem.occupy_co) == co then null else old(co.stack_mem.occupy_co)
      ensures old(Manned()) && (old(co.InMemory()) ==> old(Alone(co))) ==> Manned()
    {
      Unstart(co);
      if co.stack_mem.occupy_co == co {
        co.stack_mem.occupy_co := null;
      }
    }
  }

  // Whenever a started coroutine's shared buffer has lost its occupant and holds anything else, the
  // coroutine is resumed on bytes that are not its image.
  method UnmannedLosesImage(env: Env, a: Co, sp: nat, pfn: seq<Byte>)
    requires env.Valid() && a in env.cos && a.cStart && !a.cIsMain && a.cIsShareStack
    requires a != env.Running() && |env.pCallStack| < 128 && |pfn| == 8 && sp <= env.Running().stack_mem.Top()
    requires a.stack_mem.occupy_co == null
    requires a.stack_sp <= a.stack_mem.Top() && a.stack_mem.stack_buffer[a.stack_sp..a.stack_mem.Top()] != a.image
    modifies env, env.Running(), a, a.stack_mem, a.stack_mem.stack_buffer
    ensures env.Valid() && env.Running() == a
    ensures a.image == old(a.image) && a.stack_sp <= a.stack_mem.Top() <= a.stack_mem.stack_buffer.Length
    ensures a.stack_mem.stack_buffer[a.stack_sp..a.stack_mem.Top()] != a.image
  {
    env.CoResume(a, sp, pfn);
  }

  // That is the case when the occupant b is freed while a's bytes are saved.
  method FreedOccupantLosesImage(env: Env, a: Co, b: Co, sp: nat, pfn: seq<Byte>)
    requires env.Valid() && {a, b} <= env.cos && a != b && a.stack_mem == b.stack_mem
    requires a.cStart && !a.cIsMain && !b.cIsMain && a != env.Running() && b !in env.pCallStack
    requires a.stack_mem.occupy_co == b && |env.pCallStack| < 128 && |pfn| == 8
    requires sp <= env.Running().stack_mem.Top()
    requires a.stack_sp <= a.stack_mem.Top() && a.stack_mem.stack_buffer[a.stack_sp..a.stack_mem.Top()] != a.image
    modifies env, env.Running(), a, a.stack_mem, a.stack_mem.stack_buffer
    ensures env.Valid() && env.Running() == a
    ensures a.image == old(a.image) && a.stack_sp <= a.stack_mem.Top() <= a.stack_mem.stack_buffer.Length
    ensures a.stack_mem.stack_buffer[a.stack_sp..a.stack_mem.Top()] != a.image
  {
    env.CoFree(b);
    UnmannedLosesImage(env, a, sp, pfn);
  }
}
