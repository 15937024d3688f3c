/** Whole runs of the shared-stack operations, against the reference in which every coroutine has a
    stack of its own, on which nobody else ever writes. */
module StackRuns {
  import opened SharedStack

  // ---- The reference ---------------------------------------------------------------------------

  // Coroutines are named by their number in a table, the main one by 0. Whoever gives up control says
  // which bytes it leaves above its stack pointer.
  datatype Op =
    | Resume(k: nat, left: seq<Byte>, pfn: seq<Byte>)
    | Yield(left: seq<Byte>)
    | Finish(left: seq<Byte>)        // its function returns
    | Compute(bytes: seq<Byte>)      // the running coroutine fills its whole buffer
    | Free(k: nat)
    | Reset(k: nat)

  // What stays as it is: the memory each coroutine lives in, by number, whether it shares it, and its size.
  datatype Plan = Plan(home: seq<nat>, shared: seq<bool>, size: seq<nat>)

  predicate PlanValid(plan: Plan) {
    && |plan.home| == |plan.shared| == |plan.size| > 0 && !plan.shared[0]
    && forall k | 0 <= k < |plan.size| :: 16 <= plan.size[k]
  }

  datatype Private = Private(
    calls: seq<nat>,                // the call stack, the running coroutine last
    live: set<nat>,                 // created and not freed
    started: set<nat>,
    ended: set<nat>,
    owner: map<nat, nat>,           // who was in a shared memory last
    stacks: map<nat, seq<Byte>>     // what each coroutine left on its own stack
  )

  predicate PrivateValid(plan: Plan, p: Private) {
    && PlanValid(plan) && p.calls != [] && (forall i | 0 <= i < |p.calls| :: p.calls[i] < |plan.home|)
    && forall k | k in p.live :: k < |plan.home|
  }

  // Where the buffer ends for a stack image.
  function TopOf(size: nat): int {
    size - 8 - (size - 8) % 16
  }

  function Runs(p: Private): nat
    requires p.calls != []
  {
    p.calls[|p.calls| - 1]
  }

  function StackOf(p: Private, k: nat): seq<Byte> {
    if k in p.stacks then p.stacks[k] else []
  }

  predicate Fits(plan: Plan, p: Private, left: seq<Byte>)
    requires PrivateValid(plan, p)
  {
    |left| <= TopOf(plan.size[Runs(p)])
  }

  // Its bytes are in its memory, and not in a save buffer.
  predicate InMemory(plan: Plan, p: Private, k: nat)
    requires PlanValid(plan) && k < |plan.home|
  {
    !plan.shared[k] || (plan.home[k] in p.owner && p.owner[plan.home[k]] == k)
  }

  predicate Alone(plan: Plan, p: Private, k: nat)
    requires PrivateValid(plan, p) && k < |plan.home|
  {
    forall j | j in p.live && j != k && plan.home[j] == plan.home[k] :: j !in p.started
  }

  // What callers must respect. A coroutine whose bytes are in its memory is freed or reset only when
  // no other started coroutine lives there.
  predicate Allowed(plan: Plan, p: Private, op: Op)
    requires PrivateValid(plan, p)
  {
    match op
    case Resume(k, left, pfn) =>
      0 < k && k in p.live && k != Runs(p) && |p.calls| < 128 && Fits(plan, p, left) && |pfn| == 8
    case Yield(left) => |p.calls| >= 2 && Fits(plan, p, left)
    case Finish(left) => |p.calls| >= 2 && Fits(plan, p, left)
    case Compute(bytes) => |bytes| == plan.size[Runs(p)]
    case Free(k) => 0 < k && k in p.live && k !in p.calls && (InMemory(plan, p, k) ==> Alone(plan, p, k))
    case Reset(k) => 0 < k && k in p.live && k !in p.calls && (InMemory(plan, p, k) ==> Alone(plan, p, k))
  }

  function Leave(p: Private, left: seq<Byte>): Private
    requires p.calls != []
  {
    p.(stacks := p.stacks[Runs(p) := left])
  }

  function Enter(plan: Plan, p: Private, k: nat): Private
    requires PlanValid(plan) && k < |plan.home|
  {
    if plan.shared[k] then p.(owner := p.owner[plan.home[k] := k]) else p
  }

  function Vacated(plan: Plan, p: Private, k: nat): map<nat, nat>
    requires PlanValid(plan) && k < |plan.home|
  {
    if plan.shared[k] && InMemory(plan, p, k) then p.owner - {plan.home[k]} else p.owner
  }

  function Back(plan: Plan, p: Private, left: seq<Byte>): Private
    requires PrivateValid(plan, p) && |p.calls| >= 2
  {
    var n := |p.calls|;
    Enter(plan, Leave(p, left).(calls := p.calls[..n - 1]), p.calls[n - 2])
  }

  function Next(plan: Plan, p: Private, op: Op): (r: Private)
    requires PrivateValid(plan, p) && Allowed(plan, p, op)
    ensures PrivateValid(plan, r)
  {
    match op
    case Resume(k, left, _) =>
      Enter(plan, Leave(p, left).(calls := p.calls + [k], started := p.started + {k}), k)
    case Yield(left) => Back(plan, p, left)
    case Finish(left) => Back(plan, p.(ended := p.ended + {Runs(p)}), left)
    case Compute(_) => p
    case Free(k) => p.(live := p.live - {k}, owner := Vacated(plan, p, k))
    case Reset(k) =>
      if k !in p.started then p
      else p.(started := p.started - {k}, ended := p.ended - {k}, owner := Vacated(plan, p, k))
  }

  // The bytes on the private stack of whoever gets control back by this operation.
  function Gained(plan: Plan, p: Private, op: Op): seq<seq<Byte>>
    requires PrivateValid(plan, p) && Allowed(plan, p, op)
  {
    match op
    case Resume(k, _, _) => if k in p.started then [StackOf(p, k)] else []
    case Yield(_) => [StackOf(p, p.calls[|p.calls| - 2])]
    case Finish(_) => [StackOf(p, p.calls[|p.calls| - 2])]
    case _ => []
  }

  predicate Legal(plan: Plan, p: Private, ops: seq<Op>)
    requires PrivateValid(plan, p)
    decreases |ops|
  {
    ops == [] || (Allowed(plan, p, ops[0]) && Legal(plan, Next(plan, p, ops[0]), ops[1..]))
  }

  function Run(plan: Plan, p: Private, ops: seq<Op>): (r: Private)
    requires PrivateValid(plan, p) && Legal(plan, p, ops)
    ensures PrivateValid(plan, r)
    decreases |ops|
  {
    if ops == [] then p else Run(plan, Next(plan, p, ops[0]), ops[1..])
  }

  function GainedIn(plan: Plan, p: Private, ops: seq<Op>): seq<seq<Byte>>
    requires PrivateValid(plan, p) && Legal(plan, p, ops)
    decreases |ops|
  {
    if ops == [] then [] else Gained(plan, p, ops[0]) + GainedIn(plan, Next(plan, p, ops[0]), ops[1..])
  }

  // ---- What the environment shows ----------------------------------------------------------------

  function Mems(table: seq<Co>): set<StackMem> {
    set c | c in table :: c.stack_mem
  }

  ghost predicate Housed(table: seq<Co>, plan: Plan) {
    && PlanValid(plan) && |table| == |plan.home|
    && (forall k | 0 <= k < |table| ::
          && table[k].cIsMain == (k == 0) && table[k].cIsShareStack == plan.shared[k]
          && table[k].stack_mem.stack_buffer.Length == plan.size[k])
    && forall j, k | 0 <= j < |table| && 0 <= k < |table| ::
         && (j != k ==> table[j] != table[k])
         && (plan.home[j] == plan.home[k] <==> table[j].stack_mem == table[k].stack_mem)
  }

  ghost predicate Exist(table: seq<Co>, cos: set<Co>, live: set<nat>) {
    && (forall k | k in live :: k < |table| && table[k] in cos)
    && forall c | c in cos :: exists k :: k in live && k < |table| && table[k] == c
  }

  ghost predicate Called(table: seq<Co>, pCallStack: seq<Co>, calls: seq<nat>) {
    && |pCallStack| == |calls|
    && forall i | 0 <= i < |calls| :: calls[i] < |table| && table[calls[i]] == pCallStack[i]
  }

  // Everything of the environment that the reference speaks about.
  datatype View = View(cos: set<Co>, calls: seq<Co>, starts: seq<bool>, ends: seq<bool>, images: seq<seq<Byte>>,
                       occupants: seq<Co?>)

  ghost function ViewOf(env: Env, table: seq<Co>): View
    reads env, table, Mems(table)
  {
    View(env.cos, env.pCallStack, Starts(table), Ends(table), Images(table), Occupants(table))
  }

  function Starts(table: seq<Co>): seq<bool>
    reads table
  {
    seq(|table|, i requires 0 <= i < |table| reads table => table[i].cStart)
  }

  function Ends(table: seq<Co>): seq<bool>
    reads table
  {
    seq(|table|, i requires 0 <= i < |table| reads table => table[i].cEnd)
  }

  ghost function Images(table: seq<Co>): seq<seq<Byte>>
    reads table
  {
    seq(|table|, i requires 0 <= i < |table| reads table => table[i].image)
  }

  ghost function Occupants(table: seq<Co>): seq<Co?>
    reads Mems(table)
  {
    seq(|table|, i requires 0 <= i < |table| reads Mems(table) => table[i].stack_mem.occupy_co)
  }

  lemma ViewIs(table: seq<Co>, starts: seq<bool>, ends: seq<bool>, images: seq<seq<Byte>>, occupants: seq<Co?>)
    requires |starts| == |ends| == |images| == |occupants| == |table|
    requires forall i | 0 <= i < |table| :: table[i].cStart == starts[i]
    requires forall i | 0 <= i < |table| :: table[i].cEnd == ends[i]
    requires forall i | 0 <= i < |table| :: table[i].image == images[i]
    requires forall i | 0 <= i < |table| :: table[i].stack_mem.occupy_co == occupants[i]
    ensures Starts(table) == starts && Ends(table) == ends && Images(table) == images && Occupants(table) == occupants
  {
  }

  ghost predicate Marked(starts: seq<bool>, ends: seq<bool>, p: Private) {
    && |starts| == |ends|
    && forall k | k in p.live && k < |starts| :: (starts[k] <==> k in p.started) && (ends[k] <==> k in p.ended)
  }

  ghost function OwnerOf(table: seq<Co>, p: Private, home: nat): Co? {
    if home in p.owner && p.owner[home] < |table| then table[p.owner[home]] else null
  }

  ghost predicate Owned(table: seq<Co>, occupants: seq<Co?>, plan: Plan, p: Private)
    requires |occupants| == |plan.home| == |plan.shared|
  {
    forall k | k in p.live && k < |occupants| && plan.shared[k] :: occupants[k] == OwnerOf(table, p, plan.home[k])
  }

  ghost predicate Kept(images: seq<seq<Byte>>, p: Private)
    requires p.calls != []
  {
    forall k | k in p.live && k < |images| && (k in p.started || k == 0) && k != Runs(p) ::
      k in p.stacks && images[k] == p.stacks[k]
  }

  ghost predicate Agrees(table: seq<Co>, v: View, plan: Plan, p: Private) {
    && Housed(table, plan) && PrivateValid(plan, p)
    && |v.starts| == |v.ends| == |v.images| == |v.occupants| == |table|
    && Exist(table, v.cos, p.live) && Called(table, v.calls, p.calls)
    && Marked(v.starts, v.ends, p) && Owned(table, v.occupants, plan, p) && Kept(v.images, p)
  }

  ghost predicate Good(env: Env)
    reads env, env.cos, set c | c in env.cos :: c.stack_mem, set c | c in env.cos :: c.stack_mem.stack_buffer
  {
    env.Valid() && env.Manned()
  }

  ghost predicate Shows(env: Env, table: seq<Co>, plan: Plan, p: Private)
    reads env, env.cos, set c | c in env.cos :: c.stack_mem, set c | c in env.cos :: c.stack_mem.stack_buffer
    reads table, Mems(table)
  {
    Good(env) && Agrees(table, ViewOf(env, table), plan, p)
  }

  // The running coroutine has put these bytes above the stack pointer at which it gives up control.
  method LeaveBytes(env: Env, left: seq<Byte>) returns (sp: nat)
    requires Good(env) && |left| <= env.Running().stack_mem.Top()
    modifies env.Running().stack_mem.stack_buffer
    ensures Good(env) && sp + |left| == env.Running().stack_mem.Top()
    ensures env.Running().stack_mem.stack_buffer[sp..env.Running().stack_mem.Top()] == left
  {
    var buffer, top := env.Running().stack_mem.stack_buffer, env.Running().stack_mem.Top();
    sp := top - |left|;
    ghost var bytes := buffer[..sp] + left + buffer[top..];
    env.Compute(buffer[..sp] + left + buffer[top..]);
    assert buffer[sp..top] == buffer[..][sp..top] == bytes[sp..top] == left;
  }

  // What a coroutine that has just got control finds above its stack pointer.
  method ReadStack(co: Co) returns (bytes: seq<Byte>)
    requires co.stack_sp <= co.stack_mem.Top() <= co.stack_mem.stack_buffer.Length
    ensures bytes == co.stack_mem.stack_buffer[co.stack_sp..co.stack_mem.Top()]
  {
    bytes := co.stack_mem.stack_buffer[co.stack_sp..co.stack_mem.Top()];
  }

  method DoResume(env: Env, co: Co, left: seq<Byte>, pfn: seq<Byte>) returns (found: seq<seq<Byte>>)
    requires Good(env) && co in env.cos && !co.cIsMain && co != env.Running() && |env.pCallStack| < 128
    requires |left| <= env.Running().stack_mem.Top() && |pfn| == 8
    modifies env`pCallStack, env`pending_co, env`occupy_co, env.Running()`stack_sp, env.Running()`image
    modifies env.Running().stack_mem.stack_buffer, co`cStart, co.stack_mem`occupy_co, co.stack_mem.stack_buffer
    modifies Opt(co.stack_mem.occupy_co)`save_buffer, Opt(co.stack_mem.occupy_co)`hasSave
    ensures Good(env) && env.pCallStack == old(env.pCallStack) + [co] && co.cStart
    ensures old(env.Running()).image == left
    ensures co.stack_mem.occupy_co == if co.cIsShareStack then co else old(co.stack_mem.occupy_co)
    ensures found == if old(co.cStart) then [old(co.image)] else []
  {
    var started := co.cStart;
    var sp := LeaveBytes(env, left);
    env.ResumeKeepsManned(co, sp, pfn);
    found := [];
    if started {
      var bytes := ReadStack(co);
      found := [bytes];
    }
  }

  method YieldFrom(env: Env, sp: nat, ghost next: Co) returns (found: seq<seq<Byte>>)
    requires Good(env) && |env.pCallStack| >= 2 && sp <= env.Running().stack_mem.Top()
    requires next == env.pCallStack[|env.pCallStack| - 2]
    modifies env`pCallStack, env`pending_co, env`occupy_co, env.Running()`stack_sp, env.Running()`image
    modifies next.stack_mem`occupy_co, next.stack_mem.stack_buffer
    modifies Opt(next.stack_mem.occupy_co)`save_buffer, Opt(next.stack_mem.occupy_co)`hasSave
    ensures Good(env) && env.pCallStack == old(env.pCallStack)[..|old(env.pCallStack)| - 1]
    ensures var curr := old(env.Running());
            curr.image == old(curr.stack_mem.stack_buffer[sp..curr.stack_mem.Top()])
    ensures found == [old(next.image)]
    ensures next.stack_mem.occupy_co == if next.cIsShareStack then next else old(next.stack_mem.occupy_co)
  {
    env.YieldKeepsManned(sp);
    var bytes := ReadStack(env.Running());
    found := [bytes];
  }

  method DoYield(env: Env, left: seq<Byte>, ghost next: Co) returns (found: seq<seq<Byte>>)
    requires Good(env) && |env.pCallStack| >= 2 && |left| <= env.Running().stack_mem.Top()
    requires next == env.pCallStack[|env.pCallStack| - 2]
    modifies env`pCallStack, env`pending_co, env`occupy_co, env.Running()`stack_sp, env.Running()`image
    modifies env.Running().stack_mem.stack_buffer, next.stack_mem`occupy_co, next.stack_mem.stack_buffer
    modifies Opt(next.stack_mem.occupy_co)`save_buffer, Opt(next.stack_mem.occupy_co)`hasSave
    ensures Good(env) && env.pCallStack == old(env.pCallStack)[..|old(env.pCallStack)| - 1]
    ensures old(env.Running()).image == left && found == [old(next.image)]
    ensures next.stack_mem.occupy_co == if next.cIsShareStack then next else old(next.stack_mem.occupy_co)
  {
    var sp := LeaveBytes(env, left);
    found := YieldFrom(env, sp, next);
  }

  // ---- One operation ------------------------------------------------------------------------------

  ghost function Parts(cos: set<Co>): set<object> {
    cos + (set c | c in cos :: c.stack_mem) + set c | c in cos :: c.stack_mem.stack_buffer
  }

  lemma FewerParts(cos: set<Co>, cos': set<Co>)
    requires cos' <= cos
    ensures Parts(cos') <= Parts(cos)
  {
  }

  ghost function Footprint(env: Env): set<object>
    reads env
  {
    {env} + Parts(env.cos)
  }

  lemma RunningIs(env: Env, table: seq<Co>, plan: Plan, p: Private)
    requires Shows(env, table, plan, p)
    ensures Runs(p) < |table| && table[Runs(p)] == env.Running()
    ensures env.Running().stack_mem.Top() == TopOf(plan.size[Runs(p)])
    ensures |p.calls| >= 2 ==> table[p.calls[|p.calls| - 2]] == env.pCallStack[|env.pCallStack| - 2]
  {
  }

  ghost predicate Distinct(table: seq<Co>) {
    forall j, k | 0 <= j < |table| && 0 <= k < |table| && j != k :: table[j] != table[k]
  }

  // The occupants after coroutine k has got control.
  ghost function Entered(table: seq<Co>, occupants: seq<Co?>, k: nat): (r: seq<Co?>)
    requires k < |table| == |occupants|
    ensures |r| == |table|
  {
    seq(|table|, j requires 0 <= j < |table| =>
      if table[k].cIsShareStack && table[j].stack_mem == table[k].stack_mem then table[k] else occupants[j])
  }

  lemma EnterOwned(table: seq<Co>, occupants: seq<Co?>, plan: Plan, p: Private, p1: Private, k: nat)
    requires Housed(table, plan) && |occupants| == |table| && k < |table|
    requires Owned(table, occupants, plan, p) && p1.live == p.live && p1.owner == p.owner
    ensures Owned(table, Entered(table, occupants, k), plan, Enter(plan, p1, k))
  {
  }

  lemma LeaveKept(images: seq<seq<Byte>>, p: Private, left: seq<Byte>, p1: Private, k: nat)
    requires p.calls != [] && Runs(p) < |images| && Kept(images, p) && p1.calls != [] && Runs(p1) == k
    requires p1.live <= p.live && p1.started <= p.started + {k} && p1.stacks == p.stacks[Runs(p) := left]
    ensures Kept(images[Runs(p) := left], p1)
  {
  }

  lemma ResumeAgrees(table: seq<Co>, v: View, plan: Plan, p: Private, k: nat, left: seq<Byte>, pfn: seq<Byte>)
    requires Agrees(table, v, plan, p) && Allowed(plan, p, Resume(k, left, pfn))
    ensures Agrees(table, v.(calls := v.calls + [table[k]], starts := v.starts[k := true],
                             images := v.images[Runs(p) := left], occupants := Entered(table, v.occupants, k)),
                   plan, Next(plan, p, Resume(k, left, pfn)))
    ensures (v.starts[k] ==> StackOf(p, k) == v.images[k]) && (v.starts[k] <==> k in p.started)
  {
    var p1 := Leave(p, left).(calls := p.calls + [k], started := p.started + {k});
    EnterOwned(table, v.occupants, plan, p, p1, k);
    LeaveKept(v.images, p, left, Enter(plan, p1, k), k);
  }

  method ResumeAt(env: Env, table: seq<Co>, k: nat, left: seq<Byte>, pfn: seq<Byte>, ghost r: nat)
    returns (found: seq<seq<Byte>>)
    requires Good(env) && Distinct(table) && k < |table| && r < |table| && table[r] == env.Running()
    requires table[k] in env.cos && !table[k].cIsMain && k != r && |env.pCallStack| < 128
    requires |left| <= env.Running().stack_mem.Top() && |pfn| == 8
    modifies env`pCallStack, env`pending_co, env`occupy_co, env.Running()`stack_sp, env.Running()`image
    modifies env.Running().stack_mem.stack_buffer, {table[k]}`cStart
    modifies table[k].stack_mem`occupy_co, table[k].stack_mem.stack_buffer
    modifies Opt(table[k].stack_mem.occupy_co)`save_buffer, Opt(table[k].stack_mem.occupy_co)`hasSave
    ensures Good(env)
    ensures var v := old(ViewOf(env, table));
            && ViewOf(env, table) ==
               v.(calls := v.calls + [table[k]], starts := v.starts[k := true], images := v.images[r := left],
                  occupants := Entered(table, v.occupants, k))
            && found == if v.starts[k] then [v.images[k]] else []
  {
    ghost var v := ViewOf(env, table);
    found := DoResume(env, table[k], left, pfn);
    forall j | 0 <= j < |table|
      ensures table[j].cStart == v.starts[k := true][j]
      ensures table[j].cEnd == v.ends[j]
      ensures table[j].image == v.images[r := left][j]
      ensures table[j].stack_mem.occupy_co == Entered(table, v.occupants, k)[j]
    {
    }
    ViewIs(table, v.starts[k := true], v.ends, v.images[r := left], Entered(table, v.occupants, k));
  }

  method PerformResume(env: Env, table: seq<Co>, k: nat, left: seq<Byte>, pfn: seq<Byte>,
                       ghost plan: Plan, ghost p: Private)
    returns (found: seq<seq<Byte>>)
    requires Shows(env, table, plan, p) && Allowed(plan, p, Resume(k, left, pfn))
    modifies Footprint(env)
    ensures Shows(env, table, plan, Next(plan, p, Resume(k, left, pfn)))
    ensures found == Gained(plan, p, Resume(k, left, pfn))
    ensures env.cos == old(env.cos) && env.pCallStack == old(env.pCallStack) + [table[k]]
  {
    RunningIs(env, table, plan, p);
    ResumeAgrees(table, ViewOf(env, table), plan, p, k, left, pfn);
    found := ResumeAt(env, table, k, left, pfn, Runs(p));
  }

  // The coroutine that gets control back is a started one, or the main one, and not the one that leaves.
  predicate Waits(v: View, p: Private) {
    var n := |p.calls|;
    n >= 2 && p.calls[n - 1] != p.calls[n - 2] && p.calls[n - 2] in p.live && p.calls[n - 2] < |v.starts| &&
    (v.starts[p.calls[n - 2]] || p.calls[n - 2] == 0)
  }

  lemma BackAgrees(table: seq<Co>, v: View, plan: Plan, p: Private, left: seq<Byte>)
    requires Agrees(table, v, plan, p) && Waits(v, p) && Allowed(plan, p, Yield(left))
    ensures var n := |p.calls|;
            && Agrees(table, v.(calls := v.calls[..n - 1], images := v.images[Runs(p) := left],
                                occupants := Entered(table, v.occupants, p.calls[n - 2])),
                      plan, Back(plan, p, left))
            && [v.images[p.calls[n - 2]]] == Gained(plan, p, Yield(left))
  {
    var n := |p.calls|;
    var p1 := Leave(p, left).(calls := p.calls[..n - 1]);
    EnterOwned(table, v.occupants, plan, p, p1, p.calls[n - 2]);
    LeaveKept(v.images, p, left, Enter(plan, p1, p.calls[n - 2]), p.calls[n - 2]);
  }

  method YieldAt(env: Env, table: seq<Co>, left: seq<Byte>, ghost r: nat, ghost n: nat)
    returns (found: seq<seq<Byte>>)
    requires Good(env) && Distinct(table) && |env.pCallStack| >= 2 && r < |table| && table[r] == env.Running()
    requires n < |table| && table[n] == env.pCallStack[|env.pCallStack| - 2]
    requires |left| <= env.Running().stack_mem.Top()
    modifies env`pCallStack, env`pending_co, env`occupy_co, env.Running()`stack_sp, env.Running()`image
    modifies env.Running().stack_mem.stack_buffer, table[n].stack_mem`occupy_co, table[n].stack_mem.stack_buffer
    modifies Opt(table[n].stack_mem.occupy_co)`save_buffer, Opt(table[n].stack_mem.occupy_co)`hasSave
    ensures Good(env)
    ensures var v := old(ViewOf(env, table));
            && ViewOf(env, table) ==
               v.(calls := v.calls[..|v.calls| - 1], images := v.images[r := left],
                  occupants := Entered(table, v.occupants, n))
            && found == [v.images[n]]
  {
    ghost var v := ViewOf(env, table);
    found := DoYield(env, left, table[n]);
    forall j | 0 <= j < |table|
      ensures table[j].cStart == v.starts[j]
      ensures table[j].cEnd == v.ends[j]
      ensures table[j].image == v.images[r := left][j]
      ensures table[j].stack_mem.occupy_co == Entered(table, v.occupants, n)[j]
    {
    }
    ViewIs(table, v.starts, v.ends, v.images[r := left], Entered(table, v.occupants, n));
  }

  lemma Below(env: Env)
    requires Good(env) && |env.pCallStack| >= 2
    ensures var n := |env.pCallStack|; var c := env.pCallStack[n - 2];
            c in env.cos && (c.cStart || c.cIsMain) && c != env.pCallStack[n - 1]
  {
    assert env.pCallStack[|env.pCallStack| - 2] in env.pCallStack;
  }

  lemma InTable(table: seq<Co>, v: View, plan: Plan, p: Private, k: nat)
    requires Agrees(table, v, plan, p) && k < |table| && table[k] in v.cos
    ensures k in p.live
  {
    var j :| j in p.live && j < |table| && table[j] == table[k];
    assert j == k;
  }

  lemma WaitsIn(table: seq<Co>, v: View, plan: Plan, p: Private)
    requires Agrees(table, v, plan, p) && |p.calls| >= 2
    requires var k := p.calls[|p.calls| - 2];
             && table[k] in v.cos && table[k] != table[p.calls[|p.calls| - 1]]
             && (v.starts[k] || table[k].cIsMain)
    ensures Waits(v, p)
  {
    InTable(table, v, plan, p, p.calls[|p.calls| - 2]);
  }

  lemma SomebodyWaits(env: Env, table: seq<Co>, plan: Plan, p: Private, left: seq<Byte>)
    requires Shows(env, table, plan, p) && Allowed(plan, p, Yield(left))
    ensures Waits(ViewOf(env, table), p)
  {
    YieldIndices(env, table, plan, p, left);
    Below(env);
    WaitsIn(table, ViewOf(env, table), plan, p);
  }

  method PerformYield(env: Env, table: seq<Co>, left: seq<Byte>, ghost plan: Plan, ghost p: Private)
    returns (found: seq<seq<Byte>>)
    requires Shows(env, table, plan, p) && Allowed(plan, p, Yield(left))
    modifies Footprint(env)
    ensures Shows(env, table, plan, Back(plan, p, left)) && found == Gained(plan, p, Yield(left))
    ensures env.cos == old(env.cos) && env.pCallStack == old(env.pCallStack)[..|old(env.pCallStack)| - 1]
  {
    ghost var v := ViewOf(env, table);
    YieldReady(env, table, plan, p, left);
    found := YieldAt(env, table, left, Runs(p), p.calls[|p.calls| - 2]);
  }

  lemma YieldReady(env: Env, table: seq<Co>, plan: Plan, p: Private, left: seq<Byte>)
    requires Shows(env, table, plan, p) && Allowed(plan, p, Yield(left))
    ensures var n, v := |p.calls|, ViewOf(env, table);
            && Distinct(table) && n == |env.pCallStack| && |left| <= env.Running().stack_mem.Top()
            && Runs(p) < |table| && table[Runs(p)] == env.Running()
            && p.calls[n - 2] < |table| && table[p.calls[n - 2]] == env.pCallStack[n - 2]
            && [v.images[p.calls[n - 2]]] == Gained(plan, p, Yield(left))
            && Agrees(table, v.(calls := v.calls[..|v.calls| - 1], images := v.images[Runs(p) := left],
                                occupants := Entered(table, v.occupants, p.calls[n - 2])),
                      plan, Back(plan, p, left))
  {
    YieldIndices(env, table, plan, p, left);
    SomebodyWaits(env, table, plan, p, left);
    BackAgrees(table, ViewOf(env, table), plan, p, left);
  }

  lemma YieldIndices(env: Env, table: seq<Co>, plan: Plan, p: Private, left: seq<Byte>)
    requires Shows(env, table, plan, p) && Allowed(plan, p, Yield(left))
    ensures var n := |p.calls|;
            && Distinct(table) && n == |env.pCallStack| && |left| <= env.Running().stack_mem.Top()
            && Runs(p) < |table| && table[Runs(p)] == env.Running()
            && p.calls[n - 2] < |table| && table[p.calls[n - 2]] == env.pCallStack[n - 2]
  {
    RunningIs(env, table, plan, p);
  }

  // cEnd = 1 when the function has returned.
  method MarkAt(env: Env, table: seq<Co>, ghost r: nat)
    requires Good(env) && Distinct(table) && r < |table| && table[r] == env.Running()
    modifies env.Running()`cEnd
    ensures Good(env)
    ensures var v := old(ViewOf(env, table)); ViewOf(env, table) == v.(ends := v.ends[r := true])
  {
    ghost var v := ViewOf(env, table);
    env.FinishRunning();
    ViewIs(table, v.starts, v.ends[r := true], v.images, v.occupants);
  }

  lemma EndAgrees(table: seq<Co>, v: View, plan: Plan, p: Private)
    requires Agrees(table, v, plan, p) && Runs(p) < |table|
    ensures Agrees(table, v.(ends := v.ends[Runs(p) := true]), plan, p.(ended := p.ended + {Runs(p)}))
  {
  }

  method EndAt(env: Env, table: seq<Co>, ghost plan: Plan, ghost p: Private)
    requires Shows(env, table, plan, p)
    modifies env.Running()`cEnd
    ensures Shows(env, table, plan, p.(ended := p.ended + {Runs(p)}))
    ensures env.pCallStack == old(env.pCallStack)
  {
    RunningIs(env, table, plan, p);
    EndAgrees(table, ViewOf(env, table), plan, p);
    MarkAt(env, table, Runs(p));
  }

  lemma FinishIs(plan: Plan, p: Private, left: seq<Byte>)
    requires PrivateValid(plan, p) && Allowed(plan, p, Finish(left))
    ensures var p1 := p.(ended := p.ended + {Runs(p)});
            && PrivateValid(plan, p1) && Allowed(plan, p1, Yield(left))
            && Next(plan, p, Finish(left)) == Back(plan, p1, left)
            && Gained(plan, p, Finish(left)) == Gained(plan, p1, Yield(left))
  {
  }

  method PerformFinish(env: Env, table: seq<Co>, left: seq<Byte>, ghost plan: Plan, ghost p: Private)
    returns (found: seq<seq<Byte>>)
    requires Shows(env, table, plan, p) && Allowed(plan, p, Finish(left))
    modifies Footprint(env)
    ensures Shows(env, table, plan, Next(plan, p, Finish(left))) && found == Gained(plan, p, Finish(left))
    ensures env.cos == old(env.cos) && env.pCallStack == old(env.pCallStack)[..|old(env.pCallStack)| - 1]
  {
    FinishIs(plan, p, left);
    EndAt(env, table, plan, p);
    found := PerformYield(env, table, left, plan, p.(ended := p.ended + {Runs(p)}));
  }

  method PerformCompute(env: Env, table: seq<Co>, bytes: seq<Byte>, ghost plan: Plan, ghost p: Private)
    requires Shows(env, table, plan, p) && Allowed(plan, p, Compute(bytes))
    modifies Footprint(env)
    ensures Shows(env, table, plan, p) && env.cos == old(env.cos) && env.pCallStack == old(env.pCallStack)
    ensures env.Running().stack_mem.stack_buffer[..] == bytes
  {
    ghost var v := ViewOf(env, table);
    RunningIs(env, table, plan, p);
    env.Compute(bytes);
    ViewIs(table, v.starts, v.ends, v.images, v.occupants);
  }

  // The occupants after coroutine k has given up its memory.
  ghost function Left(table: seq<Co>, occupants: seq<Co?>, k: nat): (r: seq<Co?>)
    requires k < |table| == |occupants|
    ensures |r| == |table|
  {
    seq(|table|, j requires 0 <= j < |table| =>
      if table[j].stack_mem == table[k].stack_mem && occupants[k] == table[k] then null else occupants[j])
  }

  lemma LeftOwned(table: seq<Co>, occupants: seq<Co?>, plan: Plan, p: Private, p1: Private, k: nat)
    requires Housed(table, plan) && |occupants| == |table| && k in p.live && k < |table|
    requires Owned(table, occupants, plan, p) && p1.live <= p.live && p1.owner == Vacated(plan, p, k)
    requires !plan.shared[k] ==> occupants[k] == null
    ensures Owned(table, Left(table, occupants, k), plan, p1)
  {
    forall j | j in p1.live && j < |table| && plan.shared[j]
      ensures Left(table, occupants, k)[j] == OwnerOf(table, p1, plan.home[j])
    {
      assert occupants[j] == OwnerOf(table, p, plan.home[j]);
    }
  }

  lemma MayForget(env: Env, table: seq<Co>, plan: Plan, p: Private, k: nat)
    requires Shows(env, table, plan, p) && 0 < k && k in p.live && k !in p.calls
    requires InMemory(plan, p, k) ==> Alone(plan, p, k)
    ensures table[k] in env.cos && table[k] !in env.pCallStack && !table[k].cIsMain
    ensures table[k].InMemory() ==> env.Alone(table[k])
    ensures !plan.shared[k] ==> table[k].stack_mem.occupy_co == null
  {
  }

  lemma FreeAgrees(table: seq<Co>, v: View, plan: Plan, p: Private, k: nat)
    requires Agrees(table, v, plan, p) && Allowed(plan, p, Free(k)) && (!plan.shared[k] ==> v.occupants[k] == null)
    ensures Agrees(table, v.(cos := v.cos - {table[k]}, occupants := Left(table, v.occupants, k)), plan,
                   Next(plan, p, Free(k)))
  {
    var p1 := Next(plan, p, Free(k));
    LeftOwned(table, v.occupants, plan, p, p1, k);
    forall c | c in v.cos - {table[k]} ensures exists j :: j in p1.live && j < |table| && table[j] == c {
      var j :| j in p.live && j < |table| && table[j] == c;
      assert j in p1.live;
    }
  }

  lemma ResetAgrees(table: seq<Co>, v: View, plan: Plan, p: Private, k: nat)
    requires Agrees(table, v, plan, p) && Allowed(plan, p, Reset(k)) && k in p.started
    requires !plan.shared[k] ==> v.occupants[k] == null
    ensures Agrees(table, v.(starts := v.starts[k := false], ends := v.ends[k := false],
                             occupants := Left(table, v.occupants, k)), plan, Next(plan, p, Reset(k)))
  {
    LeftOwned(table, v.occupants, plan, p, Next(plan, p, Reset(k)), k);
  }

  method FreeAt(env: Env, table: seq<Co>, k: nat)
    requires Good(env) && Distinct(table) && k < |table| && table[k] in env.cos && table[k] !in env.pCallStack
    requires !table[k].cIsMain && (table[k].InMemory() ==> env.Alone(table[k]))
    modifies env`cos, table[k].stack_mem`occupy_co
    ensures Good(env)
    ensures var v := old(ViewOf(env, table));
            ViewOf(env, table) == v.(cos := v.cos - {table[k]}, occupants := Left(table, v.occupants, k))
  {
    ghost var v := ViewOf(env, table);
    env.CoFree(table[k]);
    ViewIs(table, v.starts, v.ends, v.images, Left(table, v.occupants, k));
  }

  method ResetAt(env: Env, table: seq<Co>, k: nat)
    requires Good(env) && Distinct(table) && k < |table| && table[k] in env.cos && table[k] !in env.pCallStack
    requires !table[k].cIsMain && (table[k].InMemory() ==> env.Alone(table[k]))
    modifies {table[k]}`cStart, {table[k]}`cEnd, {table[k]}`hasSave, {table[k]}`save_buffer
    modifies table[k].stack_mem`occupy_co
    ensures Good(env)
    ensures var v := old(ViewOf(env, table));
            ViewOf(env, table) ==
            if !v.starts[k] then v
            else v.(starts := v.starts[k := false], ends := v.ends[k := false],
                    occupants := Left(table, v.occupants, k))
  {
    ghost var v := ViewOf(env, table);
    env.CoReset(table[k]);
    if v.starts[k] {
      ViewIs(table, v.starts[k := false], v.ends[k := false], v.images, Left(table, v.occupants, k));
    } else {
      ViewIs(table, v.starts, v.ends, v.images, v.occupants);
    }
  }

  lemma ForgetReady(env: Env, table: seq<Co>, plan: Plan, p: Private, k: nat)
    requires Shows(env, table, plan, p) && Allowed(plan, p, Free(k))
    ensures Distinct(table) && k < |table| && table[k] in env.cos && table[k] !in env.pCallStack
    ensures !table[k].cIsMain && (table[k].InMemory() ==> env.Alone(table[k]))
    ensures var v := ViewOf(env, table);
            && Agrees(table, v.(cos := v.cos - {table[k]}, occupants := Left(table, v.occupants, k)), plan,
                      Next(plan, p, Free(k)))
            && Agrees(table, if !v.starts[k] then v
                             else v.(starts := v.starts[k := false], ends := v.ends[k := false],
                                     occupants := Left(table, v.occupants, k)), plan, Next(plan, p, Reset(k)))
  {
    var v := ViewOf(env, table);
    MayForget(env, table, plan, p, k);
    FreeAgrees(table, v, plan, p, k);
    if v.starts[k] {
      ResetAgrees(table, v, plan, p, k);
    }
  }

  method PerformFree(env: Env, table: seq<Co>, k: nat, ghost plan: Plan, ghost p: Private)
    requires Shows(env, table, plan, p) && Allowed(plan, p, Free(k))
    modifies Footprint(env)
    ensures Shows(env, table, plan, Next(plan, p, Free(k))) && env.pCallStack == old(env.pCallStack)
    ensures env.cos <= old(env.cos)
  {
    ForgetReady(env, table, plan, p, k);
    FreeAt(env, table, k);
  }

  method PerformReset(env: Env, table: seq<Co>, k: nat, ghost plan: Plan, ghost p: Private)
    requires Shows(env, table, plan, p) && Allowed(plan, p, Reset(k))
    modifies Footprint(env)
    ensures Shows(env, table, plan, Next(plan, p, Reset(k))) && env.pCallStack == old(env.pCallStack)
    ensures env.cos <= old(env.cos)
  {
    ForgetReady(env, table, plan, p, k);
    ResetAt(env, table, k);
  }

  // One operation does to the environment what it does to the reference, and whoever gets control
  // reads from its buffer what the reference has on its private stack.
  method Perform(env: Env, table: seq<Co>, op: Op, ghost plan: Plan, ghost p: Private)
    returns (found: seq<seq<Byte>>)
    requires Shows(env, table, plan, p) && Allowed(plan, p, op)
    modifies Footprint(env)
    ensures Shows(env, table, plan, Next(plan, p, op)) && found == Gained(plan, p, op)
    ensures env.cos <= old(env.cos)
    ensures env.pCallStack ==
            match op
            case Resume(k, _, _) => old(env.pCallStack) + [table[k]]
            case Yield(_) => old(env.pCallStack)[..|old(env.pCallStack)| - 1]
            case Finish(_) => old(env.pCallStack)[..|old(env.pCallStack)| - 1]
            case _ => old(env.pCallStack)
  {
    found := [];
    match op
    case Resume(k, left, pfn) => found := PerformResume(env, table, k, left, pfn, plan, p);
    case Yield(left) => found := PerformYield(env, table, left, plan, p);
    case Finish(left) => found := PerformFinish(env, table, left, plan, p);
    case Compute(bytes) => PerformCompute(env, table, bytes, plan, p);
    case Free(k) => PerformFree(env, table, k, plan, p);
    case Reset(k) => PerformReset(env, table, k, plan, p);
  }

  // Any legal list of operations: the bytes read at every gain of control, in order, are those of the
  // reference, and so is the state at the end.
  method RunOps(env: Env, table: seq<Co>, ops: seq<Op>, ghost plan: Plan, ghost p: Private, ghost all: set<object>)
    returns (found: seq<seq<Byte>>)
    requires Shows(env, table, plan, p) && Legal(plan, p, ops) && Footprint(env) <= all
    modifies all
    ensures Shows(env, table, plan, Run(plan, p, ops)) && found == GainedIn(plan, p, ops)
    decreases |ops|
  {
    if ops == [] {
      return [];
    }
    var first := PerformOne(env, table, ops[0], plan, p, all);
    var more := RunOps(env, table, ops[1..], plan, Next(plan, p, ops[0]), all);
    found := first + more;
  }

  method PerformOne(env: Env, table: seq<Co>, op: Op, ghost plan: Plan, ghost p: Private, ghost all: set<object>)
    returns (found: seq<seq<Byte>>)
    requires Shows(env, table, plan, p) && Allowed(plan, p, op) && Footprint(env) <= all
    modifies all
    ensures Shows(env, table, plan, Next(plan, p, op)) && found == Gained(plan, p, op) && Footprint(env) <= all
  {
    ghost var cos := env.cos;
    found := Perform(env, table, op, plan, p);
    FewerParts(cos, env.cos);
  }

  // ---- From the start ------------------------------------------------------------------------

  datatype Attr = Shared | Own(size: nat)

  function Turns(attrs: seq<Attr>): nat {
    if attrs == [] then 0 else Turns(attrs[..|attrs| - 1]) + if attrs[|attrs| - 1].Shared? then 1 else 0
  }

  // The main coroutine lives in memory 0, the shared memories are 1 to count and are dealt out in turn,
  // any other memory is a new one.
  function PlanOf(size: nat, count: nat, shareSize: nat, attrs: seq<Attr>): (plan: Plan)
    requires 16 <= size && 16 <= shareSize && 0 < count
    requires forall i | 0 <= i < |attrs| && attrs[i].Own? :: 16 <= attrs[i].size
    ensures PlanValid(plan) && |plan.home| == |attrs| + 1
  {
    if attrs == [] then Plan([0], [false], [size])
    else
      var n, attr := |attrs| - 1, attrs[|attrs| - 1];
      var plan := PlanOf(size, count, shareSize, attrs[..n]);
      if attr.Shared? then
        Plan(plan.home + [1 + Turns(attrs[..n]) % count], plan.shared + [true], plan.size + [shareSize])
      else
        Plan(plan.home + [1 + count + n], plan.shared + [false], plan.size + [attr.size])
  }

  function Numbers(n: nat): (s: set<nat>)
    ensures forall k: nat :: k in s <==> k < n
  {
    if n == 0 then {} else Numbers(n - 1) + {n - 1}
  }

  // n coroutines, of which the main one runs.
  function Start(n: nat): Private {
    Private([0], Numbers(n), {}, {}, map[], map[])
  }

  // co_alloc_sharestack.
  method AllocShareStack(count: nat, size: nat) returns (mems: seq<StackMem>)
    requires 16 <= size
    ensures |mems| == count && Unused(mems) && forall m | m in mems :: m.stack_buffer.Length == size
    ensures forall m | m in mems :: fresh(m) && fresh(m.stack_buffer)
  {
    mems := [];
    for i := 0 to count
      invariant |mems| == i && Unused(mems) && forall m | m in mems :: m.stack_buffer.Length == size
      invariant forall m | m in mems :: fresh(m) && fresh(m.stack_buffer)
    {
      var buffer := new Byte[size];
      var mem := new StackMem(buffer);
      mems := mems + [mem];
    }
  }

  // Separate memories without an occupant.
  ghost predicate Unused(mems: seq<StackMem>)
    reads mems
  {
    && (forall m | m in mems :: m.occupy_co == null && 16 <= m.stack_buffer.Length)
    && forall i, j | 0 <= i < j < |mems| :: mems[i] != mems[j] && mems[i].stack_buffer != mems[j].stack_buffer
  }

  // A coroutine lives in one of the shared memories, or its buffer is none of theirs.
  ghost predicate Lodged(cos: set<Co>, mems: seq<StackMem>) {
    forall c, m | c in cos && m in mems ::
      if c.stack_mem == m then c.cIsShareStack else c.stack_mem.stack_buffer != m.stack_buffer
  }

  method Create(env: Env, mems: seq<StackMem>, allocIdx: nat, attr: Attr) returns (co: Co)
    requires env.Valid() && Unused(mems) && Lodged(env.cos, mems) && mems != [] && (attr.Own? ==> 16 <= attr.size)
    modifies env`cos
    ensures env.Valid() && env.cos == old(env.cos) + {co} && fresh(co) && Lodged(env.cos, mems)
    ensures old(env.Manned()) ==> env.Manned()
    ensures !co.cStart && !co.cEnd && !co.cIsMain && co.cIsShareStack == attr.Shared?
    ensures if attr.Shared? then co.stack_mem == mems[allocIdx % |mems|]
            else
              fresh(co.stack_mem) && fresh(co.stack_mem.stack_buffer) && co.stack_mem.stack_buffer.Length == attr.size
  {
    if attr.Shared? {
      assert mems[allocIdx % |mems|] in mems;
      co := env.CoCreate(mems[allocIdx % |mems|], true);
    } else {
      co := env.CoCreatePrivate(attr.size);
    }
  }

  // The table so far follows the plan so far.
  ghost predicate Settled(table: seq<Co>, mems: seq<StackMem>, plan: Plan) {
    && Housed(table, plan)
    && forall k | 0 <= k < |table| ::
         if plan.shared[k] then 1 <= plan.home[k] <= |mems| && table[k].stack_mem == mems[plan.home[k] - 1]
         else table[k].stack_mem !in mems && (plan.home[k] == 0 || |mems| < plan.home[k] < |mems| + |table|)
  }

  lemma SettleShared(table: seq<Co>, mems: seq<StackMem>, plan: Plan, co: Co, i: nat, size: nat)
    requires Settled(table, mems, plan) && i < |mems| && co !in table && co.stack_mem == mems[i]
    requires !co.cIsMain && co.cIsShareStack && co.stack_mem.stack_buffer.Length == size >= 16
    requires forall j, k | 0 <= j < k < |mems| :: mems[j] != mems[k]
    ensures Settled(table + [co], mems, Plan(plan.home + [1 + i], plan.shared + [true], plan.size + [size]))
  {
  }

  lemma SettlePrivate(table: seq<Co>, mems: seq<StackMem>, plan: Plan, co: Co, size: nat)
    requires Settled(table, mems, plan) && co !in table && co.stack_mem !in mems
    requires forall c | c in table :: c.stack_mem != co.stack_mem
    requires !co.cIsMain && !co.cIsShareStack && co.stack_mem.stack_buffer.Length == size >= 16
    ensures Settled(table + [co], mems,
                    Plan(plan.home + [|mems| + |table|], plan.shared + [false], plan.size + [size]))
  {
  }

  function Extended(plan: Plan, count: nat, shareSize: nat, turn: nat, attr: Attr): Plan
    requires 0 < count && |plan.home| > 0
  {
    if attr.Shared? then Plan(plan.home + [1 + turn % count], plan.shared + [true], plan.size + [shareSize])
    else Plan(plan.home + [count + |plan.home|], plan.shared + [false], plan.size + [attr.size])
  }

  lemma PlanSnoc(size: nat, count: nat, shareSize: nat, attrs: seq<Attr>, i: nat)
    requires 16 <= size && 16 <= shareSize && 0 < count && i < |attrs|
    requires forall j | 0 <= j < |attrs| && attrs[j].Own? :: 16 <= attrs[j].size
    ensures PlanOf(size, count, shareSize, attrs[..i + 1]) ==
            Extended(PlanOf(size, count, shareSize, attrs[..i]), count, shareSize, Turns(attrs[..i]), attrs[i])
    ensures Turns(attrs[..i + 1]) == Turns(attrs[..i]) + if attrs[i].Shared? then 1 else 0
  {
    assert attrs[..i + 1][..i] == attrs[..i];
  }

  lemma SettleNext(table: seq<Co>, mems: seq<StackMem>, plan: Plan, co: Co, allocIdx: nat, shareSize: nat, attr: Attr)
    requires Settled(table, mems, plan) && mems != [] && co !in table && !co.cIsMain
    requires forall j, k | 0 <= j < k < |mems| :: mems[j] != mems[k]
    requires co.cIsShareStack == attr.Shared?
    requires if attr.Shared? then
               co.stack_mem == mems[allocIdx % |mems|] && co.stack_mem.stack_buffer.Length == shareSize
             else co.stack_mem !in mems && (forall c | c in table :: c.stack_mem != co.stack_mem)
                  && co.stack_mem.stack_buffer.Length == attr.size
    requires if attr.Shared? then 16 <= shareSize else 16 <= attr.size
    ensures Settled(table + [co], mems, Extended(plan, |mems|, shareSize, allocIdx, attr))
  {
    if attr.Shared? {
      SettleShared(table, mems, plan, co, allocIdx % |mems|, shareSize);
    } else {
      SettlePrivate(table, mems, plan, co, attr.size);
    }
  }

  // Nobody but the main coroutine has run yet.
  ghost predicate Unstarted(env: Env, table: seq<Co>)
    reads env, env.cos, set c | c in env.cos :: c.stack_mem, set c | c in env.cos :: c.stack_mem.stack_buffer
    reads table
  {
    && Good(env) && table != [] && env.pCallStack == [table[0]]
    && (forall c | c in table :: c in env.cos && !c.cStart && !c.cEnd)
    && forall c | c in env.cos :: c in table
  }

  lemma StartAgrees(table: seq<Co>, v: View, plan: Plan)
    requires Housed(table, plan) && table != [] && v.calls == [table[0]] && Kept(v.images, Start(|table|))
    requires |v.starts| == |v.ends| == |v.images| == |v.occupants| == |table|
    requires forall k | 0 <= k < |table| :: table[k] in v.cos && !v.starts[k] && !v.ends[k]
    requires forall c | c in v.cos :: c in table
    requires forall k | 0 <= k < |table| && plan.shared[k] :: v.occupants[k] == null
    ensures Agrees(table, v, plan, Start(|table|))
  {
    forall c | c in v.cos ensures exists k :: k in Numbers(|table|) && k < |table| && table[k] == c {
      var k :| 0 <= k < |table| && table[k] == c;
      assert k in Numbers(|table|);
    }
  }

  lemma StartShows(env: Env, table: seq<Co>, mems: seq<StackMem>, plan: Plan)
    requires Unstarted(env, table) && Unused(mems) && Settled(table, mems, plan)
    ensures Shows(env, table, plan, Start(|table|))
  {
    var v := ViewOf(env, table);
    forall k | 0 <= k < |table| ensures table[k] in env.cos && !v.starts[k] && !v.ends[k] {
      assert table[k] in table;
    }
    forall k | 0 <= k < |table| && plan.shared[k] ensures v.occupants[k] == null {
      assert mems[plan.home[k] - 1] in mems;
    }
    StartAgrees(table, v, plan);
  }

  // co_create_env for the next coroutine of the table.
  method Add(env: Env, table: seq<Co>, mems: seq<StackMem>, allocIdx: nat, shareSize: nat, attr: Attr,
             ghost plan: Plan)
    returns (table': seq<Co>)
    requires Unstarted(env, table) && Unused(mems) && mems != [] && Lodged(env.cos, mems) && Settled(table, mems, plan)
    requires 16 <= shareSize && (forall m | m in mems :: m.stack_buffer.Length == shareSize)
    requires attr.Own? ==> 16 <= attr.size
    modifies env`cos
    ensures Unstarted(env, table') && Lodged(env.cos, mems)
    ensures Settled(table', mems, Extended(plan, |mems|, shareSize, allocIdx, attr))
    ensures |table'| == |table| + 1
    ensures forall c | c in env.cos && c !in old(env.cos) ::
              fresh(c) && (c.stack_mem in mems || (fresh(c.stack_mem) && fresh(c.stack_mem.stack_buffer)))
  {
    var co := Create(env, mems, allocIdx, attr);
    SettleNext(table, mems, plan, co, allocIdx, shareSize, attr);
    UnstartedMore(env, table, co);
    table' := table + [co];
  }

  lemma UnstartedMore(env: Env, table: seq<Co>, co: Co)
    requires Good(env) && table != [] && env.pCallStack == [table[0]]
    requires forall c | c in table :: c in env.cos && !c.cStart && !c.cEnd
    requires co in env.cos && !co.cStart && !co.cEnd && forall c | c in env.cos :: c in table || c == co
    ensures Unstarted(env, table + [co])
  {
    assert (table + [co])[0] == table[0];
    assert forall c :: c in table + [co] <==> c in table || c == co;
  }

  // A new thread and coroutines created as their attributes say.
  method Setup(size: nat, count: nat, shareSize: nat, attrs: seq<Attr>) returns (env: Env, table: seq<Co>)
    requires 16 <= size && 16 <= shareSize && 0 < count
    requires forall i | 0 <= i < |attrs| && attrs[i].Own? :: 16 <= attrs[i].size
    ensures Shows(env, table, PlanOf(size, count, shareSize, attrs), Start(|attrs| + 1))
    ensures fresh(env) && fresh(env.cos)
    ensures forall c | c in env.cos :: fresh(c.stack_mem) && fresh(c.stack_mem.stack_buffer)
  {
    var mems := AllocShareStack(count, shareSize);
    env := new Env(size);
    table := [env.Running()];
    table := AddAll(env, table, mems, size, shareSize, attrs);
    StartShows(env, table, mems, PlanOf(size, count, shareSize, attrs));
  }

  method AddAll(env: Env, main: seq<Co>, mems: seq<StackMem>, ghost size: nat, shareSize: nat, attrs: seq<Attr>)
    returns (table: seq<Co>)
    requires 16 <= size && 16 <= shareSize && mems != []
    requires forall i | 0 <= i < |attrs| && attrs[i].Own? :: 16 <= attrs[i].size
    requires |main| == 1 && Unstarted(env, main) && Unused(mems) && Lodged(env.cos, mems)
    requires forall m | m in mems :: m.stack_buffer.Length == shareSize
    requires Settled(main, mems, PlanOf(size, |mems|, shareSize, []))
    modifies env`cos
    ensures Unstarted(env, table) && Settled(table, mems, PlanOf(size, |mems|, shareSize, attrs))
    ensures |table| == |attrs| + 1
    ensures forall c | c in env.cos && c !in old(env.cos) ::
              fresh(c) && (c.stack_mem in mems || (fresh(c.stack_mem) && fresh(c.stack_mem.stack_buffer)))
  {
    table := main;
    var allocIdx := 0;
    for i := 0 to |attrs|
      invariant allocIdx == Turns(attrs[..i]) && |table| == i + 1
      invariant Unstarted(env, table) && Lodged(env.cos, mems)
      invariant Settled(table, mems, PlanOf(size, |mems|, shareSize, attrs[..i]))
      invariant forall c | c in env.cos && c !in old(env.cos) ::
                  fresh(c) && (c.stack_mem in mems || (fresh(c.stack_mem) && fresh(c.stack_mem.stack_buffer)))
    {
      PlanSnoc(size, |mems|, shareSize, attrs, i);
      table := Add(env, table, mems, allocIdx, shareSize, attrs[i], PlanOf(size, |mems|, shareSize, attrs[..i]));
      allocIdx := if attrs[i].Shared? then allocIdx + 1 else allocIdx;
    }
    assert attrs[..|attrs|] == attrs;
  }

  method RunAll(env: Env, table: seq<Co>, ops: seq<Op>, ghost plan: Plan, ghost p: Private)
    returns (found: seq<seq<Byte>>)
    requires Shows(env, table, plan, p) && Legal(plan, p, ops)
    modifies env, env.cos, set c | c in env.cos :: c.stack_mem, set c | c in env.cos :: c.stack_mem.stack_buffer
    ensures found == GainedIn(plan, p, ops)
  {
    found := RunOps(env, table, ops, plan, p, Footprint(env));
  }

  // A whole program: whatever legal operations follow, everybody who gets control finds what it has left.
  method Program(size: nat, count: nat, shareSize: nat, attrs: seq<Attr>, ops: seq<Op>)
    returns (found: seq<seq<Byte>>)
    requires 16 <= size && 16 <= shareSize && 0 < count
    requires forall i | 0 <= i < |attrs| && attrs[i].Own? :: 16 <= attrs[i].size
    requires Legal(PlanOf(size, count, shareSize, attrs), Start(|attrs| + 1), ops)
    ensures found == GainedIn(PlanOf(size, count, shareSize, attrs), Start(|attrs| + 1), ops)
  {
    ghost var plan, p := PlanOf(size, count, shareSize, attrs), Start(|attrs| + 1);
    var env, table := Setup(size, count, shareSize, attrs);
    found := RunAll(env, table, ops, plan, p);
  }
}
