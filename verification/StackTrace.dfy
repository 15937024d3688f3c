/** What the reference of module StackRuns remembers, read off the operations themselves. */
module StackTrace {
  import opened SharedStack
  import opened StackRuns

  // What coroutine k leaves behind in an operation by which it loses control.
  function Leaves(p: Private, op: Op, k: nat): seq<seq<Byte>>
    requires p.calls != []
  {
    if (op.Resume? || op.Yield? || op.Finish?) && Runs(p) == k then [op.left] else []
  }

  // All it has left in these operations, in order.
  ghost function LeftIn(plan: Plan, p: Private, ops: seq<Op>, k: nat): seq<seq<Byte>>
    requires PrivateValid(plan, p) && Legal(plan, p, ops)
    decreases |ops|
  {
    if ops == [] then [] else Leaves(p, ops[0], k) + LeftIn(plan, Next(plan, p, ops[0]), ops[1..], k)
  }

  // The stack of k holds the last of these, or what it held before.
  ghost predicate HoldsLast(before: map<nat, seq<Byte>>, after: map<nat, seq<Byte>>, k: nat, left: seq<seq<Byte>>) {
    if left == [] then (k in after <==> k in before) && (k in before ==> after[k] == before[k])
    else k in after && after[k] == left[|left| - 1]
  }

  lemma StepLeaves(plan: Plan, p: Private, op: Op, k: nat)
    requires PrivateValid(plan, p) && Allowed(plan, p, op)
    ensures HoldsLast(p.stacks, Next(plan, p, op).stacks, k, Leaves(p, op, k))
  {
  }

  lemma {:induction false} RunLeaves(plan: Plan, p: Private, ops: seq<Op>, k: nat)
    requires PrivateValid(plan, p) && Legal(plan, p, ops)
    ensures HoldsLast(p.stacks, Run(plan, p, ops).stacks, k, LeftIn(plan, p, ops, k))
    decreases |ops|
  {
    if ops != [] {
      var p1 := Next(plan, p, ops[0]);
      StepLeaves(plan, p, ops[0], k);
      RunLeaves(plan, p1, ops[1..], k);
    }
  }

  // Whoever waits on the call stack or has started has left something, except the one that runs.
  ghost predicate AllHaveLeft(p: Private)
    requires p.calls != []
  {
    && (forall i | 0 <= i < |p.calls| - 1 :: p.calls[i] in p.stacks)
    && forall k | k in p.started && k != Runs(p) :: k in p.stacks
  }

  lemma StepHasLeft(plan: Plan, p: Private, op: Op)
    requires PrivateValid(plan, p) && Allowed(plan, p, op) && AllHaveLeft(p)
    ensures AllHaveLeft(Next(plan, p, op))
  {
  }

  lemma {:induction false} RunHasLeft(plan: Plan, p: Private, ops: seq<Op>)
    requires PrivateValid(plan, p) && Legal(plan, p, ops) && AllHaveLeft(p)
    ensures AllHaveLeft(Run(plan, p, ops))
    decreases |ops|
  {
    if ops != [] {
      StepHasLeft(plan, p, ops[0]);
      RunHasLeft(plan, Next(plan, p, ops[0]), ops[1..]);
    }
  }

  // Who gets control by this operation and has had it before; None: nobody.
  predicate ComesBack(p: Private, op: Op, k: nat)
    requires p.calls != []
  {
    match op
    case Resume(j, _, _) => k == j && j in p.started
    case Yield(_) => |p.calls| >= 2 && k == p.calls[|p.calls| - 2]
    case Finish(_) => |p.calls| >= 2 && k == p.calls[|p.calls| - 2]
    case _ => false
  }

  lemma GainsItsStack(plan: Plan, p: Private, op: Op, k: nat)
    requires PrivateValid(plan, p) && Allowed(plan, p, op) && AllHaveLeft(p) && ComesBack(p, op, k)
    ensures k in p.stacks && Gained(plan, p, op) == [p.stacks[k]] && Runs(Next(plan, p, op)) == k
  {
  }

  // After any legal operations from the start, whoever comes back to control finds the bytes it left when it
  // last lost it, and runs; by any other operation nobody finds anything.
  lemma EveryoneFindsWhatTheyLeft(plan: Plan, n: nat, ops: seq<Op>, op: Op, k: nat)
    requires PrivateValid(plan, Start(n)) && Legal(plan, Start(n), ops)
    requires Allowed(plan, Run(plan, Start(n), ops), op)
    ensures var p, left := Run(plan, Start(n), ops), LeftIn(plan, Start(n), ops, k);
            && (ComesBack(p, op, k) ==>
                  left != [] && Gained(plan, p, op) == [left[|left| - 1]] && Runs(Next(plan, p, op)) == k)
            && ((forall j :: !ComesBack(p, op, j)) ==> Gained(plan, p, op) == [])
  {
    if ComesBack(Run(plan, Start(n), ops), op, k) {
      RunLeaves(plan, Start(n), ops, k);
      RunHasLeft(plan, Start(n), ops);
      GainsItsStack(plan, Run(plan, Start(n), ops), op, k);
    }
    SomebodyComesBack(plan, Run(plan, Start(n), ops), op);
  }

  lemma SomebodyComesBack(plan: Plan, p: Private, op: Op)
    requires PrivateValid(plan, p) && Allowed(plan, p, op)
    ensures Gained(plan, p, op) == [] || exists j :: ComesBack(p, op, j)
  {
    if op.Resume? {
      assert ComesBack(p, op, op.k) <==> op.k in p.started;
    } else if op.Yield? || op.Finish? {
      assert ComesBack(p, op, p.calls[|p.calls| - 2]);
    }
  }
}
