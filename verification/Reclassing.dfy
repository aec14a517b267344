// How long a queued task waits when its own queue class is changed meanwhile: each change costs at most
// one full wait.
module Reclassing {
  import opened Scheduler
  import opened SchedulerInvariant
  import opened SchedulerFairness

  predicate InQueue(s: Sched, slot: nat) { slot in s.normal || slot in s.priority }

  function ClassOf(s: Sched, slot: nat): QueueClass { if slot in s.normal then Normal else Priority }

  // The pops until a queued task is served, in whichever queue it is.
  function WaitNow(s: Sched, slot: nat): nat { Wait(s, ClassOf(s, slot), slot) }

  // The longest wait there can be.
  const LONGEST_WAIT: nat := 128

  ghost function UpTo(n: nat): (s: set<nat>)
    ensures |s| == n && forall x: nat :: x in s <==> x < n
  {
    if n == 0 then {} else UpTo(n - 1) + {n - 1}
  }

  lemma {:induction false} SubsetSmaller(a: set<nat>, b: set<nat>)
    requires a <= b
    ensures |a| <= |b|
    decreases a
  {
    if a != {} {
      var x :| x in a;
      SubsetSmaller(a - {x}, b - {x});
    }
  }

  lemma QueueFits(q: seq<nat>)
    requires Distinct(q) && forall k :: 0 <= k < |q| ==> q[k] < MAX_TASKS
    ensures |q| <= MAX_TASKS
  {
    ElemsCount(q);
    SubsetSmaller(Elems(q), UpTo(MAX_TASKS));
  }

  lemma WaitBound(s: Sched, slot: nat)
    requires Inv(s) && InQueue(s, slot)
    ensures 1 <= WaitNow(s, slot) <= LONGEST_WAIT
  {
    QueueFits(s.normal);
    QueueFits(s.priority);
  }

  // --- the wait with changes of class ------------------------------------------------------

  // One if the i-th operation of the run moved the task to the other queue.
  function SwitchAt(s0: Sched, ops: seq<Op>, i: nat, slot: nat): nat
    requires i < |ops|
  {
    var s, r := RunOps(s0, ops, i), RunOps(s0, ops, i + 1);
    if InQueue(s, slot) && InQueue(r, slot) && ClassOf(r, slot) != ClassOf(s, slot) then 1 else 0
  }

  // How many of the operations from m on, up to n, did.
  function Switches(s0: Sched, ops: seq<Op>, m: nat, n: nat, slot: nat): nat
    requires m <= n <= |ops|
  {
    if n == m then 0 else Switches(s0, ops, m, n - 1, slot) + SwitchAt(s0, ops, n - 1, slot)
  }

  predicate WaitingAfter(s0: Sched, ops: seq<Op>, i: nat, slot: nat) { i <= |ops| && InQueue(RunOps(s0, ops, i), slot) }

  // After every operation from m to n the slot is waiting in one of the queues.
  ghost predicate StaysWaiting(s0: Sched, ops: seq<Op>, m: nat, n: nat, slot: nat) {
    forall i :: m <= i <= n ==> WaitingAfter(s0, ops, i, slot)
  }

  lemma StepOfWaiting(s: Sched, op: Op, slot: nat)
    requires Inv(s) && Inv(Apply(s, op)) && InQueue(s, slot) && InQueue(Apply(s, op), slot)
    ensures WaitNow(Apply(s, op), slot) + (if IsPop(s, op) then 1 else 0)
         <= WaitNow(s, slot) + if ClassOf(Apply(s, op), slot) != ClassOf(s, slot) then LONGEST_WAIT else 0
  {
    hide Apply, Inv, Wait;
    WaitBound(s, slot);
    WaitBound(Apply(s, op), slot);
    if ClassOf(Apply(s, op), slot) == ClassOf(s, slot) {
      OneStepOfWait(s, op, ClassOf(s, slot), slot);
    }
  }

  // While a task waits, every pop is paid for by its initial wait or by one of its changes of class.
  lemma {:induction false} WaitWithSwitches(s0: Sched, ops: seq<Op>, m: nat, n: nat, slot: nat)
    requires Inv(s0) && m <= n <= |ops| && StaysWaiting(s0, ops, m, n, slot)
    ensures Pops(s0, ops, m, n) + WaitNow(RunOps(s0, ops, n), slot)
         <= WaitNow(RunOps(s0, ops, m), slot) + LONGEST_WAIT * Switches(s0, ops, m, n, slot)
    ensures WaitNow(RunOps(s0, ops, n), slot) >= 1
    decreases n
  {
    hide Apply, Inv, WaitNow, ClassOf, InQueue, IsPop;
    InvariantKept(s0, ops, n);
    assert WaitingAfter(s0, ops, n, slot);
    WaitBound(RunOps(s0, ops, n), slot);
    if m < n {
      WaitWithSwitches(s0, ops, m, n - 1, slot);
      InvariantKept(s0, ops, n - 1);
      assert WaitingAfter(s0, ops, n - 1, slot);
      StepOfWaiting(RunOps(s0, ops, n - 1), ops[n - 1], slot);
    }
  }

  // A task that stays in one queue makes no changes.
  lemma {:induction false} NoSwitches(s0: Sched, ops: seq<Op>, m: nat, n: nat, c: QueueClass, slot: nat)
    requires Inv(s0) && m <= n <= |ops| && StaysQueued(s0, ops, m, n, c, slot)
    ensures StaysWaiting(s0, ops, m, n, slot) && Switches(s0, ops, m, n, slot) == 0
    ensures WaitNow(RunOps(s0, ops, m), slot) == Wait(RunOps(s0, ops, m), c, slot)
    decreases n
  {
    hide Apply, Inv, Wait;
    InvariantKept(s0, ops, n);
    assert QueuedAfter(s0, ops, n, c, slot);
    InOneQueue(RunOps(s0, ops, n), c, slot);
    if m < n {
      NoSwitches(s0, ops, m, n - 1, c, slot);
      InvariantKept(s0, ops, n - 1);
      assert QueuedAfter(s0, ops, n - 1, c, slot);
      InOneQueue(RunOps(s0, ops, n - 1), c, slot);
      forall i | m <= i <= n ensures WaitingAfter(s0, ops, i, slot) {
        assert QueuedAfter(s0, ops, i, c, slot);
      }
    }
  }

  lemma InOneQueue(s: Sched, c: QueueClass, slot: nat)
    requires Inv(s) && slot in QueueOf(s, c)
    ensures InQueue(s, slot) && ClassOf(s, slot) == c
  {
    assert SlotOk(s, slot);
  }

  // --- longer runs -------------------------------------------------------------------------

  lemma {:induction false} RunPrefix(s: Sched, a: seq<Op>, b: seq<Op>, n: nat)
    requires n <= |a|
    ensures RunOps(s, a + b, n) == RunOps(s, a, n)
  {
    hide Apply;
    if n > 0 { RunPrefix(s, a, b, n - 1); }
  }

  lemma {:induction false} RunAppend(s: Sched, a: seq<Op>, b: seq<Op>, k: nat)
    requires k <= |b|
    ensures RunOps(s, a + b, |a| + k) == RunOps(RunOps(s, a, |a|), b, k)
  {
    hide Apply;
    if k == 0 { RunPrefix(s, a, b, |a|); } else { RunAppend(s, a, b, k - 1); }
  }
}
