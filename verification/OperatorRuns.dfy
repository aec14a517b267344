// Runs from reset: a node in focus is polled at once, a disabled one no more, and a node that does not
// answer is left alone after the third timeout.
module OperatorRuns {
  import opened Wire
  import opened BusExchange
  import opened Scheduler
  import opened PeriodicTasks
  import opened OperatingMode
  import opened Starvation

  predicate Tasks(s: Sched, first: Task, second: Task) {
    && |s.tasks| == MAX_TASKS && s.tasks[0] == first && s.tasks[1] == second
    && (forall k | 2 <= k < MAX_TASKS :: s.tasks[k] == EMPTY_TASK)
  }

  predicate Says(m: Controller, focus: Option<nat>, tcs: bool, streak: nat, cool: nat) {
    m == Mode(focus, [false, tcs, false, false, false], [0, streak, 0, 0, 0], [0, cool, 0, 0, 0])
  }

  lemma FiveSteps(m: Controller, s: Sched)
    ensures NodeSteps(m, s, NODE_COUNT)
      == ApplyPolicy(m, ApplyPolicy(m, ApplyPolicy(m, ApplyPolicy(m, ApplyPolicy(m, s, TCS), PSS), 2), 3), 4)
  {
    hide ApplyPolicy;
    assert NodeSteps(m, s, 1) == ApplyPolicy(m, s, TCS);
    assert NodeSteps(m, s, 3) == ApplyPolicy(m, NodeSteps(m, s, 2), 2);
  }

  // A node that is neither in the background nor in focus and has no task: nothing happens.
  lemma OffStep(m: Controller, s: Sched, n: nat, tcs: bool, streak: nat, cool: nat, focus: Option<nat>)
    requires Says(m, focus, tcs, streak, cool) && n < NODE_COUNT && n != TCS && focus != Some(n)
    requires FindPeriodic(s.tasks, n, 0) == None
    ensures ApplyPolicy(m, s, n) == s
  {
    hide FindPeriodic;
  }

  lemma NotFound(s: Sched, first: Task, second: Task, n: nat)
    requires Tasks(s, first, second) && !IsPeriodic(first, n) && !IsPeriodic(second, n)
    ensures FindPeriodic(s.tasks, n, 0) == None
  {
  }

  // --- focus from reset --------------------------------------------------------------------

  const FOCUS_PSS: Input := Input([Focus(PSS)], false, None)

  lemma TcsMade(m: Controller, s: Sched, focus: Option<nat>)
    requires Says(m, focus, true, 0, 0) && focus != Some(TCS) && s == FRESH
    ensures var r := ApplyPolicy(m, s, TCS);
      && Tasks(r, Poll(TCS, 1, true, false, Normal), EMPTY_TASK) && r.normal == [0] && r.priority == []
      && r.active == None && r.burst == 0 && r.nextId == 2 && r.completions == []
  {
    assert FindPeriodic(s.tasks, TCS, 0) == None && AllocSlot(s.tasks, 0) == Some(0);
  }

  lemma PssMade(m: Controller, s: Sched)
    requires Says(m, Some(PSS), true, 0, 0) && Tasks(s, Poll(TCS, 1, true, false, Normal), EMPTY_TASK)
    requires s.normal == [0] && s.priority == [] && s.active == None && s.burst == 0 && s.nextId == 2
    ensures var r := ApplyPolicy(m, s, PSS);
      && Tasks(r, Poll(TCS, 1, true, false, Normal), Poll(PSS, 2, true, false, Priority)) && r.normal == [0] && r.priority == [1]
      && r.active == None && r.burst == 0
  {
    assert FindPeriodic(s.tasks, PSS, 0) == None && AllocSlot(s.tasks, 0) == AllocSlot(s.tasks, 1) == Some(1);
  }

  lemma PssPopped(s: Sched)
    requires Tasks(s, Poll(TCS, 1, true, false, Normal), Poll(PSS, 2, true, false, Priority))
    requires s.normal == [0] && s.priority == [1] && s.active == None && s.burst == 0
    ensures var r := MarkArmed(ExchangeControl(s, None));
      r.active == Some(1) && |r.tasks| == MAX_TASKS && r.tasks[1] == Poll(PSS, 2, false, true, Priority)
  {
  }

  // After reset the operator gives the focus to PSS, which is not in the background: in the same tick PSS
  // gets its task, in the priority queue, and its first exchange starts ahead of that of TCS.
  lemma FocusStartsAtOnce()
    ensures Proper(FOCUS_PSS)
    ensures PeriodicClass(MidTick(START, FOCUS_PSS).sched.tasks, PSS) == Some(Priority)
    ensures PeriodicClass(MidTick(START, FOCUS_PSS).sched.tasks, TCS) == Some(Normal)
    ensures Starts(START, FOCUS_PSS, PSS)
  {
    OneControl(START, Focus(PSS));
    FocusMode();
    var t := ModeTick(PerformAll(START, FOCUS_PSS.controls));
    FocusSteps(t.mode, t.sched);
    var s := NodeSteps(t.mode, t.sched, NODE_COUNT);
    PssPopped(s);
    BothFound(s);
    hide ApplyPolicy, NodeSteps, ExchangeControl, MarkArmed, PeriodicClass, PerformAll, ModeTick;
  }

  lemma FocusMode()
    ensures Proper(FOCUS_PSS)
    ensures var t := ModeTick(PerformAll(START, FOCUS_PSS.controls)); Says(t.mode, Some(PSS), true, 0, 0) && t.sched == FRESH
  {
    OneControl(START, Focus(PSS));
    var t := ModeTick(PerformAll(START, FOCUS_PSS.controls));
    assert t.mode.background == [false, true, false, false, false];
    assert t.mode.streak == [0, 0, 0, 0, 0] && t.mode.cooldown == [0, 0, 0, 0, 0];
  }

  lemma FocusSteps(m: Controller, s: Sched)
    requires Says(m, Some(PSS), true, 0, 0) && s == FRESH
    ensures var r := NodeSteps(m, s, NODE_COUNT);
      && Tasks(r, Poll(TCS, 1, true, false, Normal), Poll(PSS, 2, true, false, Priority)) && r.normal == [0] && r.priority == [1]
      && r.active == None && r.burst == 0
  {
    hide ApplyPolicy, NodeSteps, FindPeriodic;
    var tcs, pss := Poll(TCS, 1, true, false, Normal), Poll(PSS, 2, true, false, Priority);
    var one := ApplyPolicy(m, s, TCS);
    var two := ApplyPolicy(m, one, PSS);
    FiveSteps(m, s);
    TcsMade(m, s, Some(PSS));
    PssMade(m, one);
    OthersOff(m, two, tcs, pss, true, 0, 0, Some(PSS));
  }

  // TMS, MNS and LS, which are off and have no task.
  lemma OthersOff(m: Controller, s: Sched, first: Task, second: Task, tcs: bool, streak: nat, cool: nat, focus: Option<nat>)
    requires Says(m, focus, tcs, streak, cool) && (focus == None || focus == Some(PSS))
    requires Tasks(s, first, second) && forall n | 2 <= n < NODE_COUNT :: !IsPeriodic(first, n) && !IsPeriodic(second, n)
    ensures ApplyPolicy(m, s, 2) == s && ApplyPolicy(m, s, 3) == s && ApplyPolicy(m, s, 4) == s
  {
    hide ApplyPolicy, FindPeriodic, Tasks, Says, IsPeriodic;
    forall n | 2 <= n < NODE_COUNT ensures ApplyPolicy(m, s, n) == s {
      NotFound(s, first, second, n);
      OffStep(m, s, n, tcs, streak, cool, focus);
    }
  }

  lemma BothFound(s: Sched)
    requires Tasks(s, Poll(TCS, 1, true, false, Normal), Poll(PSS, 2, true, false, Priority))
    ensures PeriodicClass(s.tasks, PSS) == Some(Priority) && PeriodicClass(s.tasks, TCS) == Some(Normal)
  {
    assert FindPeriodic(s.tasks, TCS, 0) == Some(0) && FindPeriodic(s.tasks, PSS, 0) == Some(1);
  }

  // --- a node that does not answer ---------------------------------------------------------

  // An exchange that takes some ticks and times out, and the tick after its end.
  function Timeouts(more: nat): (ins: seq<Input>)
    ensures |ins| == more + 2 && AllProper(ins)
  {
    seq(more, _ => Input([], true, None)) + [Input([], false, Some(Timeout)), Input([], false, None)]
  }

  // TCS is in flight after k timeouts in a row.
  predicate Trying(c: Cs, k: nat) {
    && Says(c.mode, None, true, k, 0) && Tasks(c.sched, Poll(TCS, 1, false, true, Normal), EMPTY_TASK)
    && c.sched.normal == [] && c.sched.priority == [] && c.sched.active == Some(0) && c.sched.burst == 0 && c.sched.completions == []
  }

  // Its exchange has just timed out.
  predicate TimedOut(c: Cs, k: nat) {
    && Says(c.mode, None, true, k, 0) && Tasks(c.sched, Poll(TCS, 1, true, false, Normal), EMPTY_TASK)
    && c.sched.normal == [0] && c.sched.priority == [] && c.sched.active == None && c.sched.burst == 0
    && c.sched.completions == [Completion(1, Tcs, DataTask, true, Timeout)]
  }

  // TCS is left alone.
  predicate Resting(c: Cs) {
    Says(c.mode, None, true, 3, 95) && c.sched.active == None && c.sched.normal == [] && c.sched.priority == []
    && PeriodicClass(c.sched.tasks, TCS) == None
  }

  lemma TcsKept(m: Controller, s: Sched, k: nat, t: Task)
    requires Says(m, None, true, k, 0) && Tasks(s, t, EMPTY_TASK) && IsPeriodic(t, TCS) && t.enabled && t.queue == Normal
    ensures NodeSteps(m, s, NODE_COUNT) == s
  {
    hide ApplyPolicy, NodeSteps, FindPeriodic;
    FiveSteps(m, s);
    TcsStays(m, s, k, t);
    PssOff(m, s, t, k, 0);
    OthersOff(m, s, t, EMPTY_TASK, true, k, 0, None);
  }

  lemma TcsStays(m: Controller, s: Sched, k: nat, t: Task)
    requires Says(m, None, true, k, 0) && Tasks(s, t, EMPTY_TASK) && IsPeriodic(t, TCS) && t.enabled && t.queue == Normal
    ensures ApplyPolicy(m, s, TCS) == s
  {
    assert FindPeriodic(s.tasks, TCS, 0) == Some(0);
    assert SetTask(s, 0, s.tasks[0].(enabled := true)) == s;
  }

  lemma PssOff(m: Controller, s: Sched, t: Task, k: nat, cool: nat)
    requires Says(m, None, true, k, cool) && Tasks(s, t, EMPTY_TASK) && !IsPeriodic(t, PSS)
    ensures ApplyPolicy(m, s, PSS) == s
  {
    hide ApplyPolicy, FindPeriodic;
    NotFound(s, t, EMPTY_TASK, PSS);
    OffStep(m, s, PSS, true, k, cool, None);
  }

  lemma SameMode(c: Cs, k: nat)
    requires Says(c.mode, None, true, k, 0) && c.sched.completions == []
    ensures ModeTick(c).mode == c.mode && ModeTick(c).sched == c.sched
  {
    var t := ModeTick(c);
    assert t.mode.streak == [0, k, 0, 0, 0] && t.mode.cooldown == [0, 0, 0, 0, 0];
  }

  lemma BusyTick(c: Cs, k: nat)
    requires Trying(c, k)
    ensures Trying(CsTick(c, Input([], true, None)), k)
  {
    NoControls(c);
    SameMode(c, k);
    TcsKept(c.mode, c.sched, k, Poll(TCS, 1, false, true, Normal));
    hide NodeSteps, ModeTick;
  }

  lemma TimeoutTick(c: Cs, k: nat)
    requires Trying(c, k)
    ensures TimedOut(CsTick(c, Input([], false, Some(Timeout))), k)
  {
    NoControls(c);
    SameMode(c, k);
    TcsKept(c.mode, c.sched, k, Poll(TCS, 1, false, true, Normal));
    hide NodeSteps, ModeTick;
  }

  // The mode consumes the completion.
  lemma Consumed(c: Cs, k: nat)
    requires TimedOut(c, k) && k <= 2
    ensures ModeTick(c).sched == c.sched.(completions := [])
    ensures if k < 2 then Says(ModeTick(c).mode, None, true, k + 1, 0) else Says(ModeTick(c).mode, None, true, 3, 95)
  {
    assert FeedbackAll(c.mode, c.sched.completions) == Feedback(c.mode, c.sched.completions[0]);
    var t := ModeTick(c);
    assert t.mode.streak == [0, k + 1, 0, 0, 0];
    assert t.mode.cooldown == [0, if k < 2 then 0 else 95, 0, 0, 0];
  }

  lemma AgainTick(c: Cs, k: nat)
    requires TimedOut(c, k) && k < 2
    ensures Trying(CsTick(c, Input([], false, None)), k + 1)
  {
    NoControls(c);
    Consumed(c, k);
    var t := ModeTick(c);
    TcsKept(t.mode, t.sched, k + 1, Poll(TCS, 1, true, false, Normal));
    hide NodeSteps, ModeTick;
  }

  predicate Bare(s: Sched) {
    Tasks(s, EMPTY_TASK, EMPTY_TASK) && s.normal == [] && s.priority == [] && s.active == None && s.burst == 0
  }

  lemma TcsDropped(m: Controller, s: Sched)
    requires Says(m, None, true, 3, 95) && Tasks(s, Poll(TCS, 1, true, false, Normal), EMPTY_TASK)
    requires s.normal == [0] && s.priority == [] && s.active == None && s.burst == 0
    ensures Bare(NodeSteps(m, s, NODE_COUNT))
  {
    hide ApplyPolicy, NodeSteps, FindPeriodic;
    FiveSteps(m, s);
    DropStep(m, s);
    var r := ApplyPolicy(m, s, TCS);
    PssOff(m, r, EMPTY_TASK, 3, 95);
    OthersOff(m, r, EMPTY_TASK, EMPTY_TASK, true, 3, 95, None);
  }

  lemma DropStep(m: Controller, s: Sched)
    requires Says(m, None, true, 3, 95) && Tasks(s, Poll(TCS, 1, true, false, Normal), EMPTY_TASK)
    requires s.normal == [0] && s.priority == [] && s.active == None && s.burst == 0
    ensures Bare(ApplyPolicy(m, s, TCS))
  {
    assert FindPeriodic(s.tasks, TCS, 0) == Some(0);
    assert RemoveFirst([0], 0) == [] && RemoveFirst([], 0) == [];
  }

  lemma NothingPopped(s: Sched)
    requires Bare(s)
    ensures var r := MarkArmed(ExchangeControl(s, None));
      r.active == None && r.normal == [] && r.priority == [] && r.tasks == s.tasks && PeriodicClass(r.tasks, TCS) == None
  {
    assert FindPeriodic(s.tasks, TCS, 0) == None;
  }

  lemma RestTick(c: Cs)
    requires TimedOut(c, 2)
    ensures Resting(CsTick(c, Input([], false, None)))
  {
    NoControls(c);
    Consumed(c, 2);
    var t := ModeTick(c);
    TcsDropped(t.mode, t.sched);
    NothingPopped(NodeSteps(t.mode, t.sched, NODE_COUNT));
    hide NodeSteps, ModeTick, ExchangeControl, MarkArmed;
  }

  const FIRST_TICK: seq<Input> := [Input([], false, None)]

  lemma FirstSteps(m: Controller, s: Sched)
    requires Says(m, None, true, 0, 0) && s == FRESH
    ensures var r := NodeSteps(m, s, NODE_COUNT);
      && Tasks(r, Poll(TCS, 1, true, false, Normal), EMPTY_TASK) && r.normal == [0] && r.priority == []
      && r.active == None && r.burst == 0 && r.completions == []
  {
    hide ApplyPolicy, NodeSteps, FindPeriodic;
    var tcs := Poll(TCS, 1, true, false, Normal);
    FiveSteps(m, s);
    TcsMade(m, s, None);
    var r := ApplyPolicy(m, s, TCS);
    PssOff(m, r, tcs, 0, 0);
    OthersOff(m, r, tcs, EMPTY_TASK, true, 0, 0, None);
  }

  lemma TcsTried(c: Cs)
    requires c == START
    ensures Trying(CsTick(c, Input([], false, None)), 0)
  {
    NoControls(c);
    SameMode(c, 0);
    FirstSteps(c.mode, c.sched);
    hide NodeSteps, ModeTick;
  }

  function AllTimeouts(more: seq<nat>): (ins: seq<Input>)
    ensures AllProper(ins)
  {
    if |more| == 0 then [] else AllTimeouts(more[..|more| - 1]) + Timeouts(more[|more| - 1])
  }

  lemma {:induction false} StillBusy(c: Cs, k: nat, more: nat, j: nat)
    requires Trying(c, k) && j <= more
    ensures Trying(RunTicks(c, Timeouts(more), j), k)
    decreases j
  {
    hide CsTick, Trying;
    if j > 0 {
      StillBusy(c, k, more, j - 1);
      BusyTick(RunTicks(c, Timeouts(more), j - 1), k);
    }
  }

  // One exchange that times out, and the tick that consumes it.
  lemma OneTimeout(c: Cs, k: nat, more: nat)
    requires Trying(c, k) && k <= 2
    ensures TimedOut(RunTicks(c, Timeouts(more), more + 1), k)
    ensures var r := RunTicks(c, Timeouts(more), more + 2); if k < 2 then Trying(r, k + 1) else Resting(r)
  {
    hide CsTick, Trying, TimedOut, Resting;
    StillBusy(c, k, more, more);
    TimeoutTick(RunTicks(c, Timeouts(more), more), k);
    if k < 2 { AgainTick(RunTicks(c, Timeouts(more), more + 1), k); } else { RestTick(RunTicks(c, Timeouts(more), more + 1)); }
  }

  predicate Calm(c: Cs) { c.mode.cooldown == [0, 0, 0, 0, 0] }

  lemma TriedIsCalm(c: Cs, k: nat)
    requires Trying(c, k) || TimedOut(c, k)
    ensures Calm(c)
  {
  }

  lemma CalmUntilConsumed(c: Cs, k: nat, more: nat, j: nat)
    requires Trying(c, k) && k <= 2 && j <= more + 1
    ensures Calm(RunTicks(c, Timeouts(more), j))
  {
    hide RunTicks, Trying, TimedOut, Resting, Calm;
    OneTimeout(c, k, more);
    if j <= more { StillBusy(c, k, more, j); }
    TriedIsCalm(RunTicks(c, Timeouts(more), j), k);
  }

  predicate CalmBefore(c: Cs, ins: seq<Input>, n: nat)
    requires AllProper(ins)
  {
    forall j | 0 <= j < n && j <= |ins| :: Calm(RunTicks(c, ins, j))
  }

  lemma {:induction false} TimeoutsGo(c: Cs, more: seq<nat>)
    requires Trying(c, 0) && |more| <= 3
    ensures CalmBefore(c, AllTimeouts(more), |AllTimeouts(more)|)
    ensures var r := RunTicks(c, AllTimeouts(more), |AllTimeouts(more)|); if |more| < 3 then Trying(r, |more|) else Resting(r)
    decreases |more|
  {
    hide RunTicks, Trying, Resting, Calm, Timeouts;
    if |more| == 0 {
      NoTicks(c);
    } else {
      var k := |more| - 1;
      var a, b := AllTimeouts(more[..k]), Timeouts(more[k]);
      TimeoutsGo(c, more[..k]);
      var d := RunTicks(c, a, |a|);
      OneTimeout(d, k, more[k]);
      forall j | 0 <= j < |a + b| ensures Calm(RunTicks(c, a + b, j)) {
        if j < |a| {
          TicksPrefix(c, a, b, j);
        } else {
          TicksAppend(c, a, b, j - |a|);
          CalmUntilConsumed(d, k, more[k], j - |a|);
        }
      }
      TicksAppend(c, a, b, |b|);
    }
  }

  // TCS is absent: its first three exchanges from reset time out, however long each of them takes. No
  // cooldown runs before the third timeout is consumed; the tick that consumes it starts the cooldown of
  // 96, of which it counts one down, and takes away the task of TCS.
  lemma ThreeTimeoutsFromReset(more: seq<nat>)
    requires |more| == 3
    ensures var ins := FIRST_TICK + AllTimeouts(more);
      AllProper(ins) && CalmBefore(START, ins, |ins|) && Resting(RunTicks(START, ins, |ins|))
  {
    hide CsTick, Trying, Resting, AllTimeouts, Calm;
    var a, b := FIRST_TICK, AllTimeouts(more);
    var c := RunTicks(START, a, 1);
    assert RunTicks(START, a, 0) == START;
    TcsTried(START);
    TimeoutsGo(c, more);
    StartCalm();
    hide RunTicks;
    forall j | 0 <= j < |a + b| ensures Calm(RunTicks(START, a + b, j)) {
      if j < 1 { TicksPrefix(START, a, b, j); } else { TicksAppend(START, a, b, j - 1); }
    }
    TicksAppend(START, a, b, |b|);
  }

  lemma StartCalm()
    ensures Calm(START)
  {
  }
}
