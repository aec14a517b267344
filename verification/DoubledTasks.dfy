// What a second periodic task of a node breaks: a cooldown no longer keeps its exchanges from starting.
module DoubledTasks {
  import opened Wire
  import opened Scheduler
  import opened SchedulerInvariant
  import opened OperatingMode

  const TCS: nat := 1

  // TCS is cooling down and nothing is queued.
  const COOLING: Cs := Cs(Mode(None, [false, true, false, false, false], [0, 3, 0, 0, 0], [0, 50, 0, 0, 0]), FRESH)

  const REQUEST: OperatingMode.Control := OnScheduler(EnqueueExchange(Tcs, Normal, true))

  // Two bare periodic requests in one tick.
  const TWICE: Input := Input([REQUEST, REQUEST], false, None)

  function Poll(id: nat): Task { NewTask(DataRequest(TCS, Normal, true), id).(queued := true) }

  predicate Only(s: Sched, first: Task, second: Task) {
    && |s.tasks| == MAX_TASKS && s.tasks[0] == first && s.tasks[1] == second
    && (forall k | 2 <= k < MAX_TASKS :: s.tasks[k] == EMPTY_TASK)
    && s.priority == [] && s.burst == 0 && s.active == None && s.completions == []
  }

  lemma BothAsked()
    ensures Proper(TWICE)
    ensures var r := PerformAll(COOLING, TWICE.controls);
      r.mode == COOLING.mode && Only(r.sched, Poll(1), Poll(2)) && r.sched.normal == [0, 1]
  {
    var op := EnqueueExchange(Tcs, Normal, true);
    var one := Apply(FRESH, op);
    assert AllocSlot(FRESH.tasks, 0) == Some(0);
    assert Only(one, Poll(1), EMPTY_TASK) && one.normal == [0] && one.nextId == 2;
    var two := Apply(one, op);
    assert AllocSlot(one.tasks, 0) == AllocSlot(one.tasks, 1) == Some(1);
    assert Only(two, Poll(1), Poll(2)) && two.normal == [0, 1];
    hide Apply, Only;
    var cs := TWICE.controls;
    assert cs[..2 - 1] == [REQUEST] && [REQUEST][..1 - 1] == [];
    assert PerformAll(COOLING, [REQUEST]) == Perform(PerformAll(COOLING, []), REQUEST);
  }

  // The step of TCS cancels one of the two.
  lemma OneCancelled(m: Controller, s: Sched)
    requires m.focus == None && m.background == [false, true, false, false, false] && m.cooldown == [0, 49, 0, 0, 0]
    requires Only(s, Poll(1), Poll(2)) && s.normal == [0, 1]
    ensures var r := NodeSteps(m, s, NODE_COUNT); Only(r, EMPTY_TASK, Poll(2)) && r.normal == [1]
  {
    var r := ApplyPolicy(m, s, TCS);
    assert FindPeriodic(s.tasks, TCS, 0) == Some(0);
    assert RemoveFirst([0, 1], 0) == [1] && RemoveFirst([], 0) == [];
    assert Only(r, EMPTY_TASK, Poll(2)) && r.normal == [1];
    NothingToCancel(m, r, 0);
    NothingToCancel(m, r, 2);
    NothingToCancel(m, r, 3);
    NothingToCancel(m, r, 4);
    hide ApplyPolicy;
    assert NodeSteps(m, s, 1) == r && NodeSteps(m, s, 2) == r && NodeSteps(m, s, 3) == r && NodeSteps(m, s, 4) == r;
  }

  lemma NothingToCancel(m: Controller, s: Sched, n: nat)
    requires m.focus == None && m.background == [false, true, false, false, false] && m.cooldown == [0, 49, 0, 0, 0]
    requires Only(s, EMPTY_TASK, Poll(2)) && n < NODE_COUNT && n != TCS
    ensures ApplyPolicy(m, s, n) == s
  {
    assert FindPeriodic(s.tasks, n, 0) == None;
  }

  lemma OtherStarts(s: Sched)
    requires Only(s, EMPTY_TASK, Poll(2)) && s.normal == [1]
    ensures var r := MarkArmed(ExchangeControl(s, None)); r.active == Some(1) && |r.tasks| == MAX_TASKS && IsPeriodic(r.tasks[1], TCS)
  {
  }

  // The other one starts, with 50 ticks of the cooldown to go and no pardon.
  lemma CooldownIsBypassed()
    ensures Proper(TWICE) && CsOk(COOLING) && COOLING.mode.cooldown[TCS] == 50 && NoPardon(COOLING, TWICE, TCS)
    ensures !SingleAll(COOLING, TWICE.controls) && Starts(COOLING, TWICE, TCS)
  {
    BothAsked();
    CoolingOk();
    var p := PerformAll(COOLING, TWICE.controls);
    var t := ModeTick(p);
    assert t.mode.cooldown == [0, 49, 0, 0, 0];
    OneCancelled(t.mode, t.sched);
    OtherStarts(NodeSteps(t.mode, t.sched, NODE_COUNT));
    hide NodeSteps, ExchangeControl, MarkArmed, CsOk;
    if SingleAll(COOLING, TWICE.controls) {
      hide Starts;
      StartsOnlyIfAllowed(COOLING, TWICE, TCS);
    }
  }

  lemma CoolingOk()
    ensures CsOk(COOLING)
  {
    FreshInv();
    forall n | 0 <= n < NODE_COUNT ensures NodeOk(COOLING.mode, n) {
    }
  }
}
