// A periodic task that starves although the program runs as it should: its node gets the focus in every
// exchange of another node and loses it right after.
module Starvation {
  import opened Wire
  import opened BusExchange
  import opened Scheduler
  import opened Reclassing
  import opened OperatingMode

  const PSS: nat := 0
  const TCS: nat := 1

  // --- one round ---------------------------------------------------------------------------

  // PSS gets the focus while an exchange is under way, which takes some more ticks and succeeds; in the
  // tick after its end PSS loses the focus.
  function Round(more: nat): (ins: seq<Input>)
    ensures |ins| == more + 3 && AllProper(ins)
  {
    [Input([Focus(PSS)], true, None)] + seq(more, _ => Input([], true, None))
    + [Input([], false, Some(Success)), Input([ClearFocus], false, None)]
  }

  function Rounds(more: seq<nat>): (ins: seq<Input>)
    ensures AllProper(ins)
  {
    if |more| == 0 then [] else Rounds(more[..|more| - 1]) + Round(more[|more| - 1])
  }

  // The operator lets PSS be exchanged with in the background, like TCS.
  const OPENING: seq<Input> := [Input([Background(PSS, true)], false, None)]

  // --- the states of a round ---------------------------------------------------------------

  // The periodic task of a node.
  function Poll(node: nat, id: nat, queued: bool, active: bool, q: QueueClass): Task {
    Task(true, queued, active, active, true, true, false, id, DataTask, q, Some(node), 0, 1.0, false)
  }

  // TCS has slot 0 and PSS slot 1, and there are no other tasks.
  predicate TwoPolls(s: Sched, tcs: Task, pss: Task) {
    && |s.tasks| == MAX_TASKS && s.tasks[0] == tcs && s.tasks[1] == pss
    && (forall k | 2 <= k < MAX_TASKS :: s.tasks[k] == EMPTY_TASK)
    && s.burst == 0
  }

  predicate Watching(m: Controller, focus: Option<nat>) {
    m == Mode(focus, [true, true, false, false, false], [0, 0, 0, 0, 0], [0, 0, 0, 0, 0])
  }

  // TCS is in flight and PSS waits in the normal queue.
  predicate Polling(c: Cs) {
    && Watching(c.mode, None) && TwoPolls(c.sched, Poll(TCS, 1, false, true, Normal), Poll(PSS, 2, true, false, Normal))
    && c.sched.normal == [1] && c.sched.priority == [] && c.sched.active == Some(0) && c.sched.completions == []
  }

  // TCS is in flight and PSS waits in the priority queue.
  predicate Focused(c: Cs) {
    && Watching(c.mode, Some(PSS)) && TwoPolls(c.sched, Poll(TCS, 1, false, true, Normal), Poll(PSS, 2, true, false, Priority))
    && c.sched.normal == [] && c.sched.priority == [1] && c.sched.active == Some(0) && c.sched.completions == []
  }

  // The exchange of TCS has been completed.
  predicate Completed(c: Cs) {
    && Watching(c.mode, Some(PSS)) && TwoPolls(c.sched, Poll(TCS, 1, true, false, Normal), Poll(PSS, 2, true, false, Priority))
    && c.sched.normal == [0] && c.sched.priority == [1] && c.sched.active == None
    && c.sched.completions == [Completion(1, Tcs, DataTask, true, Success)]
  }

  // --- the node steps ----------------------------------------------------------------------

  predicate OnlyPolls(s: Sched) {
    && |s.tasks| == MAX_TASKS && IsPeriodic(s.tasks[0], TCS) && IsPeriodic(s.tasks[1], PSS)
    && s.tasks[0].enabled && s.tasks[1].enabled && s.tasks[0].queue == Normal
    && forall k | 2 <= k < MAX_TASKS :: s.tasks[k] == EMPTY_TASK
  }

  lemma PollFound(s: Sched)
    requires OnlyPolls(s)
    ensures FindPeriodic(s.tasks, TCS, 0) == Some(0) && FindPeriodic(s.tasks, PSS, 0) == Some(1)
    ensures FindPeriodic(s.tasks, 2, 0) == None && FindPeriodic(s.tasks, 3, 0) == None && FindPeriodic(s.tasks, 4, 0) == None
  {
  }

  lemma ReclassKeepsPolls(s: Sched, q: QueueClass)
    requires OnlyPolls(s)
    ensures OnlyPolls(UpdateClass(s, 1, q))
  {
  }

  lemma TcsStep(m: Controller, s: Sched)
    requires (Watching(m, None) || Watching(m, Some(PSS))) && OnlyPolls(s)
    ensures ApplyPolicy(m, s, TCS) == s
  {
    PollFound(s);
    assert SetTask(s, 0, s.tasks[0].(enabled := true)) == s;
  }

  lemma PssStep(m: Controller, s: Sched)
    requires (Watching(m, None) || Watching(m, Some(PSS))) && OnlyPolls(s)
    ensures ApplyPolicy(m, s, PSS) == UpdateClass(s, 1, QueueFor(m, PSS))
  {
    PollFound(s);
    hide UpdateClass;
    assert SetTask(s, 1, s.tasks[1].(enabled := true)) == s;
  }

  lemma OtherStep(m: Controller, s: Sched, n: nat)
    requires (Watching(m, None) || Watching(m, Some(PSS))) && OnlyPolls(s) && 2 <= n < NODE_COUNT
    ensures ApplyPolicy(m, s, n) == s
  {
    PollFound(s);
  }

  // The node steps reclass the task of PSS and do nothing else.
  lemma StepsReclass(m: Controller, s: Sched)
    requires (Watching(m, None) || Watching(m, Some(PSS))) && OnlyPolls(s)
    ensures NodeSteps(m, s, NODE_COUNT) == UpdateClass(s, 1, QueueFor(m, PSS))
  {
    hide UpdateClass, ApplyPolicy, OnlyPolls, Watching;
    var r := UpdateClass(s, 1, QueueFor(m, PSS));
    ReclassKeepsPolls(s, QueueFor(m, PSS));
    TcsStep(m, s);
    PssStep(m, s);
    OtherStep(m, r, 2);
    OtherStep(m, r, 3);
    OtherStep(m, r, 4);
    assert NodeSteps(m, s, 1) == s && NodeSteps(m, s, 2) == r && NodeSteps(m, s, 3) == r && NodeSteps(m, s, 4) == r;
  }

  // --- tick by tick ------------------------------------------------------------------------

  lemma NoControls(c: Cs)
    ensures PerformAll(c, []) == c
  {
  }

  lemma OneControl(c: Cs, ctl: OperatingMode.Control)
    requires Operator(ctl)
    ensures Operators([ctl]) && PerformAll(c, [ctl]) == Perform(c, ctl)
  {
    assert [ctl][..0] == [];
  }

  lemma FocusTick(c: Cs)
    requires Polling(c)
    ensures Focused(CsTick(c, Input([Focus(PSS)], true, None)))
  {
    OneControl(c, Focus(PSS));
    var p := PerformAll(c, [Focus(PSS)]);
    var t := ModeTick(p);
    assert t.mode.streak == [0, 0, 0, 0, 0] && t.mode.cooldown == [0, 0, 0, 0, 0];
    StepsReclass(t.mode, t.sched);
    hide NodeSteps;
  }

  lemma QuietTick(c: Cs)
    requires Focused(c)
    ensures Focused(CsTick(c, Input([], true, None)))
  {
    NoControls(c);
    var t := ModeTick(c);
    assert t.mode.streak == [0, 0, 0, 0, 0] && t.mode.cooldown == [0, 0, 0, 0, 0];
    StepsReclass(t.mode, t.sched);
    hide NodeSteps;
  }

  lemma EndTick(c: Cs)
    requires Focused(c)
    ensures Completed(CsTick(c, Input([], false, Some(Success))))
  {
    NoControls(c);
    var t := ModeTick(c);
    assert t.mode.streak == [0, 0, 0, 0, 0] && t.mode.cooldown == [0, 0, 0, 0, 0];
    StepsReclass(t.mode, t.sched);
    hide NodeSteps;
  }

  // PSS goes to the back of the normal queue, behind TCS.
  lemma BehindTcs(s: Sched)
    requires TwoPolls(s, Poll(TCS, 1, true, false, Normal), Poll(PSS, 2, true, false, Priority))
    requires s.normal == [0] && s.priority == [1] && s.active == None
    ensures var r := UpdateClass(s, 1, Normal);
      && TwoPolls(r, Poll(TCS, 1, true, false, Normal), Poll(PSS, 2, true, false, Normal))
      && r.normal == [0, 1] && r.priority == [] && r.active == None && r.completions == s.completions
  {
    assert RemoveFirst([], 1) == [] && RemoveFirst([0], 1) == [0] && RemoveFirst([1], 1) == [];
  }

  lemma TcsPopped(s: Sched)
    requires TwoPolls(s, Poll(TCS, 1, true, false, Normal), Poll(PSS, 2, true, false, Normal))
    requires s.normal == [0, 1] && s.priority == [] && s.active == None
    ensures var r := MarkArmed(ExchangeControl(s, None));
      && TwoPolls(r, Poll(TCS, 1, false, true, Normal), Poll(PSS, 2, true, false, Normal))
      && r.normal == [1] && r.priority == [] && r.active == Some(0) && r.completions == s.completions
  {
  }

  lemma UnfocusTick(c: Cs)
    requires Completed(c)
    ensures Polling(CsTick(c, Input([ClearFocus], false, None)))
    ensures Starts(c, Input([ClearFocus], false, None), TCS)
  {
    OneControl(c, ClearFocus);
    var p := PerformAll(c, [ClearFocus]);
    var t := ModeTick(p);
    assert FeedbackAll(p.mode, p.sched.completions) == Feedback(p.mode, p.sched.completions[0]);
    assert t.mode.streak == [0, 0, 0, 0, 0] && t.mode.cooldown == [0, 0, 0, 0, 0];
    StepsReclass(t.mode, t.sched);
    BehindTcs(t.sched);
    TcsPopped(UpdateClass(t.sched, 1, Normal));
    hide NodeSteps, UpdateClass, ExchangeControl, MarkArmed;
  }

  lemma OpeningTick()
    ensures Polling(RunTicks(START, OPENING, 1))
  {
    var c := START;
    OneControl(c, Background(PSS, true));
    var t := ModeTick(PerformAll(c, [Background(PSS, true)]));
    assert t.mode.background == [true, true, false, false, false];
    assert t.mode.streak == [0, 0, 0, 0, 0] && t.mode.cooldown == [0, 0, 0, 0, 0];
    OpeningSteps(t.mode, t.sched);
    TcsPopped(NodeSteps(t.mode, t.sched, NODE_COUNT));
    hide NodeSteps, ExchangeControl, MarkArmed;
    assert RunTicks(c, OPENING, 1) == CsTick(RunTicks(c, OPENING, 0), OPENING[0]);
  }

  // The first node steps make both tasks.
  lemma OpeningSteps(m: Controller, s: Sched)
    requires Watching(m, None) && s == FRESH
    ensures var r := NodeSteps(m, s, NODE_COUNT);
      && TwoPolls(r, Poll(TCS, 1, true, false, Normal), Poll(PSS, 2, true, false, Normal))
      && r.normal == [0, 1] && r.priority == [] && r.active == None && r.completions == []
  {
    var one, two := ApplyPolicy(m, s, TCS), ApplyPolicy(m, ApplyPolicy(m, s, TCS), PSS);
    FirstPoll(m, s);
    SecondPoll(m, one);
    OtherStep(m, two, 2);
    OtherStep(m, two, 3);
    OtherStep(m, two, 4);
    hide ApplyPolicy;
    assert NodeSteps(m, s, 1) == one && NodeSteps(m, s, 2) == two && NodeSteps(m, s, 3) == two && NodeSteps(m, s, 4) == two;
  }

  lemma FirstPoll(m: Controller, s: Sched)
    requires Watching(m, None) && s == FRESH
    ensures var r := ApplyPolicy(m, s, TCS);
      && TwoPolls(r, Poll(TCS, 1, true, false, Normal), EMPTY_TASK)
      && r.normal == [0] && r.priority == [] && r.active == None && r.completions == [] && r.nextId == 2
  {
    assert FindPeriodic(s.tasks, TCS, 0) == None;
    assert AllocSlot(s.tasks, 0) == Some(0);
  }

  lemma SecondPoll(m: Controller, s: Sched)
    requires Watching(m, None) && TwoPolls(s, Poll(TCS, 1, true, false, Normal), EMPTY_TASK) && s.nextId == 2
    requires s.normal == [0] && s.priority == [] && s.active == None
    ensures var r := ApplyPolicy(m, s, PSS);
      && TwoPolls(r, Poll(TCS, 1, true, false, Normal), Poll(PSS, 2, true, false, Normal))
      && r.normal == [0, 1] && r.priority == [] && r.active == None && r.completions == s.completions
  {
    assert FindPeriodic(s.tasks, PSS, 0) == None;
    assert AllocSlot(s.tasks, 0) == AllocSlot(s.tasks, 1) == Some(1);
  }

  // --- runs --------------------------------------------------------------------------------

  lemma {:induction false} TicksPrefix(c: Cs, a: seq<Input>, b: seq<Input>, n: nat)
    requires AllProper(a) && AllProper(a + b) && n <= |a|
    ensures RunTicks(c, a + b, n) == RunTicks(c, a, n)
  {
    hide CsTick;
    if n > 0 { TicksPrefix(c, a, b, n - 1); }
  }

  lemma {:induction false} TicksAppend(c: Cs, a: seq<Input>, b: seq<Input>, k: nat)
    requires AllProper(a) && AllProper(b) && AllProper(a + b) && k <= |b|
    ensures RunTicks(c, a + b, |a| + k) == RunTicks(RunTicks(c, a, |a|), b, k)
  {
    hide CsTick;
    if k == 0 { TicksPrefix(c, a, b, |a|); } else { TicksAppend(c, a, b, k - 1); }
  }

  // PSS has its periodic task, which is waiting, and only TCS may be in flight.
  predicate PassedOver(c: Cs) {
    && |c.sched.tasks| == MAX_TASKS && IsPeriodic(c.sched.tasks[0], TCS) && IsPeriodic(c.sched.tasks[1], PSS)
    && InQueue(c.sched, 1) && (c.sched.active == None || c.sched.active == Some(0))
  }

  lemma StatesPassOver(c: Cs)
    ensures Polling(c) || Focused(c) || Completed(c) ==> PassedOver(c)
  {
  }

  // Tick k of a round.
  lemma {:induction false} InRound(c: Cs, more: nat, k: nat)
    requires Polling(c) && k <= more + 1
    ensures if k == 0 then Polling(RunTicks(c, Round(more), k)) else Focused(RunTicks(c, Round(more), k))
  {
    hide CsTick, Polling, Focused;
    if k == 1 {
      FocusTick(c);
      assert RunTicks(c, Round(more), 1) == CsTick(RunTicks(c, Round(more), 0), Round(more)[0]);
    } else if k > 1 {
      InRound(c, more, k - 1);
      QuietTick(RunTicks(c, Round(more), k - 1));
    }
  }

  lemma RoundEnds(c: Cs, more: nat)
    requires Polling(c)
    ensures Completed(RunTicks(c, Round(more), more + 2)) && Polling(RunTicks(c, Round(more), more + 3))
    ensures Starts(RunTicks(c, Round(more), more + 2), Round(more)[more + 2], TCS)
  {
    hide CsTick, Polling, Focused, Completed, Starts;
    InRound(c, more, more + 1);
    EndTick(RunTicks(c, Round(more), more + 1));
    UnfocusTick(RunTicks(c, Round(more), more + 2));
  }

  lemma RoundPassesOver(c: Cs, more: nat, k: nat)
    requires Polling(c) && k <= more + 3
    ensures PassedOver(RunTicks(c, Round(more), k))
  {
    hide CsTick, Polling, Focused, Completed, Starts, PassedOver, RunTicks;
    RoundEnds(c, more);
    if k <= more + 1 { InRound(c, more, k); }
    StatesPassOver(RunTicks(c, Round(more), k));
  }

  // Where round r of the run ends.
  function EndOf(more: seq<nat>, r: nat): nat
    requires r < |more|
  {
    |Rounds(more[..r + 1])| - 1
  }

  // TCS starts a new exchange at the end of round r.
  predicate TcsStarts(c: Cs, more: seq<nat>, r: nat) {
    r < |more| && EndOf(more, r) < |Rounds(more)|
    && Starts(RunTicks(c, Rounds(more), EndOf(more, r)), Rounds(more)[EndOf(more, r)], TCS)
  }

  lemma {:induction false} RoundsPassOver(c: Cs, more: seq<nat>)
    requires Polling(c)
    ensures forall k | 0 <= k <= |Rounds(more)| :: PassedOver(RunTicks(c, Rounds(more), k))
    ensures Polling(RunTicks(c, Rounds(more), |Rounds(more)|))
    ensures forall r | 0 <= r < |more| :: TcsStarts(c, more, r)
    decreases |more|
  {
    hide RunTicks, CsTick, Polling, PassedOver, Starts, Round;
    if |more| == 0 {
      NoTicks(c);
      StatesPassOver(c);
    } else {
      var before, last := more[..|more| - 1], more[|more| - 1];
      var a, b := Rounds(before), Round(last);
      RoundsPassOver(c, before);
      var d := RunTicks(c, a, |a|);
      RoundEnds(d, last);
      forall k | 0 <= k <= |a + b| ensures PassedOver(RunTicks(c, a + b, k)) {
        if k <= |a| {
          TicksPrefix(c, a, b, k);
        } else {
          TicksAppend(c, a, b, k - |a|);
          RoundPassesOver(d, last, k - |a|);
        }
      }
      TicksAppend(c, a, b, last + 3);
      forall r | 0 <= r < |more| ensures TcsStarts(c, more, r) {
        if r < |before| {
          EarlierRound(c, more, r);
        } else {
          assert more[..r + 1] == more;
          TicksAppend(c, a, b, last + 2);
        }
      }
    }
  }

  lemma NoTicks(c: Cs)
    ensures AllProper([]) && RunTicks(c, [], 0) == c
  {
  }

  lemma EarlierRound(c: Cs, more: seq<nat>, r: nat)
    requires r + 1 < |more| && TcsStarts(c, more[..|more| - 1], r)
    ensures TcsStarts(c, more, r)
  {
    hide RunTicks, Starts, Round;
    var before := more[..|more| - 1];
    assert before[..r + 1] == more[..r + 1];
    TicksPrefix(c, Rounds(before), Round(more[|more| - 1]), EndOf(more, r));
  }

  lemma NotInFlight(c: Cs, i: Input)
    requires Proper(i) && PassedOver(CsTick(c, i))
    ensures !Starts(c, i, PSS)
  {
    hide CsTick;
  }

  // However many rounds there are and however long their exchanges take: from the first tick on PSS has
  // its periodic task waiting, TCS starts an exchange at the end of every round, and PSS never starts one.
  lemma TaskStarves(more: seq<nat>)
    ensures var ins := OPENING + Rounds(more);
      && AllProper(ins)
      && (forall k :: 1 <= k <= |ins| ==> PassedOver(RunTicks(START, ins, k)))
      && (forall k :: 1 <= k < |ins| ==> !Starts(RunTicks(START, ins, k), ins[k], PSS))
    ensures var c := RunTicks(START, OPENING, 1); forall r | 0 <= r < |more| :: TcsStarts(c, more, r)
  {
    hide RunTicks, CsTick, PassedOver, Starts, Rounds, Polling;
    var ins, c := OPENING + Rounds(more), RunTicks(START, OPENING, 1);
    OpeningTick();
    RoundsPassOver(c, more);
    forall k | 1 <= k <= |ins| ensures PassedOver(RunTicks(START, ins, k)) {
      TicksAppend(START, OPENING, Rounds(more), k - 1);
    }
    forall k | 1 <= k < |ins| ensures !Starts(RunTicks(START, ins, k), ins[k], PSS) {
      NextTick(START, ins, k);
      NotInFlight(RunTicks(START, ins, k), ins[k]);
    }
  }

  lemma NextTick(c: Cs, ins: seq<Input>, k: nat)
    requires AllProper(ins) && k < |ins|
    ensures RunTicks(c, ins, k + 1) == CsTick(RunTicks(c, ins, k), ins[k])
  {
    hide CsTick;
  }
}
