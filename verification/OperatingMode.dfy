// The operating-mode controller: failure streaks, cooldowns, focus, and the policy they give each node.
module OperatingMode {
  import opened Wire
  import opened BusExchange
  import opened Scheduler
  import opened SchedulerInvariant
  import opened PeriodicTasks

  const TIMEOUT_THRESHOLD: nat := 3
  const INVALID_EOF_THRESHOLD: nat := 1
  const TIMEOUT_COOLDOWN: nat := 96
  const INVALID_EOF_COOLDOWN: nat := 160
  const STREAK_CAP: nat := 255

  datatype Mode = Mode(focus: Option<nat>, background: seq<bool>, streak: seq<nat>, cooldown: seq<nat>)

  predicate Sized(m: Mode) {
    |m.background| == NODE_COUNT && |m.streak| == NODE_COUNT && |m.cooldown| == NODE_COUNT
  }

  type Controller = m: Mode | Sized(m) witness Mode(None, [false, false, false, false, false], [0, 0, 0, 0, 0], [0, 0, 0, 0, 0])

  // After reset only TCS (node 1) is exchanged with in the background.
  const RESET: Controller := Mode(None, [false, true, false, false, false], [0, 0, 0, 0, 0], [0, 0, 0, 0, 0])

  // --- steps -------------------------------------------------------------------------------

  function ThresholdFor(r: Result): nat { if r == InvalidEof then INVALID_EOF_THRESHOLD else TIMEOUT_THRESHOLD }

  function CooldownFor(r: Result): nat { if r == InvalidEof then INVALID_EOF_COOLDOWN else TIMEOUT_COOLDOWN }

  function ClearState(m: Controller, n: nat): Controller
    requires n < NODE_COUNT
  {
    m.(streak := m.streak[n := 0], cooldown := m.cooldown[n := 0])
  }

  function Capped(streak: nat): nat { if streak < STREAK_CAP then streak + 1 else streak }

  function OnFailure(m: Controller, n: nat, r: Result): Controller
    requires n < NODE_COUNT
  {
    var s := Capped(m.streak[n]);
    var c := if s >= ThresholdFor(r) && m.cooldown[n] == 0 then CooldownFor(r) else m.cooldown[n];
    m.(streak := m.streak[n := s], cooldown := m.cooldown[n := c])
  }

  function Feedback(m: Controller, c: Completion): Controller {
    match NodeOf(c.target)
    case None => m
    case Some(n) =>
      if c.result == Success then ClearState(m, n)
      else if c.periodic && c.kind == DataTask then OnFailure(m, n, c.result)
      else m
  }

  function FeedbackAll(m: Controller, cs: seq<Completion>): Controller
    decreases |cs|
  {
    if |cs| == 0 then m else FeedbackAll(Feedback(m, cs[0]), cs[1..])
  }

  function Cooled(c: nat): nat { if c == 0 then 0 else c - 1 }

  // The streak of a node whose cooldown is c: it is forgotten when the cooldown ends.
  function Forgiven(streak: nat, c: nat): nat { if c == 1 then 0 else streak }

  function TickCooldowns(m: Controller): Controller {
    m.(streak := seq(NODE_COUNT, i requires 0 <= i < NODE_COUNT => Forgiven(m.streak[i], m.cooldown[i])),
       cooldown := seq(NODE_COUNT, i requires 0 <= i < NODE_COUNT => Cooled(m.cooldown[i])))
  }

  function Step(m: Controller, cs: seq<Completion>): Controller { TickCooldowns(FeedbackAll(m, cs)) }

  function SetFocus(m: Controller, n: nat): Controller
    requires n < NODE_COUNT
  {
    if m.focus == Some(n) then m else ClearState(m, n).(focus := Some(n))
  }

  function SetBackground(m: Controller, n: nat, on: bool): Controller
    requires n < NODE_COUNT
  {
    var r := m.(background := m.background[n := on]);
    if on then ClearState(r, n) else r
  }

  // --- policy ------------------------------------------------------------------------------

  function QueueFor(m: Controller, n: nat): QueueClass { if m.focus == Some(n) then Priority else Normal }

  predicate Allowed(m: Controller, n: nat)
    requires n < NODE_COUNT
  {
    m.cooldown[n] == 0 && (m.background[n] || m.focus == Some(n))
  }

  // One node's step: ensure or cancel its periodic exchange as the policy says.
  function ApplyPolicy(m: Controller, s: Sched, n: nat): Sched
    requires n < NODE_COUNT
  {
    if Allowed(m, n) then Apply(s, EnsurePeriodic(TargetOf(n), QueueFor(m, n)))
    else Apply(s, CancelPeriodic(TargetOf(n)))
  }

  // The order of the node steps: TCS, PSS, TMS, MNS, LS.
  function NodeOrder(k: nat): (n: nat)
    requires k < NODE_COUNT
    ensures n < NODE_COUNT
  {
    if k == 0 then 1 else if k == 1 then 0 else k
  }

  // The scheduler after the first k node steps.
  function NodeSteps(m: Controller, s: Sched, k: nat): Sched
    requires k <= NODE_COUNT
  {
    if k == 0 then s else ApplyPolicy(m, NodeSteps(m, s, k - 1), NodeOrder(k - 1))
  }

  // --- the whole CS tick -------------------------------------------------------------------

  datatype Control = OnScheduler(op: Op) | Focus(node: nat) | ClearFocus | Background(node: nat, on: bool)

  datatype Cs = Cs(mode: Controller, sched: Sched)

  // What a tick is given: operator calls, whether the bus is busy, and the result it holds.
  datatype Input = Input(controls: seq<Control>, busy: bool, result: Option<Result>)

  // Operator calls: anything but the tick's own internal steps.
  predicate Operator(c: Control) {
    match c
    case OnScheduler(op) => !op.Arm? && !op.Control? && !op.PopCompletion?
    case Focus(n) => n < NODE_COUNT
    case ClearFocus => true
    case Background(n, _) => n < NODE_COUNT
  }

  function Perform(c: Cs, ctl: Control): Cs
    requires Operator(ctl)
  {
    match ctl
    case OnScheduler(op) => c.(sched := Apply(c.sched, op))
    case Focus(n) => c.(mode := SetFocus(c.mode, n))
    case ClearFocus => c.(mode := c.mode.(focus := None))
    case Background(n, on) => c.(mode := SetBackground(c.mode, n, on))
  }

  predicate Operators(cs: seq<Control>) { forall k :: 0 <= k < |cs| ==> Operator(cs[k]) }

  function PerformAll(c: Cs, cs: seq<Control>): Cs
    requires Operators(cs)
    decreases |cs|
  {
    if |cs| == 0 then c
    else
      var first, rest := cs[..|cs| - 1], cs[|cs| - 1];
      assert Operators(first);
      Perform(PerformAll(c, first), rest)
  }

  // The mode step consumes every completion.
  function ModeTick(c: Cs): Cs {
    Cs(Step(c.mode, c.sched.completions), c.sched.(completions := []))
  }

  function NodeTick(c: Cs): Cs { c.(sched := NodeSteps(c.mode, c.sched, NODE_COUNT)) }

  function BusTick(c: Cs, busy: bool, result: Option<Result>): Cs {
    if busy then c else c.(sched := MarkArmed(ExchangeControl(c.sched, result)))
  }

  predicate Proper(i: Input) { Operators(i.controls) }

  // Operator, mode controller, nodes, scheduler, arming: the fixed order of a tick.
  function CsTick(c: Cs, i: Input): Cs
    requires Proper(i)
  {
    BusTick(NodeTick(ModeTick(PerformAll(c, i.controls))), i.busy, i.result)
  }

  predicate AllProper(ins: seq<Input>) { forall k :: 0 <= k < |ins| ==> Proper(ins[k]) }

  function RunTicks(c: Cs, ins: seq<Input>, n: nat): Cs
    requires AllProper(ins) && n <= |ins|
  {
    if n == 0 then c else CsTick(RunTicks(c, ins, n - 1), ins[n - 1])
  }

  // --- streaks -----------------------------------------------------------------------------

  predicate NodeOk(m: Controller, n: nat)
    requires n < NODE_COUNT
  {
    && m.streak[n] <= STREAK_CAP
    && m.cooldown[n] <= INVALID_EOF_COOLDOWN
    && (m.cooldown[n] == 0 ==> m.streak[n] <= 2)
  }

  // Outside a cooldown a node has failed at most twice in a row.
  ghost predicate StreaksOk(m: Controller) {
    forall n :: 0 <= n < NODE_COUNT ==> NodeOk(m, n)
  }

  lemma FeedbackKeepsStreaks(m: Controller, c: Completion)
    requires StreaksOk(m)
    ensures StreaksOk(Feedback(m, c))
  {
    var r := Feedback(m, c);
    forall n | 0 <= n < NODE_COUNT ensures NodeOk(r, n) {
      assert NodeOk(m, n);
    }
  }

  lemma {:induction false} FeedbackAllKeepsStreaks(m: Controller, cs: seq<Completion>)
    requires StreaksOk(m)
    ensures StreaksOk(FeedbackAll(m, cs))
    decreases |cs|
  {
    if |cs| > 0 {
      FeedbackKeepsStreaks(m, cs[0]);
      FeedbackAllKeepsStreaks(Feedback(m, cs[0]), cs[1..]);
    }
  }

  lemma StepKeepsStreaks(m: Controller, cs: seq<Completion>)
    requires StreaksOk(m)
    ensures StreaksOk(Step(m, cs))
  {
    FeedbackAllKeepsStreaks(m, cs);
    hide FeedbackAll;
    var f := FeedbackAll(m, cs);
    forall n | 0 <= n < NODE_COUNT ensures NodeOk(TickCooldowns(f), n) {
      assert NodeOk(f, n);
    }
  }

  lemma PerformKeepsStreaks(c: Cs, ctl: Control)
    requires Operator(ctl) && StreaksOk(c.mode)
    ensures StreaksOk(Perform(c, ctl).mode)
  {
    hide Apply;
    var r := Perform(c, ctl).mode;
    forall n | 0 <= n < NODE_COUNT ensures NodeOk(r, n) {
      assert NodeOk(c.mode, n);
    }
  }

  // --- the policy is enforced --------------------------------------------------------------

  ghost predicate SchedOk(s: Sched) { Inv(s) && OncePerNode(s.tasks) }

  lemma PolicyKeeps(m: Controller, s: Sched, n: nat)
    requires n < NODE_COUNT && SchedOk(s)
    ensures SchedOk(ApplyPolicy(m, s, n))
  {
    hide Apply, Inv;
    ApplyKeeps(s, EnsurePeriodic(TargetOf(n), QueueFor(m, n)));
    ApplyKeeps(s, CancelPeriodic(TargetOf(n)));
    ApplyOnce(s, EnsurePeriodic(TargetOf(n), QueueFor(m, n)));
    ApplyOnce(s, CancelPeriodic(TargetOf(n)));
  }

  lemma {:induction false} NodeStepsKeep(m: Controller, s: Sched, k: nat)
    requires k <= NODE_COUNT && SchedOk(s)
    ensures SchedOk(NodeSteps(m, s, k))
    decreases k
  {
    hide ApplyPolicy, SchedOk;
    if k > 0 {
      NodeStepsKeep(m, s, k - 1);
      PolicyKeeps(m, NodeSteps(m, s, k - 1), NodeOrder(k - 1));
    }
  }

  predicate SlotFree(s: Sched) { AllocSlot(s.tasks, 0).Some? }

  // The class the policy gives a node whose step meets state s.
  function PolicyClass(m: Controller, s: Sched, n: nat): Option<QueueClass>
    requires n < NODE_COUNT
  {
    if Allowed(m, n) && (PeriodicClass(s.tasks, n).Some? || SlotFree(s)) then Some(QueueFor(m, n)) else None
  }

  lemma PolicyOwn(m: Controller, s: Sched, n: nat)
    requires n < NODE_COUNT && SchedOk(s)
    ensures PeriodicClass(ApplyPolicy(m, s, n).tasks, n) == PolicyClass(m, s, n)
  {
    hide PeriodicClass, Ensure, AllocSlot, Inv, OncePerNode, FindPeriodic;
    if Allowed(m, n) {
      EnsureClass(s, n, QueueFor(m, n));
    } else {
      CancelPeriodicClass(s, TargetOf(n), n);
    }
  }

  lemma PolicyOthers(m: Controller, s: Sched, n: nat, other: nat)
    requires n < NODE_COUNT && other != n && SchedOk(s)
    ensures PeriodicClass(ApplyPolicy(m, s, n).tasks, other) == PeriodicClass(s.tasks, other)
  {
    hide PeriodicClass, Ensure, Inv, OncePerNode, FindPeriodic;
    if Allowed(m, n) {
      EnsureOthers(s, n, QueueFor(m, n), other);
    } else {
      CancelPeriodicOthers(s, TargetOf(n), n, other);
    }
  }

  // The turn of a node in the step order.
  function Turn(n: nat): (k: nat)
    requires n < NODE_COUNT
    ensures k < NODE_COUNT && NodeOrder(k) == n
  {
    if n == 1 then 0 else if n == 0 then 1 else n
  }

  lemma {:induction false} BeforeTurn(m: Controller, s: Sched, n: nat, k: nat)
    requires n < NODE_COUNT && k <= Turn(n) && SchedOk(s)
    ensures PeriodicClass(NodeSteps(m, s, k).tasks, n) == PeriodicClass(s.tasks, n)
    decreases k
  {
    hide ApplyPolicy, SchedOk, PeriodicClass;
    if k > 0 {
      BeforeTurn(m, s, n, k - 1);
      NodeStepsKeep(m, s, k - 1);
      PolicyOthers(m, NodeSteps(m, s, k - 1), NodeOrder(k - 1), n);
    }
  }

  lemma {:induction false} AfterTurn(m: Controller, s: Sched, n: nat, k: nat)
    requires n < NODE_COUNT && Turn(n) < k <= NODE_COUNT && SchedOk(s)
    ensures PeriodicClass(NodeSteps(m, s, k).tasks, n) == PolicyClass(m, NodeSteps(m, s, Turn(n)), n)
    decreases k
  {
    hide ApplyPolicy, SchedOk, PeriodicClass, PolicyClass;
    NodeStepsKeep(m, s, k - 1);
    if k - 1 == Turn(n) {
      PolicyOwn(m, NodeSteps(m, s, k - 1), n);
    } else {
      AfterTurn(m, s, n, k - 1);
      PolicyOthers(m, NodeSteps(m, s, k - 1), NodeOrder(k - 1), n);
    }
  }

  // After the node steps a node has a periodic task exactly if its policy allows one and it had
  // one already or a slot was free at its turn; the task is in the class the focus dictates.
  lemma PolicyEnforced(m: Controller, s: Sched, n: nat)
    requires n < NODE_COUNT && SchedOk(s)
    ensures PeriodicClass(NodeSteps(m, s, NODE_COUNT).tasks, n)
      == if Allowed(m, n) && (PeriodicClass(s.tasks, n).Some? || SlotFree(NodeSteps(m, s, Turn(n))))
         then Some(QueueFor(m, n)) else None
    ensures OncePerNode(NodeSteps(m, s, NODE_COUNT).tasks)
  {
    hide PeriodicClass, NodeSteps, OncePerNode, Inv;
    AfterTurn(m, s, n, NODE_COUNT);
    BeforeTurn(m, s, n, Turn(n));
    NodeStepsKeep(m, s, NODE_COUNT);
  }

  // --- whole runs --------------------------------------------------------------------------

  ghost predicate CsOk(c: Cs) { StreaksOk(c.mode) && SchedOk(c.sched) }

  // The call does not ask for a second periodic task of a node.
  predicate Single(c: Cs, ctl: Control) { ctl.OnScheduler? ==> !Doubles(c.sched, ctl.op) }

  predicate SingleAll(c: Cs, cs: seq<Control>)
    requires Operators(cs)
    decreases |cs|
  {
    |cs| > 0 ==>
      assert Operators(cs[..|cs| - 1]);
      SingleAll(c, cs[..|cs| - 1]) && Single(PerformAll(c, cs[..|cs| - 1]), cs[|cs| - 1])
  }

  lemma PerformKeeps(c: Cs, ctl: Control)
    requires Operator(ctl) && CsOk(c) && Single(c, ctl)
    ensures CsOk(Perform(c, ctl))
  {
    hide Apply, Inv, OncePerNode, StreaksOk, Doubles;
    PerformKeepsStreaks(c, ctl);
    if ctl.OnScheduler? {
      ApplyKeeps(c.sched, ctl.op);
      OnceUnlessDoubled(c.sched, ctl.op);
    }
  }

  lemma {:induction false} PerformAllKeeps(c: Cs, cs: seq<Control>)
    requires Operators(cs) && CsOk(c) && SingleAll(c, cs)
    ensures CsOk(PerformAll(c, cs))
    decreases |cs|
  {
    hide Perform, CsOk, Single;
    if |cs| > 0 {
      assert Operators(cs[..|cs| - 1]);
      PerformAllKeeps(c, cs[..|cs| - 1]);
      PerformKeeps(PerformAll(c, cs[..|cs| - 1]), cs[|cs| - 1]);
    }
  }

  lemma {:induction false} PerformAllKeepsStreaks(c: Cs, cs: seq<Control>)
    requires Operators(cs) && StreaksOk(c.mode)
    ensures StreaksOk(PerformAll(c, cs).mode)
    decreases |cs|
  {
    hide Perform, StreaksOk;
    if |cs| > 0 {
      assert Operators(cs[..|cs| - 1]);
      PerformAllKeepsStreaks(c, cs[..|cs| - 1]);
      PerformKeepsStreaks(PerformAll(c, cs[..|cs| - 1]), cs[|cs| - 1]);
    }
  }

  lemma ModeTickKeeps(c: Cs)
    requires CsOk(c)
    ensures CsOk(ModeTick(c))
  {
    hide Step, Inv, OncePerNode, StreaksOk;
    StepKeepsStreaks(c.mode, c.sched.completions);
    CompletionsApart(c.sched, []);
  }

  lemma BusTickKeeps(c: Cs, busy: bool, result: Option<Result>)
    requires CsOk(c)
    ensures CsOk(BusTick(c, busy, result))
  {
    hide ExchangeControl, MarkArmed, Inv, OncePerNode, StreaksOk;
    if !busy {
      var op := Scheduler.Op.Control(result);
      ApplyKeeps(c.sched, op);
      ApplyOnce(c.sched, op);
      var s := Apply(c.sched, op);
      ApplyKeeps(s, Arm);
      ApplyOnce(s, Arm);
    }
  }

  lemma TickKeeps(c: Cs, i: Input)
    requires Proper(i) && CsOk(c) && SingleAll(c, i.controls)
    ensures CsOk(CsTick(c, i))
  {
    hide PerformAll, ModeTick, NodeSteps, BusTick, StreaksOk, SchedOk;
    PerformAllKeeps(c, i.controls);
    var p := PerformAll(c, i.controls);
    ModeTickKeeps(p);
    NodeStepsKeep(ModeTick(p).mode, ModeTick(p).sched, NODE_COUNT);
    BusTickKeeps(NodeTick(ModeTick(p)), i.busy, i.result);
  }

  const START: Cs := Cs(RESET, FRESH)

  lemma StartOk()
    ensures CsOk(START)
  {
    FreshInv();
    forall n | 0 <= n < NODE_COUNT ensures NodeOk(START.mode, n) {
    }
  }

  // In tick k of the run no call asks for a second periodic task of a node.
  predicate SingleAt(c: Cs, ins: seq<Input>, k: nat)
    requires AllProper(ins)
  {
    k < |ins| ==> SingleAll(RunTicks(c, ins, k), ins[k].controls)
  }

  lemma {:induction false} RunKeeps(c: Cs, ins: seq<Input>, n: nat)
    requires CsOk(c) && AllProper(ins) && n <= |ins| && forall j :: 0 <= j < n ==> SingleAt(c, ins, j)
    ensures CsOk(RunTicks(c, ins, n))
    decreases n
  {
    hide CsTick, CsOk, SingleAll;
    if n > 0 {
      RunKeeps(c, ins, n - 1);
      assert SingleAt(c, ins, n - 1);
      TickKeeps(RunTicks(c, ins, n - 1), ins[n - 1]);
    }
  }

  lemma TickKeepsStreaks(c: Cs, i: Input)
    requires Proper(i) && StreaksOk(c.mode)
    ensures StreaksOk(CsTick(c, i).mode)
  {
    hide PerformAll, NodeSteps, ExchangeControl, MarkArmed, StreaksOk, Step;
    PerformAllKeepsStreaks(c, i.controls);
    var p := PerformAll(c, i.controls);
    StepKeepsStreaks(p.mode, p.sched.completions);
  }

  lemma {:induction false} RunKeepsStreaks(c: Cs, ins: seq<Input>, n: nat)
    requires StreaksOk(c.mode) && AllProper(ins) && n <= |ins|
    ensures StreaksOk(RunTicks(c, ins, n).mode)
    decreases n
  {
    hide CsTick, StreaksOk;
    if n > 0 {
      RunKeepsStreaks(c, ins, n - 1);
      TickKeepsStreaks(RunTicks(c, ins, n - 1), ins[n - 1]);
    }
  }

  // In every reachable state a node outside a cooldown has failed at most twice in a row.
  lemma ShortStreaks(ins: seq<Input>, node: nat)
    requires AllProper(ins) && node < NODE_COUNT
    ensures var m := RunTicks(START, ins, |ins|).mode; m.cooldown[node] == 0 ==> m.streak[node] <= 2
  {
    StartOk();
    RunKeepsStreaks(START, ins, |ins|);
    hide RunTicks, Inv, OncePerNode;
    assert NodeOk(RunTicks(START, ins, |ins|).mode, node);
  }

  // --- what starts in a tick ---------------------------------------------------------------

  // The state in which the nodes have taken their steps and the scheduler runs.
  function MidTick(c: Cs, i: Input): Cs
    requires Proper(i)
  {
    NodeTick(ModeTick(PerformAll(c, i.controls)))
  }

  // The tick puts a periodic task of the node in flight.
  predicate Starts(c: Cs, i: Input, n: nat)
    requires Proper(i)
  {
    var r := CsTick(c, i).sched;
    && !i.busy
    && MidTick(c, i).sched.active == None
    && r.active.Some? && r.active.value < |r.tasks|
    && IsPeriodic(r.tasks[r.active.value], n)
  }

  lemma ArmNoNew(s: Sched)
    ensures NoNewPeriodic(s.tasks, MarkArmed(s).tasks)
  {
  }

  lemma BusTickNoNew(c: Cs, result: Option<Result>)
    requires Inv(c.sched)
    ensures NoNewPeriodic(c.sched.tasks, BusTick(c, false, result).sched.tasks)
  {
    hide ExchangeControl, MarkArmed, NoNewPeriodic, Inv;
    ControlNoNew(c.sched, result);
    var s := ExchangeControl(c.sched, result);
    ArmNoNew(s);
    NoNewTrans(c.sched.tasks, s.tasks, MarkArmed(s).tasks);
  }

  // A periodic exchange only starts under a policy that allows it, decided in the same tick.
  lemma StartsOnlyIfAllowed(c: Cs, i: Input, n: nat)
    requires Proper(i) && CsOk(c) && SingleAll(c, i.controls) && n < NODE_COUNT && Starts(c, i, n)
    ensures Allowed(ModeTick(PerformAll(c, i.controls)).mode, n)
  {
    PerformAllKeeps(c, i.controls);
    var p := ModeTick(PerformAll(c, i.controls));
    ModeTickKeeps(PerformAll(c, i.controls));
    var mid := MidTick(c, i);
    NodeStepsKeep(p.mode, p.sched, NODE_COUNT);
    BusTickNoNew(mid, i.result);
    var r := CsTick(c, i).sched;
    PolicyEnforced(p.mode, p.sched, n);
    hide PerformAll, NodeSteps, BusTick, Inv, OncePerNode, ModeTick, Allowed, StreaksOk, SlotFree;
    assert NotNew(mid.sched.tasks[r.active.value], r.tasks[r.active.value]);
    assert IsPeriodic(mid.sched.tasks[r.active.value], n);
    assert PeriodicClass(mid.sched.tasks, n).Some?;
  }

  // --- cooldowns ---------------------------------------------------------------------------

  predicate NotSuccess(c: Completion, n: nat) { NodeOf(c.target) == Some(n) ==> c.result != Success }

  predicate NotPardon(ctl: Control, n: nat) { ctl != Focus(n) && ctl != Background(n, true) }

  // During the tick nothing clears the node's record: no success, no enabling, no focusing.
  ghost predicate NoPardon(c: Cs, i: Input, n: nat)
    requires Proper(i)
  {
    && (forall k :: 0 <= k < |i.controls| ==> NotPardon(i.controls[k], n))
    && NoSuccess(PerformAll(c, i.controls).sched.completions, n)
  }

  ghost predicate NoSuccess(cs: seq<Completion>, n: nat) {
    forall k :: 0 <= k < |cs| ==> NotSuccess(cs[k], n)
  }

  lemma {:induction false} FeedbackKeepsCooldown(m: Controller, cs: seq<Completion>, n: nat)
    requires n < NODE_COUNT && m.cooldown[n] > 0 && NoSuccess(cs, n)
    ensures FeedbackAll(m, cs).cooldown[n] == m.cooldown[n]
    decreases |cs|
  {
    if |cs| > 0 {
      assert NotSuccess(cs[0], n);
      forall k | 0 <= k < |cs[1..]| ensures NotSuccess(cs[1..][k], n) {
        assert NotSuccess(cs[k + 1], n);
      }
      FeedbackKeepsCooldown(Feedback(m, cs[0]), cs[1..], n);
    }
  }

  lemma {:induction false} ControlsKeepCooldown(c: Cs, cs: seq<Control>, n: nat)
    requires Operators(cs) && n < NODE_COUNT
    requires forall k :: 0 <= k < |cs| ==> NotPardon(cs[k], n)
    ensures PerformAll(c, cs).mode.cooldown[n] == c.mode.cooldown[n]
    decreases |cs|
  {
    if |cs| > 0 {
      var first, last := cs[..|cs| - 1], cs[|cs| - 1];
      assert Operators(first);
      assert forall k :: 0 <= k < |first| ==> NotPardon(cs[k], n);
      ControlsKeepCooldown(c, first, n);
      hide Apply;
      assert NotPardon(last, n);
    }
  }

  // Without a pardon a running cooldown just counts down.
  lemma CooldownCounts(c: Cs, i: Input, n: nat)
    requires Proper(i) && n < NODE_COUNT && NoPardon(c, i, n) && c.mode.cooldown[n] > 0
    ensures ModeTick(PerformAll(c, i.controls)).mode.cooldown[n] == c.mode.cooldown[n] - 1
    ensures CsTick(c, i).mode == ModeTick(PerformAll(c, i.controls)).mode
  {
    ControlsKeepCooldown(c, i.controls, n);
    var p := PerformAll(c, i.controls);
    FeedbackKeepsCooldown(p.mode, p.sched.completions, n);
    hide PerformAll, NodeSteps, ExchangeControl, MarkArmed, FeedbackAll;
  }

  ghost predicate NoPardonAt(ins: seq<Input>, c: Cs, k: nat, n: nat)
    requires AllProper(ins)
  {
    k < |ins| ==> NoPardon(RunTicks(c, ins, k), ins[k], n)
  }

  lemma {:induction false} CooldownRuns(c: Cs, ins: seq<Input>, k: nat, n: nat)
    requires AllProper(ins) && k <= |ins| && n < NODE_COUNT && k <= c.mode.cooldown[n]
    requires forall j :: 0 <= j < k ==> NoPardonAt(ins, c, j, n)
    ensures RunTicks(c, ins, k).mode.cooldown[n] == c.mode.cooldown[n] - k
    decreases k
  {
    hide CsTick, NoPardon;
    if k > 0 {
      CooldownRuns(c, ins, k - 1, n);
      assert NoPardonAt(ins, c, k - 1, n);
      CooldownCounts(RunTicks(c, ins, k - 1), ins[k - 1], n);
    }
  }

  // While a cooldown of v ticks runs, no periodic exchange of the node starts in the next v - 1 ticks.
  lemma CooldownBlocks(c: Cs, ins: seq<Input>, k: nat, n: nat)
    requires CsOk(c) && AllProper(ins) && k < |ins| && n < NODE_COUNT && k + 1 < c.mode.cooldown[n]
    requires forall j :: 0 <= j <= k ==> NoPardonAt(ins, c, j, n) && SingleAt(c, ins, j)
    ensures !Starts(RunTicks(c, ins, k), ins[k], n)
  {
    CooldownRuns(c, ins, k, n);
    RunKeeps(c, ins, k);
    var b := RunTicks(c, ins, k);
    assert NoPardonAt(ins, c, k, n);
    CooldownCounts(b, ins[k], n);
    hide RunTicks, CsTick, PerformAll, NoPardon, CsOk, Starts;
    if Starts(b, ins[k], n) {
      StartsOnlyIfAllowed(b, ins[k], n);
    }
  }

  // A timeout that starts a cooldown in the tick i keeps periodic exchanges of the node from
  // starting in that tick and the next 94, unless the node is pardoned.
  lemma TimeoutCooldown(c: Cs, i: Input, ins: seq<Input>, n: nat)
    requires CsOk(c) && Proper(i) && SingleAll(c, i.controls) && AllProper(ins) && n < NODE_COUNT
    requires var p := PerformAll(c, i.controls);
      FeedbackAll(p.mode, p.sched.completions).cooldown[n] == TIMEOUT_COOLDOWN
    requires forall j :: 0 <= j < |ins| ==> NoPardonAt(ins, CsTick(c, i), j, n) && SingleAt(CsTick(c, i), ins, j)
    ensures !Starts(c, i, n)
    ensures forall k :: 0 <= k < 94 && k < |ins| ==> !StartsAt(ins, CsTick(c, i), k, n)
  {
    var p := PerformAll(c, i.controls);
    assert ModeTick(p).mode.cooldown[n] == 95 by { hide PerformAll, FeedbackAll; }
    assert CsTick(c, i).mode == ModeTick(p).mode by { hide PerformAll, ModeTick, NodeSteps, ExchangeControl, MarkArmed; }
    TickKeeps(c, i);
    hide CsTick, PerformAll, ModeTick, CsOk, Starts, RunTicks, NoPardon, FeedbackAll, NoPardonAt;
    if Starts(c, i, n) {
      StartsOnlyIfAllowed(c, i, n);
    }
    forall k | 0 <= k < 94 && k < |ins| ensures !StartsAt(ins, CsTick(c, i), k, n) {
      CooldownBlocks(CsTick(c, i), ins, k, n);
    }
  }

  predicate StartsAt(ins: seq<Input>, c: Cs, k: nat, n: nat)
    requires AllProper(ins)
  {
    k < |ins| && Starts(RunTicks(c, ins, k), ins[k], n)
  }

  function Failures(m: Controller, n: nat, k: nat): Controller
    requires n < NODE_COUNT
  {
    if k == 0 then m else OnFailure(Failures(m, n, k - 1), n, Timeout)
  }

  // From a clean record, timeouts in a row start a cooldown exactly at the third.
  lemma {:induction false} ThirdTimeoutCools(m: Controller, n: nat, k: nat)
    requires n < NODE_COUNT && m.cooldown[n] == 0 && m.streak[n] == 0
    ensures Failures(m, n, k).cooldown[n] == if k >= 3 then TIMEOUT_COOLDOWN else 0
    ensures Failures(m, n, k).streak[n] == Min(k, STREAK_CAP)
  {
    if k > 0 { ThirdTimeoutCools(m, n, k - 1); }
  }
}
