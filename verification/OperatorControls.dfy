// What operators and exchange results do to the operating mode, and what the program makes of it, in the
// mode's own fields.
module OperatorControls {
  import opened Wire
  import opened BusExchange
  import opened Scheduler
  import opened PeriodicTasks
  import opened OperatingMode

  type Ctl = OperatingMode.Control

  // --- the last word of the operator -------------------------------------------------------

  // The node in focus after these calls: the last one focused and not cleared since.
  function FocusAfter(focus: Option<nat>, cs: seq<Ctl>): Option<nat>
    decreases |cs|
  {
    if |cs| == 0 then focus
    else
      match cs[|cs| - 1]
      case Focus(n) => Some(n)
      case ClearFocus => None
      case _ => FocusAfter(focus, cs[..|cs| - 1])
  }

  // Whether a node is in the background after these calls: what the last of them on it said.
  function BackgroundAfter(on: bool, cs: seq<Ctl>, n: nat): bool
    decreases |cs|
  {
    if |cs| == 0 then on
    else
      var last := cs[|cs| - 1];
      if last == Background(n, true) then true
      else if last == Background(n, false) then false
      else BackgroundAfter(on, cs[..|cs| - 1], n)
  }

  // The call wipes the record of a node: it enables it, or focuses it afresh.
  predicate Wipes(focus: Option<nat>, ctl: Ctl, n: nat) { ctl == Background(n, true) || (ctl == Focus(n) && focus != Some(n)) }

  predicate Wiped(focus: Option<nat>, cs: seq<Ctl>, n: nat)
    decreases |cs|
  {
    |cs| > 0 && (Wiped(focus, cs[..|cs| - 1], n) || Wipes(FocusAfter(focus, cs[..|cs| - 1]), cs[|cs| - 1], n))
  }

  // The operator's calls set focus and background as their last words say, and wipe exactly the records of
  // the nodes enabled or newly focused.
  lemma {:induction false} ControlsSay(c: Cs, cs: seq<Ctl>, n: nat)
    requires Operators(cs) && n < NODE_COUNT
    ensures var m := PerformAll(c, cs).mode;
      && m.focus == FocusAfter(c.mode.focus, cs) && m.background[n] == BackgroundAfter(c.mode.background[n], cs, n)
      && m.streak[n] == (if Wiped(c.mode.focus, cs, n) then 0 else c.mode.streak[n])
      && m.cooldown[n] == (if Wiped(c.mode.focus, cs, n) then 0 else c.mode.cooldown[n])
    decreases |cs|
  {
    if |cs| > 0 {
      var first, last := cs[..|cs| - 1], cs[|cs| - 1];
      assert Operators(first);
      ControlsSay(c, first, n);
      hide Apply, PerformAll;
      assert PerformAll(c, cs) == Perform(PerformAll(c, first), last) by { PerformLast(c, cs); }
    }
  }

  lemma PerformLast(c: Cs, cs: seq<Ctl>)
    requires Operators(cs) && |cs| > 0
    ensures Operators(cs[..|cs| - 1]) && PerformAll(c, cs) == Perform(PerformAll(c, cs[..|cs| - 1]), cs[|cs| - 1])
  {
    hide Perform;
  }

  // --- feedback of completions -------------------------------------------------------------

  predicate Of(c: Completion, n: nat) { NodeOf(c.target) == Some(n) }

  // A periodic data exchange of the node has failed.
  predicate Fails(c: Completion, n: nat) { Of(c, n) && c.periodic && c.kind == DataTask && c.result != Success }

  predicate Succeeds(c: Completion, n: nat) { Of(c, n) && c.result == Success }

  // Failures of the node in a row, from start on.
  function Row(start: nat, cs: seq<Completion>, n: nat): nat
    decreases |cs|
  {
    if |cs| == 0 then start
    else
      var before, last := Row(start, cs[..|cs| - 1], n), cs[|cs| - 1];
      if Succeeds(last, n) then 0 else if Fails(last, n) && before < 255 then before + 1 else before
  }

  // The cooldown of the node after these completions: 96 ticks from its third failure in a row, 160 from a
  // wrong EOF, unless one runs already; a success ends it.
  function CooldownAfter(start: nat, cool: nat, cs: seq<Completion>, n: nat): nat
    decreases |cs|
  {
    if |cs| == 0 then cool
    else
      var before, last := CooldownAfter(start, cool, cs[..|cs| - 1], n), cs[|cs| - 1];
      if Succeeds(last, n) then 0
      else if before > 0 || !Fails(last, n) then before
      else if last.result == InvalidEof then 160
      else if Row(start, cs, n) >= 3 then 96 else 0
  }

  lemma {:induction false} FeedbackLast(m: Controller, cs: seq<Completion>)
    requires |cs| > 0
    ensures FeedbackAll(m, cs) == Feedback(FeedbackAll(m, cs[..|cs| - 1]), cs[|cs| - 1])
    decreases |cs|
  {
    hide Feedback;
    if |cs| > 1 {
      var rest := cs[1..];
      FeedbackLast(Feedback(m, cs[0]), rest);
      assert rest[..|rest| - 1] == cs[..|cs| - 1][1..];
    } else {
      assert cs[..0] == [] && cs[1..] == [];
    }
  }

  lemma FeedbackOne(m: Controller, c: Completion, n: nat)
    requires n < NODE_COUNT
    ensures var r := Feedback(m, c);
      && r.focus == m.focus && r.background == m.background
      && r.streak[n] == (if Succeeds(c, n) then 0 else if Fails(c, n) && m.streak[n] < 255 then m.streak[n] + 1 else m.streak[n])
      && r.cooldown[n] == (if Succeeds(c, n) then 0
                           else if m.cooldown[n] > 0 || !Fails(c, n) then m.cooldown[n]
                           else if c.result == InvalidEof then 160
                           else if r.streak[n] >= 3 then 96 else 0)
  {
  }

  // Completions count: streak and cooldown of every node are what its successes and failures make them.
  lemma {:induction false} FeedbackCounts(m: Controller, cs: seq<Completion>, n: nat)
    requires n < NODE_COUNT
    ensures var r := FeedbackAll(m, cs);
      && r.focus == m.focus && r.background == m.background
      && r.streak[n] == Row(m.streak[n], cs, n) && r.cooldown[n] == CooldownAfter(m.streak[n], m.cooldown[n], cs, n)
    decreases |cs|
  {
    hide Feedback, FeedbackAll, Fails, Succeeds;
    if |cs| == 0 {
      NoFeedback(m);
    } else {
      FeedbackCounts(m, cs[..|cs| - 1], n);
      FeedbackLast(m, cs);
      FeedbackOne(FeedbackAll(m, cs[..|cs| - 1]), cs[|cs| - 1], n);
    }
  }

  lemma NoFeedback(m: Controller)
    ensures FeedbackAll(m, []) == m
  {
  }

  function FailureCount(cs: seq<Completion>, n: nat): nat
    decreases |cs|
  {
    if |cs| == 0 then 0 else FailureCount(cs[..|cs| - 1], n) + if Fails(cs[|cs| - 1], n) then 1 else 0
  }

  // From a clean record, timeouts of a node start its cooldown exactly when they are three.
  lemma {:induction false} ThreeTimeouts(cs: seq<Completion>, n: nat)
    requires forall k | 0 <= k < |cs| :: !Succeeds(cs[k], n) && (Fails(cs[k], n) ==> cs[k].result != InvalidEof)
    ensures Row(0, cs, n) == if FailureCount(cs, n) < 255 then FailureCount(cs, n) else 255
    ensures CooldownAfter(0, 0, cs, n) == if FailureCount(cs, n) >= 3 then 96 else 0
    decreases |cs|
  {
    hide Fails, Succeeds;
    if |cs| > 0 { ThreeTimeouts(cs[..|cs| - 1], n); }
  }

  // A completion of another node, of a command or of an exchange that is not periodic changes nothing,
  // unless it is a success.
  lemma {:induction false} OthersIgnored(start: nat, cool: nat, cs: seq<Completion>, n: nat)
    requires forall k | 0 <= k < |cs| :: !Succeeds(cs[k], n) && !Fails(cs[k], n)
    ensures Row(start, cs, n) == start && CooldownAfter(start, cool, cs, n) == cool
    decreases |cs|
  {
    hide Fails, Succeeds;
    if |cs| > 0 { OthersIgnored(start, cool, cs[..|cs| - 1], n); }
  }

  // --- policy ------------------------------------------------------------------------------

  // A node whose cooldown is over and that has a periodic task or finds a slot free at its turn.
  predicate Ready(m: Controller, s: Sched, n: nat)
    requires n < NODE_COUNT
  {
    m.cooldown[n] == 0 && (PeriodicClass(s.tasks, n).Some? || AllocSlot(NodeSteps(m, s, Turn(n)).tasks, 0).Some?)
  }

  // After the node steps: a node in focus has its task in the priority queue, in the background or not; one
  // that is only in the background in the normal queue; any other, and every one in a cooldown, has none.
  lemma PolicySays(m: Controller, s: Sched, n: nat)
    requires n < NODE_COUNT && SchedOk(s)
    ensures var has := PeriodicClass(NodeSteps(m, s, NODE_COUNT).tasks, n);
      && (m.cooldown[n] > 0 ==> has == None)
      && (m.focus != Some(n) && !m.background[n] ==> has == None)
      && (Ready(m, s, n) && m.focus == Some(n) ==> has == Some(Priority))
      && (Ready(m, s, n) && m.focus != Some(n) && m.background[n] ==> has == Some(Normal))
  {
    PolicyEnforced(m, s, n);
    hide PeriodicClass, NodeSteps, SchedOk, AllocSlot;
  }

  // --- a tick ------------------------------------------------------------------------------

  // The mode when the nodes take their steps.
  function Deciding(c: Cs, i: Input): Controller
    requires Proper(i)
  {
    ModeTick(PerformAll(c, i.controls)).mode
  }

  // Focus and background are what the operator last said, and the record is what the completions make of it,
  // a tick older.
  lemma ModeSays(c: Cs, i: Input, n: nat)
    requires Proper(i) && n < NODE_COUNT
    ensures var p, m := PerformAll(c, i.controls), Deciding(c, i);
      var cool := CooldownAfter(p.mode.streak[n], p.mode.cooldown[n], p.sched.completions, n);
      && m.focus == FocusAfter(c.mode.focus, i.controls)
      && m.background[n] == BackgroundAfter(c.mode.background[n], i.controls, n)
      && m.cooldown[n] == (if cool == 0 then 0 else cool - 1)
      && m.streak[n] == (if cool == 1 then 0 else Row(p.mode.streak[n], p.sched.completions, n))
    ensures CsTick(c, i).mode == Deciding(c, i)
  {
    var p := PerformAll(c, i.controls);
    ControlsSay(c, i.controls, n);
    FeedbackCounts(p.mode, p.sched.completions, n);
    hide PerformAll, FeedbackAll, NodeSteps, ExchangeControl, MarkArmed, CooldownAfter, FocusAfter, BackgroundAfter, Row;
  }

  lemma MidOk(c: Cs, i: Input)
    requires Proper(i) && CsOk(c) && SingleAll(c, i.controls)
    ensures SchedOk(ModeTick(PerformAll(c, i.controls)).sched)
  {
    hide PerformAll, ModeTick, StreaksOk, SchedOk, SingleAll;
    PerformAllKeeps(c, i.controls);
    ModeTickKeeps(PerformAll(c, i.controls));
  }

  // Neither in the background nor in focus.
  predicate Off(m: Controller, n: nat)
    requires n < NODE_COUNT
  {
    !m.background[n] && m.focus != Some(n)
  }

  // The calls neither enable nor focus the node.
  predicate LeavesOff(cs: seq<Ctl>, n: nat) {
    forall k | 0 <= k < |cs| :: cs[k] != Background(n, true) && cs[k] != Focus(n)
  }

  lemma {:induction false} StaysOff(focus: Option<nat>, on: bool, cs: seq<Ctl>, n: nat)
    requires LeavesOff(cs, n)
    ensures focus != Some(n) ==> FocusAfter(focus, cs) != Some(n)
    ensures !on ==> !BackgroundAfter(on, cs, n)
    decreases |cs|
  {
    if |cs| > 0 { StaysOff(focus, on, cs[..|cs| - 1], n); }
  }

  // In a tick in which a node is off when the nodes take their steps, its periodic task is gone after them
  // and no exchange of it starts.
  lemma OffIsQuiet(c: Cs, i: Input, n: nat)
    requires Proper(i) && CsOk(c) && SingleAll(c, i.controls) && n < NODE_COUNT && Off(Deciding(c, i), n)
    ensures PeriodicClass(MidTick(c, i).sched.tasks, n) == None && !Starts(c, i, n)
  {
    MidOk(c, i);
    var t := ModeTick(PerformAll(c, i.controls));
    PolicySays(t.mode, t.sched, n);
    hide PerformAll, ModeTick, NodeSteps, StreaksOk, SchedOk, SingleAll, PeriodicClass, Starts, Ready, CsOk;
    if Starts(c, i, n) { StartsOnlyIfAllowed(c, i, n); }
  }

  predicate OffUntil(ins: seq<Input>, k: nat, n: nat) { forall j | 0 <= j < k && j < |ins| :: LeavesOff(ins[j].controls, n) }

  lemma {:induction false} OffOverRun(c: Cs, ins: seq<Input>, k: nat, n: nat)
    requires AllProper(ins) && k <= |ins| && n < NODE_COUNT && Off(c.mode, n) && OffUntil(ins, k, n)
    ensures Off(RunTicks(c, ins, k).mode, n)
    decreases k
  {
    hide CsTick;
    if k > 0 {
      OffOverRun(c, ins, k - 1, n);
      var b := RunTicks(c, ins, k - 1);
      ModeSays(b, ins[k - 1], n);
      StaysOff(b.mode.focus, b.mode.background[n], ins[k - 1].controls, n);
      hide Deciding, PerformAll, FocusAfter, BackgroundAfter;
    }
  }

  // A node that is off keeps quiet, tick after tick, until somebody enables or focuses it.
  lemma OffStaysQuiet(c: Cs, ins: seq<Input>, k: nat, n: nat)
    requires CsOk(c) && AllProper(ins) && k < |ins| && n < NODE_COUNT && Off(c.mode, n) && OffUntil(ins, k + 1, n)
    requires forall j :: 0 <= j <= k ==> SingleAt(c, ins, j)
    ensures var b := RunTicks(c, ins, k);
      !Starts(b, ins[k], n) && PeriodicClass(MidTick(b, ins[k]).sched.tasks, n) == None
  {
    OffOverRun(c, ins, k, n);
    RunKeeps(c, ins, k);
    var b := RunTicks(c, ins, k);
    assert SingleAt(c, ins, k);
    ModeSays(b, ins[k], n);
    StaysOff(b.mode.focus, b.mode.background[n], ins[k].controls, n);
    hide RunTicks, CsOk, SingleAll, Starts, MidTick, PeriodicClass, FocusAfter, BackgroundAfter, PerformAll, CsTick, Deciding;
    OffIsQuiet(b, ins[k], n);
  }

  // The last of these calls on the node takes it out of the background.
  predicate LastDisables(cs: seq<Ctl>, n: nat) {
    exists j | 0 <= j < |cs| :: cs[j] == Background(n, false) && forall k | j < k < |cs| :: cs[k] != Background(n, true)
  }

  lemma {:induction false} DisabledOff(on: bool, cs: seq<Ctl>, n: nat)
    requires LastDisables(cs, n)
    ensures !BackgroundAfter(on, cs, n)
    decreases |cs|
  {
    var j :| 0 <= j < |cs| && cs[j] == Background(n, false) && forall k | j < k < |cs| :: cs[k] != Background(n, true);
    if j < |cs| - 1 {
      assert cs[..|cs| - 1][j] == Background(n, false);
      DisabledOff(on, cs[..|cs| - 1], n);
    }
  }

  // Disabling a node that is not in focus stops its exchanges in the same tick, and they stay stopped in
  // every later tick until somebody enables or focuses it.
  lemma DisabledStaysQuiet(c: Cs, i: Input, ins: seq<Input>, k: nat, n: nat)
    requires CsOk(c) && Proper(i) && SingleAll(c, i.controls) && n < NODE_COUNT
    requires LastDisables(i.controls, n) && FocusAfter(c.mode.focus, i.controls) != Some(n)
    requires AllProper(ins) && k < |ins| && OffUntil(ins, k + 1, n) && forall j :: 0 <= j <= k ==> SingleAt(CsTick(c, i), ins, j)
    ensures !Starts(c, i, n) && PeriodicClass(MidTick(c, i).sched.tasks, n) == None
    ensures var b := RunTicks(CsTick(c, i), ins, k);
      !Starts(b, ins[k], n) && PeriodicClass(MidTick(b, ins[k]).sched.tasks, n) == None
  {
    ModeSays(c, i, n);
    DisabledOff(c.mode.background[n], i.controls, n);
    hide RunTicks, CsOk, SingleAll, Starts, MidTick, PeriodicClass, FocusAfter, BackgroundAfter, PerformAll, CsTick, Deciding, OffUntil;
    OffIsQuiet(c, i, n);
    TickKeeps(c, i);
    OffStaysQuiet(CsTick(c, i), ins, k, n);
  }

  // A node that the operator enables or newly focuses is polled in the same tick, whatever cooldown it was
  // in: in the priority queue if it is in focus, else in the normal one.
  lemma WipedIsPolled(c: Cs, i: Input, n: nat)
    requires CsOk(c) && Proper(i) && SingleAll(c, i.controls) && n < NODE_COUNT && Wiped(c.mode.focus, i.controls, n)
    requires FocusAfter(c.mode.focus, i.controls) == Some(n) || BackgroundAfter(c.mode.background[n], i.controls, n)
    requires var p := PerformAll(c, i.controls); forall k | 0 <= k < |p.sched.completions| :: !Fails(p.sched.completions[k], n)
    requires var t := ModeTick(PerformAll(c, i.controls));
      PeriodicClass(t.sched.tasks, n).Some? || AllocSlot(NodeSteps(t.mode, t.sched, Turn(n)).tasks, 0).Some?
    ensures PeriodicClass(MidTick(c, i).sched.tasks, n)
         == Some(if FocusAfter(c.mode.focus, i.controls) == Some(n) then Priority else Normal)
  {
    var p, t := PerformAll(c, i.controls), ModeTick(PerformAll(c, i.controls));
    ModeSays(c, i, n);
    ControlsSay(c, i.controls, n);
    NoFailureNoCooldown(p.mode.streak[n], p.sched.completions, n);
    MidOk(c, i);
    PolicySays(t.mode, t.sched, n);
    hide PerformAll, NodeSteps, SchedOk, CsOk, SingleAll, PeriodicClass, FocusAfter, BackgroundAfter, CooldownAfter, Row, Wiped,
         AllocSlot, Fails;
  }

  lemma {:induction false} NoFailureNoCooldown(start: nat, cs: seq<Completion>, n: nat)
    requires forall k | 0 <= k < |cs| :: !Fails(cs[k], n)
    ensures CooldownAfter(start, 0, cs, n) == 0
    decreases |cs|
  {
    hide Fails, Succeeds;
    if |cs| > 0 { NoFailureNoCooldown(start, cs[..|cs| - 1], n); }
  }
}
