// The node steps of a tick: each node's policy is read from the mode controller and put into the scheduler.
module NodeStepping {
  import opened Wire
  import opened Scheduler
  import opened TaskTables
  import opened OperatingMode
  import opened ModeControllers

  method ApplyPeriodicPolicy(modes: ModeController, table: TaskTable, n: nat)
    requires modes.Valid() && table.Valid() && n < NODE_COUNT
    modifies table`normal, table`priority, table`nextId, table.tasks
    ensures table.View() == ApplyPolicy(modes.View(), old(table.View()), n)
  {
    hide Apply;
    var target := TargetOf(n);
    if modes.cooldown[n] == 0 && (modes.background[n] || modes.focus == Some(n)) {
      var _ := table.EnsurePeriodicExchange(target, if modes.focus == Some(n) then Priority else Normal);
    } else {
      var _ := table.CancelPeriodicExchange(target);
    }
  }

  // All node steps, in the fixed order.
  method RunNodeStepOrder(modes: ModeController, table: TaskTable)
    requires modes.Valid() && table.Valid()
    modifies table`normal, table`priority, table`nextId, table.tasks
    ensures table.View() == NodeSteps(modes.View(), old(table.View()), NODE_COUNT)
  {
    hide ApplyPolicy;
    for k := 0 to NODE_COUNT
      invariant table.View() == NodeSteps(modes.View(), old(table.View()), k)
      invariant modes.View() == old(modes.View())
    {
      ApplyPeriodicPolicy(modes, table, NodeOrder(k));
    }
  }
}
