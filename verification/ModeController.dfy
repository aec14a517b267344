// The operating-mode state as the program keeps it, updated in place by feedback and by time.
module ModeControllers {
  import opened Wire
  import opened BusExchange
  import opened Scheduler
  import opened OperatingMode

  class ModeController {
    var focus: Option<nat>
    const background: array<bool>
    const streak: array<nat>
    const cooldown: array<nat>

    ghost predicate Valid() reads this {
      && background.Length == NODE_COUNT && streak.Length == NODE_COUNT && cooldown.Length == NODE_COUNT
      && streak != cooldown
    }

    ghost function View(): Controller
      requires Valid()
      reads this, background, streak, cooldown
    {
      Mode(focus, background[..], streak[..], cooldown[..])
    }

    constructor ()
      ensures Valid() && fresh(background) && fresh(streak) && fresh(cooldown)
      ensures View() == RESET
    {
      focus := None;
      background := new bool[NODE_COUNT](i => i == 1);
      streak := new nat[NODE_COUNT](_ => 0);
      cooldown := new nat[NODE_COUNT](_ => 0);
      new;
      assert background[..] == RESET.background;
      assert streak[..] == RESET.streak;
      assert cooldown[..] == RESET.cooldown;
    }

    method ClearTargetState(n: nat)
      requires Valid() && n < NODE_COUNT
      modifies streak, cooldown
      ensures View() == ClearState(old(View()), n)
    {
      streak[n] := 0;
      cooldown[n] := 0;
    }

    method OnExchangeFailure(n: nat, r: Result)
      requires Valid() && n < NODE_COUNT
      modifies streak, cooldown
      ensures View() == OnFailure(old(View()), n, r)
    {
      if streak[n] < STREAK_CAP {
        streak[n] := streak[n] + 1;
      }
      if streak[n] < ThresholdFor(r) {
        assert cooldown[..] == old(cooldown[..])[n := old(cooldown[n])];
        return;
      }
      if cooldown[n] == 0 {
        cooldown[n] := CooldownFor(r);
      }
    }

    // Consumes the completions in order.
    method UpdateCompletionFeedback(cs: seq<Completion>)
      requires Valid()
      modifies streak, cooldown
      ensures View() == FeedbackAll(old(View()), cs)
    {
      var k := 0;
      while k < |cs|
        invariant k <= |cs|
        invariant FeedbackAll(View(), cs[k..]) == FeedbackAll(old(View()), cs)
      {
        var c := cs[k];
        var node := NodeOf(c.target);
        assert cs[k..][1..] == cs[k + 1..];
        if node.Some? {
          if c.result == Success {
            ClearTargetState(node.value);
          } else if c.periodic && c.kind == DataTask {
            OnExchangeFailure(node.value, c.result);
          }
        }
        k := k + 1;
      }
    }

    method TickAllCooldowns()
      requires Valid()
      modifies streak, cooldown
      ensures View() == TickCooldowns(old(View()))
    {
      var i := 0;
      while i < cooldown.Length
        invariant i <= cooldown.Length
        invariant forall k :: i <= k < NODE_COUNT ==> streak[k] == old(streak[k]) && cooldown[k] == old(cooldown[k])
        invariant forall k :: 0 <= k < i ==> cooldown[k] == Cooled(old(cooldown[k]))
        invariant forall k :: 0 <= k < i ==> streak[k] == Forgiven(old(streak[k]), old(cooldown[k]))
      {
        if cooldown[i] != 0 {
          cooldown[i] := cooldown[i] - 1;
          if cooldown[i] == 0 {
            streak[i] := 0;
          }
        }
        i := i + 1;
      }
      assert streak[..] == TickCooldowns(old(View())).streak;
      assert cooldown[..] == TickCooldowns(old(View())).cooldown;
    }

    method SetFocusTarget(target: Target) returns (ok: bool)
      requires Valid()
      modifies this`focus, streak, cooldown
      ensures ok <==> NodeOf(target).Some?
      ensures View() == if ok then SetFocus(old(View()), NodeOf(target).value) else old(View())
    {
      var node := NodeOf(target);
      if node == None { return false; }
      if focus == node { return true; }
      focus := node;
      ClearTargetState(node.value);
      ok := true;
    }

    method SetBackgroundTarget(target: Target, on: bool) returns (ok: bool)
      requires Valid()
      modifies background, streak, cooldown
      ensures ok <==> NodeOf(target).Some?
      ensures View() == if ok then SetBackground(old(View()), NodeOf(target).value, on) else old(View())
    {
      var node := NodeOf(target);
      if node == None { return false; }
      background[node.value] := on;
      if on {
        ClearTargetState(node.value);
      }
      ok := true;
    }
  }
}
