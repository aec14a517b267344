// Commands staged while an exchange with their node is in flight: when they are still sent, and runs in
// which commands are lost.
module StagedCommands {
  import opened Wire
  import opened MsgBlock
  import opened CommTable
  import opened CommandWindows

  // --- the command area once an exchange has ended -----------------------------------------

  ghost function CsFieldOf(c: Config, n: nat, i: nat): (f: Field)
    requires ConfigOk(c) && FieldOf(c, n, i)
    ensures f.Fits(c.cmdBlocks) && c.nodes[n].comBase <= f.block < c.nodes[n].comBase + c.nodes[n].comBlocks
  {
    FieldFits(c, n, i);
    FitsAll(c, n);
    c.rows[i].CsField()
  }

  // Nothing is staged for field i.
  ghost predicate Unstaged(c: Config, cmd: seq<word>, n: nat, i: nat)
    requires ConfigOk(c) && FieldOf(c, n, i) && |cmd| == c.cmdBlocks
  {
    Get(cmd, CsFieldOf(c, n, i)) == 0
  }

  // Clearing a window leaves a field outside it alone and empties one inside it.
  lemma ClearedWindowField(c: Config, w: Wires, m: nat, n: nat, i: nat)
    requires ConfigOk(c) && Shaped(c, w) && FieldOf(c, n, i) && m < |c.nodes|
    ensures |ClearMsgWindow(w, c.nodes[m]).cmd| == c.cmdBlocks
    ensures m == n || Unstaged(c, w.cmd, n, i) ==> Unstaged(c, ClearMsgWindow(w, c.nodes[m]).cmd, n, i)
  {
    FitsAll(c, m);
    var f, r := CsFieldOf(c, n, i), ClearMsgWindow(w, c.nodes[m]).cmd;
    if r[f.block] == 0 { ZeroField(r, f); }
    hide DisjointRows, SourcesFit, FieldsInWindow;
  }

  // A task of another node writes its own command into another window.
  lemma OwnElsewhere(c: Config, cmd: seq<word>, m: nat, own: Option<Own>, n: nat, i: nat)
    requires ConfigOk(c) && FieldOf(c, n, i) && |cmd| == c.cmdBlocks && m != n && EventFits(c, Arm(m, own))
    ensures Unstaged(c, Written(c.rows, cmd, own), n, i) <==> Unstaged(c, cmd, n, i)
  {
    if own.Some? {
      var f, g := CsFieldOf(c, m, own.value.row), CsFieldOf(c, n, i);
      assert NodesApart(c.nodes[m], c.nodes[n]);
      WriteIsSplice(cmd, f, own.value.raw);
      hide ConfigOk;
    }
  }

  // A task of the node itself that writes another of its fields leaves this one alone.
  lemma OwnOther(c: Config, cmd: seq<word>, n: nat, own: Option<Own>, i: nat)
    requires ConfigOk(c) && FieldOf(c, n, i) && |cmd| == c.cmdBlocks && EventFits(c, Arm(n, own))
    requires own.Some? ==> own.value.row != i
    ensures Unstaged(c, Written(c.rows, cmd, own), n, i) <==> Unstaged(c, cmd, n, i)
  {
    if own.Some? {
      FitsAll(c, n);
      var k, raw := own.value.row, own.value.raw;
      var f, g := CsFieldOf(c, n, k), CsFieldOf(c, n, i);
      assert k < i ==> c.rows[k].DeviceField().Apart(c.rows[i].DeviceField());
      assert i < k ==> c.rows[i].DeviceField().Apart(c.rows[k].DeviceField());
      assert f.Apart(g);
      WriteIsSplice(cmd, f, raw);
      StoredBound(f.width, raw);
      GetOfPut(cmd, f, Stored(f.width, raw), g);
      hide ConfigOk, DisjointRows, Put, Get;
    }
  }

  // What was staged for a node has been taken or cleared once no exchange with it is in flight, and
  // only staging brings anything back.
  predicate Quiet(evs: seq<Event>, k: nat, n: nat) {
    k < |evs| ==> !evs[k].Stage? && !(evs[k].Arm? && evs[k].node == n)
  }

  ghost predicate EmptiedAt(c: Config, evs: seq<Event>, k: nat, n: nat, i: nat)
    requires Run(c, evs) && k <= |evs| && FieldOf(c, n, i)
  {
    (FlightAt(evs, k).InFlight? && FlightAt(evs, k).node == n) || Unstaged(c, WiresAt(c, evs, k).cmd, n, i)
  }

  lemma StaysEmptied(c: Config, evs: seq<Event>, k: nat, n: nat, i: nat)
    requires Run(c, evs) && k < |evs| && FieldOf(c, n, i) && Quiet(evs, k, n) && EmptiedAt(c, evs, k, n, i)
    ensures EmptiedAt(c, evs, k + 1, n, i)
  {
    assert EventOk(c, evs, k);
    FlightStaysOk(c, evs, k);
    var w, f, e := WiresAt(c, evs, k), FlightAt(evs, k), evs[k];
    match e
    case Stage(_) =>
    case Arm(m, own) =>
      OwnElsewhere(c, w.cmd, m, own, n, i);
      FitsAll(c, m);
      ArmClears(c, w, m, Written(c.rows, w.cmd, own), n, i);
    case Doom =>
    case Finish(success) =>
      FitsAll(c, f.node);
      FinishClears(c, w, f.node, OutcomeOf(f, success), n, i);
    case Cancel(m) =>
      FitsAll(c, m);
      CancelClears(c, w, m, n, i);
  }

  lemma ArmClears(c: Config, w: Wires, m: nat, own: seq<word>, n: nat, i: nat)
    requires ConfigOk(c) && Shaped(c, w) && FieldOf(c, n, i) && m < |c.nodes| && |own| == c.cmdBlocks
    ensures |ArmWindows(w, c.rows, c.nodes[m], m, own).cmd| == c.cmdBlocks
    ensures m == n || Unstaged(c, own, n, i) ==> Unstaged(c, ArmWindows(w, c.rows, c.nodes[m], m, own).cmd, n, i)
  {
    var v := w.(cmd := own);
    ClearedWindowField(c, v, m, n, i);
    var loaded := LoadPending(ClearBuffer(w, c.nodes[m]), c.nodes[m], m);
    assert ArmWindows(w, c.rows, c.nodes[m], m, own).cmd == ClearMsgWindow(v, c.nodes[m]).cmd by {
      hide ConfigOk, Overlay, ClearBlocks, CopyBlocks;
    }
    hide ArmWindows, ClearMsgWindow, Get;
  }

  lemma FinishClears(c: Config, w: Wires, m: nat, o: Outcome, n: nat, i: nat)
    requires ConfigOk(c) && Shaped(c, w) && FieldOf(c, n, i) && m < |c.nodes| && NodeFits(c, m)
    ensures |FinishWindows(w, c.nodes[m], m, o).cmd| == c.cmdBlocks
    ensures m == n || Unstaged(c, w.cmd, n, i) ==> Unstaged(c, FinishWindows(w, c.nodes[m], m, o).cmd, n, i)
  {
    ClearedWindowField(c, w, m, n, i);
    hide ClearMsgWindow, Get, ClearBlocks, CopyBlocks;
  }

  lemma CancelClears(c: Config, w: Wires, m: nat, n: nat, i: nat)
    requires ConfigOk(c) && Shaped(c, w) && FieldOf(c, n, i) && m < |c.nodes| && NodeFits(c, m)
    ensures |CancelWindows(w, c.nodes[m], m).cmd| == c.cmdBlocks
    ensures m == n || Unstaged(c, w.cmd, n, i) ==> Unstaged(c, CancelWindows(w, c.nodes[m], m).cmd, n, i)
  {
    var v := ClearBuffer(ClearPending(w, c.nodes[m], m), c.nodes[m]);
    assert v.cmd == w.cmd && Shaped(c, v);
    ClearedWindowField(c, v, m, n, i);
    hide ClearMsgWindow, Get, ClearBlocks;
  }

  lemma {:induction false} EmptiedUntil(c: Config, evs: seq<Event>, k: nat, e: nat, n: nat, i: nat)
    requires Run(c, evs) && k <= e <= |evs| && FieldOf(c, n, i) && EmptiedAt(c, evs, k, n, i)
    requires forall j :: k <= j < e ==> Quiet(evs, j, n)
    ensures EmptiedAt(c, evs, e, n, i)
    decreases e
  {
    hide EmptiedAt, Quiet, Run;
    if k < e {
      EmptiedUntil(c, evs, k, e - 1, n, i);
      assert Quiet(evs, e - 1, n);
      StaysEmptied(c, evs, e - 1, n, i);
    }
  }

  // --- the reference value until the next exchange -----------------------------------------

  // The event settles what is undelivered for node n: its exchange is delivered or was cancelled, or
  // everything for it is cancelled.
  predicate Settles(evs: seq<Event>, k: nat, n: nat) {
    k < |evs| && (evs[k] == Cancel(n)
      || (evs[k].Finish? && FlightAt(evs, k).InFlight? && FlightAt(evs, k).node == n && (FlightAt(evs, k).doomed || evs[k].success)))
  }

  predicate NotArmed(evs: seq<Event>, k: nat, n: nat) { k < |evs| ==> !(evs[k].Arm? && evs[k].node == n) }

  lemma {:induction false} LatestUntil(c: Config, evs: seq<Event>, k: nat, e: nat, n: nat, i: nat)
    requires Run(c, evs) && k <= e <= |evs| && i < |c.rows|
    requires forall j :: k <= j < e ==> NotArmed(evs, j, n)
    ensures (forall j :: k <= j < e ==> !Settles(evs, j, n)) ==> Latest(c, evs, e, n, i) == Latest(c, evs, k, n, i)
    ensures (exists j :: k <= j < e && Settles(evs, j, n)) ==> Latest(c, evs, e, n, i) == 0
    decreases e
  {
    hide Run, Seen, WiresAt;
    if k < e {
      LatestUntil(c, evs, k, e - 1, n, i);
      assert NotArmed(evs, e - 1, n);
      if Settles(evs, e - 1, n) {
      } else {
        assert Latest(c, evs, e, n, i) == Latest(c, evs, e - 1, n, i);
      }
    }
  }

  // --- when a command staged in flight is still sent ---------------------------------------

  // A nonzero x is staged for field i of node n in event k, while n's exchange is in flight, and event e
  // is the next exchange with n, for a task without a command of its own for that field, with no staging
  // in between.
  ghost predicate StagedInFlight(c: Config, evs: seq<Event>, k: nat, e: nat, n: nat, i: nat, x: nat) {
    && Run(c, evs) && FieldOf(c, n, i) && k < e < |evs| && FlightAt(evs, k).InFlight? && FlightAt(evs, k).node == n
    && evs[k].Stage? && Seen(c, evs[k].cmd, i) == x != 0
    && evs[e].Arm? && evs[e].node == n && (evs[e].own.Some? ==> evs[e].own.value.row != i)
    && (forall j :: k < j < e ==> Quiet(evs, j, n))
    && (forall j :: 0 <= j < e ==> Harmless(c, evs, j, n, i))
  }

  lemma AreaEmptied(c: Config, evs: seq<Event>, k: nat, e: nat, n: nat, i: nat, x: nat)
    requires StagedInFlight(c, evs, k, e, n, i, x)
    ensures Seen(c, AreaAt(c, evs, e), i) == 0
  {
    assert EmptiedAt(c, evs, k + 1, n, i);
    EmptiedUntil(c, evs, k + 1, e, n, i);
    assert EventOk(c, evs, e);
    hide Run, WiresAt, Get, FlightAt, Harmless, Quiet, Written;
    assert Unstaged(c, WiresAt(c, evs, e).cmd, n, i);
    OwnOther(c, WiresAt(c, evs, e).cmd, n, evs[e].own, i);
  }

  lemma HeldWhenStaged(c: Config, evs: seq<Event>, k: nat, e: nat, n: nat, i: nat, x: nat)
    requires StagedInFlight(c, evs, k, e, n, i, x)
    ensures !FlightAt(evs, k).doomed ==> Get(WiresAt(c, evs, k).buf, DeviceField(c, n, i)) == Latest(c, evs, k, n, i)
    ensures Get(WiresAt(c, evs, e + 1).buf, DeviceField(c, n, i)) == Latest(c, evs, e + 1, n, i)
  {
    PendingRefinesLatest(c, evs, k, n, i);
    assert HoldsLatest(c, evs, k, n, i) by { hide HoldsLatest, Harmless; }
    SentIsLatest(c, evs, e, n, i);
    hide Run, WiresAt, Latest, FlightAt, Get;
  }

  lemma NotArmedBetween(c: Config, evs: seq<Event>, k: nat, e: nat, n: nat, i: nat, x: nat)
    requires StagedInFlight(c, evs, k, e, n, i, x)
    ensures forall j :: k <= j < e ==> NotArmed(evs, j, n)
  {
    forall j | k <= j < e ensures NotArmed(evs, j, n) {
      if k < j { assert Quiet(evs, j, n); }
    }
    hide Run, FlightAt, Harmless;
  }

  // A cancelled exchange ends before the node's next one, and that settles it.
  lemma {:induction false} DoomedSettles(c: Config, evs: seq<Event>, k: nat, e: nat, n: nat)
    requires Run(c, evs) && k <= e <= |evs| && FlightAt(evs, k) == InFlight(n, true)
    ensures FlightAt(evs, e) == InFlight(n, true) || exists j :: k <= j < e && Settles(evs, j, n)
    decreases e
  {
    hide ConfigOk;
    if k < e {
      DoomedSettles(c, evs, k, e - 1, n);
      assert EventOk(c, evs, e - 1);
      if FlightAt(evs, e - 1) == InFlight(n, true) && evs[e - 1].Finish? {
        assert Settles(evs, e - 1, n);
      }
    }
  }

  // It is sent by that next exchange exactly if it was already in the buffer when it was staged, and the
  // exchange in flight then fails without being delivered or cancelled. Otherwise it never leaves CS.
  lemma StagedInFlightSurvivesIff(c: Config, evs: seq<Event>, k: nat, e: nat, n: nat, i: nat, x: nat)
    requires StagedInFlight(c, evs, k, e, n, i, x)
    ensures Get(WiresAt(c, evs, e + 1).buf, DeviceField(c, n, i)) == x
       <==> Get(WiresAt(c, evs, k).buf, DeviceField(c, n, i)) == x && forall j :: k < j < e ==> !Settles(evs, j, n)
  {
    AreaEmptied(c, evs, k, e, n, i, x);
    HeldWhenStaged(c, evs, k, e, n, i, x);
    assert !Settles(evs, k, n);
    NotArmedBetween(c, evs, k, e, n, i, x);
    LatestUntil(c, evs, k, e, n, i);
    if FlightAt(evs, k).doomed {
      DoomedSettles(c, evs, k, e, n);
      assert EventOk(c, evs, e);
    }
    assert Latest(c, evs, e + 1, n, i) == Latest(c, evs, e, n, i) by { hide WiresAt, Seen, Run, AreaAt; }
    hide Run, WiresAt, Latest, FlightAt, Get, Settles, Quiet, Harmless;
  }

  // --- runs that lose a command ------------------------------------------------------------

  // Two nodes with one block and one command each.
  const TWO_NODES: Config := Config([
    Row(2, TypeAP, false, 1.0, 0.0, 0.0, 0, 0, 0, AlgAN), Row(3, TypeAP, false, 1.0, 0.0, 0.0, 0, 0, 1, AlgAN)],
    [Node(2, 2, 0, 1, 0, 1), Node(3, 3, 1, 1, 1, 1)], 2, 1)

  lemma TwoNodesOk()
    ensures ConfigOk(TWO_NODES) && FieldOf(TWO_NODES, 0, 0)
  {
    forall k | 0 <= k < 2 ensures NodeFits(TWO_NODES, k) {
    }
  }

  lemma WholeBlock(w: seq<word>, f: Field)
    requires f.Fits(|w|) && f.width == 16
    ensures Get(w, f) == w[f.block]
  {
    ReadIsSlice(w, f);
  }

  // 5 is sent to node 0, node 1 is cancelled meanwhile, the exchange fails, and it is retried.
  const CANCELLING_RUN: seq<Event> := [Arm(0, Some(Own(0, 5))), Cancel(1), Finish(false), Arm(0, None)]

  // 7 is staged for node 0 while an exchange with it is in flight, which fails and is retried.
  const STAGING_RUN: seq<Event> := [Arm(0, None), Stage([7, 0]), Finish(false), Arm(0, None)]

  lemma CancellingRunIsARun()
    ensures Run(TWO_NODES, CANCELLING_RUN)
    ensures FlightAt(CANCELLING_RUN, 0) == Grounded && FlightAt(CANCELLING_RUN, 1) == InFlight(0, false)
    ensures FlightAt(CANCELLING_RUN, 2) == InFlight(0, false) && FlightAt(CANCELLING_RUN, 3) == Grounded
  {
    TwoNodesOk();
    hide ConfigOk;
    var evs := CANCELLING_RUN;
    assert FlightAt(evs, 1) == InFlight(0, false) && FlightAt(evs, 2) == InFlight(0, false) && FlightAt(evs, 3) == Grounded;
    forall k | 0 <= k < 4 ensures EventOk(TWO_NODES, evs, k) {
    }
  }

  lemma StagingRunIsARun()
    ensures Run(TWO_NODES, STAGING_RUN)
    ensures FlightAt(STAGING_RUN, 0) == Grounded && FlightAt(STAGING_RUN, 1) == InFlight(0, false)
    ensures FlightAt(STAGING_RUN, 2) == InFlight(0, false) && FlightAt(STAGING_RUN, 3) == Grounded
  {
    TwoNodesOk();
    hide ConfigOk;
    var evs := STAGING_RUN;
    assert FlightAt(evs, 1) == InFlight(0, false) && FlightAt(evs, 2) == InFlight(0, false) && FlightAt(evs, 3) == Grounded;
    forall k | 0 <= k < 4 ensures EventOk(TWO_NODES, evs, k) {
    }
  }

  // The field of node 0 in the buffer.
  ghost function BufferField(evs: seq<Event>, k: nat): nat
    requires Run(TWO_NODES, evs) && k <= |evs|
  {
    TwoNodesOk();
    Get(WiresAt(TWO_NODES, evs, k).buf, DeviceField(TWO_NODES, 0, 0))
  }

  lemma FirstArea(evs: seq<Event>, raw: nat)
    requires Run(TWO_NODES, evs) && |evs| > 0 && raw < 0x10000
    requires evs[0] == Arm(0, if raw == 0 then None else Some(Own(0, raw)))
    ensures Seen(TWO_NODES, AreaAt(TWO_NODES, evs, 0), 0) == raw
  {
    var c, area := TWO_NODES, AreaAt(TWO_NODES, evs, 0);
    WholeBlock(area, c.rows[0].CsField());
  }

  // An exchange with node n is armed, node m is cancelled, the exchange fails and is retried.
  ghost predicate CancelledAndRetried(c: Config, evs: seq<Event>, n: nat, m: nat, i: nat) {
    && Run(c, evs) && FieldOf(c, n, i) && m < |c.nodes| && m != n && c.rows[i].block < c.nodes[m].comBlocks
    && |evs| == 4 && evs[0].Arm? && evs[0].node == n && evs[1] == Cancel(m) && evs[2] == Finish(false) && evs[3] == Arm(n, None)
    && FlightAt(evs, 1) == InFlight(n, false) && FlightAt(evs, 2) == InFlight(n, false) && FlightAt(evs, 3) == Grounded
  }

  lemma NothingKept(c: Config, evs: seq<Event>, n: nat, m: nat, i: nat)
    requires CancelledAndRetried(c, evs, n, m, i)
    ensures Get(WiresAt(c, evs, 3).pending[n], DeviceField(c, n, i)) == 0
  {
    hide Get, FinishWindows, CancelWindows, ConfigOk;
    FitsAll(c, m);
    FitsAll(c, n);
    CancelField(c, WiresAt(c, evs, 1), m, n, i);
    FinishField(c, WiresAt(c, evs, 2), n, Failed, n, i);
  }

  lemma NothingStaged(c: Config, evs: seq<Event>, n: nat, m: nat, i: nat)
    requires CancelledAndRetried(c, evs, n, m, i)
    ensures Seen(c, AreaAt(c, evs, 3), i) == 0
  {
    hide Get, NextWires, ConfigOk;
    assert EmptiedAt(c, evs, 1, n, i);
    EmptiedUntil(c, evs, 1, 3, n, i);
  }

  // The retry carries 0 in every field of n that lies in the front that cancelling m empties.
  lemma RetryAfterCancel(c: Config, evs: seq<Event>, n: nat, m: nat, i: nat)
    requires CancelledAndRetried(c, evs, n, m, i)
    ensures Get(WiresAt(c, evs, 4).buf, DeviceField(c, n, i)) == 0
  {
    hide Get, ArmWindows, ConfigOk, Seen;
    NothingKept(c, evs, n, m, i);
    NothingStaged(c, evs, n, m, i);
    ArmField(c, WiresAt(c, evs, 3), n, AreaAt(c, evs, 3), i);
  }

  // The retry sends 0, although 5 is what node 0 was last commanded and never got.
  lemma CancelLosesAnothersCommand()
    ensures Run(TWO_NODES, CANCELLING_RUN) && FieldOf(TWO_NODES, 0, 0)
    ensures BufferField(CANCELLING_RUN, 1) == 5
    ensures Latest(TWO_NODES, CANCELLING_RUN, 3, 0, 0) == 5
    ensures BufferField(CANCELLING_RUN, 4) == 0
  {
    CancellingRunIsARun();
    TwoNodesOk();
    hide ConfigOk, ArmWindows, Get;
    var c, evs := TWO_NODES, CANCELLING_RUN;
    FirstArea(evs, 5);
    ArmField(c, WiresAt(c, evs, 0), 0, AreaAt(c, evs, 0), 0);
    RetryAfterCancel(c, evs, 0, 1, 0);
    hide WiresAt;
    assert Latest(c, evs, 1, 0, 0) == 5;
    assert NotArmed(evs, 1, 0) && NotArmed(evs, 2, 0);
    LatestUntil(c, evs, 1, 3, 0, 0);
    assert !Settles(evs, 1, 0) && !Settles(evs, 2, 0);
  }

  // A value staged in flight when nothing is undelivered for its field is never sent.
  lemma StagedNeverSent(c: Config, evs: seq<Event>, k: nat, e: nat, n: nat, i: nat, x: nat)
    requires StagedInFlight(c, evs, k, e, n, i, x) && Latest(c, evs, k, n, i) == 0
    ensures Get(WiresAt(c, evs, e + 1).buf, DeviceField(c, n, i)) == 0
  {
    AreaEmptied(c, evs, k, e, n, i, x);
    HeldWhenStaged(c, evs, k, e, n, i, x);
    NotArmedBetween(c, evs, k, e, n, i, x);
    LatestUntil(c, evs, k, e, n, i);
    hide Run, WiresAt, FlightAt, Get, Settles, Quiet, Harmless, Seen, AreaAt;
    assert Latest(c, evs, e, n, i) == 0 by {
      if exists j :: k <= j < e && Settles(evs, j, n) {
      }
    }
    assert Latest(c, evs, e + 1, n, i) == Latest(c, evs, e, n, i);
  }

  lemma StagingIsInFlight()
    ensures StagedInFlight(TWO_NODES, STAGING_RUN, 1, 3, 0, 0, 7)
  {
    StagingRunIsARun();
    TwoNodesOk();
    WholeBlock([7, 0], TWO_NODES.rows[0].CsField());
    hide Run, WiresAt, Latest, ConfigOk, FlightAt;
  }

  // 7 was staged for node 0 and is never sent to it.
  lemma StagedValueIsLost()
    ensures StagedInFlight(TWO_NODES, STAGING_RUN, 1, 3, 0, 0, 7)
    ensures BufferField(STAGING_RUN, 4) == 0
  {
    StagingIsInFlight();
    var c, evs := TWO_NODES, STAGING_RUN;
    FirstArea(evs, 0);
    hide StagedInFlight, WiresAt, AreaAt, Seen;
    assert Latest(c, evs, 0, 0, 0) == 0;
    assert Latest(c, evs, 1, 0, 0) == 0;
    hide Latest;
    StagedNeverSent(c, evs, 1, 3, 0, 0, 7);
  }
}
