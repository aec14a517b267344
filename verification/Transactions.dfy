// Runs of the closed system: lockstep in every reachable state, exact timing of an exchange, what it
// delivers, and independence of the order in which the parties step within a tick.
module Transactions {
  import opened Wire
  import opened MsgBlock
  import opened CommTable
  import opened BusExchange
  import opened MockBus
  import opened Lockstep
  import opened ClosedSystem
  import H = MsgHeader

  // S[j] is the joint state before tick t0 + j and M[j] what the software has made of it before
  // the parties step in that tick.
  ghost predicate IsRun(S: seq<Sys>, M: seq<Sys>, rows: seq<Row>, t0: nat) {
    && |S| == |M| + 1
    && forall j | 0 <= j < |M| :: App(S[j], M[j]) && S[j + 1] == Tick(M[j], rows, t0 + j)
  }

  // Freshly bound parties are quiet.
  lemma FreshIsQuiet(s: Sys)
    requires Configured(s) && s.visible == None
    requires forall i | 0 <= i < |s.parties| :: s.parties[i].ctl.exchange == Rx && s.parties[i].ctl.rx == RxSof && !s.parties[i].ctl.busy
    ensures InPhase(s, Quiet)
  {
  }

  lemma RunStep(S: seq<Sys>, M: seq<Sys>, rows: seq<Row>, t0: nat, j: nat)
    requires IsRun(S, M, rows, t0) && j < |M|
    ensures App(S[j], M[j]) && S[j + 1] == Tick(M[j], rows, t0 + j)
  {
    hide App, Tick;
  }

  lemma AppParties(s: Sys, m: Sys)
    requires App(s, m)
    ensures |m.parties| == |s.parties| >= 1
  {
  }

  lemma {:induction false} ReachablePhase(S: seq<Sys>, M: seq<Sys>, rows: seq<Row>, t0: nat, j: nat) returns (ph: Phase)
    requires IsRun(S, M, rows, t0) && InPhase(S[0], Quiet) && j < |S|
    ensures InPhase(S[j], ph)
    decreases j
  {
    hide InPhase, App, Tick, NextPhase;
    ph := Quiet;
    if j > 0 {
      var before := ReachablePhase(S, M, rows, t0, j - 1);
      RunStep(S, M, rows, t0, j - 1);
      AppParties(S[j - 1], M[j - 1]);
      PhaseStep(S[j - 1], M[j - 1], before, rows, t0 + (j - 1));
      ph := NextPhase(before, M[j - 1]);
    }
  }

  // Software that does nothing is allowed in every phase.
  lemma IdleSoftware(s: Sys, ph: Phase)
    requires InPhase(s, ph)
    ensures App(s, s)
  {
    hide OneBehind, TxAt, Finished, HeaderFor;
  }

  // Runs of every length exist, from every quiet state and whatever the software does first.
  lemma {:induction false} RunsExist(s: Sys, m: Sys, rows: seq<Row>, t0: nat, n: nat) returns (S: seq<Sys>, M: seq<Sys>)
    requires InPhase(s, Quiet) && App(s, m)
    ensures IsRun(S, M, rows, t0) && |M| == n && S[0] == s && (n > 0 ==> M[0] == m)
    decreases n
  {
    hide InPhase, App, Tick;
    if n == 0 {
      S, M := [s], [];
    } else {
      S, M := RunsExist(s, m, rows, t0, n - 1);
      var next := m;
      if n > 1 {
        var ph := ReachablePhase(S, M, rows, t0, n - 1);
        IdleSoftware(S[n - 1], ph);
        next := S[n - 1];
      }
      var S1, M1 := S + [Tick(next, rows, t0 + (n - 1))], M + [next];
      forall j | 0 <= j < n ensures App(S1[j], M1[j]) && S1[j + 1] == Tick(M1[j], rows, t0 + j) {
        if j < n - 1 { RunStep(S, M, rows, t0, j); }
      }
      S, M := S1, M1;
    }
  }

  // --- lockstep ----------------------------------------------------------------------------

  // Bytes of its frame a sender has written, and a listener has consumed.
  function Written(p: Party): nat {
    match p.ctl.tx
    case TxSof => 0
    case TxHeader => 1 + p.ctl.subClock
    case TxData => 3 + p.ctl.subClock
    case TxEof => 3 + 2 * p.ctl.nBlocks
  }

  function Consumed(p: Party): nat {
    match p.ctl.rx
    case RxSof => 0
    case RxHeader => 1 + p.ctl.subClock
    case RxData => 3 + p.ctl.subClock
    case RxEof => 3 + 2 * p.ctl.nBlocks
  }

  predicate Sending(m: Sys, i: nat)
    requires i < |m.parties|
  {
    m.parties[i].ctl.exchange == Tx
  }

  // At most one party sends; every other party is exactly one byte behind it, addressed or not; a
  // visible SOF that anyone would act on is the first byte of a frame, and the byte an EOF is
  // expected at is an EOF with nobody sending any more.
  ghost predicate InStep(m: Sys) {
    && (forall a: nat, b: nat | a < |m.parties| && b < |m.parties| && a != b && Sending(m, a) ::
          && m.parties[b].ctl.exchange == Rx
          && Written(m.parties[a]) == if Written(m.parties[a]) == 0 then Consumed(m.parties[b]) else Consumed(m.parties[b]) + 1)
    && (forall b: nat | b < |m.parties| && m.parties[b].ctl.exchange == Rx && m.parties[b].ctl.rx == RxSof && m.visible == Some(SOF) ::
          exists a: nat :: a < |m.parties| && Sending(m, a) && Written(m.parties[a]) == 1)
    && (forall b: nat | b < |m.parties| && m.parties[b].ctl.exchange == Rx && m.parties[b].ctl.rx == RxEof && m.visible != None ::
          m.visible == Some(EOF) && forall a: nat | a < |m.parties| :: !Sending(m, a))
  }

  lemma SenderPosition(p: Party, k: nat, n: nat, dst: nat, flag: nat)
    requires TxAt(p, k, n, dst, flag)
    ensures p.ctl.exchange == Tx && Written(p) == k
  {
  }

  lemma ListenerPosition(p: Party, k: nat, n: nat, dst: nat, flag: nat, w: word, sent: seq<byte>)
    requires 1 <= k <= FrameLength(n) && |sent| == PayloadCount(k, n) && OneBehind(p, k, n, dst, flag, w, sent)
    ensures p.ctl.exchange == Rx && Consumed(p) == k - 1
    ensures p.ctl.rx == RxSof <==> k == 1
    ensures p.ctl.rx == RxEof <==> k == FrameLength(n)
  {
  }

  lemma FinishedPosition(p: Party, dst: nat, flag: nat, n: nat)
    requires Finished(p, dst, flag, n)
    ensures p.ctl.exchange == Rx && p.ctl.rx == RxSof
  {
  }

  // One sender j at k bytes with everyone else one byte behind is in step.
  lemma FrameInStep(m: Sys, j: nat, k: nat, n: nat, dst: nat, flag: nat, sent: seq<byte>)
    requires j < |m.parties| && 1 <= k <= FrameLength(n) && |sent| == PayloadCount(k, n)
    requires if k < FrameLength(n) then TxAt(m.parties[j], k, n, dst, flag) else Finished(m.parties[j], dst, flag, n)
    requires m.visible == Carried(k, n, m.parties[j].ctl.header, sent)
    requires forall i: nat | i < |m.parties| && i != j ::
      OneBehind(m.parties[i], k, n, dst, flag, m.parties[j].ctl.header, sent)
    ensures InStep(m)
  {
    hide TxAt, OneBehind, Finished, Written, Consumed;
    forall i: nat | i < |m.parties| && i != j
      ensures m.parties[i].ctl.exchange == Rx && Consumed(m.parties[i]) == k - 1
           && (m.parties[i].ctl.rx == RxSof <==> k == 1) && (m.parties[i].ctl.rx == RxEof <==> k == FrameLength(n))
    {
      ListenerPosition(m.parties[i], k, n, dst, flag, m.parties[j].ctl.header, sent);
    }
    if k < FrameLength(n) {
      SenderPosition(m.parties[j], k, n, dst, flag);
      assert Sending(m, j);
    } else {
      FinishedPosition(m.parties[j], dst, flag, n);
    }
  }

  // In every reachable joint state, whatever the software does, the parties are in step.
  lemma ReachableInStep(S: seq<Sys>, M: seq<Sys>, rows: seq<Row>, t0: nat, j: nat)
    requires IsRun(S, M, rows, t0) && InPhase(S[0], Quiet) && j < |M|
    ensures InStep(M[j])
  {
    var ph := ReachablePhase(S, M, rows, t0, j);
    var m := M[j];
    if ph.Quiet? {
      QuietInStep(S[j], m);
    } else {
      AppKeepsPhase(S[j], m, ph);
      PhaseInStep(m, ph);
    }
  }

  lemma QuietInStep(s: Sys, m: Sys)
    requires InPhase(s, Quiet) && App(s, m)
    ensures InStep(m)
  {
    forall i: nat | 1 <= i < |m.parties| ensures m.parties[i].ctl.exchange == Rx && m.parties[i].ctl.rx == RxSof {
      assert DeviceApp(s.parties[i], m.parties[i]);
    }
  }

  lemma PhaseInStep(m: Sys, ph: Phase)
    requires InPhase(m, ph) && !ph.Quiet?
    ensures InStep(m)
  {
    hide TxAt, OneBehind, Finished, InStep;
    match ph {
      case Request(k, n, dst, flag, sent) => FrameInStep(m, 0, k, n, dst, flag, sent);
      case Response(d, k, n, flag, sent) => FrameInStep(m, d, k, n, Cs(m).who.selfAddr, flag, sent);
      case Turnaround(d, flag) => RestInStep(m, d);
      case Waiting(w, dst) => RestInStep(m, 0);
    }
  }

  lemma RestInStep(m: Sys, d: nat)
    requires d < |m.parties| && m.visible == None
    requires forall i: nat | i < |m.parties| && i != d :: AtRest(m.parties[i])
    requires m.parties[d].ctl.exchange == Tx ==> m.parties[d].ctl.tx == TxSof
    ensures InStep(m)
  {
  }

  // --- order of stepping -------------------------------------------------------------------

  datatype Serial = Serial(bus: BusState, parties: seq<Party>)

  // The first n parties of the order step one after the other on the shared bus.
  function StepInOrder(bus: BusState, parties: seq<Party>, order: seq<nat>, n: nat, rows: seq<Row>, t: nat): (r: Serial)
    requires n <= |order| && forall k | 0 <= k < |order| :: order[k] < |parties|
    ensures |r.parties| == |parties|
  {
    if n == 0 then Serial(bus, parties)
    else
      var before := StepInOrder(bus, parties, order, n - 1, rows, t);
      var i := order[n - 1];
      var out := Step(before.parties[i], rows, t, ReadBus(before.bus, t));
      Serial(if out.write.Some? then WriteBus(before.bus, t, out.write.value) else before.bus,
             before.parties[i := out.party])
  }

  // Every party occurs in the order, once.
  ghost predicate IsOrder(order: seq<nat>, count: nat) {
    && (forall k | 0 <= k < |order| :: order[k] < count)
    && (forall k, l | 0 <= k < l < |order| :: order[k] != order[l])
    && (forall i: nat | i < count :: i in order)
  }

  // Whatever the order, each party steps on the byte visible at the start of the tick, and the bus
  // carries the byte of the only writer.
  lemma {:induction false} OrderPrefix(bus: BusState, parties: seq<Party>, order: seq<nat>, n: nat, rows: seq<Row>, t: nat, j: nat)
    requires IsOrder(order, |parties|) && n <= |order| && Settled(bus) && j < |parties|
    requires forall i: nat | i < |parties| && i != j :: Step(parties[i], rows, t, ReadBus(bus, t)).write == None
    ensures var r := StepInOrder(bus, parties, order, n, rows, t);
      && (forall i: nat | i < |parties| :: r.parties[i]
            == if i in order[..n] then Step(parties[i], rows, t, ReadBus(bus, t)).party else parties[i])
      && ReadBus(r.bus, t) == ReadBus(bus, t)
      && var v := Step(parties[j], rows, t, ReadBus(bus, t)).write;
         r.bus == if j in order[..n] && v.Some? then WriteBus(bus, t, v.value) else bus
    decreases n
  {
    hide Step;
    if n > 0 {
      OrderPrefix(bus, parties, order, n - 1, rows, t, j);
      assert order[..n] == order[..n - 1] + [order[n - 1]];
      assert order[n - 1] !in order[..n - 1];
    }
  }

  // All orders of stepping within a tick give the same joint state after the bus tick.
  lemma OrderDoesNotMatter(bus: BusState, parties: seq<Party>, order: seq<nat>, rows: seq<Row>, t: nat)
    requires IsOrder(order, |parties|) && Settled(bus) && |parties| >= 1
    requires InStep(Sys(parties, ReadBus(bus, t)))
    requires forall i: nat | i < |parties| :: parties[i].ctl.exchange != Bypass
    ensures var r := StepInOrder(bus, parties, order, |order|, rows, t);
      && Settled(TickBus(r.bus, t + 1))
      && Sys(r.parties, ReadBus(TickBus(r.bus, t + 1), t + 1)) == Tick(Sys(parties, ReadBus(bus, t)), rows, t)
  {
    hide Step, InStep;
    var s := Sys(parties, ReadBus(bus, t));
    var j := SomeSender(s);
    forall i: nat | i < |parties| && i != j ensures Step(parties[i], rows, t, s.visible).write == None {
      assert !Sending(s, i);
      ReceiveIsStep(parties[i], rows, t, s.visible);
    }
    OrderPrefix(bus, parties, order, |order|, rows, t, j);
    var r := StepInOrder(bus, parties, order, |order|, rows, t);
    assert order[..|order|] == order;
    assert r.parties == Tick(s, rows, t).parties;
    WriterIsLast(s, rows, t, j);
  }

  lemma SomeSender(s: Sys) returns (j: nat)
    requires InStep(s) && |s.parties| >= 1
    ensures j < |s.parties| && forall i: nat | i < |s.parties| && i != j :: !Sending(s, i)
  {
    if a: nat :| a < |s.parties| && Sending(s, a) { j := a; } else { j := 0; }
  }

  lemma WriterIsLast(s: Sys, rows: seq<Row>, t: nat, j: nat)
    requires j < |s.parties|
    requires forall i: nat | i < |s.parties| && i != j :: Step(s.parties[i], rows, t, s.visible).write == None
    ensures Tick(s, rows, t).visible == Step(s.parties[j], rows, t, s.visible).write
  {
    hide Step;
    if Step(s.parties[j], rows, t, s.visible).write.Some? {
      SoleWriter(Outs(s, rows, t), |s.parties|, j);
    } else {
      NoWriter(Outs(s, rows, t), |s.parties|);
    }
  }

  // --- an exchange from start to end -------------------------------------------------------

  // Tick 0 of the run arms a request.
  ghost predicate StartsExchange(S: seq<Sys>, M: seq<Sys>, rows: seq<Row>, t0: nat) {
    && IsRun(S, M, rows, t0) && |M| >= 1 && InPhase(S[0], Quiet) && Armed(Cs(M[0]))
  }

  function RequestBlocks(M: seq<Sys>): nat
    requires |M| >= 1 && |M[0].parties| >= 1
  {
    CalcNBlocks(Cs(M[0]))
  }

  // The payload party i sends from tick index base on: byte j as its buffer held it in tick base + j.
  function PayloadFrom(M: seq<Sys>, i: nat, base: nat, count: nat): (s: seq<byte>)
    ensures |s| == count
  {
    seq<byte>(count, j requires 0 <= j < count => PayloadAt(M, i, base, j))
  }

  function PayloadAt(M: seq<Sys>, i: nat, base: nat, j: nat): byte {
    if base + j < |M| && i < |M[base + j].parties| then PayloadByte(M[base + j].parties[i], j) else 0
  }

  // One more byte of a frame whose payload starts at tick index base.
  lemma PayloadGrows(M: seq<Sys>, i: nat, base: nat, k: nat, n: nat)
    requires base + k < |M| + 3 && (k >= 3 ==> i < |M[base + k - 3].parties|)
    ensures PayloadFrom(M, i, base, PayloadCount(k + 1, n))
         == if 3 <= k < 3 + 2 * n
            then PayloadFrom(M, i, base, PayloadCount(k, n)) + [PayloadByte(M[base + k - 3].parties[i], k - 3)]
            else PayloadFrom(M, i, base, PayloadCount(k, n))
  {
    hide PayloadByte;
  }

  lemma RunKeepsParties(S: seq<Sys>, M: seq<Sys>, rows: seq<Row>, t0: nat)
    requires IsRun(S, M, rows, t0)
    ensures forall j | 0 <= j < |M| :: |M[j].parties| == |S[0].parties| == |S[j].parties|
    ensures |S[|M|].parties| == |S[0].parties|
  {
    var j := 0;
    while j < |M|
      invariant 0 <= j <= |M| && |S[j].parties| == |S[0].parties|
      invariant forall i | 0 <= i < j :: |M[i].parties| == |S[0].parties| == |S[i].parties|
    {
      assert App(S[j], M[j]) && S[j + 1] == Tick(M[j], rows, t0 + j);
      j := j + 1;
    }
  }

  // While the exchange is in flight the master's frame windows and parameters stand.
  predicate MasterStands(p: Party, q: Party) {
    q.who == p.who && q.win == p.win && q.targetAddr == p.targetAddr && q.mem.prm == p.mem.prm && SameSizes(p.mem, q.mem)
  }

  // s is reached when the master armed in M[0] has written k bytes of its request.
  ghost predicate Requesting(s: Sys, M: seq<Sys>, k: nat)
    requires |M| >= 1 && |M[0].parties| >= 1
  {
    var n, p := RequestBlocks(M), Cs(M[0]);
    && InPhase(s, Request(k, n, p.targetAddr, p.ctl.flag, PayloadFrom(M, 0, 3, PayloadCount(k, n))))
    && MasterStands(p, Cs(s))
  }

  lemma {:induction false} DuringRequest(S: seq<Sys>, M: seq<Sys>, rows: seq<Row>, t0: nat, j: nat)
    requires StartsExchange(S, M, rows, t0)
    requires 1 <= j <= FrameLength(RequestBlocks(M)) && j <= |M|
    ensures |M[0].parties| >= 1 && Requesting(S[j], M, j)
    decreases j
  {
    hide InPhase, Tick, Requesting;
    if j == 1 {
      RequestStarts(S, M, rows, t0);
    } else {
      DuringRequest(S, M, rows, t0, j - 1);
      RunKeepsParties(S, M, rows, t0);
      assert App(S[j - 1], M[j - 1]) && S[j - 1 + 1] == Tick(M[j - 1], rows, t0 + (j - 1));
      RequestGoesOn(S[j - 1], M, rows, t0 + (j - 1), j - 1);
    }
  }

  lemma RequestStarts(S: seq<Sys>, M: seq<Sys>, rows: seq<Row>, t0: nat)
    requires StartsExchange(S, M, rows, t0)
    ensures Requesting(S[1], M, 1)
  {
    hide InPhase, Tick, CalcNBlocks;
    assert App(S[0], M[0]) && S[0 + 1] == Tick(M[0], rows, t0 + 0);
    FromArmed(S[0], M[0], rows, t0);
  }

  lemma RequestGoesOn(s: Sys, M: seq<Sys>, rows: seq<Row>, t: nat, i: nat)
    requires i < |M| && |M[0].parties| >= 1 && Requesting(s, M, i) && App(s, M[i]) && i < FrameLength(RequestBlocks(M))
    requires |M[i].parties| >= 1
    ensures Requesting(Tick(M[i], rows, t), M, i + 1)
  {
    hide InPhase, Tick, PayloadByte, CalcNBlocks, PayloadFrom;
    var n, p := RequestBlocks(M), Cs(M[0]);
    MidRequest(s, M[i], rows, t, i, n, p.targetAddr, p.ctl.flag, PayloadFrom(M, 0, 3, PayloadCount(i, n)));
    PayloadGrows(M, 0, 3, i, n);
  }

  lemma FromArmed(s: Sys, m: Sys, rows: seq<Row>, t: nat)
    requires InPhase(s, Quiet) && App(s, m) && Armed(Cs(m))
    ensures InPhase(Tick(m, rows, t), Request(1, CalcNBlocks(Cs(m)), Cs(m).targetAddr, Cs(m).ctl.flag, []))
    ensures SameButControl(Cs(m), Cs(Tick(m, rows, t)))
  {
    hide TxAt, InPhase, CalcNBlocks, Transmit;
    FromQuiet(s, m, rows, t);
    ArmedIsStart(Cs(m));
    TransmitIsStep(Cs(m), rows, t, m.visible);
    TransmitKeeps(Cs(m), t);
  }

  lemma TransmitKeeps(p: Party, t: nat)
    ensures SameButControl(p, Transmit(p, t).party)
  {
    hide H.Make, FrameBlocks;
  }

  lemma MidRequest(s: Sys, m: Sys, rows: seq<Row>, t: nat, k: nat, n: nat, dst: nat, flag: nat, sent: seq<byte>)
    requires InPhase(s, Request(k, n, dst, flag, sent)) && App(s, m) && k < FrameLength(n)
    ensures InPhase(Tick(m, rows, t), Request(k + 1, n, dst, flag, Sent(Cs(m), k, n, sent)))
    ensures MasterStands(Cs(s), Cs(Tick(m, rows, t))) && |m.parties| >= 1
  {
    hide InRequest;
    AppKeepsPhase(s, m, Request(k, n, dst, flag, sent));
    FromRequestMiddle(m, rows, t, k, n, dst, flag, sent);
    BusyInRequest(s, k, n, dst, flag, sent);
  }

  lemma BusyInRequest(s: Sys, k: nat, n: nat, dst: nat, flag: nat, sent: seq<byte>)
    requires Configured(s) && InRequest(s, k, n, dst, flag, sent)
    ensures Cs(s).ctl.busy
  {
  }

  // The phase and the master's standing data at the end of a request.
  lemma AfterRequestEnd(s: Sys, m: Sys, rows: seq<Row>, t: nat, n: nat, dst: nat, flag: nat, sent: seq<byte>)
    requires InPhase(s, Request(FrameLength(n), n, dst, flag, sent)) && App(s, m)
    ensures InPhase(Tick(m, rows, t), NextPhase(Request(FrameLength(n), n, dst, flag, sent), m))
    ensures MasterStands(Cs(s), Cs(Tick(m, rows, t))) && |m.parties| >= 1
    ensures forall i | 1 <= i < |m.parties| && m.parties[i].who.selfAddr == dst ::
      && Tick(m, rows, t).parties[i] == AfterRequest(m.parties[i], rows, dst, flag)
      && Collected(m.parties[i], dst, flag, sent)
  {
    hide InRequest, AfterRequest, Collected;
    AppKeepsPhase(s, m, Request(FrameLength(n), n, dst, flag, sent));
    FromRequestEnd(m, rows, t, n, dst, flag, sent);
    BusyInRequest(s, FrameLength(n), n, dst, flag, sent);
    RequestHeld(m, n, dst, flag, sent);
  }

  lemma RequestHeld(m: Sys, n: nat, dst: nat, flag: nat, sent: seq<byte>)
    requires Configured(m) && InRequest(m, FrameLength(n), n, dst, flag, sent)
    ensures forall i | 1 <= i < |m.parties| :: Collected(m.parties[i], dst, flag, sent)
  {
    hide Collected;
    forall i | 1 <= i < |m.parties| ensures Collected(m.parties[i], dst, flag, sent) {
      assert OneBehind(m.parties[i], FrameLength(n), n, dst, flag, Cs(m).ctl.header, sent);
      assert sent[..PayloadCount(FrameLength(n) - 1, n)] == sent;
    }
  }

  lemma MidResponse(s: Sys, m: Sys, rows: seq<Row>, t: nat, d: nat, k: nat, n: nat, flag: nat, sent: seq<byte>)
    requires InPhase(s, Response(d, k, n, flag, sent)) && App(s, m) && k < FrameLength(n)
    ensures 1 <= d < |m.parties|
    ensures InPhase(Tick(m, rows, t), Response(d, k + 1, n, flag, Sent(m.parties[d], k, n, sent)))
    ensures MasterInFlight(Cs(s), Cs(Tick(m, rows, t)))
  {
    hide InResponse, Sent;
    AppKeepsPhase(s, m, Response(d, k, n, flag, sent));
    ResponseBounds(m, d, k, n, flag, sent);
    FromResponseMiddle(m, rows, t, d, k, n, flag, sent);
    BusyInResponse(s, d, k, n, flag, sent);
    MasterWindowStands(m, rows, t, d, k, n, flag, sent);
  }

  // Like MasterStands, while a response is coming in.
  predicate MasterInFlight(p: Party, q: Party) {
    q.who == p.who && q.win == p.win && q.mem.prm == p.mem.prm && SameSizes(p.mem, q.mem)
  }

  lemma BusyInResponse(s: Sys, d: nat, k: nat, n: nat, flag: nat, sent: seq<byte>)
    requires Configured(s) && InResponse(s, d, k, n, flag, sent)
    ensures Cs(s).ctl.busy
  {
  }

  lemma MasterWindowStands(m: Sys, rows: seq<Row>, t: nat, d: nat, k: nat, n: nat, flag: nat, sent: seq<byte>)
    requires Configured(m) && InResponse(m, d, k, n, flag, sent) && k < FrameLength(n)
    ensures Cs(Tick(m, rows, t)).win == Cs(m).win && SameSizes(Cs(m).mem, Cs(Tick(m, rows, t)).mem)
    ensures Cs(Tick(m, rows, t)).who == Cs(m).who
  {
    hide Step, Receive, TxAt, Finished, HeaderFor, OneBehind, Collected;
    var p, w, dst := Cs(m), m.parties[d].ctl.header, Cs(m).who.selfAddr;
    assert OneBehind(p, k, n, dst, flag, w, sent);
    ListenerReceives(p, k, n, dst, flag, w, sent);
    StepKeepsIdentity(p, rows, t, m.visible);
    ReceiveIsStep(p, rows, t, m.visible);
    NotAtEnd(p, rows, k, n, dst, flag, w, sent, m.visible);
  }

  lemma NotAtEnd(p: Party, rows: seq<Row>, k: nat, n: nat, dst: nat, flag: nat, w: word, sent: seq<byte>, v: Option<byte>)
    requires 1 <= k < FrameLength(n) && |sent| == PayloadCount(k, n) && OneBehind(p, k, n, dst, flag, w, sent) && !TimesOut(p)
    ensures Receive(p, rows, v).win == p.win
  {
    hide H.Parse, WriteByte, FrameBlocks, H.WriteHeaderByte;
  }

  lemma AfterTurnaround(s: Sys, m: Sys, rows: seq<Row>, t: nat, d: nat, flag: nat)
    requires InPhase(s, Turnaround(d, flag)) && App(s, m)
    ensures 1 <= d < |m.parties|
    ensures InPhase(Tick(m, rows, t), Response(d, 1, CalcNBlocks(m.parties[d]), flag, []))
    ensures MasterInFlight(Cs(s), Cs(Tick(m, rows, t)))
  {
    hide InResponse;
    AppKeepsPhase(s, m, Turnaround(d, flag));
    FromTurnaround(m, rows, t, d, flag);
  }

  lemma AfterResponseEnd(s: Sys, m: Sys, rows: seq<Row>, t: nat, d: nat, n: nat, flag: nat, sent: seq<byte>)
    requires InPhase(s, Response(d, FrameLength(n), n, flag, sent)) && App(s, m)
    ensures InPhase(Tick(m, rows, t), Quiet)
    ensures var p, q := Cs(m), Cs(Tick(m, rows, t));
      && q.ctl.resultReady && q.ctl.lastResult == Success && !q.ctl.busy
      && MasterInFlight(Cs(s), p) && q.mem.cmdBuf == p.mem.cmdBuf && q.mem.cmd == p.mem.cmd
      && (flag == CMD_RESP ==> q.mem == p.mem)
      && (flag == DATA_RESP ==> q.mem.prm == CopyBlocks(p.mem.prm, p.win.prmOffset, p.mem.prmBuf, 0, PrmFrameBlocks(p)))
      && (flag == DATA_RESP ==> Holds(p.mem.prmBuf, PrmFrameBlocks(p), sent))
  {
    hide InResponse, CopyBlocks, Holds, FrameBlocks;
    AppKeepsPhase(s, m, Response(d, FrameLength(n), n, flag, sent));
    FromResponseEnd(m, rows, t, d, n, flag, sent);
    BusyInResponse(s, d, FrameLength(n), n, flag, sent);
    ResponseHeld(m, d, n, flag, sent);
  }

  lemma ResponseHeld(m: Sys, d: nat, n: nat, flag: nat, sent: seq<byte>)
    requires Configured(m) && InResponse(m, d, FrameLength(n), n, flag, sent)
    ensures Collected(Cs(m), Cs(m).who.selfAddr, flag, sent) && Cs(m).who.role == Master
  {
    hide Collected;
    assert OneBehind(Cs(m), FrameLength(n), n, Cs(m).who.selfAddr, flag, m.parties[d].ctl.header, sent);
    assert sent[..PayloadCount(FrameLength(n) - 1, n)] == sent;
  }

  lemma AfterWaiting(s: Sys, m: Sys, rows: seq<Row>, t: nat, w: nat, dst: nat)
    requires InPhase(s, Waiting(w, dst)) && App(s, m)
    ensures InPhase(Tick(m, rows, t), NextPhase(Waiting(w, dst), m))
    ensures w == RESPONSE_TIMEOUT ==> Cs(Tick(m, rows, t)).ctl.resultReady && Cs(Tick(m, rows, t)).ctl.lastResult == Timeout
    ensures w <= RESPONSE_TIMEOUT
  {
    AppKeepsPhase(s, m, Waiting(w, dst));
    FromWaiting(m, rows, t, w, dst);
  }

  // --- timing ------------------------------------------------------------------------------

  // The device with the requested address, if the system has one.
  function Addressee(M: seq<Sys>): nat
    requires |M| >= 1 && |M[0].parties| >= 1
  {
    FindDevice(M[0].parties, Cs(M[0]).targetAddr, |M[0].parties|)
  }

  // Tick index at which the last request byte has been read by everyone.
  function RequestEnd(M: seq<Sys>): nat
    requires |M| >= 1 && |M[0].parties| >= 1
  {
    FrameLength(RequestBlocks(M))
  }

  lemma {:induction false} AddressesStand(S: seq<Sys>, M: seq<Sys>, rows: seq<Row>, t0: nat, j: nat)
    requires IsRun(S, M, rows, t0) && j < |M|
    ensures |M[j].parties| == |M[0].parties|
    ensures forall i | 0 <= i < |M[0].parties| ::
      M[j].parties[i].who == M[0].parties[i].who && SameSizes(M[0].parties[i].mem, M[j].parties[i].mem)
    decreases j
  {
    hide Step;
    assert App(S[0], M[0]) && App(S[j], M[j]);
    if j > 0 {
      AddressesStand(S, M, rows, t0, j - 1);
      var m := M[j - 1];
      assert App(S[j - 1], m) && S[j - 1 + 1] == Tick(m, rows, t0 + (j - 1));
      forall i | 0 <= i < |m.parties|
        ensures M[j].parties[i].who == m.parties[i].who && SameSizes(m.parties[i].mem, M[j].parties[i].mem)
      {
        StepKeepsIdentity(m.parties[i], rows, t0 + (j - 1), m.visible);
        assert i >= 1 ==> DeviceApp(S[j].parties[i], M[j].parties[i]);
      }
    }
  }

  lemma {:induction false} SameFind(a: seq<Party>, b: seq<Party>, dst: nat, n: nat)
    requires n <= |a| == |b| && forall i | 0 <= i < |a| :: a[i].who == b[i].who
    ensures FindDevice(a, dst, n) == FindDevice(b, dst, n)
    decreases n
  {
    if n > 1 { SameFind(a, b, dst, n - 1); }
  }

  // The end of the request: the target is about to answer, or nobody is.
  lemma RequestEnds(S: seq<Sys>, M: seq<Sys>, rows: seq<Row>, t0: nat)
    requires StartsExchange(S, M, rows, t0) && RequestEnd(M) < |M|
    ensures var e, d, p := RequestEnd(M), Addressee(M), Cs(M[0]);
      && InPhase(S[e + 1], if d == 0 then Waiting(1, p.targetAddr) else Turnaround(d, Answer(p.ctl.flag)))
      && MasterStands(p, Cs(S[e + 1]))
      && |M[e].parties| == |S[e + 1].parties| == |M[0].parties|
      && (d != 0 ==> S[e + 1].parties[d] == AfterRequest(M[e].parties[d], rows, p.targetAddr, p.ctl.flag))
      && (d != 0 ==> Collected(M[e].parties[d], p.targetAddr, p.ctl.flag, PayloadFrom(M, 0, 3, 2 * RequestBlocks(M))))
  {
    hide InPhase, Tick, AfterRequest, Collected, PayloadFrom;
    var e, p, n := RequestEnd(M), Cs(M[0]), RequestBlocks(M);
    DuringRequest(S, M, rows, t0, e);
    assert App(S[e], M[e]) && S[e + 1] == Tick(M[e], rows, t0 + e);
    AfterRequestEnd(S[e], M[e], rows, t0 + e, n, p.targetAddr, p.ctl.flag, PayloadFrom(M, 0, 3, PayloadCount(e, n)));
    AddressesStand(S, M, rows, t0, e);
    SameFind(M[e].parties, M[0].parties, p.targetAddr, |M[0].parties|);
    assert Addressee(M) != 0 ==> M[e].parties[Addressee(M)].who.selfAddr == p.targetAddr;
  }

  // s is reached when device d has written k bytes of its response, whose payload starts at tick index base.
  ghost predicate Answering(s: Sys, M: seq<Sys>, d: nat, base: nat, k: nat, n: nat)
    requires |M| >= 1 && |M[0].parties| >= 1
  {
    var p := Cs(M[0]);
    && InPhase(s, Response(d, k, n, Answer(p.ctl.flag), PayloadFrom(M, d, base, PayloadCount(k, n))))
    && MasterInFlight(p, Cs(s))
  }

  lemma {:induction false} DuringResponse(S: seq<Sys>, M: seq<Sys>, rows: seq<Row>, t0: nat, d: nat, e: nat, n: nat, k: nat)
    requires StartsExchange(S, M, rows, t0) && d == Addressee(M) != 0 && e == RequestEnd(M)
    requires 1 <= k <= FrameLength(n) && e + 1 + k <= |M| && d < |M[e + 1].parties| && n == CalcNBlocks(M[e + 1].parties[d])
    ensures Answering(S[e + 1 + k], M, d, e + 4, k, n)
    decreases k
  {
    hide InPhase, Tick, Answering, CalcNBlocks, Addressee, RequestEnd;
    if k == 1 {
      ResponseStarts(S, M, rows, t0, d, e, n);
    } else {
      DuringResponse(S, M, rows, t0, d, e, n, k - 1);
      RunKeepsParties(S, M, rows, t0);
      var i := e + k;
      assert App(S[i], M[i]) && S[i + 1] == Tick(M[i], rows, t0 + i);
      ResponseGoesOn(S[i], M, rows, t0 + i, d, e + 4, k - 1, n, i);
    }
  }

  lemma ResponseStarts(S: seq<Sys>, M: seq<Sys>, rows: seq<Row>, t0: nat, d: nat, e: nat, n: nat)
    requires StartsExchange(S, M, rows, t0) && d == Addressee(M) != 0 && e == RequestEnd(M)
    requires e + 1 < |M| && d < |M[e + 1].parties| && n == CalcNBlocks(M[e + 1].parties[d])
    ensures Answering(S[e + 2], M, d, e + 4, 1, n)
  {
    hide InPhase, Tick, App, CalcNBlocks, AfterRequest, Collected;
    RequestEnds(S, M, rows, t0);
    var i := e + 1;
    RunStep(S, M, rows, t0, i);
    RunStep(S, M, rows, t0, 0);
    AppParties(S[0], M[0]);
    AfterTurnaround(S[i], M[i], rows, t0 + i, d, Answer(Cs(M[0]).ctl.flag));
  }

  lemma ResponseGoesOn(s: Sys, M: seq<Sys>, rows: seq<Row>, t: nat, d: nat, base: nat, k: nat, n: nat, i: nat)
    requires |M| >= 1 && |M[0].parties| >= 1 && i < |M| && i + 3 == base + k && 1 <= k < FrameLength(n)
    requires Answering(s, M, d, base, k, n) && App(s, M[i]) && d < |M[i].parties|
    ensures Answering(Tick(M[i], rows, t), M, d, base, k + 1, n)
  {
    hide InPhase, Tick, PayloadByte, CalcNBlocks, PayloadFrom;
    MidResponse(s, M[i], rows, t, d, k, n, Answer(Cs(M[0]).ctl.flag), PayloadFrom(M, d, base, PayloadCount(k, n)));
    PayloadGrows(M, d, base, k, n);
  }

  // --- the exchange theorems ---------------------------------------------------------------

  // An exchange with a present device: n1 request blocks, n2 response blocks.
  ghost predicate FullExchange(S: seq<Sys>, M: seq<Sys>, rows: seq<Row>, t0: nat, d: nat, n1: nat, n2: nat) {
    && StartsExchange(S, M, rows, t0) && d == Addressee(M) != 0 && n1 == RequestBlocks(M)
    && n2 == (if Cs(M[0]).ctl.flag == CMD_REQ then 0 else PrmFrameBlocks(M[0].parties[d]))
    && |M| >= 2 * (n1 + n2) + 10
  }

  // The length of the response is known when the request is armed.
  lemma ResponseLength(S: seq<Sys>, M: seq<Sys>, rows: seq<Row>, t0: nat, d: nat, n1: nat, n2: nat)
    requires FullExchange(S, M, rows, t0, d, n1, n2)
    ensures d < |M[5 + 2 * n1].parties| && CalcNBlocks(M[5 + 2 * n1].parties[d]) == n2
  {
    hide Tick, App, AfterRequest, Collected, PayloadFrom, CalcNBlocks, Addressee, InRequest, InResponse, InTurnaround, InWaiting,
         PrmFrameBlocks, Armed, PlainDevice;
    var i := 5 + 2 * n1;
    RequestEnds(S, M, rows, t0);
    AddressesStand(S, M, rows, t0, i);
    RunStep(S, M, rows, t0, i);
    RunStep(S, M, rows, t0, 0);
    AppKeepsPhase(S[i], M[i], Turnaround(d, Answer(Cs(M[0]).ctl.flag)));
    AppKeepsConfiguration(S[0], M[0]);
    ArmedFlag(Cs(M[0]));
    TurnaroundParty(M[i], d, Answer(Cs(M[0]).ctl.flag));
    AnswerLength(M[0].parties[d], M[i].parties[d], Cs(M[0]).ctl.flag);
  }

  lemma ArmedFlag(p: Party)
    requires Armed(p)
    ensures p.ctl.flag == CMD_REQ || p.ctl.flag == DATA_REQ
  {
  }

  lemma TurnaroundParty(m: Sys, d: nat, flag: nat)
    requires InPhase(m, Turnaround(d, flag))
    ensures 1 <= d < |m.parties| && PlainDevice(m.parties[d]) && m.parties[d].ctl.flag == flag
  {
  }

  lemma AnswerLength(p: Party, q: Party, flag: nat)
    requires PlainDevice(p) && PlainDevice(q) && SameSizes(p.mem, q.mem) && q.ctl.flag == Answer(flag)
    requires flag == CMD_REQ || flag == DATA_REQ
    ensures CalcNBlocks(q) == if flag == CMD_REQ then 0 else PrmFrameBlocks(p)
  {
  }

  predicate BusyAt(s: Sys) { |s.parties| >= 1 && Cs(s).ctl.busy }

  // The system is quiet again and the master holds this result.
  ghost predicate DoneAt(s: Sys, r: Result) {
    InPhase(s, Quiet) && !Cs(s).ctl.busy && Cs(s).ctl.resultReady && Cs(s).ctl.lastResult == r
  }

  // Armed in tick t0, the master succeeds and is idle in tick t0 + 2N + 9 and in no earlier one.
  lemma ExchangeTiming(S: seq<Sys>, M: seq<Sys>, rows: seq<Row>, t0: nat, d: nat, n1: nat, n2: nat)
    requires FullExchange(S, M, rows, t0, d, n1, n2)
    ensures forall j | 1 <= j <= 2 * (n1 + n2) + 9 :: BusyAt(S[j])
    ensures DoneAt(S[2 * (n1 + n2) + 10], Success)
  {
    hide InPhase, Tick, Addressee, CalcNBlocks, FrameBlocks, PayloadFrom;
    var e, last := 4 + 2 * n1, 2 * (n1 + n2) + 9;
    ResponseLength(S, M, rows, t0, d, n1, n2);
    RunKeepsParties(S, M, rows, t0);
    forall j | 1 <= j <= last ensures BusyAt(S[j]) {
      BusyThroughout(S, M, rows, t0, d, n1, n2, j);
    }
    DuringResponse(S, M, rows, t0, d, e, n2, FrameLength(n2));
    assert App(S[last], M[last]) && S[last + 1] == Tick(M[last], rows, t0 + last);
    AfterResponseEnd(S[last], M[last], rows, t0 + last, d, n2, Answer(Cs(M[0]).ctl.flag),
                     PayloadFrom(M, d, e + 4, PayloadCount(FrameLength(n2), n2)));
    QuietIsIdle(S[last + 1]);
  }

  lemma QuietIsIdle(s: Sys)
    requires InPhase(s, Quiet)
    ensures !Cs(s).ctl.busy
  {
  }

  lemma PhaseIsBusy(s: Sys, ph: Phase)
    requires InPhase(s, ph) && !ph.Quiet?
    ensures BusyAt(s)
  {
    hide OneBehind, TxAt, Finished, HeaderFor;
  }

  lemma BusyThroughout(S: seq<Sys>, M: seq<Sys>, rows: seq<Row>, t0: nat, d: nat, n1: nat, n2: nat, j: nat)
    requires FullExchange(S, M, rows, t0, d, n1, n2) && 1 <= j <= 2 * (n1 + n2) + 9
    ensures BusyAt(S[j])
  {
    hide Tick, App, InPhase, Addressee, CalcNBlocks, PayloadFrom, BusyAt, MasterStands, MasterInFlight, Armed, AfterRequest, Collected;
    RunStep(S, M, rows, t0, 0);
    AppParties(S[0], M[0]);
    var e, p := 4 + 2 * n1, Cs(M[0]);
    if j <= e {
      DuringRequest(S, M, rows, t0, j);
      PhaseIsBusy(S[j], Request(j, n1, p.targetAddr, p.ctl.flag, PayloadFrom(M, 0, 3, PayloadCount(j, n1))));
    } else if j == e + 1 {
      RequestEnds(S, M, rows, t0);
      PhaseIsBusy(S[j], Turnaround(d, Answer(p.ctl.flag)));
    } else {
      ResponseLength(S, M, rows, t0, d, n1, n2);
      var k := j - e - 1;
      DuringResponse(S, M, rows, t0, d, e, n2, k);
      PhaseIsBusy(S[j], Response(d, k, n2, Answer(p.ctl.flag), PayloadFrom(M, d, e + 4, PayloadCount(k, n2))));
    }
  }

  // A command exchange delivers the buffer: what the device merges holds, byte for byte, what the
  // master's buffer held in the tick each byte was sent.
  lemma CommandDelivered(S: seq<Sys>, M: seq<Sys>, rows: seq<Row>, t0: nat, d: nat, n1: nat, n2: nat)
    requires FullExchange(S, M, rows, t0, d, n1, n2) && Cs(M[0]).ctl.flag == CMD_REQ
    ensures var e := 4 + 2 * n1;
      && d < |M[e].parties| && d < |S[e + 1].parties|
      && S[e + 1].parties[d].mem == MergeCommands(M[e].parties[d], rows).mem
      && Holds(M[e].parties[d].mem.cmdBuf, CmdFrameBlocks(M[e].parties[d]), PayloadFrom(M, 0, 3, 2 * n1))
  {
    hide InPhase, Tick, CalcNBlocks, PayloadFrom, MergeCommands, Holds;
    RequestEnds(S, M, rows, t0);
    AddressesStand(S, M, rows, t0, 4 + 2 * n1);
  }

  predicate WindowHolds(prm: seq<word>, offset: nat, n: nat, payload: seq<byte>)
    requires |payload| == 2 * n
  {
    forall j: nat | j < 2 * n :: ReadByte(prm, 2 * offset + j) == Some(payload[j])
  }

  // From p to q the n blocks of the parameter window took this payload and the blocks outside it stand.
  predicate WindowFilled(p: Party, q: Party, n: nat, payload: seq<byte>) {
    && |payload| == 2 * n && |q.mem.prm| == |p.mem.prm|
    && WindowHolds(q.mem.prm, p.win.prmOffset, n, payload)
    && (forall b: nat | b < |p.mem.prm| && !(p.win.prmOffset <= b < p.win.prmOffset + n) :: q.mem.prm[b] == p.mem.prm[b])
  }

  predicate WindowServed(p: Party, n: nat) {
    PrmFrameBlocks(p) == n && FrameFits(p.win.prmOffset, n, |p.mem.prm|, |p.mem.prmBuf|)
  }

  predicate FilledAt(S: seq<Sys>, j: nat, p: Party, n: nat, payload: seq<byte>) {
    j < |S| && |S[j].parties| >= 1 && WindowFilled(p, Cs(S[j]), n, payload)
  }

  // A data exchange: byte j committed into the master's window is byte j of the device's parameter
  // buffer in tick t0 + 8 + 2 * n1 + j, and the parameters outside the window stand.
  lemma DataDelivered(S: seq<Sys>, M: seq<Sys>, rows: seq<Row>, t0: nat, d: nat, n1: nat, n2: nat)
    requires FullExchange(S, M, rows, t0, d, n1, n2) && Cs(M[0]).ctl.flag == DATA_REQ
    requires WindowServed(Cs(M[0]), n2)
    ensures FilledAt(S, 2 * (n1 + n2) + 10, Cs(M[0]), n2, PayloadFrom(M, d, 8 + 2 * n1, 2 * n2))
  {
    hide InPhase, Tick, App, Addressee, CalcNBlocks, PayloadFrom, WindowServed, WindowFilled, Armed, MasterInFlight;
    var last := 2 * (n1 + n2) + 9;
    ResponseLength(S, M, rows, t0, d, n1, n2);
    DuringResponse(S, M, rows, t0, d, 4 + 2 * n1, n2, FrameLength(n2));
    RunKeepsParties(S, M, rows, t0);
    RunStep(S, M, rows, t0, last);
    DataCommits(S[last], M[last], rows, t0 + last, d, n2, Cs(M[0]), PayloadFrom(M, d, 8 + 2 * n1, 2 * n2));
  }

  // The tick that ends a data response.
  lemma DataCommits(s: Sys, m: Sys, rows: seq<Row>, t: nat, d: nat, n: nat, p: Party, sent: seq<byte>)
    requires |sent| == 2 * n && InPhase(s, Response(d, FrameLength(n), n, DATA_RESP, sent)) && App(s, m)
    requires |s.parties| >= 1 && MasterInFlight(p, Cs(s)) && WindowServed(p, n)
    ensures |Tick(m, rows, t).parties| >= 1 && WindowFilled(p, Cs(Tick(m, rows, t)), n, sent)
  {
    hide InPhase, Tick, CopyBlocks, ReadByte, Holds, FrameBlocks, WindowHolds;
    AfterResponseEnd(s, m, rows, t, d, n, DATA_RESP, sent);
    var q := Cs(m);
    assert PrmFrameBlocks(q) == n;
    CommittedBytes(q.mem.prm, q.win.prmOffset, q.mem.prmBuf, n, sent);
  }

  lemma CommittedBytes(prm: seq<word>, offset: nat, buf: seq<word>, n: nat, sent: seq<byte>)
    requires offset + n <= |prm| && n <= |buf| && |sent| == 2 * n && Holds(buf, n, sent)
    ensures var after := CopyBlocks(prm, offset, buf, 0, n);
      && WindowHolds(after, offset, n, sent)
      && (forall b: nat | b < |prm| && !(offset <= b < offset + n) :: after[b] == prm[b])
  {
    var after := CopyBlocks(prm, offset, buf, 0, n);
    forall j: nat | j < 2 * n ensures ReadByte(after, 2 * offset + j) == Some(sent[j]) {
      assert ReadByte(buf, j) == Some(sent[j]);
      assert (2 * offset + j) / 2 == offset + j / 2 && (2 * offset + j) % 2 == j % 2;
      CopyBlocksAt(prm, offset, buf, 0, n, offset + j / 2);
    }
  }

  // The payload a device sends is its parameter buffer; if nothing refreshes the buffer while it is
  // being sent the response is a snapshot.
  lemma StableBufferIsSnapshot(M: seq<Sys>, d: nat, base: nat, n: nat, buf: seq<word>)
    requires base + 2 * n <= |M| && n <= |buf|
    requires forall j | base <= j < base + 2 * n ::
      d < |M[j].parties| && M[j].parties[d].ctl.flag == DATA_RESP && M[j].parties[d].mem.prmBuf == buf
      && PrmFrameBlocks(M[j].parties[d]) == n
    ensures Holds(buf, n, PayloadFrom(M, d, base, 2 * n))
  {
    forall j: nat | j < 2 * n ensures ReadByte(buf, j) == Some(PayloadFrom(M, d, base, 2 * n)[j]) {
      assert PayloadFrom(M, d, base, 2 * n)[j] == PayloadByte(M[base + j].parties[d], j);
    }
  }

  lemma StableCommandBuffer(M: seq<Sys>, n: nat, buf: seq<word>)
    requires 3 + 2 * n <= |M| && n <= |buf|
    requires forall j | 3 <= j < 3 + 2 * n ::
      0 < |M[j].parties| && Cs(M[j]).ctl.flag == CMD_REQ && Cs(M[j]).mem.cmdBuf == buf && CmdFrameBlocks(Cs(M[j])) == n
    ensures Holds(buf, n, PayloadFrom(M, 0, 3, 2 * n))
  {
    forall j: nat | j < 2 * n ensures ReadByte(buf, j) == Some(PayloadFrom(M, 0, 3, 2 * n)[j]) {
      assert PayloadFrom(M, 0, 3, 2 * n)[j] == PayloadByte(M[3 + j].parties[0], j);
    }
  }

  // Nobody has the address: the request takes ticks t0 .. t0 + 3 + 2 * n1, and the master times out on
  // its 11th receive tick, t0 + 14 + 2 * n1.
  lemma {:induction false} AbsentDeviceWaits(S: seq<Sys>, M: seq<Sys>, rows: seq<Row>, t0: nat, w: nat)
    requires StartsExchange(S, M, rows, t0) && Addressee(M) == 0 && 1 <= w <= RESPONSE_TIMEOUT && RequestEnd(M) + w <= |M|
    ensures InPhase(S[RequestEnd(M) + w], Waiting(w, Cs(M[0]).targetAddr))
    decreases w
  {
    hide InPhase, Tick, AfterRequest, Collected, Addressee, RequestEnd;
    var e := RequestEnd(M);
    if w == 1 {
      RequestEnds(S, M, rows, t0);
    } else {
      AbsentDeviceWaits(S, M, rows, t0, w - 1);
      var i := e + w - 1;
      assert App(S[i], M[i]) && S[i + 1] == Tick(M[i], rows, t0 + i);
      AfterWaiting(S[i], M[i], rows, t0 + i, w - 1, Cs(M[0]).targetAddr);
    }
  }

  lemma AbsentDeviceTimesOut(S: seq<Sys>, M: seq<Sys>, rows: seq<Row>, t0: nat, n1: nat)
    requires StartsExchange(S, M, rows, t0) && Addressee(M) == 0 && n1 == RequestBlocks(M) && |M| >= 15 + 2 * n1
    ensures forall j | 1 <= j <= 14 + 2 * n1 :: BusyAt(S[j])
    ensures DoneAt(S[15 + 2 * n1], Timeout)
  {
    hide InPhase, Tick, CalcNBlocks, Addressee;
    var e, last := 4 + 2 * n1, 14 + 2 * n1;
    forall j | 1 <= j <= last ensures BusyAt(S[j]) {
      AbsentBusy(S, M, rows, t0, j);
    }
    AbsentDeviceWaits(S, M, rows, t0, RESPONSE_TIMEOUT);
    assert App(S[last], M[last]) && S[last + 1] == Tick(M[last], rows, t0 + last);
    AfterWaiting(S[last], M[last], rows, t0 + last, RESPONSE_TIMEOUT, Cs(M[0]).targetAddr);
    QuietIsIdle(S[last + 1]);
  }

  lemma AbsentBusy(S: seq<Sys>, M: seq<Sys>, rows: seq<Row>, t0: nat, j: nat)
    requires StartsExchange(S, M, rows, t0) && Addressee(M) == 0 && 1 <= j <= RequestEnd(M) + RESPONSE_TIMEOUT && j <= |M|
    ensures BusyAt(S[j])
  {
    hide Tick, Addressee, CalcNBlocks, PayloadFrom, OneBehind, TxAt, Finished;
    if j <= RequestEnd(M) {
      DuringRequest(S, M, rows, t0, j);
    } else {
      AbsentDeviceWaits(S, M, rows, t0, j - RequestEnd(M));
    }
  }
}
