// Arbitrary byte streams once more, with the party's own software at work between the bytes.
module SoftwareStreams {
  import opened Wire
  import opened MsgBlock
  import opened CommTable
  import opened BusExchange
  import opened ClosedSystem
  import opened ArbitraryStreams
  import H = MsgHeader

  // Only the contents of the arrays differ.
  predicate Rewritten(p: Party, q: Party) { q == p.(mem := q.mem) && SameSizes(p.mem, q.mem) }

  // P[j] is the party before tick t + j and Q[j] what its software makes of it before the bus step: it may
  // write anything into any array.
  ghost predicate SoftRun(P: seq<Party>, Q: seq<Party>, rows: seq<Row>, t: nat, bytes: nat -> Option<byte>) {
    && |P| == |Q| + 1
    && forall j | 0 <= j < |Q| :: Rewritten(P[j], Q[j]) && P[j + 1] == Step(Q[j], rows, t + j, bytes(t + j)).party
  }

  // --- control does not look at contents ---------------------------------------------------

  lemma DataAlike(p: Party, q: Party, v: Option<byte>)
    requires Rewritten(p, q)
    ensures Rewritten(ReceiveData(p, v), ReceiveData(q, v))
  {
    hide WriteByte;
  }

  lemma EofAlike(p: Party, q: Party, rows: seq<Row>, v: Option<byte>)
    requires Rewritten(p, q)
    ensures Rewritten(ReceiveEof(p, rows, v), ReceiveEof(q, rows, v))
  {
    hide CopyBlocks, Overlay;
  }

  lemma ReceiveAlike(p: Party, q: Party, rows: seq<Row>, v: Option<byte>)
    requires Rewritten(p, q)
    ensures Rewritten(Receive(p, rows, v), Receive(q, rows, v))
  {
    hide ReceiveHeader, ReceiveData, ReceiveEof;
    DataAlike(Waited(p), Waited(q), v);
    EofAlike(Waited(p), Waited(q), rows, v);
  }

  lemma TransmitAlike(p: Party, q: Party, t: nat)
    requires Rewritten(p, q)
    ensures Rewritten(Transmit(p, t).party, Transmit(q, t).party)
  {
    hide H.Make;
  }

  lemma StepAlike(p: Party, q: Party, rows: seq<Row>, t: nat, v: Option<byte>)
    requires Rewritten(p, q)
    ensures Rewritten(Step(p, rows, t, v).party, Step(q, rows, t, v).party)
  {
    hide Receive, Transmit;
    ReceiveAlike(p, q, rows, v);
    TransmitAlike(p, q, t);
  }

  // But for the contents of its arrays, the party is where it would be without its software.
  lemma {:induction false} SoftwareKeepsControl(P: seq<Party>, Q: seq<Party>, rows: seq<Row>, t: nat,
                                                bytes: nat -> Option<byte>, n: nat)
    requires SoftRun(P, Q, rows, t, bytes) && n <= |Q|
    ensures Rewritten(Run(P[0], rows, t, bytes, n), P[n])
    ensures n < |Q| ==> Rewritten(Run(P[0], rows, t, bytes, n), Q[n])
    decreases n
  {
    hide Step;
    if n > 0 {
      SoftwareKeepsControl(P, Q, rows, t, bytes, n - 1);
      assert P[n - 1 + 1] == Step(Q[n - 1], rows, t + (n - 1), bytes(t + (n - 1))).party;
      StepAlike(Run(P[0], rows, t, bytes, n - 1), Q[n - 1], rows, t + (n - 1), bytes(t + (n - 1)));
      assert t + n - 1 == t + (n - 1);
    }
    assert n < |Q| ==> Rewritten(P[n], Q[n]);
  }

  // --- only whole frames are committed -----------------------------------------------------

  // The party is collecting the payload of a frame of this kind addressed to it.
  predicate Collecting(p: Party, flag: nat) {
    p.ctl.exchange == Rx && (p.ctl.rx == RxData || p.ctl.rx == RxEof) && p.ctl.adrFlag && p.ctl.flag == flag
  }

  // The software does not write the buffer that payload is being collected in.
  predicate KeepsOff(p: Party, q: Party) {
    && (Collecting(p, CMD_REQ) ==> q.mem.cmdBuf == p.mem.cmdBuf)
    && (Collecting(p, DATA_RESP) ==> q.mem.prmBuf == p.mem.prmBuf)
  }

  lemma KeptOffTracks(p: Party, q: Party, s: seq<byte>)
    requires Rewritten(p, q) && KeepsOff(p, q) && Tracks(p, s)
    ensures Tracks(q, s)
  {
    hide H.Parse, HeaderAt;
    assert CmdFrameBlocks(q) == CmdFrameBlocks(p) && PrmFrameBlocks(q) == PrmFrameBlocks(p);
  }

  lemma {:induction false} TracksFrom(P: seq<Party>, Q: seq<Party>, rows: seq<Row>, t: nat, bytes: nat -> Option<byte>,
                                      m: nat, n: nat)
    requires SoftRun(P, Q, rows, t, bytes) && m <= n <= |Q| && P[m].ctl.exchange == Rx && P[m].ctl.rx == RxSof
    requires forall j | m <= j < n :: KeepsOff(P[j], Q[j])
    ensures Tracks(P[n], Heard(t, bytes, n))
    decreases n
  {
    hide KeepsOff, Rewritten, Step;
    if m < n {
      TracksFrom(P, Q, rows, t, bytes, m, n - 1);
      assert Rewritten(P[n - 1], Q[n - 1]) && P[n - 1 + 1] == Step(Q[n - 1], rows, t + (n - 1), bytes(t + (n - 1))).party;
      KeptOffTracks(P[n - 1], Q[n - 1], Heard(t, bytes, n - 1));
      StepTracks(Q[n - 1], rows, t + (n - 1), bytes(t + (n - 1)), Heard(t, bytes, n - 1));
    }
  }

  // The buffer that is merged or copied at the EOF of this frame holds its payload.
  predicate HoldsPayload(q: Party, frame: seq<byte>) {
    && |frame| >= 4
    && (q.ctl.flag == CMD_REQ ==> Holds(q.mem.cmdBuf, CmdFrameBlocks(q), frame[3..|frame| - 1]))
    && (q.ctl.flag == DATA_RESP ==> Holds(q.mem.prmBuf, PrmFrameBlocks(q), frame[3..|frame| - 1]))
  }

  // Whatever the software writes, something is merged or copied only at the end of a whole frame for this
  // address; and that is the payload of the frame if, since some tick m before the frame, the software
  // has kept off the buffer being collected in.
  lemma WholeFramesDespiteSoftware(P: seq<Party>, Q: seq<Party>, rows: seq<Row>, t: nat, bytes: nat -> Option<byte>,
                                   m: nat, n: nat)
    returns (frame: seq<byte>)
    requires SoftRun(P, Q, rows, t, bytes) && P[0].ctl.exchange == Rx && P[0].ctl.rx == RxSof
    requires m <= n < |Q| && P[m].ctl.exchange == Rx && P[m].ctl.rx == RxSof && AtAddressedEof(Q[n], bytes(t + n))
    ensures var s := Heard(t, bytes, n + 1); |frame| == 4 + 2 * Q[n].ctl.nBlocks <= |s| && frame == s[|s| - |frame|..]
    ensures WholeFrame(frame, Q[n].who.selfAddr, Q[n].ctl.flag)
    ensures (forall j | m <= j <= n :: KeepsOff(P[j], Q[j])) ==> HoldsPayload(Q[n], frame)
  {
    hide Step, KeepsOff, Tracks, WholeFrame, Rewritten;
    var r := Run(P[0], rows, t, bytes, n);
    SoftwareKeepsControl(P, Q, rows, t, bytes, n);
    SameEof(r, Q[n], bytes(t + n));
    frame := OnlyWholeFramesCommit(P[0], rows, t, bytes, n);
    if forall j | m <= j <= n :: KeepsOff(P[j], Q[j]) {
      TracksFrom(P, Q, rows, t, bytes, m, n);
      assert Rewritten(P[n], Q[n]);
      KeptOffTracks(P[n], Q[n], Heard(t, bytes, n));
      PayloadAtEof(Q[n], Heard(t, bytes, n), frame);
    }
  }

  lemma SameEof(p: Party, q: Party, v: Option<byte>)
    requires Rewritten(p, q)
    ensures AtAddressedEof(p, v) <==> AtAddressedEof(q, v)
    ensures q.who == p.who && q.ctl == p.ctl
  {
  }

  lemma PayloadAtEof(q: Party, s: seq<byte>, frame: seq<byte>)
    requires Tracks(q, s) && AtAddressedEof(q, Some(EOF))
    requires var all := s + [EOF]; |frame| == 4 + 2 * q.ctl.nBlocks <= |all| && frame == all[|all| - |frame|..]
    ensures HoldsPayload(q, frame)
  {
    hide Tracks, Holds, WholeFrame;
    var own := FrameAtEof(q, s);
  }

  // --- what the program's own algorithms leave alone ---------------------------------------

  // The software keeps off, unless a frame of the other kind is coming in.
  predicate KeepsOffBut(p: Party, q: Party, other: nat) { Collecting(p, other) || KeepsOff(p, q) }

  // A device's algorithms never write the buffer of a command, and the master's never the buffer of the
  // parameters it is waiting for.
  lemma AlgorithmsKeepOff(p: Party, q: Party)
    ensures DeviceApp(p, q) ==> Rewritten(p, q) && KeepsOffBut(p, q, DATA_RESP)
    ensures p.ctl.busy && MasterApp(p, q) ==> Rewritten(p, q) && KeepsOffBut(p, q, CMD_REQ)
  {
  }

  // Collecting goes on or ends between frames.
  lemma CollectingEnds(p: Party, rows: seq<Row>, t: nat, v: Option<byte>, other: nat, s: seq<byte>)
    requires Collecting(p, other)
    ensures var q := Step(p, rows, t, v).party; Collecting(q, other) || Tracks(q, s)
  {
    hide CopyBlocks, Overlay, WriteByte, MidFrame;
  }

  lemma {:induction false} TracksBut(P: seq<Party>, Q: seq<Party>, rows: seq<Row>, t: nat, bytes: nat -> Option<byte>,
                                     n: nat, other: nat)
    requires SoftRun(P, Q, rows, t, bytes) && n <= |Q| && P[0].ctl.exchange == Rx && P[0].ctl.rx == RxSof
    requires forall j | 0 <= j < n :: KeepsOffBut(P[j], Q[j], other)
    ensures Collecting(P[n], other) || Tracks(P[n], Heard(t, bytes, n))
    decreases n
  {
    hide KeepsOff, Rewritten, Step, Collecting;
    if n > 0 {
      TracksBut(P, Q, rows, t, bytes, n - 1, other);
      var s := Heard(t, bytes, n - 1);
      assert Rewritten(P[n - 1], Q[n - 1]) && P[n - 1 + 1] == Step(Q[n - 1], rows, t + (n - 1), bytes(t + (n - 1))).party;
      if Collecting(P[n - 1], other) {
        SameCollecting(P[n - 1], Q[n - 1], other);
        CollectingEnds(Q[n - 1], rows, t + (n - 1), bytes(t + (n - 1)), other, Heard(t, bytes, n));
      } else {
        KeptOffTracks(P[n - 1], Q[n - 1], s);
        StepTracks(Q[n - 1], rows, t + (n - 1), bytes(t + (n - 1)), s);
      }
    }
  }

  lemma SameCollecting(p: Party, q: Party, flag: nat)
    requires Rewritten(p, q)
    ensures Collecting(p, flag) <==> Collecting(q, flag)
  {
  }

  lemma PayloadBut(P: seq<Party>, Q: seq<Party>, rows: seq<Row>, t: nat, bytes: nat -> Option<byte>, n: nat, other: nat)
    returns (frame: seq<byte>)
    requires SoftRun(P, Q, rows, t, bytes) && n < |Q| && P[0].ctl.exchange == Rx && P[0].ctl.rx == RxSof
    requires forall j | 0 <= j <= n :: KeepsOffBut(P[j], Q[j], other)
    requires AtAddressedEof(Q[n], bytes(t + n)) && Q[n].ctl.flag != other
    ensures var s := Heard(t, bytes, n + 1); |frame| <= |s| && frame == s[|s| - |frame|..]
    ensures WholeFrame(frame, Q[n].who.selfAddr, Q[n].ctl.flag) && HoldsPayload(Q[n], frame)
  {
    hide Step, KeepsOff, Tracks, WholeFrame, Rewritten;
    frame := WholeFramesDespiteSoftware(P, Q, rows, t, bytes, 0, n);
    TracksBut(P, Q, rows, t, bytes, n, other);
    assert Rewritten(P[n], Q[n]) && KeepsOffBut(P[n], Q[n], other);
    SameCollecting(P[n], Q[n], other);
    KeptOffTracks(P[n], Q[n], Heard(t, bytes, n));
    assert t + (n + 1) - 1 == t + n;
    PayloadAtEof(Q[n], Heard(t, bytes, n), frame);
  }

  // Whatever bytes arrive, what a device merges is the payload of a whole command frame for it, although
  // its algorithms run in every tick.
  lemma DeviceMergesPayload(P: seq<Party>, Q: seq<Party>, rows: seq<Row>, t: nat, bytes: nat -> Option<byte>, n: nat)
    returns (frame: seq<byte>)
    requires SoftRun(P, Q, rows, t, bytes) && n < |Q| && P[0].ctl.exchange == Rx && P[0].ctl.rx == RxSof
    requires forall j | 0 <= j <= n :: DeviceApp(P[j], Q[j])
    requires AtAddressedEof(Q[n], bytes(t + n)) && Q[n].ctl.flag == CMD_REQ
    ensures var s := Heard(t, bytes, n + 1); |frame| <= |s| && frame == s[|s| - |frame|..]
    ensures WholeFrame(frame, Q[n].who.selfAddr, CMD_REQ) && HoldsPayload(Q[n], frame)
  {
    hide Step, DeviceApp, KeepsOffBut, WholeFrame, HoldsPayload, AtAddressedEof;
    forall j | 0 <= j <= n ensures KeepsOffBut(P[j], Q[j], DATA_RESP) {
      AlgorithmsKeepOff(P[j], Q[j]);
    }
    frame := PayloadBut(P, Q, rows, t, bytes, n, DATA_RESP);
  }

  // And what a busy master commits is the payload of a whole response frame for it.
  lemma MasterCommitsPayload(P: seq<Party>, Q: seq<Party>, rows: seq<Row>, t: nat, bytes: nat -> Option<byte>, n: nat)
    returns (frame: seq<byte>)
    requires SoftRun(P, Q, rows, t, bytes) && n < |Q| && P[0].ctl.exchange == Rx && P[0].ctl.rx == RxSof
    requires forall j | 0 <= j <= n :: P[j].ctl.busy && MasterApp(P[j], Q[j])
    requires AtAddressedEof(Q[n], bytes(t + n)) && Q[n].ctl.flag == DATA_RESP
    ensures var s := Heard(t, bytes, n + 1); |frame| <= |s| && frame == s[|s| - |frame|..]
    ensures WholeFrame(frame, Q[n].who.selfAddr, DATA_RESP) && HoldsPayload(Q[n], frame)
  {
    hide Step, MasterApp, KeepsOffBut, WholeFrame, HoldsPayload, AtAddressedEof;
    forall j | 0 <= j <= n ensures KeepsOffBut(P[j], Q[j], CMD_REQ) {
      AlgorithmsKeepOff(P[j], Q[j]);
    }
    frame := PayloadBut(P, Q, rows, t, bytes, n, CMD_REQ);
  }

  // --- a busy master ends ------------------------------------------------------------------

  lemma SameRank(p: Party, q: Party)
    requires Rewritten(p, q)
    ensures Rank(q) == Rank(p) && (Sane(p) <==> Sane(q)) && (Waits(p) <==> Waits(q)) && q.ctl == p.ctl
  {
    assert CmdFrameBlocks(q) == CmdFrameBlocks(p) && PrmFrameBlocks(q) == PrmFrameBlocks(p);
  }

  // Whatever the software writes, a busy master is free again within its rank, without a result exactly
  // after a silent end, if the run is long enough to see it.
  lemma MasterEndsDespiteSoftware(P: seq<Party>, Q: seq<Party>, rows: seq<Row>, t: nat, bytes: nat -> Option<byte>, m: nat)
    returns (n: nat)
    requires SoftRun(P, Q, rows, t, bytes) && m <= |Q| && Waits(P[m]) && Sane(P[m]) && !P[m].ctl.resultReady
    requires m + Rank(P[m]) <= |Q|
    ensures m < n <= m + Rank(P[m]) && !P[n].ctl.busy && forall k | m <= k < n :: P[k].ctl.busy
    ensures P[n].ctl.resultReady <==> !EndsSilently(Q[n - 1], bytes(t + n - 1))
  {
    hide Step, Rank, Run, Rewritten;
    forall k | 0 <= k <= |Q| ensures P[k].ctl == Run(P[0], rows, t, bytes, k).ctl {
      SoftwareKeepsControl(P, Q, rows, t, bytes, k);
      SameRank(Run(P[0], rows, t, bytes, k), P[k]);
    }
    SoftwareKeepsControl(P, Q, rows, t, bytes, m);
    SameRank(Run(P[0], rows, t, bytes, m), P[m]);
    n := BusyMasterEnds(P[0], rows, t, bytes, m);
    SoftwareKeepsControl(P, Q, rows, t, bytes, n - 1);
    SameRank(Run(P[0], rows, t, bytes, n - 1), Q[n - 1]);
  }
}
