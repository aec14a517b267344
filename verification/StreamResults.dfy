// What a result says: over any byte stream, why a party has stopped listening.
module StreamResults {
  import opened Wire
  import opened MsgBlock
  import opened CommTable
  import opened BusExchange
  import opened ArbitraryStreams
  import H = MsgHeader
  import L = Lockstep

  predicate Listening(p: Party) { p.ctl.exchange == Rx && (p.ctl.rx == RxHeader ==> p.ctl.subClock <= 1) }

  // Outside a frame only SOF counts as a byte of one.
  predicate Takes(p: Party, v: Option<byte>) { v.Some? && (p.ctl.rx == RxSof ==> v == Some(SOF)) }

  // The blocks a header announces; a header that does not parse announces none.
  function Announced(w: word): nat { if H.Parse(w).Some? then H.Parse(w).value.nblocks else 0 }

  predicate For(w: word, addr: nat) { H.Parse(w).Some? && H.Parse(w).value.addr == addr }

  function FlagIn(w: word): nat { if H.Parse(w).Some? then H.Parse(w).value.flag else 0 }

  // Past the header the party knows what it says.
  predicate Informed(p: Party) {
    p.ctl.rx == RxData || p.ctl.rx == RxEof ==>
      && p.ctl.nBlocks == Announced(p.ctl.header) && (p.ctl.adrFlag <==> For(p.ctl.header, p.who.selfAddr))
      && (p.ctl.adrFlag ==> p.ctl.flag == FlagIn(p.ctl.header))
  }

  // A frame up to its EOF.
  predicate FrameSoFar(s: seq<byte>) { |s| >= 3 && s[0] == SOF && |s| == 3 + 2 * Announced(HeaderAt(s, 1)) }

  // Idle, with whole frame windows.
  predicate Resting(p: Party) {
    && p.ctl.exchange == Rx && p.ctl.rx == RxSof && p.ctl.tx == TxSof && !p.ctl.busy && !p.ctl.adrFlag && p.ctl.nBlocks == 0
    && p.ctl.flag == CMD_REQ && p.ctl.subClock == 0 && p.ctl.waitClock == 0 && p.win == WholeWindows(p.mem)
  }

  predicate Got(p: Party, r: Result) { p.ctl.resultReady && p.ctl.lastResult == r }

  predicate Answers(p: Party, flag: nat) { p.ctl.exchange == Tx && p.ctl.tx == TxSof && p.ctl.flag == flag }

  // --- one tick ----------------------------------------------------------------------------

  predicate ListenOutcome(p: Party, q: Party, v: Option<byte>) {
    && q.who == p.who
    && (if Waits(p) && p.ctl.waitClock >= 10 then Resting(q) && Got(q, Timeout)
        else Listening(q) && Informed(q) && L.SameResult(p, q) && (Waits(q) <==> Waits(p))
             && (Waits(p) ==> q.ctl.waitClock == if Takes(p, v) then 0 else p.ctl.waitClock + 1))
  }

  predicate EofOutcome(p: Party, q: Party, v: Option<byte>) {
    && q.who == p.who
    && (if Waits(p) && p.ctl.waitClock >= 10 then Resting(q) && Got(q, Timeout)
        else if v == None then q == p.(ctl := p.ctl.(waitClock := if Waits(p) then p.ctl.waitClock + 1 else p.ctl.waitClock))
        else if v != Some(EOF) then Resting(q) && Got(q, InvalidEof)
        else if !p.ctl.adrFlag then Resting(q) && L.SameResult(p, q)
        else if p.ctl.flag == CMD_REQ then Answers(q, CMD_RESP) && L.SameResult(p, q)
        else if p.ctl.flag == DATA_REQ then Answers(q, DATA_RESP) && L.SameResult(p, q)
        else Resting(q) && if p.who.role == Master then Got(q, Success) else L.SameResult(p, q))
  }

  // Before the EOF. A waiting master counts the ticks in which it takes no byte, up to the tenth; any byte
  // that it takes starts the count anew.
  lemma ListenTick(p: Party, rows: seq<Row>, tick: nat, v: Option<byte>)
    requires Listening(p) && Informed(p) && p.ctl.rx != RxEof
    ensures ListenOutcome(p, Step(p, rows, tick, v).party, v)
  {
    hide H.Parse, WriteByte, FrameBlocks, H.WriteHeaderByte;
  }

  // At the EOF.
  lemma EofTick(p: Party, rows: seq<Row>, tick: nat, v: Option<byte>)
    requires p.ctl.exchange == Rx && p.ctl.rx == RxEof
    ensures EofOutcome(p, Step(p, rows, tick, v).party, v)
  {
    hide FrameBlocks, Overlay, CopyBlocks;
  }

  // --- runs --------------------------------------------------------------------------------

  // Ticks since the last byte the party took.
  function Idle(p: Party, rows: seq<Row>, t: nat, bytes: nat -> Option<byte>, n: nat): nat {
    if n == 0 then 0 else if Takes(Run(p, rows, t, bytes, n - 1), bytes(t + n - 1)) then 0 else Idle(p, rows, t, bytes, n - 1) + 1
  }

  predicate Starts(p: Party) { Listening(p) && p.ctl.rx == RxSof && p.ctl.waitClock == 0 }

  // For n ticks the party has listened, and a waiting master has waited.
  ghost predicate StillListens(p: Party, rows: seq<Row>, t: nat, bytes: nat -> Option<byte>, n: nat) {
    forall k: nat | k <= n :: Listening(Run(p, rows, t, bytes, k)) && (Waits(Run(p, rows, t, bytes, k)) <==> Waits(p))
  }

  lemma {:induction false} ClockIsIdle(p: Party, rows: seq<Row>, t: nat, bytes: nat -> Option<byte>, n: nat)
    requires Starts(p) && StillListens(p, rows, t, bytes, n)
    ensures var q := Run(p, rows, t, bytes, n);
      q.who == p.who && Informed(q) && (Waits(p) ==> q.ctl.waitClock == Idle(p, rows, t, bytes, n) <= 10)
    decreases n
  {
    hide Listening, Takes, Step, Informed, Waits;
    if n == 0 {
      StartInformed(p);
    } else {
      ClockIsIdle(p, rows, t, bytes, n - 1);
      var q := Run(p, rows, t, bytes, n - 1);
      assert Listening(q) && Listening(Run(p, rows, t, bytes, n));
      NextClock(q, rows, t + n - 1, bytes(t + n - 1));
    }
  }

  lemma StartInformed(p: Party)
    requires Starts(p)
    ensures Informed(p)
  {
  }

  lemma NextClock(p: Party, rows: seq<Row>, tick: nat, v: Option<byte>)
    requires Listening(p) && Informed(p)
    ensures var q := Step(p, rows, tick, v).party;
      Listening(q) && (Waits(q) <==> Waits(p)) ==>
        && q.who == p.who && Informed(q)
        && (Waits(p) ==> p.ctl.waitClock < 10 && q.ctl.waitClock == if Takes(p, v) then 0 else p.ctl.waitClock + 1)
  {
    hide Step, Announced, For, FlagIn;
    if p.ctl.rx == RxEof { EofTick(p, rows, tick, v); } else { hide Informed; ListenTick(p, rows, tick, v); }
  }

  // The frame whose EOF the party waits for.
  lemma FrameHeard(q: Party, s: seq<byte>) returns (frame: seq<byte>)
    requires q.ctl.exchange == Rx && q.ctl.rx == RxEof && Tracks(q, s) && Informed(q)
    ensures |frame| <= |s| && frame == s[|s| - |frame|..] && FrameSoFar(frame)
    ensures HeaderAt(frame, 1) == q.ctl.header
  {
    hide H.Parse;
    var start := |s| - q.ctl.nBlocks * 2 - 3;
    frame := s[start..];
    assert HeaderAt(frame, 1) == HeaderAt(s, start + 1);
  }

  // From p to q in a tick with v on the bus, after idle ticks without a byte, by what has been heard.
  predicate Told(p: Party, q: Party, idle: nat, frame: seq<byte>, v: Option<byte>) {
    if Waits(p) && idle == 10 then Resting(q) && Got(q, Timeout)
    else if !FrameSoFar(frame) || v == None then Listening(q) && L.SameResult(p, q) && (Waits(q) <==> Waits(p))
    else if v != Some(EOF) then Resting(q) && Got(q, InvalidEof)
    else
      var header := HeaderAt(frame, 1);
      if !For(header, p.who.selfAddr) then Resting(q) && L.SameResult(p, q)
      else if FlagIn(header) == CMD_REQ then Answers(q, CMD_RESP) && L.SameResult(p, q)
      else if FlagIn(header) == DATA_REQ then Answers(q, DATA_RESP) && L.SameResult(p, q)
      else Resting(q) && if p.who.role == Master then Got(q, Success) else L.SameResult(p, q)
  }

  // A waiting master times out in the eleventh tick in a row without a byte of a frame, and never before. At
  // the byte after a whole frame body a party has an invalid EOF unless that byte is EOF; with EOF it answers
  // a request to it, a master succeeds with any other frame for it, and nothing comes of a frame for others.
  // Until then it goes on listening.
  lemma ResultTells(p: Party, rows: seq<Row>, t: nat, bytes: nat -> Option<byte>, n: nat) returns (frame: seq<byte>)
    requires Starts(p) && StillListens(p, rows, t, bytes, n)
    ensures var s := Heard(t, bytes, n); |frame| <= |s| && frame == s[|s| - |frame|..]
    ensures Told(Run(p, rows, t, bytes, n), Run(p, rows, t, bytes, n + 1), Idle(p, rows, t, bytes, n), frame, bytes(t + n))
    ensures Waits(p) ==> Idle(p, rows, t, bytes, n) <= 10
  {
    var q, s, idle := Run(p, rows, t, bytes, n), Heard(t, bytes, n), Idle(p, rows, t, bytes, n);
    hide Tracks, Step, Heard, Idle, FrameSoFar, Takes, HeaderAt, Told, EofOutcome, ListenOutcome, Informed, Starts;
    ClockIsIdle(p, rows, t, bytes, n);
    Begins(p);
    RunTracks(p, rows, t, bytes, n);
    assert Listening(q) && (Waits(q) <==> Waits(p));
    assert t + (n + 1) - 1 == t + n;
    hide Run;
    if q.ctl.rx == RxEof {
      frame := FrameHeard(q, s);
      EofTick(q, rows, t + n, bytes(t + n));
      ToldAtEof(q, Step(q, rows, t + n, bytes(t + n)).party, idle, frame, bytes(t + n));
    } else {
      frame := [];
      NoFrame();
      ListenTick(q, rows, t + n, bytes(t + n));
      ToldBefore(q, Step(q, rows, t + n, bytes(t + n)).party, idle, bytes(t + n));
    }
  }

  lemma Begins(p: Party)
    requires Starts(p)
    ensures p.ctl.exchange == Rx && p.ctl.rx == RxSof
  {
  }

  lemma ToldAtEof(p: Party, q: Party, idle: nat, frame: seq<byte>, v: Option<byte>)
    requires EofOutcome(p, q, v) && Informed(p) && p.ctl.exchange == Rx && p.ctl.rx == RxEof
    requires FrameSoFar(frame) && HeaderAt(frame, 1) == p.ctl.header && (Waits(p) ==> p.ctl.waitClock == idle <= 10)
    ensures Told(p, q, idle, frame, v)
  {
    hide H.Parse, FrameSoFar, HeaderAt;
  }

  lemma ToldBefore(p: Party, q: Party, idle: nat, v: Option<byte>)
    requires ListenOutcome(p, q, v) && !FrameSoFar([]) && (Waits(p) ==> p.ctl.waitClock == idle <= 10)
    ensures Told(p, q, idle, [], v)
  {
    hide H.Parse, FrameSoFar, HeaderAt, Informed;
  }

  lemma NoFrame()
    ensures !FrameSoFar([])
  {
  }

  // --- devices -----------------------------------------------------------------------------

  // Busy exactly from the SOF of a frame until it is over, the answer included; outside a frame as after reset.
  predicate BusyInFrame(p: Party) {
    && (p.ctl.busy <==> p.ctl.exchange == Tx || (p.ctl.exchange == Rx && p.ctl.rx != RxSof))
    && (p.ctl.exchange == Rx && p.ctl.rx == RxSof ==> p.ctl.tx == TxSof && p.ctl.flag == CMD_REQ && p.ctl.subClock == 0)
  }

  // Over any byte stream that is so of a device that was idle at first.
  lemma {:induction false} DeviceBusyInFrames(p: Party, rows: seq<Row>, t: nat, bytes: nat -> Option<byte>, n: nat)
    requires p.who.role == Device && BusyInFrame(p)
    ensures var q := Run(p, rows, t, bytes, n); BusyInFrame(q) && q.who == p.who
    decreases n
  {
    hide Step, BusyInFrame;
    if n > 0 {
      DeviceBusyInFrames(p, rows, t, bytes, n - 1);
      DeviceStep(Run(p, rows, t, bytes, n - 1), rows, t + n - 1, bytes(t + n - 1));
    }
  }

  lemma DeviceStep(p: Party, rows: seq<Row>, tick: nat, v: Option<byte>)
    requires p.who.role == Device && BusyInFrame(p)
    ensures var q := Step(p, rows, tick, v).party; BusyInFrame(q) && q.who == p.who
  {
    hide H.Parse, H.Make, WriteByte, FrameBlocks, CopyBlocks, Overlay;
  }

  // --- a party without a system ------------------------------------------------------------

  // A party that belongs to no system merges no commands, whatever it hears.
  lemma {:induction false} NamelessKeepsCommands(p: Party, rows: seq<Row>, t: nat, bytes: nat -> Option<byte>, n: nat)
    requires p.who.systemId == SYS_NONE
    ensures var q := Run(p, rows, t, bytes, n); q.mem.cmd == p.mem.cmd && q.who == p.who
    decreases n
  {
    hide Step;
    if n > 0 {
      NamelessKeepsCommands(p, rows, t, bytes, n - 1);
      NamelessStep(Run(p, rows, t, bytes, n - 1), rows, t + n - 1, bytes(t + n - 1));
    }
  }

  lemma NamelessStep(p: Party, rows: seq<Row>, tick: nat, v: Option<byte>)
    requires p.who.systemId == SYS_NONE
    ensures var q := Step(p, rows, tick, v).party; q.mem.cmd == p.mem.cmd && q.who == p.who
  {
    hide H.Parse, H.Make, WriteByte, FrameBlocks, CopyBlocks;
  }
}
