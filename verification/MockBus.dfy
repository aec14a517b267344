// The simulated bus: one byte visible in this tick, one byte pending for the next.
module MockBus {
  import opened Wire

  datatype BusState = BusState(visibleData: byte, visibleTick: nat, visibleValid: bool,
                               pendingData: byte, pendingTick: nat, pendingValid: bool)

  const QUIET_BUS := BusState(0, 0, false, 0, 0, false)

  function TickBus(b: BusState, tick: nat): BusState {
    if b.pendingValid && b.pendingTick + 1 == tick
    then BusState(b.pendingData, tick, true, b.pendingData, b.pendingTick, false)
    else BusState(0, tick, false, b.pendingData, b.pendingTick, false)
  }

  function WriteBus(b: BusState, tick: nat, v: byte): BusState {
    b.(pendingData := v, pendingTick := tick, pendingValid := true)
  }

  function ReadBus(b: BusState, tick: nat): Option<byte> {
    if !b.visibleValid || b.visibleTick != tick then None else Some(b.visibleData)
  }

  // Between ticks nothing is pending.
  predicate Settled(b: BusState) { !b.pendingValid }

  function WriteAll(b: BusState, tick: nat, vs: seq<byte>): BusState {
    if |vs| == 0 then b else WriteBus(WriteAll(b, tick, vs[..|vs| - 1]), tick, vs[|vs| - 1])
  }

  // A read in one tick returns what was written last in the tick before, or nothing; writes of the
  // current tick are not yet visible.
  lemma {:induction false} OneTickLatency(b: BusState, t: nat, vs: seq<byte>, later: seq<byte>)
    requires Settled(b)
    ensures var c := TickBus(WriteAll(b, t, vs), t + 1);
      && Settled(c)
      && ReadBus(c, t + 1) == (if |vs| == 0 then None else Some(vs[|vs| - 1]))
      && ReadBus(WriteAll(c, t + 1, later), t + 1) == ReadBus(c, t + 1)
  {
    WritesPending(b, t, vs);
    WritesPending(TickBus(WriteAll(b, t, vs), t + 1), t + 1, later);
  }

  lemma {:induction false} WritesPending(b: BusState, t: nat, vs: seq<byte>)
    requires Settled(b)
    ensures var c := WriteAll(b, t, vs);
      && c.visibleData == b.visibleData && c.visibleTick == b.visibleTick && c.visibleValid == b.visibleValid
      && (if |vs| == 0 then c == b else c.pendingValid && c.pendingTick == t && c.pendingData == vs[|vs| - 1])
    decreases |vs|
  {
    if |vs| > 0 { WritesPending(b, t, vs[..|vs| - 1]); }
  }

  class Bus {
    var visibleData: byte
    var visibleTick: nat
    var visibleValid: bool
    var pendingData: byte
    var pendingTick: nat
    var pendingValid: bool

    function View(): BusState
      reads this
    {
      BusState(visibleData, visibleTick, visibleValid, pendingData, pendingTick, pendingValid)
    }

    constructor ()
      ensures View() == QUIET_BUS
    {
      visibleData, visibleTick, visibleValid := 0, 0, false;
      pendingData, pendingTick, pendingValid := 0, 0, false;
    }

    method Tick(tick: nat)
      modifies this
      ensures View() == TickBus(old(View()), tick)
    {
      if pendingValid && pendingTick + 1 == tick {
        visibleData := pendingData;
        visibleTick := tick;
        visibleValid := true;
      } else {
        visibleData := 0;
        visibleTick := tick;
        visibleValid := false;
      }
      pendingValid := false;
    }

    method Write(tick: nat, v: byte)
      modifies this
      ensures View() == WriteBus(old(View()), tick, v)
    {
      pendingData := v;
      pendingTick := tick;
      pendingValid := true;
    }

    method Read(tick: nat) returns (v: Option<byte>)
      ensures v == ReadBus(View(), tick)
    {
      if !visibleValid || visibleTick != tick { return None; }
      return Some(visibleData);
    }
  }
}
