// The system of the repository, freshly bound: a state from which the joint runs begin.
module ShippedSystem {
  import opened Wire
  import opened CommTable
  import opened BusExchange
  import opened ClosedSystem
  import opened Scheduler
  import opened CommandWindows
  import opened PssTable
  import opened CommandTable
  import opened Liveness
  import opened CommandPath
  import opened JointRun
  import opened JointProgress

  const CS_ADDR: nat := 1
  const PSS_ADDR: nat := 2
  const CS_PARAM_BLOCKS: nat := 26
  const CS_PARAM_BUF_BLOCKS: nat := 15

  const IDLE: BusExchange.Control :=
    BusExchange.Control.Control(Rx, RxSof, TxSof, 0, false, 0, CMD_REQ, 0, 0, false, false, NoResult)

  function Bound(who: Identity, target: nat, cmd: nat, cmdBuf: nat, prm: nat, prmBuf: nat): Party {
    var mem := Memory(Zeros(cmdBuf), Zeros(prmBuf), Zeros(cmd), Zeros(prm));
    Party(who, target, mem, WholeWindows(mem), IDLE)
  }

  // The parties the program binds: CS, and PSS as its only device so far.
  function CsParty(): Party {
    Bound(Identity(Master, SYS_CS, CS_ADDR), PSS_ADDR, CS_COMM_BLOCKS, CS_COMM_BUF_BLOCKS, CS_PARAM_BLOCKS, CS_PARAM_BUF_BLOCKS)
  }

  function PssParty(): Party {
    Bound(Identity(Device, SYS_PSS, PSS_ADDR), CS_ADDR, PSS_COMM_BLOCKS, PSS_COMM_BLOCKS, PSS_PARAM_BLOCKS, PSS_PARAM_BLOCKS)
  }

  function FreshSystem(): Sys { Sys([CsParty(), PssParty()], None) }

  lemma NodesServed()
    ensures Served(CsParty(), NODES)
  {
  }

  // The system as shipped is one the theorems about joint runs are for: its configuration is sound, it begins
  // where they begin, CS can serve every node, and PSS is the device of its node.
  lemma ShippedBegins()
    ensures Begins(Shipped(), Joint(World(FreshSystem(), FRESH), Empty(Shipped()).pending))
    ensures Served(Cs(FreshSystem()), Shipped().nodes) && Mirrors(FreshSystem().parties[1], Shipped().nodes[0])
  {
    ShippedConfigOk();
    NodesServed();
    hide Served, ConfigOk, CommandTable.Commands, Coupled;
    FreshCoupled(FreshSystem());
  }
}
