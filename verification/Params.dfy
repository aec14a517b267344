// Setting and reading parameters and commands by global identifier.
module Params {
  import opened Wire
  import opened Bits
  import opened MsgBlock
  import opened CommTable
  import opened Codec

  datatype Side = CsSide | DeviceSide

  // The buffers an identifier is looked up in; a device may leave its system unnamed.
  datatype Context = Context(side: Side, systemId: nat, prm: seq<word>, cmd: seq<word>)

  // Identifiers number the parameter rows first and then the command rows.
  datatype Tables = Tables(params: seq<Row>, comms: seq<Row>)
  {
    predicate IsParam(id: nat) { id < |params| }

    predicate IsComm(id: nat) { |params| <= id < |params| + |comms| }

    function CommRow(id: nat): Row
      requires IsComm(id)
    {
      comms[id - |params|]
    }

    function RowAt(id: nat): Row
      requires IsParam(id) || IsComm(id)
    {
      if IsParam(id) then params[id] else CommRow(id)
    }
  }

  datatype Resolved = Item(row: Row, block: nat) | Failed(status: Status)

  function LayoutOf(row: Row, block: nat, count: nat): (r: Resolved)
    ensures r.Item? <==> Field(block, row.offset, row.Width()).Fits(count)
    ensures r.Item? ==> r == Item(row, block) && row.Width() > 0
  {
    if count == 0 then Failed(NullBuffer)
    else if row.Width() == 0 then Failed(BadType)
    else if block >= count || !LayoutSupported(row.Width(), row.offset) then Failed(BadLayout)
    else Item(row, block)
  }

  predicate SystemMismatched(c: Context, sysId: nat) { c.systemId != SYS_NONE && c.systemId != sysId }

  // CS reads parameters and a device reads its commands.
  function ResolveForParse(c: Context, t: Tables, id: nat): (r: Resolved)
    ensures r.Item? ==> r.row.Width() > 0
  {
    if c.side == CsSide then
      if !t.IsParam(id) then Failed(DirectionMismatch) else LayoutOf(t.params[id], t.params[id].csBlock, |c.prm|)
    else if !t.IsComm(id) then Failed(DirectionMismatch)
    else if SystemMismatched(c, t.CommRow(id).sysId) then Failed(Status.SystemMismatch)
    else LayoutOf(t.CommRow(id), t.CommRow(id).block, |c.cmd|)
  }

  // CS sets commands and a device sets its parameters.
  function ResolveForGenerate(c: Context, t: Tables, id: nat): (r: Resolved)
    ensures r.Item? ==> r.row.Width() > 0 && (t.IsParam(id) || t.IsComm(id)) && r.row == t.RowAt(id)
  {
    if c.side == CsSide then
      if !t.IsComm(id) then Failed(DirectionMismatch) else LayoutOf(t.CommRow(id), t.CommRow(id).csBlock, |c.cmd|)
    else if !t.IsParam(id) then Failed(DirectionMismatch)
    else if SystemMismatched(c, t.params[id].sysId) then Failed(Status.SystemMismatch)
    else LayoutOf(t.params[id], t.params[id].block, |c.prm|)
  }

  datatype Parsed = Parsed(status: Status, value: real)

  // The value an identifier has in the context's receive buffer.
  function GetValue(c: Context, t: Tables, id: nat): Parsed {
    if !t.IsParam(id) && !t.IsComm(id) then Parsed(IdOutOfRange, 0.0)
    else match ResolveForParse(c, t, id)
      case Failed(s) => Parsed(s, 0.0)
      case Item(row, block) =>
        match ReadValue(if c.side == CsSide then c.prm else c.cmd, block, row.offset, row.Width())
        case None => Parsed(BufferTooSmall, 0.0)
        case Some(raw) => Parsed(Ok, DecodeProcessed(row, DecodeRaw(raw, row.Width(), row.signed)))
  }

  // The buffers after setting an identifier; root is the square root the AAC algorithm takes.
  function SetValue(c: Context, t: Tables, id: nat, x: real, root: real): (Context, Status) {
    if !t.IsParam(id) && !t.IsComm(id) then (c, IdOutOfRange)
    else match ResolveForGenerate(c, t, id)
      case Failed(s) => (c, s)
      case Item(row, block) =>
        match PrepareRaw(row, x, root)
          case Refused(s) => (c, s)
          case Code(v) =>
            var buf := if c.side == CsSide then c.cmd else c.prm;
            match WriteValue(buf, block, row.offset, row.Width(), EncodeToBits(v, row.Width()))
            case None => (c, BufferTooSmall)
            case Some(w) => (if c.side == CsSide then c.(cmd := w) else c.(prm := w), Ok)
  }

  method SetValueInPlace(side: Side, systemId: nat, prm: array<word>, cmd: array<word>, t: Tables, id: nat, x: real,
                         root: real) returns (status: Status)
    requires prm != cmd
    requires t.IsParam(id) || t.IsComm(id) ==> RootOk(t.RowAt(id), x, root)
    modifies if side == CsSide then cmd else prm
    ensures (Context(side, systemId, prm[..], cmd[..]), status)
      == SetValue(Context(side, systemId, old(prm[..]), old(cmd[..])), t, id, x, root)
  {
    hide PrepareRaw;
    if !t.IsParam(id) && !t.IsComm(id) { return IdOutOfRange; }
    var item := ResolveForGenerate(Context(side, systemId, prm[..], cmd[..]), t, id);
    if item.Failed? { return item.status; }
    var prepared := PrepareRawValue(item.row, x, root);
    if prepared.Refused? { return prepared.status; }
    var buf := if side == CsSide then cmd else prm;
    var ok := WriteValueInPlace(buf, item.block, item.row.offset, item.row.Width(),
                                EncodeToBits(prepared.raw, item.row.Width()));
    status := if ok then Ok else BufferTooSmall;
  }

  // --- what setting and getting mean -------------------------------------------------------

  // The value a physical value is transmitted as: by optimality, the nearest one the wire can carry.
  function Quantised(row: Row, x: real, root: real): real
    requires row.Width() > 0 && Accepts(row, x)
  {
    CodeIffAccepted(row, x, root);
    DecodeProcessed(row, PrepareRaw(row, x, root).raw)
  }

  // The bit pattern it is transmitted as.
  function Pattern(row: Row, x: real, root: real): nat
    requires row.Width() > 0 && Accepts(row, x)
  {
    CodeIffAccepted(row, x, root);
    EncodeToBits(PrepareRaw(row, x, root).raw, row.Width())
  }

  lemma PatternFits(row: Row, x: real, root: real)
    requires row.Width() > 0 && Accepts(row, x) && RootOk(row, x, root)
    ensures Pattern(row, x, root) < Pow2(row.Width())
    ensures DecodeProcessed(row, DecodeRaw(Pattern(row, x, root), row.Width(), row.signed)) == Quantised(row, x, root)
    ensures Optimal(row, x, PrepareRaw(row, x, root).raw)
  {
    CodeIffAccepted(row, x, root);
    CodeIsOptimal(row, x, root);
    hide PrepareRaw, Error;
    assert InRange(row, PrepareRaw(row, x, root).raw) by { assert InRange(row, 0); }
    BitsRoundTrip(row, PrepareRaw(row, x, root).raw);
  }

  // Setting succeeds exactly for an accepted value of an identifier of the right direction and system
  // whose field fits; then the field holds the pattern, fields apart from it stand, nothing else changes.
  lemma SetStores(c: Context, t: Tables, id: nat, x: real, root: real)
    requires c.side == CsSide && t.IsComm(id) && RootOk(t.CommRow(id), x, root)
    ensures var row := t.CommRow(id); var (r, s) := SetValue(c, t, id, x, root);
      && (s == Ok <==> row.CsField().Fits(|c.cmd|) && Accepts(row, x))
      && (s != Ok ==> r == c)
      && (s == Ok ==> |r.cmd| == |c.cmd| && r == c.(cmd := r.cmd) && Get(r.cmd, row.CsField()) == Pattern(row, x, root))
      && (s == Ok ==> forall g: Field :: g.Fits(|c.cmd|) && row.CsField().Apart(g) ==> Get(r.cmd, g) == Get(c.cmd, g))
  {
    var row := t.CommRow(id);
    var f := row.CsField();
    if f.Fits(|c.cmd|) {
      CodeIffAccepted(row, x, root);
      if Accepts(row, x) {
        PatternFits(row, x, root);
        StoreField(c.cmd, f, Pattern(row, x, root));
      }
    }
    hide PrepareRaw, WriteValue, Get, Accepts, EncodeToBits;
  }

  // Writing a pattern that fits its field.
  lemma StoreField(w: seq<word>, f: Field, v: nat)
    requires f.Fits(|w|) && v < Pow2(f.width)
    ensures WriteValue(w, f.block, f.offset, f.width, v) == Some(Put(w, f, v))
    ensures Get(Put(w, f, v), f) == v
    ensures forall g: Field :: g.Fits(|w|) && f.Apart(g) ==> Get(Put(w, f, v), g) == Get(w, g)
  {
    WriteIsSplice(w, f, v);
    StoredSmall(f.width, v);
    GetOfPut(w, f, v, f);
    forall g: Field | g.Fits(|w|) && f.Apart(g) ensures Get(Put(w, f, v), g) == Get(w, g) {
      GetOfPut(w, f, v, g);
    }
  }

  // A device that finds the pattern of x in the command's field reads the quantised x.
  lemma GetReads(c: Context, t: Tables, id: nat, x: real, root: real)
    requires c.side == DeviceSide && t.IsComm(id) && (c.systemId == SYS_NONE || c.systemId == t.CommRow(id).sysId)
    requires t.CommRow(id).DeviceField().Fits(|c.cmd|)
    requires Accepts(t.CommRow(id), x) && RootOk(t.CommRow(id), x, root)
    requires Get(c.cmd, t.CommRow(id).DeviceField()) == Pattern(t.CommRow(id), x, root)
    ensures GetValue(c, t, id) == Parsed(Ok, Quantised(t.CommRow(id), x, root))
  {
    PatternFits(t.CommRow(id), x, root);
    ReadIsSlice(c.cmd, t.CommRow(id).DeviceField());
    hide ReadValue, Get, Pattern, Quantised, Accepts, DecodeProcessed, DecodeRaw;
  }

  // A parameter set in a device: the mirror of the command path.
  lemma DeviceStores(c: Context, t: Tables, id: nat, x: real, root: real)
    requires c.side == DeviceSide && t.IsParam(id) && (c.systemId == SYS_NONE || c.systemId == t.params[id].sysId)
    requires t.params[id].DeviceField().Fits(|c.prm|)
    requires Accepts(t.params[id], x) && RootOk(t.params[id], x, root)
    ensures var (r, s) := SetValue(c, t, id, x, root);
      s == Ok && |r.prm| == |c.prm| && r == c.(prm := r.prm)
      && Get(r.prm, t.params[id].DeviceField()) == Pattern(t.params[id], x, root)
  {
    var row := t.params[id];
    CodeIffAccepted(row, x, root);
    PatternFits(row, x, root);
    StoreField(c.prm, row.DeviceField(), Pattern(row, x, root));
    hide PrepareRaw, WriteValue, Get, Accepts, EncodeToBits;
  }

  lemma CsReads(c: Context, t: Tables, id: nat, x: real, root: real)
    requires c.side == CsSide && t.IsParam(id) && t.params[id].CsField().Fits(|c.prm|)
    requires Accepts(t.params[id], x) && RootOk(t.params[id], x, root)
    requires Get(c.prm, t.params[id].CsField()) == Pattern(t.params[id], x, root)
    ensures GetValue(c, t, id) == Parsed(Ok, Quantised(t.params[id], x, root))
  {
    PatternFits(t.params[id], x, root);
    ReadIsSlice(c.prm, t.params[id].CsField());
    hide ReadValue, Get, Pattern, Quantised, Accepts, DecodeProcessed, DecodeRaw;
  }

  // --- refusals ----------------------------------------------------------------------------

  // Which identifiers a call is for: CS reads parameters and sets commands, a device the other way round.
  predicate RightWay(c: Context, t: Tables, id: nat, setting: bool) {
    if (c.side == CsSide) == setting then t.IsComm(id) else t.IsParam(id)
  }

  // A device that names its system is asked for a row of another one.
  predicate Foreign(c: Context, row: Row) { c.side == DeviceSide && c.systemId != SYS_NONE && row.sysId != c.systemId }

  // The field of a row in the buffer of the call, and that buffer's size.
  function PlaceOf(c: Context, row: Row): Field { if c.side == CsSide then row.CsField() else row.DeviceField() }

  function BlocksFor(c: Context, setting: bool): nat { if (c.side == CsSide) == setting then |c.cmd| else |c.prm| }

  // The first reason that holds, in the order of the checks; Ok if none does.
  predicate LooksUp(c: Context, t: Tables, id: nat, setting: bool, status: Status) {
    if !t.IsParam(id) && !t.IsComm(id) then status == IdOutOfRange
    else if !RightWay(c, t, id, setting) then status == DirectionMismatch
    else
      var row := t.RowAt(id);
      if Foreign(c, row) then status == Status.SystemMismatch
      else if BlocksFor(c, setting) == 0 then status == NullBuffer
      else if row.ty == TypeNone then status == BadType
      else if !PlaceOf(c, row).Fits(BlocksFor(c, setting)) then status == BadLayout
      else if setting && row.alg == AlgOther then status == BadType
      else status == Ok || (setting && status == ValueOutOfRange)
  }

  // Setting is refused for the first of these reasons, and then for a value the algorithm has no code for;
  // a refusal changes nothing.
  lemma SetRefusals(c: Context, t: Tables, id: nat, x: real, root: real)
    requires t.IsParam(id) || t.IsComm(id) ==> RootOk(t.RowAt(id), x, root)
    ensures var (r, s) := SetValue(c, t, id, x, root);
      && LooksUp(c, t, id, true, s) && (s != Ok ==> r == c)
      && (s == Ok || s == ValueOutOfRange ==> (t.IsParam(id) || t.IsComm(id)) && (s == Ok <==> Accepts(t.RowAt(id), x)))
  {
    hide PrepareRaw, WriteValue, EncodeToBits, Get, Put, DecodeProcessed, DecodeRaw, RootOk;
    if t.IsParam(id) || t.IsComm(id) {
      var row := t.RowAt(id);
      if row.Width() > 0 { CodeIffAccepted(row, x, root); }
      var f := PlaceOf(c, row);
      if f.Fits(BlocksFor(c, true)) && row.Width() > 0 && Accepts(row, x) {
        PatternFits(row, x, root);
        StoreField(if c.side == CsSide then c.cmd else c.prm, f, Pattern(row, x, root));
      }
    }
  }

  // Getting is refused for the first of these reasons, with the value 0.
  lemma GetRefusals(c: Context, t: Tables, id: nat)
    ensures var r := GetValue(c, t, id);
      LooksUp(c, t, id, false, r.status) && (r.status != Ok ==> r.value == 0.0)
  {
    if RightWay(c, t, id, false) {
      var row := t.RowAt(id);
      var f := PlaceOf(c, row);
      if f.Fits(BlocksFor(c, false)) { ReadIsSlice(if c.side == CsSide then c.prm else c.cmd, f); }
    }
    hide ReadValue, Get, DecodeProcessed, DecodeRaw;
  }
}
