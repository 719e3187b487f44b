/** Actions and their text, from ovs/action.go. */
module Actions {
  import opened Wrappers
  import opened Text
  import opened Numerals
  import opened Matches

  datatype Word = All | Drop | Flood | InPort | Local | Normal | StripVlan

  // The two constructors and the third action that print as keyword:a->b.
  datatype PairKind = Load | Move | SetField

  // What a learned flow marshals to.
  datatype Learned = NilFlow | Unprintable | Printed(text: string)

  // ip is absent where the source holds the nil address.
  datatype Action =
    | WordAction(word: Word)
    | Ct(args: string)
    | ModDl(dir: Dir, addr: seq<nat>)
    | ModNw(dir: Dir, ip: Option<seq<nat>>)
    | ModTp(dir: Dir, port: u16)
    | ModVlan(vid: int64)
    | Conjunction(id: int64, dimension: int64, size: int64)
    | Output(outPort: int64)
    | OutputField(field: string)
    | Resubmit(inPort: int64, table: int64)
    | ResubmitPort(reqPort: int64)
    | Pair(kind: PairKind, left: string, right: string)
    | SetTunnel(tunnel: u64)
    | Multipath(fields: string, basis: int64, algorithm: string, nlinks: int64, arg: int64, dst: string)
    | Learn(learned: Learned)

  datatype ActionError =
    | NoArguments | BadHardwareAddress | BadIpAddress | BadVlan | NegativePort | EmptyField
    | DimensionTooLarge | ZeroPortAndTable | InvalidPort | EmptyOperand | NoLearnedFlow | BadLearnedFlow
    | BadScan | BadInteger(num: NumError) | NoActionMatched | UnmatchedParentheses

  // ---------- Printing ----------

  function WordText(w: Word): string {
    match w
    case All => "all"
    case Drop => "drop"
    case Flood => "flood"
    case InPort => "in_port"
    case Local => "local"
    case Normal => "normal"
    case StripVlan => "strip_vlan"
  }

  // The fixed beginnings that the parser looks for with a prefix test.
  datatype Lead = LModDl(dir: Dir) | LModNw(dir: Dir) | LModTp(dir: Dir) | LModVlan | LConjunction | LOutput

  function LeadText(l: Lead): string {
    match l
    case LModDl(dir) => if dir.Dst? then "mod_dl_dst:" else "mod_dl_src:"
    case LModNw(dir) => if dir.Dst? then "mod_nw_dst:" else "mod_nw_src:"
    case LModTp(dir) => if dir.Dst? then "mod_tp_dst:" else "mod_tp_src:"
    case LModVlan => "mod_vlan_vid:"
    case LConjunction => "conjunction("
    case LOutput => "output:"
  }

  function PairText(k: PairKind): string {
    match k
    case Load => "load:"
    case Move => "move:"
    case SetField => "set_field:"
  }

  function NonZeroText(n: int): string {
    if n == 0 then "" else FormatInt(n)
  }

  const MAX_PORT: int := 0xffff_feff

  function MarshalAction(net: Net, a: Action): Result<string, ActionError> {
    match a
    case WordAction(word) => Ok(WordText(word))
    case Ct(args) => if args == "" then Err(NoArguments) else Ok("ct(" + args + ")")
    case ModDl(dir, addr) =>
      if |addr| != ETHERNET_LENGTH then Err(BadHardwareAddress)
      else Ok(LeadText(LModDl(dir)) + net.macText(addr))
    case ModNw(dir, ip) =>
      if ip.None? then Err(BadIpAddress) else Ok(LeadText(LModNw(dir)) + net.ipText(ip.value))
    case ModTp(dir, port) => Ok(LeadText(LModTp(dir)) + FormatInt(port))
    case ModVlan(vid) => if !ValidVlan(vid) then Err(BadVlan) else Ok(LeadText(LModVlan) + FormatInt(vid))
    case Conjunction(id, dimension, size) =>
      if dimension > size then Err(DimensionTooLarge)
      else Ok(LeadText(LConjunction) +
        (FormatInt(id) + ("," + (FormatInt(dimension) + ("/" + (FormatInt(size) + ")"))))))
    case Output(port) => if port < 0 then Err(NegativePort) else Ok(LeadText(LOutput) + FormatInt(port))
    case OutputField(field) => if field == "" then Err(EmptyField) else Ok(LeadText(LOutput) + field)
    case Resubmit(port, table) =>
      if port == 0 && table == 0 then Err(ZeroPortAndTable)
      else Ok("resubmit(" + (NonZeroText(port) + ("," + (NonZeroText(table) + ")"))))
    case ResubmitPort(port) =>
      if port < 0 || port > MAX_PORT then Err(InvalidPort) else Ok("resubmit:" + FormatInt(port))
    case Pair(kind, left, right) =>
      if left == "" || right == "" then Err(EmptyOperand) else Ok(PairText(kind) + (left + ("->" + right)))
    case SetTunnel(tunnel) => Ok("set_tunnel:" + Hex(tunnel, 0))
    case Multipath(fields, basis, algorithm, nlinks, arg, dst) =>
      Ok("multipath(" + Join([fields, FormatInt(basis), algorithm, FormatInt(nlinks), FormatInt(arg), dst], ",") + ")")
    case Learn(NilFlow) => Err(NoLearnedFlow)
    case Learn(Unprintable) => Err(BadLearnedFlow)
    case Learn(Printed(text)) => Ok("learn(" + text + ")")
  }
}
