/**
 A small-step model of the message executor as the runtime wires it: the asset
 transactor is the native currency behind `CurrencyIdConvert`, reserves are
 decided by `AbsoluteAndRelativeReserve`, nothing may be teleported in, and the
 trader sells weight for `SelfReserve` one unit per unit of weight.
 */
module Executor {
  import opened Prelude
  import opened Locations
  import opened Ledger
  import opened Assets

  datatype WeightLimit = Unlimited | Limited(weight: nat)

  /**
   The instructions that touch assets or the origin.  `Inert` stands for all
   others this configuration runs without touching either, and for those it always
   refuses (asset exchange, locking, export, universal origins, aliases).
   */
  datatype Instruction =
    | WithdrawAsset(assets: seq<Asset>)
    | ReserveAssetDeposited(assets: seq<Asset>)
    | ReceiveTeleportedAsset(assets: seq<Asset>)
    | TransferAsset(assets: seq<Asset>, beneficiary: Location)
    | TransferReserveAsset(assets: seq<Asset>, dest: Location, xcm: Program)
    | DepositAsset(filter: AssetFilter, beneficiary: Location)
    | DepositReserveAsset(filter: AssetFilter, dest: Location, xcm: Program)
    | InitiateReserveWithdraw(filter: AssetFilter, reserve: Location, xcm: Program)
    | InitiateTeleport(filter: AssetFilter, dest: Location, xcm: Program)
    | BuyExecution(fees: Asset, limit: WeightLimit)
    | RefundSurplus
    | ClaimAsset(assets: seq<Asset>, ticket: Location)
    | BurnAsset(assets: seq<Asset>)
    | DescendOrigin(suffix: seq<Junction>)
    | ClearOrigin
    | SetErrorHandler(xcm: Program)
    | SetAppendix(xcm: Program)
    | Trap(code: nat)
    | Inert(ok: bool)

  type Program = seq<Instruction>

  datatype Message = Message(dest: Location, program: Program)

  datatype TrappedAssets = TrappedAssets(origin: Location, assets: seq<Asset>)

  /** `rank` is the key order of the holding register; `routable` says where the router delivers. */
  datatype Config = Config(self: ParaId, ed: nat, rank: AssetId -> int, routable: Location -> bool)

  /**
   One chain together with the message it is executing, if any.  `burned` is
   native currency destroyed by execution (fees, burns, and assets dropped by a
   failing instruction); `sent` is native currency that left in a message without
   anything being kept here.  `surplus` is weight that was paid for and will not be used.
   */
  datatype Chain = Chain(
    ledger: Ledger, traps: seq<TrappedAssets>, burned: nat, sent: nat, outbox: seq<Message>,
    running: bool, holding: seq<Asset>, fees: nat, surplus: nat,
    origin: Option<Location>, original: Location,
    program: Program, handler: Program, appendix: Program)

  datatype Outcome = Done(chain: Chain) | Failed(chain: Chain)

  /** `MaxAssetsIntoHolding` */
  const HOLDING_LIMIT: nat := 64

  /** The register may grow to twice the limit, counting every addition as a new entry. */
  predicate HasRoom(h: seq<Asset>, extra: nat) {
    |h| + extra <= 2 * HOLDING_LIMIT
  }

  // ---------------------------------------------------------------------------
  // Asset transactor
  // ---------------------------------------------------------------------------

  /** What is withdrawn without room in holding is gone. */
  function WithdrawEach(cfg: Config, c: Chain, from: Location, assets: seq<Asset>): Outcome
    decreases |assets|
  {
    if assets == [] then Done(c)
    else if !IsNative(cfg.self, assets[0].id) || AccountOf(from).None? then Failed(c)
    else
      match Withdraw(cfg.ed, c.ledger, AccountOf(from).value, assets[0].amount)
      case None => Failed(c)
      case Some(l) =>
        if !HasRoom(c.holding, 1) then Failed(c.(ledger := l, burned := c.burned + assets[0].amount))
        else WithdrawEach(cfg, c.(ledger := l, holding := Subsume(cfg.rank, c.holding, assets[0])), from, assets[1..])
  }

  /** The assets were taken from holding already, so whatever is not deposited is gone. */
  function DepositEach(cfg: Config, c: Chain, assets: seq<Asset>, to: Location): Outcome
    decreases |assets|
  {
    if assets == [] then Done(c)
    else if !IsNative(cfg.self, assets[0].id) || AccountOf(to).None? then
      Failed(c.(burned := c.burned + Sum(NativeTo(cfg.self), assets)))
    else
      var l := Deposit(cfg.ed, c.ledger, AccountOf(to).value, assets[0].amount);
      DepositEach(cfg, c.(ledger := l), assets[1..], to)
  }

  function TransferEach(cfg: Config, c: Chain, from: Location, assets: seq<Asset>, to: Location): Outcome
    decreases |assets|
  {
    if assets == [] then Done(c)
    else if !IsNative(cfg.self, assets[0].id) || AccountOf(from).None? || AccountOf(to).None? then Failed(c)
    else
      match Transfer(cfg.ed, c.ledger, AccountOf(from).value, AccountOf(to).value, assets[0].amount)
      case None => Failed(c)
      case Some(l) => TransferEach(cfg, c.(ledger := l), from, assets[1..], to)
  }

  function ReceiveEach(cfg: Config, c: Chain, from: Location, assets: seq<Asset>): Outcome
    decreases |assets|
  {
    if assets == [] then Done(c)
    else if !IsReserve(cfg.self, assets[0].id, from) || !HasRoom(c.holding, 1) then Failed(c)
    else ReceiveEach(cfg, c.(holding := Subsume(cfg.rank, c.holding, assets[0])), from, assets[1..])
  }

  // ---------------------------------------------------------------------------
  // Instructions
  // ---------------------------------------------------------------------------

  function Send(cfg: Config, c: Chain, dest: Location, program: Program): Outcome {
    if cfg.routable(dest) then Done(c.(outbox := c.outbox + [Message(dest, program)])) else Failed(c)
  }

  function ExecTransferReserve(cfg: Config, c: Chain, from: Location, assets: seq<Asset>, dest: Location, xcm: Program): Outcome {
    match TransferEach(cfg, c, from, assets, dest)
    case Failed(d) => Failed(d)
    case Done(d) =>
      if Kept(cfg.self, assets, dest) != [] then Failed(d)
      else Send(cfg, d, dest, [ReserveAssetDeposited(Images(cfg.rank, cfg.self, assets, dest)), ClearOrigin] + xcm)
  }

  function ExecDepositReserve(cfg: Config, c: Chain, filter: AssetFilter, dest: Location, xcm: Program): Outcome {
    var (taken, rest) := Take(cfg.rank, c.holding, filter);
    match DepositEach(cfg, c.(holding := rest), taken, dest)
    case Failed(d) => Failed(d)
    case Done(d) =>
      Send(cfg, d, dest, [ReserveAssetDeposited(Images(cfg.rank, cfg.self, taken, dest)), ClearOrigin] + xcm)
  }

  function ExecReserveWithdraw(cfg: Config, c: Chain, filter: AssetFilter, reserve: Location, xcm: Program): Outcome {
    var (taken, rest) := Take(cfg.rank, c.holding, filter);
    var moved, kept := Moved(cfg.self, taken, reserve), Kept(cfg.self, taken, reserve);
    var d := c.(holding := SubsumeAll(cfg.rank, rest, kept), sent := c.sent + Sum(NativeTo(cfg.self), moved));
    Send(cfg, d, reserve, [WithdrawAsset(Images(cfg.rank, cfg.self, moved, reserve)), ClearOrigin] + xcm)
  }

  function ExecTeleport(cfg: Config, c: Chain, filter: AssetFilter, dest: Location, xcm: Program): Outcome {
    var (taken, rest) := Take(cfg.rank, c.holding, filter);
    var d := c.(holding := rest, sent := c.sent + Sum(NativeTo(cfg.self), taken));
    Send(cfg, d, dest, [ReceiveTeleportedAsset(Images(cfg.rank, cfg.self, taken, dest)), ClearOrigin] + xcm)
  }

  /** The trader accepts one asset id only; a payment it refuses has already left holding. */
  predicate Pays(fees: Asset, weight: nat) {
    fees.id == Concrete(SELF_RESERVE) && weight <= fees.amount
  }

  function Entries(a: Asset): nat {
    if a.amount == 0 then 0 else 1
  }

  function ExecBuy(cfg: Config, c: Chain, fees: Asset, limit: WeightLimit): Outcome {
    match limit
    case Unlimited => Done(c)
    case Limited(weight) =>
      if AmountOf(c.holding, fees.id) < fees.amount then Failed(c)
      else
        var rest := Remove(c.holding, fees.id, fees.amount);
        if Pays(fees, weight) then
          var d := c.(holding := rest, fees := c.fees + weight);
          var unspent := Asset(fees.id, fees.amount - weight);
          if !HasRoom(rest, Entries(unspent)) then Failed(d.(burned := d.burned + unspent.amount))
          else if unspent.amount == 0 then Done(d)
          else Done(d.(holding := Subsume(cfg.rank, rest, unspent)))
        else Failed(c.(holding := rest, burned := c.burned + Worth(NativeTo(cfg.self), fees)))
  }

  /** `UnitWeightCost` */
  const UNIT_WEIGHT: nat := 200_000_000

  /** One unit for every instruction, those of handlers and appendices to be set included. */
  function Weigh(p: Program): nat {
    if p == [] then 0
    else
      UNIT_WEIGHT
      + (match p[0] case SetErrorHandler(xcm) => Weigh(xcm) case SetAppendix(xcm) => Weigh(xcm) case _ => 0)
      + Weigh(p[1..])
  }

  /** Fees paid for the surplus come back, one unit for one unit of weight. */
  function ExecRefund(cfg: Config, c: Chain): Outcome {
    var back := Min(c.surplus, c.fees);
    var d := c.(surplus := 0, fees := c.fees - back);
    if back == 0 then Done(d)
    else if !HasRoom(c.holding, 1) then Failed(d.(burned := c.burned + back))
    else Done(d.(holding := Subsume(cfg.rank, c.holding, Asset(Concrete(SELF_RESERVE), back))))
  }

  function FindTrap(traps: seq<TrappedAssets>, t: TrappedAssets): (i: nat)
    ensures i <= |traps|
    ensures i < |traps| ==> traps[i] == t
  {
    if traps == [] || traps[0] == t then 0 else 1 + FindTrap(traps[1..], t)
  }

  predicate GoodTicket(ticket: Location) {
    ticket.parents == 0
    && (ticket.interior == [] || (|ticket.interior| == 1 && ticket.interior[0].GeneralIndex?))
  }

  /** The entry is given up already, so whatever finds no room is gone. */
  function ClaimEach(cfg: Config, c: Chain, assets: seq<Asset>): Outcome
    decreases |assets|
  {
    if assets == [] then Done(c)
    else if !HasRoom(c.holding, 1) then Failed(c.(burned := c.burned + Sum(NativeTo(cfg.self), assets)))
    else ClaimEach(cfg, c.(holding := Subsume(cfg.rank, c.holding, assets[0])), assets[1..])
  }

  function ExecClaim(cfg: Config, c: Chain, claimer: Location, assets: seq<Asset>, ticket: Location): Outcome {
    var i := FindTrap(c.traps, TrappedAssets(claimer, assets));
    if !GoodTicket(ticket) || i == |c.traps| then Failed(c)
    else ClaimEach(cfg, c.(traps := c.traps[..i] + c.traps[i + 1..]), assets)
  }

  function ExecBurn(cfg: Config, c: Chain, assets: seq<Asset>): Outcome {
    var (taken, rest) := Take(cfg.rank, c.holding, Definite(assets));
    Done(c.(holding := rest, burned := c.burned + Sum(NativeTo(cfg.self), taken)))
  }

  /** The instructions that go through the asset transactor or leave in a message. */
  predicate MovesAssets(i: Instruction) {
    i.WithdrawAsset? || i.TransferAsset? || i.TransferReserveAsset? || i.DepositAsset?
    || i.DepositReserveAsset? || i.InitiateReserveWithdraw? || i.InitiateTeleport?
  }

  function Execute(cfg: Config, c: Chain, i: Instruction): Outcome {
    match i
    case WithdrawAsset(assets) =>
      if c.origin.None? then Failed(c) else WithdrawEach(cfg, c, c.origin.value, assets)
    case ReserveAssetDeposited(assets) =>
      if c.origin.None? then Failed(c) else ReceiveEach(cfg, c, c.origin.value, assets)
    case ReceiveTeleportedAsset(assets) =>
      if c.origin.None? || assets != [] then Failed(c) else Done(c)
    case TransferAsset(assets, beneficiary) =>
      if c.origin.None? then Failed(c) else TransferEach(cfg, c, c.origin.value, assets, beneficiary)
    case TransferReserveAsset(assets, dest, xcm) =>
      if c.origin.None? then Failed(c) else ExecTransferReserve(cfg, c, c.origin.value, assets, dest, xcm)
    case DepositAsset(filter, beneficiary) =>
      var (taken, rest) := Take(cfg.rank, c.holding, filter);
      DepositEach(cfg, c.(holding := rest), taken, beneficiary)
    case DepositReserveAsset(filter, dest, xcm) => ExecDepositReserve(cfg, c, filter, dest, xcm)
    case InitiateReserveWithdraw(filter, reserve, xcm) => ExecReserveWithdraw(cfg, c, filter, reserve, xcm)
    case InitiateTeleport(filter, dest, xcm) => ExecTeleport(cfg, c, filter, dest, xcm)
    case BuyExecution(fees, limit) => ExecBuy(cfg, c, fees, limit)
    case RefundSurplus => ExecRefund(cfg, c)
    case ClaimAsset(assets, ticket) =>
      if c.origin.None? then Failed(c) else ExecClaim(cfg, c, c.origin.value, assets, ticket)
    case BurnAsset(assets) => ExecBurn(cfg, c, assets)
    case DescendOrigin(suffix) =>
      if c.origin.None? || |c.origin.value.interior| + |suffix| > MAX_JUNCTIONS then Failed(c)
      else Done(c.(origin := Some(Descend(c.origin.value, suffix))))
    case ClearOrigin => Done(c.(origin := None))
    case SetErrorHandler(xcm) => Done(c.(handler := xcm, surplus := c.surplus + Weigh(c.handler)))
    case SetAppendix(xcm) => Done(c.(appendix := xcm, surplus := c.surplus + Weigh(c.appendix)))
    case Trap(_) => Failed(c)
    case Inert(ok) => if ok then Done(c) else Failed(c)
  }

  // ---------------------------------------------------------------------------
  // Runs
  // ---------------------------------------------------------------------------

  predicate Idle(c: Chain) {
    !c.running && c.holding == [] && c.fees == 0
  }

  /** Begins a message that the barrier has let through. */
  function Start(c: Chain, origin: Location, program: Program): Chain
    requires Idle(c)
  {
    c.(running := true, surplus := 0, origin := Some(origin), original := origin,
       program := program, handler := [], appendix := [])
  }

  /** What is left in holding is trapped for the origin, or the original one if that was given up. */
  function TrapRest(c: Chain): Chain {
    var claimer := if c.origin.Some? then c.origin.value else c.original;
    c.(holding := [], traps := if c.holding == [] then c.traps else c.traps + [TrappedAssets(claimer, c.holding)])
  }

  /**
   The end of a message: the surplus is refunded as far as it fits, the fees that remain are
   burned, and the rest of the holding register is trapped.
   */
  function Finish(cfg: Config, c: Chain): Chain {
    var d := ExecRefund(cfg, c).chain;
    TrapRest(d.(running := false, fees := 0, burned := d.burned + d.fees))
  }

  /** An error handler that was not needed counts as surplus. */
  function DropHandler(c: Chain): Chain {
    c.(handler := [], surplus := c.surplus + Weigh(c.handler))
  }

  /** The rest of a failing program counts as surplus; the handler runs, or else the appendix. */
  function Recover(c: Chain): Chain {
    var d := c.(surplus := c.surplus + Weigh(c.program));
    if d.handler != [] then d.(program := d.handler, handler := [])
    else d.(program := d.appendix, appendix := [])
  }

  function Tick(cfg: Config, c: Chain): Chain {
    if !c.running then c
    else if c.program != [] then
      match Execute(cfg, c.(program := c.program[1..]), c.program[0])
      case Done(d) => d
      case Failed(d) => Recover(d)
    else
      var d := DropHandler(c);
      if d.appendix != [] then d.(program := d.appendix, appendix := []) else Finish(cfg, d)
  }

  function Ticks(cfg: Config, c: Chain, n: nat): Chain {
    if n == 0 then c else Tick(cfg, Ticks(cfg, c, n - 1))
  }

  lemma {:induction false} TicksAdd(cfg: Config, c: Chain, m: nat, n: nat)
    ensures Ticks(cfg, Ticks(cfg, c, m), n) == Ticks(cfg, c, m + n)
  {
    if n > 0 {
      TicksAdd(cfg, c, m, n - 1);
    }
  }

  ghost predicate LeadsTo(cfg: Config, c: Chain, d: Chain) {
    exists n: nat :: Ticks(cfg, c, n) == d
  }

  lemma Leads(cfg: Config, c: Chain, n: nat)
    ensures LeadsTo(cfg, c, Ticks(cfg, c, n))
  {
  }

  lemma LeadsOn(cfg: Config, c: Chain, d: Chain, e: Chain)
    requires LeadsTo(cfg, c, d) && LeadsTo(cfg, d, e)
    ensures LeadsTo(cfg, c, e)
  {
    var m: nat :| Ticks(cfg, c, m) == d;
    var n: nat :| Ticks(cfg, d, n) == e;
    TicksAdd(cfg, c, m, n);
  }
}
