/**
 No message creates native currency.  Balances, the holding register, trapped
 assets, fees and everything destroyed or sent away add up to the same supply
 after every step of every run, as long as no message runs with the chain's own
 location as its origin; and that exception is exact.
 */
module Conservation {
  import opened Prelude
  import opened Locations
  import L = Ledger
  import opened Assets
  import opened Executor

  function TrapSum(k: AssetClass, traps: seq<TrappedAssets>): nat {
    if traps == [] then 0 else Sum(k, traps[0].assets) + TrapSum(k, traps[1..])
  }

  lemma {:induction false} TrapSumAppend(k: AssetClass, s: seq<TrappedAssets>, t: seq<TrappedAssets>)
    ensures TrapSum(k, s + t) == TrapSum(k, s) + TrapSum(k, t)
  {
    if s == [] {
      assert s + t == t;
    } else {
      assert (s + t)[1..] == s[1..] + t;
      TrapSumAppend(k, s[1..], t);
    }
  }

  lemma TrapSumRemove(k: AssetClass, traps: seq<TrappedAssets>, i: nat)
    requires i < |traps|
    ensures TrapSum(k, traps[..i] + traps[i + 1..]) + Sum(k, traps[i].assets) == TrapSum(k, traps)
  {
    TrapSumAppend(k, traps[..i], traps[i + 1..]);
    TrapSumAppend(k, traps[..i], traps[i..]);
    assert traps == traps[..i] + traps[i..];
    assert traps[i..][1..] == traps[i + 1..];
  }

  /** Native currency that somebody can still use. */
  ghost function Circulating(self: ParaId, c: Chain): nat {
    L.SumOf(c.ledger.accounts) + Sum(NativeTo(self), c.holding) + TrapSum(NativeTo(self), c.traps) + c.fees
  }

  /** Native currency that is gone: reaped, burned or sent away. */
  function Gone(c: Chain): nat {
    c.ledger.dust + c.burned + c.sent
  }

  ghost function Supply(self: ParaId, c: Chain): nat {
    Circulating(self, c) + Gone(c)
  }

  // ---------------------------------------------------------------------------
  // The asset transactor
  // ---------------------------------------------------------------------------

  lemma {:induction false} WithdrawEachConserves(cfg: Config, c: Chain, from: Location, assets: seq<Asset>)
    ensures Supply(cfg.self, WithdrawEach(cfg, c, from, assets).chain) == Supply(cfg.self, c)
    decreases |assets|
  {
    if assets != [] && IsNative(cfg.self, assets[0].id) && L.AccountOf(from).Some? {
      var who := L.AccountOf(from).value;
      L.LedgerConserves(cfg.ed, c.ledger, who, who, assets[0].amount);
      var w := L.Withdraw(cfg.ed, c.ledger, who, assets[0].amount);
      if w.Some? && HasRoom(c.holding, 1) {
        SumSubsume(cfg.rank, NativeTo(cfg.self), c.holding, assets[0]);
        var next := c.(ledger := w.value, holding := Subsume(cfg.rank, c.holding, assets[0]));
        WithdrawEachConserves(cfg, next, from, assets[1..]);
      }
    }
  }

  lemma {:induction false} DepositEachConserves(cfg: Config, c: Chain, assets: seq<Asset>, to: Location)
    ensures Supply(cfg.self, DepositEach(cfg, c, assets, to).chain) == Supply(cfg.self, c) + Sum(NativeTo(cfg.self), assets)
    decreases |assets|
  {
    if assets != [] && IsNative(cfg.self, assets[0].id) && L.AccountOf(to).Some? {
      var who := L.AccountOf(to).value;
      L.LedgerConserves(cfg.ed, c.ledger, who, who, assets[0].amount);
      var next := c.(ledger := L.Deposit(cfg.ed, c.ledger, who, assets[0].amount));
      DepositEachConserves(cfg, next, assets[1..], to);
    }
  }

  lemma {:induction false} TransferEachConserves(cfg: Config, c: Chain, from: Location, assets: seq<Asset>, to: Location)
    ensures Supply(cfg.self, TransferEach(cfg, c, from, assets, to).chain) == Supply(cfg.self, c)
    decreases |assets|
  {
    if assets != [] && IsNative(cfg.self, assets[0].id) && L.AccountOf(from).Some? && L.AccountOf(to).Some? {
      var a, b := L.AccountOf(from).value, L.AccountOf(to).value;
      L.LedgerConserves(cfg.ed, c.ledger, a, b, assets[0].amount);
      var t := L.Transfer(cfg.ed, c.ledger, a, b, assets[0].amount);
      if t.Some? {
        TransferEachConserves(cfg, c.(ledger := t.value), from, assets[1..], to);
      }
    }
  }

  /** A remote reserve may credit its own assets, none of which is native here. */
  lemma {:induction false} ReceiveEachConserves(cfg: Config, c: Chain, from: Location, assets: seq<Asset>)
    requires from != HERE
    ensures Supply(cfg.self, ReceiveEach(cfg, c, from, assets).chain) == Supply(cfg.self, c)
    decreases |assets|
  {
    if assets != [] && IsReserve(cfg.self, assets[0].id, from) && HasRoom(c.holding, 1) {
      ReserveIsAPrefix(cfg.self, assets[0].id, from);
      SumSubsume(cfg.rank, NativeTo(cfg.self), c.holding, assets[0]);
      ReceiveEachConserves(cfg, c.(holding := Subsume(cfg.rank, c.holding, assets[0])), from, assets[1..]);
    }
  }

  // ---------------------------------------------------------------------------
  // Instructions
  // ---------------------------------------------------------------------------

  lemma DepositConserves(cfg: Config, c: Chain, filter: AssetFilter, to: Location)
    ensures Supply(cfg.self, Execute(cfg, c, DepositAsset(filter, to)).chain) == Supply(cfg.self, c)
  {
    var (taken, rest) := Take(cfg.rank, c.holding, filter);
    TakeConserves(cfg.rank, NativeTo(cfg.self), c.holding, filter);
    DepositEachConserves(cfg, c.(holding := rest), taken, to);
  }

  lemma LeavingConserves(cfg: Config, c: Chain, filter: AssetFilter, dest: Location, xcm: Program)
    ensures Supply(cfg.self, ExecReserveWithdraw(cfg, c, filter, dest, xcm).chain) == Supply(cfg.self, c)
    ensures Supply(cfg.self, ExecTeleport(cfg, c, filter, dest, xcm).chain) == Supply(cfg.self, c)
    ensures Supply(cfg.self, ExecDepositReserve(cfg, c, filter, dest, xcm).chain) == Supply(cfg.self, c)
  {
    var k := NativeTo(cfg.self);
    var (taken, rest) := Take(cfg.rank, c.holding, filter);
    TakeConserves(cfg.rank, k, c.holding, filter);
    SumMovedKept(cfg.self, k, taken, dest);
    SumSubsumeAll(cfg.rank, k, rest, Kept(cfg.self, taken, dest));
    DepositEachConserves(cfg, c.(holding := rest), taken, dest);
  }

  lemma BuyingConserves(cfg: Config, c: Chain, fees: Asset, limit: WeightLimit)
    ensures Supply(cfg.self, ExecBuy(cfg, c, fees, limit).chain) == Supply(cfg.self, c)
  {
    var k := NativeTo(cfg.self);
    if limit.Limited? && AmountOf(c.holding, fees.id) >= fees.amount {
      SumRemove(k, c.holding, fees.id, fees.amount);
      if Pays(fees, limit.weight) {
        assert Belongs(k, fees.id);
        SumSubsume(cfg.rank, k, Remove(c.holding, fees.id, fees.amount), Asset(fees.id, fees.amount - limit.weight));
      }
    }
  }

  lemma RefundConserves(cfg: Config, c: Chain)
    ensures Supply(cfg.self, ExecRefund(cfg, c).chain) == Supply(cfg.self, c)
  {
    var back := Asset(Concrete(SELF_RESERVE), Min(c.surplus, c.fees));
    assert Belongs(NativeTo(cfg.self), back.id);
    SumSubsume(cfg.rank, NativeTo(cfg.self), c.holding, back);
  }

  lemma {:induction false} ClaimEachConserves(cfg: Config, c: Chain, assets: seq<Asset>)
    ensures Supply(cfg.self, ClaimEach(cfg, c, assets).chain) == Supply(cfg.self, c) + Sum(NativeTo(cfg.self), assets)
    decreases |assets|
  {
    if assets != [] && HasRoom(c.holding, 1) {
      SumSubsume(cfg.rank, NativeTo(cfg.self), c.holding, assets[0]);
      ClaimEachConserves(cfg, c.(holding := Subsume(cfg.rank, c.holding, assets[0])), assets[1..]);
    }
  }

  lemma ClaimConserves(cfg: Config, c: Chain, claimer: Location, assets: seq<Asset>, ticket: Location)
    ensures Supply(cfg.self, ExecClaim(cfg, c, claimer, assets, ticket).chain) == Supply(cfg.self, c)
  {
    var k := NativeTo(cfg.self);
    var i := FindTrap(c.traps, TrappedAssets(claimer, assets));
    if i < |c.traps| {
      TrapSumRemove(k, c.traps, i);
      ClaimEachConserves(cfg, c.(traps := c.traps[..i] + c.traps[i + 1..]), assets);
    }
  }

  lemma MovingConserves(cfg: Config, c: Chain, i: Instruction)
    requires MovesAssets(i)
    ensures Supply(cfg.self, Execute(cfg, c, i).chain) == Supply(cfg.self, c)
  {
    match i
    case WithdrawAsset(assets) =>
      if c.origin.Some? { WithdrawEachConserves(cfg, c, c.origin.value, assets); }
    case TransferAsset(assets, to) =>
      if c.origin.Some? { TransferEachConserves(cfg, c, c.origin.value, assets, to); }
    case TransferReserveAsset(assets, to, _) =>
      if c.origin.Some? { TransferEachConserves(cfg, c, c.origin.value, assets, to); }
    case DepositAsset(filter, to) => DepositConserves(cfg, c, filter, to);
    case DepositReserveAsset(filter, dest, xcm) => LeavingConserves(cfg, c, filter, dest, xcm);
    case InitiateReserveWithdraw(filter, dest, xcm) => LeavingConserves(cfg, c, filter, dest, xcm);
    case InitiateTeleport(filter, dest, xcm) => LeavingConserves(cfg, c, filter, dest, xcm);
  }

  /** Of the other instructions only a reported deposit needs the origin to be remote. */
  lemma HoldingConserves(cfg: Config, c: Chain, i: Instruction)
    requires !MovesAssets(i) && (i.ReserveAssetDeposited? ==> c.origin != Some(HERE))
    ensures Supply(cfg.self, Execute(cfg, c, i).chain) == Supply(cfg.self, c)
  {
    match i
    case ReserveAssetDeposited(assets) =>
      if c.origin.Some? { ReceiveEachConserves(cfg, c, c.origin.value, assets); }
    case BuyExecution(fees, limit) => BuyingConserves(cfg, c, fees, limit);
    case RefundSurplus => RefundConserves(cfg, c);
    case ClaimAsset(assets, ticket) =>
      if c.origin.Some? { ClaimConserves(cfg, c, c.origin.value, assets, ticket); }
    case BurnAsset(assets) => TakeConserves(cfg.rank, NativeTo(cfg.self), c.holding, Definite(assets));
    case _ =>
  }

  lemma ExecuteConserves(cfg: Config, c: Chain, i: Instruction)
    requires c.origin != Some(HERE)
    ensures Supply(cfg.self, Execute(cfg, c, i).chain) == Supply(cfg.self, c)
  {
    if MovesAssets(i) {
      MovingConserves(cfg, c, i);
    } else {
      HoldingConserves(cfg, c, i);
    }
  }

  /**
   Only `DescendOrigin` and `ClearOrigin` change the origin, descent never leads to
   here, and only the two setters change the programs still to run.
   */
  lemma ExecuteFrame(cfg: Config, c: Chain, i: Instruction)
    ensures var o := Execute(cfg, c, i).chain.origin;
            || o == c.origin
            || o.None?
            || (i.DescendOrigin? && c.origin.Some? && o == Some(L.Descend(c.origin.value, i.suffix)))
    ensures c.origin != Some(HERE) ==> Execute(cfg, c, i).chain.origin != Some(HERE)
    ensures var d := Execute(cfg, c, i).chain;
            && d.running == c.running && d.program == c.program && d.original == c.original
            && d.handler == (if i.SetErrorHandler? then i.xcm else c.handler)
            && d.appendix == (if i.SetAppendix? then i.xcm else c.appendix)
            && (i.ClearOrigin? ==> d.origin.None?)
  {
    if MovesAssets(i) {
      MovingFrame(cfg, c, i);
    } else if i.ReserveAssetDeposited? && c.origin.Some? {
      ReceiveEachFrame(cfg, c, c.origin.value, i.assets);
    } else if i.ClaimAsset? && c.origin.Some? {
      ClaimFrame(cfg, c, c.origin.value, i.assets, i.ticket);
    }
  }

  lemma MovingFrame(cfg: Config, c: Chain, i: Instruction)
    requires MovesAssets(i)
    ensures var d := Execute(cfg, c, i).chain;
            d == c.(ledger := d.ledger, holding := d.holding, burned := d.burned, sent := d.sent, outbox := d.outbox)
  {
    match i
    case WithdrawAsset(assets) =>
      if c.origin.Some? { WithdrawEachFrame(cfg, c, c.origin.value, assets); }
    case TransferAsset(assets, to) =>
      if c.origin.Some? { TransferEachFrame(cfg, c, c.origin.value, assets, to); }
    case TransferReserveAsset(assets, to, _) =>
      if c.origin.Some? { TransferEachFrame(cfg, c, c.origin.value, assets, to); }
    case DepositAsset(filter, to) =>
      var (taken, rest) := Take(cfg.rank, c.holding, filter);
      DepositEachFrame(cfg, c.(holding := rest), taken, to);
    case DepositReserveAsset(filter, to, _) =>
      var (taken, rest) := Take(cfg.rank, c.holding, filter);
      DepositEachFrame(cfg, c.(holding := rest), taken, to);
    case _ =>
  }

  lemma {:induction false} WithdrawEachFrame(cfg: Config, c: Chain, from: Location, assets: seq<Asset>)
    ensures var d := WithdrawEach(cfg, c, from, assets).chain; d == c.(ledger := d.ledger, holding := d.holding, burned := d.burned)
    decreases |assets|
  {
    if assets != [] && IsNative(cfg.self, assets[0].id) && L.AccountOf(from).Some? {
      var w := L.Withdraw(cfg.ed, c.ledger, L.AccountOf(from).value, assets[0].amount);
      if w.Some? && HasRoom(c.holding, 1) {
        var next := c.(ledger := w.value, holding := Subsume(cfg.rank, c.holding, assets[0]));
        WithdrawEachFrame(cfg, next, from, assets[1..]);
      }
    }
  }

  lemma {:induction false} DepositEachFrame(cfg: Config, c: Chain, assets: seq<Asset>, to: Location)
    ensures var d := DepositEach(cfg, c, assets, to).chain; d == c.(ledger := d.ledger, burned := d.burned)
    decreases |assets|
  {
    if assets != [] && IsNative(cfg.self, assets[0].id) && L.AccountOf(to).Some? {
      var next := c.(ledger := L.Deposit(cfg.ed, c.ledger, L.AccountOf(to).value, assets[0].amount));
      DepositEachFrame(cfg, next, assets[1..], to);
    }
  }

  lemma {:induction false} TransferEachFrame(cfg: Config, c: Chain, from: Location, assets: seq<Asset>, to: Location)
    ensures var d := TransferEach(cfg, c, from, assets, to).chain; d == c.(ledger := d.ledger)
    decreases |assets|
  {
    if assets != [] && IsNative(cfg.self, assets[0].id) && L.AccountOf(from).Some? && L.AccountOf(to).Some? {
      var t := L.Transfer(cfg.ed, c.ledger, L.AccountOf(from).value, L.AccountOf(to).value, assets[0].amount);
      if t.Some? {
        TransferEachFrame(cfg, c.(ledger := t.value), from, assets[1..], to);
      }
    }
  }

  lemma {:induction false} ReceiveEachFrame(cfg: Config, c: Chain, from: Location, assets: seq<Asset>)
    ensures var d := ReceiveEach(cfg, c, from, assets).chain; d == c.(holding := d.holding)
    decreases |assets|
  {
    if assets != [] && IsReserve(cfg.self, assets[0].id, from) && HasRoom(c.holding, 1) {
      ReceiveEachFrame(cfg, c.(holding := Subsume(cfg.rank, c.holding, assets[0])), from, assets[1..]);
    }
  }

  lemma {:induction false} ClaimEachFrame(cfg: Config, c: Chain, assets: seq<Asset>)
    ensures var d := ClaimEach(cfg, c, assets).chain; d == c.(holding := d.holding, burned := d.burned)
    decreases |assets|
  {
    if assets != [] && HasRoom(c.holding, 1) {
      ClaimEachFrame(cfg, c.(holding := Subsume(cfg.rank, c.holding, assets[0])), assets[1..]);
    }
  }

  lemma ClaimFrame(cfg: Config, c: Chain, claimer: Location, assets: seq<Asset>, ticket: Location)
    ensures var d := ExecClaim(cfg, c, claimer, assets, ticket).chain;
            d == c.(traps := d.traps, holding := d.holding, burned := d.burned)
  {
    var i := FindTrap(c.traps, TrappedAssets(claimer, assets));
    if i < |c.traps| {
      ClaimEachFrame(cfg, c.(traps := c.traps[..i] + c.traps[i + 1..]), assets);
    }
  }

  // ---------------------------------------------------------------------------
  // Runs
  // ---------------------------------------------------------------------------

  predicate NotHere(c: Chain) {
    c.running ==> c.origin != Some(HERE)
  }

  lemma TrapRestKeeps(k: AssetClass, c: Chain)
    ensures TrapSum(k, TrapRest(c).traps) == TrapSum(k, c.traps) + Sum(k, c.holding)
  {
    if c.holding != [] {
      var d := TrapRest(c);
      TrapSumAppend(k, c.traps, [d.traps[|c.traps|]]);
      assert [d.traps[|c.traps|]][1..] == [];
    }
  }

  lemma FinishConserves(cfg: Config, c: Chain)
    ensures Supply(cfg.self, Finish(cfg, c)) == Supply(cfg.self, c)
  {
    RefundConserves(cfg, c);
    var d := ExecRefund(cfg, c).chain;
    TrapRestKeeps(NativeTo(cfg.self), d.(running := false, fees := 0, burned := d.burned + d.fees));
  }

  lemma TickConserves(cfg: Config, c: Chain)
    requires NotHere(c)
    ensures Supply(cfg.self, Tick(cfg, c)) == Supply(cfg.self, c)
    ensures NotHere(Tick(cfg, c))
  {
    if c.running {
      if c.program != [] {
        ExecuteConserves(cfg, c.(program := c.program[1..]), c.program[0]);
        ExecuteFrame(cfg, c.(program := c.program[1..]), c.program[0]);
      } else if c.appendix == [] {
        FinishConserves(cfg, DropHandler(c));
      }
    }
  }

  /** What can happen on the chain: a message begins, one instruction runs, or a signed transfer is made. */
  datatype Event =
    | Receive(origin: Location, program: Program)
    | Step
    | LocalTransfer(from: L.Account, to: L.Account, amount: nat)

  function Apply(cfg: Config, c: Chain, e: Event): Chain {
    match e
    case Receive(origin, program) => if Idle(c) then Start(c, origin, program) else c
    case Step => Tick(cfg, c)
    case LocalTransfer(from, to, amount) =>
      match L.Transfer(cfg.ed, c.ledger, from, to, amount)
      case None => c
      case Some(l) => c.(ledger := l)
  }

  function Run(cfg: Config, c: Chain, events: seq<Event>): Chain
    decreases |events|
  {
    if events == [] then c else Run(cfg, Apply(cfg, c, events[0]), events[1..])
  }

  predicate NeverFromHere(events: seq<Event>) {
    forall e :: e in events && e.Receive? ==> e.origin != HERE
  }

  /**
   The supply is the same after every run of messages from anywhere but the
   chain's own location: of any length, with any programs, error handlers and
   appendices, interleaved with signed transfers.
   */
  lemma {:induction false} RunConserves(cfg: Config, c: Chain, events: seq<Event>)
    requires NotHere(c) && NeverFromHere(events)
    ensures Supply(cfg.self, Run(cfg, c, events)) == Supply(cfg.self, c)
    ensures Circulating(cfg.self, Run(cfg, c, events)) <= Supply(cfg.self, c)
    decreases |events|
  {
    if events != [] {
      var e := events[0];
      match e {
        case Receive(origin, program) => assert e in events;
        case Step => TickConserves(cfg, c);
        case LocalTransfer(from, to, amount) => L.LedgerConserves(cfg.ed, c.ledger, from, to, amount);
      }
      RunConserves(cfg, Apply(cfg, c, e), events[1..]);
    }
  }

  function Steps(n: nat): seq<Event> {
    if n == 0 then [] else Steps(n - 1) + [Step]
  }

  lemma {:induction false} RunAppend(cfg: Config, c: Chain, s: seq<Event>, t: seq<Event>)
    ensures Run(cfg, c, s + t) == Run(cfg, Run(cfg, c, s), t)
    decreases |s|
  {
    if s == [] {
      assert s + t == t;
    } else {
      assert (s + t)[1..] == s[1..] + t;
      RunAppend(cfg, Apply(cfg, c, s[0]), s[1..], t);
    }
  }

  lemma RunOne(cfg: Config, c: Chain, e: Event)
    ensures Run(cfg, c, [e]) == Apply(cfg, c, e)
  {
    assert [e][1..] == [];
  }

  /** The runs contain every message in full, on any idle chain, and every transfer that the ledger allows. */
  lemma {:induction false} RunsContainMessages(cfg: Config, c: Chain, origin: Location, program: Program, n: nat)
    requires Idle(c)
    ensures Run(cfg, c, [Receive(origin, program)] + Steps(n)) == Ticks(cfg, Start(c, origin, program), n)
    ensures forall from, to, amount :: L.Transfer(cfg.ed, c.ledger, from, to, amount).Some? ==>
              Run(cfg, c, [LocalTransfer(from, to, amount)]).ledger == L.Transfer(cfg.ed, c.ledger, from, to, amount).value
  {
    var first := [Receive(origin, program)];
    if n == 0 {
      assert first + Steps(0) == first;
      RunOne(cfg, c, first[0]);
    } else {
      RunsContainMessages(cfg, c, origin, program, n - 1);
      assert first + Steps(n) == (first + Steps(n - 1)) + [Step];
      RunAppend(cfg, c, first + Steps(n - 1), [Step]);
      RunOne(cfg, Run(cfg, c, first + Steps(n - 1)), Step);
    }
    forall from, to, amount | L.Transfer(cfg.ed, c.ledger, from, to, amount).Some?
      ensures Run(cfg, c, [LocalTransfer(from, to, amount)]).ledger == L.Transfer(cfg.ed, c.ledger, from, to, amount).value
    {
      RunOne(cfg, c, LocalTransfer(from, to, amount));
    }
  }

  ghost predicate SupplyKept(cfg: Config, c: Chain, origin: Location, program: Program, n: nat)
    requires Idle(c)
  {
    Supply(cfg.self, Ticks(cfg, Start(c, origin, program), n)) == Supply(cfg.self, c)
  }

  /** No message from `origin` can change the supply, on any chain state, after any number of steps. */
  ghost predicate CannotInflate(cfg: Config, origin: Location) {
    forall c: Chain, program: Program, n: nat | Idle(c) :: SupplyKept(cfg, c, origin, program, n)
  }

  lemma {:induction false} TicksConserve(cfg: Config, c: Chain, n: nat)
    requires NotHere(c)
    ensures Supply(cfg.self, Ticks(cfg, c, n)) == Supply(cfg.self, c)
    ensures NotHere(Ticks(cfg, c, n))
  {
    if n > 0 {
      TicksConserve(cfg, c, n - 1);
      TickConserves(cfg, Ticks(cfg, c, n - 1));
    }
  }

  const EMPTY_CHAIN: Chain :=
    Chain(L.Ledger(map[], 0), [], 0, 0, [], false, [], 0, 0, None, HERE, [], [], [])

  lemma TickBelievesReserve(cfg: Config, c: Chain, origin: Location, a: Asset)
    requires c.running && c.origin == Some(origin) && c.holding == []
    requires c.program == [ReserveAssetDeposited([a])] && IsReserve(cfg.self, a.id, origin)
    ensures Tick(cfg, c) == c.(program := [], holding := [a])
  {
    var d := c.(program := []);
    assert c.program[1..] == [];
    assert [a][1..] == [];
    assert ReceiveEach(cfg, d, origin, [a]) == ReceiveEach(cfg, d.(holding := [a]), origin, []);
  }

  /** A message from the chain's own location would be believed when it reports a deposit of TEER. */
  lemma HereInflates(cfg: Config, amount: nat)
    requires amount > 0
    ensures var c := Start(EMPTY_CHAIN, HERE, [ReserveAssetDeposited([Asset(Concrete(SELF_RESERVE), amount)])]);
            Supply(cfg.self, Ticks(cfg, c, 1)) == Supply(cfg.self, EMPTY_CHAIN) + amount
    ensures !SupplyKept(cfg, EMPTY_CHAIN, HERE, [ReserveAssetDeposited([Asset(Concrete(SELF_RESERVE), amount)])], 1)
  {
    var a := Asset(Concrete(SELF_RESERVE), amount);
    NativeIsReservedHere(cfg.self, a.id, HERE);
    var c := Start(EMPTY_CHAIN, HERE, [ReserveAssetDeposited([a])]);
    TickBelievesReserve(cfg, c, HERE, a);
    assert Ticks(cfg, c, 1) == Tick(cfg, Ticks(cfg, c, 0)) == Tick(cfg, c);
    assert Sum(NativeTo(cfg.self), [a]) == amount;
  }

  /** The exact condition: an origin is harmless if and only if it is not the chain itself. */
  lemma InflationIffHere(cfg: Config, origin: Location)
    ensures CannotInflate(cfg, origin) <==> origin != HERE
  {
    if origin == HERE {
      HereInflates(cfg, 1);
    } else {
      forall c: Chain, program: Program, n: nat | Idle(c) ensures SupplyKept(cfg, c, origin, program, n) {
        TicksConserve(cfg, Start(c, origin, program), n);
      }
    }
  }

  /**
   Both written forms of TEER are withdrawn and deposited alike, but only the
   relative form buys execution: the purchase succeeds exactly when the holding
   covers the offer, the offer is the relative form and covers the weight, and the
   register has room for the change.
   */
  lemma BuyingIsExact(cfg: Config, c: Chain, fees: Asset, weight: nat)
    ensures ExecBuy(cfg, c, fees, Limited(weight)).Done? <==>
            AmountOf(c.holding, fees.id) >= fees.amount && fees.id == Concrete(SELF_RESERVE) && weight <= fees.amount
            && HasRoom(Remove(c.holding, fees.id, fees.amount), if weight < fees.amount then 1 else 0)
    ensures fees.id == Concrete(AbsoluteTeer(cfg.self)) && AmountOf(c.holding, fees.id) >= fees.amount ==>
              var out := ExecBuy(cfg, c, fees, Limited(weight));
              out.Failed? && out.chain.burned == c.burned + fees.amount
              && Sum(NativeTo(cfg.self), out.chain.holding) + fees.amount == Sum(NativeTo(cfg.self), c.holding)
  {
    ConverterIsExact(cfg.self, AbsoluteTeer(cfg.self));
    SumRemove(NativeTo(cfg.self), c.holding, fees.id, fees.amount);
  }
}
