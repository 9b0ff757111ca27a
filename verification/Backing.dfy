/**
 The two ends of a reserve, instruction by instruction.  At home the sovereign account of
 the other chain covers what is announced to that chain and what it may still draw; away,
 derivatives appear only on the word of the reserve and leave holding when announced back.
 */
module Backing {
  import opened Prelude
  import opened Locations
  import opened L = Ledger
  import opened Assets
  import opened Executor
  import opened C = Conservation

  // ---------------------------------------------------------------------------
  // What a program can still do while its origin is the other chain
  // ---------------------------------------------------------------------------

  /** Either crediting derivatives on the word of the reserve, or drawing on a sovereign account. */
  datatype Duty = Mint | Debit

  function Charge(duty: Duty, k: AssetClass, i: Instruction): nat
    decreases i, 1
  {
    match i
    case ReserveAssetDeposited(assets) => if duty.Mint? then Sum(k, assets) else 0
    case WithdrawAsset(assets) => if duty.Debit? then Sum(k, assets) else 0
    case TransferAsset(assets, _) => if duty.Debit? then Sum(k, assets) else 0
    case TransferReserveAsset(assets, _, _) => if duty.Debit? then Sum(k, assets) else 0
    case SetErrorHandler(xcm) => Exposure(duty, k, xcm)
    case SetAppendix(xcm) => Exposure(duty, k, xcm)
    case _ => 0
  }

  /** Up to the point where the program gives its origin up. */
  function Exposure(duty: Duty, k: AssetClass, p: Program): nat
    decreases p, 0
  {
    if p == [] || p[0].ClearOrigin? then 0
    else Charge(duty, k, p[0]) + Exposure(duty, k, p[1..])
  }

  function Claims(duty: Duty, k: AssetClass, insider: Location, c: Chain): nat {
    if c.running && c.origin == Some(insider)
    then Exposure(duty, k, c.program) + Exposure(duty, k, c.handler) + Exposure(duty, k, c.appendix)
    else 0
  }

  function InFlight(duty: Duty, k: AssetClass, queue: seq<Program>): nat {
    if queue == [] then 0 else Exposure(duty, k, queue[0]) + InFlight(duty, k, queue[1..])
  }

  function AddressedTo(dest: Location, box: seq<Message>): seq<Program> {
    if box == [] then []
    else (if box[0].dest == dest then [box[0].program] else []) + AddressedTo(dest, box[1..])
  }

  lemma {:induction false} InFlightAppend(duty: Duty, k: AssetClass, s: seq<Program>, t: seq<Program>)
    ensures InFlight(duty, k, s + t) == InFlight(duty, k, s) + InFlight(duty, k, t)
  {
    if s == [] {
      assert s + t == t;
    } else {
      assert (s + t)[1..] == s[1..] + t;
      InFlightAppend(duty, k, s[1..], t);
    }
  }

  lemma InFlightRemove(duty: Duty, k: AssetClass, s: seq<Program>, i: nat)
    requires i < |s|
    ensures InFlight(duty, k, s[..i] + s[i + 1..]) + Exposure(duty, k, s[i]) == InFlight(duty, k, s)
  {
    InFlightAppend(duty, k, s[..i], s[i + 1..]);
    InFlightAppend(duty, k, s[..i], s[i..]);
    assert s == s[..i] + s[i..];
    assert s[i..][1..] == s[i + 1..];
  }

  /** The executor only ever sends a program that acts once and then clears its origin. */
  lemma SentExposure(duty: Duty, k: AssetClass, head: Instruction, xcm: Program)
    requires head.ReserveAssetDeposited? || head.WithdrawAsset? || head.ReceiveTeleportedAsset?
    ensures Exposure(duty, k, [head, ClearOrigin] + xcm) == Charge(duty, k, head)
  {
    var p := [head, ClearOrigin] + xcm;
    assert p[1..] == [ClearOrigin] + xcm;
    assert p[1..][0] == ClearOrigin;
  }

  /** The barrier may fill in the weight limit of a purchase and nothing else. */
  predicate SameButLimits(p: Program, q: Program) {
    |p| == |q| && forall i :: 0 <= i < |p| ==>
      p[i] == q[i] || (p[i].BuyExecution? && q[i].BuyExecution? && p[i].fees == q[i].fees)
  }

  lemma {:induction false} LimitsDoNotMatter(duty: Duty, k: AssetClass, p: Program, q: Program)
    requires SameButLimits(p, q)
    ensures Exposure(duty, k, p) == Exposure(duty, k, q)
    decreases |p|
  {
    if p != [] {
      assert p[0] == q[0] || (p[0].BuyExecution? && q[0].BuyExecution?);
      LimitsDoNotMatter(duty, k, p[1..], q[1..]);
    }
  }

  // ---------------------------------------------------------------------------
  // Home: the sovereign account under every instruction
  // ---------------------------------------------------------------------------

  /** The balance an account must keep in reserve so that nothing is ever reaped from it. */
  function Cushion(ed: nat): nat {
    if ed <= 1 then 0 else ed
  }

  /**
   Two ways to measure what an account still has: its balance beyond the cushion, or
   its balance together with all dust lost on the chain since `start`.
   */
  datatype Margin = Cushioned | UpToDust(start: nat)

  predicate Enough(m: Margin, ed: nat, l: L.Ledger, who: Account, amount: nat) {
    match m
    case Cushioned => Balance(l, who) >= Cushion(ed) + amount
    case UpToDust(start) => Balance(l, who) + l.dust >= start + amount
  }

  /** What instructions naming these assets may draw from `who`. */
  function Drawn(self: ParaId, from: Location, who: Account, assets: seq<Asset>): nat {
    if AccountOf(from) == Some(who) then Sum(NativeTo(self), assets) else 0
  }

  lemma {:induction false} WithdrawEachFromSovereign(cfg: Config, c: Chain, from: Location, assets: seq<Asset>, who: Account, m: Margin, x: nat)
    requires Enough(m, cfg.ed, c.ledger, who, x + Drawn(cfg.self, from, who, assets))
    ensures Enough(m, cfg.ed, WithdrawEach(cfg, c, from, assets).chain.ledger, who, x)
    decreases |assets|
  {
    if assets != [] && IsNative(cfg.self, assets[0].id) && AccountOf(from).Some? {
      var w := Withdraw(cfg.ed, c.ledger, AccountOf(from).value, assets[0].amount);
      if w.Some? {
        assert Enough(m, cfg.ed, w.value, who, x + Drawn(cfg.self, from, who, assets[1..]));
        if HasRoom(c.holding, 1) {
          var next := c.(ledger := w.value, holding := Subsume(cfg.rank, c.holding, assets[0]));
          WithdrawEachFromSovereign(cfg, next, from, assets[1..], who, m, x);
        }
      }
    }
  }

  predicate AllNative(self: ParaId, assets: seq<Asset>) {
    forall a :: a in assets ==> IsNative(self, a.id)
  }

  lemma {:induction false} DepositEachToSovereign(cfg: Config, c: Chain, assets: seq<Asset>, to: Location, who: Account, m: Margin, x: nat)
    requires Enough(m, cfg.ed, c.ledger, who, x)
    ensures var out := DepositEach(cfg, c, assets, to);
            && Enough(m, cfg.ed, out.chain.ledger, who, x)
            && (out.Done? ==> AllNative(cfg.self, assets))
            && (out.Done? && AccountOf(to) == Some(who) ==>
                  Enough(m, cfg.ed, out.chain.ledger, who, x + Sum(NativeTo(cfg.self), assets)))
    decreases |assets|
  {
    if assets != [] && IsNative(cfg.self, assets[0].id) && AccountOf(to).Some? {
      var l := Deposit(cfg.ed, c.ledger, AccountOf(to).value, assets[0].amount);
      var x' := x + if AccountOf(to).value == who then assets[0].amount else 0;
      assert Enough(m, cfg.ed, l, who, x');
      DepositEachToSovereign(cfg, c.(ledger := l), assets[1..], to, who, m, x');
    }
  }

  lemma {:induction false} TransferEachAtSovereign(cfg: Config, c: Chain, from: Location, assets: seq<Asset>, to: Location, who: Account, m: Margin, x: nat)
    requires Enough(m, cfg.ed, c.ledger, who, x + Drawn(cfg.self, from, who, assets))
    ensures var out := TransferEach(cfg, c, from, assets, to);
            && Enough(m, cfg.ed, out.chain.ledger, who, x)
            && (out.Done? ==> AllNative(cfg.self, assets))
            && (out.Done? && AccountOf(to) == Some(who) ==>
                  Enough(m, cfg.ed, out.chain.ledger, who, x + Sum(NativeTo(cfg.self), assets)))
    decreases |assets|
  {
    if assets != [] && IsNative(cfg.self, assets[0].id) && AccountOf(from).Some? && AccountOf(to).Some? {
      var a, b := AccountOf(from).value, AccountOf(to).value;
      var t := Transfer(cfg.ed, c.ledger, a, b, assets[0].amount);
      if t.Some? {
        var x' := x + if b == who then assets[0].amount else 0;
        TransferAtSovereign(cfg.ed, c.ledger, a, b, assets[0].amount, who, m, x' + Drawn(cfg.self, from, who, assets[1..]));
        TransferEachAtSovereign(cfg, c.(ledger := t.value), from, assets[1..], to, who, m, x');
      }
    }
  }

  lemma TransferAtSovereign(ed: nat, l: L.Ledger, a: Account, b: Account, n: nat, who: Account, m: Margin, x: nat)
    requires Transfer(ed, l, a, b, n).Some?
    requires Enough(m, ed, l, who, (if b == who then (if x >= n then x - n else 0) else x) + if a == who then n else 0)
    requires b == who ==> x >= n
    ensures Enough(m, ed, Transfer(ed, l, a, b, n).value, who, x)
  {
  }

  /** Native assets sent to a sibling are announced there as exactly as many derivatives. */
  lemma DepositsAreAnnounced(cfg: Config, away: ParaId, assets: seq<Asset>, xcm: Program)
    requires cfg.self != away && AllNative(cfg.self, assets)
    ensures var head := ReserveAssetDeposited(Images(cfg.rank, cfg.self, assets, Sibling(away)));
            Exposure(Mint, DerivativeOf(cfg.self), [head, ClearOrigin] + xcm) == Sum(NativeTo(cfg.self), assets)
  {
    var head := ReserveAssetDeposited(Images(cfg.rank, cfg.self, assets, Sibling(away)));
    SentExposure(Mint, DerivativeOf(cfg.self), head, xcm);
    forall a | a in assets
      ensures Image(cfg.self, a.id, Sibling(away)) == Some(Concrete(AbsoluteTeer(cfg.self)))
    {
      TeerLeavesAsAbsolute(cfg.self, away, a.id);
    }
    SumImages(cfg.rank, cfg.self, NativeTo(cfg.self), DerivativeOf(cfg.self), assets, Sibling(away));
  }

  /** The origins that may be running at home: none, the other chain itself, or one that cannot act as it. */
  ghost predicate HomeOrigin(away: ParaId, o: Option<Location>) {
    o.None? || o.value == Sibling(away) || ClearOf(o.value, SovereignAccount(away))
  }

  /** What a chain at home may still draw from the account or has just announced to the other chain. */
  function Committed(home: ParaId, away: ParaId, c: Chain): nat {
    Claims(Debit, NativeTo(home), Sibling(away), c)
    + InFlight(Mint, DerivativeOf(home), AddressedTo(Sibling(away), c.outbox))
  }

  ghost predicate HomeCovers(home: Config, away: ParaId, c: Chain, owed: nat, m: Margin) {
    && Enough(m, home.ed, c.ledger, SovereignAccount(away), owed + Committed(home.self, away, c))
    && (c.running ==> HomeOrigin(away, c.origin))
  }

  /** A sibling's own location is the only running origin that acts as its sovereign account. */
  lemma HomeOriginActs(away: ParaId, o: Location)
    requires HomeOrigin(away, Some(o))
    ensures AccountOf(o) == Some(SovereignAccount(away)) <==> o == Sibling(away)
    ensures AccountOf(Sibling(away)) == Some(SovereignAccount(away))
  {
    assert Descend(o, []) == o;
  }

  lemma DescendStaysHome(away: ParaId, o: Location, suffix: seq<Junction>)
    requires HomeOrigin(away, Some(o))
    ensures HomeOrigin(away, Some(Descend(o, suffix)))
    ensures Descend(o, suffix) == Sibling(away) ==> o == Sibling(away)
  {
    if o == Sibling(away) {
      if suffix != [] {
        WhoReachesSovereign(Descend(o, suffix), away);
        assert |Descend(o, suffix).interior| >= 2;
      } else {
        assert Descend(o, suffix) == o;
      }
    } else {
      ClearOfDescends(o, suffix, SovereignAccount(away));
      HomeOriginActs(away, Descend(o, suffix));
      assert Descend(Descend(o, suffix), []) == Descend(o, suffix);
    }
  }

  lemma OneAddressed(dest: Location, m: Message)
    ensures AddressedTo(dest, [m]) == if m.dest == dest then [m.program] else []
  {
    assert [m][1..] == [];
  }

  lemma SendCovers(duty: Duty, k: AssetClass, cfg: Config, c: Chain, dest: Location, to: Location, program: Program)
    requires c.outbox == []
    ensures var d := Send(cfg, c, dest, program).chain;
            && InFlight(duty, k, AddressedTo(to, d.outbox)) <= (if dest == to then Exposure(duty, k, program) else 0)
            && d == c.(outbox := d.outbox)
  {
    OneAddressed(to, Message(dest, program));
    assert [program][1..] == [];
  }

  lemma TransferReserveCovers(home: Config, away: ParaId, c: Chain, assets: seq<Asset>, dest: Location, xcm: Program, owed: nat, m: Margin)
    requires home.self != away && c.running && c.outbox == [] && c.origin.Some? && HomeOrigin(away, c.origin)
    requires HomeCovers(home, away, c, owed + (if c.origin == Some(Sibling(away)) then Sum(NativeTo(home.self), assets) else 0), m)
    ensures HomeCovers(home, away, ExecTransferReserve(home, c, c.origin.value, assets, dest, xcm).chain, owed, m)
  {
    var from, who := c.origin.value, SovereignAccount(away);
    HomeOriginActs(away, from);
    TransferEachFrame(home, c, from, assets, dest);
    TransferEachAtSovereign(home, c, from, assets, dest, who, m, owed + Committed(home.self, away, c));
    var out := TransferEach(home, c, from, assets, dest);
    if out.Done? {
      var program := [ReserveAssetDeposited(Images(home.rank, home.self, assets, dest)), ClearOrigin] + xcm;
      SendCovers(Mint, DerivativeOf(home.self), home, out.chain, dest, Sibling(away), program);
      if dest == Sibling(away) {
        DepositsAreAnnounced(home, away, assets, xcm);
      }
    }
  }

  lemma DepositReserveCovers(home: Config, away: ParaId, c: Chain, filter: AssetFilter, dest: Location, xcm: Program, owed: nat, m: Margin)
    requires home.self != away && c.outbox == []
    requires HomeCovers(home, away, c, owed, m)
    ensures HomeCovers(home, away, ExecDepositReserve(home, c, filter, dest, xcm).chain, owed, m)
  {
    var who := SovereignAccount(away);
    var (taken, rest) := Take(home.rank, c.holding, filter);
    var c' := c.(holding := rest);
    DepositEachFrame(home, c', taken, dest);
    DepositEachToSovereign(home, c', taken, dest, who, m, owed + Committed(home.self, away, c));
    var out := DepositEach(home, c', taken, dest);
    if out.Done? {
      var program := [ReserveAssetDeposited(Images(home.rank, home.self, taken, dest)), ClearOrigin] + xcm;
      SendCovers(Mint, DerivativeOf(home.self), home, out.chain, dest, Sibling(away), program);
      if dest == Sibling(away) {
        DepositsAreAnnounced(home, away, taken, xcm);
        assert AccountOf(dest) == Some(who);
      }
    }
  }

  lemma WithdrawCovers(home: Config, away: ParaId, c: Chain, assets: seq<Asset>, owed: nat, m: Margin)
    requires c.running && c.origin.Some?
    requires HomeCovers(home, away, c, owed + (if c.origin == Some(Sibling(away)) then Sum(NativeTo(home.self), assets) else 0), m)
    ensures HomeCovers(home, away, WithdrawEach(home, c, c.origin.value, assets).chain, owed, m)
  {
    HomeOriginActs(away, c.origin.value);
    WithdrawEachFrame(home, c, c.origin.value, assets);
    WithdrawEachFromSovereign(home, c, c.origin.value, assets, SovereignAccount(away), m, owed + Committed(home.self, away, c));
  }

  lemma TransferCovers(home: Config, away: ParaId, c: Chain, assets: seq<Asset>, to: Location, owed: nat, m: Margin)
    requires c.running && c.origin.Some?
    requires HomeCovers(home, away, c, owed + (if c.origin == Some(Sibling(away)) then Sum(NativeTo(home.self), assets) else 0), m)
    ensures HomeCovers(home, away, TransferEach(home, c, c.origin.value, assets, to).chain, owed, m)
  {
    HomeOriginActs(away, c.origin.value);
    TransferEachFrame(home, c, c.origin.value, assets, to);
    TransferEachAtSovereign(home, c, c.origin.value, assets, to, SovereignAccount(away), m, owed + Committed(home.self, away, c));
  }

  /** Reserve withdrawals and teleports announce no deposit to anyone. */
  lemma LeavingCovers(home: Config, away: ParaId, c: Chain, filter: AssetFilter, dest: Location, xcm: Program, owed: nat, m: Margin)
    requires c.outbox == [] && HomeCovers(home, away, c, owed, m)
    ensures HomeCovers(home, away, ExecReserveWithdraw(home, c, filter, dest, xcm).chain, owed, m)
    ensures HomeCovers(home, away, ExecTeleport(home, c, filter, dest, xcm).chain, owed, m)
  {
    var k, k' := NativeTo(home.self), DerivativeOf(home.self);
    var (taken, rest) := Take(home.rank, c.holding, filter);
    var moved, kept := Moved(home.self, taken, dest), Kept(home.self, taken, dest);
    var d := c.(holding := SubsumeAll(home.rank, rest, kept), sent := c.sent + Sum(k, moved));
    var e := c.(holding := rest, sent := c.sent + Sum(k, taken));
    var withdraw := WithdrawAsset(Images(home.rank, home.self, moved, dest));
    var teleport := ReceiveTeleportedAsset(Images(home.rank, home.self, taken, dest));
    SentExposure(Mint, k', withdraw, xcm);
    SentExposure(Mint, k', teleport, xcm);
    SendCovers(Mint, k', home, d, dest, Sibling(away), [withdraw, ClearOrigin] + xcm);
    SendCovers(Mint, k', home, e, dest, Sibling(away), [teleport, ClearOrigin] + xcm);
  }

  lemma NextExposure(duty: Duty, k: AssetClass, i: Instruction, rest: Program)
    ensures Exposure(duty, k, [i] + rest) == if i.ClearOrigin? then 0 else Charge(duty, k, i) + Exposure(duty, k, rest)
  {
    assert ([i] + rest)[1..] == rest;
  }

  /** What an instruction may draw while its origin is the other chain. */
  function Draw(home: Config, away: ParaId, c: Chain, i: Instruction): nat {
    if c.origin == Some(Sibling(away)) then Charge(Debit, NativeTo(home.self), i) else 0
  }

  lemma MovingCovers(home: Config, away: ParaId, c: Chain, i: Instruction, owed: nat, m: Margin)
    requires home.self != away && c.running && c.outbox == [] && MovesAssets(i)
    requires HomeCovers(home, away, c, owed + Draw(home, away, c, i), m)
    ensures HomeCovers(home, away, Execute(home, c, i).chain, owed, m)
  {
    match i
    case WithdrawAsset(assets) =>
      if c.origin.Some? { WithdrawCovers(home, away, c, assets, owed, m); }
    case TransferAsset(assets, to) =>
      if c.origin.Some? { TransferCovers(home, away, c, assets, to, owed, m); }
    case TransferReserveAsset(assets, dest, xcm) =>
      if c.origin.Some? { TransferReserveCovers(home, away, c, assets, dest, xcm, owed, m); }
    case DepositAsset(filter, to) => DepositCovers(home, away, c, filter, to, owed, m);
    case DepositReserveAsset(filter, dest, xcm) => DepositReserveCovers(home, away, c, filter, dest, xcm, owed, m);
    case InitiateReserveWithdraw(filter, dest, xcm) => LeavingCovers(home, away, c, filter, dest, xcm, owed, m);
    case InitiateTeleport(filter, dest, xcm) => LeavingCovers(home, away, c, filter, dest, xcm, owed, m);
  }

  lemma DepositCovers(home: Config, away: ParaId, c: Chain, filter: AssetFilter, to: Location, owed: nat, m: Margin)
    requires HomeCovers(home, away, c, owed, m)
    ensures HomeCovers(home, away, Execute(home, c, DepositAsset(filter, to)).chain, owed, m)
  {
    var (taken, rest) := Take(home.rank, c.holding, filter);
    DepositEachFrame(home, c.(holding := rest), taken, to);
    DepositEachToSovereign(home, c.(holding := rest), taken, to, SovereignAccount(away), m, owed + Committed(home.self, away, c));
  }

  /** The other instructions leave ledger and outbox alone. */
  lemma HoldingFrame(cfg: Config, c: Chain, i: Instruction)
    requires !MovesAssets(i)
    ensures Execute(cfg, c, i).chain.ledger == c.ledger && Execute(cfg, c, i).chain.outbox == c.outbox
  {
    if i.ReserveAssetDeposited? && c.origin.Some? {
      ReceiveEachFrame(cfg, c, c.origin.value, i.assets);
    } else if i.ClaimAsset? && c.origin.Some? {
      ClaimFrame(cfg, c, c.origin.value, i.assets, i.ticket);
    }
  }

  lemma ExecuteCovers(home: Config, away: ParaId, c: Chain, i: Instruction, owed: nat, m: Margin)
    requires home.self != away && c.running && c.outbox == []
    requires HomeCovers(home, away, c.(program := [i] + c.program), owed, m)
    ensures HomeCovers(home, away, Execute(home, c, i).chain, owed, m)
  {
    NextExposure(Debit, NativeTo(home.self), i, c.program);
    if MovesAssets(i) {
      MovingCovers(home, away, c, i, owed, m);
    } else {
      ExecuteFrame(home, c, i);
      HoldingFrame(home, c, i);
      if i.DescendOrigin? && c.origin.Some? {
        DescendStaysHome(away, c.origin.value, i.suffix);
      }
    }
  }

  lemma TickCovers(home: Config, away: ParaId, c: Chain, owed: nat, m: Margin)
    requires home.self != away && c.outbox == []
    requires HomeCovers(home, away, c, owed, m)
    ensures HomeCovers(home, away, Tick(home, c), owed, m)
  {
    if c.running && c.program != [] {
      var rest := c.program[1..];
      assert [c.program[0]] + rest == c.program;
      ExecuteCovers(home, away, c.(program := rest), c.program[0], owed, m);
    }
  }

  // ---------------------------------------------------------------------------
  // Away: derivatives appear only on the word of their reserve
  // ---------------------------------------------------------------------------

  function Held(k: AssetClass, c: Chain): nat {
    Sum(k, c.holding) + TrapSum(k, c.traps)
  }

  /** The relay chain could descend into the home chain, so its own location is not among these. */
  predicate AwayOrigin(o: Option<Location>) {
    o != Some(PARENT)
  }

  predicate AwayBound(home: ParaId, c: Chain, total: nat) {
    && Held(DerivativeOf(home), c) + Claims(Mint, DerivativeOf(home), Sibling(home), c)
       + InFlight(Debit, NativeTo(home), AddressedTo(Sibling(home), c.outbox)) <= total
    && (c.running ==> AwayOrigin(c.origin))
  }

  lemma {:induction false} WithdrawEachHeld(cfg: Config, home: ParaId, c: Chain, from: Location, assets: seq<Asset>)
    requires cfg.self != home
    ensures Sum(DerivativeOf(home), WithdrawEach(cfg, c, from, assets).chain.holding) == Sum(DerivativeOf(home), c.holding)
    decreases |assets|
  {
    if assets != [] && IsNative(cfg.self, assets[0].id) && AccountOf(from).Some? {
      var w := Withdraw(cfg.ed, c.ledger, AccountOf(from).value, assets[0].amount);
      if w.Some? && HasRoom(c.holding, 1) {
        ConverterIsExact(cfg.self, assets[0].id.location);
        SumSubsume(cfg.rank, DerivativeOf(home), c.holding, assets[0]);
        var next := c.(ledger := w.value, holding := Subsume(cfg.rank, c.holding, assets[0]));
        WithdrawEachHeld(cfg, home, next, from, assets[1..]);
      }
    }
  }

  lemma {:induction false} ReceiveEachHeld(cfg: Config, home: ParaId, c: Chain, from: Location, assets: seq<Asset>)
    requires cfg.self != home
    ensures Sum(DerivativeOf(home), ReceiveEach(cfg, c, from, assets).chain.holding)
            <= Sum(DerivativeOf(home), c.holding) + (if from == Sibling(home) then Sum(DerivativeOf(home), assets) else 0)
    decreases |assets|
  {
    if assets != [] && IsReserve(cfg.self, assets[0].id, from) && HasRoom(c.holding, 1) {
      SumSubsume(cfg.rank, DerivativeOf(home), c.holding, assets[0]);
      ReceiveEachHeld(cfg, home, c.(holding := Subsume(cfg.rank, c.holding, assets[0])), from, assets[1..]);
    }
  }

  /** What is withdrawn towards home is taken out of holding here, unit for unit. */
  lemma WithdrawalsAreCovered(away: Config, home: ParaId, c: Chain, filter: AssetFilter, dest: Location, xcm: Program)
    requires away.self != home && c.outbox == []
    ensures var d := ExecReserveWithdraw(away, c, filter, dest, xcm).chain;
            && Sum(DerivativeOf(home), d.holding) + InFlight(Debit, NativeTo(home), AddressedTo(Sibling(home), d.outbox))
               <= Sum(DerivativeOf(home), c.holding)
            && d == c.(holding := d.holding, sent := d.sent, outbox := d.outbox)
  {
    var k, k' := DerivativeOf(home), NativeTo(home);
    var (taken, rest) := Take(away.rank, c.holding, filter);
    var moved, kept := Moved(away.self, taken, dest), Kept(away.self, taken, dest);
    TakeConserves(away.rank, k, c.holding, filter);
    SumMovedKept(away.self, k, taken, dest);
    SumSubsumeAll(away.rank, k, rest, kept);
    var d := c.(holding := SubsumeAll(away.rank, rest, kept), sent := c.sent + Sum(NativeTo(away.self), moved));
    var head := WithdrawAsset(Images(away.rank, away.self, moved, dest));
    SentExposure(Debit, k', head, xcm);
    SendCovers(Debit, k', away, d, dest, Sibling(home), [head, ClearOrigin] + xcm);
    if dest == Sibling(home) {
      forall a | a in moved
        ensures Image(away.self, a.id, dest).Some? && Belongs(k', Image(away.self, a.id, dest).value) <==> Belongs(k, a.id)
      {
        if a.id.Concrete? { OnlyAbsoluteComesHome(home, away.self, a.id.location); }
      }
      SumImages(away.rank, away.self, k, k', moved, dest);
    }
  }

  lemma BuyingHeld(away: Config, home: ParaId, c: Chain, fees: Asset, limit: WeightLimit)
    ensures Sum(DerivativeOf(home), ExecBuy(away, c, fees, limit).chain.holding) <= Sum(DerivativeOf(home), c.holding)
  {
    var k := DerivativeOf(home);
    if limit.Limited? && AmountOf(c.holding, fees.id) >= fees.amount {
      SumRemove(k, c.holding, fees.id, fees.amount);
      if Pays(fees, limit.weight) {
        var unspent := Asset(Concrete(SELF_RESERVE), fees.amount - limit.weight);
        SumSubsume(away.rank, k, Remove(c.holding, fees.id, fees.amount), unspent);
      }
    }
  }

  lemma RefundHeld(away: Config, home: ParaId, c: Chain)
    ensures Sum(DerivativeOf(home), ExecRefund(away, c).chain.holding) <= Sum(DerivativeOf(home), c.holding)
  {
    SumSubsume(away.rank, DerivativeOf(home), c.holding, Asset(Concrete(SELF_RESERVE), Min(c.surplus, c.fees)));
  }

  /** Derivatives held here plus those already announced as withdrawn at home. */
  function HeldOrReturning(home: ParaId, c: Chain): nat {
    Held(DerivativeOf(home), c) + InFlight(Debit, NativeTo(home), AddressedTo(Sibling(home), c.outbox))
  }

  lemma SendingHeld(away: Config, home: ParaId, c: Chain, filter: AssetFilter, dest: Location, xcm: Program)
    requires c.outbox == []
    ensures HeldOrReturning(home, ExecDepositReserve(away, c, filter, dest, xcm).chain) <= Held(DerivativeOf(home), c)
    ensures HeldOrReturning(home, ExecTeleport(away, c, filter, dest, xcm).chain) <= Held(DerivativeOf(home), c)
  {
    var k' := NativeTo(home);
    var (taken, rest) := Take(away.rank, c.holding, filter);
    TakeConserves(away.rank, DerivativeOf(home), c.holding, filter);
    DepositEachFrame(away, c.(holding := rest), taken, dest);
    var out := DepositEach(away, c.(holding := rest), taken, dest);
    var d := c.(holding := rest, sent := c.sent + Sum(NativeTo(away.self), taken));
    var images := Images(away.rank, away.self, taken, dest);
    SentExposure(Debit, k', ReserveAssetDeposited(images), xcm);
    SentExposure(Debit, k', ReceiveTeleportedAsset(images), xcm);
    SendCovers(Debit, k', away, out.chain, dest, Sibling(home), [ReserveAssetDeposited(images), ClearOrigin] + xcm);
    SendCovers(Debit, k', away, d, dest, Sibling(home), [ReceiveTeleportedAsset(images), ClearOrigin] + xcm);
  }

  lemma TransferringHeld(away: Config, home: ParaId, c: Chain, from: Location, assets: seq<Asset>, dest: Location, xcm: Program)
    requires c.outbox == []
    ensures HeldOrReturning(home, ExecTransferReserve(away, c, from, assets, dest, xcm).chain) <= Held(DerivativeOf(home), c)
  {
    TransferEachFrame(away, c, from, assets, dest);
    var out := TransferEach(away, c, from, assets, dest);
    var head := ReserveAssetDeposited(Images(away.rank, away.self, assets, dest));
    SentExposure(Debit, NativeTo(home), head, xcm);
    SendCovers(Debit, NativeTo(home), away, out.chain, dest, Sibling(home), [head, ClearOrigin] + xcm);
  }

  lemma {:induction false} ClaimEachHeld(cfg: Config, k: AssetClass, c: Chain, assets: seq<Asset>)
    ensures Sum(k, ClaimEach(cfg, c, assets).chain.holding) <= Sum(k, c.holding) + Sum(k, assets)
    decreases |assets|
  {
    if assets != [] && HasRoom(c.holding, 1) {
      SumSubsume(cfg.rank, k, c.holding, assets[0]);
      ClaimEachHeld(cfg, k, c.(holding := Subsume(cfg.rank, c.holding, assets[0])), assets[1..]);
    }
  }

  lemma ClaimingHeld(away: Config, k: AssetClass, c: Chain, claimer: Location, assets: seq<Asset>, ticket: Location)
    ensures Held(k, ExecClaim(away, c, claimer, assets, ticket).chain) <= Held(k, c)
  {
    var n := FindTrap(c.traps, TrappedAssets(claimer, assets));
    if n < |c.traps| {
      var d := c.(traps := c.traps[..n] + c.traps[n + 1..]);
      TrapSumRemove(k, c.traps, n);
      ClaimEachFrame(away, d, assets);
      ClaimEachHeld(away, k, d, assets);
    }
  }

  lemma MovingHeld(away: Config, home: ParaId, c: Chain, i: Instruction)
    requires away.self != home && c.outbox == [] && MovesAssets(i)
    ensures HeldOrReturning(home, Execute(away, c, i).chain) <= Held(DerivativeOf(home), c)
  {
    match i
    case WithdrawAsset(assets) =>
      if c.origin.Some? {
        WithdrawEachFrame(away, c, c.origin.value, assets);
        WithdrawEachHeld(away, home, c, c.origin.value, assets);
      }
    case TransferAsset(assets, to) =>
      if c.origin.Some? { TransferEachFrame(away, c, c.origin.value, assets, to); }
    case TransferReserveAsset(assets, dest, xcm) =>
      if c.origin.Some? { TransferringHeld(away, home, c, c.origin.value, assets, dest, xcm); }
    case DepositAsset(filter, to) =>
      var (taken, rest) := Take(away.rank, c.holding, filter);
      TakeConserves(away.rank, DerivativeOf(home), c.holding, filter);
      DepositEachFrame(away, c.(holding := rest), taken, to);
    case DepositReserveAsset(filter, dest, xcm) => SendingHeld(away, home, c, filter, dest, xcm);
    case InitiateReserveWithdraw(filter, dest, xcm) => WithdrawalsAreCovered(away, home, c, filter, dest, xcm);
    case InitiateTeleport(filter, dest, xcm) => SendingHeld(away, home, c, filter, dest, xcm);
  }

  /** Only a deposit reported by the home chain itself adds derivatives. */
  lemma ExecuteHeld(away: Config, home: ParaId, c: Chain, i: Instruction)
    requires away.self != home && c.outbox == []
    ensures HeldOrReturning(home, Execute(away, c, i).chain)
            <= Held(DerivativeOf(home), c)
               + if i.ReserveAssetDeposited? && c.origin == Some(Sibling(home)) then Sum(DerivativeOf(home), i.assets) else 0
  {
    var k := DerivativeOf(home);
    if MovesAssets(i) {
      MovingHeld(away, home, c, i);
    } else {
      HoldingFrame(away, c, i);
      match i
      case ReserveAssetDeposited(assets) =>
        if c.origin.Some? {
          ReceiveEachFrame(away, c, c.origin.value, assets);
          ReceiveEachHeld(away, home, c, c.origin.value, assets);
        }
      case BuyExecution(fees, limit) => BuyingHeld(away, home, c, fees, limit);
      case RefundSurplus => RefundHeld(away, home, c);
      case ClaimAsset(assets, ticket) =>
        if c.origin.Some? {
          ClaimFrame(away, c, c.origin.value, assets, ticket);
          ClaimingHeld(away, k, c, c.origin.value, assets, ticket);
        }
      case BurnAsset(assets) => TakeConserves(away.rank, k, c.holding, Definite(assets));
      case _ =>
    }
  }

  lemma ExecuteBounds(away: Config, home: ParaId, c: Chain, i: Instruction, total: nat)
    requires away.self != home && c.running && c.outbox == []
    requires AwayBound(home, c.(program := [i] + c.program), total)
    ensures AwayBound(home, Execute(away, c, i).chain, total)
  {
    NextExposure(Mint, DerivativeOf(home), i, c.program);
    ExecuteFrame(away, c, i);
    ExecuteHeld(away, home, c, i);
    if i.DescendOrigin? && c.origin.Some? && Descend(c.origin.value, i.suffix) == Sibling(home) {
      assert c.origin.value.interior == [] || i.suffix == [];
      assert c.origin.value == Sibling(home);
    }
  }

  lemma FinishHeld(away: Config, home: ParaId, c: Chain)
    ensures var d := Finish(away, c);
            Held(DerivativeOf(home), d) <= Held(DerivativeOf(home), c) && !d.running && d.outbox == c.outbox
  {
    RefundHeld(away, home, c);
    var r := ExecRefund(away, c).chain;
    TrapRestKeeps(DerivativeOf(home), r.(running := false, fees := 0, burned := r.burned + r.fees));
  }

  lemma TickBounds(away: Config, home: ParaId, c: Chain, total: nat)
    requires away.self != home && c.outbox == []
    requires AwayBound(home, c, total)
    ensures AwayBound(home, Tick(away, c), total)
  {
    if c.running {
      if c.program != [] {
        var rest := c.program[1..];
        assert [c.program[0]] + rest == c.program;
        ExecuteBounds(away, home, c.(program := rest), c.program[0], total);
      } else if c.appendix == [] {
        FinishHeld(away, home, DropHandler(c));
      }
    }
  }
}
