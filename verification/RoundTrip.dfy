/**
 What arrives.  The bounds on what the other chain may credit say nothing unless it does
 credit it: here a reserve transfer is followed to the other chain and back again.
 */
module RoundTrip {
  import opened Prelude
  import opened Locations
  import opened L = Ledger
  import opened Assets
  import opened Executor
  import opened C = Conservation
  import opened Backing
  import opened Effects
  import opened TwoChains
  import opened Threshold
  import B = Bridge
  import Barrier

  function AmountsOf(s: seq<Asset>): nat {
    if s == [] then 0 else s[0].amount + AmountsOf(s[1..])
  }

  /** Assets that are all rewritten to one id arrive as one entry. */
  lemma {:induction false} OneImage(rank: AssetId -> int, self: ParaId, s: seq<Asset>, dest: Location, id: AssetId)
    requires forall a :: a in s ==> Image(self, a.id, dest) == Some(id)
    ensures Images(rank, self, s, dest) == if s == [] then [] else [Asset(id, AmountsOf(s))]
  {
    if s != [] {
      assert s[0] in s && forall a :: a in s[1..] ==> a in s;
      OneImage(rank, self, s[1..], dest, id);
      if s[1..] != [] {
        assert [Asset(id, AmountsOf(s[1..]))][1..] == [];
      }
    }
  }

  lemma {:induction false} AllMove(self: ParaId, s: seq<Asset>, dest: Location)
    requires forall a :: a in s ==> Image(self, a.id, dest).Some?
    ensures Moved(self, s, dest) == s && Kept(self, s, dest) == []
  {
    if s != [] {
      assert s[0] in s && forall a :: a in s[1..] ==> a in s;
      AllMove(self, s[1..], dest);
    }
  }

  lemma {:induction false} NativeAmounts(self: ParaId, s: seq<Asset>)
    requires AllNative(self, s)
    ensures Sum(NativeTo(self), s) == AmountsOf(s)
  {
    if s != [] {
      assert s == [s[0]] + s[1..];
      NativeAmounts(self, s[1..]);
    }
  }

  lemma SumOfOne(k: AssetClass, a: Asset)
    ensures Sum(k, [a]) == Worth(k, a)
  {
    assert [a][1..] == [];
  }

  /** The message in which home reports native assets to the other chain. */
  function Report(home: ParaId, n: nat, xcm: Program): Program {
    [ReserveAssetDeposited([Asset(Concrete(AbsoluteTeer(home)), n)]), ClearOrigin] + xcm
  }

  lemma NativeIsReported(cfg: Config, away: ParaId, assets: seq<Asset>, xcm: Program)
    requires cfg.self != away && AllNative(cfg.self, assets) && assets != []
    ensures [ReserveAssetDeposited(Images(cfg.rank, cfg.self, assets, Sibling(away))), ClearOrigin] + xcm
            == Report(cfg.self, Sum(NativeTo(cfg.self), assets), xcm)
  {
    forall a | a in assets ensures Image(cfg.self, a.id, Sibling(away)) == Some(Concrete(AbsoluteTeer(cfg.self))) {
      TeerLeavesAsAbsolute(cfg.self, away, a.id);
    }
    OneImage(cfg.rank, cfg.self, assets, Sibling(away), Concrete(AbsoluteTeer(cfg.self)));
    NativeAmounts(cfg.self, assets);
  }

  /** A report of the reserve is believed: the first step of the other chain credits exactly its amount. */
  lemma ReportTick(cfg: Config, c: Chain, home: ParaId, n: nat, xcm: Program)
    requires cfg.self != home && c.running && c.origin == Some(Sibling(home)) && c.holding == []
    requires c.program == Report(home, n, xcm)
    ensures Tick(cfg, c) == c.(program := [ClearOrigin] + xcm, holding := [Asset(Concrete(AbsoluteTeer(home)), n)])
  {
    var a := Asset(Concrete(AbsoluteTeer(home)), n);
    var d := c.(program := [ClearOrigin] + xcm);
    assert c.program[1..] == d.program;
    SiblingReservesIff(cfg.self, a.id, home);
    assert [a][1..] == [];
    assert ReceiveEach(cfg, d, Sibling(home), [a]) == ReceiveEach(cfg, d.(holding := [a]), Sibling(home), []);
  }

  lemma ReportArrives(away: Config, d: Chain, home: ParaId, n: nat, xcm: Program)
    requires away.self != home && Idle(d)
    ensures Sum(DerivativeOf(home), Tick(away, Start(d, Sibling(home), Report(home, n, xcm))).holding) == n
  {
    ReportTick(away, Start(d, Sibling(home), Report(home, n, xcm)), home, n, xcm);
    SumOfOne(DerivativeOf(home), Asset(Concrete(AbsoluteTeer(home)), n));
  }

  lemma DepositIsReported(home: Config, away: ParaId, c: Chain, filter: AssetFilter, xcm: Program)
    requires home.self != away && c.outbox == [] && Take(home.rank, c.holding, filter).0 != []
    requires ExecDepositReserve(home, c, filter, Sibling(away), xcm).Done?
    ensures var (taken, rest) := Take(home.rank, c.holding, filter);
            var e := ExecDepositReserve(home, c, filter, Sibling(away), xcm).chain;
            && e.holding == rest
            && AddressedTo(Sibling(away), e.outbox) == [Report(home.self, Sum(NativeTo(home.self), taken), xcm)]
  {
    var (taken, rest) := Take(home.rank, c.holding, filter);
    var c' := c.(holding := rest);
    DepositsSucceedIff(home, c', taken, Sibling(away));
    DepositEachFrame(home, c', taken, Sibling(away));
    NativeIsReported(home, away, taken, xcm);
    OneAddressed(Sibling(away), Message(Sibling(away), Report(home.self, Sum(NativeTo(home.self), taken), xcm)));
  }

  /**
   What home takes out of holding to send it on arrives: one message, and the first step of
   the other chain credits exactly as many derivatives.
   */
  lemma DepositArrives(home: Config, away: Config, c: Chain, d: Chain, filter: AssetFilter, xcm: Program)
    requires home.self != away.self && c.outbox == [] && Idle(d) && Take(home.rank, c.holding, filter).0 != []
    requires ExecDepositReserve(home, c, filter, Sibling(away.self), xcm).Done?
    ensures var e := ExecDepositReserve(home, c, filter, Sibling(away.self), xcm).chain;
            var sent := AddressedTo(Sibling(away.self), e.outbox);
            && |sent| == 1
            && Sum(DerivativeOf(home.self), Tick(away, Start(d, Sibling(home.self), sent[0])).holding)
               == Sum(NativeTo(home.self), c.holding) - Sum(NativeTo(home.self), e.holding)
  {
    DepositIsReported(home, away.self, c, filter, xcm);
    TakeConserves(home.rank, NativeTo(home.self), c.holding, filter);
    ReportArrives(away, d, home.self, Sum(NativeTo(home.self), Take(home.rank, c.holding, filter).0), xcm);
  }

  /** A teleport out announces exactly what it takes out of holding. */
  lemma TeleportIsAnnounced(home: Config, away: ParaId, c: Chain, filter: AssetFilter, xcm: Program)
    requires home.self != away && c.outbox == [] && home.routable(Sibling(away))
    requires var taken := Take(home.rank, c.holding, filter).0; taken != [] && AllNative(home.self, taken)
    ensures var (taken, rest) := Take(home.rank, c.holding, filter);
            var e := ExecTeleport(home, c, filter, Sibling(away), xcm).chain;
            var n := Sum(NativeTo(home.self), taken);
            && e.holding == rest && e.sent == c.sent + n && e.ledger == c.ledger
            && AddressedTo(Sibling(away), e.outbox)
               == [[ReceiveTeleportedAsset([Asset(Concrete(AbsoluteTeer(home.self)), n)]), ClearOrigin] + xcm]
  {
    var taken := Take(home.rank, c.holding, filter).0;
    var n := Sum(NativeTo(home.self), taken);
    forall a | a in taken ensures Image(home.self, a.id, Sibling(away)) == Some(Concrete(AbsoluteTeer(home.self))) {
      TeerLeavesAsAbsolute(home.self, away, a.id);
    }
    OneImage(home.rank, home.self, taken, Sibling(away), Concrete(AbsoluteTeer(home.self)));
    NativeAmounts(home.self, taken);
    var program := [ReceiveTeleportedAsset([Asset(Concrete(AbsoluteTeer(home.self)), n)]), ClearOrigin] + xcm;
    OneAddressed(Sibling(away), Message(Sibling(away), program));
  }

  /** So does what is transferred straight out of an account. */
  lemma TransferArrives(home: Config, away: Config, c: Chain, d: Chain, assets: seq<Asset>, xcm: Program)
    requires home.self != away.self && c.outbox == [] && Idle(d) && assets != []
    requires Execute(home, c, TransferReserveAsset(assets, Sibling(away.self), xcm)).Done?
    ensures var e := Execute(home, c, TransferReserveAsset(assets, Sibling(away.self), xcm)).chain;
            var sent := AddressedTo(Sibling(away.self), e.outbox);
            && |sent| == 1
            && Sum(DerivativeOf(home.self), Tick(away, Start(d, Sibling(home.self), sent[0])).holding)
               == Sum(NativeTo(home.self), assets)
  {
    var from, n := c.origin.value, Sum(NativeTo(home.self), assets);
    TransfersAreNative(home, c, from, assets, Sibling(away.self));
    TransferEachFrame(home, c, from, assets, Sibling(away.self));
    NativeIsReported(home, away.self, assets, xcm);
    OneAddressed(Sibling(away.self), Message(Sibling(away.self), Report(home.self, n, xcm)));
    ReportArrives(away, d, home.self, n, xcm);
  }

  // ---------------------------------------------------------------------------
  // The way back
  // ---------------------------------------------------------------------------

  /** How the other chain writes home TEER for home. */
  function HomeId(home: ParaId, away: ParaId): Option<AssetId> {
    Image(away, Concrete(AbsoluteTeer(home)), Sibling(home))
  }

  lemma HomeIdIsNative(home: ParaId, away: ParaId)
    requires home != away
    ensures HomeId(home, away).Some? && IsNative(home, HomeId(home, away).value)
  {
    OnlyAbsoluteComesHome(home, away, AbsoluteTeer(home));
  }

  /** The message in which the other chain asks home to give native assets out. */
  function Recall(home: ParaId, away: ParaId, n: nat, xcm: Program): Program
    requires home != away
  {
    HomeIdIsNative(home, away);
    [WithdrawAsset([Asset(HomeId(home, away).value, n)]), ClearOrigin] + xcm
  }

  /** All the derivatives in holding leave, in one message that asks for exactly their amount. */
  lemma RecallTick(cfg: Config, c: Chain, home: ParaId, n: nat, xcm: Program)
    requires cfg.self != home && c.running && c.outbox == [] && cfg.routable(Sibling(home))
    requires c.holding == [Asset(Concrete(AbsoluteTeer(home)), n)]
    requires c.program == [InitiateReserveWithdraw(All, Sibling(home), xcm)]
    ensures var d := Tick(cfg, c);
            && d == c.(program := [], holding := [], outbox := [Message(Sibling(home), Recall(home, cfg.self, n, xcm))])
  {
    HomeIdIsNative(home, cfg.self);
    assert c.program[1..] == [];
    var taken := c.holding;
    assert taken[1..] == [];
    OneImage(cfg.rank, cfg.self, taken, Sibling(home), HomeId(home, cfg.self).value);
    AllMove(cfg.self, taken, Sibling(home));
    assert AmountsOf(taken) == n;
    ConverterIsExact(cfg.self, AbsoluteTeer(home));
    assert Sum(NativeTo(cfg.self), taken) == 0;
    var e := c.(program := []);
    assert SubsumeAll(cfg.rank, [], []) == [];
    assert Execute(cfg, e, c.program[0])
           == Send(cfg, e.(holding := []), Sibling(home), Recall(home, cfg.self, n, xcm));
  }

  /** A recall is honoured as far as the sovereign account reaches: its first step brings the amount into holding. */
  lemma RecallIsHonouredIff(cfg: Config, d: Chain, away: ParaId, n: nat, xcm: Program)
    requires cfg.self != away && Idle(d)
    ensures var s := Start(d, Sibling(away), Recall(cfg.self, away, n, xcm));
            Sum(NativeTo(cfg.self), Tick(cfg, s).holding)
            == if Balance(d.ledger, SovereignAccount(away)) >= n then n else 0
  {
    HomeIdIsNative(cfg.self, away);
    var a := Asset(HomeId(cfg.self, away).value, n);
    var s := Start(d, Sibling(away), Recall(cfg.self, away, n, xcm));
    var rest := s.(program := s.program[1..]);
    WithdrawalSucceedsIff(cfg, rest, Sibling(away), a);
    SumOfOne(NativeTo(cfg.self), a);
    assert [a][1..] == [];
    var w := Withdraw(cfg.ed, d.ledger, SovereignAccount(away), n);
    if w.Some? {
      var e := rest.(ledger := w.value, holding := [a]);
      assert WithdrawEach(cfg, rest, Sibling(away), [a]) == WithdrawEach(cfg, e, Sibling(away), []) == Done(e);
    }
  }

  // ---------------------------------------------------------------------------
  // There and back through both queues
  // ---------------------------------------------------------------------------

  function Back(home: ParaId, to: Location): Program {
    [InitiateReserveWithdraw(All, Sibling(home), [DepositAsset(All, to)])]
  }

  /** Sends `n` units to the other chain, which sends them back for a beneficiary at home. */
  function Trip(p: Pair, n: nat, to: Location): Program {
    [WithdrawAsset([Asset(TEER_ID, n)]), DepositReserveAsset(All, Sibling(p.away.self), Back(p.home.self, to))]
  }

  lemma SendTick(cfg: Config, c: Chain, away: ParaId, n: nat, xcm: Program)
    requires cfg.self != away && c.running && c.outbox == [] && cfg.routable(Sibling(away))
    requires c.holding == [Asset(TEER_ID, n)] && c.program == [DepositReserveAsset(All, Sibling(away), xcm)]
    ensures Tick(cfg, c) == c.(program := [], holding := [],
                               ledger := Deposit(cfg.ed, c.ledger, SovereignAccount(away), n),
                               outbox := [Message(Sibling(away), Report(cfg.self, n, xcm))])
  {
    var taken, e := c.holding, c.(program := []);
    assert c.program[1..] == [] && taken[1..] == [];
    ConverterIsExact(cfg.self, SELF_RESERVE);
    var paid := e.(holding := [], ledger := Deposit(cfg.ed, c.ledger, SovereignAccount(away), n));
    assert DepositEach(cfg, e.(holding := []), taken, Sibling(away)) == DepositEach(cfg, paid, [], Sibling(away)) == Done(paid);
    NativeIsReported(cfg, away, taken, xcm);
    SumOfOne(NativeTo(cfg.self), taken[0]);
    assert Execute(cfg, e, c.program[0]) == Send(cfg, paid, Sibling(away), Report(cfg.self, n, xcm));
  }

  lemma PayTick(cfg: Config, c: Chain, a: Asset, to: Location)
    requires c.running && c.holding == [a] && c.program == [DepositAsset(All, to)]
    requires IsNative(cfg.self, a.id) && AccountOf(to).Some?
    ensures Tick(cfg, c) == c.(program := [], holding := [], ledger := Deposit(cfg.ed, c.ledger, AccountOf(to).value, a.amount))
  {
    var e := c.(program := []);
    assert c.program[1..] == [] && [a][1..] == [];
    var paid := e.(holding := [], ledger := Deposit(cfg.ed, c.ledger, AccountOf(to).value, a.amount));
    assert DepositEach(cfg, e.(holding := []), [a], to) == DepositEach(cfg, paid, [], to) == Done(paid);
  }

  lemma EndTick(cfg: Config, c: Chain)
    requires c.running && c.program == [] && c.handler == [] && c.appendix == [] && c.holding == [] && c.fees == 0
    ensures Tick(cfg, c) == c.(running := false, surplus := 0)
  {
  }

  /** An idle chain after a message with nothing left over. */
  function Settled(c: Chain, origin: Option<Location>, original: Location, l: L.Ledger): Chain {
    c.(running := false, holding := [], surplus := 0, origin := origin, original := original,
       program := [], handler := [], appendix := [], ledger := l)
  }

  lemma AwayTick(p: Pair, w: World)
    requires w.away.outbox == []
    ensures var c := Tick(p.away, w.away);
            Advance(p, w, StepAway)
            == w.(away := c.(outbox := []), homeward := w.homeward + AddressedTo(Sibling(p.home.self), c.outbox))
    ensures var c := Tick(p.away, w.away);
            c.outbox == [] ==> Advance(p, w, StepAway) == w.(away := c)
  {
    assert w.away.(outbox := []) == w.away;
    assert w.homeward + [] == w.homeward;
  }

  lemma {:induction false} RunAppend(p: Pair, w: World, s: seq<WorldEvent>, t: seq<WorldEvent>)
    ensures RunWorld(p, w, s + t) == RunWorld(p, RunWorld(p, w, s), t)
    decreases |s|
  {
    if s == [] {
      assert s + t == t;
    } else {
      assert (s + t)[1..] == s[1..] + t;
      RunAppend(p, Advance(p, w, s[0]), s[1..], t);
    }
  }

  ghost predicate CanBecome(p: Pair, w: World, v: World) {
    exists events :: RunWorld(p, w, events) == v
  }

  lemma Becomes(p: Pair, w: World, events: seq<WorldEvent>)
    ensures CanBecome(p, w, RunWorld(p, w, events))
  {
  }

  lemma BecomesThen(p: Pair, w: World, v: World, u: World)
    requires CanBecome(p, w, v) && CanBecome(p, v, u)
    ensures CanBecome(p, w, u)
  {
    var s :| RunWorld(p, w, s) == v;
    var t :| RunWorld(p, v, t) == u;
    RunAppend(p, w, s, t);
  }

  /** The sender's account and the sovereign account after the first leg. */
  function Sent(p: Pair, l: L.Ledger, payer: Account, n: nat): L.Ledger
    requires Balance(l, payer) >= n
  {
    Deposit(p.home.ed, Write(p.home.ed, l, payer, Balance(l, payer) - n), SovereignAccount(p.away.self), n)
  }

  ghost predicate Ready(p: Pair, w: World, origin: Location, payer: Account, n: nat) {
    && p.home.self != p.away.self && Idle(w.home) && Idle(w.away) && w.home.outbox == [] && w.away.outbox == []
    && p.home.routable(Sibling(p.away.self)) && p.away.routable(Sibling(p.home.self))
    && B.Outsider(p.away.self, origin) && AccountOf(origin) == Some(payer) && 0 < n <= Balance(w.home.ledger, payer)
  }

  /** The three steps at home, up to the sent message and the end. */
  lemma OutwardTicks(cfg: Config, away: ParaId, c: Chain, origin: Location, payer: Account, n: nat, xcm: Program)
    returns (c1: Chain, c2: Chain, c3: Chain)
    requires cfg.self != away && cfg.routable(Sibling(away)) && AccountOf(origin) == Some(payer)
    requires Idle(c) && c.outbox == [] && 0 < n <= Balance(c.ledger, payer)
    ensures var trip := [WithdrawAsset([Asset(TEER_ID, n)]), DepositReserveAsset(All, Sibling(away), xcm)];
            c1 == Tick(cfg, Start(c, origin, trip)) && c2 == Tick(cfg, c1) && c3 == Tick(cfg, c2.(outbox := []))
    ensures c1.outbox == c3.outbox == [] && c2.outbox == [Message(Sibling(away), Report(cfg.self, n, xcm))]
    ensures var left := Write(cfg.ed, c.ledger, payer, Balance(c.ledger, payer) - n);
            c3 == Settled(c, Some(origin), origin, Deposit(cfg.ed, left, SovereignAccount(away), n))
  {
    var send := DepositReserveAsset(All, Sibling(away), xcm);
    var a := Asset(TEER_ID, n);
    var s := Start(c, origin, [WithdrawAsset([a]), send]);
    ConverterIsExact(cfg.self, SELF_RESERVE);
    assert s.program == [WithdrawAsset([a])] + [send];
    FirstTick(cfg, s, origin, payer, a, [send]);
    c1 := Tick(cfg, s);
    SendTick(cfg, c1, away, n, xcm);
    c2 := Tick(cfg, c1);
    EndTick(cfg, c2.(outbox := []));
    c3 := Tick(cfg, c2.(outbox := []));
  }

  lemma ThreeHome(p: Pair, w: World, c1: Chain, c2: Chain, c3: Chain, program: Program)
    requires w.home.outbox == c1.outbox == c3.outbox == [] && c2.outbox == [Message(Sibling(p.away.self), program)]
    requires c1 == Tick(p.home, w.home) && c2 == Tick(p.home, c1) && c3 == Tick(p.home, c2.(outbox := []))
    ensures Advance(p, Advance(p, Advance(p, w, StepHome), StepHome), StepHome)
            == w.(home := c3, outward := w.outward + [program])
  {
    HomeTick(p, w);
    HomeTick(p, w.(home := c1));
    OneAddressed(Sibling(p.away.self), Message(Sibling(p.away.self), program));
    HomeTick(p, w.(home := c2.(outbox := []), outward := w.outward + [program]));
  }

  function AfterSending(p: Pair, w: World, origin: Location, payer: Account, n: nat, to: Location): World
    requires Balance(w.home.ledger, payer) >= n
  {
    w.(home := Settled(w.home, Some(origin), origin, Sent(p, w.home.ledger, payer, n)),
       outward := w.outward + [Report(p.home.self, n, Back(p.home.self, to))])
  }

  function AfterReturning(p: Pair, w: World, n: nat, to: Location): World
    requires p.home.self != p.away.self && w.outward != []
  {
    w.(away := Settled(w.away, None, Sibling(p.home.self), w.away.ledger),
       outward := w.outward[..|w.outward| - 1],
       homeward := w.homeward + [Recall(p.home.self, p.away.self, n, [DepositAsset(All, to)])])
  }

  function AfterPaying(p: Pair, w: World, n: nat, to: Location): World
    requires Balance(w.home.ledger, SovereignAccount(p.away.self)) >= n && AccountOf(to).Some? && w.homeward != []
  {
    var who := SovereignAccount(p.away.self);
    var drawn := Write(p.home.ed, w.home.ledger, who, Balance(w.home.ledger, who) - n);
    w.(home := Settled(w.home, None, Sibling(p.away.self), Deposit(p.home.ed, drawn, AccountOf(to).value, n)),
       homeward := w.homeward[..|w.homeward| - 1])
  }

  lemma OutwardLeg(p: Pair, w: World, origin: Location, payer: Account, n: nat, to: Location)
    requires Ready(p, w, origin, payer, n)
    ensures CanBecome(p, w, AfterSending(p, w, origin, payer, n, to))
  {
    var e, back := OutsiderHome(origin, Trip(p, n, to)), Back(p.home.self, to);
    var c1, c2, c3 := OutwardTicks(p.home, p.away.self, w.home, origin, payer, n, back);
    ThreeHome(p, Advance(p, w, e), c1, c2, c3, Report(p.home.self, n, back));
    RunFour(p, w, e, StepHome);
    Becomes(p, w, [e, StepHome, StepHome, StepHome]);
  }

  /** The four steps over there: credit, clear the origin, send back, end. */
  lemma AwayTicks(cfg: Config, home: ParaId, c: Chain, n: nat, to: Location)
    returns (c1: Chain, c2: Chain, c3: Chain, c4: Chain)
    requires cfg.self != home && Idle(c) && c.outbox == [] && cfg.routable(Sibling(home))
    ensures c1 == Tick(cfg, Start(c, Sibling(home), Report(home, n, Back(home, to))))
    ensures c2 == Tick(cfg, c1) && c3 == Tick(cfg, c2) && c4 == Tick(cfg, c3.(outbox := []))
    ensures c1.outbox == c2.outbox == c4.outbox == []
    ensures c3.outbox == [Message(Sibling(home), Recall(home, cfg.self, n, [DepositAsset(All, to)]))]
    ensures c4 == Settled(c, None, Sibling(home), c.ledger)
  {
    var back := Back(home, to);
    var s := Start(c, Sibling(home), Report(home, n, back));
    ReportTick(cfg, s, home, n, back);
    c1 := Tick(cfg, s);
    ClearTick(cfg, c1, back);
    c2 := Tick(cfg, c1);
    RecallTick(cfg, c2, home, n, [DepositAsset(All, to)]);
    c3 := Tick(cfg, c2);
    EndTick(cfg, c3.(outbox := []));
    c4 := Tick(cfg, c3.(outbox := []));
  }

  lemma FourAway(p: Pair, w: World, c1: Chain, c2: Chain, c3: Chain, c4: Chain, program: Program)
    requires w.away.outbox == c1.outbox == c2.outbox == c4.outbox == [] && c3.outbox == [Message(Sibling(p.home.self), program)]
    requires c1 == Tick(p.away, w.away) && c2 == Tick(p.away, c1) && c3 == Tick(p.away, c2)
    requires c4 == Tick(p.away, c3.(outbox := []))
    ensures Advance(p, Advance(p, Advance(p, Advance(p, w, StepAway), StepAway), StepAway), StepAway)
            == w.(away := c4, homeward := w.homeward + [program])
  {
    AwayTick(p, w);
    AwayTick(p, w.(away := c1));
    AwayTick(p, w.(away := c2));
    OneAddressed(Sibling(p.home.self), Message(Sibling(p.home.self), program));
    AwayTick(p, w.(away := c3.(outbox := []), homeward := w.homeward + [program]));
  }

  lemma ReportDelivered(p: Pair, w: World, n: nat, to: Location)
    requires Idle(w.away) && w.outward != []
    requires w.outward[|w.outward| - 1] == Report(p.home.self, n, Back(p.home.self, to))
    ensures var report := Report(p.home.self, n, Back(p.home.self, to));
            Advance(p, w, DeliverAway(|w.outward| - 1, report))
            == w.(away := Start(w.away, Sibling(p.home.self), report), outward := w.outward[..|w.outward| - 1])
  {
    var back := Back(p.home.self, to);
    var report := Report(p.home.self, n, back);
    assert !Barrier.Denied(report) by {
      assert report[2] == back[0];
    }
    assert B.Without(w.outward, |w.outward| - 1) == w.outward[..|w.outward| - 1];
  }

  lemma AwayLeg(p: Pair, w: World, n: nat, to: Location)
    requires p.home.self != p.away.self && Idle(w.away) && w.away.outbox == [] && p.away.routable(Sibling(p.home.self))
    requires w.outward != [] && w.outward[|w.outward| - 1] == Report(p.home.self, n, Back(p.home.self, to))
    ensures CanBecome(p, w, AfterReturning(p, w, n, to))
  {
    var e := DeliverAway(|w.outward| - 1, Report(p.home.self, n, Back(p.home.self, to)));
    ReportDelivered(p, w, n, to);
    var c1, c2, c3, c4 := AwayTicks(p.away, p.home.self, w.away, n, to);
    FourAway(p, Advance(p, w, e), c1, c2, c3, c4, Recall(p.home.self, p.away.self, n, [DepositAsset(All, to)]));
    RunFive(p, w, e, StepAway);
    Becomes(p, w, [e, StepAway, StepAway, StepAway, StepAway]);
  }

  /** Two steps at home: draw on the account of the origin, and clear the origin. */
  lemma DrawTicks(cfg: Config, s: Chain, from: Location, who: Account, a: Asset, pay: Program) returns (c1: Chain, c2: Chain)
    requires s.running && s.origin == Some(from) && AccountOf(from) == Some(who) && s.holding == [] && s.outbox == []
    requires s.program == [WithdrawAsset([a])] + ([ClearOrigin] + pay)
    requires IsNative(cfg.self, a.id) && 0 < a.amount <= Balance(s.ledger, who)
    ensures c1 == Tick(cfg, s) && c2 == Tick(cfg, c1) && c1.outbox == []
    ensures c2 == s.(program := pay, origin := None, holding := [a],
                     ledger := Write(cfg.ed, s.ledger, who, Balance(s.ledger, who) - a.amount))
  {
    FirstTick(cfg, s, from, who, a, [ClearOrigin] + pay);
    c1 := s.(program := [ClearOrigin] + pay, holding := [a],
             ledger := Write(cfg.ed, s.ledger, who, Balance(s.ledger, who) - a.amount));
    ClearTick(cfg, c1, pay);
    c2 := c1.(program := pay, origin := None);
  }

  /** And two more: pay, and end. */
  lemma HomewardTicks(cfg: Config, away: ParaId, c: Chain, n: nat, to: Location)
    returns (c1: Chain, c2: Chain, c3: Chain, c4: Chain)
    requires cfg.self != away && Idle(c) && c.outbox == [] && AccountOf(to).Some?
    requires 0 < n <= Balance(c.ledger, SovereignAccount(away))
    ensures c1 == Tick(cfg, Start(c, Sibling(away), Recall(cfg.self, away, n, [DepositAsset(All, to)])))
    ensures c2 == Tick(cfg, c1) && c3 == Tick(cfg, c2) && c4 == Tick(cfg, c3)
    ensures c1.outbox == c2.outbox == c3.outbox == c4.outbox == []
    ensures var who := SovereignAccount(away);
            var drawn := Write(cfg.ed, c.ledger, who, Balance(c.ledger, who) - n);
            c4 == Settled(c, None, Sibling(away), Deposit(cfg.ed, drawn, AccountOf(to).value, n))
  {
    var pay := [DepositAsset(All, to)];
    HomeIdIsNative(cfg.self, away);
    var a := Asset(HomeId(cfg.self, away).value, n);
    var s := Start(c, Sibling(away), Recall(cfg.self, away, n, pay));
    assert s.program == [WithdrawAsset([a])] + ([ClearOrigin] + pay);
    c1, c2 := DrawTicks(cfg, s, Sibling(away), SovereignAccount(away), a, pay);
    PayTick(cfg, c2, a, to);
    c3 := Tick(cfg, c2);
    EndTick(cfg, c3);
    c4 := Tick(cfg, c3);
  }

  lemma FourHome(p: Pair, w: World, c1: Chain, c2: Chain, c3: Chain, c4: Chain)
    requires w.home.outbox == c1.outbox == c2.outbox == c3.outbox == c4.outbox == []
    requires c1 == Tick(p.home, w.home) && c2 == Tick(p.home, c1) && c3 == Tick(p.home, c2) && c4 == Tick(p.home, c3)
    ensures Advance(p, Advance(p, Advance(p, Advance(p, w, StepHome), StepHome), StepHome), StepHome) == w.(home := c4)
  {
    HomeTick(p, w);
    HomeTick(p, w.(home := c1));
    HomeTick(p, w.(home := c2));
    HomeTick(p, w.(home := c3));
  }

  lemma RecallDelivered(p: Pair, w: World, n: nat, to: Location)
    requires p.home.self != p.away.self && Idle(w.home) && w.homeward != []
    requires w.homeward[|w.homeward| - 1] == Recall(p.home.self, p.away.self, n, [DepositAsset(All, to)])
    ensures var recall := Recall(p.home.self, p.away.self, n, [DepositAsset(All, to)]);
            Advance(p, w, DeliverHome(|w.homeward| - 1, recall))
            == w.(home := Start(w.home, Sibling(p.away.self), recall), homeward := w.homeward[..|w.homeward| - 1])
  {
    var pay := [DepositAsset(All, to)];
    var recall := Recall(p.home.self, p.away.self, n, pay);
    assert !Barrier.Denied(recall) by {
      assert recall[2] == pay[0];
    }
    assert B.Without(w.homeward, |w.homeward| - 1) == w.homeward[..|w.homeward| - 1];
  }

  lemma HomewardLeg(p: Pair, w: World, n: nat, to: Location)
    requires p.home.self != p.away.self && Idle(w.home) && w.home.outbox == [] && AccountOf(to).Some?
    requires 0 < n <= Balance(w.home.ledger, SovereignAccount(p.away.self))
    requires w.homeward != [] && w.homeward[|w.homeward| - 1] == Recall(p.home.self, p.away.self, n, [DepositAsset(All, to)])
    ensures CanBecome(p, w, AfterPaying(p, w, n, to))
  {
    var recall := Recall(p.home.self, p.away.self, n, [DepositAsset(All, to)]);
    RecallDelivered(p, w, n, to);
    var c1, c2, c3, c4 := HomewardTicks(p.home, p.away.self, w.home, n, to);
    EventThenFour(p, w, DeliverHome(|w.homeward| - 1, recall), c1, c2, c3, c4);
  }

  lemma EventThenFour(p: Pair, w: World, e: WorldEvent, c1: Chain, c2: Chain, c3: Chain, c4: Chain)
    requires var v := Advance(p, w, e);
             v.home.outbox == c1.outbox == c2.outbox == c3.outbox == c4.outbox == [] && c1 == Tick(p.home, v.home)
    requires c2 == Tick(p.home, c1) && c3 == Tick(p.home, c2) && c4 == Tick(p.home, c3)
    ensures CanBecome(p, w, Advance(p, w, e).(home := c4))
  {
    FourHome(p, Advance(p, w, e), c1, c2, c3, c4);
    RunFive(p, w, e, StepHome);
    Becomes(p, w, [e, StepHome, StepHome, StepHome, StepHome]);
  }

  /** Both chains settled, the queues as they were, and the ledger drawn on twice and paid into twice. */
  function AfterTrip(p: Pair, w: World, payer: Account, n: nat, to: Location): World
    requires Balance(w.home.ledger, payer) >= n && AccountOf(to).Some?
    requires Balance(Sent(p, w.home.ledger, payer, n), SovereignAccount(p.away.self)) >= n
  {
    var sent, who := Sent(p, w.home.ledger, payer, n), SovereignAccount(p.away.self);
    var drawn := Write(p.home.ed, sent, who, Balance(sent, who) - n);
    w.(home := Settled(w.home, None, Sibling(p.away.self), Deposit(p.home.ed, drawn, AccountOf(to).value, n)),
       away := Settled(w.away, None, Sibling(p.home.self), w.away.ledger))
  }

  lemma TwoLegs(p: Pair, w: World, origin: Location, payer: Account, n: nat, to: Location)
    requires Ready(p, w, origin, payer, n) && AccountOf(to).Some?
    ensures var w1 := AfterSending(p, w, origin, payer, n, to);
            CanBecome(p, w, AfterReturning(p, w1, n, to))
  {
    var w1 := AfterSending(p, w, origin, payer, n, to);
    OutwardLeg(p, w, origin, payer, n, to);
    AwayLeg(p, w1, n, to);
    BecomesThen(p, w, w1, AfterReturning(p, w1, n, to));
  }

  lemma QueuesAsBefore(p: Pair, w: World, origin: Location, payer: Account, n: nat, to: Location)
    requires p.home.self != p.away.self && Balance(w.home.ledger, payer) >= n && AccountOf(to).Some?
    requires Balance(Sent(p, w.home.ledger, payer, n), SovereignAccount(p.away.self)) >= n
    ensures var w2 := AfterReturning(p, AfterSending(p, w, origin, payer, n, to), n, to);
            AfterPaying(p, w2, n, to) == AfterTrip(p, w, payer, n, to)
  {
    var w1 := AfterSending(p, w, origin, payer, n, to);
    var w2 := AfterReturning(p, w1, n, to);
    assert w1.outward[..|w.outward|] == w.outward;
    assert w2.homeward[..|w.homeward|] == w.homeward;
  }

  /** The three legs one after the other. */
  lemma ThreeLegs(p: Pair, w: World, origin: Location, payer: Account, n: nat, to: Location)
    requires Ready(p, w, origin, payer, n) && AccountOf(to).Some?
    requires Balance(Sent(p, w.home.ledger, payer, n), SovereignAccount(p.away.self)) >= n
    ensures CanBecome(p, w, AfterTrip(p, w, payer, n, to))
  {
    var w2 := AfterReturning(p, AfterSending(p, w, origin, payer, n, to), n, to);
    TwoLegs(p, w, origin, payer, n, to);
    HomewardLeg(p, w2, n, to);
    BecomesThen(p, w, w2, AfterPaying(p, w2, n, to));
    QueuesAsBefore(p, w, origin, payer, n, to);
  }

  lemma OwedAfter(p: Pair, w: World, l: L.Ledger)
    requires Idle(w.home) && Idle(w.away)
    ensures var v := w.(home := Settled(w.home, None, Sibling(p.away.self), l),
                        away := Settled(w.away, None, Sibling(p.home.self), w.away.ledger));
            Owed(p, v) == Owed(p, w) && Idle(v.home) && Idle(v.away)
  {
  }

  /**
   There and back: from every state of the two chains in which both are idle, whoever has the
   amount at home can send it over and have it paid out to any account.  Afterwards both
   queues and the other chain's assets are as before, the beneficiary has the amount, the
   sovereign account what it had (if it can live on that), and no other account but the
   sender's has changed.
   */
  lemma TripCompletes(p: Pair, w: World, origin: Location, payer: Account, n: nat, to: Location)
    returns (events: seq<WorldEvent>)
    requires Ready(p, w, origin, payer, n) && n >= p.home.ed && AccountOf(to).Some?
    requires AccountOf(to).value != SovereignAccount(p.away.self)
    ensures var v, ed, who, payee := RunWorld(p, w, events), p.home.ed, SovereignAccount(p.away.self), AccountOf(to).value;
            var left := Write(ed, w.home.ledger, payer, Balance(w.home.ledger, payer) - n);
            && v.outward == w.outward && v.homeward == w.homeward && Idle(v.home) && Idle(v.away)
            && v.away.traps == w.away.traps && Owed(p, v) == Owed(p, w)
            && Balance(v.home.ledger, payee) == Balance(left, payee) + n
            && Balance(v.home.ledger, who) == Lives(ed, Balance(w.home.ledger, who))
            && forall other :: other !in {payer, payee, who} ==> Balance(v.home.ledger, other) == Balance(w.home.ledger, other)
  {
    var who := SovereignAccount(p.away.self);
    PayerIsAnother(p, origin, payer);
    LedgerThereAndBack(p.home.ed, w.home.ledger, payer, who, AccountOf(to).value, n);
    ThreeLegs(p, w, origin, payer, n, to);
    var v := AfterTrip(p, w, payer, n, to);
    events :| RunWorld(p, w, events) == v;
    OwedAfter(p, w, v.home.ledger);
  }

  lemma PayerIsAnother(p: Pair, origin: Location, payer: Account)
    requires B.Outsider(p.away.self, origin) && AccountOf(origin) == Some(payer)
    ensures payer != SovereignAccount(p.away.self)
  {
    WhoReachesSovereign(origin, p.away.self);
    assert Descend(origin, []) == origin;
  }

  lemma LedgerThereAndBack(ed: nat, l: L.Ledger, payer: Account, who: Account, payee: Account, n: nat)
    requires payer != who && payee != who && ed <= n && 0 < n <= Balance(l, payer)
    ensures var left := Write(ed, l, payer, Balance(l, payer) - n);
            var sent := Deposit(ed, left, who, n);
            var drawn := Write(ed, sent, who, Balance(sent, who) - n);
            var end := Deposit(ed, drawn, payee, n);
            && Balance(sent, who) == Balance(l, who) + n
            && Balance(end, payee) == Balance(left, payee) + n && Balance(end, who) == Lives(ed, Balance(l, who))
            && forall other :: other !in {payer, payee, who} ==> Balance(end, other) == Balance(l, other)
  {
  }
}
