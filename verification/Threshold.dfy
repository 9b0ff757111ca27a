/**
 How much the sovereign account must hold beyond what is owed.  Anything below the
 existential deposit is not enough: a withdrawal can leave the account below it, the
 remainder is reaped, and the next small deposit is lost although it was announced.
 */
module Threshold {
  import opened Prelude
  import opened Locations
  import opened L = Ledger
  import opened Assets
  import opened Executor
  import opened C = Conservation
  import opened Backing
  import opened TwoChains
  import B = Bridge

  /** A surplus suffices when no run from any state that has it ever ends uncovered. */
  ghost predicate Suffices(p: Pair, surplus: nat) {
    forall w, events | Sound(p, w) && BackedBy(p, w, surplus) :: BackedBy(p, RunWorld(p, w, events), 0)
  }

  /** Four instructions. */
  const PRICE: nat := 4 * UNIT_WEIGHT

  const TEER_ID: AssetId := Concrete(SELF_RESERVE)

  /** Brings TEER home, pays for it, and sends what is left straight back. */
  function ThereAndBack(away: ParaId): Program {
    [WithdrawAsset([Asset(TEER_ID, PRICE + 1)]), ClearOrigin,
     BuyExecution(Asset(TEER_ID, PRICE), Limited(PRICE)),
     DepositReserveAsset(All, Sibling(away), [])]
  }

  function Exposed(p: Pair): World
  {
    var ledger := L.Ledger(map[SovereignAccount(p.away.self) := p.home.ed + PRICE], 0);
    World(EMPTY_CHAIN.(ledger := ledger), EMPTY_CHAIN, [], [ThereAndBack(p.away.self)])
  }

  lemma FirstTick(cfg: Config, c: Chain, from: Location, who: Account, a: Asset, rest: Program)
    requires c.running && c.program == [WithdrawAsset([a])] + rest && c.origin == Some(from) && c.holding == []
    requires AccountOf(from) == Some(who) && IsNative(cfg.self, a.id)
    requires 0 < a.amount <= Balance(c.ledger, who)
    ensures Tick(cfg, c) == c.(program := rest, holding := [a],
                               ledger := Write(cfg.ed, c.ledger, who, Balance(c.ledger, who) - a.amount))
  {
    var d := c.(program := rest);
    assert c.program[1..] == rest && c.program[0] == WithdrawAsset([a]);
    assert [a][1..] == [];
    var e := d.(holding := [a], ledger := Write(cfg.ed, c.ledger, who, Balance(c.ledger, who) - a.amount));
    assert WithdrawEach(cfg, d, from, [a]) == WithdrawEach(cfg, e, from, []) == Done(e);
  }

  lemma BuyTick(cfg: Config, c: Chain, price: nat, rest: Program)
    requires c.running && c.holding == [Asset(TEER_ID, price + 1)] && price > 0
    requires c.program == [BuyExecution(Asset(TEER_ID, price), Limited(price))] + rest
    ensures Tick(cfg, c) == c.(program := rest, holding := [Asset(TEER_ID, 1)], fees := c.fees + price)
  {
    assert c.program[1..] == rest;
    assert c.holding[1..] == [];
    assert AmountOf(c.holding, TEER_ID) == price + 1;
    assert Remove(c.holding, TEER_ID, price) == [Asset(TEER_ID, 1)];
  }

  lemma LostDepositTick(cfg: Config, c: Chain, away: ParaId)
    requires c.running && c.holding == [Asset(TEER_ID, 1)] && c.outbox == []
    requires c.program == [DepositReserveAsset(All, Sibling(away), [])]
    requires cfg.self != away && cfg.ed >= 2 && cfg.routable(Sibling(away))
    requires SovereignAccount(away) !in c.ledger.accounts
    ensures var d := Tick(cfg, c);
            && Balance(d.ledger, SovereignAccount(away)) == 0
            && InFlight(Mint, DerivativeOf(cfg.self), AddressedTo(Sibling(away), d.outbox)) == 1
  {
    var taken := [Asset(TEER_ID, 1)];
    var c' := c.(program := []);
    assert c.program[1..] == [];
    ConverterIsExact(cfg.self, SELF_RESERVE);
    var lost := c'.(holding := [], ledger := c.ledger.(dust := c.ledger.dust + 1));
    assert taken[1..] == [];
    assert DepositEach(cfg, c'.(holding := []), taken, Sibling(away)) == DepositEach(cfg, lost, [], Sibling(away)) == Done(lost);
    var program := [ReserveAssetDeposited(Images(cfg.rank, cfg.self, taken, Sibling(away))), ClearOrigin] + [];
    assert Execute(cfg, c', c.program[0]) == Send(cfg, lost, Sibling(away), program);
    DepositsAreAnnounced(cfg, away, taken, []);
    assert Sum(NativeTo(cfg.self), taken) == 1;
    OneAddressed(Sibling(away), Message(Sibling(away), program));
    assert [program][1..] == [];
  }

  lemma ExposedIsBacked(p: Pair)
    requires p.home.self != p.away.self && p.home.ed >= 1
    ensures Sound(p, Exposed(p)) && BackedBy(p, Exposed(p), p.home.ed - 1)
  {
    var w, k, trip := Exposed(p), NativeTo(p.home.self), ThereAndBack(p.away.self);
    var a := Asset(TEER_ID, PRICE + 1);
    ConverterIsExact(p.home.self, SELF_RESERVE);
    assert trip == [WithdrawAsset([a]), ClearOrigin] + trip[2..];
    SentExposure(Debit, k, WithdrawAsset([a]), trip[2..]);
    assert Sum(k, [a]) == PRICE + 1;
    assert w.homeward[1..] == [];
    assert InFlight(Debit, k, w.homeward) == Exposure(Debit, k, trip) == PRICE + 1;
    assert Held(DerivativeOf(p.home.self), w.away) == 0;
  }

  /** The trip at home, from the account it reaps to the deposit it loses. */
  lemma TripTicks(cfg: Config, away: ParaId, c: Chain) returns (c1: Chain, c2: Chain, c3: Chain)
    requires cfg.self != away && cfg.ed >= 2 && cfg.routable(Sibling(away))
    requires c.running && c.program == ThereAndBack(away) && c.origin == Some(Sibling(away))
    requires c.holding == [] && c.outbox == [] && Balance(c.ledger, SovereignAccount(away)) == cfg.ed + PRICE
    ensures c1 == Tick(cfg, c) && c2 == Tick(cfg, c1) && c3 == Tick(cfg, c2)
    ensures c1.outbox == c2.outbox == c3.outbox == []
    ensures var d := Tick(cfg, c3);
            && Balance(d.ledger, SovereignAccount(away)) == 0
            && InFlight(Mint, DerivativeOf(cfg.self), AddressedTo(Sibling(away), d.outbox)) == 1
  {
    var last := DepositReserveAsset(All, Sibling(away), []);
    var rest := [BuyExecution(Asset(TEER_ID, PRICE), Limited(PRICE))] + [last];
    var a, who := Asset(TEER_ID, PRICE + 1), SovereignAccount(away);
    ConverterIsExact(cfg.self, SELF_RESERVE);
    assert c.program == [WithdrawAsset([a])] + ([ClearOrigin] + rest);
    FirstTick(cfg, c, Sibling(away), who, a, [ClearOrigin] + rest);
    c1 := Tick(cfg, c);
    ClearTick(cfg, c1, rest);
    c2 := Tick(cfg, c1);
    BuyTick(cfg, c2, PRICE, [last]);
    c3 := Tick(cfg, c2);
    assert c3.ledger == Write(cfg.ed, c.ledger, who, cfg.ed - 1);
    LostDepositTick(cfg, c3, away);
  }

  lemma ClearTick(cfg: Config, c: Chain, rest: Program)
    requires c.running && c.program == [ClearOrigin] + rest
    ensures Tick(cfg, c) == c.(program := rest, origin := None)
  {
    assert c.program[1..] == rest;
  }

  /** Started with one unit less than the existential deposit to spare, the return trip ends uncovered. */
  lemma ReturnTripUncovers(p: Pair)
    requires p.home.self != p.away.self && p.home.ed >= 2 && p.home.routable(Sibling(p.away.self))
    ensures Sound(p, Exposed(p)) && BackedBy(p, Exposed(p), p.home.ed - 1)
    ensures var events := [DeliverHome(0, ThereAndBack(p.away.self)), StepHome, StepHome, StepHome, StepHome];
            !BackedBy(p, RunWorld(p, Exposed(p), events), 0)
  {
    ExposedIsBacked(p);
    var w0, away, trip := Exposed(p), p.away.self, ThereAndBack(p.away.self);
    assert B.Admitted(w0.homeward, 0, trip, w0.home);
    var w := Advance(p, w0, DeliverHome(0, trip));
    var c1, c2, c3 := TripTicks(p.home, away, w.home);
    HomeTick(p, w);
    HomeTick(p, w.(home := c1));
    HomeTick(p, w.(home := c2));
    HomeTick(p, w.(home := c3));
    var outward := AddressedTo(Sibling(away), Tick(p.home, c3).outbox);
    assert w.outward + outward == outward;
    RunFive(p, w0, DeliverHome(0, trip), StepHome);
  }

  lemma HomeTick(p: Pair, w: World)
    requires w.home.outbox == []
    ensures var c := Tick(p.home, w.home);
            Advance(p, w, StepHome)
            == w.(home := c.(outbox := []), outward := w.outward + AddressedTo(Sibling(p.away.self), c.outbox))
    ensures var c := Tick(p.home, w.home);
            c.outbox == [] ==> Advance(p, w, StepHome) == w.(home := c)
  {
    assert w.home.(outbox := []) == w.home;
    assert w.outward + [] == w.outward;
  }

  lemma RunFour(p: Pair, w: World, e: WorldEvent, s: WorldEvent)
    ensures RunWorld(p, w, [e, s, s, s]) == Advance(p, Advance(p, Advance(p, Advance(p, w, e), s), s), s)
  {
    assert [e, s, s, s][1..] == [s, s, s];
    assert [s, s, s][1..] == [s, s];
    assert [s, s][1..] == [s];
    assert [s][1..] == [];
    var w1 := Advance(p, w, e);
    var w2 := Advance(p, w1, s);
    var w3 := Advance(p, w2, s);
    assert RunWorld(p, w3, [s]) == RunWorld(p, Advance(p, w3, s), []);
    assert RunWorld(p, w2, [s, s]) == RunWorld(p, w3, [s]);
    assert RunWorld(p, w1, [s, s, s]) == RunWorld(p, w2, [s, s]);
  }

  lemma RunFive(p: Pair, w: World, e: WorldEvent, s: WorldEvent)
    ensures RunWorld(p, w, [e, s, s, s, s])
            == Advance(p, Advance(p, Advance(p, Advance(p, Advance(p, w, e), s), s), s), s)
  {
    assert [e, s, s, s, s][1..] == [s, s, s, s];
    RunFour(p, Advance(p, w, e), s, s);
  }

  /** Exactly the surpluses of at least the existential deposit suffice (none is needed if that is at most one unit). */
  lemma SurplusThreshold(p: Pair, surplus: nat)
    requires p.home.self != p.away.self && p.home.routable(Sibling(p.away.self))
    ensures Suffices(p, surplus) <==> surplus >= Cushion(p.home.ed)
  {
    if surplus >= Cushion(p.home.ed) {
      forall w, events | Sound(p, w) && BackedBy(p, w, surplus) ensures BackedBy(p, RunWorld(p, w, events), 0) {
        ReserveBacking(p, w, events);
      }
    } else {
      ReturnTripUncovers(p);
      assert BackedBy(p, Exposed(p), surplus);
    }
  }

  /** The same for all siblings that keep the reserve contract. */
  ghost predicate SufficesForAny(home: Config, away: ParaId, surplus: nat) {
    forall s, events | B.Sound(home, away, s) && B.BackedBy(home, away, s, surplus) ::
      B.BackedBy(home, away, B.Run(home, away, s, events), 0)
  }

  /** The threshold is the same: this configuration is already the worst sibling. */
  lemma AnySiblingThreshold(home: Config, away: ParaId, surplus: nat)
    requires home.self != away && home.routable(Sibling(away))
    ensures SufficesForAny(home, away, surplus) <==> surplus >= Cushion(home.ed)
  {
    if surplus >= Cushion(home.ed) {
      forall s, events | B.Sound(home, away, s) && B.BackedBy(home, away, s, surplus)
        ensures B.BackedBy(home, away, B.Run(home, away, s, events), 0)
      {
        B.AnySiblingBacked(home, away, s, events);
      }
    } else {
      var p := Pair(home, home.(self := away));
      var w, events := Exposed(p), [DeliverHome(0, ThereAndBack(away)), StepHome, StepHome, StepHome, StepHome];
      ReturnTripUncovers(p);
      var bs := RunSimulates(p, w, events);
      assert B.BackedBy(home, away, ContractView(p, w), surplus);
      assert !B.BackedBy(home, away, B.Run(home, away, ContractView(p, w), bs), 0);
    }
  }

  // ---------------------------------------------------------------------------
  // From the very start
  // ---------------------------------------------------------------------------

  /** Nothing has reached the other chain yet, nothing is owed, and its sovereign account does not exist. */
  ghost predicate AtStart(p: Pair, w: World) {
    && Sound(p, w) && Idle(w.home) && Owed(p, w) == 0
    && SovereignAccount(p.away.self) !in w.home.ledger.accounts
  }

  /** Three instructions. */
  const SEND_PRICE: nat := 3 * UNIT_WEIGHT

  /** Pays for its execution and sends the one unit left to the other chain. */
  function SendOne(away: ParaId): Program {
    [WithdrawAsset([Asset(TEER_ID, SEND_PRICE + 1)]),
     BuyExecution(Asset(TEER_ID, SEND_PRICE), Limited(SEND_PRICE)),
     DepositReserveAsset(All, Sibling(away), [])]
  }

  lemma WeighPlain(i: Instruction, rest: Program)
    requires !i.SetErrorHandler? && !i.SetAppendix?
    ensures Weigh([i] + rest) == UNIT_WEIGHT + Weigh(rest)
  {
    assert ([i] + rest)[1..] == rest;
  }

  /** Both messages buy exactly what they weigh. */
  lemma TripsPayTheirWeight(away: ParaId)
    ensures Weigh(ThereAndBack(away)) == PRICE == 800_000_000 && Weigh(SendOne(away)) == SEND_PRICE == 600_000_000
  {
    var trip, send := ThereAndBack(away), SendOne(away);
    assert trip == [trip[0]] + ([trip[1]] + ([trip[2]] + ([trip[3]] + [])));
    WeighPlain(trip[3], []);
    WeighPlain(trip[2], [trip[3]] + []);
    WeighPlain(trip[1], [trip[2]] + ([trip[3]] + []));
    WeighPlain(trip[0], [trip[1]] + ([trip[2]] + ([trip[3]] + [])));
    assert send == [send[0]] + ([send[1]] + ([send[2]] + []));
    WeighPlain(send[2], []);
    WeighPlain(send[1], [send[2]] + []);
    WeighPlain(send[0], [send[1]] + ([send[2]] + []));
  }

  lemma SendTicks(cfg: Config, away: ParaId, other: ParaId, c: Chain) returns (c1: Chain, c2: Chain)
    requires cfg.self != away && other != away && cfg.ed >= 2 && cfg.routable(Sibling(away))
    requires c.running && c.program == SendOne(away) && c.origin == Some(Sibling(other))
    requires c.holding == [] && c.outbox == [] && Balance(c.ledger, SovereignAccount(other)) > SEND_PRICE
    requires SovereignAccount(away) !in c.ledger.accounts
    ensures c1 == Tick(cfg, c) && c2 == Tick(cfg, c1)
    ensures c1.outbox == c2.outbox == []
    ensures var d := Tick(cfg, c2);
            && Balance(d.ledger, SovereignAccount(away)) == 0
            && InFlight(Mint, DerivativeOf(cfg.self), AddressedTo(Sibling(away), d.outbox)) == 1
  {
    var last := DepositReserveAsset(All, Sibling(away), []);
    var buy := BuyExecution(Asset(TEER_ID, SEND_PRICE), Limited(SEND_PRICE));
    var a, who := Asset(TEER_ID, SEND_PRICE + 1), SovereignAccount(other);
    ConverterIsExact(cfg.self, SELF_RESERVE);
    SovereignAccountsAreDistinct(other, away);
    assert c.program == [WithdrawAsset([a])] + [buy, last];
    FirstTick(cfg, c, Sibling(other), who, a, [buy, last]);
    c1 := Tick(cfg, c);
    assert c1.program == [buy] + [last];
    BuyTick(cfg, c1, SEND_PRICE, [last]);
    c2 := Tick(cfg, c1);
    LostDepositTick(cfg, c2, away);
  }

  /**
   One paid message of any third chain with TEER here, asking to send the other chain its
   first unit, is enough: the deposit into the missing account is lost, yet announced.
   */
  lemma FirstUnitUncovers(p: Pair, w: World, other: ParaId)
    requires AtStart(p, w) && p.home.ed >= 2 && p.home.routable(Sibling(p.away.self))
    requires other != p.away.self && Balance(w.home.ledger, SovereignAccount(other)) > SEND_PRICE
    ensures var events := [OutsiderHome(Sibling(other), SendOne(p.away.self)), StepHome, StepHome, StepHome];
            !BackedBy(p, RunWorld(p, w, events), 0)
  {
    var away, send := p.away.self, SendOne(p.away.self);
    var e := OutsiderHome(Sibling(other), send);
    var w1 := Advance(p, w, e);
    var c1, c2 := SendTicks(p.home, away, other, w1.home);
    HomeTick(p, w1);
    HomeTick(p, w1.(home := c1));
    HomeTick(p, w1.(home := c2));
    InFlightAppend(Mint, DerivativeOf(p.home.self), w.outward, AddressedTo(Sibling(away), Tick(p.home, c2).outbox));
    RunFour(p, w, e, StepHome);
  }

  /** Both chains empty but for what a third chain holds at home. */
  function FirstWorld(p: Pair, other: ParaId): World {
    var ledger := L.Ledger(map[SovereignAccount(other) := p.home.ed + SEND_PRICE], 0);
    World(EMPTY_CHAIN.(ledger := ledger), EMPTY_CHAIN, [], [])
  }

  lemma FirstWorldIsAtStart(p: Pair, other: ParaId)
    requires p.home.self != p.away.self && other != p.away.self
    ensures AtStart(p, FirstWorld(p, other))
  {
    SovereignAccountsAreDistinct(other, p.away.self);
    assert Held(DerivativeOf(p.home.self), EMPTY_CHAIN) == 0;
  }

  ghost predicate AlwaysCoveredFromStart(p: Pair) {
    forall w, events | AtStart(p, w) :: BackedBy(p, RunWorld(p, w, events), 0)
  }

  lemma NotAlwaysCovered(p: Pair, other: ParaId)
    requires p.home.self != p.away.self && other != p.away.self
    requires p.home.ed >= 2 && p.home.routable(Sibling(p.away.self))
    ensures !AlwaysCoveredFromStart(p)
  {
    var w := FirstWorld(p, other);
    FirstWorldIsAtStart(p, other);
    FirstWorldIsFunded(p, other);
    SomeRunUncovers(p, w, other);
  }

  lemma FirstWorldIsFunded(p: Pair, other: ParaId)
    ensures Balance(FirstWorld(p, other).home.ledger, SovereignAccount(other)) == p.home.ed + SEND_PRICE
  {
  }

  lemma SomeRunUncovers(p: Pair, w: World, other: ParaId)
    requires AtStart(p, w) && p.home.ed >= 2 && p.home.routable(Sibling(p.away.self))
    requires other != p.away.self && Balance(w.home.ledger, SovereignAccount(other)) > SEND_PRICE
    ensures exists events :: !BackedBy(p, RunWorld(p, w, events), 0)
  {
    FirstUnitUncovers(p, w, other);
  }

  /** Two chains that start with nothing owed stay covered in every run exactly when no amount is ever dust. */
  lemma CoveredFromStartIff(p: Pair)
    requires p.home.self != p.away.self && p.home.routable(Sibling(p.away.self))
    ensures AlwaysCoveredFromStart(p) <==> p.home.ed <= 1
  {
    if p.home.ed <= 1 {
      forall w, events | AtStart(p, w) ensures BackedBy(p, RunWorld(p, w, events), 0) {
        ReserveBacking(p, w, events);
      }
    } else {
      var both := {p.home.self, p.away.self};
      NotAlwaysCovered(p, if 0 !in both then 0 else if 1 !in both then 1 else 2);
    }
  }
}
