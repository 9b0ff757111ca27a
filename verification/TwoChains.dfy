/**
 Two chains running this configuration, connected by messages in both directions.  The
 second one is a sibling that keeps the reserve contract, so the TEER of `home` that exists
 on `away`, or is on its way there or back, is covered as the contract promises.
 */
module TwoChains {
  import opened Prelude
  import opened Locations
  import opened L = Ledger
  import opened Assets
  import opened Executor
  import opened C = Conservation
  import opened Backing
  import B = Bridge

  datatype Pair = Pair(home: Config, away: Config)

  datatype World = World(home: Chain, away: Chain, outward: seq<Program>, homeward: seq<Program>)

  /**
   One chain runs an instruction, a message between the two is delivered past the
   barrier or is lost, somebody else's message arrives, or a signed transfer is
   made at home.  Messages may be delivered in any order.
   */
  datatype WorldEvent =
    | StepHome
    | StepAway
    | DeliverAway(index: nat, program: Program)
    | DeliverHome(index: nat, program: Program)
    | LoseAway(index: nat)
    | LoseHome(index: nat)
    | OutsiderHome(origin: Location, program: Program)
    | OutsiderAway(origin: Location, program: Program)
    | TransferHome(from: Account, to: Account, amount: nat)

  function Advance(p: Pair, w: World, e: WorldEvent): World {
    match e
    case StepHome =>
      var c := Tick(p.home, w.home.(outbox := []));
      w.(home := c.(outbox := []), outward := w.outward + AddressedTo(Sibling(p.away.self), c.outbox))
    case StepAway =>
      var c := Tick(p.away, w.away.(outbox := []));
      w.(away := c.(outbox := []), homeward := w.homeward + AddressedTo(Sibling(p.home.self), c.outbox))
    case DeliverAway(i, program) =>
      if !B.Admitted(w.outward, i, program, w.away) then w
      else w.(away := Start(w.away, Sibling(p.home.self), program), outward := B.Without(w.outward, i))
    case DeliverHome(i, program) =>
      if !B.Admitted(w.homeward, i, program, w.home) then w
      else w.(home := Start(w.home, Sibling(p.away.self), program), homeward := B.Without(w.homeward, i))
    case LoseAway(i) => if i < |w.outward| then w.(outward := B.Without(w.outward, i)) else w
    case LoseHome(i) => if i < |w.homeward| then w.(homeward := B.Without(w.homeward, i)) else w
    case OutsiderHome(origin, program) =>
      if Idle(w.home) && B.Outsider(p.away.self, origin) then w.(home := Start(w.home, origin, program)) else w
    case OutsiderAway(origin, program) =>
      if Idle(w.away) && origin != PARENT && origin != Sibling(p.home.self)
      then w.(away := Start(w.away, origin, program)) else w
    case TransferHome(from, to, amount) =>
      match Transfer(p.home.ed, w.home.ledger, from, to, amount)
      case None => w
      case Some(l) => if from == SovereignAccount(p.away.self) then w else w.(home := w.home.(ledger := l))
  }

  function RunWorld(p: Pair, w: World, events: seq<WorldEvent>): World
    decreases |events|
  {
    if events == [] then w else RunWorld(p, Advance(p, w, events[0]), events[1..])
  }

  /** Home TEER held on the other chain, or still to be credited there. */
  function SupplyAway(p: Pair, w: World): nat {
    Held(DerivativeOf(p.home.self), w.away)
    + Claims(Mint, DerivativeOf(p.home.self), Sibling(p.home.self), w.away)
  }

  /** The second chain as the contract sees it. */
  function ContractView(p: Pair, w: World): B.State {
    B.State(w.home, SupplyAway(p, w), w.outward, w.homeward)
  }

  /** Home TEER that exists on the other chain, is promised to it, or is on its way back. */
  function Owed(p: Pair, w: World): nat {
    B.Owed(p.home, p.away.self, ContractView(p, w))
  }

  predicate BackedBy(p: Pair, w: World, surplus: nat) {
    Balance(w.home.ledger, SovereignAccount(p.away.self)) >= surplus + Owed(p, w)
  }

  ghost predicate AwaySound(w: World) {
    w.away.outbox == [] && (w.away.running ==> AwayOrigin(w.away.origin))
  }

  ghost predicate Sound(p: Pair, w: World) {
    B.Sound(p.home, p.away.self, ContractView(p, w)) && AwaySound(w)
  }

  const NOTHING: B.Event := B.Act(0, [])

  lemma NothingChanges(home: Config, away: ParaId, s: B.State)
    ensures B.Advance(home, away, s, NOTHING) == s
  {
    assert s.homeward + [] == s.homeward;
  }

  lemma StepAwayActs(p: Pair, w: World) returns (b: B.Event)
    requires p.home.self != p.away.self && AwaySound(w)
    ensures AwaySound(Advance(p, w, StepAway))
    ensures ContractView(p, Advance(p, w, StepAway)) == B.Advance(p.home, p.away.self, ContractView(p, w), b)
  {
    TickBounds(p.away, p.home.self, w.away, SupplyAway(p, w));
    assert w.away.(outbox := []) == w.away;
    var sent := AddressedTo(Sibling(p.home.self), Tick(p.away, w.away).outbox);
    b := B.Act(SupplyAway(p, w) - SupplyAway(p, Advance(p, w, StepAway)), sent);
  }

  lemma DeliveryTakesIn(p: Pair, w: World, i: nat, program: Program) returns (b: B.Event)
    requires AwaySound(w)
    ensures AwaySound(Advance(p, w, DeliverAway(i, program)))
    ensures ContractView(p, Advance(p, w, DeliverAway(i, program))) == B.Advance(p.home, p.away.self, ContractView(p, w), b)
  {
    if B.Admitted(w.outward, i, program, w.away) {
      LimitsDoNotMatter(Mint, DerivativeOf(p.home.self), w.outward[i], program);
      b := B.TakeIn(i);
    } else {
      NothingChanges(p.home, p.away.self, ContractView(p, w));
      b := NOTHING;
    }
  }

  lemma OutsiderChangesNothing(p: Pair, w: World, origin: Location, program: Program)
    requires AwaySound(w)
    ensures var v := Advance(p, w, OutsiderAway(origin, program));
            AwaySound(v) && ContractView(p, v) == B.Advance(p.home, p.away.self, ContractView(p, w), NOTHING)
  {
    NothingChanges(p.home, p.away.self, ContractView(p, w));
  }

  /** Whatever happens at home or to the queues is told in the same words. */
  function SameEvent(e: WorldEvent): B.Event
    requires !e.StepAway? && !e.DeliverAway? && !e.OutsiderAway?
  {
    match e
    case StepHome => B.StepHome
    case DeliverHome(i, program) => B.DeliverHome(i, program)
    case LoseAway(i) => B.LoseAway(i)
    case LoseHome(i) => B.LoseHome(i)
    case OutsiderHome(origin, program) => B.OutsiderHome(origin, program)
    case TransferHome(from, to, amount) => B.TransferHome(from, to, amount)
  }

  lemma SameEffect(p: Pair, w: World, e: WorldEvent)
    requires !e.StepAway? && !e.DeliverAway? && !e.OutsiderAway?
    ensures Advance(p, w, e).away == w.away
    ensures ContractView(p, Advance(p, w, e)) == B.Advance(p.home, p.away.self, ContractView(p, w), SameEvent(e))
  {
  }

  /** Every step of the two chains is one that the contract allows. */
  lemma Simulates(p: Pair, w: World, e: WorldEvent) returns (b: B.Event)
    requires p.home.self != p.away.self && AwaySound(w)
    ensures AwaySound(Advance(p, w, e))
    ensures ContractView(p, Advance(p, w, e)) == B.Advance(p.home, p.away.self, ContractView(p, w), b)
  {
    if e.StepAway? {
      b := StepAwayActs(p, w);
    } else if e.DeliverAway? {
      b := DeliveryTakesIn(p, w, e.index, e.program);
    } else if e.OutsiderAway? {
      OutsiderChangesNothing(p, w, e.origin, e.program);
      b := NOTHING;
    } else {
      SameEffect(p, w, e);
      b := SameEvent(e);
    }
  }

  /** So every run of the two chains is a run against a sibling that keeps the contract. */
  lemma {:induction false} RunSimulates(p: Pair, w: World, events: seq<WorldEvent>) returns (bs: seq<B.Event>)
    requires p.home.self != p.away.self && AwaySound(w)
    ensures AwaySound(RunWorld(p, w, events))
    ensures ContractView(p, RunWorld(p, w, events)) == B.Run(p.home, p.away.self, ContractView(p, w), bs)
    decreases |events|
  {
    if events == [] {
      bs := [];
    } else {
      var b := Simulates(p, w, events[0]);
      var rest := RunSimulates(p, Advance(p, w, events[0]), events[1..]);
      bs := [b] + rest;
      assert bs[1..] == rest;
    }
  }

  /** Reserve backing: from any state with the cushion, every run of the two chains keeps it. */
  lemma ReserveBacking(p: Pair, w: World, events: seq<WorldEvent>)
    requires Sound(p, w) && BackedBy(p, w, Cushion(p.home.ed))
    ensures Sound(p, RunWorld(p, w, events)) && BackedBy(p, RunWorld(p, w, events), Cushion(p.home.ed))
  {
    var bs := RunSimulates(p, w, events);
    B.AnySiblingBacked(p.home, p.away.self, ContractView(p, w), bs);
  }

  /** From any state with any surplus, every later shortfall is dust lost at home since, less that surplus. */
  lemma ShortfallIsDust(p: Pair, w: World, events: seq<WorldEvent>, surplus: nat)
    requires Sound(p, w) && BackedBy(p, w, surplus)
    ensures var who, v := SovereignAccount(p.away.self), RunWorld(p, w, events);
            Sound(p, v) && Owed(p, v) + surplus + w.home.ledger.dust <= Balance(v.home.ledger, who) + v.home.ledger.dust
  {
    var bs := RunSimulates(p, w, events);
    B.AnySiblingShortfall(p.home, p.away.self, ContractView(p, w), bs, surplus);
  }

  /** Over every run the home supply stays what it was, and no more than that is ever owed. */
  lemma OwedStaysWithinSupply(p: Pair, w: World, events: seq<WorldEvent>)
    requires Sound(p, w) && BackedBy(p, w, 0)
    ensures Supply(p.home.self, RunWorld(p, w, events).home) == Supply(p.home.self, w.home)
    ensures Owed(p, RunWorld(p, w, events)) <= Supply(p.home.self, w.home)
  {
    var bs := RunSimulates(p, w, events);
    B.OwedStaysWithinSupply(p.home, p.away.self, ContractView(p, w), bs);
  }

  lemma LossIsOne<T>(s: seq<T>, i: nat)
    requires i < |s|
    ensures multiset(B.Without(s, i)) + multiset{s[i]} == multiset(s)
  {
    assert s == s[..i] + [s[i]] + s[i + 1..];
  }

  /** Messages are lost one at a time, and nothing else happens. */
  lemma LossesAct(p: Pair, w: World, i: nat)
    ensures i < |w.outward| ==>
              Advance(p, w, LoseAway(i)) == w.(outward := B.Without(w.outward, i))
              && multiset(B.Without(w.outward, i)) + multiset{w.outward[i]} == multiset(w.outward)
    ensures i < |w.homeward| ==>
              Advance(p, w, LoseHome(i)) == w.(homeward := B.Without(w.homeward, i))
              && multiset(B.Without(w.homeward, i)) + multiset{w.homeward[i]} == multiset(w.homeward)
  {
    if i < |w.outward| { LossIsOne(w.outward, i); }
    if i < |w.homeward| { LossIsOne(w.homeward, i); }
  }

  /**
   Other chains can start messages on an idle chain, and any transfer goes through that the
   ledger allows and the holder of the sovereign account does not sign.
   */
  lemma OutsidersAct(p: Pair, w: World, origin: Location, program: Program, from: Account, to: Account, amount: nat)
    ensures Idle(w.home) && B.Outsider(p.away.self, origin) ==>
              Advance(p, w, OutsiderHome(origin, program)).home == Start(w.home, origin, program)
    ensures Idle(w.away) && origin != PARENT && origin != Sibling(p.home.self) ==>
              Advance(p, w, OutsiderAway(origin, program)).away == Start(w.away, origin, program)
    ensures var t := Transfer(p.home.ed, w.home.ledger, from, to, amount);
            t.Some? && from != SovereignAccount(p.away.self) ==>
              Advance(p, w, TransferHome(from, to, amount)).home.ledger == t.value
  {
  }
}
