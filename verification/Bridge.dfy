/**
 The home chain against any sibling that keeps the reserve contract: it credits at most
 what the messages it takes in expose, and gives up what it announces as withdrawn at
 home.  Nothing else is assumed about it: how it stores derivatives, who owns them, or
 what its own messages do.
 */
module Bridge {
  import opened Prelude
  import opened Locations
  import opened L = Ledger
  import opened Assets
  import opened Executor
  import opened C = Conservation
  import opened Backing
  import Barrier

  /** `supply` is the home TEER that exists over there, or may still be credited for messages taken in. */
  datatype State = State(home: Chain, supply: nat, outward: seq<Program>, homeward: seq<Program>)

  /**
   Home runs an instruction, a message between the two arrives or is lost, the sibling
   gives derivatives up and sends messages for no more, somebody else's message arrives
   at home past the barrier, or a signed transfer is made there.  Messages may arrive in
   any order.
   */
  datatype Event =
    | StepHome
    | TakeIn(index: nat)
    | Act(spent: nat, sent: seq<Program>)
    | DeliverHome(index: nat, program: Program)
    | LoseAway(index: nat)
    | LoseHome(index: nat)
    | OutsiderHome(origin: Location, program: Program)
    | TransferHome(from: Account, to: Account, amount: nat)

  /** Neither the other chain, nor the relay chain or the chain itself, nor a signer of the sovereign account. */
  predicate Outsider(away: ParaId, origin: Location) {
    && origin != Sibling(away) && origin != PARENT && origin != HERE
    && !LocalSigner(origin, SovereignAccount(away))
  }

  function Without<T>(s: seq<T>, i: nat): seq<T>
    requires i < |s|
  {
    s[..i] + s[i + 1..]
  }

  predicate Admitted(queue: seq<Program>, i: nat, program: Program, c: Chain) {
    i < |queue| && Idle(c) && SameButLimits(queue[i], program) && !Barrier.Denied(program)
  }

  function Advance(home: Config, away: ParaId, s: State, e: Event): State {
    match e
    case StepHome =>
      var c := Tick(home, s.home.(outbox := []));
      s.(home := c.(outbox := []), outward := s.outward + AddressedTo(Sibling(away), c.outbox))
    case TakeIn(i) =>
      if i >= |s.outward| then s
      else s.(supply := s.supply + Exposure(Mint, DerivativeOf(home.self), s.outward[i]), outward := Without(s.outward, i))
    case Act(spent, sent) =>
      if InFlight(Debit, NativeTo(home.self), sent) <= spent <= s.supply
      then s.(supply := s.supply - spent, homeward := s.homeward + sent) else s
    case DeliverHome(i, program) =>
      if !Admitted(s.homeward, i, program, s.home) then s
      else s.(home := Start(s.home, Sibling(away), program), homeward := Without(s.homeward, i))
    case LoseAway(i) => if i < |s.outward| then s.(outward := Without(s.outward, i)) else s
    case LoseHome(i) => if i < |s.homeward| then s.(homeward := Without(s.homeward, i)) else s
    case OutsiderHome(origin, program) =>
      if Idle(s.home) && Outsider(away, origin) then s.(home := Start(s.home, origin, program)) else s
    case TransferHome(from, to, amount) =>
      match Transfer(home.ed, s.home.ledger, from, to, amount)
      case None => s
      case Some(l) => if from == SovereignAccount(away) then s else s.(home := s.home.(ledger := l))
  }

  function Run(home: Config, away: ParaId, s: State, events: seq<Event>): State
    decreases |events|
  {
    if events == [] then s else Run(home, away, Advance(home, away, s, events[0]), events[1..])
  }

  /** Home TEER that exists on the other chain, is promised to it, or is on its way back. */
  function Owed(home: Config, away: ParaId, s: State): nat {
    s.supply
    + InFlight(Mint, DerivativeOf(home.self), s.outward)
    + InFlight(Debit, NativeTo(home.self), s.homeward)
    + Claims(Debit, NativeTo(home.self), Sibling(away), s.home)
  }

  predicate BackedBy(home: Config, away: ParaId, s: State, surplus: nat) {
    Balance(s.home.ledger, SovereignAccount(away)) >= surplus + Owed(home, away, s)
  }

  predicate Covered(home: Config, away: ParaId, s: State, m: Margin) {
    Enough(m, home.ed, s.home.ledger, SovereignAccount(away), Owed(home, away, s))
  }

  ghost predicate Sound(home: Config, away: ParaId, s: State) {
    home.self != away && s.home.outbox == [] && (s.home.running ==> HomeOrigin(away, s.home.origin))
  }

  lemma StepCovered(home: Config, away: ParaId, s: State, m: Margin)
    requires Sound(home, away, s) && Covered(home, away, s, m)
    ensures var t := Advance(home, away, s, StepHome); Sound(home, away, t) && Covered(home, away, t, m)
  {
    var owed := Owed(home, away, s) - Claims(Debit, NativeTo(home.self), Sibling(away), s.home);
    TickCovers(home, away, s.home, owed, m);
    InFlightAppend(Mint, DerivativeOf(home.self), s.outward, AddressedTo(Sibling(away), Tick(home, s.home).outbox));
  }

  lemma DeliveryCovered(home: Config, away: ParaId, s: State, e: Event, m: Margin)
    requires Sound(home, away, s) && Covered(home, away, s, m)
    requires e.DeliverHome? || e.LoseHome?
    ensures var t := Advance(home, away, s, e); Sound(home, away, t) && Covered(home, away, t, m)
  {
    var k := NativeTo(home.self);
    if e.index < |s.homeward| {
      InFlightRemove(Debit, k, s.homeward, e.index);
      if e.DeliverHome? && Admitted(s.homeward, e.index, e.program, s.home) {
        LimitsDoNotMatter(Debit, k, s.homeward[e.index], e.program);
      }
    }
  }

  lemma SiblingCovered(home: Config, away: ParaId, s: State, e: Event, m: Margin)
    requires Sound(home, away, s) && Covered(home, away, s, m)
    requires e.TakeIn? || e.LoseAway? || e.Act?
    ensures var t := Advance(home, away, s, e); Sound(home, away, t) && Covered(home, away, t, m)
  {
    if e.Act? {
      InFlightAppend(Debit, NativeTo(home.self), s.homeward, e.sent);
    } else if e.index < |s.outward| {
      InFlightRemove(Mint, DerivativeOf(home.self), s.outward, e.index);
    }
  }

  lemma AdvanceCovered(home: Config, away: ParaId, s: State, e: Event, m: Margin)
    requires Sound(home, away, s) && Covered(home, away, s, m)
    ensures var t := Advance(home, away, s, e); Sound(home, away, t) && Covered(home, away, t, m)
  {
    match e
    case StepHome => StepCovered(home, away, s, m);
    case DeliverHome(_, _) => DeliveryCovered(home, away, s, e, m);
    case LoseHome(_) => DeliveryCovered(home, away, s, e, m);
    case OutsiderHome(origin, program) => WhoReachesSovereign(origin, away);
    case TransferHome(from, to, amount) =>
    case _ => SiblingCovered(home, away, s, e, m);
  }

  lemma {:induction false} RunCovered(home: Config, away: ParaId, s: State, events: seq<Event>, m: Margin)
    requires Sound(home, away, s) && Covered(home, away, s, m)
    ensures var t := Run(home, away, s, events); Sound(home, away, t) && Covered(home, away, t, m)
    decreases |events|
  {
    if events != [] {
      AdvanceCovered(home, away, s, events[0], m);
      RunCovered(home, away, Advance(home, away, s, events[0]), events[1..], m);
    }
  }

  /**
   Reserve backing against any such sibling: from any state whose sovereign account exceeds
   what is owed by the cushion, every run keeps it so, whatever the sibling does within its
   contract, whatever all other chains send, in whatever order messages arrive or get lost.
   */
  lemma AnySiblingBacked(home: Config, away: ParaId, s: State, events: seq<Event>)
    requires Sound(home, away, s) && BackedBy(home, away, s, Cushion(home.ed))
    ensures var t := Run(home, away, s, events); Sound(home, away, t) && BackedBy(home, away, t, Cushion(home.ed))
  {
    RunCovered(home, away, s, events, Cushioned);
  }

  /**
   Without any cushion, so from the very first state on: whatever the account held beyond
   what is owed at the start, every later shortfall is no more than the dust lost at home
   since, less that surplus.
   */
  lemma AnySiblingShortfall(home: Config, away: ParaId, s: State, events: seq<Event>, surplus: nat)
    requires Sound(home, away, s) && BackedBy(home, away, s, surplus)
    ensures var who, t := SovereignAccount(away), Run(home, away, s, events);
            && Sound(home, away, t)
            && Owed(home, away, t) + surplus + s.home.ledger.dust <= Balance(t.home.ledger, who) + t.home.ledger.dust
  {
    RunCovered(home, away, s, events, UpToDust(s.home.ledger.dust + surplus));
  }

  lemma AdvanceKeepsHomeSupply(home: Config, away: ParaId, s: State, e: Event)
    requires Sound(home, away, s)
    ensures Supply(home.self, Advance(home, away, s, e).home) == Supply(home.self, s.home)
  {
    match e
    case StepHome =>
      if s.home.running && s.home.origin == Some(HERE) {
        WhoReachesSovereign(HERE, away);
      }
      TickConserves(home, s.home.(outbox := []));
    case TransferHome(from, to, amount) => LedgerConserves(home.ed, s.home.ledger, from, to, amount);
    case _ =>
  }

  lemma {:induction false} RunKeepsHomeSupply(home: Config, away: ParaId, s: State, events: seq<Event>)
    requires Sound(home, away, s) && Covered(home, away, s, UpToDust(0))
    ensures Supply(home.self, Run(home, away, s, events).home) == Supply(home.self, s.home)
    decreases |events|
  {
    if events != [] {
      AdvanceCovered(home, away, s, events[0], UpToDust(0));
      AdvanceKeepsHomeSupply(home, away, s, events[0]);
      RunKeepsHomeSupply(home, away, Advance(home, away, s, events[0]), events[1..]);
    }
  }

  /** Over every run, cushion or not, the home supply stays what it was, and no more than that is ever owed. */
  lemma OwedStaysWithinSupply(home: Config, away: ParaId, s: State, events: seq<Event>)
    requires Sound(home, away, s) && BackedBy(home, away, s, 0)
    ensures Supply(home.self, Run(home, away, s, events).home) == Supply(home.self, s.home)
    ensures Owed(home, away, Run(home, away, s, events)) <= Supply(home.self, s.home)
  {
    RunKeepsHomeSupply(home, away, s, events);
    AnySiblingShortfall(home, away, s, events, 0);
    var accounts, who := Run(home, away, s, events).home.ledger.accounts, SovereignAccount(away);
    if who in accounts {
      SumWithout(accounts, who);
    }
  }
}
