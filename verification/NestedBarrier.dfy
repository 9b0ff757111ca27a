/**
 What the deny rule means for the runs of the messages it lets through.  It scans top-level
 instructions; programs to be run later as error handler or appendix are not looked into.
 */
module NestedBarrier {
  import opened Prelude
  import opened Locations
  import opened Assets
  import opened Executor
  import opened L = Ledger
  import opened Conservation
  import opened Backing
  import opened Effects
  import opened Barrier

  /** A scan that also looks into handlers and appendices, `depth` levels of programs in all. */
  predicate Found(depth: nat, p: Program)
    decreases p
  {
    depth > 0 && p != []
    && (|| ReserveTransferToRelay(p[0])
        || (match p[0]
            case SetErrorHandler(xcm) => Found(depth - 1, xcm)
            case SetAppendix(xcm) => Found(depth - 1, xcm)
            case _ => false)
        || Found(depth, p[1..]))
  }

  /** How many levels of handlers and appendices a program has below its own. */
  function Nesting(p: Program): nat
    decreases p
  {
    if p == [] then 0
    else
      var own := match p[0]
                 case SetErrorHandler(xcm) => 1 + Nesting(xcm)
                 case SetAppendix(xcm) => 1 + Nesting(xcm)
                 case _ => 0;
      var rest := Nesting(p[1..]);
      if own <= rest then rest else own
  }

  predicate Anywhere(p: Program) {
    Found(Nesting(p) + 1, p)
  }

  /** The deny rule is the scan of one level. */
  lemma {:induction false} DeniedIsOneLevel(p: Program)
    ensures Found(1, p) <==> Denied(p)
  {
    if p != [] {
      DeniedIsOneLevel(p[1..]);
      assert p == [p[0]] + p[1..];
      DenyIsOrderFree(HERE, HERE, [p[0]], p[1..], Weight(0, 0), Weight(0, 0));
      assert Denied([p[0]]) <==> ReserveTransferToRelay([p[0]][0]);
    }
  }

  /** More levels than a program has make no difference. */
  lemma {:induction false} DeepEnough(d: nat, e: nat, p: Program)
    requires d > Nesting(p) && e > Nesting(p)
    ensures Found(d, p) <==> Found(e, p)
    decreases p
  {
    if p != [] {
      DeepEnough(d, e, p[1..]);
      match p[0] {
        case SetErrorHandler(xcm) => DeepEnough(d - 1, e - 1, xcm);
        case SetAppendix(xcm) => DeepEnough(d - 1, e - 1, xcm);
        case _ =>
      }
    }
  }

  lemma AnywhereRest(p: Program)
    requires p != [] && !Anywhere(p)
    ensures !ReserveTransferToRelay(p[0]) && !Anywhere(p[1..])
    ensures p[0].SetErrorHandler? || p[0].SetAppendix? ==> !Anywhere(p[0].xcm)
  {
    DeepEnough(Nesting(p) + 1, Nesting(p[1..]) + 1, p[1..]);
    if p[0].SetErrorHandler? || p[0].SetAppendix? {
      DeepEnough(Nesting(p), Nesting(p[0].xcm) + 1, p[0].xcm);
    }
  }

  // ---------------------------------------------------------------------------
  // What the relay chain gets to see
  // ---------------------------------------------------------------------------

  /** A message that asks the relay chain to act as reserve, or reports a reserve deposit to it. */
  predicate ByReserve(m: Message) {
    m.dest == PARENT && m.program != [] && (m.program[0].WithdrawAsset? || m.program[0].ReserveAssetDeposited?)
  }

  predicate NoneByReserve(box: seq<Message>) {
    forall m :: m in box ==> !ByReserve(m)
  }

  ghost predicate SendsByReserve(cfg: Config, c: Chain, i: Instruction) {
    exists m :: Execute(cfg, c, i).chain.outbox == c.outbox + [m] && ByReserve(m)
  }

  /** One message was sent or none, and one of these only if the instruction is refused. */
  ghost predicate SentAtMost(before: seq<Message>, after: seq<Message>, i: Instruction) {
    after == before || exists m :: after == before + [m] && (ByReserve(m) ==> ReserveTransferToRelay(i))
  }

  lemma SendIsOne(cfg: Config, c: Chain, dest: Location, program: Program, i: Instruction)
    requires ByReserve(Message(dest, program)) ==> ReserveTransferToRelay(i)
    ensures SentAtMost(c.outbox, Send(cfg, c, dest, program).chain.outbox, i)
  {
    assert cfg.routable(dest) ==> Send(cfg, c, dest, program).chain.outbox == c.outbox + [Message(dest, program)];
  }

  lemma AccountTransferSendsOne(cfg: Config, c: Chain, i: Instruction)
    requires i.TransferReserveAsset? && c.origin.Some?
    ensures SentAtMost(c.outbox, Execute(cfg, c, i).chain.outbox, i)
  {
    TransferEachFrame(cfg, c, c.origin.value, i.assets, i.dest);
    var d := TransferEach(cfg, c, c.origin.value, i.assets, i.dest).chain;
    var head := ReserveAssetDeposited(Images(cfg.rank, cfg.self, i.assets, i.dest));
    SendIsOne(cfg, d, i.dest, [head, ClearOrigin] + i.xcm, i);
  }

  lemma HoldingSendsOne(cfg: Config, c: Chain, i: Instruction)
    requires i.DepositReserveAsset?
    ensures SentAtMost(c.outbox, Execute(cfg, c, i).chain.outbox, i)
  {
    var (taken, rest) := Take(cfg.rank, c.holding, i.filter);
    DepositEachFrame(cfg, c.(holding := rest), taken, i.dest);
    var d := DepositEach(cfg, c.(holding := rest), taken, i.dest).chain;
    var head := ReserveAssetDeposited(Images(cfg.rank, cfg.self, taken, i.dest));
    SendIsOne(cfg, d, i.dest, [head, ClearOrigin] + i.xcm, i);
  }

  lemma InitiatingSendsOne(cfg: Config, c: Chain, i: Instruction)
    requires i.InitiateReserveWithdraw? || i.InitiateTeleport?
    ensures SentAtMost(c.outbox, Execute(cfg, c, i).chain.outbox, i)
  {
    var dest := if i.InitiateReserveWithdraw? then i.reserve else i.dest;
    var (taken, rest) := Take(cfg.rank, c.holding, i.filter);
    var moved, kept := Moved(cfg.self, taken, dest), Kept(cfg.self, taken, dest);
    if i.InitiateReserveWithdraw? {
      var d := c.(holding := SubsumeAll(cfg.rank, rest, kept), sent := c.sent + Sum(NativeTo(cfg.self), moved));
      SendIsOne(cfg, d, dest, [WithdrawAsset(Images(cfg.rank, cfg.self, moved, dest)), ClearOrigin] + i.xcm, i);
    } else {
      var d := c.(holding := rest, sent := c.sent + Sum(NativeTo(cfg.self), taken));
      SendIsOne(cfg, d, dest, [ReceiveTeleportedAsset(Images(cfg.rank, cfg.self, taken, dest)), ClearOrigin] + i.xcm, i);
    }
  }

  lemma QuietMoves(cfg: Config, c: Chain, i: Instruction)
    requires i.WithdrawAsset? || i.TransferAsset? || i.DepositAsset?
    ensures Execute(cfg, c, i).chain.outbox == c.outbox
  {
    if i.DepositAsset? {
      var (taken, rest) := Take(cfg.rank, c.holding, i.filter);
      DepositEachFrame(cfg, c.(holding := rest), taken, i.beneficiary);
    } else if c.origin.Some? {
      if i.WithdrawAsset? {
        WithdrawEachFrame(cfg, c, c.origin.value, i.assets);
      } else {
        TransferEachFrame(cfg, c, c.origin.value, i.assets, i.beneficiary);
      }
    }
  }

  /** An instruction sends one message or none, and one of these only if the deny rule refuses it. */
  lemma SendsAtMostOne(cfg: Config, c: Chain, i: Instruction)
    ensures SentAtMost(c.outbox, Execute(cfg, c, i).chain.outbox, i)
    ensures Denied([i]) <==> ReserveTransferToRelay(i)
  {
    assert Denied([i]) <==> ReserveTransferToRelay([i][0]);
    if !MovesAssets(i) {
      HoldingFrame(cfg, c, i);
    } else if i.TransferReserveAsset? {
      if c.origin.Some? { AccountTransferSendsOne(cfg, c, i); }
    } else if i.DepositReserveAsset? {
      HoldingSendsOne(cfg, c, i);
    } else if i.InitiateReserveWithdraw? || i.InitiateTeleport? {
      InitiatingSendsOne(cfg, c, i);
    } else {
      QuietMoves(cfg, c, i);
    }
  }

  const ROUTES: Config := Config(0, 0, id => 0, l => true)

  lemma {:induction false} NothingToTake(rank: AssetId -> int, wanted: seq<Asset>)
    ensures TakeEach(rank, [], wanted) == ([], [])
    decreases |wanted|
  {
    if wanted != [] {
      NothingToTake(rank, wanted[1..]);
    }
  }

  /** With nothing in holding, both instructions that act on holding send all the same. */
  lemma HoldingTransfersSend(i: Instruction)
    requires Denied([i]) && !i.TransferReserveAsset?
    ensures SendsByReserve(ROUTES, EMPTY_CHAIN, i)
  {
    assert ReserveTransferToRelay([i][0]);
    var c := EMPTY_CHAIN;
    var filter := if i.DepositReserveAsset? || i.InitiateReserveWithdraw? then i.filter else All;
    if filter.Definite? {
      NothingToTake(ROUTES.rank, filter.assets);
    }
    assert Take(ROUTES.rank, c.holding, filter) == ([], []);
    assert c.(holding := []) == c;
    assert DepositEach(ROUTES, c, [], PARENT) == Done(c);
    var head := if i.DepositReserveAsset? then ReserveAssetDeposited([]) else WithdrawAsset([]);
    assert Execute(ROUTES, c, i).chain.outbox == c.outbox + [Message(PARENT, [head, ClearOrigin] + i.xcm)];
  }

  lemma AccountTransferSends(i: Instruction, self: ParaId)
    requires Denied([i]) && i.TransferReserveAsset? && AllNative(self, i.assets)
    ensures exists cfg, c :: SendsByReserve(cfg, c, i)
  {
    assert ReserveTransferToRelay([i][0]);
    var cfg := ROUTES.(self := self);
    var who := SovereignAccount(0);
    SovereignAccountsAreDistinct(0, 0);
    var ledger := L.Ledger(map[who := Sum(NativeTo(self), i.assets)], 0);
    var c := EMPTY_CHAIN.(origin := Some(Sibling(0)), ledger := ledger);
    TransfersSucceed(cfg, c, Sibling(0), i.assets, PARENT);
    TransferEachFrame(cfg, c, Sibling(0), i.assets, PARENT);
    forall a | a in i.assets ensures Image(self, a.id, PARENT).Some? {
      ConverterIsExact(self, a.id.location);
      ReanchorFailsIff(a.id.location, PARENT, Universal(self));
    }
    NothingKeptIff(self, i.assets, PARENT);
    var head := ReserveAssetDeposited(Images(cfg.rank, self, i.assets, PARENT));
    assert Execute(cfg, c, i).chain.outbox == c.outbox + [Message(PARENT, [head, ClearOrigin] + i.xcm)];
    assert SendsByReserve(cfg, c, i);
  }

  /**
   The deny rule told by what is sent.  It refuses exactly the instructions that, on some chain,
   send the relay chain a message to act as reserve or to report a reserve deposit; besides them
   only transfers out of an account that can never succeed, of assets that are native nowhere.
   */
  lemma DeniedIffSends(i: Instruction)
    ensures (exists cfg, c :: SendsByReserve(cfg, c, i)) <==>
              Denied([i]) && (i.TransferReserveAsset? ==> exists self: ParaId :: AllNative(self, i.assets))
  {
    if cfg, c :| SendsByReserve(cfg, c, i) {
      var m :| Execute(cfg, c, i).chain.outbox == c.outbox + [m] && ByReserve(m);
      SendsAtMostOne(cfg, c, i);
      assert |c.outbox + [m]| != |c.outbox|;
      var m' :| c.outbox + [m] == c.outbox + [m'] && (ByReserve(m') ==> ReserveTransferToRelay(i));
      assert (c.outbox + [m])[|c.outbox|] == m && (c.outbox + [m'])[|c.outbox|] == m';
      if i.TransferReserveAsset? {
        TransferEachFrame(cfg, c, c.origin.value, i.assets, i.dest);
        TransfersAreNative(cfg, c, c.origin.value, i.assets, i.dest);
      }
    }
    if Denied([i]) && (i.TransferReserveAsset? ==> exists self: ParaId :: AllNative(self, i.assets)) {
      if i.TransferReserveAsset? {
        var self: ParaId :| AllNative(self, i.assets);
        AccountTransferSends(i, self);
      } else {
        HoldingTransfersSend(i);
      }
    }
  }

  // ---------------------------------------------------------------------------
  // Runs
  // ---------------------------------------------------------------------------

  predicate Clean(c: Chain) {
    NoneByReserve(c.outbox) && (c.running ==> !Anywhere(c.program) && !Anywhere(c.handler) && !Anywhere(c.appendix))
  }

  lemma TickStaysClean(cfg: Config, c: Chain)
    requires Clean(c)
    ensures Clean(Tick(cfg, c))
  {
    if c.running && c.program != [] {
      var rest, i := c.program[1..], c.program[0];
      AnywhereRest(c.program);
      ExecuteFrame(cfg, c.(program := rest), i);
      SendsAtMostOne(cfg, c.(program := rest), i);
    }
  }

  lemma {:induction false} CleanRun(cfg: Config, c: Chain, n: nat)
    requires Clean(c)
    ensures Clean(Ticks(cfg, c, n))
  {
    if n > 0 {
      CleanRun(cfg, c, n - 1);
      TickStaysClean(cfg, Ticks(cfg, c, n - 1));
    }
  }

  // ---------------------------------------------------------------------------
  // How deep a scan must look
  // ---------------------------------------------------------------------------

  /** A transfer wrapped into appendices, `n` times. */
  function Wrapped(n: nat): Program {
    if n == 0 then [DepositReserveAsset(All, PARENT, [])] else [SetAppendix(Wrapped(n - 1))]
  }

  lemma {:induction false} WrappedIsHidden(n: nat, depth: nat)
    ensures Nesting(Wrapped(n)) == n
    ensures Found(depth, Wrapped(n)) <==> depth > n
  {
    assert Wrapped(n)[1..] == [];
    if n > 0 && depth > 0 {
      WrappedIsHidden(n - 1, depth - 1);
    } else if n > 0 {
      WrappedIsHidden(n - 1, 0);
    }
  }

  lemma UnwrapOnce(cfg: Config, c: Chain, xcm: Program)
    requires c.running && c.program == [SetAppendix(xcm)] && xcm != [] && c.handler == [] && c.appendix == []
    ensures Ticks(cfg, c, 2) == c.(program := xcm)
  {
    assert c.program[1..] == [];
    var d := c.(program := [], appendix := xcm);
    assert Tick(cfg, c) == d;
    assert Tick(cfg, d) == c.(program := xcm);
    assert Ticks(cfg, c, 1) == Tick(cfg, Ticks(cfg, c, 0));
  }

  lemma UnwrapLeads(cfg: Config, c: Chain, xcm: Program)
    requires c.running && c.program == [SetAppendix(xcm)] && xcm != [] && c.handler == [] && c.appendix == []
    ensures LeadsTo(cfg, c, c.(program := xcm))
  {
    UnwrapOnce(cfg, c, xcm);
    Leads(cfg, c, 2);
  }

  /** The wrappings come off one by one, until the transfer is next. */
  lemma {:induction false} WrappedUnfolds(cfg: Config, c: Chain, n: nat)
    requires c.running && c.program == Wrapped(n) && c.handler == [] && c.appendix == []
    ensures LeadsTo(cfg, c, c.(program := Wrapped(0)))
    decreases n
  {
    if n > 0 {
      var d := c.(program := Wrapped(n - 1));
      UnwrapLeads(cfg, c, Wrapped(n - 1));
      WrappedUnfolds(cfg, d, n - 1);
      LeadsOn(cfg, c, d, d.(program := Wrapped(0)));
    } else {
      Leads(cfg, c, 0);
    }
  }

  /** No run of the message ever puts such a message into an outbox that has none. */
  ghost predicate Harmless(p: Program) {
    forall cfg: Config, c: Chain, origin: Location, n: nat | Idle(c) && NoneByReserve(c.outbox) ::
      NoneByReserve(Ticks(cfg, Start(c, origin, p), n).outbox)
  }

  /** A message without a transfer at any depth never sends one: on any chain, from any origin, in any number of steps. */
  lemma NowhereIsHarmless(p: Program)
    requires !Anywhere(p)
    ensures Harmless(p)
  {
    forall cfg: Config, c: Chain, origin: Location, n: nat | Idle(c) && NoneByReserve(c.outbox)
      ensures NoneByReserve(Ticks(cfg, Start(c, origin, p), n).outbox)
    {
      CleanRun(cfg, Start(c, origin, p), n);
    }
  }

  const REPORT: Program := [ReserveAssetDeposited([]), ClearOrigin]

  /** Unwrapped, the transfer sends its message in one step. */
  lemma UnwrappedSends(cfg: Config, c: Chain)
    requires c.running && c.program == Wrapped(0) && c.holding == [] && cfg.routable(PARENT)
    ensures Tick(cfg, c).outbox == c.outbox + [Message(PARENT, REPORT)]
  {
    var e := c.(program := []);
    assert c.program[1..] == [];
    assert e.(holding := []) == e;
    assert REPORT + [] == REPORT;
    assert DepositEach(cfg, e, [], PARENT) == Done(e);
    assert Execute(cfg, e, c.program[0]) == Send(cfg, e, PARENT, REPORT);
  }

  /** One wrapping is enough to pass the deny rule and still send to the relay chain, on any chain and from any origin. */
  lemma WrappedPassesAndSends(cfg: Config, c: Chain, origin: Location)
    requires Idle(c) && cfg.routable(PARENT)
    ensures !Denied(Wrapped(1))
    ensures Ticks(cfg, Start(c, origin, Wrapped(1)), 3).outbox == c.outbox + [Message(PARENT, REPORT)]
  {
    var s := Start(c, origin, Wrapped(1));
    WrappedIsHidden(1, 1);
    DeniedIsOneLevel(Wrapped(1));
    UnwrapOnce(cfg, s, Wrapped(0));
    UnwrappedSends(cfg, Ticks(cfg, s, 2));
  }

  lemma SentIsSeen(c: Chain, d: Chain)
    requires d.outbox == c.outbox + [Message(PARENT, REPORT)]
    ensures !NoneByReserve(d.outbox)
  {
    assert ByReserve(d.outbox[|c.outbox|]);
  }

  lemma WrappedIsHarmful(n: nat)
    ensures !Harmless(Wrapped(n))
  {
    var c := Start(EMPTY_CHAIN, Sibling(1), Wrapped(n));
    var last := c.(program := Wrapped(0));
    WrappedUnfolds(ROUTES, c, n);
    var steps: nat :| Ticks(ROUTES, c, steps) == last;
    UnwrappedSends(ROUTES, last);
    SentIsSeen(last, Tick(ROUTES, last));
    assert Ticks(ROUTES, c, steps + 1) == Tick(ROUTES, Ticks(ROUTES, c, steps));
    assert !NoneByReserve(Ticks(ROUTES, c, steps + 1).outbox);
  }

  ghost predicate Protects(depth: nat, nesting: nat) {
    forall p | Nesting(p) <= nesting && !Found(depth, p) :: Harmless(p)
  }

  /**
   Scanning `depth` levels protects all messages of a given nesting exactly when it looks
   deeper than they nest; the deny rule, with its one level, exactly those that set neither
   an error handler nor an appendix.
   */
  lemma ProtectsIffDeeper(depth: nat, nesting: nat)
    ensures Protects(depth, nesting) <==> depth > nesting
  {
    if depth > nesting {
      forall p | Nesting(p) <= nesting && !Found(depth, p) ensures Harmless(p) {
        DeepEnough(depth, Nesting(p) + 1, p);
        NowhereIsHarmless(p);
      }
    } else {
      WrappedIsHidden(depth, depth);
      WrappedIsHarmful(depth);
    }
  }
}
