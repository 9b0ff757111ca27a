/** What the asset instructions do to the accounts and assets they name, and to no others. */
module Effects {
  import opened Prelude
  import opened Locations
  import opened L = Ledger
  import opened Assets
  import opened Executor
  import opened Conservation
  import opened Backing

  /** All balances but those of the accounts named are the same. */
  ghost predicate OnlyTouches(c: Chain, d: Chain, touched: set<Account>) {
    forall who :: who !in touched ==> Balance(d.ledger, who) == Balance(c.ledger, who)
  }

  /** A withdrawal debits the origin's account by exactly what enters holding, apart from a reaped remainder. */
  lemma {:induction false} WithdrawalsDebitTheOrigin(cfg: Config, c: Chain, from: Location, assets: seq<Asset>, k: AssetClass)
    requires WithdrawEach(cfg, c, from, assets).Done? && assets != []
    ensures var d := WithdrawEach(cfg, c, from, assets).chain;
            && AllNative(cfg.self, assets) && AccountOf(from).Some?
            && OnlyTouches(c, d, {AccountOf(from).value})
            && Balance(d.ledger, AccountOf(from).value) + Sum(NativeTo(cfg.self), assets) + d.ledger.dust
               == Balance(c.ledger, AccountOf(from).value) + c.ledger.dust
            && Sum(k, d.holding) == Sum(k, c.holding) + Sum(k, assets)
    decreases |assets|
  {
    var who := AccountOf(from).value;
    var w := Withdraw(cfg.ed, c.ledger, who, assets[0].amount).value;
    var next := c.(ledger := w, holding := Subsume(cfg.rank, c.holding, assets[0]));
    SumSubsume(cfg.rank, k, c.holding, assets[0]);
    if assets[1..] != [] {
      WithdrawalsDebitTheOrigin(cfg, next, from, assets[1..], k);
    }
  }

  /** A deposit credits the beneficiary with exactly what left holding, apart from what is too small to create an account. */
  lemma {:induction false} DepositsCreditTheBeneficiary(cfg: Config, c: Chain, assets: seq<Asset>, to: Location)
    requires DepositEach(cfg, c, assets, to).Done? && assets != []
    ensures var d := DepositEach(cfg, c, assets, to).chain;
            && AllNative(cfg.self, assets) && AccountOf(to).Some?
            && OnlyTouches(c, d, {AccountOf(to).value})
            && Balance(d.ledger, AccountOf(to).value) + d.ledger.dust
               == Balance(c.ledger, AccountOf(to).value) + c.ledger.dust + Sum(NativeTo(cfg.self), assets)
            && d.burned == c.burned && d.holding == c.holding
    decreases |assets|
  {
    var l := Deposit(cfg.ed, c.ledger, AccountOf(to).value, assets[0].amount);
    if assets[1..] != [] {
      DepositsCreditTheBeneficiary(cfg, c.(ledger := l), assets[1..], to);
    }
  }

  /** A transfer between two accounts moves exactly its amount; only the payer's remainder can be reaped. */
  lemma {:induction false} TransfersMoveTheAmount(cfg: Config, c: Chain, from: Location, assets: seq<Asset>, to: Location)
    requires TransferEach(cfg, c, from, assets, to).Done? && assets != []
    requires AccountOf(from) != AccountOf(to)
    ensures var d, n := TransferEach(cfg, c, from, assets, to).chain, Sum(NativeTo(cfg.self), assets);
            && AllNative(cfg.self, assets) && AccountOf(from).Some? && AccountOf(to).Some?
            && OnlyTouches(c, d, {AccountOf(from).value, AccountOf(to).value})
            && Balance(d.ledger, AccountOf(to).value) == Balance(c.ledger, AccountOf(to).value) + n
            && Balance(d.ledger, AccountOf(from).value) + n + d.ledger.dust
               == Balance(c.ledger, AccountOf(from).value) + c.ledger.dust
    decreases |assets|
  {
    var a, b := AccountOf(from).value, AccountOf(to).value;
    var t := Transfer(cfg.ed, c.ledger, a, b, assets[0].amount).value;
    if assets[1..] != [] {
      TransfersMoveTheAmount(cfg, c.(ledger := t), from, assets[1..], to);
    }
  }

  /** Every asset finds room in the register, one after the other. */
  predicate Fits(rank: AssetId -> int, h: seq<Asset>, assets: seq<Asset>)
    decreases |assets|
  {
    assets == [] || (HasRoom(h, 1) && Fits(rank, Subsume(rank, h, assets[0]), assets[1..]))
  }

  // ---------------------------------------------------------------------------
  // When they succeed
  // ---------------------------------------------------------------------------

  /** One asset is withdrawn exactly if it is native, the origin has an account with as much, and fewer than 128 entries are held. */
  lemma WithdrawalSucceedsIff(cfg: Config, c: Chain, from: Location, a: Asset)
    ensures WithdrawEach(cfg, c, from, [a]).Done? <==>
              && IsNative(cfg.self, a.id) && AccountOf(from).Some?
              && Balance(c.ledger, AccountOf(from).value) >= a.amount && |c.holding| < 128
  {
    if IsNative(cfg.self, a.id) && AccountOf(from).Some? {
      var w := Withdraw(cfg.ed, c.ledger, AccountOf(from).value, a.amount);
      if w.Some? && HasRoom(c.holding, 1) {
        var next := c.(ledger := w.value, holding := Subsume(cfg.rank, c.holding, a));
        assert [a][1..] == [];
        assert WithdrawEach(cfg, c, from, [a]) == WithdrawEach(cfg, next, from, []);
      }
    }
  }

  /** Deposits succeed exactly if there is nothing to deposit, or all of it is native and the beneficiary has an account. */
  lemma {:induction false} DepositsSucceedIff(cfg: Config, c: Chain, assets: seq<Asset>, to: Location)
    ensures DepositEach(cfg, c, assets, to).Done? <==> assets == [] || (AllNative(cfg.self, assets) && AccountOf(to).Some?)
    decreases |assets|
  {
    if assets != [] {
      assert assets == [assets[0]] + assets[1..];
      if IsNative(cfg.self, assets[0].id) && AccountOf(to).Some? {
        var l := Deposit(cfg.ed, c.ledger, AccountOf(to).value, assets[0].amount);
        DepositsSucceedIff(cfg, c.(ledger := l), assets[1..], to);
      }
    }
  }

  /** A transfer of one asset between two accounts also fails if it would leave the beneficiary below the deposit. */
  lemma TransferSucceedsIff(cfg: Config, c: Chain, from: Location, a: Asset, to: Location)
    ensures TransferEach(cfg, c, from, [a], to).Done? <==>
              && IsNative(cfg.self, a.id) && AccountOf(from).Some? && AccountOf(to).Some?
              && var x, y := AccountOf(from).value, AccountOf(to).value;
                 x == y || a.amount == 0 || (Balance(c.ledger, x) >= a.amount && Balance(c.ledger, y) + a.amount >= cfg.ed)
  {
    if IsNative(cfg.self, a.id) && AccountOf(from).Some? && AccountOf(to).Some? {
      var t := Transfer(cfg.ed, c.ledger, AccountOf(from).value, AccountOf(to).value, a.amount);
      if t.Some? {
        assert [a][1..] == [];
        assert TransferEach(cfg, c, from, [a], to) == TransferEach(cfg, c.(ledger := t.value), from, [], to);
      }
    }
  }

  /** Into an account that already lives, any number of assets can be transferred that the payer can pay for. */
  lemma {:induction false} TransfersSucceed(cfg: Config, c: Chain, from: Location, assets: seq<Asset>, to: Location)
    requires AllNative(cfg.self, assets) && AccountOf(from).Some? && AccountOf(to).Some?
    requires AccountOf(from) != AccountOf(to) && Balance(c.ledger, AccountOf(to).value) >= cfg.ed
    requires Balance(c.ledger, AccountOf(from).value) >= Sum(NativeTo(cfg.self), assets) + cfg.ed
    ensures TransferEach(cfg, c, from, assets, to).Done?
    decreases |assets|
  {
    if assets != [] {
      var a, b := AccountOf(from).value, AccountOf(to).value;
      assert assets[0] in assets;
      var t := Transfer(cfg.ed, c.ledger, a, b, assets[0].amount);
      TransfersSucceed(cfg, c.(ledger := t.value), from, assets[1..], to);
    }
  }

  lemma {:induction false} TransfersAreNative(cfg: Config, c: Chain, from: Location, assets: seq<Asset>, to: Location)
    requires TransferEach(cfg, c, from, assets, to).Done?
    ensures AllNative(cfg.self, assets)
    decreases |assets|
  {
    if assets != [] {
      assert assets == [assets[0]] + assets[1..];
      var t := Transfer(cfg.ed, c.ledger, AccountOf(from).value, AccountOf(to).value, assets[0].amount);
      TransfersAreNative(cfg, c.(ledger := t.value), from, assets[1..], to);
    }
  }

  /** Reported deposits are believed exactly if the origin is the reserve of all of them and they find room. */
  lemma {:induction false} ReportsSucceedIff(cfg: Config, c: Chain, from: Location, assets: seq<Asset>, k: AssetClass)
    ensures var out := ReceiveEach(cfg, c, from, assets);
            && (out.Done? <==> (forall a :: a in assets ==> IsReserve(cfg.self, a.id, from)) && Fits(cfg.rank, c.holding, assets))
            && (out.Done? ==> Sum(k, out.chain.holding) == Sum(k, c.holding) + Sum(k, assets))
    decreases |assets|
  {
    if assets != [] {
      assert assets == [assets[0]] + assets[1..];
      if IsReserve(cfg.self, assets[0].id, from) && HasRoom(c.holding, 1) {
        SumSubsume(cfg.rank, k, c.holding, assets[0]);
        ReportsSucceedIff(cfg, c.(holding := Subsume(cfg.rank, c.holding, assets[0])), from, assets[1..], k);
      }
    }
  }

  /** Messages go out exactly where the router delivers, and a reserve transfer by account only if every asset can be rewritten. */
  lemma SendingSucceedsIff(cfg: Config, c: Chain, from: Location, assets: seq<Asset>, filter: AssetFilter, dest: Location, xcm: Program)
    ensures ExecTransferReserve(cfg, c, from, assets, dest, xcm).Done? <==>
              TransferEach(cfg, c, from, assets, dest).Done? && cfg.routable(dest)
              && forall a :: a in assets ==> Image(cfg.self, a.id, dest).Some?
    ensures ExecDepositReserve(cfg, c, filter, dest, xcm).Done? <==>
              var taken := Take(cfg.rank, c.holding, filter).0;
              (taken == [] || (AllNative(cfg.self, taken) && AccountOf(dest).Some?)) && cfg.routable(dest)
    ensures ExecReserveWithdraw(cfg, c, filter, dest, xcm).Done? <==> cfg.routable(dest)
    ensures ExecTeleport(cfg, c, filter, dest, xcm).Done? <==> cfg.routable(dest)
  {
    var (taken, rest) := Take(cfg.rank, c.holding, filter);
    DepositsSucceedIff(cfg, c.(holding := rest), taken, dest);
    NothingKeptIff(cfg.self, assets, dest);
  }

  lemma {:induction false} NothingKeptIff(self: ParaId, s: seq<Asset>, dest: Location)
    ensures Kept(self, s, dest) == [] <==> forall a :: a in s ==> Image(self, a.id, dest).Some?
  {
    if s != [] {
      assert s == [s[0]] + s[1..];
      NothingKeptIff(self, s[1..], dest);
    }
  }

  /** The instructions with nothing to look up. */
  lemma PlainOutcomes(cfg: Config, c: Chain, i: Instruction)
    ensures i.ReceiveTeleportedAsset? ==> (Execute(cfg, c, i).Done? <==> c.origin.Some? && i.assets == [])
    ensures i.DescendOrigin? ==> (Execute(cfg, c, i).Done? <==> c.origin.Some? && |c.origin.value.interior| + |i.suffix| <= 8)
    ensures i.DescendOrigin? && Execute(cfg, c, i).Done? ==>
              Execute(cfg, c, i).chain == c.(origin := Some(Descend(c.origin.value, i.suffix)))
    ensures i.ClearOrigin? || i.SetErrorHandler? || i.SetAppendix? || i.BurnAsset? ==> Execute(cfg, c, i).Done?
    ensures i.Trap? ==> Execute(cfg, c, i) == Failed(c)
    ensures i.Inert? ==> Execute(cfg, c, i) == if i.ok then Done(c) else Failed(c)
    ensures i.BuyExecution? && i.limit == Unlimited ==> Execute(cfg, c, i) == Done(c)
    ensures i.WithdrawAsset? || i.ReserveAssetDeposited? || i.TransferAsset? || i.TransferReserveAsset? || i.ClaimAsset? ==>
              (c.origin.None? ==> Execute(cfg, c, i) == Failed(c))
  {
  }

  /** Burning takes what is named out of holding, as far as it is there, and all that is native counts as destroyed. */
  lemma BurnsWhatItNames(cfg: Config, c: Chain, assets: seq<Asset>, id: AssetId)
    requires Unique(c.holding)
    ensures var d := Execute(cfg, c, BurnAsset(assets)).chain;
            && AllOf(id, d.holding) + Min(AllOf(id, assets), AllOf(id, c.holding)) == AllOf(id, c.holding)
            && d.burned - c.burned == Sum(NativeTo(cfg.self), c.holding) - Sum(NativeTo(cfg.self), d.holding)
            && d == c.(holding := d.holding, burned := d.burned)
  {
    TakeIsExact(cfg.rank, c.holding, assets, id);
    TakeConserves(cfg.rank, NativeTo(cfg.self), c.holding, Definite(assets));
  }

  /**
   A successful purchase takes the whole offer from holding, keeps as fees exactly the
   weight bought, one unit for one unit, and gives the change back.
   */
  lemma PurchaseEffect(cfg: Config, c: Chain, fees: Asset, weight: nat, k: AssetClass)
    requires ExecBuy(cfg, c, fees, Limited(weight)).Done?
    ensures var d := ExecBuy(cfg, c, fees, Limited(weight)).chain;
            && d.fees == c.fees + weight
            && Sum(k, d.holding) + Worth(k, Asset(fees.id, weight)) == Sum(k, c.holding)
            && d == c.(fees := d.fees, holding := d.holding)
  {
    SumRemove(k, c.holding, fees.id, fees.amount);
    SumSubsume(cfg.rank, k, Remove(c.holding, fees.id, fees.amount), Asset(fees.id, fees.amount - weight));
  }

  // ---------------------------------------------------------------------------
  // Traps and the end of a message
  // ---------------------------------------------------------------------------

  lemma {:induction false} FindTrapIsComplete(traps: seq<TrappedAssets>, t: TrappedAssets)
    ensures FindTrap(traps, t) < |traps| <==> t in traps
  {
    if traps != [] && traps[0] != t {
      FindTrapIsComplete(traps[1..], t);
      assert traps == [traps[0]] + traps[1..];
    }
  }

  lemma {:induction false} SubsumeSize(rank: AssetId -> int, h: seq<Asset>, a: Asset)
    ensures |h| <= |Subsume(rank, h, a)| <= |h| + 1
  {
    if h != [] && h[0].id != a.id && rank(a.id) >= rank(h[0].id) {
      SubsumeSize(rank, h[1..], a);
    }
  }

  /** Room for all of them at once is enough. */
  lemma {:induction false} RoomForAllFits(rank: AssetId -> int, h: seq<Asset>, assets: seq<Asset>)
    requires |h| + |assets| <= 128
    ensures Fits(rank, h, assets)
    decreases |assets|
  {
    if assets != [] {
      SubsumeSize(rank, h, assets[0]);
      RoomForAllFits(rank, Subsume(rank, h, assets[0]), assets[1..]);
    }
  }

  lemma {:induction false} ClaimEachIsExact(cfg: Config, c: Chain, assets: seq<Asset>, k: AssetClass)
    ensures var out := ClaimEach(cfg, c, assets);
            && (out.Done? <==> Fits(cfg.rank, c.holding, assets))
            && (out.Done? ==> out.chain == c.(holding := SubsumeAll(cfg.rank, c.holding, assets))
                              && Sum(k, out.chain.holding) == Sum(k, c.holding) + Sum(k, assets))
    decreases |assets|
  {
    if assets != [] && HasRoom(c.holding, 1) {
      SumSubsume(cfg.rank, k, c.holding, assets[0]);
      ClaimEachIsExact(cfg, c.(holding := Subsume(cfg.rank, c.holding, assets[0])), assets[1..], k);
    }
  }

  /** Tickets are the place here itself and plain indices in it. */
  lemma TicketIsGoodIff(ticket: Location)
    ensures GoodTicket(ticket) <==> ticket == HERE || exists n: nat :: ticket == Location(0, [GeneralIndex(n)])
  {
    if GoodTicket(ticket) && ticket != HERE {
      assert ticket == Location(0, [GeneralIndex(ticket.interior[0].index)]);
    }
  }

  /**
   A claim succeeds exactly when the ticket is well formed, this very origin has these
   very assets trapped and the register has room for them; it removes that one entry and
   puts back just what it held.  Only for want of room does a failing claim cost anything:
   the entry is gone, and what was not put back is destroyed.
   */
  lemma ClaimIsExact(cfg: Config, c: Chain, claimer: Location, assets: seq<Asset>, ticket: Location, k: AssetClass)
    ensures var out, t, native := ExecClaim(cfg, c, claimer, assets, ticket), TrappedAssets(claimer, assets), NativeTo(cfg.self);
            var found := GoodTicket(ticket) && t in c.traps;
            && (out.Done? <==> found && Fits(cfg.rank, c.holding, assets))
            && (!found ==> out.chain == c)
            && (found ==> multiset(out.chain.traps) + multiset{t} == multiset(c.traps)
                          && Sum(native, out.chain.holding) + out.chain.burned
                             == Sum(native, c.holding) + c.burned + Sum(native, assets))
            && out.chain.ledger == c.ledger
            && (out.Done? ==> Sum(k, out.chain.holding) == Sum(k, c.holding) + Sum(k, assets)
                              && out.chain.burned == c.burned)
  {
    var t := TrappedAssets(claimer, assets);
    FindTrapIsComplete(c.traps, t);
    var i := FindTrap(c.traps, t);
    if i < |c.traps| && GoodTicket(ticket) {
      assert c.traps == c.traps[..i] + [t] + c.traps[i + 1..];
      var d := c.(traps := c.traps[..i] + c.traps[i + 1..]);
      assert multiset(d.traps) + multiset{t} == multiset(c.traps);
      ClaimEachFrame(cfg, d, assets);
      ClaimEachIsExact(cfg, d, assets, k);
      ClaimEachBalance(cfg, d, assets);
    }
  }

  lemma {:induction false} ClaimEachBalance(cfg: Config, c: Chain, assets: seq<Asset>)
    ensures var d, k := ClaimEach(cfg, c, assets).chain, NativeTo(cfg.self);
            Sum(k, d.holding) + d.burned == Sum(k, c.holding) + c.burned + Sum(k, assets)
    decreases |assets|
  {
    if assets != [] && HasRoom(c.holding, 1) {
      SumSubsume(cfg.rank, NativeTo(cfg.self), c.holding, assets[0]);
      ClaimEachBalance(cfg, c.(holding := Subsume(cfg.rank, c.holding, assets[0])), assets[1..]);
    }
  }

  lemma Cancel<T>(a: multiset<T>, b: multiset<T>, x: T)
    requires a + multiset{x} == b + multiset{x}
    ensures a == b
  {
    assert a == a + multiset{x} - multiset{x};
  }

  lemma FinishTraps(cfg: Config, c: Chain)
    ensures var d, left := Finish(cfg, c), ExecRefund(cfg, c).chain.holding;
            var claimer := if c.origin == None then c.original else c.origin.value;
            Idle(d) && d.traps == if left == [] then c.traps else c.traps + [TrappedAssets(claimer, left)]
  {
  }

  /**
   Whatever a message leaves in holding, after the refund at its end, is trapped.  Its origin,
   or the one it came from if that was given up, can claim all of it back as long as it fits
   into an empty register, as any holding within the limit does.
   */
  lemma TrapThenClaim(cfg: Config, c: Chain, program: Program, k: AssetClass)
    requires c.running && ExecRefund(cfg, c).chain.holding != []
    ensures var origin := if c.origin == None then c.original else c.origin.value;
            var left := ExecRefund(cfg, c).chain.holding;
            var out := ExecClaim(cfg, Start(Finish(cfg, c), origin, program), origin, left, HERE);
            && (out.Done? <==> Fits(cfg.rank, [], left))
            && multiset(out.chain.traps) == multiset(c.traps)
            && (out.Done? ==> Sum(k, out.chain.holding) == Sum(k, left))
            && (|left| <= 128 ==> Fits(cfg.rank, [], left))
  {
    var origin := if c.origin == None then c.original else c.origin.value;
    var left := ExecRefund(cfg, c).chain.holding;
    var again := Start(Finish(cfg, c), origin, program);
    FinishTraps(cfg, c);
    assert again.traps[|c.traps|] == TrappedAssets(origin, left);
    ClaimIsExact(cfg, again, origin, left, HERE, k);
    Cancel(multiset(ExecClaim(cfg, again, origin, left, HERE).chain.traps), multiset(c.traps), TrappedAssets(origin, left));
    if |left| <= 128 {
      RoomForAllFits(cfg.rank, [], left);
    }
  }

  /**
   The refund at the end gives back the fees for the surplus and no more: with room in the
   register, holding grows by the smaller of the two and the rest of the fees is burned.
   */
  lemma FinishRefunds(cfg: Config, c: Chain)
    ensures |c.holding| < 128 ==>
            var d, k, back := Finish(cfg, c), NativeTo(cfg.self), Min(c.surplus, c.fees);
            && TrapSum(k, d.traps) == TrapSum(k, c.traps) + Sum(k, c.holding) + back
            && d.burned + back == c.burned + c.fees
            && d.ledger == c.ledger && d.outbox == c.outbox && Idle(d)
    ensures |c.holding| >= 128 && c.surplus > 0 && c.fees > 0 ==> Finish(cfg, c).burned == c.burned + c.fees
  {
    var k, back := NativeTo(cfg.self), Asset(Concrete(SELF_RESERVE), Min(c.surplus, c.fees));
    assert Belongs(k, back.id);
    SumSubsume(cfg.rank, k, c.holding, back);
    var d := ExecRefund(cfg, c).chain;
    TrapRestKeeps(k, d.(running := false, fees := 0, burned := d.burned + d.fees));
  }
}
