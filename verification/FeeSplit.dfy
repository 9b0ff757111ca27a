/** `DealWithFees`: one percent of fees and all tips to the treasury, everything else burned. */
module FeeSplit {
  import opened Prelude

  /**
   Free balances outside the treasury, the treasury, all that was ever burned, and
   total issuance.  Money taken from a payer and not yet settled is still issued.
   */
  datatype Books = Books(others: nat, treasury: nat, burned: nat, issuance: nat)

  function SaturatingAdd(a: nat, b: nat): nat {
    Min(a + b, U128_MAX)
  }

  /** `ration(1, 99)`: the first part is the product capped at the type's maximum, divided by 100. */
  function Ration(amount: nat): nat {
    Min(Min(amount * 1, U128_MAX) / (1 + 99), amount)
  }

  /** The first two items of a batch; all further ones are dropped. */
  function FeeOf(items: seq<nat>): nat {
    if items == [] then 0 else items[0]
  }

  function TipOf(items: seq<nat>): nat {
    if |items| < 2 then 0 else items[1]
  }

  /** What is meant for the treasury out of one batch of imbalances: all of the tip, and one percent of the fee. */
  function ForTreasury(items: seq<nat>): (part: nat)
    ensures part <= TotalOf(items)
    ensures 100 * (part - TipOf(items)) <= FeeOf(items) < 100 * (part - TipOf(items)) + 100
  {
    if items == [] then 0
    else if |items| == 1 then items[0] / 100
    else
      assert items[1..][0] == items[1];
      items[0] / 100 + items[1]
  }

  /** A credit below the existential deposit cannot create the treasury account. */
  predicate Creditable(ed: nat, treasury: nat, amount: nat) {
    amount == 0 || treasury > 0 || amount >= ed
  }

  class Runtime {
    const ed: nat
    var others: nat
    var treasury: nat
    var burned: nat
    var issuance: nat

    constructor (ed: nat, b: Books)
      ensures this.ed == ed && View() == b
    {
      this.ed := ed;
      others, treasury, burned, issuance := b.others, b.treasury, b.burned, b.issuance;
    }

    function View(): Books
      reads this
    {
      Books(others, treasury, burned, issuance)
    }

    /** An imbalance that nobody takes leaves the issuance. */
    method Burn(amount: nat)
      requires amount <= issuance
      modifies this
      ensures View() == old(View()).(burned := old(burned) + amount, issuance := old(issuance) - amount)
    {
      burned, issuance := burned + amount, issuance - amount;
    }

    method OnUnbalanceds(items: seq<nat>)
      requires TotalOf(items) <= issuance <= U128_MAX
      modifies this
      ensures others == old(others)
      ensures issuance + burned == old(issuance + burned)
      ensures issuance - treasury == old(issuance - treasury) - TotalOf(items)
      ensures old(treasury) > 0 ==>
                var gain := treasury - old(treasury);
                100 * (gain - TipOf(items)) <= FeeOf(items) < 100 * (gain - TipOf(items)) + 100
      ensures treasury == old(treasury) + if Creditable(ed, old(treasury), ForTreasury(items)) then ForTreasury(items) else 0
    {
      if items == [] {
        return;
      }
      var rest := items[1..];
      var first := Ration(items[0]);
      var second := items[0] - first;
      if rest != [] {
        first := SaturatingAdd(first, rest[0]);
        rest := rest[1..];
      }
      if first == 0 || treasury > 0 || first >= ed {
        treasury := treasury + first;
      } else {
        Burn(first);
      }
      Burn(second);
      Burn(TotalOf(rest));
    }
  }

  // ---------------------------------------------------------------------------
  // Every sequence of charged extrinsics
  // ---------------------------------------------------------------------------

  /** Between extrinsics every issued unit is in some account. */
  predicate Balanced(b: Books) {
    b.issuance == b.others + b.treasury
  }

  /** The same settlement on values; a payer pays the whole batch first, or is not charged at all. */
  function Charged(ed: nat, b: Books, items: seq<nat>): (c: Books)
    requires Balanced(b)
    ensures Balanced(c)
  {
    var total := TotalOf(items);
    if total > b.others then b
    else
      var pot := ForTreasury(items);
      var gain := if Creditable(ed, b.treasury, pot) then pot else 0;
      Books(b.others - total, b.treasury + gain, b.burned + (total - gain), b.issuance - (total - gain))
  }

  method Charge(rt: Runtime, items: seq<nat>)
    requires Balanced(rt.View()) && rt.issuance <= U128_MAX
    modifies rt
    ensures rt.View() == Charged(rt.ed, old(rt.View()), items)
  {
    var total := TotalOf(items);
    if total <= rt.others {
      rt.others := rt.others - total;
      rt.OnUnbalanceds(items);
    }
  }

  function ChargedAll(ed: nat, b: Books, xs: seq<seq<nat>>): Books
    requires Balanced(b)
    decreases |xs|
  {
    if xs == [] then b else ChargedAll(ed, Charged(ed, b, xs[0]), xs[1..])
  }

  /** The batches that are actually paid, in order. */
  function Paid(ed: nat, b: Books, xs: seq<seq<nat>>): seq<seq<nat>>
    requires Balanced(b)
    decreases |xs|
  {
    if xs == [] then []
    else (if TotalOf(xs[0]) <= b.others then [xs[0]] else []) + Paid(ed, Charged(ed, b, xs[0]), xs[1..])
  }

  function Fees(xs: seq<seq<nat>>): nat {
    if xs == [] then 0 else FeeOf(xs[0]) + Fees(xs[1..])
  }

  function Tips(xs: seq<seq<nat>>): nat {
    if xs == [] then 0 else TipOf(xs[0]) + Tips(xs[1..])
  }

  /** Shares of the batches that are actually paid, in order. */
  function PaidShares(ed: nat, b: Books, xs: seq<seq<nat>>): nat
    requires Balanced(b)
    decreases |xs|
  {
    if xs == [] then 0
    else (if TotalOf(xs[0]) <= b.others then ForTreasury(xs[0]) else 0) + PaidShares(ed, Charged(ed, b, xs[0]), xs[1..])
  }

  lemma ChargedKeeps(ed: nat, b: Books, items: seq<nat>)
    requires Balanced(b)
    ensures var c := Charged(ed, b, items);
            && Balanced(c) && c.issuance + c.burned == b.issuance + b.burned && c.treasury >= b.treasury
            && (TotalOf(items) > b.others ==> c == b)
            && (TotalOf(items) <= b.others ==> c.others + TotalOf(items) == b.others)
            && (b.treasury > 0 && TotalOf(items) <= b.others ==> c.treasury == b.treasury + ForTreasury(items))
            && (c.treasury != b.treasury + (if TotalOf(items) <= b.others then ForTreasury(items) else 0)
                <==> TotalOf(items) <= b.others && b.treasury == 0 && 0 < ForTreasury(items) < ed)
  {
  }

  /**
   Over every sequence of batches of any length: issuance and burned together stay
   constant and books stay balanced; a treasury that is alive gains exactly one percent,
   rounded down, of every fee plus every tip, and one that is not never gains more.
   */
  lemma {:induction false} EveryChargeSequence(ed: nat, b: Books, xs: seq<seq<nat>>)
    requires Balanced(b)
    ensures var c := ChargedAll(ed, b, xs);
            && Balanced(c) && c.issuance + c.burned == b.issuance + b.burned
            && c.treasury <= b.treasury + PaidShares(ed, b, xs)
            && (b.treasury > 0 ==> c.treasury == b.treasury + PaidShares(ed, b, xs))
    decreases |xs|
  {
    if xs != [] {
      ChargedKeeps(ed, b, xs[0]);
      EveryChargeSequence(ed, Charged(ed, b, xs[0]), xs[1..]);
    }
  }

  lemma {:induction false} SharesOfPaid(ed: nat, b: Books, xs: seq<seq<nat>>)
    requires Balanced(b)
    ensures var paid := Paid(ed, b, xs);
            && |paid| <= |xs|
            && PaidShares(ed, b, xs) >= Tips(paid)
            && 0 <= Fees(paid) - 100 * (PaidShares(ed, b, xs) - Tips(paid)) <= 99 * |paid|
    decreases |xs|
  {
    if xs != [] {
      var rest := Paid(ed, Charged(ed, b, xs[0]), xs[1..]);
      SharesOfPaid(ed, Charged(ed, b, xs[0]), xs[1..]);
      if TotalOf(xs[0]) <= b.others {
        var paid := Paid(ed, b, xs);
        assert paid == [xs[0]] + rest && paid[1..] == rest;
        assert Fees(paid) == FeeOf(xs[0]) + Fees(rest) && Tips(paid) == TipOf(xs[0]) + Tips(rest);
        assert PaidShares(ed, b, xs) == ForTreasury(xs[0]) + PaidShares(ed, Charged(ed, b, xs[0]), xs[1..]);
      } else {
        assert Paid(ed, b, xs) == rest;
      }
    }
  }

  /**
   What a live treasury gains over every sequence, told by the items alone: all tips of the
   batches that were paid, and of their fees one percent, short of it by at most 99 hundredths
   for each batch.
   */
  lemma TreasuryGetsTipsAndOnePercent(ed: nat, b: Books, xs: seq<seq<nat>>)
    requires Balanced(b) && b.treasury > 0
    ensures var paid, gain := Paid(ed, b, xs), ChargedAll(ed, b, xs).treasury - b.treasury;
            && gain >= Tips(paid)
            && 0 <= Fees(paid) - 100 * (gain - Tips(paid)) <= 99 * |paid|
  {
    EveryChargeSequence(ed, b, xs);
    SharesOfPaid(ed, b, xs);
  }

  // ---------------------------------------------------------------------------
  // Splitting one fee over many extrinsics
  // ---------------------------------------------------------------------------

  function Shares(fees: seq<nat>): nat {
    if fees == [] then 0 else fees[0] / 100 + Shares(fees[1..])
  }

  /** What rounding keeps from the treasury is at most 99 units per extrinsic. */
  lemma {:induction false} RoundingLoss(fees: seq<nat>)
    ensures 0 <= TotalOf(fees) - 100 * Shares(fees) <= 99 * |fees|
  {
    if fees != [] {
      RoundingLoss(fees[1..]);
    }
  }

  /** A lump charge never gives the treasury less, nor more than the rounding of the split allows. */
  lemma SplittingAFee(fees: seq<nat>)
    ensures Shares(fees) <= TotalOf(fees) / 100 <= Shares(fees) + 99 * |fees| / 100
    ensures |fees| >= 1 ==> TotalOf(fees) / 100 <= Shares(fees) + |fees| - 1
  {
    RoundingLoss(fees);
  }

  /** One batch for each fee, without tips. */
  function Singles(fees: seq<nat>): seq<seq<nat>> {
    if fees == [] then [] else [[fees[0]]] + Singles(fees[1..])
  }

  lemma {:induction false} SinglesGainShares(ed: nat, b: Books, fees: seq<nat>)
    requires Balanced(b) && b.treasury > 0 && TotalOf(fees) <= b.others
    ensures ChargedAll(ed, b, Singles(fees)).treasury == b.treasury + Shares(fees)
    decreases |fees|
  {
    if fees != [] {
      var batch := [fees[0]];
      assert batch[1..] == [] && TotalOf(batch) == fees[0];
      assert Singles(fees)[1..] == Singles(fees[1..]);
      ChargedKeeps(ed, b, batch);
      SinglesGainShares(ed, Charged(ed, b, batch), fees[1..]);
    }
  }

  /**
   Charging a fee in parts, really: a live treasury never gains more than from one lump
   charge of the same payers, and never less by more than 99 hundredths for each part.
   */
  lemma SplittingACharge(ed: nat, b: Books, fees: seq<nat>)
    requires Balanced(b) && b.treasury > 0 && TotalOf(fees) <= b.others
    ensures var split := ChargedAll(ed, b, Singles(fees)).treasury;
            var lump := Charged(ed, b, [TotalOf(fees)]).treasury;
            split <= lump <= split + 99 * |fees| / 100
  {
    var batch := [TotalOf(fees)];
    assert batch[1..] == [] && TotalOf(batch) == TotalOf(fees);
    ChargedKeeps(ed, b, batch);
    SinglesGainShares(ed, b, fees);
    SplittingAFee(fees);
  }

  function Repeat(fee: nat, n: nat): seq<nat> {
    if n == 0 then [] else [fee] + Repeat(fee, n - 1)
  }

  /** The bound is met for every count, by fees of 99 units each. */
  lemma {:induction false} SplittingBoundIsTight(n: nat)
    ensures |Repeat(99, n)| == n && Shares(Repeat(99, n)) == 0
    ensures TotalOf(Repeat(99, n)) / 100 == Shares(Repeat(99, n)) + 99 * n / 100
    ensures TotalOf(Repeat(99, n)) == 99 * n
  {
    if n > 0 {
      SplittingBoundIsTight(n - 1);
      assert Repeat(99, n)[1..] == Repeat(99, n - 1);
    }
  }
}
