/**
 What the weigher promises: the weight of a message bounds everything it can make the
 executor do, handlers and appendices included, and the surplus is what of it stays unused.
 */
module MessageWeight {
  import opened Locations
  import opened Executor
  import opened Conservation

  /** Weight that can still be used, or has been found to be surplus. */
  function Due(c: Chain): nat {
    Weigh(c.program) + Weigh(c.handler) + Weigh(c.appendix) + c.surplus
  }

  predicate Executing(c: Chain) {
    c.running && c.program != []
  }

  /** Instructions executed in the first `n` steps. */
  function Executed(cfg: Config, c: Chain, n: nat): nat {
    if n == 0 then 0 else Executed(cfg, c, n - 1) + if Executing(Ticks(cfg, c, n - 1)) then 1 else 0
  }

  /** Surplus handed back in the first `n` steps, by instructions asking for it. */
  function Refunded(cfg: Config, c: Chain, n: nat): nat {
    if n == 0 then 0
    else
      var d := Ticks(cfg, c, n - 1);
      Refunded(cfg, c, n - 1) + if Executing(d) && d.program[0].RefundSurplus? then d.surplus else 0
  }

  lemma WeighRest(c: Chain)
    requires c.program != []
    ensures var i := c.program[0];
            Weigh(c.program) == UNIT_WEIGHT + Weigh(c.program[1..])
                                + if i.SetErrorHandler? || i.SetAppendix? then Weigh(i.xcm) else 0
  {
  }

  lemma ExecuteSurplus(cfg: Config, c: Chain, i: Instruction)
    ensures var d := Execute(cfg, c, i).chain;
            d.surplus == match i
                         case RefundSurplus => 0
                         case SetErrorHandler(_) => c.surplus + Weigh(c.handler)
                         case SetAppendix(_) => c.surplus + Weigh(c.appendix)
                         case _ => c.surplus
  {
    if MovesAssets(i) {
      MovingFrame(cfg, c, i);
    } else if i.ReserveAssetDeposited? && c.origin.Some? {
      ReceiveEachFrame(cfg, c, c.origin.value, i.assets);
    } else if i.ClaimAsset? && c.origin.Some? {
      ClaimFrame(cfg, c, c.origin.value, i.assets, i.ticket);
    }
  }

  /** Every step uses up one unit for an instruction and none otherwise. */
  lemma TickUses(cfg: Config, c: Chain)
    requires c.running
    ensures var d := Tick(cfg, c);
            d.running ==>
              Due(d) + (if Executing(c) then UNIT_WEIGHT + (if c.program[0].RefundSurplus? then c.surplus else 0) else 0) == Due(c)
    ensures !Tick(cfg, c).running ==> !Executing(c)
  {
    if c.program != [] {
      var rest := c.(program := c.program[1..]);
      WeighRest(c);
      ExecuteFrame(cfg, rest, c.program[0]);
      ExecuteSurplus(cfg, rest, c.program[0]);
    }
  }

  /** The weight used so far, by instructions and by refunds, together with what is due. */
  predicate Accounted(c: Chain, executed: nat, refunded: nat, weight: nat) {
    && UNIT_WEIGHT * executed + refunded <= weight
    && (c.running ==> UNIT_WEIGHT * executed + refunded + Due(c) == weight)
  }

  lemma TickIsAccounted(cfg: Config, c: Chain, executed: nat, refunded: nat, weight: nat)
    requires Accounted(c, executed, refunded, weight)
    ensures Accounted(Tick(cfg, c), executed + (if Executing(c) then 1 else 0),
                      refunded + (if Executing(c) && c.program[0].RefundSurplus? then c.surplus else 0), weight)
  {
    if c.running {
      TickUses(cfg, c);
    }
  }

  /**
   The account of a message's weight at any point of its run: what was executed, what was
   handed back, and what is still due add up to its weight exactly.
   */
  lemma {:induction false} WeightIsAccountedFor(cfg: Config, c: Chain, origin: Location, program: Program, n: nat)
    requires Idle(c)
    ensures var s := Start(c, origin, program);
            Accounted(Ticks(cfg, s, n), Executed(cfg, s, n), Refunded(cfg, s, n), Weigh(program))
  {
    if n > 0 {
      var s := Start(c, origin, program);
      WeightIsAccountedFor(cfg, c, origin, program, n - 1);
      TickIsAccounted(cfg, Ticks(cfg, s, n - 1), Executed(cfg, s, n - 1), Refunded(cfg, s, n - 1), Weigh(program));
    }
  }

  /** Steps that execute nothing move on to the appendix or end the message, so they never follow each other. */
  lemma IdleStep(cfg: Config, c: Chain)
    requires c.running && c.program == []
    ensures Executing(Tick(cfg, c)) || !Tick(cfg, c).running
  {
  }

  /** As long as a message runs, at least every other step executes an instruction. */
  lemma {:induction false} RunsByExecuting(cfg: Config, c: Chain, n: nat)
    requires Ticks(cfg, c, n).running
    ensures n <= 2 * Executed(cfg, c, n) + (if Executing(Ticks(cfg, c, n)) then 1 else 0)
  {
    if n > 0 {
      var d := Ticks(cfg, c, n - 1);
      RunsByExecuting(cfg, c, n - 1);
      if d.program == [] {
        IdleStep(cfg, d);
      }
    }
  }

  /** Every message ends, at the latest two steps for each unit of its weight after it began and one more. */
  lemma EveryMessageEnds(cfg: Config, c: Chain, origin: Location, program: Program, n: nat)
    requires Idle(c) && n * UNIT_WEIGHT > 2 * Weigh(program) + UNIT_WEIGHT
    ensures !Ticks(cfg, Start(c, origin, program), n).running
  {
    var s := Start(c, origin, program);
    if Ticks(cfg, s, n).running {
      WeightIsAccountedFor(cfg, c, origin, program, n);
      RunsByExecuting(cfg, s, n);
    }
  }
}
