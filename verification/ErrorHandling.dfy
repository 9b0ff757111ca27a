/** Which of its programs a message runs: the handler if something fails, the appendix in any case. */
module ErrorHandling {
  import opened Locations
  import opened Assets
  import opened Executor
  import opened Conservation
  import opened Effects

  /** Leaves handler and appendix as they are. */
  predicate SetsNothing(p: Program) {
    forall i :: i in p ==> !i.SetErrorHandler? && !i.SetAppendix?
  }

  /** The first `n` instructions all succeed, one after the other. */
  predicate Survives(cfg: Config, c: Chain, n: nat)
    decreases n
  {
    n == 0
    || (c.program != []
        && var out := Execute(cfg, c.(program := c.program[1..]), c.program[0]);
           out.Done? && Survives(cfg, out.chain, n - 1))
  }

  lemma PlainStep(cfg: Config, c: Chain)
    requires c.running && c.program != [] && SetsNothing(c.program)
    ensures var rest := c.program[1..];
            var out := Execute(cfg, c.(program := rest), c.program[0]);
            && SetsNothing(rest)
            && (out.Done? ==>
                  Tick(cfg, c) == out.chain && out.chain.running && out.chain.program == rest
                  && out.chain.handler == c.handler && out.chain.appendix == c.appendix)
            && (out.Failed? ==>
                  var d := Tick(cfg, c);
                  && d.running && d.handler == []
                  && d.surplus == out.chain.surplus + Weigh(rest)
                  && (if c.handler != [] then d.program == c.handler && d.appendix == c.appendix
                      else d.program == c.appendix && d.appendix == []))
  {
    assert c.program[0] in c.program;
    ExecuteFrame(cfg, c.(program := c.program[1..]), c.program[0]);
  }

  lemma OneTick(cfg: Config, c: Chain)
    ensures LeadsTo(cfg, c, Tick(cfg, c))
  {
    assert Ticks(cfg, c, 1) == Tick(cfg, Ticks(cfg, c, 0));
    Leads(cfg, c, 1);
  }

  ghost predicate GoesOnWith(cfg: Config, c: Chain, p: Program, handler: Program, appendix: Program) {
    exists d :: LeadsTo(cfg, c, d) && d.running && d.program == p && d.handler == handler && d.appendix == appendix
  }

  lemma GoesOnLater(cfg: Config, c: Chain, p: Program, handler: Program, appendix: Program)
    requires GoesOnWith(cfg, Tick(cfg, c), p, handler, appendix)
    ensures GoesOnWith(cfg, c, p, handler, appendix)
  {
    var d :| LeadsTo(cfg, Tick(cfg, c), d) && d.running && d.program == p && d.handler == handler && d.appendix == appendix;
    OneTick(cfg, c);
    LeadsOn(cfg, c, Tick(cfg, c), d);
  }

  /**
   A program with a handler either succeeds in every instruction and comes to its end with
   the handler unused, or it fails somewhere and goes on with the handler; which of the two
   is settled by its instructions alone.
   */
  lemma {:induction false} HandlerRunsIff(cfg: Config, c: Chain)
    requires c.running && SetsNothing(c.program) && c.handler != []
    ensures Survives(cfg, c, |c.program|) ==> GoesOnWith(cfg, c, [], c.handler, c.appendix)
    ensures !Survives(cfg, c, |c.program|) ==> GoesOnWith(cfg, c, c.handler, [], c.appendix)
    decreases |c.program|
  {
    if c.program == [] {
      Leads(cfg, c, 0);
    } else {
      PlainStep(cfg, c);
      var d := Tick(cfg, c);
      if Execute(cfg, c.(program := c.program[1..]), c.program[0]).Done? {
        HandlerRunsIff(cfg, d);
        if Survives(cfg, c, |c.program|) {
          GoesOnLater(cfg, c, [], c.handler, c.appendix);
        } else {
          GoesOnLater(cfg, c, c.handler, [], c.appendix);
        }
      } else {
        OneTick(cfg, c);
      }
    }
  }

  /** The appendix runs in any case: after the program, after the handler, or after either of them fails. */
  lemma {:induction false} AppendixRuns(cfg: Config, c: Chain)
    requires c.running && c.appendix != [] && SetsNothing(c.program) && SetsNothing(c.handler)
    ensures GoesOnWith(cfg, c, c.appendix, [], [])
    decreases |c.handler|, |c.program|
  {
    OneTick(cfg, c);
    if c.program != [] {
      PlainStep(cfg, c);
      var d := Tick(cfg, c);
      if Execute(cfg, c.(program := c.program[1..]), c.program[0]).Done? || c.handler != [] {
        AppendixRuns(cfg, d);
        GoesOnLater(cfg, c, c.appendix, [], []);
      }
    }
  }

  /** Whoever a message comes from stays the one it came from. */
  lemma {:induction false} SenderIsRemembered(cfg: Config, c: Chain, n: nat)
    ensures Ticks(cfg, c, n).original == c.original
  {
    if n > 0 {
      SenderIsRemembered(cfg, c, n - 1);
      var d := Ticks(cfg, c, n - 1);
      if d.running && d.program != [] {
        ExecuteFrame(cfg, d.(program := d.program[1..]), d.program[0]);
      }
    }
  }

  /** So what is left over when a message has given its origin up can be claimed by its sender. */
  lemma LeftoversBelongToTheSender(cfg: Config, c: Chain, sender: Location, program: Program, n: nat, k: AssetClass)
    requires Idle(c)
    ensures var d := Ticks(cfg, Start(c, sender, program), n);
            var left := ExecRefund(cfg, d).chain.holding;
            d.running && d.origin.None? && left != [] && |left| <= 128 ==>
              var out := ExecClaim(cfg, Start(Finish(cfg, d), sender, program), sender, left, HERE);
              out.Done? && Sum(k, out.chain.holding) == Sum(k, left)
  {
    var d := Ticks(cfg, Start(c, sender, program), n);
    SenderIsRemembered(cfg, Start(c, sender, program), n);
    if d.running && d.origin.None? && ExecRefund(cfg, d).chain.holding != [] {
      TrapThenClaim(cfg, d, program, k);
    }
  }
}
