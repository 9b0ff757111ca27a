/** The entry barrier: a deny rule first, then whatever the allow rule decides. */
module Barrier {
  import opened Prelude
  import opened Locations
  import opened Executor

  datatype ProcessMessageError = BadFormat | Corrupt | Unsupported | Overweight | Yield

  datatype Verdict = Accept | Reject(error: ProcessMessageError)

  /** A verdict together with the message and weight credit the rule leaves behind. */
  datatype Ruling = Ruling(verdict: Verdict, message: Program, credit: Weight)

  /** origin, message, maximum weight, weight credit */
  type Rule = (Location, Program, Weight, Weight) -> Ruling

  // ---------------------------------------------------------------------------
  // DenyReserveTransferToRelayChain
  // ---------------------------------------------------------------------------

  predicate ReserveTransferToRelay(i: Instruction) {
    match i
    case InitiateReserveWithdraw(_, reserve, _) => reserve == PARENT
    case DepositReserveAsset(_, dest, _) => dest == PARENT
    case TransferReserveAsset(_, dest, _) => dest == PARENT
    case _ => false
  }

  predicate Denied(message: Program) {
    exists i :: 0 <= i < |message| && ReserveTransferToRelay(message[i])
  }

  function DenyReserveTransferToRelayChain(origin: Location, message: Program, maxWeight: Weight, credit: Weight): Ruling {
    Ruling(if Denied(message) then Reject(Unsupported) else Accept, message, credit)
  }

  /** The rule as it scans: refuse on a match, otherwise warn about deposits reported by the relay chain. */
  method ScanReserveTransfers(origin: Location, message: Program, maxWeight: Weight, credit: Weight)
    returns (verdict: Verdict, warned: bool)
    ensures verdict == DenyReserveTransferToRelayChain(origin, message, maxWeight, credit).verdict
    ensures warned <==> verdict.Accept? && origin == PARENT && exists i :: i in message && i.ReserveAssetDeposited?
  {
    warned := false;
    for n := 0 to |message|
      invariant forall i :: 0 <= i < n ==> !ReserveTransferToRelay(message[i])
    {
      if ReserveTransferToRelay(message[n]) {
        return Reject(Unsupported), false;
      }
    }
    if origin == PARENT {
      for n := 0 to |message|
        invariant warned <==> exists i :: i in message[..n] && i.ReserveAssetDeposited?
      {
        assert message[..n + 1] == message[..n] + [message[n]];
        if message[n].ReserveAssetDeposited? {
          warned := true;
        }
      }
      assert message[..|message|] == message;
    }
    verdict := Accept;
  }

  // ---------------------------------------------------------------------------
  // DenyThenTry
  // ---------------------------------------------------------------------------

  function DenyThenTry(deny: Rule, allow: Rule): Rule {
    (origin, message, maxWeight, credit) =>
      var d := deny(origin, message, maxWeight, credit);
      if d.verdict.Reject? then d else allow(origin, d.message, maxWeight, d.credit)
  }

  /** A message waiting at the barrier; rules may rewrite it and spend its credit. */
  class Pending {
    var message: Program
    var credit: Weight

    method ShouldExecute(origin: Location, maxWeight: Weight, deny: Rule, allow: Rule) returns (verdict: Verdict)
      modifies this
      ensures Ruling(verdict, message, credit)
              == DenyThenTry(deny, allow)(origin, old(message), maxWeight, old(credit))
    {
      var d := deny(origin, message, maxWeight, credit);
      message, credit, verdict := d.message, d.credit, d.verdict;
      if verdict.Reject? {
        return;
      }
      var a := allow(origin, message, maxWeight, credit);
      message, credit, verdict := a.message, a.credit, a.verdict;
    }
  }

  /** The runtime's barrier around an arbitrary allow rule. */
  function RuntimeBarrier(allow: Rule): Rule {
    DenyThenTry((origin, message, maxWeight, credit) =>
                  DenyReserveTransferToRelayChain(origin, message, maxWeight, credit), allow)
  }

  /**
   For every allow rule: a message passes exactly when it holds no top-level
   reserve transfer to the relay chain and the allow rule takes it; a refused
   transfer leaves message and credit alone and makes the allow rule irrelevant.
   */
  lemma BarrierIsExact(allow: Rule, other: Rule, origin: Location, message: Program, maxWeight: Weight, credit: Weight)
    ensures var r := RuntimeBarrier(allow)(origin, message, maxWeight, credit);
            && (r.verdict.Accept? <==>
                 (forall i :: i in message ==> !ReserveTransferToRelay(i))
                 && allow(origin, message, maxWeight, credit).verdict.Accept?)
            && (Denied(message) ==>
                 r == Ruling(Reject(Unsupported), message, credit)
                 && r == RuntimeBarrier(other)(origin, message, maxWeight, credit))
            && (!Denied(message) ==> r == allow(origin, message, maxWeight, credit))
  {
    if i :| i in message && ReserveTransferToRelay(i) {
      var n :| 0 <= n < |message| && message[n] == i;
      assert Denied(message);
    }
  }

  /** The deny verdict reads neither origin nor order, and a concatenation is denied when either part is. */
  lemma DenyIsOrderFree(o1: Location, o2: Location, m1: Program, m2: Program, w: Weight, c: Weight)
    ensures multiset(m1) == multiset(m2) ==>
              DenyReserveTransferToRelayChain(o1, m1, w, c).verdict == DenyReserveTransferToRelayChain(o2, m2, w, c).verdict
    ensures Denied(m1 + m2) <==> Denied(m1) || Denied(m2)
  {
    if multiset(m1) == multiset(m2) {
      if Denied(m1) { SameElementsSameDenial(m1, m2); }
      if Denied(m2) { SameElementsSameDenial(m2, m1); }
    }
    if n :| 0 <= n < |m1| && ReserveTransferToRelay(m1[n]) {
      assert (m1 + m2)[n] == m1[n];
    } else if n :| 0 <= n < |m2| && ReserveTransferToRelay(m2[n]) {
      assert (m1 + m2)[|m1| + n] == m2[n];
    }
  }

  lemma SameElementsSameDenial(m1: Program, m2: Program)
    requires multiset(m1) == multiset(m2) && Denied(m1)
    ensures Denied(m2)
  {
    var n :| 0 <= n < |m1| && ReserveTransferToRelay(m1[n]);
    assert m1[n] in multiset(m2);
    var n' :| 0 <= n' < |m2| && m2[n'] == m1[n];
  }

  // ---------------------------------------------------------------------------
  // Composition
  // ---------------------------------------------------------------------------

  ghost predicate StatePreserving(r: Rule) {
    forall o, m, w, c :: r(o, m, w, c).message == m && r(o, m, w, c).credit == c
  }

  /** Both rules judge the message as it arrived; the first refusal is reported. */
  function BothDeny(d1: Rule, d2: Rule): Rule {
    (origin, message, maxWeight, credit) =>
      var r1 := d1(origin, message, maxWeight, credit);
      var r2 := d2(origin, message, maxWeight, credit);
      Ruling(if r1.verdict.Reject? then r1.verdict else r2.verdict, message, credit)
  }

  datatype Arrival = Arrival(origin: Location, message: Program, maxWeight: Weight)

  /** A whole queue of messages against one barrier, the credit carried from each to the next. */
  function Judge(rule: Rule, queue: seq<Arrival>, credit: Weight): (seq<Ruling>, Weight)
    decreases |queue|
  {
    if queue == [] then ([], credit)
    else
      var r := rule(queue[0].origin, queue[0].message, queue[0].maxWeight, credit);
      var (rest, last) := Judge(rule, queue[1..], r.credit);
      ([r] + rest, last)
  }

  ghost predicate SameRule(r1: Rule, r2: Rule) {
    forall o, m, w, c :: r1(o, m, w, c) == r2(o, m, w, c)
  }

  lemma {:induction false} SameRuleSameJudgement(r1: Rule, r2: Rule, queue: seq<Arrival>, credit: Weight)
    requires SameRule(r1, r2)
    ensures Judge(r1, queue, credit) == Judge(r2, queue, credit)
    decreases |queue|
  {
    if queue != [] {
      var a := queue[0];
      assert r1(a.origin, a.message, a.maxWeight, credit) == r2(a.origin, a.message, a.maxWeight, credit);
      SameRuleSameJudgement(r1, r2, queue[1..], r1(a.origin, a.message, a.maxWeight, credit).credit);
    }
  }

  /** The rule that lets everything pass as it is. */
  function PassAll(): Rule {
    (origin, message, maxWeight, credit) => Ruling(Accept, message, credit)
  }

  /** Combined with the rule that lets everything pass, on either side, a rule is itself, what it rewrites included. */
  lemma PassAllIsNeutral(r: Rule)
    ensures SameRule(DenyThenTry(PassAll(), r), r) && SameRule(DenyThenTry(r, PassAll()), r)
  {
  }

  /**
   Nesting is associative for any rules at all, and for state-preserving deny
   rules a nested barrier is one barrier with the combined rule: same verdicts,
   same rewritten messages and same final credit over every queue.
   */
  lemma NestingIsCombining(d1: Rule, d2: Rule, allow: Rule, queue: seq<Arrival>, credit: Weight)
    ensures Judge(DenyThenTry(d1, DenyThenTry(d2, allow)), queue, credit)
            == Judge(DenyThenTry(DenyThenTry(d1, d2), allow), queue, credit)
    ensures StatePreserving(d1) && StatePreserving(d2) ==>
              Judge(DenyThenTry(d1, DenyThenTry(d2, allow)), queue, credit)
              == Judge(DenyThenTry(BothDeny(d1, d2), allow), queue, credit)
  {
    var nested := DenyThenTry(d1, DenyThenTry(d2, allow));
    SameRuleSameJudgement(nested, DenyThenTry(DenyThenTry(d1, d2), allow), queue, credit);
    if StatePreserving(d1) && StatePreserving(d2) {
      var combined := DenyThenTry(BothDeny(d1, d2), allow);
      forall o, m, w, c ensures nested(o, m, w, c) == combined(o, m, w, c) {
        assert d1(o, m, w, c).message == m && d2(o, m, w, c).message == m;
        assert d1(o, m, w, c) == Ruling(d1(o, m, w, c).verdict, m, c);
        assert d2(o, m, w, c) == Ruling(d2(o, m, w, c).verdict, m, c);
      }
      SameRuleSameJudgement(nested, combined, queue, credit);
    }
  }
}
