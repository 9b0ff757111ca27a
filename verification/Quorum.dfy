/** The collective thresholds behind the governance origins. */
module Quorum {
  import opened Prelude

  /** An origin as the collective pallets present it. */
  datatype Origin = Root | Members(yes: nat, total: nat) | Unrelated

  predicate ProportionMoreThan(n: nat, d: nat, o: Origin) {
    o.Members? && o.yes * d > n * o.total
  }

  predicate ProportionAtLeast(n: nat, d: nat, o: Origin) {
    o.Members? && o.yes * d >= n * o.total
  }

  predicate RootOrMoreThanHalfCouncil(o: Origin) {
    o.Root? || ProportionMoreThan(1, 2, o)
  }

  predicate RootOrMoreThanHalfTechnicalCommittee(o: Origin) {
    o.Root? || ProportionAtLeast(1, 2, o)
  }

  predicate RootOrAllTechnicalCommittee(o: Origin) {
    o.Root? || ProportionAtLeast(1, 1, o)
  }

  function Motion<T>(ayes: set<T>, members: set<T>): Origin {
    Members(|ayes|, |members|)
  }

  lemma SizeOfUnion<T>(a: set<T>, b: set<T>, m: set<T>)
    requires a <= m && b <= m
    ensures |a| + |b| == |a + b| + |a * b| && |a + b| <= |m|
    ensures |a + b| == |m| ==> a + b == m
  {
    assert a + b == a + (b - a) && b == (b - a) + a * b;
    SubsetSize(a + b, m);
  }

  lemma SubsetSize<T>(s: set<T>, m: set<T>)
    requires s <= m
    ensures |s| <= |m| && (|s| == |m| ==> s == m)
  {
    assert m == s + (m - s);
    assert |m| == |s| + |m - s|;
  }

  /** Two council majorities on one member set always share a member. */
  lemma CouncilMajoritiesMeet<T>(a: set<T>, b: set<T>, members: set<T>)
    requires a <= members && b <= members
    requires RootOrMoreThanHalfCouncil(Motion(a, members)) && RootOrMoreThanHalfCouncil(Motion(b, members))
    ensures a * b != {}
  {
    SizeOfUnion(a, b, members);
  }

  lemma {:induction false} SubsetOfSize<T>(m: set<T>, n: nat) returns (s: set<T>)
    requires n <= |m|
    ensures s <= m && |s| == n
    decreases n
  {
    if n == 0 {
      s := {};
    } else {
      var x :| x in m;
      assert |m - {x}| == |m| - 1;
      var rest := SubsetOfSize(m - {x}, n - 1);
      s := rest + {x};
    }
  }

  /** Every set of `n` members has one in common with `a`. */
  ghost predicate MeetsAll<T(!new)>(a: set<T>, n: nat, members: set<T>) {
    forall b | b <= members && |b| == n :: a * b != {}
  }

  lemma MeetsAllIff<T(!new)>(a: set<T>, n: nat, members: set<T>)
    requires a <= members && n <= |members|
    ensures MeetsAll(a, n, members) <==> |a| + n > |members|
  {
    if |a| + n > |members| {
      forall b | b <= members && |b| == n ensures a * b != {} {
        SizeOfUnion(a, b, members);
      }
    } else {
      assert members == a + (members - a) && |members - a| == |members| - |a|;
      var b := SubsetOfSize(members - a, n);
      assert b <= members && a * b == {};
    }
  }

  /**
   The three thresholds without their fractions.  The council accepts exactly the vote sets
   that meet every set of their own size; the committee exactly those that meet every larger
   one; the unanimous origin exactly those that leave nobody out.
   */
  lemma ThresholdsAreExact<T(!new)>(a: set<T>, members: set<T>)
    requires a <= members
    ensures RootOrMoreThanHalfCouncil(Motion(a, members)) <==> MeetsAll(a, |a|, members)
    ensures RootOrMoreThanHalfTechnicalCommittee(Motion(a, members))
            <==> a == members || MeetsAll(a, |a| + 1, members)
    ensures RootOrAllTechnicalCommittee(Motion(a, members)) <==> forall x :: x in members ==> x in a
  {
    SubsetSize(a, members);
    MeetsAllIff(a, |a|, members);
    if a != members {
      MeetsAllIff(a, |a| + 1, members);
    }
  }

  /** Root passes every gate, and an origin that is neither Root nor a vote passes none. */
  lemma RootAlwaysPasses()
    ensures RootOrMoreThanHalfCouncil(Root) && RootOrMoreThanHalfTechnicalCommittee(Root) && RootOrAllTechnicalCommittee(Root)
    ensures !RootOrMoreThanHalfCouncil(Unrelated) && !RootOrMoreThanHalfTechnicalCommittee(Unrelated)
            && !RootOrAllTechnicalCommittee(Unrelated)
  {
  }

  ghost predicate SplitDecision<T>(a: set<T>, b: set<T>, members: set<T>) {
    && a <= members && b <= members && a !! b
    && RootOrMoreThanHalfTechnicalCommittee(Motion(a, members))
    && RootOrMoreThanHalfTechnicalCommittee(Motion(b, members))
  }

  lemma SplitsAreHalves<T>(a: set<T>, b: set<T>, members: set<T>)
    requires SplitDecision(a, b, members)
    ensures a + b == members && |a| == |b| && |members| == 2 * |a|
  {
    SizeOfUnion(a, b, members);
    assert a * b == {};
  }

  lemma EvenSetsSplit<T>(members: set<T>)
    requires |members| % 2 == 0
    ensures exists a, b :: SplitDecision(a, b, members)
  {
    var a := SubsetOfSize(members, |members| / 2);
    var b := members - a;
    assert members == a + b;
    assert |members| == |a| + |b|;
    assert SplitDecision(a, b, members);
  }

  /**
   The committee threshold accepts exactly half: disjoint halves can both pass, and do so
   exactly on member sets of even size, where each is one half and together they are all.
   */
  lemma CommitteeCanSplit<T>(members: set<T>)
    ensures (exists a, b :: SplitDecision(a, b, members)) <==> |members| % 2 == 0
    ensures forall a, b :: SplitDecision(a, b, members) ==> a + b == members && |a| == |b| && |members| == 2 * |a|
  {
    forall a, b | SplitDecision(a, b, members)
      ensures a + b == members && |a| == |b| && |members| == 2 * |a|
    {
      SplitsAreHalves(a, b, members);
    }
    if |members| % 2 == 0 {
      EvenSetsSplit(members);
    }
  }

  /** The unanimous origin needs every member, and with any member at all outranks the half. */
  lemma UnanimityIsEveryone<T>(ayes: set<T>, members: set<T>)
    requires ayes <= members
    ensures RootOrAllTechnicalCommittee(Motion(ayes, members)) <==> ayes == members
    ensures RootOrAllTechnicalCommittee(Motion(ayes, members)) ==> RootOrMoreThanHalfTechnicalCommittee(Motion(ayes, members))
  {
    SubsetSize(ayes, members);
  }

  // ---------------------------------------------------------------------------
  // Closing a motion, with default votes
  // ---------------------------------------------------------------------------

  /** How the members who did not vote are counted at the end of the voting period. */
  datatype DefaultVote = PrimeDefault | MajorityThenPrimeDefault

  datatype Collective<T(==)> = Collective(members: set<T>, prime: Option<T>, rule: DefaultVote)

  /** A threshold below two executes at once, on the proposer's vote alone. */
  datatype Ballot<T(==)> = Ballot(ayes: set<T>, nays: set<T>, threshold: nat)

  predicate Cast<T(==)>(c: Collective<T>, b: Ballot<T>) {
    && b.ayes <= c.members && b.nays <= c.members && b.ayes !! b.nays
    && (b.threshold < 2 ==> |b.ayes| == 1 && b.nays == {})
  }

  predicate PrimeAye<T(==)>(c: Collective<T>, b: Ballot<T>) {
    c.prime.Some? && c.prime.value in b.ayes
  }

  predicate DefaultsToAye<T(==)>(c: Collective<T>, b: Ballot<T>) {
    match c.rule
    case PrimeDefault => PrimeAye(c, b)
    case MajorityThenPrimeDefault => 2 * |b.ayes| > |c.members| || PrimeAye(c, b)
  }

  function Abstaining<T(==)>(c: Collective<T>, b: Ballot<T>): set<T> {
    c.members - b.ayes - b.nays
  }

  /** The origin an approved motion is executed with; defaults are used only when the votes alone decide nothing. */
  function Close<T(==)>(c: Collective<T>, b: Ballot<T>): Option<Origin> {
    var yes, seats := |b.ayes|, |c.members|;
    if yes >= b.threshold then Some(Members(yes, seats))
    else if seats < b.threshold + |b.nays| then None
    else
      var counted := yes + if DefaultsToAye(c, b) then |Abstaining(c, b)| else 0;
      if counted >= b.threshold then Some(Members(counted, seats)) else None
  }

  predicate CouncilPasses<T(==)>(c: Collective<T>, b: Ballot<T>) {
    Cast(c, b) && Close(c, b).Some? && RootOrMoreThanHalfCouncil(Close(c, b).value)
  }

  predicate CommitteePasses<T(==)>(c: Collective<T>, b: Ballot<T>) {
    Cast(c, b) && Close(c, b).Some? && RootOrMoreThanHalfTechnicalCommittee(Close(c, b).value)
  }

  predicate AllPasses<T(==)>(c: Collective<T>, b: Ballot<T>) {
    Cast(c, b) && Close(c, b).Some? && RootOrAllTechnicalCommittee(Close(c, b).value)
  }

  lemma EveryoneVotesOrAbstains<T>(c: Collective<T>, b: Ballot<T>)
    requires Cast(c, b)
    ensures |b.ayes| + |b.nays| + |Abstaining(c, b)| == |c.members|
  {
    assert c.members == b.ayes + b.nays + Abstaining(c, b);
    assert |b.ayes + b.nays| == |b.ayes| + |b.nays|;
  }

  /** What the default makes of the members who did not vote: all ayes, or all nays. */
  predicate SilenceIsAye<T(==)>(c: Collective<T>, b: Ballot<T>) {
    || (exists p :: p in b.ayes && c.prime == Some(p))
    || (c.rule == MajorityThenPrimeDefault && |b.ayes| > |c.members - b.ayes|)
  }

  /** Either the ayes reach the threshold, or they do once nobody but the nays is against. */
  predicate Decided<T(==)>(c: Collective<T>, b: Ballot<T>, yes: nat) {
    || (b.threshold <= |b.ayes| && yes == |b.ayes|)
    || (|b.ayes| < b.threshold <= |c.members - b.nays| && SilenceIsAye(c, b) && yes == |c.members - b.nays|)
  }

  lemma Without<T>(s: set<T>, t: set<T>)
    requires t <= s
    ensures |s - t| == |s| - |t|
  {
    assert s == t + (s - t);
  }

  lemma SilenceIsDefault<T>(c: Collective<T>, b: Ballot<T>)
    requires Cast(c, b)
    ensures SilenceIsAye(c, b) <==> DefaultsToAye(c, b)
  {
    Without(c.members, b.ayes);
  }

  /** The votes a motion is closed with. */
  lemma ClosedIff<T>(c: Collective<T>, b: Ballot<T>, yes: nat)
    requires Cast(c, b)
    ensures Close(c, b) == Some(Members(yes, |c.members|)) <==> Decided(c, b, yes)
    ensures Close(c, b).Some? ==> Close(c, b).value.Members? && Close(c, b).value.total == |c.members|
  {
    SilenceIsDefault(c, b);
    EveryoneVotesOrAbstains(c, b);
    Without(c.members, b.nays);
  }

  /** When a motion passes each gate, by its votes alone. */
  lemma PassingIff<T(!new)>(c: Collective<T>, b: Ballot<T>)
    requires Cast(c, b)
    ensures CouncilPasses(c, b) <==> exists yes: nat :: Decided(c, b, yes) && yes > |c.members| - yes
    ensures CommitteePasses(c, b) <==> exists yes: nat :: Decided(c, b, yes) && yes >= |c.members| - yes
    ensures AllPasses(c, b) <==> exists yes: nat :: Decided(c, b, yes) && yes >= |c.members|
  {
    ClosedIff(c, b, 0);
    if Close(c, b).Some? {
      ClosedIff(c, b, Close(c, b).value.yes);
    }
    forall yes: nat | Decided(c, b, yes) ensures Close(c, b) == Some(Members(yes, |c.members|)) {
      ClosedIff(c, b, yes);
    }
  }

  /** The motion did not pass on its ayes: the prime's vote made the abstainers count for it. */
  predicate CarriedByPrime<T(==)>(c: Collective<T>, b: Ballot<T>) {
    PrimeAye(c, b) && |b.ayes| < b.threshold <= |c.members| - |b.nays|
  }

  lemma PassingNeedsMajorityOrPrime<T>(c: Collective<T>, b: Ballot<T>)
    requires Cast(c, b)
    ensures CouncilPasses(c, b) ==> 2 * |b.ayes| > |c.members| || CarriedByPrime(c, b)
    ensures CommitteePasses(c, b) ==> 2 * |b.ayes| >= |c.members| || CarriedByPrime(c, b)
  {
    EveryoneVotesOrAbstains(c, b);
  }

  /**
   Two passing council motions have a member who voted aye on both, unless an explicit
   majority that lacks the prime carries one while the prime's default carries the other.
   */
  lemma CouncilMotionsMeet<T>(c: Collective<T>, a: Ballot<T>, b: Ballot<T>)
    requires CouncilPasses(c, a) && CouncilPasses(c, b) && a.ayes !! b.ayes
    ensures || (CarriedByPrime(c, a) && 2 * |b.ayes| > |c.members| && !PrimeAye(c, b))
            || (CarriedByPrime(c, b) && 2 * |a.ayes| > |c.members| && !PrimeAye(c, a))
  {
    PassingNeedsMajorityOrPrime(c, a);
    PassingNeedsMajorityOrPrime(c, b);
    SizeOfUnion(a.ayes, b.ayes, c.members);
    assert a.ayes * b.ayes == {};
  }

  /** The prime's lone vote against a majority of all the others. */
  lemma PrimeAgainstMajority<T>(c: Collective<T>) returns (a: Ballot<T>, b: Ballot<T>)
    requires c.prime.Some? && c.prime.value in c.members && |c.members| >= 3
    ensures CouncilPasses(c, a) && CommitteePasses(c, a) && CouncilPasses(c, b) && CommitteePasses(c, b)
    ensures a.ayes !! b.ayes && b.ayes == {c.prime.value}
  {
    var p, n := c.prime.value, |c.members|;
    var others := c.members - {p};
    assert |others| == n - 1;
    var majority := SubsetOfSize(others, n / 2 + 1);
    a, b := Ballot(majority, {}, n / 2 + 1), Ballot({p}, {}, 2);
    EveryoneVotesOrAbstains(c, b);
  }

  ghost predicate CouncilCanSplit<T(!new)>(c: Collective<T>) {
    exists a, b :: CouncilPasses(c, a) && CouncilPasses(c, b) && a.ayes !! b.ayes
  }

  ghost predicate CommitteeCanSplitAtClose<T(!new)>(c: Collective<T>) {
    exists a, b :: CommitteePasses(c, a) && CommitteePasses(c, b) && a.ayes !! b.ayes
  }

  /** Council motions without a common aye can both pass exactly when there is a prime among three or more members. */
  lemma CouncilSplitsIff<T(!new)>(c: Collective<T>)
    ensures CouncilCanSplit(c) <==> c.prime.Some? && c.prime.value in c.members && |c.members| >= 3
  {
    if c.prime.Some? && c.prime.value in c.members && |c.members| >= 3 {
      var a, b := PrimeAgainstMajority(c);
    } else if CouncilCanSplit(c) {
      var a, b :| CouncilPasses(c, a) && CouncilPasses(c, b) && a.ayes !! b.ayes;
      CouncilMotionsMeet(c, a, b);
      if CarriedByPrime(c, a) { LonePrime(c, a, b); } else { LonePrime(c, b, a); }
    }
  }

  /** A majority besides the prime's own motion leaves room for a third member. */
  lemma LonePrime<T>(c: Collective<T>, own: Ballot<T>, other: Ballot<T>)
    requires Cast(c, own) && Cast(c, other) && own.ayes !! other.ayes
    requires PrimeAye(c, own) && 2 * |other.ayes| > |c.members|
    ensures c.prime.value in c.members && |c.members| >= 3
  {
    SizeOfUnion({c.prime.value}, other.ayes, c.members);
    assert {c.prime.value} * other.ayes == {};
  }

  lemma HalvesPass<T>(c: Collective<T>) returns (a: Ballot<T>, b: Ballot<T>)
    requires |c.members| % 2 == 0 && c.members != {}
    ensures CommitteePasses(c, a) && CommitteePasses(c, b) && a.ayes !! b.ayes
  {
    var half := |c.members| / 2;
    var left := SubsetOfSize(c.members, half);
    var right := c.members - left;
    assert c.members == left + right;
    a, b := Ballot(left, {}, half), Ballot(right, {}, half);
  }

  /** Of two such committee motions each is exactly one half, or again the prime's default carries one of them. */
  lemma CommitteeMotionsMeet<T>(c: Collective<T>, a: Ballot<T>, b: Ballot<T>)
    requires CommitteePasses(c, a) && CommitteePasses(c, b) && a.ayes !! b.ayes
    ensures || (c.members != {} && 2 * |a.ayes| == |c.members| == 2 * |b.ayes|)
            || (CarriedByPrime(c, a) && 2 * |b.ayes| >= |c.members| && !PrimeAye(c, b))
            || (CarriedByPrime(c, b) && 2 * |a.ayes| >= |c.members| && !PrimeAye(c, a))
  {
    PassingNeedsMajorityOrPrime(c, a);
    PassingNeedsMajorityOrPrime(c, b);
    SizeOfUnion(a.ayes, b.ayes, c.members);
    assert a.ayes * b.ayes == {};
    if c.members == {} {
      assert a.ayes == {} && |c.members| == 0;
    }
  }

  lemma SplitNeedsParityOrPrime<T>(c: Collective<T>, a: Ballot<T>, b: Ballot<T>)
    requires CommitteePasses(c, a) && CommitteePasses(c, b) && a.ayes !! b.ayes && |c.members| % 2 == 1
    ensures c.prime.Some? && c.prime.value in c.members && |c.members| >= 3
  {
    CommitteeMotionsMeet(c, a, b);
    if CarriedByPrime(c, a) {
      LonePrime(c, a, b);
    } else {
      LonePrime(c, b, a);
    }
  }

  /** For the committee an even number of members is enough as well. */
  lemma CommitteeSplitsIff<T(!new)>(c: Collective<T>)
    ensures CommitteeCanSplitAtClose(c) <==>
              (c.members != {} && |c.members| % 2 == 0)
              || (c.prime.Some? && c.prime.value in c.members && |c.members| >= 3)
  {
    if CommitteeCanSplitAtClose(c) {
      var a, b :| CommitteePasses(c, a) && CommitteePasses(c, b) && a.ayes !! b.ayes;
      CommitteeMotionsMeet(c, a, b);
      if |c.members| % 2 == 1 { SplitNeedsParityOrPrime(c, a, b); }
    } else if c.members != {} && |c.members| % 2 == 0 {
      var a, b := HalvesPass(c);
    } else if c.prime.Some? && c.prime.value in c.members && |c.members| >= 3 {
      var a, b := PrimeAgainstMajority(c);
    }
  }

  /**
   A closed motion counts as unanimous exactly when everybody voted aye, or when nobody voted
   nay, the votes alone did not decide, and the default is aye: the prime alone can be enough.
   */
  lemma UnanimousIff<T>(c: Collective<T>, b: Ballot<T>)
    requires Cast(c, b)
    ensures AllPasses(c, b) <==>
              (b.ayes == c.members && b.threshold <= |c.members|)
              || (b.nays == {} && |b.ayes| < b.threshold <= |c.members| && DefaultsToAye(c, b))
  {
    EveryoneVotesOrAbstains(c, b);
    SubsetSize(b.ayes, c.members);
  }
}
