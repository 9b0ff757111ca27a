/** Benchmark weights: trees of saturating additions and multiplications over 64-bit pairs. */
module Weights {
  import opened Prelude

  datatype DbWeight = DbWeight(read: nat, write: nat)

  /** The complexity parameters of a call. */
  type Components = nat -> nat

  datatype Scalar = Lit(n: nat) | Component(i: nat) | Times(a: Scalar, b: Scalar)

  datatype Expr =
    | Parts(refTime: nat, proofSize: nat)
    | Plus(x: Expr, y: Expr)
    | Scaled(x: Expr, factor: Scalar)
    | Reads(count: Scalar)
    | Writes(count: Scalar)
  {
    function SaturatingAdd(e: Expr): Expr {
      Plus(this, e)
    }

    function SaturatingMul(s: Scalar): Expr {
      Scaled(this, s)
    }
  }

  function Cap(n: nat): nat {
    Min(n, U64_MAX)
  }

  function Add(a: Weight, b: Weight): Weight {
    Weight(a.refTime + b.refTime, a.proofSize + b.proofSize)
  }

  function CapTimes(a: nat, b: nat): nat {
    Cap(a * b)
  }

  // ---------------------------------------------------------------------------
  // Saturating at every node, and exact
  // ---------------------------------------------------------------------------

  function SatScalar(env: Components, s: Scalar): nat {
    match s
    case Lit(n) => Cap(n)
    case Component(i) => Cap(env(i))
    case Times(a, b) => CapTimes(SatScalar(env, a), SatScalar(env, b))
  }

  function SatWeight(db: DbWeight, env: Components, e: Expr): Weight {
    match e
    case Parts(t, p) => Weight(Cap(t), Cap(p))
    case Plus(x, y) =>
      var a, b := SatWeight(db, env, x), SatWeight(db, env, y);
      Weight(Cap(a.refTime + b.refTime), Cap(a.proofSize + b.proofSize))
    case Scaled(x, s) =>
      var a, k := SatWeight(db, env, x), SatScalar(env, s);
      Weight(CapTimes(a.refTime, k), CapTimes(a.proofSize, k))
    case Reads(s) => Weight(CapTimes(Cap(db.read), SatScalar(env, s)), 0)
    case Writes(s) => Weight(CapTimes(Cap(db.write), SatScalar(env, s)), 0)
  }

  function ExactScalar(env: Components, s: Scalar): nat {
    match s
    case Lit(n) => n
    case Component(i) => env(i)
    case Times(a, b) => ExactScalar(env, a) * ExactScalar(env, b)
  }

  function ExactWeight(db: DbWeight, env: Components, e: Expr): Weight {
    match e
    case Parts(t, p) => Weight(t, p)
    case Plus(x, y) => Add(ExactWeight(db, env, x), ExactWeight(db, env, y))
    case Scaled(x, s) =>
      var a, k := ExactWeight(db, env, x), ExactScalar(env, s);
      Weight(a.refTime * k, a.proofSize * k)
    case Reads(s) => Weight(db.read * ExactScalar(env, s), 0)
    case Writes(s) => Weight(db.write * ExactScalar(env, s), 0)
  }

  lemma CapMul(x: nat, y: nat)
    ensures Cap(Cap(x) * Cap(y)) == Cap(x * y)
  {
    if x > U64_MAX && y > 0 {
      Larger(x, y);
      Larger(U64_MAX, Cap(y));
    } else if y > U64_MAX && x > 0 {
      Larger(y, x);
      Larger(U64_MAX, Cap(x));
    }
  }

  lemma Larger(a: nat, b: nat)
    requires b > 0
    ensures a * b >= a && b * a >= a
  {
  }

  lemma {:induction false} ScalarSaturatesOnce(env: Components, s: Scalar)
    ensures SatScalar(env, s) == Cap(ExactScalar(env, s))
  {
    if s.Times? {
      ScalarSaturatesOnce(env, s.a);
      ScalarSaturatesOnce(env, s.b);
      CapMul(ExactScalar(env, s.a), ExactScalar(env, s.b));
    }
  }

  /** Saturating at every node of any tree is saturating the exact value once, in both dimensions. */
  lemma {:induction false} SaturatesOnce(db: DbWeight, env: Components, e: Expr)
    ensures var w := ExactWeight(db, env, e);
            SatWeight(db, env, e) == Weight(Cap(w.refTime), Cap(w.proofSize))
  {
    match e
    case Parts(_, _) =>
    case Plus(x, y) =>
      SaturatesOnce(db, env, x);
      SaturatesOnce(db, env, y);
    case Scaled(x, s) =>
      SaturatesOnce(db, env, x);
      ScalarSaturatesOnce(env, s);
      var w, k := ExactWeight(db, env, x), ExactScalar(env, s);
      CapMul(w.refTime, k);
      CapMul(w.proofSize, k);
    case Reads(s) =>
      ScalarSaturatesOnce(env, s);
      CapMul(db.read, ExactScalar(env, s));
    case Writes(s) =>
      ScalarSaturatesOnce(env, s);
      CapMul(db.write, ExactScalar(env, s));
  }

  // ---------------------------------------------------------------------------
  // Monotone in every component
  // ---------------------------------------------------------------------------

  ghost predicate NoLarger(env: Components, env': Components) {
    forall i :: env(i) <= env'(i)
  }

  lemma MulMonotoneBoth(a: nat, b: nat, c: nat, d: nat)
    requires a <= c && b <= d
    ensures a * b <= c * d
  {
    assert a * b <= c * b <= c * d;
  }

  lemma {:induction false} ScalarMonotone(env: Components, env': Components, s: Scalar)
    requires NoLarger(env, env')
    ensures ExactScalar(env, s) <= ExactScalar(env', s)
  {
    if s.Times? {
      ScalarMonotone(env, env', s.a);
      ScalarMonotone(env, env', s.b);
      MulMonotoneBoth(ExactScalar(env, s.a), ExactScalar(env, s.b), ExactScalar(env', s.a), ExactScalar(env', s.b));
    }
  }

  lemma {:induction false} ExactMonotone(db: DbWeight, env: Components, env': Components, e: Expr)
    requires NoLarger(env, env')
    ensures ExactWeight(db, env, e).refTime <= ExactWeight(db, env', e).refTime
    ensures ExactWeight(db, env, e).proofSize <= ExactWeight(db, env', e).proofSize
  {
    match e
    case Parts(_, _) =>
    case Plus(x, y) =>
      ExactMonotone(db, env, env', x);
      ExactMonotone(db, env, env', y);
    case Scaled(x, s) =>
      ExactMonotone(db, env, env', x);
      ScalarMonotone(env, env', s);
      var w, k, w', k' := ExactWeight(db, env, x), ExactScalar(env, s), ExactWeight(db, env', x), ExactScalar(env', s);
      MulMonotoneBoth(w.refTime, k, w'.refTime, k');
      MulMonotoneBoth(w.proofSize, k, w'.proofSize, k');
    case Reads(s) =>
      ScalarMonotone(env, env', s);
      MulMonotoneBoth(db.read, ExactScalar(env, s), db.read, ExactScalar(env', s));
    case Writes(s) =>
      ScalarMonotone(env, env', s);
      MulMonotoneBoth(db.write, ExactScalar(env, s), db.write, ExactScalar(env', s));
  }

  /** A larger component never makes any weight expression cheaper, saturated or not. */
  lemma WeightMonotone(db: DbWeight, env: Components, env': Components, e: Expr)
    requires NoLarger(env, env')
    ensures SatWeight(db, env, e).refTime <= SatWeight(db, env', e).refTime
    ensures SatWeight(db, env, e).proofSize <= SatWeight(db, env', e).proofSize
  {
    SaturatesOnce(db, env, e);
    SaturatesOnce(db, env', e);
    ExactMonotone(db, env, env', e);
  }

  // ---------------------------------------------------------------------------
  // Independent of the order of summation
  // ---------------------------------------------------------------------------

  /** The chain of additions the benchmarks write, in the order given. */
  function Chain(first: Expr, rest: seq<Expr>): Expr
    decreases |rest|
  {
    if rest == [] then first else Chain(first.SaturatingAdd(rest[0]), rest[1..])
  }

  function ExactTotal(db: DbWeight, env: Components, es: seq<Expr>): Weight {
    if es == [] then Weight(0, 0) else Add(ExactWeight(db, env, es[0]), ExactTotal(db, env, es[1..]))
  }

  lemma {:induction false} ChainIsTotal(db: DbWeight, env: Components, first: Expr, rest: seq<Expr>)
    ensures ExactWeight(db, env, Chain(first, rest)) == ExactTotal(db, env, [first] + rest)
    decreases |rest|
  {
    assert ([first] + rest)[1..] == rest;
    if rest == [] {
      assert [first] + rest == [first];
    } else {
      var next := first.SaturatingAdd(rest[0]);
      ChainIsTotal(db, env, next, rest[1..]);
      assert ([next] + rest[1..])[1..] == rest[1..];
    }
  }

  lemma {:induction false} TotalWithout(db: DbWeight, env: Components, es: seq<Expr>, i: nat)
    requires i < |es|
    ensures ExactTotal(db, env, es) == Add(ExactWeight(db, env, es[i]), ExactTotal(db, env, es[..i] + es[i + 1..]))
    decreases |es|
  {
    var others := es[..i] + es[i + 1..];
    if i == 0 {
      assert others == es[1..];
    } else {
      TotalWithout(db, env, es[1..], i - 1);
      assert others[0] == es[0];
      assert others[1..] == es[1..][..i - 1] + es[1..][i..];
    }
  }

  lemma FindFirst(es: seq<Expr>, fs: seq<Expr>) returns (i: nat)
    requires es != [] && multiset(es) == multiset(fs)
    ensures i < |fs| && fs[i] == es[0]
    ensures multiset(es[1..]) == multiset(fs[..i] + fs[i + 1..])
  {
    assert es == [es[0]] + es[1..];
    assert es[0] in multiset(fs);
    i :| 0 <= i < |fs| && fs[i] == es[0];
    assert fs == fs[..i] + [fs[i]] + fs[i + 1..];
    calc {
      multiset(es[1..]);
      multiset(es) - multiset{es[0]};
      multiset(fs) - multiset{es[0]};
      { assert multiset(fs) == multiset(fs[..i]) + multiset{fs[i]} + multiset(fs[i + 1..]); }
      multiset(fs[..i]) + multiset(fs[i + 1..]);
      multiset(fs[..i] + fs[i + 1..]);
    }
  }

  lemma {:induction false} TotalIsOrderFree(db: DbWeight, env: Components, es: seq<Expr>, fs: seq<Expr>)
    requires multiset(es) == multiset(fs)
    ensures ExactTotal(db, env, es) == ExactTotal(db, env, fs)
    decreases |es|
  {
    if es == [] {
      assert |multiset(fs)| == 0;
    } else {
      var i := FindFirst(es, fs);
      TotalIsOrderFree(db, env, es[1..], fs[..i] + fs[i + 1..]);
      TotalWithout(db, env, fs, i);
    }
  }

  /** The terms of a saturating chain may be added in any order. */
  lemma ChainIsOrderFree(db: DbWeight, env: Components, e: Expr, es: seq<Expr>, f: Expr, fs: seq<Expr>)
    requires multiset([e] + es) == multiset([f] + fs)
    ensures SatWeight(db, env, Chain(e, es)) == SatWeight(db, env, Chain(f, fs))
  {
    SaturatesOnce(db, env, Chain(e, es));
    SaturatesOnce(db, env, Chain(f, fs));
    ChainIsTotal(db, env, e, es);
    ChainIsTotal(db, env, f, fs);
    TotalIsOrderFree(db, env, [e] + es, [f] + fs);
  }

  // ---------------------------------------------------------------------------
  // Weight functions of the collective pallet
  // ---------------------------------------------------------------------------

  const B: Scalar := Component(0)
  const M: Scalar := Component(1)
  const P: Scalar := Component(2)

  /** `set_members(m, _, p)` */
  const SET_MEMBERS: seq<Expr> := [
    Parts(19_780_000, 0),
    Parts(0, 15728),
    Parts(4_733_097, 0).SaturatingMul(M),
    Parts(7_913_656, 0).SaturatingMul(P),
    Reads(Lit(2)),
    Reads(Times(Lit(1), P)),
    Writes(Lit(2)),
    Writes(Times(Lit(1), P)),
    Parts(0, 1967).SaturatingMul(M),
    Parts(0, 4332).SaturatingMul(P)]

  /** `close_approved(b, m, p)` */
  const CLOSE_APPROVED: seq<Expr> := [
    Parts(40_816_742, 0),
    Parts(0, 4036),
    Parts(1_842, 0).SaturatingMul(B),
    Parts(20_012, 0).SaturatingMul(M),
    Parts(208_678, 0).SaturatingMul(P),
    Reads(Lit(5)),
    Writes(Lit(3)),
    Parts(0, 1).SaturatingMul(B),
    Parts(0, 66).SaturatingMul(M),
    Parts(0, 40).SaturatingMul(P)]

  function Benchmark(terms: seq<Expr>): Expr
    requires terms != []
  {
    Chain(terms[0], terms[1..])
  }

  /** Running totals of a chain, one term at a time. */
  lemma ChainStep(db: DbWeight, env: Components, terms: seq<Expr>, i: nat)
    requires i < |terms|
    ensures ExactTotal(db, env, terms[i..]) == Add(ExactWeight(db, env, terms[i]), ExactTotal(db, env, terms[i + 1..]))
  {
    assert terms[i..][0] == terms[i] && terms[i..][1..] == terms[i + 1..];
  }

  lemma BenchmarkIsCappedTotal(db: DbWeight, env: Components, terms: seq<Expr>)
    requires terms != []
    ensures var w := ExactTotal(db, env, terms);
            SatWeight(db, env, Benchmark(terms)) == Weight(Cap(w.refTime), Cap(w.proofSize))
  {
    SaturatesOnce(db, env, Benchmark(terms));
    ChainIsTotal(db, env, terms[0], terms[1..]);
    assert [terms[0]] + terms[1..] == terms;
  }

  lemma SetMembersTerms(db: DbWeight, env: Components)
    ensures var m, p, t := env(1), env(2), SET_MEMBERS;
            && ExactWeight(db, env, t[0]) == Weight(19_780_000, 0)
            && ExactWeight(db, env, t[1]) == Weight(0, 15728)
            && ExactWeight(db, env, t[2]) == Weight(4_733_097 * m, 0)
            && ExactWeight(db, env, t[3]) == Weight(7_913_656 * p, 0)
            && ExactWeight(db, env, t[4]) == Weight(db.read * 2, 0)
            && ExactWeight(db, env, t[5]) == Weight(db.read * p, 0)
            && ExactWeight(db, env, t[6]) == Weight(db.write * 2, 0)
            && ExactWeight(db, env, t[7]) == Weight(db.write * p, 0)
            && ExactWeight(db, env, t[8]) == Weight(0, 1967 * m)
            && ExactWeight(db, env, t[9]) == Weight(0, 4332 * p)
  {
    assert ExactScalar(env, Times(Lit(1), P)) == env(2);
  }

  lemma TenTerms(db: DbWeight, env: Components, t: seq<Expr>)
    requires |t| == 10
    ensures var w := (i: nat) requires i < 10 => ExactWeight(db, env, t[i]);
            ExactTotal(db, env, t) ==
            Add(w(0), Add(w(1), Add(w(2), Add(w(3), Add(w(4), Add(w(5), Add(w(6), Add(w(7), Add(w(8), w(9))))))))))
  {
    assert t[0..] == t && t[10..] == [];
    assert ExactTotal(db, env, t[10..]) == Weight(0, 0);
    ChainStep(db, env, t, 9);
    ChainStep(db, env, t, 8);
    ChainStep(db, env, t, 7);
    ChainStep(db, env, t, 6);
    ChainStep(db, env, t, 5);
    ChainStep(db, env, t, 4);
    ChainStep(db, env, t, 3);
    ChainStep(db, env, t, 2);
    ChainStep(db, env, t, 1);
    ChainStep(db, env, t, 0);
  }

  /** `set_members` is one polynomial, cut off once, for all components and database weights. */
  lemma SetMembersClosedForm(db: DbWeight, env: Components)
    ensures var m, p := env(1), env(2);
            SatWeight(db, env, Benchmark(SET_MEMBERS)) ==
            Weight(Cap(19_780_000 + 4_733_097 * m + 7_913_656 * p + (db.read + db.write) * (2 + p)),
                   Cap(15728 + 1967 * m + 4332 * p))
  {
    BenchmarkIsCappedTotal(db, env, SET_MEMBERS);
    TenTerms(db, env, SET_MEMBERS);
    SetMembersTerms(db, env);
    Distribute(db.read, db.write, env(2));
  }

  lemma Distribute(r: nat, w: nat, p: nat)
    ensures (r + w) * (2 + p) == r * 2 + r * p + w * 2 + w * p
  {
  }

  lemma CloseApprovedTerms(db: DbWeight, env: Components)
    ensures var b, m, p, t := env(0), env(1), env(2), CLOSE_APPROVED;
            && ExactWeight(db, env, t[0]) == Weight(40_816_742, 0)
            && ExactWeight(db, env, t[1]) == Weight(0, 4036)
            && ExactWeight(db, env, t[2]) == Weight(1_842 * b, 0)
            && ExactWeight(db, env, t[3]) == Weight(20_012 * m, 0)
            && ExactWeight(db, env, t[4]) == Weight(208_678 * p, 0)
            && ExactWeight(db, env, t[5]) == Weight(db.read * 5, 0)
            && ExactWeight(db, env, t[6]) == Weight(db.write * 3, 0)
            && ExactWeight(db, env, t[7]) == Weight(0, b)
            && ExactWeight(db, env, t[8]) == Weight(0, 66 * m)
            && ExactWeight(db, env, t[9]) == Weight(0, 40 * p)
  {
  }

  /** So is `close_approved`. */
  lemma CloseApprovedClosedForm(db: DbWeight, env: Components)
    ensures var b, m, p := env(0), env(1), env(2);
            SatWeight(db, env, Benchmark(CLOSE_APPROVED)) ==
            Weight(Cap(40_816_742 + 1_842 * b + 20_012 * m + 208_678 * p + 5 * db.read + 3 * db.write),
                   Cap(4036 + b + 66 * m + 40 * p))
  {
    BenchmarkIsCappedTotal(db, env, CLOSE_APPROVED);
    TenTerms(db, env, CLOSE_APPROVED);
    CloseApprovedTerms(db, env);
  }
}
