/** Collections of fungible assets, as the holding register keeps them. */
module Assets {
  import opened Prelude
  import opened Locations

  /** What is being counted: a chain's own TEER, or the TEER of `home` seen from another chain. */
  datatype AssetClass = NativeTo(chain: ParaId) | DerivativeOf(home: ParaId)

  predicate Belongs(k: AssetClass, id: AssetId) {
    match k
    case NativeTo(chain) => IsNative(chain, id)
    case DerivativeOf(home) => id == Concrete(AbsoluteTeer(home))
  }

  function Worth(k: AssetClass, a: Asset): nat {
    if Belongs(k, a.id) then a.amount else 0
  }

  function Sum(k: AssetClass, s: seq<Asset>): nat {
    if s == [] then 0 else Worth(k, s[0]) + Sum(k, s[1..])
  }

  /** Adds to the entry of the same id, or inserts in key order. */
  function Subsume(rank: AssetId -> int, h: seq<Asset>, a: Asset): seq<Asset> {
    if h == [] then [a]
    else if h[0].id == a.id then [Asset(a.id, h[0].amount + a.amount)] + h[1..]
    else if rank(a.id) < rank(h[0].id) then [a] + h
    else [h[0]] + Subsume(rank, h[1..], a)
  }

  function SubsumeAll(rank: AssetId -> int, h: seq<Asset>, more: seq<Asset>): seq<Asset>
    decreases |more|
  {
    if more == [] then h else SubsumeAll(rank, Subsume(rank, h, more[0]), more[1..])
  }

  function AmountOf(h: seq<Asset>, id: AssetId): nat {
    if h == [] then 0 else if h[0].id == id then h[0].amount else AmountOf(h[1..], id)
  }

  /** Removes up to `want` of one asset. */
  function Remove(h: seq<Asset>, id: AssetId, want: nat): seq<Asset> {
    if h == [] then []
    else if h[0].id == id then
      if h[0].amount <= want then h[1..] else [Asset(id, h[0].amount - want)] + h[1..]
    else [h[0]] + Remove(h[1..], id, want)
  }

  /**
   Filters of the instruction set.  A wildcard by id or by count selects a
   sub-collection of the register, which is what a definite list expresses too.
   */
  datatype AssetFilter = All | Definite(assets: seq<Asset>)

  function TakeEach(rank: AssetId -> int, h: seq<Asset>, wanted: seq<Asset>): (seq<Asset>, seq<Asset>)
    decreases |wanted|
  {
    if wanted == [] then ([], h)
    else
      var w := wanted[0];
      var got := Min(w.amount, AmountOf(h, w.id));
      var (more, rest) := TakeEach(rank, Remove(h, w.id, w.amount), wanted[1..]);
      (if got == 0 then more else Subsume(rank, more, Asset(w.id, got)), rest)
  }

  /** The saturating take: what was taken, and what stays. */
  function Take(rank: AssetId -> int, h: seq<Asset>, f: AssetFilter): (seq<Asset>, seq<Asset>) {
    match f
    case All => (h, [])
    case Definite(assets) => TakeEach(rank, h, assets)
  }

  lemma {:induction false} SumAppend(k: AssetClass, s: seq<Asset>, t: seq<Asset>)
    ensures Sum(k, s + t) == Sum(k, s) + Sum(k, t)
  {
    if s == [] {
      assert s + t == t;
    } else {
      assert (s + t)[1..] == s[1..] + t;
      SumAppend(k, s[1..], t);
    }
  }

  lemma {:induction false} SumSubsume(rank: AssetId -> int, k: AssetClass, h: seq<Asset>, a: Asset)
    ensures Sum(k, Subsume(rank, h, a)) == Sum(k, h) + Worth(k, a)
  {
    if h != [] && h[0].id != a.id && rank(a.id) >= rank(h[0].id) {
      SumSubsume(rank, k, h[1..], a);
    }
  }

  lemma {:induction false} SumSubsumeAll(rank: AssetId -> int, k: AssetClass, h: seq<Asset>, more: seq<Asset>)
    ensures Sum(k, SubsumeAll(rank, h, more)) == Sum(k, h) + Sum(k, more)
    decreases |more|
  {
    if more != [] {
      SumSubsume(rank, k, h, more[0]);
      SumSubsumeAll(rank, k, Subsume(rank, h, more[0]), more[1..]);
    }
  }

  lemma {:induction false} SumRemove(k: AssetClass, h: seq<Asset>, id: AssetId, want: nat)
    ensures Sum(k, Remove(h, id, want)) + Worth(k, Asset(id, Min(want, AmountOf(h, id)))) == Sum(k, h)
  {
    if h != [] && h[0].id != id {
      SumRemove(k, h[1..], id, want);
    }
  }

  lemma {:induction false} SumTakeEach(rank: AssetId -> int, k: AssetClass, h: seq<Asset>, wanted: seq<Asset>)
    ensures var (taken, rest) := TakeEach(rank, h, wanted); Sum(k, taken) + Sum(k, rest) == Sum(k, h)
    decreases |wanted|
  {
    if wanted != [] {
      var w := wanted[0];
      var got := Min(w.amount, AmountOf(h, w.id));
      SumRemove(k, h, w.id, w.amount);
      SumTakeEach(rank, k, Remove(h, w.id, w.amount), wanted[1..]);
      SumSubsume(rank, k, TakeEach(rank, Remove(h, w.id, w.amount), wanted[1..]).0, Asset(w.id, got));
    }
  }

  /** A take neither loses nor creates any asset of any class. */
  lemma TakeConserves(rank: AssetId -> int, k: AssetClass, h: seq<Asset>, f: AssetFilter)
    ensures var (taken, rest) := Take(rank, h, f); Sum(k, taken) + Sum(k, rest) == Sum(k, h)
  {
    if f.Definite? {
      SumTakeEach(rank, k, h, f.assets);
    }
  }

  function Ids(h: seq<Asset>): set<AssetId> {
    if h == [] then {} else {h[0].id} + Ids(h[1..])
  }

  /** One entry for each asset. */
  predicate Unique(h: seq<Asset>) {
    h == [] || (h[0].id !in Ids(h[1..]) && Unique(h[1..]))
  }

  /** Entries in the order of their keys. */
  predicate Sorted(rank: AssetId -> int, h: seq<Asset>) {
    h == [] || ((forall id :: id in Ids(h[1..]) ==> rank(h[0].id) < rank(id)) && Sorted(rank, h[1..]))
  }

  ghost predicate Ranks(rank: AssetId -> int) {
    forall x, y :: rank(x) == rank(y) ==> x == y
  }

  function AllOf(id: AssetId, s: seq<Asset>): nat {
    if s == [] then 0 else (if s[0].id == id then s[0].amount else 0) + AllOf(id, s[1..])
  }

  lemma {:induction false} AbsentAmount(h: seq<Asset>, id: AssetId)
    requires id !in Ids(h)
    ensures AllOf(id, h) == 0
  {
    if h != [] {
      AbsentAmount(h[1..], id);
    }
  }

  lemma {:induction false} UniqueAmount(h: seq<Asset>, id: AssetId)
    requires Unique(h)
    ensures AmountOf(h, id) == AllOf(id, h)
  {
    if h != [] {
      UniqueAmount(h[1..], id);
      if h[0].id == id {
        AbsentAmount(h[1..], id);
      }
    }
  }

  lemma {:induction false} RemoveEffect(h: seq<Asset>, id: AssetId, want: nat, other: AssetId)
    requires Unique(h)
    ensures var r := Remove(h, id, want);
            && Unique(r) && Ids(r) <= Ids(h)
            && AllOf(other, r) == AllOf(other, h) - if other == id then Min(want, AllOf(id, h)) else 0
  {
    if h != [] {
      var r := Remove(h, id, want);
      if h[0].id != id {
        RemoveEffect(h[1..], id, want, other);
        assert r[1..] == Remove(h[1..], id, want);
      } else {
        AbsentAmount(h[1..], id);
        if h[0].amount > want {
          assert r[1..] == h[1..];
        }
      }
    }
  }

  lemma {:induction false} AllOfSubsume(rank: AssetId -> int, h: seq<Asset>, a: Asset, id: AssetId)
    ensures AllOf(id, Subsume(rank, h, a)) == AllOf(id, h) + if a.id == id then a.amount else 0
  {
    if h != [] && h[0].id != a.id && rank(a.id) >= rank(h[0].id) {
      AllOfSubsume(rank, h[1..], a, id);
    }
  }

  /** A definite filter takes of every asset what it names, as far as the register has it, and leaves the rest. */
  lemma {:induction false} TakeIsExact(rank: AssetId -> int, h: seq<Asset>, wanted: seq<Asset>, id: AssetId)
    requires Unique(h)
    ensures var (taken, rest) := Take(rank, h, Definite(wanted));
            && AllOf(id, taken) == Min(AllOf(id, wanted), AllOf(id, h))
            && AllOf(id, rest) == AllOf(id, h) - AllOf(id, taken)
    decreases |wanted|
  {
    if wanted != [] {
      var w := wanted[0];
      var r := Remove(h, w.id, w.amount);
      RemoveEffect(h, w.id, w.amount, id);
      UniqueAmount(h, w.id);
      TakeIsExact(rank, r, wanted[1..], id);
      var got := Min(w.amount, AmountOf(h, w.id));
      AllOfSubsume(rank, TakeEach(rank, r, wanted[1..]).0, Asset(w.id, got), id);
      assert Take(rank, r, Definite(wanted[1..])) == TakeEach(rank, r, wanted[1..]);
    }
  }

  /** A register in key order stays so, with one entry for each asset: what is added is merged, not listed twice. */
  lemma {:induction false} SubsumeStaysSorted(rank: AssetId -> int, h: seq<Asset>, a: Asset)
    requires Ranks(rank) && Sorted(rank, h)
    ensures var d := Subsume(rank, h, a);
            Sorted(rank, d) && Unique(d) && Ids(d) == Ids(h) + {a.id}
  {
    SortedIsUnique(rank, h);
    var d := Subsume(rank, h, a);
    if h != [] {
      if h[0].id == a.id {
        assert d[1..] == h[1..];
      } else if rank(a.id) < rank(h[0].id) {
        assert d[1..] == h;
      } else {
        SubsumeStaysSorted(rank, h[1..], a);
        assert d[1..] == Subsume(rank, h[1..], a);
      }
    }
    SortedIsUnique(rank, d);
  }

  lemma {:induction false} SortedIsUnique(rank: AssetId -> int, h: seq<Asset>)
    requires Sorted(rank, h)
    ensures Unique(h)
  {
    if h != [] {
      SortedIsUnique(rank, h[1..]);
    }
  }

  // ---------------------------------------------------------------------------
  // Re-anchoring a whole collection
  // ---------------------------------------------------------------------------

  function Image(self: ParaId, id: AssetId, dest: Location): Option<AssetId> {
    match id
    case Abstract(_) => Some(id)
    case Concrete(l) =>
      match Reanchor(l, dest, Universal(self))
      case None => None
      case Some(r) => Some(Concrete(r))
  }

  function Kept(self: ParaId, s: seq<Asset>, dest: Location): seq<Asset> {
    if s == [] then []
    else if Image(self, s[0].id, dest).None? then [s[0]] + Kept(self, s[1..], dest)
    else Kept(self, s[1..], dest)
  }

  function Moved(self: ParaId, s: seq<Asset>, dest: Location): seq<Asset> {
    if s == [] then []
    else if Image(self, s[0].id, dest).Some? then [s[0]] + Moved(self, s[1..], dest)
    else Moved(self, s[1..], dest)
  }

  function Images(rank: AssetId -> int, self: ParaId, s: seq<Asset>, dest: Location): seq<Asset> {
    if s == [] then []
    else
      var rest := Images(rank, self, s[1..], dest);
      match Image(self, s[0].id, dest)
      case None => rest
      case Some(id) => Subsume(rank, rest, Asset(id, s[0].amount))
  }

  lemma {:induction false} SumMovedKept(self: ParaId, k: AssetClass, s: seq<Asset>, dest: Location)
    ensures Sum(k, Moved(self, s, dest)) + Sum(k, Kept(self, s, dest)) == Sum(k, s)
  {
    if s != [] {
      SumMovedKept(self, k, s[1..], dest);
    }
  }

  /** Everything of class `k` here becomes exactly as much of class `k'` there. */
  lemma {:induction false} SumImages(rank: AssetId -> int, self: ParaId, k: AssetClass, k': AssetClass, s: seq<Asset>, dest: Location)
    requires forall a :: a in s ==>
               (Image(self, a.id, dest).Some? && Belongs(k', Image(self, a.id, dest).value) <==> Belongs(k, a.id))
    ensures Sum(k', Images(rank, self, s, dest)) == Sum(k, s)
  {
    if s != [] {
      SumImages(rank, self, k, k', s[1..], dest);
      var id := Image(self, s[0].id, dest);
      assert s[0] in s;
      if id.Some? {
        SumSubsume(rank, k', Images(rank, self, s[1..], dest), Asset(id.value, s[0].amount));
      }
    }
  }
}
