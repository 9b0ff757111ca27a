/**
 Consensus locations, the native-currency converter and the reserve map of a
 parachain.  `self` is always the chain's own para id, so that every statement
 covers both runtimes of the repository and every other id.
 */
module Locations {
  import opened Prelude

  datatype NetworkId = Kusama | OtherNetwork(tag: nat)

  datatype Junction =
    | Parachain(id: ParaId)
    | AccountId32(network: Option<NetworkId>, account: seq<byte>)
    | GeneralIndex(index: nat)
    | GeneralKey(length: nat, data: seq<byte>)
    | GlobalConsensus(consensus: NetworkId)
    | OnlyChild
    | OtherJunction(tag: nat)

  datatype Location = Location(parents: nat, interior: seq<Junction>)

  datatype AssetId = Concrete(location: Location) | Abstract(key: nat)

  /** A fungible amount of one asset. */
  datatype Asset = Asset(id: AssetId, amount: nat)

  datatype CurrencyId = TEER

  /** The ASCII text `TEER` followed by twenty-eight `0` digits. */
  const TEER_DATA: seq<byte> := [84, 69, 69, 82,
    48, 48, 48, 48, 48, 48, 48, 48, 48, 48, 48, 48, 48, 48,
    48, 48, 48, 48, 48, 48, 48, 48, 48, 48, 48, 48, 48, 48]
  const TEER_KEY: Junction := GeneralKey(4, TEER_DATA)

  const HERE: Location := Location(0, [])
  const PARENT: Location := Location(1, [])
  const SELF_RESERVE: Location := Location(0, [TEER_KEY])

  function Sibling(id: ParaId): Location {
    Location(1, [Parachain(id)])
  }

  /** The TEER of chain `id` as any sibling writes it, and as the chain itself may write it. */
  function AbsoluteTeer(id: ParaId): Location {
    Location(1, [Parachain(id), TEER_KEY])
  }

  function Universal(self: ParaId): seq<Junction> {
    [GlobalConsensus(Kusama), Parachain(self)]
  }

  /** The absolute path a location denotes when read at `context`. */
  function Resolve(context: seq<Junction>, l: Location): seq<Junction>
    requires l.parents <= |context|
  {
    context[..|context| - l.parents] + l.interior
  }

  // ---------------------------------------------------------------------------
  // CurrencyIdConvert
  // ---------------------------------------------------------------------------

  function CurrencyToLocation(self: ParaId, id: CurrencyId): Option<Location> {
    match id
    case TEER => Some(Location(1, [Parachain(self), TEER_KEY]))
  }

  function LocationToCurrency(self: ParaId, l: Location): Option<CurrencyId> {
    if l.parents == 1 then
      if |l.interior| == 2 && l.interior[0].Parachain? && l.interior[1] == TEER_KEY
         && l.interior[0].id == self
      then Some(TEER) else None
    else if l.parents == 0 then
      if |l.interior| == 1 && l.interior[0] == TEER_KEY then Some(TEER) else None
    else None
  }

  function AssetToCurrency(self: ParaId, a: AssetId): Option<CurrencyId> {
    if a.Concrete? then LocationToCurrency(self, a.location) else None
  }

  predicate IsNative(self: ParaId, a: AssetId) {
    AssetToCurrency(self, a).Some?
  }

  // ---------------------------------------------------------------------------
  // AbsoluteAndRelativeReserve over RelativeReserveProvider, and MultiNativeAsset
  // ---------------------------------------------------------------------------

  predicate StartsWithChain(path: seq<Junction>) {
    path != [] && path[0].Parachain?
  }

  function ChainPart(l: Location): Option<Location> {
    if l.parents == 1 then
      Some(if StartsWithChain(l.interior) then Sibling(l.interior[0].id) else PARENT)
    else if l.parents == 0 && StartsWithChain(l.interior) then
      Some(Location(0, [l.interior[0]]))
    else None
  }

  function RelativeReserve(a: AssetId): Option<Location> {
    match a
    case Abstract(_) => None
    case Concrete(l) =>
      if l.parents == 0 && !StartsWithChain(l.interior) then Some(HERE) else ChainPart(l)
  }

  /** `AbsoluteAndRelativeReserve<SelfLocationAbsolute>` */
  function Reserve(self: ParaId, a: AssetId): Option<Location> {
    match RelativeReserve(a)
    case None => None
    case Some(r) => Some(if r == Sibling(self) then HERE else r)
  }

  /** `MultiNativeAsset<AbsoluteAndRelativeReserve<SelfLocationAbsolute>>` */
  predicate IsReserve(self: ParaId, a: AssetId, origin: Location) {
    Reserve(self, a) == Some(origin)
  }

  // ---------------------------------------------------------------------------
  // What the converter and the reserve map promise together
  // ---------------------------------------------------------------------------

  /** Out and back is the identity, and exactly two locations, of any depth, are the native token. */
  lemma ConverterIsExact(self: ParaId, l: Location)
    ensures CurrencyToLocation(self, TEER).Some?
    ensures LocationToCurrency(self, CurrencyToLocation(self, TEER).value) == Some(TEER)
    ensures LocationToCurrency(self, l) == Some(TEER) <==> l == SELF_RESERVE || l == AbsoluteTeer(self)
    ensures SELF_RESERVE != AbsoluteTeer(self)
  {
    if LocationToCurrency(self, l).Some? {
      assert l.interior == if l.parents == 1 then [Parachain(self), TEER_KEY] else [TEER_KEY];
    }
  }

  /** The key is the text `TEER`, filled up with digits to 32 bytes. */
  lemma KeyIsText()
    ensures |TEER_DATA| == 32 && TEER_KEY == GeneralKey(|"TEER"|, TEER_DATA)
    ensures forall i :: 0 <= i < 32 ==> TEER_DATA[i] as char == (if i < 4 then "TEER"[i] else '0')
  {
  }

  /** The location that the converter gives out is read as this chain's own token on every chain under the relay chain. */
  lemma ConverterSpeaksAbroad(self: ParaId, reader: ParaId)
    ensures var l := CurrencyToLocation(self, TEER).value;
            && l.parents <= |Universal(reader)|
            && Resolve(Universal(reader), l) == Universal(self) + [TEER_KEY]
    ensures Resolve(Universal(reader), SELF_RESERVE) == Universal(self) + [TEER_KEY] <==> reader == self
  {
    assert Universal(reader)[..1] + [Parachain(self), TEER_KEY] == Universal(self) + [TEER_KEY];
    assert Universal(reader)[..2] == Universal(reader);
    if reader != self {
      assert (Universal(reader) + [TEER_KEY])[1] != (Universal(self) + [TEER_KEY])[1];
    }
  }

  /** Two chains with different ids agree on the relative form and on nothing else. */
  lemma ChainsShareOnlyTheRelativeForm(p: ParaId, q: ParaId, l: Location)
    requires p != q
    ensures LocationToCurrency(p, l).Some? && LocationToCurrency(q, l).Some? <==> l == SELF_RESERVE
  {
    ConverterIsExact(p, l);
    ConverterIsExact(q, l);
  }

  /** The chain's own view of a path and the same path written through its para id. */
  function WrittenRelatively(path: seq<Junction>): AssetId {
    Concrete(Location(0, path))
  }

  function WrittenAbsolutely(self: ParaId, path: seq<Junction>): AssetId {
    Concrete(Location(1, [Parachain(self)] + path))
  }

  /**
   The two ways of writing an asset always name the same currency; they have the
   same reserve exactly when the path does not itself start with a chain.
   */
  lemma BothWritingsAgree(self: ParaId, path: seq<Junction>)
    ensures AssetToCurrency(self, WrittenRelatively(path)) == AssetToCurrency(self, WrittenAbsolutely(self, path))
    ensures Reserve(self, WrittenAbsolutely(self, path)) == Some(HERE)
    ensures Reserve(self, WrittenRelatively(path)) == Reserve(self, WrittenAbsolutely(self, path))
            <==> !StartsWithChain(path)
  {
    var l := Location(1, [Parachain(self)] + path);
    assert l.interior[1..] == path;
    if |path| == 1 {
      assert l.interior[1] == path[0];
    }
  }

  /** Every recognised native asset is reserved here, so only the local origin is its reserve. */
  lemma NativeIsReservedHere(self: ParaId, a: AssetId, origin: Location)
    requires IsNative(self, a)
    ensures Reserve(self, a) == Some(HERE)
    ensures IsReserve(self, a, origin) <==> origin == HERE
  {
    ConverterIsExact(self, a.location);
  }

  /** A remote origin is a reserve only for assets written below its own location. */
  lemma ReserveIsAPrefix(self: ParaId, a: AssetId, origin: Location)
    requires IsReserve(self, a, origin) && origin != HERE
    ensures a.Concrete? && a.location.parents == origin.parents
    ensures origin.interior <= a.location.interior
    ensures !IsNative(self, a)
  {
    if IsNative(self, a) {
      NativeIsReservedHere(self, a, origin);
    }
  }

  lemma PathBelow(self: ParaId, l: Location, id: ParaId)
    requires l.parents <= 1
    ensures Universal(id) <= Resolve(Universal(self), l) <==>
              if l.parents == 1 then [Parachain(id)] <= l.interior else id == self
  {
    var path := Resolve(Universal(self), l);
    if l.parents == 1 {
      assert path == [GlobalConsensus(Kusama)] + l.interior;
      assert [Parachain(id)] <= l.interior <==> |path| >= 2 && path[1] == Parachain(id);
    } else {
      assert path == Universal(self) + l.interior && path[1] == Parachain(self);
    }
  }

  /**
   Which sibling is believed about which asset, by the absolute place the asset's location
   denotes: exactly those below that sibling, unless the location climbs out of the
   consensus system, as then nobody is believed.
   */
  lemma SiblingReservesIff(self: ParaId, a: AssetId, id: ParaId)
    requires id != self
    ensures IsReserve(self, a, Sibling(id)) <==>
              a.Concrete? && a.location.parents <= 1 && Universal(id) <= Resolve(Universal(self), a.location)
    ensures IsReserve(self, a, Sibling(id)) <==>
              a.Concrete? && a.location.parents == 1 && [Parachain(id)] <= a.location.interior
  {
    if a.Concrete? && a.location.parents <= 1 {
      PathBelow(self, a.location, id);
    }
  }

  /** The chain itself is believed exactly about what lies below it, but not about chains written as its children. */
  lemma HereReservesIff(self: ParaId, a: AssetId)
    ensures IsReserve(self, a, HERE) <==>
              && a.Concrete? && a.location.parents <= 1
              && Universal(self) <= Resolve(Universal(self), a.location)
              && !(a.location.parents == 0 && StartsWithChain(a.location.interior))
  {
    if a.Concrete? && a.location.parents <= 1 {
      PathBelow(self, a.location, self);
    }
  }

  /** Every other origin: the relay chain for what is below no chain, a child chain for what is written below it. */
  lemma OtherReservesIff(self: ParaId, a: AssetId, origin: Location)
    requires origin != HERE && forall id: ParaId :: origin != Sibling(id)
    ensures IsReserve(self, a, origin) <==>
              && a.Concrete? && origin.parents == a.location.parents
              && ((origin == PARENT && forall id: ParaId :: !([Parachain(id)] <= a.location.interior))
                  || exists id: ParaId :: origin == Location(0, [Parachain(id)]) && [Parachain(id)] <= a.location.interior)
  {
    if a.Concrete? {
      var path := a.location.interior;
      if StartsWithChain(path) {
        assert [Parachain(path[0].id)] <= path;
      }
    }
  }

  // ---------------------------------------------------------------------------
  // Re-anchoring: how a location is rewritten for the chain a message goes to
  // ---------------------------------------------------------------------------

  const MAX_JUNCTIONS: nat := 8
  const MAX_PARENTS: nat := 255

  function LastJunctions(context: seq<Junction>, n: nat): seq<Junction> {
    if n <= |context| then context[|context| - n..]
    else seq(n - |context|, _ => OnlyChild) + context
  }

  /** The way into the context, continued upwards by the only child of whatever is above it. */
  lemma LastJunctionsAre(context: seq<Junction>, n: nat)
    ensures var way := LastJunctions(context, n);
            && |way| == n
            && forall i :: 0 <= i < n ==> way[i] == if n <= |context| + i then context[|context| - n + i] else OnlyChild
  {
  }

  function InvertTarget(context: seq<Junction>, target: Location): Option<Location> {
    if target.parents > MAX_JUNCTIONS then None
    else Some(Location(|target.interior|, LastJunctions(context, target.parents)))
  }

  function Prepend(l: Location, prefix: Location): Option<Location> {
    var k := Min(l.parents, |prefix.interior|);
    var parents := prefix.parents + l.parents - k;
    var interior := prefix.interior[..|prefix.interior| - k] + l.interior;
    if |interior| > MAX_JUNCTIONS || parents > MAX_PARENTS then None
    else Some(Location(parents, interior))
  }

  function Simplify(l: Location, context: seq<Junction>): Location
    decreases l.parents
  {
    if 0 < l.parents <= |context| && l.interior != []
       && l.interior[0] == context[|context| - l.parents]
    then Simplify(Location(l.parents - 1, l.interior[1..]), context)
    else l
  }

  function Reanchor(l: Location, target: Location, context: seq<Junction>): Option<Location> {
    match InvertTarget(context, target)
    case None => None
    case Some(inverted) =>
      match Prepend(l, inverted)
      case None => None
      case Some(r) => Some(Simplify(r, target.interior))
  }

  lemma {:induction false} SimplifyKeepsMeaning(l: Location, base: seq<Junction>, context: seq<Junction>)
    requires l.parents <= |base + context|
    ensures Simplify(l, context).parents <= |base + context|
    ensures Resolve(base + context, Simplify(l, context)) == Resolve(base + context, l)
    decreases l.parents
  {
    if 0 < l.parents <= |context| && l.interior != [] && l.interior[0] == context[|context| - l.parents] {
      var next := Location(l.parents - 1, l.interior[1..]);
      var whole := base + context;
      assert whole[|whole| - l.parents] == l.interior[0];
      assert Resolve(whole, next) == Resolve(whole, l);
      SimplifyKeepsMeaning(next, base, context);
    }
  }

  /** No other way of writing the same place, with no more steps up than given, has fewer steps up. */
  lemma {:induction false} SimplifyIsShortest(l: Location, context: seq<Junction>, other: Location)
    requires l.parents <= |context| && other.parents <= |context|
    requires Resolve(context, other) == Resolve(context, l)
    ensures Simplify(l, context).parents <= l.parents
    ensures Simplify(l, context).parents <= other.parents
    decreases l.parents
  {
    if other.parents < l.parents {
      FirstStepIsShared(l, context, other);
    }
    if 0 < l.parents && l.interior != [] && l.interior[0] == context[|context| - l.parents] {
      var next := Location(l.parents - 1, l.interior[1..]);
      assert Resolve(context, next) == Resolve(context, l);
      SimplifyIsShortest(next, context, other);
    }
  }

  lemma FirstStepIsShared(l: Location, context: seq<Junction>, other: Location)
    requires other.parents < l.parents <= |context| && Resolve(context, other) == Resolve(context, l)
    ensures l.interior != [] && l.interior[0] == context[|context| - l.parents]
  {
    var n, place := |context|, Resolve(context, l);
    assert |place| > n - l.parents && place[n - l.parents] == context[n - l.parents];
    assert place[n - l.parents] == l.interior[0];
  }

  /** Prefixing with the way back from the target keeps the place, before any simplification. */
  lemma PrependKeepsMeaning(l: Location, target: Location, context: seq<Junction>)
    requires l.parents <= |context| && target.parents <= |context|
    requires Reanchor(l, target, context).Some?
    ensures var base := context[..|context| - target.parents];
            var there := base + target.interior;
            var r := Prepend(l, InvertTarget(context, target).value).value;
            r.parents <= |there| && Resolve(there, r) == Resolve(context, l)
  {
    var n := |context|;
    var base := context[..n - target.parents];
    var there := base + target.interior;
    var r := Prepend(l, InvertTarget(context, target).value).value;
    if l.parents <= target.parents {
      assert r.interior == context[n - target.parents..][..target.parents - l.parents] + l.interior;
      assert there[..|there| - r.parents] == base;
      assert base + context[n - target.parents..][..target.parents - l.parents] == context[..n - l.parents];
    } else {
      assert r.interior == l.interior;
      assert there[..|there| - r.parents] == context[..n - l.parents];
    }
  }

  /** Re-anchoring changes how a location is written, never the place it denotes. */
  lemma ReanchorKeepsMeaning(l: Location, target: Location, context: seq<Junction>)
    requires l.parents <= |context| && target.parents <= |context|
    requires Reanchor(l, target, context).Some?
    ensures var there := Resolve(context, target);
            var r := Reanchor(l, target, context).value;
            r.parents <= |there| && Resolve(there, r) == Resolve(context, l)
  {
    var base := context[..|context| - target.parents];
    PrependKeepsMeaning(l, target, context);
    SimplifyKeepsMeaning(Prepend(l, InvertTarget(context, target).value).value, base, target.interior);
  }

  /**
   Re-anchoring fails exactly when the plainly rewritten location is too long: the target's
   depth below the common ancestor and the location together, or the way up to it.
   */
  lemma ReanchorFailsIff(l: Location, target: Location, context: seq<Junction>)
    requires l.parents <= |context| && target.parents <= |context|
    ensures var shared := Min(l.parents, target.parents);
            Reanchor(l, target, context).None? <==>
              || target.parents > MAX_JUNCTIONS
              || target.parents - shared + |l.interior| > MAX_JUNCTIONS
              || |target.interior| + l.parents - shared > MAX_PARENTS
    ensures MAX_JUNCTIONS == 8 && MAX_PARENTS == 255
  {
  }

  /** TEER leaving home always arrives at a sibling as the one absolute form. */
  lemma TeerLeavesAsAbsolute(home: ParaId, away: ParaId, a: AssetId)
    requires home != away && IsNative(home, a)
    ensures Reanchor(a.location, Sibling(away), Universal(home)) == Some(AbsoluteTeer(home))
  {
    ConverterIsExact(home, a.location);
    assert LastJunctions(Universal(home), 1) == [Parachain(home)];
    var inverted := Location(1, [Parachain(home)]);
    if a.location == SELF_RESERVE {
      assert [Parachain(home)][..1] + [TEER_KEY] == [Parachain(home), TEER_KEY];
    } else {
      assert [Parachain(home)][..0] + [Parachain(home), TEER_KEY] == [Parachain(home), TEER_KEY];
    }
    assert Prepend(a.location, inverted) == Some(AbsoluteTeer(home));
  }

  /** Of all locations a sibling can write, only that one is recognised as native on the way back. */
  lemma OnlyAbsoluteComesHome(home: ParaId, away: ParaId, l: Location)
    requires home != away
    ensures Reanchor(l, Sibling(home), Universal(away)).Some?
            && IsNative(home, Concrete(Reanchor(l, Sibling(home), Universal(away)).value))
            <==> l == AbsoluteTeer(home)
  {
    var context := [Parachain(home)];
    assert LastJunctions(Universal(away), 1) == [Parachain(away)];
    var inverted := Location(1, [Parachain(away)]);
    var p := Prepend(l, inverted);
    if l == AbsoluteTeer(home) {
      assert [Parachain(away)][..0] + l.interior == l.interior;
      assert p == Some(l);
      var next := Location(0, l.interior[1..]);
      assert next == SELF_RESERVE;
      assert Simplify(l, context) == Simplify(next, context);
    }
    if p.Some? {
      var r := Simplify(p.value, context);
      if IsNative(home, Concrete(r)) {
        ConverterIsExact(home, r);
        if l.parents == 1 {
          assert p.value.interior == l.interior;
          if l.interior != [] && l.interior[0] == Parachain(home) {
            var next := Location(0, l.interior[1..]);
            assert r == Simplify(next, context) == next;
            assert l.interior == [Parachain(home)] + next.interior;
          }
        }
      }
    }
  }
}
