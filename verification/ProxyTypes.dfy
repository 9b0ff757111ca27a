/** Proxy types: what each may call, and which may stand in for which. */
module ProxyTypes {
  datatype ProxyType = Any | NonTransfer | Governance | CancelProxy

  datatype ProxyCall =
    | AddProxy(delegate: nat, proxyType: ProxyType)
    | RemoveProxy(delegate: nat, proxyType: ProxyType)
    | RemoveProxies
    | KillPure
    | RejectAnnouncement
    | OtherProxyCall

  /** The pallets of the runtime that have calls. */
  datatype RuntimeCall =
    | System | ParachainSystem | Timestamp | Preimage | Multisig | Proxy(call: ProxyCall) | Scheduler | Utility
    | Balances | Vesting | Treasury | Democracy | Council | TechnicalCommittee | Bounties | ChildBounties
    | XcmpQueue | PolkadotXcm | DmpQueue | XTokens | OrmlXcm | XcmTransactor
    | Teerex | Claims | Teeracle | Sidechain | EnclaveBridge

  predicate Filter(t: ProxyType, c: RuntimeCall) {
    match t
    case Any => true
    case NonTransfer =>
      c.System? || c.Timestamp? || c.Treasury? || c.Bounties? || c.ChildBounties?
      || c.Teerex? || c.Teeracle? || c.Sidechain? || c.Proxy? || c.Multisig?
    case Governance => c.Treasury? || c.Bounties? || c.ChildBounties?
    case CancelProxy => c.Proxy? && c.call.RejectAnnouncement?
  }

  /**
   What the calls of a pallet are for.  `Transfer` is everything that can move native
   currency out of an account at its caller's wish, vesting, bridging and cross-chain transfers
   included; `Wrapping` runs calls that are themselves subject to filters.
   */
  datatype Purpose = Basics | Delegation | Spending | Attestation | Transfer | Voting | Wrapping | Transport

  function PurposeOf(c: RuntimeCall): Purpose {
    match c
    case System => Basics
    case Timestamp => Basics
    case Proxy(_) => Delegation
    case Multisig => Delegation
    case Treasury => Spending
    case Bounties => Spending
    case ChildBounties => Spending
    case Teerex => Attestation
    case Teeracle => Attestation
    case Sidechain => Attestation
    case Balances => Transfer
    case Vesting => Transfer
    case Claims => Transfer
    case EnclaveBridge => Transfer
    case PolkadotXcm => Transfer
    case XTokens => Transfer
    case OrmlXcm => Transfer
    case XcmTransactor => Transfer
    case Democracy => Voting
    case Council => Voting
    case TechnicalCommittee => Voting
    case Preimage => Voting
    case Scheduler => Wrapping
    case Utility => Wrapping
    case ParachainSystem => Transport
    case XcmpQueue => Transport
    case DmpQueue => Transport
  }

  /** Each type allows exactly the purposes it is meant for. */
  lemma FilterFollowsPurpose(c: RuntimeCall)
    ensures Filter(Any, c)
    ensures Filter(NonTransfer, c) <==> PurposeOf(c) in {Basics, Delegation, Spending, Attestation}
    ensures Filter(Governance, c) <==> PurposeOf(c) == Spending
    ensures Filter(CancelProxy, c) <==> c == Proxy(RejectAnnouncement)
  {
  }

  predicate IsSuperset(x: ProxyType, y: ProxyType) {
    if x == y then true
    else match (x, y)
      case (Any, _) => true
      case (_, Any) => false
      case (NonTransfer, _) => true
      case _ => false
  }

  /** The order is exactly inclusion of what the filters let through. */
  lemma SupersetIsExact(x: ProxyType, y: ProxyType)
    ensures IsSuperset(x, y) <==> forall c :: Filter(y, c) ==> Filter(x, c)
  {
    if !IsSuperset(x, y) {
      var c := match y
        case Any => Balances
        case NonTransfer => System
        case Governance => Treasury
        case CancelProxy => Proxy(RejectAnnouncement);
      assert Filter(y, c) && !Filter(x, c);
    }
  }

  /** Hence a partial order with `Any` on top. */
  lemma SupersetIsPartialOrder(x: ProxyType, y: ProxyType, z: ProxyType)
    ensures IsSuperset(x, x) && IsSuperset(Any, x)
    ensures IsSuperset(x, y) && IsSuperset(y, x) ==> x == y
    ensures IsSuperset(x, y) && IsSuperset(y, z) ==> IsSuperset(x, z)
  {
    SupersetIsExact(x, y);
    SupersetIsExact(y, z);
    SupersetIsExact(x, z);
  }

  // ---------------------------------------------------------------------------
  // Delegation
  // ---------------------------------------------------------------------------

  /** Who may act for the owner, and how. */
  datatype Grant = Grant(delegate: nat, proxyType: ProxyType)

  /**
   What the proxy pallet lets a delegate dispatch: grants are changed only within the
   delegate's own type, and otherwise the filter decides.
   */
  predicate MayDispatch(t: ProxyType, c: RuntimeCall) {
    match c
    case Proxy(AddProxy(_, u)) => IsSuperset(t, u) && Filter(t, c)
    case Proxy(RemoveProxy(_, u)) => IsSuperset(t, u) && Filter(t, c)
    case Proxy(RemoveProxies) => t == Any
    case Proxy(KillPure) => t == Any
    case _ => Filter(t, c)
  }

  /** A delegate acting for the owner. */
  datatype Act = Act(delegate: nat, via: ProxyType, call: RuntimeCall)

  function Dispatch(grants: set<Grant>, a: Act): set<Grant> {
    if Grant(a.delegate, a.via) !in grants || !MayDispatch(a.via, a.call) then grants
    else
      match a.call
      case Proxy(AddProxy(d, u)) => grants + {Grant(d, u)}
      case Proxy(RemoveProxy(d, u)) => grants - {Grant(d, u)}
      case Proxy(RemoveProxies) => {}
      case Proxy(KillPure) => {}
      case _ => grants
  }

  function Acting(grants: set<Grant>, acts: seq<Act>): set<Grant>
    decreases |acts|
  {
    if acts == [] then grants else Acting(Dispatch(grants, acts[0]), acts[1..])
  }

  predicate Below(grants: set<Grant>, original: set<Grant>) {
    forall g :: g in grants ==> exists o :: o in original && IsSuperset(o.proxyType, g.proxyType)
  }

  lemma DispatchStaysBelow(grants: set<Grant>, original: set<Grant>, a: Act)
    requires Below(grants, original)
    ensures Below(Dispatch(grants, a), original)
  {
    var now := Dispatch(grants, a);
    forall g | g in now ensures exists o :: o in original && IsSuperset(o.proxyType, g.proxyType) {
      if g !in grants {
        var o :| o in original && IsSuperset(o.proxyType, Grant(a.delegate, a.via).proxyType);
        SupersetIsPartialOrder(o.proxyType, a.via, g.proxyType);
      }
    }
  }

  /**
   Over every sequence of acts by delegates, who may appoint and dismiss others: whatever
   call a delegate may make in the end, some originally granted type already allowed.
   */
  lemma {:induction false} DelegationNeverEscalates(grants: set<Grant>, original: set<Grant>, acts: seq<Act>, g: Grant, c: RuntimeCall)
    requires Below(grants, original)
    requires g in Acting(grants, acts) && Filter(g.proxyType, c)
    ensures exists o :: o in original && Filter(o.proxyType, c)
    decreases |acts|
  {
    if acts == [] {
      var o :| o in original && IsSuperset(o.proxyType, g.proxyType);
      SupersetIsExact(o.proxyType, g.proxyType);
    } else {
      DispatchStaysBelow(grants, original, acts[0]);
      DelegationNeverEscalates(Dispatch(grants, acts[0]), original, acts[1..], g, c);
    }
  }

  /** The delegate holds the grant it claims, and its type lets the call through. */
  predicate Goes(grants: set<Grant>, a: Act) {
    Grant(a.delegate, a.via) in grants && MayDispatch(a.via, a.call)
  }

  /**
   Unless some original grant is of type `Any`, no run of acts ever dispatches a transfer, a
   vote, a wrapped call or a call of the transport, and never holds a grant of type `Any`.
   */
  lemma {:induction false} NothingMovesWithoutAny(grants: set<Grant>, acts: seq<Act>, k: nat)
    requires k < |acts| && forall g :: g in grants ==> g.proxyType != Any
    ensures Goes(Acting(grants, acts[..k]), acts[k]) ==>
              PurposeOf(acts[k].call) in {Basics, Delegation, Spending, Attestation}
    ensures forall g :: g in Acting(grants, acts[..k]) ==> g.proxyType != Any
    decreases k
  {
    if k == 0 {
      assert acts[..0] == [];
      FilterFollowsPurpose(acts[0].call);
    } else {
      assert acts[..k][0] == acts[0] && acts[..k][1..] == acts[1..][..k - 1];
      NothingMovesWithoutAny(Dispatch(grants, acts[0]), acts[1..], k - 1);
    }
  }

  /** What a run starting from one grant can ever hold. */
  predicate Obtainable(t: ProxyType, u: ProxyType) {
    u == t || t == Any || (t == NonTransfer && u != Any)
  }

  lemma {:induction false} OnlyObtainable(t: ProxyType, grants: set<Grant>, acts: seq<Act>)
    requires forall g :: g in grants ==> Obtainable(t, g.proxyType)
    ensures forall g :: g in Acting(grants, acts) ==> Obtainable(t, g.proxyType)
    decreases |acts|
  {
    if acts != [] {
      OnlyObtainable(t, Dispatch(grants, acts[0]), acts[1..]);
    }
  }

  /** Starting from the one grant of type `t`, these acts lead to one of type `u`. */
  ghost predicate Leads(d: nat, t: ProxyType, u: ProxyType, acts: seq<Act>) {
    Grant(d, u) in Acting({Grant(d, t)}, acts)
  }

  lemma Appoints(d: nat, t: ProxyType, u: ProxyType) returns (acts: seq<Act>)
    requires Obtainable(t, u)
    ensures Leads(d, t, u, acts)
  {
    if u == t {
      acts := [];
    } else {
      var act := Act(d, t, Proxy(AddProxy(d, u)));
      acts := [act];
      assert acts[1..] == [];
      assert Acting({Grant(d, t)}, acts) == Acting(Dispatch({Grant(d, t)}, act), []);
    }
  }

  /**
   A delegate can come to hold a second type exactly when that is the first, or the first is
   `Any`, or it is `NonTransfer` and the second is not `Any`: over runs of any length.
   */
  lemma DelegationReaches(d: nat, t: ProxyType, u: ProxyType)
    ensures (exists acts :: Leads(d, t, u, acts)) <==> Obtainable(t, u)
  {
    if Obtainable(t, u) {
      var acts := Appoints(d, t, u);
    } else if acts :| Leads(d, t, u, acts) {
      OnlyObtainable(t, {Grant(d, t)}, acts);
    }
  }

  /** A grant disappears exactly when a delegate whose type may do so names it, or `Any` clears them all. */
  lemma DismissalIsExact(grants: set<Grant>, a: Act, g: Grant)
    requires g in grants
    ensures g !in Dispatch(grants, a) <==>
              && Grant(a.delegate, a.via) in grants
              && ((a.call == Proxy(RemoveProxy(g.delegate, g.proxyType))
                   && (a.via == Any || (a.via == NonTransfer && g.proxyType != Any)))
                  || (a.call in {Proxy(RemoveProxies), Proxy(KillPure)} && a.via == Any))
  {
  }

  /** Along any chain in which each type covers the next, the last can do nothing the first could not. */
  lemma {:induction false} ChainNeverEscalates(chain: seq<ProxyType>, c: RuntimeCall)
    requires chain != []
    requires forall i :: 0 < i < |chain| ==> IsSuperset(chain[i - 1], chain[i])
    ensures Filter(chain[|chain| - 1], c) ==> Filter(chain[0], c)
    decreases |chain|
  {
    if |chain| > 1 {
      ChainNeverEscalates(chain[..|chain| - 1], c);
      SupersetIsExact(chain[|chain| - 2], chain[|chain| - 1]);
    }
  }
}
