/** The two places that switch between relay-chain consensus and Aura by the parent's runtime. */
module Consensus {
  import opened Prelude
  import opened LazyCell

  type Hash = nat

  /** The answer of the runtime-api query; an error counts as absence. */
  datatype Answer = Has(present: bool) | ApiError

  predicate AuraAvailable(a: Answer) {
    a == Has(true)
  }

  datatype EngineKind = Relay | Aura

  function Choice(a: Answer): EngineKind {
    if AuraAvailable(a) then Aura else Relay
  }

  /** A boxed consensus engine or verifier: an object that remembers what it has served. */
  class Engine {
    const kind: EngineKind
    var served: seq<Hash>

    constructor (kind: EngineKind)
      ensures this.kind == kind && served == []
    {
      this.kind := kind;
      served := [];
    }

    method Serve(parent: Hash)
      modifies this
      ensures served == old(served) + [parent]
    {
      served := served + [parent];
    }
  }

  /** The engine inside a cell, built or still to be built. */
  function Inside(s: CellState<Engine>): set<Engine> {
    match s
    case Initialized(e) => {e}
    case Uninitialized(Some(Returns(e))) => {e}
    case _ => {}
  }

  datatype Reply = ServedBy(engine: Engine) | TaskPanicked

  /** The relay-chain engine, or what an access to the cell gives: with the api present, exactly. */
  function Chosen<E>(cell: CellState<E>, relay: E, answer: Answer): (CellState<E>, Access<E>) {
    if AuraAvailable(answer) then Accessed(cell) else (cell, Got(relay))
  }

  ghost predicate Wired(aura: BuildOnAccess<Engine>, relay: Engine)
    reads aura, Inside(aura.state)
  {
    && relay.kind == Relay && relay !in Inside(aura.state)
    && forall e :: e in Inside(aura.state) ==> e.kind == Aura
  }

  /** The chosen engine gets the request after everything served before; the other one is untouched. */
  twostate predicate OneRequest(aura: BuildOnAccess<Engine>, relay: Engine, parent: Hash, answer: Answer, new reply: Reply)
    reads aura, relay, Inside(aura.state)
  {
    && aura.state == Chosen(old(aura.state), relay, answer).0
    && aura.builds == old(aura.builds) + (if AuraAvailable(answer) then Builds(old(aura.state)) else 0)
    && (match Chosen(old(aura.state), relay, answer).1
        case Panicked => reply == TaskPanicked
        case Got(e) => reply == ServedBy(e) && e.kind == Choice(answer)
                       && e in Inside(aura.state) + {relay} && old(allocated(e)) && e.served == old(e.served) + [parent])
    && (forall e | e in Inside(aura.state) + {relay} && reply != ServedBy(e) ::
          old(allocated(e)) && e.served == old(e.served))
  }

  /** Shared by every clone: the same cell and the same relay-chain engine. */
  class WaitForAuraConsensus {
    const aura: BuildOnAccess<Engine>
    const relay: Engine

    constructor (aura: BuildOnAccess<Engine>, relay: Engine)
      ensures this.aura == aura && this.relay == relay
    {
      this.aura := aura;
      this.relay := relay;
    }

    method Clone() returns (c: WaitForAuraConsensus)
      requires Wired(aura, relay)
      ensures fresh(c) && c.aura == aura && c.relay == relay && Wired(c.aura, c.relay)
    {
      c := new WaitForAuraConsensus(aura, relay);
    }

    method ProduceCandidate(parent: Hash, answer: Answer) returns (reply: Reply)
      requires Wired(aura, relay)
      modifies aura, relay, Inside(aura.state)
      ensures Wired(aura, relay) && OneRequest(aura, relay, parent, answer, reply)
    {
      if answer == Has(true) {
        var a, _ := aura.GetMut();
        match a {
          case Panicked => reply := TaskPanicked;
          case Got(e) =>
            e.Serve(parent);
            reply := ServedBy(e);
        }
      } else {
        relay.Serve(parent);
        reply := ServedBy(relay);
      }
    }
  }

  /** Owns its cell; chooses by the parent of the block being imported. */
  class Verifier {
    const aura: BuildOnAccess<Engine>
    const relay: Engine

    constructor (builder: Builder<Engine>, relay: Engine)
      requires relay.kind == Relay && builder != Returns(relay)
      requires builder.Returns? ==> builder.value.kind == Aura
      ensures Wired(aura, this.relay) && fresh(aura) && this.relay == relay && aura.state == Uninitialized(Some(builder))
    {
      var cell := new BuildOnAccess(builder);
      this.aura := cell;
      this.relay := relay;
    }

    method Verify(parent: Hash, answer: Answer) returns (reply: Reply)
      requires Wired(aura, relay)
      modifies aura, relay, Inside(aura.state)
      ensures Wired(aura, relay) && OneRequest(aura, relay, parent, answer, reply)
    {
      if answer == Has(true) {
        var a, _ := aura.GetMut();
        match a {
          case Panicked => reply := TaskPanicked;
          case Got(e) =>
            e.Serve(parent);
            reply := ServedBy(e);
        }
      } else {
        relay.Serve(parent);
        reply := ServedBy(relay);
      }
    }
  }
}
