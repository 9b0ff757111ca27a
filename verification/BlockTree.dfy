/**
 Blocks authored through the consensus switch by any number of collators, and imported,
 parents first, through the verifier.  Every query of the runtime api has an answer of
 its own, so two calls about one parent may be answered differently.
 */
module BlockTree {
  import opened Prelude
  import opened LazyCell
  import opened Consensus

  type Collator = nat

  /** What building the Aura engine does. */
  type AuraBuilder = b: Builder<EngineKind> | b == Returns(Aura) || b == Panics witness Panics

  datatype Network = Network(collators: Collator -> AuraBuilder, verifier: AuraBuilder)

  datatype Block = Block(parent: Hash, author: Collator, answer: Answer, engine: EngineKind)

  datatype Check = Check(answer: Answer, engine: EngineKind)

  /** Cells that were never accessed are still in their initial state. */
  datatype Tree = Tree(
    blocks: map<Hash, Block>, checks: map<Hash, Check>,
    cells: map<Collator, CellState<EngineKind>>, cell: CellState<EngineKind>)

  /** `ROOT` is given. */
  const ROOT: Hash := 0

  datatype Event = Author(author: Collator, hash: Hash, parent: Hash, answer: Answer) | Import(hash: Hash, answer: Answer)

  predicate Known<V>(m: map<Hash, V>, h: Hash) {
    h == ROOT || h in m
  }

  function Fresh(b: AuraBuilder): CellState<EngineKind> {
    Uninitialized(Some(b))
  }

  function Empty(n: Network): Tree {
    Tree(map[], map[], map[], Fresh(n.verifier))
  }

  function CellOf(n: Network, t: Tree, c: Collator): CellState<EngineKind> {
    if c in t.cells then t.cells[c] else Fresh(n.collators(c))
  }

  /** A block that is there, not imported yet, and whose parent is. */
  predicate Ready(t: Tree, h: Hash) {
    h in t.blocks && h !in t.checks && Known(t.checks, t.blocks[h].parent)
  }

  /** A panic costs the block or its import, and leaves the cell as it is then. */
  function Advance(n: Network, t: Tree, e: Event): Tree {
    match e
    case Author(who, h, p, answer) =>
      if Known(t.blocks, h) || !Known(t.blocks, p) then t
      else
        var (cell, got) := Chosen(CellOf(n, t, who), Relay, answer);
        var t' := t.(cells := t.cells[who := cell]);
        if got.Panicked? then t' else t'.(blocks := t.blocks[h := Block(p, who, answer, got.r)])
    case Import(h, answer) =>
      if !Ready(t, h) then t
      else
        var (cell, got) := Chosen(t.cell, Relay, answer);
        if got.Panicked? then t.(cell := cell) else t.(cell := cell, checks := t.checks[h := Check(answer, got.r)])
  }

  function Run(n: Network, t: Tree, events: seq<Event>): Tree
    decreases |events|
  {
    if events == [] then t else Run(n, Advance(n, t, events[0]), events[1..])
  }

  // ---------------------------------------------------------------------------
  // What holds in every reachable tree
  // ---------------------------------------------------------------------------

  /** A cell has not been accessed yet, or has been at least once. */
  predicate Reachable(b: AuraBuilder, s: CellState<EngineKind>) {
    s == Fresh(b) || s == Accessed(Fresh(b)).0
  }

  ghost predicate Consistent(n: Network, t: Tree) {
    && ROOT !in t.blocks && ROOT !in t.checks
    && (forall h :: h in t.blocks ==> Known(t.blocks, t.blocks[h].parent))
    && (forall h :: h in t.blocks ==> t.blocks[h].engine == Choice(t.blocks[h].answer))
    && (forall h :: h in t.checks ==> t.checks[h].engine == Choice(t.checks[h].answer))
    && (forall h :: h in t.checks ==> h in t.blocks && Known(t.checks, t.blocks[h].parent))
    && (forall c :: Reachable(n.collators(c), CellOf(n, t, c)))
    && Reachable(n.verifier, t.cell)
  }

  /** An access to any reachable cell gives Aura, unless its builder panics. */
  lemma ReachableAccess(b: AuraBuilder, s: CellState<EngineKind>, answer: Answer)
    requires Reachable(b, s)
    ensures var (cell, got) := Chosen(s, Relay, answer);
            && Reachable(b, cell)
            && got == if AuraAvailable(answer) && b.Panics? then Panicked else Got(Choice(answer))
  {
  }

  lemma AdvanceIsConsistent(n: Network, t: Tree, e: Event)
    requires Consistent(n, t)
    ensures Consistent(n, Advance(n, t, e))
  {
    match e
    case Author(who, h, p, answer) =>
      ReachableAccess(n.collators(who), CellOf(n, t, who), answer);
      var d := Advance(n, t, e);
      assert forall c :: c != who ==> CellOf(n, d, c) == CellOf(n, t, c);
    case Import(h, answer) => ReachableAccess(n.verifier, t.cell, answer);
  }

  lemma {:induction false} RunIsConsistent(n: Network, t: Tree, events: seq<Event>)
    requires Consistent(n, t)
    ensures Consistent(n, Run(n, t, events))
    decreases |events|
  {
    if events != [] {
      AdvanceIsConsistent(n, t, events[0]);
      RunIsConsistent(n, Advance(n, t, events[0]), events[1..]);
    }
  }

  // ---------------------------------------------------------------------------
  // Authoring and importing
  // ---------------------------------------------------------------------------

  /**
   After any run, importing a block whose parent is imported fails exactly when the api
   is answered to be there and the verifier's builder panics; authoring on a known parent
   fails exactly when the same holds of the author.
   */
  lemma FailsIffBuilderPanics(n: Network, events: seq<Event>, who: Collator, h: Hash, p: Hash, answer: Answer)
    ensures var t := Run(n, Empty(n), events);
            && (Ready(t, h) ==>
                  (h !in Advance(n, t, Import(h, answer)).checks <==> AuraAvailable(answer) && n.verifier.Panics?))
            && (!Known(t.blocks, h) && Known(t.blocks, p) ==>
                  (h !in Advance(n, t, Author(who, h, p, answer)).blocks
                   <==> AuraAvailable(answer) && n.collators(who).Panics?))
  {
    RunIsConsistent(n, Empty(n), events);
    var t := Run(n, Empty(n), events);
    ReachableAccess(n.verifier, t.cell, answer);
    ReachableAccess(n.collators(who), CellOf(n, t, who), answer);
  }

  predicate CheckedByAuthor(t: Tree) {
    forall h :: h in t.checks ==> h in t.blocks && t.checks[h].engine == t.blocks[h].engine
  }

  /** What the runtime at each block really offers; a query may fail, but does not lie. */
  predicate Honest(api: Hash -> bool, t: Tree) {
    && (forall h :: h in t.blocks ==> t.blocks[h].answer in {Has(api(t.blocks[h].parent)), ApiError})
    && (forall h :: h in t.checks && h in t.blocks ==> t.checks[h].answer in {Has(api(t.blocks[h].parent)), ApiError})
  }

  /**
   Every imported block is checked by the engine that authored it, exactly when author and
   importer got equivalent answers for it.  On honest answers only errors can differ, and
   they matter exactly where the api is there.
   */
  lemma CheckedByAuthorIffAnswersAgree(n: Network, api: Hash -> bool, events: seq<Event>)
    ensures var t := Run(n, Empty(n), events);
            && (forall h :: h in t.checks ==> h in t.blocks)
            && (CheckedByAuthor(t) <==>
                forall h | h in t.checks :: AuraAvailable(t.blocks[h].answer) <==> AuraAvailable(t.checks[h].answer))
            && (Honest(api, t) ==>
                  (CheckedByAuthor(t) <==>
                   forall h | h in t.checks :: api(t.blocks[h].parent) ==>
                     (t.blocks[h].answer.ApiError? <==> t.checks[h].answer.ApiError?)))
  {
    RunIsConsistent(n, Empty(n), events);
  }

  // ---------------------------------------------------------------------------
  // Catching up
  // ---------------------------------------------------------------------------

  /** Imports whatever the authoring events name, in their order. */
  function CatchUp(n: Network, t: Tree, answers: Hash -> Answer, events: seq<Event>): Tree
    decreases |events|
  {
    if events == [] then t
    else
      var k := |events| - 1;
      var t' := CatchUp(n, t, answers, events[..k]);
      if events[k].Import? then t' else Advance(n, t', Import(events[k].hash, answers(events[k].hash)))
  }

  lemma {:induction false} RunAppends(n: Network, t: Tree, events: seq<Event>, e: Event)
    ensures Run(n, t, events + [e]) == Advance(n, Run(n, t, events), e)
    decreases |events|
  {
    if events == [] {
      assert [e][1..] == [];
      assert events + [e] == [e];
    } else {
      assert (events + [e])[1..] == events[1..] + [e];
      RunAppends(n, Advance(n, t, events[0]), events[1..], e);
    }
  }

  ghost predicate Extends(s: Tree, t: Tree) {
    forall h :: h in s.blocks ==> h in t.blocks && t.blocks[h] == s.blocks[h]
  }

  lemma AuthoredNext(n: Network, s: Tree, e: Event)
    ensures var d := Advance(n, s, e);
            && Extends(s, d)
            && forall h :: h in d.blocks && h !in s.blocks ==>
                 e.Author? && h == e.hash && Known(s.blocks, d.blocks[h].parent)
  {
  }

  lemma ImportStep(n: Network, t: Tree, h: Hash, answer: Answer)
    requires Consistent(n, t)
    ensures var d := Advance(n, t, Import(h, answer));
            && Consistent(n, d) && d.blocks == t.blocks
            && (forall k :: k in t.checks ==> k in d.checks)
            && (h in t.blocks && Known(t.checks, t.blocks[h].parent) && (n.verifier.Returns? || h in t.checks || !AuraAvailable(answer))
                ==> h in d.checks)
  {
    AdvanceIsConsistent(n, t, Import(h, answer));
    ReachableAccess(n.verifier, t.cell, answer);
  }

  lemma {:induction false} CatchUpImports(n: Network, t: Tree, answers: Hash -> Answer, events: seq<Event>)
    requires Consistent(n, t) && Extends(Run(n, Empty(n), events), t)
    requires n.verifier.Returns? || forall h | h in t.blocks && h !in t.checks :: !AuraAvailable(answers(h))
    ensures var u := CatchUp(n, t, answers, events);
            && Consistent(n, u) && u.blocks == t.blocks
            && (forall h :: h in t.checks ==> h in u.checks)
            && (forall h :: h in Run(n, Empty(n), events).blocks ==> h in u.checks)
    decreases |events|
  {
    if events != [] {
      var k := |events| - 1;
      var e, init := events[k], events[..k];
      assert init + [e] == events;
      RunAppends(n, Empty(n), init, e);
      AuthoredNext(n, Run(n, Empty(n), init), e);
      CatchUpImports(n, t, answers, init);
      if e.Author? {
        ImportStep(n, CatchUp(n, t, answers, init), e.hash, answers(e.hash));
      }
    }
  }

  /**
   After any run, importing what was authored, in that order, leaves no block behind
   exactly when the verifier's builder returns or no block still to import has the api
   answered to be there.
   */
  lemma CatchesUpIff(n: Network, events: seq<Event>, answers: Hash -> Answer)
    ensures var t := Run(n, Empty(n), events);
            CatchUp(n, t, answers, events).checks.Keys == t.blocks.Keys
            <==> n.verifier.Returns? || forall h | h in t.blocks && h !in t.checks :: !AuraAvailable(answers(h))
  {
    var t := Run(n, Empty(n), events);
    RunIsConsistent(n, Empty(n), events);
    if n.verifier.Returns? || forall h | h in t.blocks && h !in t.checks :: !AuraAvailable(answers(h)) {
      CatchUpImports(n, t, answers, events);
    } else {
      CatchUpStalls(n, t, answers, events);
    }
  }

  lemma {:induction false} CatchUpStalls(n: Network, t: Tree, answers: Hash -> Answer, events: seq<Event>)
    requires Consistent(n, t) && n.verifier.Panics?
    ensures var u := CatchUp(n, t, answers, events);
            && Consistent(n, u) && u.blocks == t.blocks
            && forall h :: h in u.checks && h !in t.checks ==> !AuraAvailable(answers(h))
    decreases |events|
  {
    if events != [] {
      var k := |events| - 1;
      CatchUpStalls(n, t, answers, events[..k]);
      var u, e := CatchUp(n, t, answers, events[..k]), events[k];
      ImportStep(n, u, e.hash, answers(e.hash));
      ReachableAccess(n.verifier, u.cell, answers(e.hash));
    }
  }

  // ---------------------------------------------------------------------------
  // Switching once
  // ---------------------------------------------------------------------------

  predicate IsPath(t: Tree, path: seq<Hash>) {
    && (forall i :: 0 <= i < |path| ==> path[i] in t.blocks)
    && (forall i :: 0 < i < |path| ==> t.blocks[path[i]].parent == path[i - 1])
  }

  /** Relay-chain blocks up to `k`, Aura blocks from there on. */
  predicate SwitchesAt(t: Tree, path: seq<Hash>, k: nat)
    requires IsPath(t, path)
  {
    k <= |path| && forall i :: 0 <= i < |path| ==> (t.blocks[path[i]].engine == Relay <==> i < k)
  }

  ghost predicate SwitchesOnce(t: Tree, path: seq<Hash>)
    requires IsPath(t, path)
  {
    exists k: nat :: SwitchesAt(t, path, k)
  }

  ghost predicate AllSwitchOnce(t: Tree) {
    forall path | IsPath(t, path) :: SwitchesOnce(t, path)
  }

  /** No block authored by the relay-chain engine has an Aura block as its parent. */
  predicate NeverBack(t: Tree) {
    forall c | c in t.blocks && t.blocks[c].parent in t.blocks ::
      t.blocks[t.blocks[c].parent].engine == Aura ==> t.blocks[c].engine == Aura
  }

  lemma {:induction false} PathSwitchesOnce(t: Tree, path: seq<Hash>)
    requires NeverBack(t) && IsPath(t, path)
    ensures SwitchesOnce(t, path)
    decreases |path|
  {
    if path == [] {
      assert SwitchesAt(t, path, 0);
    } else {
      var n := |path| - 1;
      var init := path[..n];
      PathSwitchesOnce(t, init);
      var k: nat :| SwitchesAt(t, init, k);
      var last := path[n];
      assert forall i :: 0 <= i < n ==> path[i] == init[i];
      if n > 0 {
        assert t.blocks[last].parent == init[n - 1];
      }
      if t.blocks[last].engine == Relay {
        assert SwitchesAt(t, path, n + 1);
      } else {
        assert SwitchesAt(t, path, k);
      }
    }
  }

  lemma SwitchOnceIffNeverBack(t: Tree)
    ensures NeverBack(t) <==> AllSwitchOnce(t)
  {
    if NeverBack(t) {
      forall path | IsPath(t, path) ensures SwitchesOnce(t, path) {
        PathSwitchesOnce(t, path);
      }
    } else {
      var c :| c in t.blocks && t.blocks[c].parent in t.blocks
               && t.blocks[t.blocks[c].parent].engine == Aura && t.blocks[c].engine == Relay;
      var path := [t.blocks[c].parent, c];
      assert IsPath(t, path);
      assert t.blocks[path[0]].engine == Aura && t.blocks[path[1]].engine == Relay;
      assert !SwitchesOnce(t, path);
    }
  }

  /** The api, once there, stays along every block that has a child. */
  predicate ApiPersists(api: Hash -> bool, t: Tree) {
    forall c | c in t.blocks && t.blocks[c].parent in t.blocks ::
      api(t.blocks[t.blocks[c].parent].parent) ==> api(t.blocks[c].parent)
  }

  /**
   All paths of an authored tree are relay-chain blocks followed by Aura blocks, exactly
   when on honest answers every child of an Aura block finds the api there and its author
   gets no error.  With a persistent api only the errors matter: none may hit the author of
   a child of an Aura block.
   */
  lemma SwitchOnceIffNoLateError(n: Network, api: Hash -> bool, events: seq<Event>)
    ensures var t := Run(n, Empty(n), events);
            && (AllSwitchOnce(t) <==>
                forall c | c in t.blocks && t.blocks[c].parent in t.blocks ::
                  AuraAvailable(t.blocks[t.blocks[c].parent].answer) ==> AuraAvailable(t.blocks[c].answer))
            && (Honest(api, t) ==>
                  (AllSwitchOnce(t) <==>
                   forall c | c in t.blocks && t.blocks[c].parent in t.blocks ::
                     var b := t.blocks[t.blocks[c].parent];
                     api(b.parent) && !b.answer.ApiError? ==> api(t.blocks[c].parent) && !t.blocks[c].answer.ApiError?))
            && (Honest(api, t) && ApiPersists(api, t) ==>
                  (AllSwitchOnce(t) <==>
                   forall c | c in t.blocks && t.blocks[c].answer.ApiError? && t.blocks[c].parent in t.blocks ::
                     t.blocks[t.blocks[c].parent].engine == Relay))
  {
    RunIsConsistent(n, Empty(n), events);
    SwitchOnceIffNeverBack(Run(n, Empty(n), events));
  }

  const ERROR_RUN: seq<Event> :=
    [Author(0, 1, ROOT, Has(true)), Author(0, 2, 1, Has(true)), Author(0, 3, 1, ApiError),
     Import(1, Has(true)), Import(3, Has(true))]

  lemma ErrorRunEnds(n: Network)
    requires n.collators(0) == Returns(Aura) && n.verifier == Returns(Aura)
    ensures Run(n, Empty(n), ERROR_RUN)
            == Tree(map[1 := Block(ROOT, 0, Has(true), Aura), 2 := Block(1, 0, Has(true), Aura), 3 := Block(1, 0, ApiError, Relay)],
                    map[1 := Check(Has(true), Aura), 3 := Check(Has(true), Aura)],
                    map[0 := Initialized(Aura)], Initialized(Aura))
  {
    var e := ERROR_RUN;
    assert e[..1] == [] + [e[0]] && e[..2] == e[..1] + [e[1]] && e[..3] == e[..2] + [e[2]]
           && e[..4] == e[..3] + [e[3]] && e == e[..4] + [e[4]];
    RunAppends(n, Empty(n), [], e[0]);
    RunAppends(n, Empty(n), e[..1], e[1]);
    RunAppends(n, Empty(n), e[..2], e[2]);
    RunAppends(n, Empty(n), e[..3], e[3]);
    RunAppends(n, Empty(n), e[..4], e[4]);
  }

  /**
   One failing query is enough, though the api is there at every block: its block goes back
   to the relay chain, its sibling does not, and an importer without the error checks it by
   the other engine.
   */
  lemma OneErrorUndoesTheSwitch(n: Network)
    requires n.collators(0) == Returns(Aura) && n.verifier == Returns(Aura)
    ensures var t := Run(n, Empty(n), ERROR_RUN);
            && Honest(h => true, t) && ApiPersists(h => true, t)
            && IsPath(t, [1, 2]) && SwitchesOnce(t, [1, 2])
            && IsPath(t, [1, 3]) && !SwitchesOnce(t, [1, 3])
            && !CheckedByAuthor(t)
  {
    ErrorRunEnds(n);
    var t := Run(n, Empty(n), ERROR_RUN);
    var kept, undone: seq<Hash> := [1, 2], [1, 3];
    assert IsPath(t, kept) && SwitchesAt(t, kept, 0);
    assert IsPath(t, undone) && t.blocks[undone[0]].engine == Aura && t.blocks[undone[1]].engine == Relay;
  }
}
