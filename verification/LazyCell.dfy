/** `BuildOnAccess`: a cell that overwrites itself with the value of its builder on first access. */
module LazyCell {
  import opened Prelude

  /** A one-shot builder, by what its only call does. */
  datatype Builder<+R> = Returns(value: R) | Panics

  datatype CellState<+R> = Uninitialized(f: Option<Builder<R>>) | Initialized(r: R)

  datatype Access<+R> = Got(r: R) | Panicked

  /** One access as a function: the state it leaves and what the caller gets. */
  function Accessed<R>(s: CellState<R>): (CellState<R>, Access<R>) {
    match s
    case Initialized(r) => (s, Got(r))
    case Uninitialized(None) => (s, Panicked)
    case Uninitialized(Some(Returns(v))) => (Initialized(v), Got(v))
    case Uninitialized(Some(Panics)) => (Uninitialized(None), Panicked)
  }

  function Builds<R>(s: CellState<R>): nat {
    if s.Uninitialized? && s.f.Some? then 1 else 0
  }

  class BuildOnAccess<R> {
    var state: CellState<R>
    ghost var builds: nat

    constructor (f: Builder<R>)
      ensures state == Uninitialized(Some(f)) && builds == 0
    {
      state, builds := Uninitialized(Some(f)), 0;
    }

    /** At most two turns: one that builds and one that returns. */
    method GetMut() returns (a: Access<R>, ghost turns: nat)
      modifies this
      ensures (state, a) == Accessed(old(state))
      ensures builds == old(builds) + Builds(old(state))
      ensures 1 <= turns <= 2
      ensures turns == 2 <==> old(state).Uninitialized? && a.Got?
    {
      turns := 0;
      while true
        invariant turns == 0 ==> state == old(state) && builds == old(builds)
        invariant turns == 1 ==> state.Initialized? && old(state) == Uninitialized(Some(Returns(state.r)))
        invariant turns == 1 ==> builds == old(builds) + 1
        invariant turns <= 1
        decreases 2 - turns
      {
        turns := turns + 1;
        match state {
          case Uninitialized(f) =>
            state := Uninitialized(None);
            if f.None? {
              return Panicked, turns;
            }
            builds := builds + 1;
            match f.value {
              case Panics => return Panicked, turns;
              case Returns(v) => state := Initialized(v);
            }
          case Initialized(r) =>
            return Got(r), turns;
        }
      }
    }
  }

  // ---------------------------------------------------------------------------
  // Any number of accesses
  // ---------------------------------------------------------------------------

  function StateAfter<R>(s: CellState<R>, n: nat): CellState<R> {
    if n == 0 then s else Accessed(StateAfter(s, n - 1)).0
  }

  function ResultOf<R>(s: CellState<R>, n: nat): Access<R>
    requires n >= 1
  {
    Accessed(StateAfter(s, n - 1)).1
  }

  function BuildsUpTo<R>(s: CellState<R>, n: nat): nat {
    if n == 0 then 0 else BuildsUpTo(s, n - 1) + Builds(StateAfter(s, n - 1))
  }

  /**
   From a fresh cell, after any number of accesses: the builder has run exactly once
   if there was an access at all; either every access got the one built value or,
   exactly when the builder panics, every access panicked and the cell is left
   without a builder for good.
   */
  lemma {:induction false} FreshCellRun<R>(f: Builder<R>, n: nat)
    ensures var s := Uninitialized(Some(f));
            && BuildsUpTo(s, n) == Min(n, 1)
            && (StateAfter(s, n) == Uninitialized(None) <==> n >= 1 && f.Panics?)
            && (n >= 1 && f.Returns? ==> StateAfter(s, n) == Initialized(f.value) && ResultOf(s, n) == Got(f.value))
            && (n >= 1 && f.Panics? ==> ResultOf(s, n) == Panicked)
  {
    if n > 0 {
      FreshCellRun(f, n - 1);
    }
  }

  /** A cell without builder fails forever, and only such a cell or a panicking builder fails at all. */
  lemma {:induction false} EmptyCellFails<R>(s: CellState<R>, n: nat)
    requires n >= 1
    ensures s == Uninitialized(None) ==> ResultOf(s, n) == Panicked && StateAfter(s, n) == s
    ensures ResultOf(s, n) == Panicked <==> s.Uninitialized? && (s.f.None? || s.f.value.Panics?)
  {
    if n > 1 {
      EmptyCellFails(s, n - 1);
      if s.Uninitialized? && s.f.Some? {
        FreshCellRun(s.f.value, n);
      }
    }
  }
}
