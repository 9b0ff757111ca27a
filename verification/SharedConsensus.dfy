/**
 Tasks on clones of `WaitForAuraConsensus`, interleaved at every suspension point:
 the api query, waiting for one of the two mutexes, the access to the lazy cell, and
 the engine's work under the lock.  A task may be cancelled anywhere, and a panic
 releases the lock without poisoning it.
 */
module SharedConsensus {
  import opened Prelude
  import opened LazyCell
  import opened Consensus

  type Task = int

  type EngineId = nat

  const RELAY_ENGINE: EngineId := 0

  datatype Phase =
    | Spawned
    | Decided
    | Locked
    | Working(engine: EngineId)
    | Finished(engine: EngineId)
    | Crashed
    | Cancelled

  /**
   `answers` remembers every api query; `auraServed` and `relayServed` are what the
   two engine objects have done so far, in order.
   */
  datatype System = System(
    cell: CellState<EngineId>, builds: nat,
    auraLock: Option<Task>, relayLock: Option<Task>,
    auraServed: seq<Task>, relayServed: seq<Task>,
    answers: map<Task, Answer>, tasks: map<Task, Phase>)

  datatype Event =
    | Spawn(task: Task)
    | Query(task: Task, answer: Answer)
    | Acquire(task: Task)
    | Access(task: Task)
    | Complete(task: Task)
    | Cancel(task: Task)

  function Initial(f: Builder<EngineId>): System {
    System(Uninitialized(Some(f)), 0, None, None, [], [], map[], map[])
  }

  predicate Asked(s: System, t: Task, aura: bool) {
    t in s.answers && AuraAvailable(s.answers[t]) == aura
  }

  function Put(s: System, t: Task, p: Phase): System {
    s.(tasks := s.tasks[t := p])
  }

  /** Leaving for good: whatever lock the task holds is released. */
  function Leave(s: System, t: Task, p: Phase): System {
    Put(s.(auraLock := if s.auraLock == Some(t) then None else s.auraLock,
           relayLock := if s.relayLock == Some(t) then None else s.relayLock), t, p)
  }

  function Acquired(s: System, t: Task): System {
    if Asked(s, t, true) then
      if s.auraLock.Some? then s else Put(s.(auraLock := Some(t)), t, Locked)
    else
      if s.relayLock.Some? then s else Put(s.(relayLock := Some(t)), t, Locked)
  }

  function CellAccessed(s: System, t: Task): System {
    if !Asked(s, t, true) then Put(s, t, Working(RELAY_ENGINE))
    else
      var (cell, got) := Accessed(s.cell);
      var s' := s.(cell := cell, builds := s.builds + Builds(s.cell));
      match got
      case Panicked => Leave(s', t, Crashed)
      case Got(engine) => Put(s', t, Working(engine))
  }

  function Completed(s: System, t: Task, engine: EngineId): System {
    var s' := if Asked(s, t, true) then s.(auraServed := s.auraServed + [t])
              else s.(relayServed := s.relayServed + [t]);
    Leave(s', t, Finished(engine))
  }

  function Advance(s: System, e: Event): System {
    var t := e.task;
    if e.Spawn? then
      if t in s.tasks then s else Put(s, t, Spawned)
    else if t !in s.tasks then s
    else
      match (e, s.tasks[t])
      case (Query(_, answer), Spawned) => Put(s.(answers := s.answers[t := answer]), t, Decided)
      case (Acquire(_), Decided) => Acquired(s, t)
      case (Access(_), Locked) => CellAccessed(s, t)
      case (Complete(_), Working(engine)) => Completed(s, t, engine)
      case (Cancel(_), p) => if p.Finished? || p.Crashed? then s else Leave(s, t, Cancelled)
      case _ => s
  }

  function Run(s: System, events: seq<Event>): System
    decreases |events|
  {
    if events == [] then s else Run(Advance(s, events[0]), events[1..])
  }

  // ---------------------------------------------------------------------------
  // What holds in every reachable state
  // ---------------------------------------------------------------------------

  predicate Past(s: System, t: Task, aura: bool) {
    t in s.tasks && (s.tasks[t].Locked? || s.tasks[t].Working?) && Asked(s, t, aura)
  }

  /** Mutual exclusion: a task is past a lock exactly when it holds it. */
  ghost predicate LocksExact(s: System) {
    && (forall t :: Past(s, t, true) <==> s.auraLock == Some(t))
    && (forall t :: Past(s, t, false) <==> s.relayLock == Some(t))
  }

  predicate AnswersKnown(s: System) {
    && (forall t :: t in s.answers ==> t in s.tasks && !s.tasks[t].Spawned?)
    && (forall t :: t in s.tasks && !s.tasks[t].Spawned? && !s.tasks[t].Cancelled? ==> t in s.answers)
  }

  /** Built at most once, from the given builder, and only if some task's parent had the api. */
  predicate BuiltOnce(f: Builder<EngineId>, s: System) {
    && s.builds <= 1
    && s.cell == (if s.builds == 0 then Uninitialized(Some(f)) else Accessed(Uninitialized(Some(f))).0)
    && (s.builds == 1 ==> exists t :: t in s.answers && AuraAvailable(s.answers[t]))
  }

  predicate ServedBy(f: Builder<EngineId>, s: System, t: Task, e: EngineId) {
    t in s.answers
    && if AuraAvailable(s.answers[t]) then f == Returns(e) && s.builds == 1 else e == RELAY_ENGINE
  }

  predicate RightEngine(f: Builder<EngineId>, s: System, t: Task) {
    t in s.tasks ==>
      match s.tasks[t]
      case Working(e) => ServedBy(f, s, t, e)
      case Finished(e) => ServedBy(f, s, t, e)
      case Crashed => f.Panics? && Asked(s, t, true)
      case _ => true
  }

  /** Every task is served by the one engine its parent's api asks for, and only a panicking builder crashes one. */
  ghost predicate SameEngine(f: Builder<EngineId>, s: System) {
    forall t :: RightEngine(f, s, t)
  }

  function Times(s: System, t: Task, aura: bool): nat {
    if t in s.tasks && s.tasks[t].Finished? && Asked(s, t, aura) then 1 else 0
  }

  /** The engines have served exactly the finished tasks, each once, each on the right side. */
  ghost predicate ServedExactly(s: System) {
    && (forall t :: multiset(s.auraServed)[t] == Times(s, t, true))
    && (forall t :: multiset(s.relayServed)[t] == Times(s, t, false))
  }

  ghost predicate Inv(f: Builder<EngineId>, s: System) {
    LocksExact(s) && AnswersKnown(s) && BuiltOnce(f, s) && SameEngine(f, s) && ServedExactly(s)
  }

  /** What a step can do, told by the task that takes it. */
  lemma StepShape(s: System, e: Event)
    ensures var s', t := Advance(s, e), e.task;
            || s' == s
            || (t !in s.tasks && s' == Put(s, t, Spawned))
            || (t in s.tasks && s.tasks[t].Spawned? && e.Query? && s' == Put(s.(answers := s.answers[t := e.answer]), t, Decided))
            || (t in s.tasks && s.tasks[t].Decided? && s' == Acquired(s, t))
            || (t in s.tasks && s.tasks[t].Locked? && s' == CellAccessed(s, t))
            || (t in s.tasks && s.tasks[t].Working? && s' == Completed(s, t, s.tasks[t].engine))
            || (t in s.tasks && !s.tasks[t].Finished? && !s.tasks[t].Crashed? && s' == Leave(s, t, Cancelled))
  {
  }

  lemma LocksKept(s: System, e: Event)
    requires LocksExact(s) && AnswersKnown(s)
    ensures LocksExact(Advance(s, e))
  {
    StepShape(s, e);
    var s', t := Advance(s, e), e.task;
    assert Past(s, t, true) <==> s.auraLock == Some(t);
    assert Past(s, t, false) <==> s.relayLock == Some(t);
    forall u | u != t
      ensures forall aura :: Past(s', u, aura) <==> Past(s, u, aura)
      ensures s'.auraLock == Some(u) <==> s.auraLock == Some(u)
      ensures s'.relayLock == Some(u) <==> s.relayLock == Some(u)
    {
    }
    assert Past(s', t, true) <==> s'.auraLock == Some(t);
    assert Past(s', t, false) <==> s'.relayLock == Some(t);
  }

  lemma AnswersKept(s: System, e: Event)
    requires AnswersKnown(s)
    ensures AnswersKnown(Advance(s, e))
    ensures forall u :: u in s.answers ==> u in Advance(s, e).answers && Advance(s, e).answers[u] == s.answers[u]
  {
    StepShape(s, e);
  }

  lemma BuildsKept(f: Builder<EngineId>, s: System, e: Event)
    requires BuiltOnce(f, s) && AnswersKnown(s)
    ensures BuiltOnce(f, Advance(s, e)) && s.builds <= Advance(s, e).builds
  {
    StepShape(s, e);
    AnswersKept(s, e);
    var s' := Advance(s, e);
    if s.builds == 1 {
      var u :| u in s.answers && AuraAvailable(s.answers[u]);
      assert u in s'.answers && AuraAvailable(s'.answers[u]);
    } else if s'.builds == 1 {
      assert e.task in s'.answers && AuraAvailable(s'.answers[e.task]);
    }
  }

  lemma OthersUntouched(s: System, e: Event, u: Task)
    requires u != e.task
    ensures u in Advance(s, e).tasks <==> u in s.tasks
    ensures u in s.tasks ==> Advance(s, e).tasks[u] == s.tasks[u]
  {
    StepShape(s, e);
  }

  lemma OthersKeepEngine(f: Builder<EngineId>, s: System, e: Event, u: Task)
    requires RightEngine(f, s, u) && BuiltOnce(f, s) && AnswersKnown(s) && u != e.task
    ensures RightEngine(f, Advance(s, e), u)
  {
    AnswersKept(s, e);
    BuildsKept(f, s, e);
    OthersUntouched(s, e, u);
  }

  lemma EnginesKept(f: Builder<EngineId>, s: System, e: Event)
    requires SameEngine(f, s) && BuiltOnce(f, s) && AnswersKnown(s)
    ensures SameEngine(f, Advance(s, e))
  {
    forall u ensures RightEngine(f, Advance(s, e), u) {
      assert RightEngine(f, s, u);
      if u == e.task {
        StepShape(s, e);
      } else {
        OthersKeepEngine(f, s, e, u);
      }
    }
  }

  /** Only completing a task counts it, and only that task. */
  lemma TimesChange(s: System, e: Event, u: Task, aura: bool)
    requires AnswersKnown(s)
    ensures var s', t := Advance(s, e), e.task;
            var completes := e.Complete? && t in s.tasks && s.tasks[t].Working?;
            && Times(s', u, aura) == Times(s, u, aura) + (if completes && u == t && Asked(s, t, aura) then 1 else 0)
            && s'.auraServed == s.auraServed + (if completes && Asked(s, t, true) then [t] else [])
            && s'.relayServed == s.relayServed + (if completes && !Asked(s, t, true) then [t] else [])
  {
    StepShape(s, e);
  }

  lemma ServedKept(s: System, e: Event)
    requires ServedExactly(s) && AnswersKnown(s)
    ensures ServedExactly(Advance(s, e))
    ensures s.auraServed <= Advance(s, e).auraServed && s.relayServed <= Advance(s, e).relayServed
  {
    var s' := Advance(s, e);
    TimesChange(s, e, e.task, true);
    forall u ensures multiset(s'.auraServed)[u] == Times(s', u, true) {
      TimesChange(s, e, u, true);
      assert multiset(s.auraServed)[u] == Times(s, u, true);
    }
    forall u ensures multiset(s'.relayServed)[u] == Times(s', u, false) {
      TimesChange(s, e, u, false);
      assert multiset(s.relayServed)[u] == Times(s, u, false);
    }
  }

  lemma AdvanceKeepsInv(f: Builder<EngineId>, s: System, e: Event)
    requires Inv(f, s)
    ensures Inv(f, Advance(s, e))
    ensures s.auraServed <= Advance(s, e).auraServed && s.relayServed <= Advance(s, e).relayServed
    ensures s.builds <= Advance(s, e).builds
  {
    LocksKept(s, e);
    AnswersKept(s, e);
    BuildsKept(f, s, e);
    EnginesKept(f, s, e);
    ServedKept(s, e);
  }

  /**
   Over every interleaving: the builder runs at most once and never without a parent
   that has the api, each lock admits one task at a time, all tasks with the api share
   one engine, and what an engine has done is only ever extended.
   */
  lemma {:induction false} EveryInterleaving(f: Builder<EngineId>, s: System, events: seq<Event>)
    requires Inv(f, s)
    ensures Inv(f, Run(s, events))
    ensures s.auraServed <= Run(s, events).auraServed && s.relayServed <= Run(s, events).relayServed
    ensures s.builds <= Run(s, events).builds
    decreases |events|
  {
    if events != [] {
      AdvanceKeepsInv(f, s, events[0]);
      EveryInterleaving(f, Advance(s, events[0]), events[1..]);
    }
  }

  /** The same from the start, spelled out for any two tasks that reached Aura. */
  lemma FromTheStart(f: Builder<EngineId>, events: seq<Event>, t: Task, u: Task)
    ensures var s := Run(Initial(f), events);
            && Inv(f, s)
            && (Past(s, t, true) && Past(s, u, true) ==> t == u)
            && (t in s.tasks && s.tasks[t].Crashed? ==> f.Panics?)
            && (Times(s, t, true) == Times(s, u, true) == 1 ==> s.tasks[t].engine == s.tasks[u].engine)
            && (s.builds == 1 ==> exists v :: v in s.answers && AuraAvailable(s.answers[v]))
  {
    EveryInterleaving(f, Initial(f), events);
    var s := Run(Initial(f), events);
    assert Past(s, t, true) ==> s.auraLock == Some(t);
    assert Past(s, u, true) ==> s.auraLock == Some(u);
    assert RightEngine(f, s, t) && RightEngine(f, s, u);
  }

  // ---------------------------------------------------------------------------
  // Nobody is ever stuck
  // ---------------------------------------------------------------------------

  predicate Ended(s: System, t: Task) {
    t in s.tasks && (s.tasks[t].Finished? || s.tasks[t].Crashed?)
  }

  /** `u` is where it was, with the answer it had. */
  predicate Untouched(s: System, s': System, u: Task) {
    && (u in s.tasks ==> u in s'.tasks && s'.tasks[u] == s.tasks[u])
    && (u in s.answers ==> u in s'.answers && s'.answers[u] == s.answers[u])
  }

  predicate LockFree(s: System, aura: bool) {
    if aura then s.auraLock.None? else s.relayLock.None?
  }

  ghost predicate CanReach(s: System, s': System) {
    exists events :: Run(s, events) == s'
  }

  lemma OneEvent(s: System, e: Event)
    ensures CanReach(s, Advance(s, e))
  {
    assert [e][1..] == [];
    assert Run(s, [e]) == Run(Advance(s, e), []);
  }

  lemma {:induction false} RunAppend(s: System, a: seq<Event>, b: seq<Event>)
    ensures Run(s, a + b) == Run(Run(s, a), b)
    decreases |a|
  {
    if a == [] {
      assert a + b == b;
    } else {
      assert (a + b)[1..] == a[1..] + b;
      RunAppend(Advance(s, a[0]), a[1..], b);
    }
  }

  lemma ReachOn(s: System, s1: System, s2: System)
    requires CanReach(s, s1) && CanReach(s1, s2)
    ensures CanReach(s, s2)
  {
    var a :| Run(s, a) == s1;
    var b :| Run(s1, b) == s2;
    RunAppend(s, a, b);
  }

  lemma OthersStay(s: System, e: Event)
    requires AnswersKnown(s)
    ensures forall u :: u != e.task ==> Untouched(s, Advance(s, e), u)
  {
    AnswersKept(s, e);
    forall u | u != e.task ensures Untouched(s, Advance(s, e), u) {
      OthersUntouched(s, e, u);
    }
  }

  /** Completing the work ends a task and gives its lock back. */
  lemma WorkEnds(f: Builder<EngineId>, s: System, t: Task) returns (s': System)
    requires Inv(f, s) && t in s.tasks && s.tasks[t].Working?
    ensures CanReach(s, s') && Inv(f, s') && Ended(s', t) && LockFree(s', Asked(s, t, true))
    ensures forall u :: u != t ==> Untouched(s, s', u)
  {
    s' := Advance(s, Complete(t));
    OneEvent(s, Complete(t));
    AdvanceKeepsInv(f, s, Complete(t));
    OthersStay(s, Complete(t));
    assert AnswersKnown(s) && (Past(s, t, true) || Past(s, t, false));
  }

  /** So does reaching for the engine and then completing, or panicking at that. */
  lemma HolderEnds(f: Builder<EngineId>, s: System, t: Task) returns (s': System)
    requires Inv(f, s) && t in s.tasks && (s.tasks[t].Locked? || s.tasks[t].Working?)
    ensures CanReach(s, s') && Inv(f, s') && Ended(s', t) && LockFree(s', Asked(s, t, true))
    ensures forall u :: u != t ==> Untouched(s, s', u)
  {
    if s.tasks[t].Working? {
      s' := WorkEnds(f, s, t);
    } else {
      var s1 := Advance(s, Access(t));
      OneEvent(s, Access(t));
      AdvanceKeepsInv(f, s, Access(t));
      OthersStay(s, Access(t));
      assert AnswersKnown(s) && (Past(s, t, true) || Past(s, t, false));
      if s1.tasks[t].Working? {
        s' := WorkEnds(f, s1, t);
        ReachOn(s, s1, s');
        forall u | u != t ensures Untouched(s, s', u) {
          assert Untouched(s, s1, u) && Untouched(s1, s', u);
        }
      } else {
        s' := s1;
      }
    }
  }

  lemma LockComesFree(f: Builder<EngineId>, s: System, t: Task, aura: bool) returns (s': System)
    requires Inv(f, s) && t in s.tasks && s.tasks[t].Decided?
    ensures CanReach(s, s') && Inv(f, s') && LockFree(s', aura) && Untouched(s, s', t)
  {
    var holder := if aura then s.auraLock else s.relayLock;
    if holder.None? {
      s' := s;
      assert Run(s, []) == s;
    } else {
      var u := holder.value;
      assert Past(s, u, aura);
      s' := HolderEnds(f, s, u);
      assert Untouched(s, s', t);
    }
  }

  lemma DecidedEnds(f: Builder<EngineId>, s: System, t: Task) returns (s': System)
    requires Inv(f, s) && t in s.tasks && s.tasks[t].Decided?
    ensures CanReach(s, s') && Inv(f, s') && Ended(s', t)
  {
    assert t in s.answers;
    var s1 := LockComesFree(f, s, t, Asked(s, t, true));
    var s2 := Advance(s1, Acquire(t));
    OneEvent(s1, Acquire(t));
    AdvanceKeepsInv(f, s1, Acquire(t));
    ReachOn(s, s1, s2);
    s' := HolderEnds(f, s2, t);
    ReachOn(s, s2, s');
  }

  lemma {:induction false} RunKeepsAnswers(f: Builder<EngineId>, s: System, events: seq<Event>, t: Task)
    requires Inv(f, s) && t in s.answers
    ensures t in Run(s, events).answers && Run(s, events).answers[t] == s.answers[t]
    decreases |events|
  {
    if events != [] {
      AnswersKept(s, events[0]);
      AdvanceKeepsInv(f, s, events[0]);
      RunKeepsAnswers(f, Advance(s, events[0]), events[1..], t);
    }
  }

  /**
   From every reachable state every task that was not cancelled can still come to its end,
   whoever holds the locks: it finishes with the engine it asked for, or, exactly if that is
   Aura's and the builder panics, it crashes.  What it asked for is what its query is answered.
   */
  lemma NobodyIsStuck(f: Builder<EngineId>, events: seq<Event>, t: Task, answer: Answer)
    ensures var s := Run(Initial(f), events);
            t in s.tasks && !s.tasks[t].Cancelled? ==>
              exists s' :: CanReach(s, s') && Ended(s', t) && t in s'.answers
                           && (s'.tasks[t].Crashed? <==> AuraAvailable(s'.answers[t]) && f.Panics?)
                           && s'.answers[t] == (if t in s.answers then s.answers[t] else answer)
  {
    FromTheStart(f, events, t, t);
    var s := Run(Initial(f), events);
    if t in s.tasks && !s.tasks[t].Cancelled? {
      var s' := s;
      if s.tasks[t].Spawned? {
        var s1 := Advance(s, Query(t, answer));
        OneEvent(s, Query(t, answer));
        AdvanceKeepsInv(f, s, Query(t, answer));
        s' := DecidedEnds(f, s1, t);
        var rest :| Run(s1, rest) == s';
        RunKeepsAnswers(f, s1, rest, t);
        ReachOn(s, s1, s');
      } else if s.tasks[t].Decided? {
        s' := DecidedEnds(f, s, t);
      } else if s.tasks[t].Locked? || s.tasks[t].Working? {
        s' := HolderEnds(f, s, t);
      } else {
        assert Run(s, []) == s;
      }
      if t in s.answers {
        var all :| Run(s, all) == s';
        RunKeepsAnswers(f, s, all, t);
      }
      assert RightEngine(f, s', t);
    }
  }

  /** Cancelling a task gives back whatever it holds, and undoes nothing. */
  lemma CancelLetsGo(f: Builder<EngineId>, s: System, t: Task)
    requires Inv(f, s) && t in s.tasks && !Ended(s, t)
    ensures var s' := Advance(s, Cancel(t));
            && s'.tasks[t] == Cancelled && s'.auraLock != Some(t) && s'.relayLock != Some(t)
            && s'.cell == s.cell && s'.auraServed == s.auraServed && s'.relayServed == s.relayServed
  {
  }
}
