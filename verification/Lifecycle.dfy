// A session's runtimes through resets (site/src/scripts/sim-session.ts).
module Lifecycle {
  // Each piece of code between two awaits is one step; listeners are called inside
  // `reset`, so its first half is two steps.

  import opened Collections
  import opened Wrappers

  // Runtimes and resets are numbered in the order they come to be.
  datatype State = State(
    // Runtimes loaded so far.
    loaded: nat,
    current: nat,
    alive: bool,
    generation: nat,
    poisoned: bool,
    // The `destroy` calls on runtimes, oldest first.
    destroyed: seq<nat>,
    // Resets past their check whose `reset-started` listeners are being called,
    // with the generation each read; the innermost last.
    announcing: seq<nat>,
    // Resets waiting for their runtime, with the generation each read.
    loading: map<nat, nat>,
    // Resets done whose `finally` has not run.
    settled: set<nat>,
    // `resetting`: the reset whose promise later callers get.
    held: Option<nat>,
    resets: nat)

  datatype Step =
    | Reset
    | Arm
    | LoadOk(reset: nat)
    | LoadFails(reset: nat)
    | Finally(reset: nat)
    | Destroy
    // A runtime's call did not settle: a drive's, or the preloads' of a reset.
    | NoSettle(runtime: nat)

  const START := State(1, 0, true, 0, false, [], [], map[], {}, None, 0)

  predicate Enabled(s: State, step: Step) {
    match step
    case Arm => s.announcing != []
    case LoadOk(reset) => reset in s.loading
    case LoadFails(reset) => reset in s.loading
    case Finally(reset) => reset in s.settled
    case NoSettle(runtime) => runtime < s.loaded
    case _ => true
  }

  function Next(s: State, step: Step): State
    requires Enabled(s, step)
  {
    match step
    case Reset =>
      if s.held.Some? || !s.alive then s else s.(announcing := s.announcing + [s.generation])
    case Arm =>
      var last := |s.announcing| - 1;
      s.(announcing := s.announcing[..last], loading := s.loading[s.resets := s.announcing[last]],
         held := Some(s.resets), resets := s.resets + 1)
    case LoadOk(reset) =>
      var done := s.(loaded := s.loaded + 1, loading := s.loading - {reset}, settled := s.settled + {reset});
      if !s.alive || s.loading[reset] != s.generation then done.(destroyed := s.destroyed + [s.loaded])
      else done.(current := s.loaded, poisoned := false, destroyed := s.destroyed + [s.current])
    case LoadFails(reset) => s.(loading := s.loading - {reset}, settled := s.settled + {reset})
    case Finally(reset) => s.(settled := s.settled - {reset}, held := None)
    case Destroy =>
      if !s.alive then s
      else s.(alive := false, generation := s.generation + 1, destroyed := s.destroyed + [s.current])
    case NoSettle(runtime) =>
      if s.current == runtime && s.alive then s.(poisoned := true) else s
  }

  // ---- runs ------------------------------------------------------------------------------

  predicate Possible(s: State, steps: seq<Step>)
    decreases |steps|
  {
    steps == [] || (Enabled(s, steps[0]) && Possible(Next(s, steps[0]), steps[1..]))
  }

  function After(s: State, steps: seq<Step>): State
    requires Possible(s, steps)
    decreases |steps|
  {
    if steps == [] then s else After(Next(s, steps[0]), steps[1..])
  }

  // ---- what every step keeps ---------------------------------------------------------------

  // The runtimes loaded and not destroyed are the current one while alive and
  // none after; none is destroyed twice.
  ghost predicate Owned(s: State) {
    && s.current < s.loaded
    && (forall r: nat :: r < s.loaded && r !in s.destroyed <==> s.alive && r == s.current)
    && (forall r <- s.destroyed :: r < s.loaded)
    && Distinct(s.destroyed)
  }

  // A reset in progress is under way once, in numbers already given out.
  predicate Numbered(s: State) {
    && (forall k <- s.loading :: k < s.resets && k !in s.settled)
    && (forall k <- s.settled :: k < s.resets)
    && (s.held.Some? ==> s.held.value in s.loading || s.held.value in s.settled)
  }

  // No reset outlives the generation it read unless the session is destroyed.
  predicate Dated(s: State) {
    && (s.alive ==> forall k <- s.loading :: s.loading[k] == s.generation)
    && (s.alive ==> forall g <- s.announcing :: g == s.generation)
  }

  ghost predicate Inv(s: State) {
    Owned(s) && Numbered(s) && Dated(s)
  }

  lemma DistinctMore(s: seq<nat>, x: nat)
    requires Distinct(s) && x !in s
    ensures Distinct(s + [x])
    ensures forall r :: r in s + [x] <==> r in s || r == x
  {
    assert forall i :: 0 <= i < |s| ==> (s + [x])[i] == s[i] && s[i] in s;
  }

  lemma OwnedKept(s: State, step: Step)
    requires Inv(s) && Enabled(s, step)
    ensures Owned(Next(s, step))
  {
    match step
    case LoadOk(reset) =>
      assert s.loaded !in s.destroyed;
      if !s.alive || s.loading[reset] != s.generation {
        DistinctMore(s.destroyed, s.loaded);
      } else {
        DistinctMore(s.destroyed, s.current);
      }
    case Destroy =>
      if s.alive {
        DistinctMore(s.destroyed, s.current);
      }
    case _ =>
  }

  lemma RestKept(s: State, step: Step)
    requires Inv(s) && Enabled(s, step)
    ensures Numbered(Next(s, step)) && Dated(Next(s, step))
  {
    match step
    case Arm =>
      var g, next := s.announcing[|s.announcing| - 1], Next(s, step);
      assert g in s.announcing;
      assert forall k <- next.loading :: k == s.resets || k in s.loading;
      assert forall h <- next.announcing :: h in s.announcing;
    case LoadOk(reset) => assert forall k <- Next(s, step).loading :: k in s.loading && k != reset;
    case LoadFails(reset) => assert forall k <- Next(s, step).loading :: k in s.loading && k != reset;
    case _ =>
  }

  // However resets, loads, failures and destruction interleave, re-entrant calls
  // from listeners among them.
  lemma {:induction false} RunKeeps(s: State, steps: seq<Step>)
    requires Inv(s) && Possible(s, steps)
    ensures Inv(After(s, steps))
    decreases |steps|
  {
    if steps != [] {
      OwnedKept(s, steps[0]);
      RestKept(s, steps[0]);
      RunKeeps(Next(s, steps[0]), steps[1..]);
    }
  }

  // ---- one reset at a time -------------------------------------------------------------------

  // Resets past their check and not over.
  function InFlight(s: State): nat {
    |s.announcing| + |s.loading| + |s.settled|
  }

  predicate Single(s: State) {
    InFlight(s) <= 1 && (s.held.None? <==> s.loading == map[] && s.settled == {})
  }

  // A listener of `reset-started` that resets again.
  predicate Nests(s: State, step: Step) {
    step.Reset? && s.alive && s.announcing != []
  }

  lemma NoneOrOne<A, B>(m: map<A, B>, k: A)
    requires k in m && |m| <= 1
    ensures m - {k} == map[] && |m - {k}| == 0
  {
    assert m.Keys == {k} + (m.Keys - {k});
    assert |m.Keys - {k}| == 0;
    assert m.Keys - {k} == {};
  }

  lemma NoneOrOneOf<A>(s: set<A>, k: A)
    requires k in s && |s| <= 1
    ensures s - {k} == {} && |s - {k}| == 0
  {
    assert s == {k} + (s - {k});
  }

  lemma OneAtATime(s: State, step: Step)
    requires Inv(s) && Single(s) && Enabled(s, step)
    ensures InFlight(Next(s, step)) <= 1 <==> !Nests(s, step)
    ensures !Nests(s, step) ==> Single(Next(s, step))
  {
    match step
    case LoadOk(reset) => SettleSingle(s, step, reset);
    case LoadFails(reset) => SettleSingle(s, step, reset);
    case Finally(reset) => NoneOrOneOf(s.settled, reset);
    case Arm => assert s.resets in Next(s, step).loading;
    case _ =>
  }

  lemma SettleSingle(s: State, step: Step, reset: nat)
    requires Single(s) && reset in s.loading && (step == LoadOk(reset) || step == LoadFails(reset))
    ensures Single(Next(s, step))
  {
    NoneOrOne(s.loading, reset);
    assert s.settled == {} && s.announcing == [];
    assert reset in Next(s, step).settled;
  }

  predicate NeverTwo(s: State, steps: seq<Step>)
    requires Possible(s, steps)
    decreases |steps|
  {
    InFlight(s) <= 1 && (steps != [] ==> NeverTwo(Next(s, steps[0]), steps[1..]))
  }

  predicate NeverNests(s: State, steps: seq<Step>)
    requires Possible(s, steps)
    decreases |steps|
  {
    steps != [] ==> !Nests(s, steps[0]) && NeverNests(Next(s, steps[0]), steps[1..])
  }

  // At most one reset is in flight throughout exactly when no reset is asked for
  // while one is being announced.
  lemma {:induction false} OneResetInFlight(s: State, steps: seq<Step>)
    requires Inv(s) && Single(s) && Possible(s, steps)
    ensures NeverTwo(s, steps) <==> NeverNests(s, steps)
    decreases |steps|
  {
    if steps != [] {
      var next := Next(s, steps[0]);
      OneAtATime(s, steps[0]);
      OwnedKept(s, steps[0]);
      RestKept(s, steps[0]);
      if Nests(s, steps[0]) {
        assert InFlight(next) > 1;
      } else {
        OneResetInFlight(next, steps[1..]);
      }
    }
  }

  // A run where one is: two runtimes are then loading at once.
  lemma NestedResetsOverlap()
    ensures var steps := [Reset, Reset, Arm, Arm];
            Possible(START, steps) && |After(START, steps).loading| == 2
  {
    var a := Next(START, Reset);
    var b := Next(a, Reset);
    var c := Next(b, Arm);
    var d := Next(c, Arm);
    assert [Reset, Reset, Arm, Arm][1..] == [Reset, Arm, Arm] && [Reset, Arm, Arm][1..] == [Arm, Arm] && [Arm, Arm][1..] == [Arm];
    assert Possible(d, []) && Possible(c, [Arm]) && Possible(b, [Arm, Arm]) && Possible(a, [Reset, Arm, Arm]);
    assert d.loading == map[0 := 0, 1 := 0];
    assert [Arm][1..] == [];
    assert After(c, [Arm]) == d;
  }

  // ---- poisoning ---------------------------------------------------------------------------

  // The runtime, current and the session alive, did not settle somewhere in the run.
  predicate Failed(s: State, steps: seq<Step>, runtime: nat)
    requires Possible(s, steps)
    decreases |steps|
  {
    && steps != []
    && (|| (steps[0] == NoSettle(runtime) && s.alive && s.current == runtime)
        || Failed(Next(s, steps[0]), steps[1..], runtime))
  }

  lemma {:induction false} CurrentGrows(s: State, steps: seq<Step>)
    requires Inv(s) && Possible(s, steps)
    ensures s.current <= After(s, steps).current
    decreases |steps|
  {
    if steps != [] {
      OwnedKept(s, steps[0]);
      RestKept(s, steps[0]);
      CurrentGrows(Next(s, steps[0]), steps[1..]);
    }
  }

  // The session is poisoned exactly when its present runtime failed while present:
  // only that runtime poisons, and only a new one clears it.
  lemma {:induction false} PoisonedMeans(s: State, steps: seq<Step>)
    requires Inv(s) && Possible(s, steps)
    ensures var end := After(s, steps);
            end.poisoned <==> (s.poisoned && s.current == end.current) || Failed(s, steps, end.current)
    decreases |steps|
  {
    if steps != [] {
      var next := Next(s, steps[0]);
      OwnedKept(s, steps[0]);
      RestKept(s, steps[0]);
      CurrentGrows(next, steps[1..]);
      PoisonedMeans(next, steps[1..]);
    }
  }

  lemma LoadKeeps(s: State, reset: nat)
    requires Inv(s) && reset in s.loading
    ensures Inv(Next(s, LoadOk(reset)))
  {
    OwnedKept(s, LoadOk(reset));
    RestKept(s, LoadOk(reset));
  }

  // ---- the session object ----------------------------------------------------------------------

  class Session {
    var loaded: nat
    var rt: nat
    var alive: bool
    var generation: nat
    var didNotSettle: bool
    var destroyed: seq<nat>
    var announcing: seq<nat>
    var loading: map<nat, nat>
    var settled: set<nat>
    var resetting: Option<nat>
    var resets: nat

    function Now(): State
      reads this
    {
      State(loaded, rt, alive, generation, didNotSettle, destroyed, announcing, loading, settled, resetting, resets)
    }

    constructor ()
      ensures Now() == START && Inv(Now()) && Single(Now())
    {
      loaded, rt, alive, generation, didNotSettle := 1, 0, true, 0, false;
      destroyed, announcing, loading, settled, resetting, resets := [], [], map[], {}, None, 0;
    }

    // What `reset` does before it calls its listeners.
    method BeginReset() returns (begun: bool)
      modifies this
      ensures Now() == Next(old(Now()), Reset)
      ensures begun <==> old(resetting).None? && old(alive)
    {
      if resetting.Some? || !alive {
        return false;
      }
      announcing := announcing + [generation];
      return true;
    }

    // What it does after.
    method ArmReset() returns (reset: nat)
      requires Enabled(Now(), Arm)
      modifies this
      ensures Now() == Next(old(Now()), Arm) && resetting == Some(reset)
    {
      var mine := announcing[|announcing| - 1];
      announcing := announcing[..|announcing| - 1];
      reset := resets;
      loading := loading[reset := mine];
      resetting := Some(reset);
      resets := resets + 1;
    }

    // The runtime a reset waited for is there.
    method Loaded(reset: nat) returns (installed: bool)
      requires Enabled(Now(), LoadOk(reset)) && Inv(Now())
      modifies this
      ensures Now() == Next(old(Now()), LoadOk(reset)) && Inv(Now())
      ensures installed <==> old(alive)
    {
      LoadKeeps(Now(), reset);
      var renewed := loaded;
      loaded := loaded + 1;
      var mine := loading[reset];
      loading := loading - {reset};
      settled := settled + {reset};
      if !alive || mine != generation {
        destroyed := destroyed + [renewed];
        return false;
      }
      var before := rt;
      rt := renewed;
      didNotSettle := false;
      destroyed := destroyed + [before];
      return true;
    }

    method LoadFailed(reset: nat)
      requires Enabled(Now(), LoadFails(reset))
      modifies this
      ensures Now() == Next(old(Now()), LoadFails(reset))
    {
      loading := loading - {reset};
      settled := settled + {reset};
    }

    method FinallyOf(reset: nat)
      requires Enabled(Now(), Finally(reset))
      modifies this
      ensures Now() == Next(old(Now()), Finally(reset))
    {
      settled := settled - {reset};
      resetting := None;
    }

    method DestroySession()
      requires Inv(Now())
      modifies this
      ensures Now() == Next(old(Now()), Destroy) && Inv(Now()) && !alive
    {
      OwnedKept(Now(), Destroy);
      RestKept(Now(), Destroy);
      if !alive {
        return;
      }
      alive := false;
      generation := generation + 1;
      destroyed := destroyed + [rt];
    }

    // The wrapper around a runtime's calls.
    method ObserveFailure(runtime: nat)
      requires Enabled(Now(), NoSettle(runtime))
      modifies this
      ensures Now() == Next(old(Now()), NoSettle(runtime))
    {
      if rt == runtime && alive && !didNotSettle {
        didNotSettle := true;
      }
    }
  }
}
