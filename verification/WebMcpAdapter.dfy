// Native registrations over time (site/src/scripts/webmcp-adapter.ts).
module WebMcpAdapter {
  // Starts, suspends, resumes and disposes overlap, with a registrar in between.
  // Each piece of code between two awaits is one step; what is awaited may come in
  // any order.

  import opened Wrappers

  // A call of `start` (or `resume`), with the generation it took: waiting for the
  // cleanup, waiting for a registration with these in hand and this many to go, or
  // over.
  datatype Start =
    | Clearing(generation: nat)
    | Registering(generation: nat, hand: seq<nat>, left: nat)
    | Over(generation: nat)

  // Registrations are numbered as they are obtained.
  datatype State = State(
    generation: nat,
    starts: seq<Start>,
    // The start whose controller `abort` holds, and the controllers aborted.
    abort: Option<nat>,
    aborted: set<nat>,
    registrations: seq<nat>,
    // The generation that published them.
    publishedBy: nat,
    // Batches chained on `cleanup`, the next first.
    cleanup: seq<seq<nat>>,
    // What `dispose` was called on, oldest first.
    disposed: seq<nat>,
    obtained: nat)

  const NEW := State(0, [], None, {}, [], 0, [], [], 0)

  datatype Step =
    | StartCall
    // `suspend` and `dispose`.
    | StopCall
    // The cleanup a start waited for is over; so many tools are to be registered.
    | Proceed(start: nat, descriptors: nat)
    | Registered(start: nat)
    | RegisterFails(start: nat)
    | RunCleanup

  predicate Enabled(s: State, step: Step) {
    match step
    case Proceed(k, _) => k < |s.starts| && s.starts[k].Clearing?
    case Registered(k) => k < |s.starts| && s.starts[k].Registering?
    case RegisterFails(k) => k < |s.starts| && s.starts[k].Registering?
    case RunCleanup => s.cleanup != []
    case _ => true
  }

  // What `start`, `suspend` and `dispose` do before they wait.
  function Clear(s: State): State {
    s.(generation := s.generation + 1,
       aborted := if s.abort.Some? then s.aborted + {s.abort.value} else s.aborted,
       registrations := [],
       cleanup := if s.registrations == [] then s.cleanup else s.cleanup + [s.registrations])
  }

  predicate Current(s: State, k: nat)
    requires k < |s.starts|
  {
    s.starts[k].generation == s.generation && k !in s.aborted
  }

  function End(s: State, k: nat): State
    requires k < |s.starts|
  {
    s.(starts := s.starts[k := Over(s.starts[k].generation)])
  }

  function Next(s: State, step: Step): State
    requires Enabled(s, step)
  {
    match step
    case StartCall => var t := Clear(s); t.(starts := s.starts + [Clearing(t.generation)])
    case StopCall => Clear(s)
    case Proceed(k, descriptors) =>
      if s.starts[k].generation != s.generation then End(s, k)
      else if descriptors == 0 then End(s, k).(abort := Some(k))
      else s.(abort := Some(k), starts := s.starts[k := Registering(s.generation, [], descriptors)])
    case Registered(k) =>
      var start := s.starts[k];
      var hand := start.hand + [s.obtained];
      var t := s.(obtained := s.obtained + 1);
      if start.left > 1 then t.(starts := s.starts[k := Registering(start.generation, hand, start.left - 1)])
      else if !Current(s, k) then End(t, k).(disposed := s.disposed + hand)
      else End(t, k).(registrations := hand, publishedBy := s.generation)
    case RegisterFails(k) => End(s, k).(disposed := s.disposed + s.starts[k].hand)
    case RunCleanup => s.(cleanup := s.cleanup[1..], disposed := s.disposed + s.cleanup[0])
  }

  // ---- conservation --------------------------------------------------------------------------

  function Hand(start: Start): seq<nat> {
    if start.Registering? then start.hand else []
  }

  function Count(s: seq<nat>, r: nat): nat {
    if s == [] then 0 else Count(s[..|s| - 1], r) + if s[|s| - 1] == r then 1 else 0
  }

  function InHand(starts: seq<Start>, r: nat): nat {
    if starts == [] then 0 else InHand(starts[..|starts| - 1], r) + Count(Hand(starts[|starts| - 1]), r)
  }

  function Chained(batches: seq<seq<nat>>, r: nat): nat {
    if batches == [] then 0 else Chained(batches[..|batches| - 1], r) + Count(batches[|batches| - 1], r)
  }

  // How often a registration is anywhere: in the hand of a start, held by the
  // adapter, chained to be disposed of, or disposed of.
  function Places(s: State, r: nat): nat {
    InHand(s.starts, r) + Count(s.registrations, r) + Chained(s.cleanup, r) + Count(s.disposed, r)
  }

  // Each one obtained is in exactly one place, and there once.
  ghost predicate Conserved(s: State) {
    forall r: nat :: Places(s, r) == if r < s.obtained then 1 else 0
  }

  lemma {:induction false} CountConcat(a: seq<nat>, b: seq<nat>, r: nat)
    ensures Count(a + b, r) == Count(a, r) + Count(b, r)
  {
    if b == [] {
      assert a + b == a;
    } else {
      CountConcat(a, b[..|b| - 1], r);
      assert (a + b)[..|a + b| - 1] == a + b[..|b| - 1];
    }
  }

  lemma {:induction false} InHandAt(starts: seq<Start>, k: nat, p: Start, r: nat)
    requires k < |starts|
    ensures InHand(starts[k := p], r) == InHand(starts, r) - Count(Hand(starts[k]), r) + Count(Hand(p), r)
  {
    var front := starts[..|starts| - 1];
    if k < |front| {
      InHandAt(front, k, p, r);
      assert starts[k := p][..|front|] == front[k := p];
    } else {
      assert starts[k := p][..|front|] == front;
    }
  }

  lemma InHandMore(starts: seq<Start>, p: Start, r: nat)
    ensures InHand(starts + [p], r) == InHand(starts, r) + Count(Hand(p), r)
  {
    assert (starts + [p])[..|starts|] == starts;
  }

  lemma ChainedMore(batches: seq<seq<nat>>, batch: seq<nat>, r: nat)
    ensures Chained(batches + [batch], r) == Chained(batches, r) + Count(batch, r)
  {
    assert (batches + [batch])[..|batches|] == batches;
  }

  lemma {:induction false} ChainedFirst(batches: seq<seq<nat>>, r: nat)
    requires batches != []
    ensures Chained(batches, r) == Count(batches[0], r) + Chained(batches[1..], r)
  {
    var front := batches[..|batches| - 1];
    if front == [] {
      assert batches[1..] == [];
    } else {
      ChainedFirst(front, r);
      assert batches[1..][..|batches| - 2] == front[1..];
    }
  }

  lemma ClearMoves(s: State, r: nat)
    ensures Places(Clear(s), r) == Places(s, r)
  {
    ChainedMore(s.cleanup, s.registrations, r);
  }

  lemma HandMoves(s: State, k: nat, p: Start, r: nat)
    requires k < |s.starts| && Hand(p) == []
    ensures InHand(s.starts[k := p], r) + Count(s.disposed + Hand(s.starts[k]), r) == InHand(s.starts, r) + Count(s.disposed, r)
  {
    InHandAt(s.starts, k, p, r);
    CountConcat(s.disposed, Hand(s.starts[k]), r);
  }

  // The hand of a start goes elsewhere whole, or grows by one.
  lemma HandLeaves(s: State, k: nat, p: Start, r: nat)
    requires k < |s.starts| && Hand(p) == []
    ensures InHand(s.starts[k := p], r) == InHand(s.starts, r) - Count(Hand(s.starts[k]), r)
  {
    InHandAt(s.starts, k, p, r);
  }

  lemma RegisteredMoves(s: State, k: nat, r: nat)
    requires Enabled(s, Registered(k)) && (Publishes(s, Registered(k)) ==> s.registrations == [])
    ensures Places(Next(s, Registered(k)), r) == Places(s, r) + if r == s.obtained then 1 else 0
  {
    var start := s.starts[k];
    var hand := start.hand + [s.obtained];
    CountConcat(start.hand, [s.obtained], r);
    CountOne(s.obtained, r);
    if start.left > 1 {
      InHandAt(s.starts, k, Registering(start.generation, hand, start.left - 1), r);
    } else {
      HandLeaves(s, k, Over(start.generation), r);
      CountConcat(s.disposed, hand, r);
    }
  }

  lemma CountOne(x: nat, r: nat)
    ensures Count([x], r) == if x == r then 1 else 0
  {
    assert [x][..0] == [];
  }

  predicate Publishes(s: State, step: Step)
    requires Enabled(s, step)
  {
    step.Registered? && s.starts[step.start].left <= 1 && Current(s, step.start)
  }

  // Nothing but obtaining one changes what there is, as long as a publication
  // overwrites nothing.
  lemma StepMoves(s: State, step: Step, r: nat)
    requires Enabled(s, step) && (Publishes(s, step) ==> s.registrations == [])
    ensures Places(Next(s, step), r) == Places(s, r) + if step.Registered? && r == s.obtained then 1 else 0
  {
    match step
    case StartCall => StartMoves(s, r);
    case StopCall => ClearMoves(s, r);
    case Proceed(k, descriptors) => ProceedMoves(s, k, descriptors, r);
    case Registered(k) => RegisteredMoves(s, k, r);
    case RegisterFails(k) => HandMoves(s, k, Over(s.starts[k].generation), r);
    case RunCleanup => CleanupMoves(s, r);
  }

  lemma StartMoves(s: State, r: nat)
    ensures Places(Next(s, StartCall), r) == Places(s, r)
  {
    ClearMoves(s, r);
    InHandMore(s.starts, Clearing(s.generation + 1), r);
  }

  lemma ProceedMoves(s: State, k: nat, descriptors: nat, r: nat)
    requires Enabled(s, Proceed(k, descriptors))
    ensures Places(Next(s, Proceed(k, descriptors)), r) == Places(s, r)
  {
    InHandAt(s.starts, k, Next(s, Proceed(k, descriptors)).starts[k], r);
  }

  lemma CleanupMoves(s: State, r: nat)
    requires Enabled(s, RunCleanup)
    ensures Places(Next(s, RunCleanup), r) == Places(s, r)
  {
    ChainedFirst(s.cleanup, r);
    CountConcat(s.disposed, s.cleanup[0], r);
  }

  // ---- generations ---------------------------------------------------------------------------

  predicate Active(s: State, k: nat)
    requires k < |s.starts|
  {
    !s.starts[k].Over? && s.starts[k].generation == s.generation
  }

  // Each start has a generation of its own; only the last, if nothing came after
  // it, has the current one. Its controller is the adapter's and not aborted, and
  // while it is at work the adapter holds nothing.
  ghost predicate Ordered(s: State) {
    && (forall j, k :: 0 <= j < k < |s.starts| ==> s.starts[j].generation < s.starts[k].generation)
    && (forall k :: 0 <= k < |s.starts| ==> s.starts[k].generation <= s.generation)
    && (forall k :: 0 <= k < |s.starts| && Active(s, k) ==> s.registrations == [])
    && (forall k :: 0 <= k < |s.starts| && s.starts[k].Registering? ==>
          (k in s.aborted <==> s.starts[k].generation != s.generation) && (k !in s.aborted ==> s.abort == Some(k)))
    && (forall k <- s.aborted :: k < |s.starts|)
    && (s.abort.Some? ==> s.abort.value < |s.starts|)
    && (forall k :: 0 <= k < |s.starts| && s.starts[k].Clearing? ==> k !in s.aborted && s.abort != Some(k))
    && (s.registrations != [] ==> s.publishedBy == s.generation)
  }

  ghost predicate Inv(s: State) {
    Conserved(s) && Ordered(s)
  }

  // A publication finds the adapter holding nothing, and is of the current generation.
  lemma PublishesIntoNothing(s: State, step: Step)
    requires Ordered(s) && Enabled(s, step) && Publishes(s, step)
    ensures s.registrations == []
    ensures var t := Next(s, step);
            t.registrations == s.starts[step.start].hand + [s.obtained] && t.publishedBy == t.generation
  {
    assert Active(s, step.start);
  }

  // One generation, one start.
  lemma OnlyOne(s: State, j: nat, k: nat)
    requires Ordered(s) && j < |s.starts| && k < |s.starts| && j != k
    ensures s.starts[j].generation != s.starts[k].generation
  {
    assert forall a, b :: 0 <= a < b < |s.starts| ==> s.starts[a].generation < s.starts[b].generation;
  }

  lemma ClearKeeps(s: State)
    requires Ordered(s)
    ensures Ordered(Clear(s)) && forall k :: 0 <= k < |s.starts| ==> !Active(Clear(s), k)
  {
  }

  lemma StartKeeps(s: State)
    requires Ordered(s)
    ensures Ordered(Next(s, StartCall))
  {
    ClearKeeps(s);
    var c, t := Clear(s), Next(s, StartCall);
    assert forall k :: 0 <= k < |s.starts| ==> t.starts[k] == c.starts[k] && c.starts[k].generation < t.generation;
  }

  lemma ProceedKeeps(s: State, k: nat, descriptors: nat)
    requires Ordered(s) && Enabled(s, Proceed(k, descriptors))
    ensures Ordered(Next(s, Proceed(k, descriptors)))
  {
    var t := Next(s, Proceed(k, descriptors));
    assert Active(s, k) ==> s.registrations == [];
    forall j | 0 <= j < |s.starts| && j != k
      ensures t.starts[j] == s.starts[j] && s.starts[j].generation != s.starts[k].generation
      ensures Active(t, j) <==> Active(s, j)
    {
      OnlyOne(s, j, k);
    }
  }

  lemma HandKeeps(s: State, step: Step)
    requires Ordered(s) && Enabled(s, step) && (step.Registered? || step.RegisterFails?)
    ensures Ordered(Next(s, step))
  {
    var t, k := Next(s, step), step.start;
    assert Active(s, k) ==> s.registrations == [];
    forall j | 0 <= j < |s.starts| && j != k
      ensures t.starts[j] == s.starts[j] && s.starts[j].generation != s.starts[k].generation
      ensures Active(t, j) <==> Active(s, j)
    {
      OnlyOne(s, j, k);
    }
  }

  lemma OrderedKept(s: State, step: Step)
    requires Ordered(s) && Enabled(s, step)
    ensures Ordered(Next(s, step))
  {
    match step
    case StartCall => StartKeeps(s);
    case StopCall => ClearKeeps(s);
    case Proceed(k, descriptors) => ProceedKeeps(s, k, descriptors);
    case RunCleanup => assert forall k :: 0 <= k < |s.starts| && Active(Next(s, step), k) ==> Active(s, k);
    case _ => HandKeeps(s, step);
  }

  lemma StepKeeps(s: State, step: Step)
    requires Inv(s) && Enabled(s, step)
    ensures Inv(Next(s, step))
  {
    OrderedKept(s, step);
    if Publishes(s, step) {
      PublishesIntoNothing(s, step);
    }
    var t := Next(s, step);
    forall r: nat
      ensures Places(t, r) == if r < t.obtained then 1 else 0
    {
      StepMoves(s, step, r);
    }
  }

  // ---- runs ------------------------------------------------------------------------------------

  predicate Possible(s: State, steps: seq<Step>)
    decreases |steps|
  {
    steps == [] || (Enabled(s, steps[0]) && Possible(Next(s, steps[0]), steps[1..]))
  }

  function After(s: State, steps: seq<Step>): State
    requires Possible(s, steps)
    decreases |steps|
  {
    if steps == [] then s else After(Next(s, steps[0]), steps[1..])
  }

  lemma {:induction false} RunKeeps(s: State, steps: seq<Step>)
    requires Inv(s) && Possible(s, steps)
    ensures Inv(After(s, steps))
    decreases |steps|
  {
    if steps != [] {
      StepKeeps(s, steps[0]);
      RunKeeps(Next(s, steps[0]), steps[1..]);
    }
  }

  lemma NewIsSound()
    ensures Inv(NEW)
  {
    assert forall r: nat :: Places(NEW, r) == 0;
  }

  lemma {:induction false} NoneInHand(starts: seq<Start>, r: nat)
    requires forall k :: 0 <= k < |starts| ==> starts[k].Over?
    ensures InHand(starts, r) == 0
  {
    if starts != [] {
      NoneInHand(starts[..|starts| - 1], r);
    }
  }

  // Once every start is over, the last call was no start and the cleanup is done,
  // each registration ever obtained has been disposed of exactly once.
  lemma AllDisposed(steps: seq<Step>, r: nat)
    requires Possible(NEW, steps)
    requires var s := After(NEW, steps);
             && s.registrations == [] && s.cleanup == [] && r < s.obtained
             && forall k :: 0 <= k < |s.starts| ==> s.starts[k].Over?
    ensures Count(After(NEW, steps).disposed, r) == 1
  {
    NewIsSound();
    RunKeeps(NEW, steps);
    var s := After(NEW, steps);
    NoneInHand(s.starts, r);
    assert Places(s, r) == 1;
  }

  // ---- the adapter object ------------------------------------------------------------------------

  class Adapter {
    var generation: nat
    var starts: seq<Start>
    var controller: Option<nat>
    var aborted: set<nat>
    var registrations: seq<nat>
    var publishedBy: nat
    var cleanup: seq<seq<nat>>
    var disposed: seq<nat>
    var obtained: nat

    function Now(): State
      reads this
    {
      State(generation, starts, controller, aborted, registrations, publishedBy, cleanup, disposed, obtained)
    }

    constructor ()
      ensures Now() == NEW && Inv(Now())
    {
      generation, starts, controller, aborted := 0, [], None, {};
      registrations, publishedBy, cleanup, disposed, obtained := [], 0, [], [], 0;
      new;
      NewIsSound();
    }

    // `clearRegistration`, up to where it waits.
    method ClearRegistration()
      modifies this`registrations, this`cleanup
      ensures registrations == []
      ensures cleanup == if old(registrations) == [] then old(cleanup) else old(cleanup) + [old(registrations)]
    {
      var taken := registrations;
      registrations := [];
      if |taken| > 0 {
        cleanup := cleanup + [taken];
      }
    }

    method Supersede()
      modifies this
      ensures Now() == Clear(old(Now()))
    {
      generation := generation + 1;
      if controller.Some? {
        aborted := aborted + {controller.value};
      }
      ClearRegistration();
    }

    method BeginStart() returns (k: nat)
      requires Inv(Now())
      modifies this
      ensures Now() == Next(old(Now()), StartCall) && Inv(Now()) && k == |old(starts)|
    {
      StepKeeps(Now(), StartCall);
      Supersede();
      k := |starts|;
      starts := starts + [Clearing(generation)];
    }

    // `suspend` or `dispose`.
    method Stop()
      requires Inv(Now())
      modifies this
      ensures Now() == Next(old(Now()), StopCall) && Inv(Now()) && registrations == []
    {
      StepKeeps(Now(), StopCall);
      Supersede();
    }

    method ProceedStart(k: nat, descriptors: nat)
      requires Inv(Now()) && Enabled(Now(), Proceed(k, descriptors))
      modifies this
      ensures Now() == Next(old(Now()), Proceed(k, descriptors)) && Inv(Now())
    {
      StepKeeps(Now(), Proceed(k, descriptors));
      if starts[k].generation != generation {
        starts := starts[k := Over(starts[k].generation)];
        return;
      }
      controller := Some(k);
      starts := starts[k := if descriptors == 0 then Over(generation) else Registering(generation, [], descriptors)];
    }

    method OnRegistered(k: nat)
      requires Inv(Now()) && Enabled(Now(), Registered(k))
      modifies this
      ensures Now() == Next(old(Now()), Registered(k)) && Inv(Now())
      ensures registrations == old(registrations) || old(registrations) == []
    {
      StepKeeps(Now(), Registered(k));
      if Publishes(Now(), Registered(k)) {
        PublishesIntoNothing(Now(), Registered(k));
      }
      var start := starts[k];
      var hand := start.hand + [obtained];
      obtained := obtained + 1;
      if start.left > 1 {
        starts := starts[k := Registering(start.generation, hand, start.left - 1)];
        return;
      }
      starts := starts[k := Over(start.generation)];
      if start.generation != generation || k in aborted {
        disposed := disposed + hand;
        return;
      }
      registrations := hand;
      publishedBy := generation;
    }

    method OnRegisterFailed(k: nat)
      requires Inv(Now()) && Enabled(Now(), RegisterFails(k))
      modifies this
      ensures Now() == Next(old(Now()), RegisterFails(k)) && Inv(Now())
    {
      StepKeeps(Now(), RegisterFails(k));
      disposed := disposed + starts[k].hand;
      starts := starts[k := Over(starts[k].generation)];
    }

    method DisposeBatch()
      requires Inv(Now()) && cleanup != []
      modifies this
      ensures Now() == Next(old(Now()), RunCleanup) && Inv(Now())
    {
      StepKeeps(Now(), RunCleanup);
      disposed := disposed + cleanup[0];
      cleanup := cleanup[1..];
    }
  }
}
