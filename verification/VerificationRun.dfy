// Running accepted verification cases, whatever the sessions do
// (site/src/scripts/playground-verification.ts).
module VerificationRun {
  import opened Collections
  import opened Numbers
  import opened Wrappers
  import opened SimSession
  import opened Verification
  import P = SimProtocol

  // ---- what happens outside --------------------------------------------------------------

  // A session call that did it, that answered with a refusal, or that threw.
  datatype Acted = Did | Denied | Threw

  // What is found after an action.
  datatype Signal = GoOn | Cancel | Deadline

  datatype ReadBack = Read(bits: Bits) | NotRead | ReadThrew

  // Images are applied as a case starts and again after each reset.
  datatype Moment = AtStart | AfterReset(step: nat, action: nat)

  // Everything a run depends on but its cases, by case, step and action or
  // expectation: any mix of failures, exceptions, cancelling and time.
  datatype World = World(
    create: nat -> bool,
    image: (nat, Moment, nat) -> Acted,
    // The inputs driven low, by pin.
    low: (nat, nat) -> Acted,
    act: (nat, nat, nat) -> Acted,
    signal: (nat, nat, nat) -> Signal,
    read: (nat, nat, nat) -> ReadBack)

  // ---- reports ---------------------------------------------------------------------------

  datatype RunState = Passed | Failed | Errored | TimedOut | Cancelled

  datatype StepState = StepPassed | StepFailed | StepError | NotRun

  datatype Assertion = Assertion(index: nat, wanted: Bits, actual: Option<Bits>, passed: bool)

  datatype StepResult = StepResult(
    caseId: string, stepId: string, state: StepState, actionsCompleted: nat, assertions: seq<Assertion>)

  // Sessions as they are made and destroyed, each by the case it is for.
  datatype Event = Opened(session: nat) | Closed(session: nat)

  datatype Progress = Progress(steps: seq<StepResult>, passed: nat, failed: nat, halted: bool, terminal: RunState)

  function Key(r: StepResult): (string, string) {
    (r.caseId, r.stepId)
  }

  function Wanted(shape: Shape, e: Expectation): Bits
    requires ExpectOk(shape, e)
  {
    var width, value := WidthOf(shape, e).value, ParseHex(e.value).value;
    Bits(value, if e.defined.None? then Mask(width) else ParseHex(e.defined.value).value).Canonical(width)
  }

  // ---- what it takes to pass ----------------------------------------------------------------

  predicate ImagesGood(w: World, c: Case, i: nat, moment: Moment) {
    forall k :: 0 <= k < |c.images| ==> w.image(i, moment, k).Did?
  }

  // A reset that is had but whose images do not go in again throws.
  function Outcome(w: World, c: Case, i: nat, j: nat, a: nat): Acted
    requires j < |c.steps| && a < |c.steps[j].actions|
  {
    if !c.steps[j].actions[a].ResetSession? then w.act(i, j, a)
    else if !w.act(i, j, a).Threw? && ImagesGood(w, c, i, AfterReset(j, a)) then Did
    else Threw
  }

  predicate ActionGood(w: World, c: Case, i: nat, j: nat, a: nat)
    requires j < |c.steps| && a < |c.steps[j].actions|
  {
    Outcome(w, c, i, j, a).Did? && w.signal(i, j, a).GoOn?
  }

  predicate ExpectGood(w: World, shape: Shape, s: Step, i: nat, j: nat, e: nat)
    requires StepFits(shape, s) && e < |s.expects|
  {
    match w.read(i, j, e)
    case Read(bits) => bits.Canonical(WidthOf(shape, s.expects[e]).value) == Wanted(shape, s.expects[e])
    case _ => false
  }

  predicate StepFits(shape: Shape, s: Step) {
    forall e :: 0 <= e < |s.expects| ==> ExpectOk(shape, s.expects[e])
  }

  predicate ExpectsGood(w: World, shape: Shape, s: Step, i: nat, j: nat, n: nat)
    requires StepFits(shape, s) && n <= |s.expects|
  {
    forall e :: 0 <= e < n ==> ExpectGood(w, shape, s, i, j, e)
  }

  predicate ActionsGood(w: World, c: Case, i: nat, j: nat, n: nat)
    requires j < |c.steps| && n <= |c.steps[j].actions|
  {
    forall a :: 0 <= a < n ==> ActionGood(w, c, i, j, a)
  }

  predicate StepGood(w: World, shape: Shape, c: Case, i: nat, j: nat)
    requires j < |c.steps| && StepFits(shape, c.steps[j])
  {
    ActionsGood(w, c, i, j, |c.steps[j].actions|) && ExpectsGood(w, shape, c.steps[j], i, j, |c.steps[j].expects|)
  }

  predicate LowGood(w: World, shape: Shape, i: nat) {
    forall k :: 0 <= k < |shape.pins| && shape.pins[k].kind.In? ==> w.low(i, k).Did?
  }

  predicate StartGood(w: World, shape: Shape, c: Case, i: nat) {
    w.create(i) && ImagesGood(w, c, i, AtStart) && (c.low ==> LowGood(w, shape, i))
  }

  predicate CaseFits(shape: Shape, c: Case) {
    forall j :: 0 <= j < |c.steps| ==> StepFits(shape, c.steps[j])
  }

  predicate StepsGood(w: World, shape: Shape, c: Case, i: nat, n: nat)
    requires CaseFits(shape, c) && n <= |c.steps|
  {
    forall j :: 0 <= j < n ==> StepGood(w, shape, c, i, j)
  }

  predicate CaseGood(w: World, shape: Shape, c: Case, i: nat)
    requires CaseFits(shape, c)
  {
    StartGood(w, shape, c, i) && StepsGood(w, shape, c, i, |c.steps|)
  }

  // ---- acting --------------------------------------------------------------------------------

  // The images looked up and decoded as they were when they were validated: no
  // lookup and no decoding comes back empty.
  method ApplyImages(w: World, shape: Shape, c: Case, i: nat, moment: Moment) returns (ok: bool)
    requires Shaped(shape) && ImagesOk(shape, c.images)
    ensures ok <==> ImagesGood(w, c, i, moment)
  {
    for k := 0 to |c.images|
      invariant forall h :: 0 <= h < k ==> w.image(i, moment, h).Did?
    {
      EachAt(ImageCheck(shape), c.images, k);
      var mem := MemoryNamed(shape.memories, c.images[k].memory).value;
      var bytes := DecodeImage(c.images[k].hex, mem);
      assert bytes.Some?;
      if !w.image(i, moment, k).Did? {
        return false;
      }
    }
    return true;
  }

  method DriveLow(w: World, shape: Shape, i: nat) returns (ok: bool)
    ensures ok <==> LowGood(w, shape, i)
  {
    for k := 0 to |shape.pins|
      invariant forall h :: 0 <= h < k && shape.pins[h].kind.In? ==> w.low(i, h).Did?
    {
      if shape.pins[k].kind.In? && !w.low(i, k).Did? {
        return false;
      }
    }
    return true;
  }

  // One action: the literals and memories it names are there.
  method Perform(w: World, shape: Shape, c: Case, i: nat, j: nat, a: nat) returns (r: Acted)
    requires Shaped(shape) && ImagesOk(shape, c.images)
    requires j < |c.steps| && a < |c.steps[j].actions| && ActionOk(shape, c.steps[j].actions[a])
    ensures r == Outcome(w, c, i, j, a)
  {
    match c.steps[j].actions[a] {
      case DrivePin(_, value, defined) =>
        assert ParseHex(value).Some? && (defined.Some? ==> ParseHex(defined.value).Some?);
        return w.act(i, j, a);
      case PokeCell(_, address, value, defined) =>
        assert ParseHex(address).Some? && ParseHex(value).Some? && (defined.Some? ==> ParseHex(defined.value).Some?);
        return w.act(i, j, a);
      case ClearMemory(_) => return w.act(i, j, a);
      case LoadMemory(memory, hex) =>
        var bytes := DecodeImage(hex, MemoryNamed(shape.memories, memory).value);
        assert bytes.Some?;
        return w.act(i, j, a);
      case ResetSession =>
        if w.act(i, j, a).Threw? {
          return Threw;
        }
        var ok := ApplyImages(w, shape, c, i, AfterReset(j, a));
        return if ok then Did else Threw;
    }
  }

  datatype Ended = Ran | ActionFailed | Stopped(state: RunState) | Broke

  // How the actions from `a` on end and how many are then done.
  function ActionsEnd(w: World, c: Case, i: nat, j: nat, a: nat): (Ended, nat)
    requires j < |c.steps| && a <= |c.steps[j].actions|
    decreases |c.steps[j].actions| - a
  {
    if a == |c.steps[j].actions| then (Ran, a) else
    var r := Outcome(w, c, i, j, a);
    if r.Threw? then (Broke, a)
    else if r.Denied? then (ActionFailed, a + 1)
    else
      match w.signal(i, j, a)
      case Cancel => (Stopped(Cancelled), a + 1)
      case Deadline => (Stopped(TimedOut), a + 1)
      case GoOn => ActionsEnd(w, c, i, j, a + 1)
  }

  // Stopped by what is found after the last action done.
  predicate StoppedBy(w: World, i: nat, j: nat, state: RunState, completed: nat) {
    completed > 0 && state == match w.signal(i, j, completed - 1)
                              case Cancel => Cancelled
                              case Deadline => TimedOut
                              case GoOn => Passed
  }

  // They run through exactly when each goes well.
  lemma {:induction false} ActionsEndMeans(w: World, c: Case, i: nat, j: nat, a: nat)
    requires j < |c.steps| && a <= |c.steps[j].actions|
    ensures var (ended, completed) := ActionsEnd(w, c, i, j, a);
            && (ended.Ran? <==> forall b :: a <= b < |c.steps[j].actions| ==> ActionGood(w, c, i, j, b))
            && (ended.Ran? ==> completed == |c.steps[j].actions|)
            && (ended.Stopped? ==> !ended.state.Passed?)
            && (ended.Stopped? ==> StoppedBy(w, i, j, ended.state, completed))
    decreases |c.steps[j].actions| - a
  {
    if a < |c.steps[j].actions| {
      ActionsEndMeans(w, c, i, j, a + 1);
      assert ActionGood(w, c, i, j, a) <==> Outcome(w, c, i, j, a).Did? && w.signal(i, j, a).GoOn?;
    }
  }

  method RunActions(w: World, shape: Shape, c: Case, i: nat, j: nat) returns (ended: Ended, completed: nat)
    requires Shaped(shape) && ImagesOk(shape, c.images) && j < |c.steps|
    requires forall a :: 0 <= a < |c.steps[j].actions| ==> ActionOk(shape, c.steps[j].actions[a])
    ensures ended.Ran? <==> ActionsGood(w, c, i, j, |c.steps[j].actions|)
    ensures ended.Ran? ==> completed == |c.steps[j].actions|
    ensures ended.Stopped? ==> !ended.state.Passed?
    ensures (ended, completed) == ActionsEnd(w, c, i, j, 0)
  {
    completed := 0;
    ActionsEndMeans(w, c, i, j, 0);
    for a := 0 to |c.steps[j].actions|
      invariant completed == a
      invariant ActionsEnd(w, c, i, j, 0) == ActionsEnd(w, c, i, j, a)
    {
      ended, completed := RunAction(w, shape, c, i, j, a);
      if !ended.Ran? {
        return;
      }
    }
    ended := Ran;
  }

  // One action, and what is found after it.
  method RunAction(w: World, shape: Shape, c: Case, i: nat, j: nat, a: nat) returns (ended: Ended, completed: nat)
    requires Shaped(shape) && ImagesOk(shape, c.images)
    requires j < |c.steps| && a < |c.steps[j].actions| && ActionOk(shape, c.steps[j].actions[a])
    ensures if ended.Ran? then completed == a + 1 && ActionsEnd(w, c, i, j, a) == ActionsEnd(w, c, i, j, a + 1)
            else ActionsEnd(w, c, i, j, a) == (ended, completed)
  {
    var r := Perform(w, shape, c, i, j, a);
    if r.Threw? {
      return Broke, a;
    }
    completed := a + 1;
    if !r.Did? {
      return ActionFailed, completed;
    }
    if w.signal(i, j, a).Cancel? {
      return Stopped(Cancelled), completed;
    }
    if w.signal(i, j, a).Deadline? {
      return Stopped(TimedOut), completed;
    }
    return Ran, completed;
  }

  // An assertion for every expectation, each compared and equal.
  predicate AllHeld(shape: Shape, s: Step, assertions: seq<Assertion>)
    requires StepFits(shape, s)
  {
    && |assertions| == |s.expects|
    && forall e :: 0 <= e < |assertions| ==>
         assertions[e] == Assertion(e, Wanted(shape, s.expects[e]), Some(Wanted(shape, s.expects[e])), true)
  }

  // One expectation read and compared; None when the read throws.
  function Judge(w: World, shape: Shape, s: Step, i: nat, j: nat, e: nat): (r: Option<Assertion>)
    requires StepFits(shape, s) && e < |s.expects|
    ensures ExpectGood(w, shape, s, i, j, e) <==> r.Some? && r.value.passed
    ensures r.None? <==> w.read(i, j, e).ReadThrew?
    ensures r.Some? ==> (r.value.actual.Some? <==> w.read(i, j, e).Read?)
    ensures r.Some? && r.value.passed ==>
            r.value == Assertion(e, Wanted(shape, s.expects[e]), Some(Wanted(shape, s.expects[e])), true)
  {
    var wanted, width := Wanted(shape, s.expects[e]), WidthOf(shape, s.expects[e]).value;
    match w.read(i, j, e)
    case ReadThrew => None
    case NotRead => Some(Assertion(e, wanted, None, false))
    case Read(bits) => Some(Assertion(e, wanted, Some(bits.Canonical(width)), bits.Canonical(width) == wanted))
  }

  // The first `n` expectations judged, in order.
  predicate Judged(w: World, shape: Shape, s: Step, i: nat, j: nat, assertions: seq<Assertion>)
    requires StepFits(shape, s)
  {
    && |assertions| <= |s.expects|
    && forall e :: 0 <= e < |assertions| ==> Judge(w, shape, s, i, j, e) == Some(assertions[e])
  }

  lemma JudgedMeans(w: World, shape: Shape, s: Step, i: nat, j: nat, assertions: seq<Assertion>)
    requires StepFits(shape, s) && Judged(w, shape, s, i, j, assertions)
    ensures ExpectsGood(w, shape, s, i, j, |assertions|) <==> forall e :: 0 <= e < |assertions| ==> assertions[e].passed
    ensures |assertions| == |s.expects| && (forall e :: 0 <= e < |assertions| ==> assertions[e].passed) ==>
            AllHeld(shape, s, assertions)
  {
    forall e | 0 <= e < |assertions|
      ensures ExpectGood(w, shape, s, i, j, e) <==> assertions[e].passed
    {
      assert Judge(w, shape, s, i, j, e) == Some(assertions[e]);
    }
  }

  // The expectation as it is written: a value, and the mask of the bits it is about,
  // all of them when none is given.
  predicate Spells(e: Expectation, width: nat, v: nat, d: nat) {
    && e.value == P.WriteHex(v)
    && match e.defined
       case None => d == Pow(2, width) - 1
       case Some(mask) => mask == P.WriteHex(d)
  }

  // What is read has exactly those bits defined, and the value's bits there.
  predicate Agrees(read: ReadBack, width: nat, v: nat, d: nat) {
    read.Read? && And(read.bits.defined, Pow(2, width) - 1) == d && And(read.bits.value, d) == And(v, d)
  }

  lemma SpellsOne(shape: Shape, e: Expectation)
    requires ExpectOk(shape, e)
    ensures exists v: nat, d: nat :: Spells(e, WidthOf(shape, e).value, v, d)
  {
    var width, v := WidthOf(shape, e).value, ParseHex(e.value).value;
    StrictIsCanonical(e.value, v);
    if e.defined.Some? {
      var d := ParseHex(e.defined.value).value;
      StrictIsCanonical(e.defined.value, d);
      assert Spells(e, width, v, d);
    } else {
      assert Spells(e, width, v, Pow(2, width) - 1);
    }
  }

  lemma CanonicalIs(v: nat, d: nat, width: nat)
    requires d < Pow(2, width)
    ensures Bits(v, d).Canonical(width) == Bits(And(v, d), d)
  {
    AndFits(d, width);
  }

  lemma WantedSpelled(shape: Shape, e: Expectation, v: nat, d: nat)
    requires ExpectOk(shape, e) && Spells(e, WidthOf(shape, e).value, v, d)
    ensures d < Pow(2, WidthOf(shape, e).value) && Wanted(shape, e) == Bits(v, d).Canonical(WidthOf(shape, e).value)
  {
    StrictIsCanonical(e.value, v);
    if e.defined.Some? {
      StrictIsCanonical(e.defined.value, d);
    }
  }

  lemma WantedMeans(shape: Shape, e: Expectation, v: nat, d: nat)
    requires ExpectOk(shape, e) && Spells(e, WidthOf(shape, e).value, v, d)
    ensures Wanted(shape, e) == Bits(And(v, d), d)
  {
    WantedSpelled(shape, e, v, d);
    CanonicalIs(v, d, WidthOf(shape, e).value);
  }

  // An expectation holds exactly when what is read agrees with what is written.
  lemma ExpectMeans(w: World, shape: Shape, s: Step, i: nat, j: nat, e: nat, v: nat, d: nat)
    requires StepFits(shape, s) && e < |s.expects| && Spells(s.expects[e], WidthOf(shape, s.expects[e]).value, v, d)
    ensures ExpectGood(w, shape, s, i, j, e) <==> Agrees(w.read(i, j, e), WidthOf(shape, s.expects[e]).value, v, d)
  {
    WantedMeans(shape, s.expects[e], v, d);
  }

  function Shows(bits: Bits, width: nat): Bits {
    Bits(And(bits.value, And(bits.defined, Pow(2, width) - 1)), And(bits.defined, Pow(2, width) - 1))
  }

  // An assertion as it should be: what was written, what was read, and passed just
  // when they agree.
  ghost predicate Correct(w: World, shape: Shape, s: Step, i: nat, j: nat, e: nat, a: Assertion)
    requires StepFits(shape, s) && e < |s.expects|
  {
    var width, read := WidthOf(shape, s.expects[e]).value, w.read(i, j, e);
    && a.index == e && !read.ReadThrew?
    && (a.actual.Some? <==> read.Read?)
    && (read.Read? ==> a.actual == Some(Shows(read.bits, width)))
    && exists v: nat, d: nat ::
         Spells(s.expects[e], width, v, d) && a.wanted == Bits(And(v, d), d) && (a.passed <==> Agrees(read, width, v, d))
  }

  lemma JudgeCorrect(w: World, shape: Shape, s: Step, i: nat, j: nat, e: nat)
    requires StepFits(shape, s) && e < |s.expects| && Judge(w, shape, s, i, j, e).Some?
    ensures Correct(w, shape, s, i, j, e, Judge(w, shape, s, i, j, e).value)
  {
    var width := WidthOf(shape, s.expects[e]).value;
    SpellsOne(shape, s.expects[e]);
    var v: nat, d: nat :| Spells(s.expects[e], width, v, d);
    WantedMeans(shape, s.expects[e], v, d);
    ExpectMeans(w, shape, s, i, j, e, v, d);
  }

  // Every assertion of a step's report.
  ghost predicate AllCorrect(w: World, shape: Shape, s: Step, i: nat, j: nat, assertions: seq<Assertion>)
    requires StepFits(shape, s)
  {
    |assertions| <= |s.expects| && forall e :: 0 <= e < |assertions| ==> Correct(w, shape, s, i, j, e, assertions[e])
  }

  lemma JudgedCorrect(w: World, shape: Shape, s: Step, i: nat, j: nat, assertions: seq<Assertion>)
    requires StepFits(shape, s) && Judged(w, shape, s, i, j, assertions)
    ensures AllCorrect(w, shape, s, i, j, assertions)
  {
    forall e | 0 <= e < |assertions|
      ensures Correct(w, shape, s, i, j, e, assertions[e])
    {
      JudgeCorrect(w, shape, s, i, j, e);
    }
  }

  // Read and not equal.
  predicate AnyMismatch(assertions: seq<Assertion>) {
    exists e :: 0 <= e < |assertions| && !assertions[e].passed && assertions[e].actual.Some?
  }

  predicate AnyFailed(assertions: seq<Assertion>) {
    exists e :: 0 <= e < |assertions| && !assertions[e].passed
  }

  function PassedIn(assertions: seq<Assertion>): (n: nat)
    ensures n <= |assertions|
  {
    if assertions == [] then 0
    else PassedIn(assertions[..|assertions| - 1]) + if assertions[|assertions| - 1].passed then 1 else 0
  }

  lemma PassedMore(assertions: seq<Assertion>, one: Assertion)
    ensures PassedIn(assertions + [one]) == PassedIn(assertions) + if one.passed then 1 else 0
  {
    assert (assertions + [one])[..|assertions|] == assertions;
  }

  lemma {:induction false} PassedConcat(a: seq<Assertion>, b: seq<Assertion>)
    ensures PassedIn(a + b) == PassedIn(a) + PassedIn(b)
  {
    if b == [] {
      assert a + b == a;
    } else {
      var front, one := b[..|b| - 1], b[|b| - 1];
      assert a + b == (a + front) + [one] && b == front + [one];
      PassedConcat(a, front);
      PassedMore(a + front, one);
      PassedMore(front, one);
    }
  }

  // The expectations of a step, until one throws or one halts the run.
  method RunExpects(w: World, shape: Shape, s: Step, i: nat, j: nat, stopOnFailure: bool, p: Progress)
    returns (broke: bool, assertions: seq<Assertion>, q: Progress)
    requires StepFits(shape, s) && !p.halted
    ensures q.steps == p.steps && Judged(w, shape, s, i, j, assertions)
    ensures q.passed == p.passed + PassedIn(assertions)
    ensures q.failed == p.failed + |assertions| - PassedIn(assertions)
    ensures q.terminal == Worse(p.terminal, assertions)
    ensures q.terminal.Passed? <==> p.terminal.Passed? && !AnyFailed(assertions)
    ensures q.halted ==> AnyFailed(assertions)
    ensures q.halted <==> stopOnFailure && AnyMismatch(assertions)
    ensures q.halted ==> !broke
    ensures broke ==> |assertions| < |s.expects| && Judge(w, shape, s, i, j, |assertions|).None?
    ensures !broke && !q.halted ==> |assertions| == |s.expects|
  {
    assertions, q, broke := [], p, false;
    for e := 0 to |s.expects|
      invariant |assertions| == e && q.steps == p.steps && !q.halted && Judged(w, shape, s, i, j, assertions)
      invariant q.passed == p.passed + PassedIn(assertions)
      invariant q.failed == p.failed + |assertions| - PassedIn(assertions)
      invariant q.terminal == Worse(p.terminal, assertions)
      invariant q.terminal.Passed? <==> p.terminal.Passed? && !AnyFailed(assertions)
      invariant !(stopOnFailure && AnyMismatch(assertions))
    {
      var judged := Judge(w, shape, s, i, j, e);
      if judged.None? {
        return true, assertions, q;
      }
      var one := judged.value;
      FailedMore(assertions, one);
      WorseMore(p.terminal, assertions, one);
      PassedMore(assertions, one);
      JudgedMore(w, shape, s, i, j, assertions, one);
      assertions := assertions + [one];
      if one.passed {
        q := q.(passed := q.passed + 1);
      } else if one.actual.None? {
        q := q.(failed := q.failed + 1, terminal := Errored);
      } else {
        q := q.(failed := q.failed + 1, terminal := if q.terminal.Passed? then RunState.Failed else q.terminal);
        if stopOnFailure {
          q := q.(halted := true);
          return false, assertions, q;
        }
      }
    }
  }

  lemma JudgedMore(w: World, shape: Shape, s: Step, i: nat, j: nat, assertions: seq<Assertion>, one: Assertion)
    requires StepFits(shape, s) && Judged(w, shape, s, i, j, assertions) && |assertions| < |s.expects|
    requires Judge(w, shape, s, i, j, |assertions|) == Some(one)
    ensures Judged(w, shape, s, i, j, assertions + [one])
  {
  }

  lemma FailedMore(assertions: seq<Assertion>, one: Assertion)
    ensures AnyFailed(assertions + [one]) <==> AnyFailed(assertions) || !one.passed
    ensures AnyMismatch(assertions + [one]) <==> AnyMismatch(assertions) || (!one.passed && one.actual.Some?)
  {
    var more := assertions + [one];
    assert more[|assertions|] == one;
    assert forall e :: 0 <= e < |assertions| ==> more[e] == assertions[e];
  }

  // ---- the state of a run --------------------------------------------------------------------

  // Not read at all.
  predicate AnyUnread(assertions: seq<Assertion>) {
    exists e :: 0 <= e < |assertions| && assertions[e].actual.None?
  }

  // The state a step's assertions leave a run in.
  function Worse(state: RunState, assertions: seq<Assertion>): RunState {
    if AnyUnread(assertions) then Errored
    else if AnyMismatch(assertions) && state.Passed? then RunState.Failed
    else state
  }

  lemma WorseMore(state: RunState, assertions: seq<Assertion>, one: Assertion)
    requires one.passed ==> one.actual.Some?
    ensures Worse(state, assertions + [one]) ==
            if one.actual.None? then Errored
            else if !one.passed && Worse(state, assertions).Passed? then RunState.Failed
            else Worse(state, assertions)
  {
    FailedMore(assertions, one);
    var more := assertions + [one];
    assert more[|assertions|] == one;
    assert forall e :: 0 <= e < |assertions| ==> more[e] == assertions[e];
  }

  // Whether it ended the run, and what a report says happened.
  datatype Evidence = Evidence(halt: bool, cancel: bool, deadline: bool, error: bool, mismatch: bool) {
    function Join(other: Evidence): Evidence {
      Evidence(halt || other.halt, cancel || other.cancel, deadline || other.deadline,
               error || other.error, mismatch || other.mismatch)
    }
  }

  const NOTHING := Evidence(false, false, false, false, false)

  // Cancelling and time come before errors, errors before mismatches.
  function Verdict(e: Evidence): RunState {
    if e.cancel then Cancelled
    else if e.deadline then TimedOut
    else if e.error then Errored
    else if e.mismatch then RunState.Failed
    else Passed
  }

  // Not run though some of its actions were.
  predicate Interrupted(w: World, i: nat, j: nat, r: StepResult, signal: Signal) {
    r.state.NotRun? && r.actionsCompleted > 0 && w.signal(i, j, r.actionsCompleted - 1) == signal
  }

  function Seen(w: World, stopOnFailure: bool, i: nat, j: nat, r: StepResult): Evidence {
    var cancel, deadline := Interrupted(w, i, j, r, Cancel), Interrupted(w, i, j, r, Deadline);
    var error, mismatch := r.state.StepError? || AnyUnread(r.assertions), AnyMismatch(r.assertions);
    Evidence(cancel || deadline || (stopOnFailure && (r.state.StepError? || mismatch)), cancel, deadline, error, mismatch)
  }

  // What the reports of a case say, from its first step on.
  function SeenAll(w: World, stopOnFailure: bool, i: nat, news: seq<StepResult>): Evidence {
    if news == [] then NOTHING
    else SeenAll(w, stopOnFailure, i, news[..|news| - 1]).Join(Seen(w, stopOnFailure, i, |news| - 1, news[|news| - 1]))
  }

  lemma SeenMore(w: World, stopOnFailure: bool, i: nat, news: seq<StepResult>, r: StepResult)
    ensures SeenAll(w, stopOnFailure, i, news + [r]) ==
            SeenAll(w, stopOnFailure, i, news).Join(Seen(w, stopOnFailure, i, |news|, r))
  {
    assert (news + [r])[..|news|] == news;
  }

  // The run is in the state its evidence calls for, and halted when that does.
  predicate Stands(p: Progress, e: Evidence) {
    && p.terminal == Verdict(e) && p.halted == e.halt
    && (e.cancel || e.deadline ==> e.halt) && !(e.cancel && e.deadline)
  }

  // Something other than an expectation went wrong.
  function Trouble(stopOnFailure: bool): Evidence {
    Evidence(stopOnFailure, false, false, true, false)
  }

  lemma TroubleStands(p: Progress, e: Evidence, stopOnFailure: bool)
    requires !e.halt && !e.cancel && !e.deadline && p.terminal == Errored && p.halted == stopOnFailure
    ensures Stands(p, e.Join(Trouble(stopOnFailure)))
  {
  }

  // ---- counting -----------------------------------------------------------------------------

  function PassedOf(steps: seq<StepResult>): nat {
    if steps == [] then 0 else PassedOf(steps[..|steps| - 1]) + PassedIn(steps[|steps| - 1].assertions)
  }

  function CountOf(steps: seq<StepResult>): nat {
    if steps == [] then 0 else CountOf(steps[..|steps| - 1]) + |steps[|steps| - 1].assertions|
  }

  // The counters are those of the assertions reported and of those lost when a
  // later read of their step threw.
  predicate Tallied(p: Progress, lost: seq<Assertion>) {
    && p.passed == PassedOf(p.steps) + PassedIn(lost)
    && p.passed + p.failed == CountOf(p.steps) + |lost|
  }

  lemma CountsMore(steps: seq<StepResult>, r: StepResult)
    ensures PassedOf(steps + [r]) == PassedOf(steps) + PassedIn(r.assertions)
    ensures CountOf(steps + [r]) == CountOf(steps) + |r.assertions|
  {
    assert (steps + [r])[..|steps|] == steps;
  }

  lemma TalliedMore(p: Progress, lost: seq<Assertion>, q: Progress, r: StepResult)
    requires Tallied(p, lost) && q.steps == p.steps + [r]
    requires q.passed == p.passed + PassedIn(r.assertions) && q.failed == p.failed + |r.assertions| - PassedIn(r.assertions)
    ensures Tallied(q, lost)
  {
    CountsMore(p.steps, r);
  }

  lemma TalliedLost(p: Progress, lost: seq<Assertion>, q: Progress, more: seq<Assertion>)
    requires Tallied(p, lost) && q.steps == p.steps
    requires q.passed == p.passed + PassedIn(more) && q.failed == p.failed + |more| - PassedIn(more)
    ensures Tallied(q, lost + more)
  {
    PassedConcat(lost, more);
  }

  // One of the case's expectations, judged.
  predicate FromCase(w: World, shape: Shape, c: Case, i: nat, a: Assertion)
    requires CaseFits(shape, c)
  {
    exists j, e :: 0 <= j < |c.steps| && 0 <= e < |c.steps[j].expects| && Judge(w, shape, c.steps[j], i, j, e) == Some(a)
  }

  // A read threw after another of its step was judged.
  predicate ReadThrewLate(w: World, c: Case, i: nat) {
    exists j, e :: 0 <= j < |c.steps| && 0 < e < |c.steps[j].expects| && w.read(i, j, e).ReadThrew?
  }

  // What a case adds to the lost: its own judgements, and only when a read throws.
  predicate LostIn(w: World, shape: Shape, c: Case, i: nat, before: seq<Assertion>, after: seq<Assertion>)
    requires CaseFits(shape, c)
  {
    && before <= after
    && (forall k :: |before| <= k < |after| ==> FromCase(w, shape, c, i, after[k]))
    && (after != before ==> ReadThrewLate(w, c, i))
  }

  lemma LostStep(w: World, shape: Shape, c: Case, i: nat, j: nat, lost: seq<Assertion>, more: seq<Assertion>)
    requires CaseFits(shape, c) && j < |c.steps| && Judged(w, shape, c.steps[j], i, j, more)
    requires |more| < |c.steps[j].expects| && Judge(w, shape, c.steps[j], i, j, |more|).None?
    ensures LostIn(w, shape, c, i, lost, lost + more)
  {
    forall k | |lost| <= k < |lost + more|
      ensures FromCase(w, shape, c, i, (lost + more)[k])
    {
      assert Judge(w, shape, c.steps[j], i, j, k - |lost|) == Some(more[k - |lost|]);
    }
    assert w.read(i, j, |more|).ReadThrew?;
  }

  // ---- a step -------------------------------------------------------------------------------

  // What a step of a passing run reports.
  predicate Full(shape: Shape, c: Case, j: nat, r: StepResult)
    requires j < |c.steps|
  {
    && StepFits(shape, c.steps[j]) && r.state == StepPassed && r.actionsCompleted == |c.steps[j].actions|
    && AllHeld(shape, c.steps[j], r.assertions)
  }

  // What became of a step: not finished, or reported once and under its names.
  predicate StepDone(w: World, shape: Shape, c: Case, i: nat, j: nat, p: Progress, q: Progress)
    requires j < |c.steps| && StepFits(shape, c.steps[j])
  {
    && |q.steps| == |p.steps| + 1 && q.steps[..|p.steps|] == p.steps
    && Key(q.steps[|p.steps|]) == (c.id, c.steps[j].id)
    && (q.terminal.Passed? <==> p.terminal.Passed? && StepGood(w, shape, c, i, j))
    && (StepGood(w, shape, c, i, j) ==> Full(shape, c, j, q.steps[|p.steps|]))
    && Judged(w, shape, c.steps[j], i, j, q.steps[|p.steps|].assertions)
    && (q.halted ==> !q.terminal.Passed?)
  }

  // The step's report, and what it does to the run, by how its actions end.
  predicate Tells(w: World, shape: Shape, c: Case, i: nat, j: nat, stopOnFailure: bool, p: Progress, q: Progress,
                  r: StepResult)
    requires j < |c.steps| && StepFits(shape, c.steps[j])
  {
    var (ended, completed) := ActionsEnd(w, c, i, j, 0);
    && r.actionsCompleted == completed
    && match ended
       case Broke => false
       case ActionFailed => r.state == StepError && r.assertions == [] && q.terminal == Errored && q.halted == stopOnFailure
       case Stopped(state) => r.state == NotRun && r.assertions == [] && q.terminal == state && q.halted
       case Ran =>
         && Judged(w, shape, c.steps[j], i, j, r.assertions)
         && r.state == (if AnyFailed(r.assertions) then StepFailed else StepPassed)
         && q.terminal == Worse(p.terminal, r.assertions)
         && (q.halted <==> stopOnFailure && AnyMismatch(r.assertions))
         && (!q.halted ==> |r.assertions| == |c.steps[j].expects|)
  }

  // The run stays in the state its evidence calls for.
  lemma StepStands(w: World, shape: Shape, c: Case, i: nat, j: nat, stopOnFailure: bool, p: Progress, q: Progress,
                   r: StepResult, e: Evidence)
    requires j < |c.steps| && StepFits(shape, c.steps[j]) && !p.halted
    requires Tells(w, shape, c, i, j, stopOnFailure, p, q, r) && Stands(p, e)
    ensures Stands(q, e.Join(Seen(w, stopOnFailure, i, j, r)))
  {
    ActionsEndMeans(w, c, i, j, 0);
  }

  method RunStep(w: World, shape: Shape, c: Case, i: nat, j: nat, stopOnFailure: bool, p: Progress, ghost lost: seq<Assertion>)
    returns (broke: bool, q: Progress, ghost lostNow: seq<Assertion>)
    requires Shaped(shape) && ImagesOk(shape, c.images) && j < |c.steps| && StepOk(shape, c.steps[j]) && !p.halted
    requires CaseFits(shape, c) && Tallied(p, lost)
    ensures if broke then !StepGood(w, shape, c, i, j) && q.steps == p.steps && !q.halted
            else StepDone(w, shape, c, i, j, p, q) && Tells(w, shape, c, i, j, stopOnFailure, p, q, q.steps[|p.steps|])
    ensures Tallied(q, lostNow) && LostIn(w, shape, c, i, lost, lostNow) && (!broke ==> lostNow == lost)
  {
    var s := c.steps[j];
    var ended, completed := RunActions(w, shape, c, i, j);
    broke, q, lostNow := false, p, lost;
    match ended {
      case Broke => broke := true;
      case ActionFailed =>
        q := ReportStep(p, lost, p.(terminal := Errored, halted := stopOnFailure), StepResult(c.id, s.id, StepError, completed, []));
      case Stopped(state) =>
        q := ReportStep(p, lost, p.(terminal := state, halted := true), StepResult(c.id, s.id, NotRun, completed, []));
      case Ran =>
        broke, q, lostNow := RunJudging(w, shape, c, i, j, completed, stopOnFailure, p, lost);
    }
  }

  // A step reported with what its assertions came to.
  method ReportStep(ghost p: Progress, ghost lost: seq<Assertion>, q: Progress, r: StepResult) returns (reported: Progress)
    requires Tallied(p, lost) && q.steps == p.steps
    requires q.passed == p.passed + PassedIn(r.assertions) && q.failed == p.failed + |r.assertions| - PassedIn(r.assertions)
    ensures reported == q.(steps := q.steps + [r]) && Tallied(reported, lost)
  {
    reported := q.(steps := q.steps + [r]);
    TalliedMore(p, lost, reported, r);
  }

  // A step whose actions all went well.
  method RunJudging(w: World, shape: Shape, c: Case, i: nat, j: nat, completed: nat, stopOnFailure: bool,
                    p: Progress, ghost lost: seq<Assertion>)
    returns (broke: bool, q: Progress, ghost lostNow: seq<Assertion>)
    requires j < |c.steps| && CaseFits(shape, c) && !p.halted && Tallied(p, lost)
    requires ActionsGood(w, c, i, j, |c.steps[j].actions|) && completed == |c.steps[j].actions|
    requires ActionsEnd(w, c, i, j, 0) == (Ran, completed)
    ensures if broke then !StepGood(w, shape, c, i, j) && q.steps == p.steps && !q.halted
            else StepDone(w, shape, c, i, j, p, q) && Tells(w, shape, c, i, j, stopOnFailure, p, q, q.steps[|p.steps|])
    ensures Tallied(q, lostNow) && LostIn(w, shape, c, i, lost, lostNow) && (!broke ==> lostNow == lost)
  {
    var s, assertions := c.steps[j], [];
    broke, assertions, q := RunExpects(w, shape, s, i, j, stopOnFailure, p);
    JudgedMeans(w, shape, s, i, j, assertions);
    if broke {
      assert !ExpectGood(w, shape, s, i, j, |assertions|);
      LostStep(w, shape, c, i, j, lost, assertions);
      TalliedLost(p, lost, q, assertions);
      lostNow := lost + assertions;
    } else {
      lostNow := lost;
      var state := if AnyFailed(assertions) then StepFailed else StepPassed;
      q := ReportStep(p, lost, q, StepResult(c.id, s.id, state, completed, assertions));
    }
  }

  // ---- a case --------------------------------------------------------------------------------

  // The case's steps from the first on, in order and under their names.
  predicate InOrder(c: Case, news: seq<StepResult>) {
    |news| <= |c.steps| && forall k :: 0 <= k < |news| ==> Key(news[k]) == (c.id, c.steps[k].id)
  }

  predicate Reports(steps: seq<StepResult>, key: (string, string)) {
    exists k :: 0 <= k < |steps| && Key(steps[k]) == key
  }

  // The scan for a step without a report.
  method FirstUnreported(steps: seq<StepResult>, c: Case) returns (first: nat)
    ensures first <= |c.steps| && forall j :: 0 <= j < first ==> Reports(steps, (c.id, c.steps[j].id))
    ensures first < |c.steps| ==> !Reports(steps, (c.id, c.steps[first].id))
  {
    first := 0;
    while first < |c.steps| && Reports(steps, (c.id, c.steps[first].id))
      invariant first <= |c.steps| && forall j :: 0 <= j < first ==> Reports(steps, (c.id, c.steps[j].id))
    {
      first := first + 1;
    }
  }

  lemma NewsReported(before: seq<StepResult>, news: seq<StepResult>, c: Case, k: nat)
    requires InOrder(c, news) && k < |news|
    ensures Reports(before + news, (c.id, c.steps[k].id))
  {
    assert (before + news)[|before| + k] == news[k];
  }

  lemma NextUnreported(before: seq<StepResult>, news: seq<StepResult>, c: Case)
    requires InOrder(c, news) && Apart(StepKey(), c.steps) && forall r <- before :: r.caseId != c.id
    requires |news| < |c.steps|
    ensures !Reports(before + news, (c.id, c.steps[|news|].id))
  {
    ApartMeans(StepKey(), c.steps);
    var all := before + news;
    forall k | 0 <= k < |all|
      ensures Key(all[k]) != (c.id, c.steps[|news|].id)
    {
      if k < |before| {
        assert all[k] in before;
      } else {
        var j := k - |before|;
        assert Key(news[j]) == (c.id, c.steps[j].id) && StepKey()(c.steps[j]) != StepKey()(c.steps[|news|]);
      }
    }
  }

  // The first step not reported is the one after those reported in order.
  lemma FirstIsNext(before: seq<StepResult>, news: seq<StepResult>, c: Case, first: nat)
    requires InOrder(c, news) && Apart(StepKey(), c.steps) && forall r <- before :: r.caseId != c.id
    requires first <= |c.steps| && forall j :: 0 <= j < first ==> Reports(before + news, (c.id, c.steps[j].id))
    requires first < |c.steps| ==> !Reports(before + news, (c.id, c.steps[first].id))
    ensures first == |news|
  {
    if |news| < |c.steps| {
      NextUnreported(before, news, c);
    }
    forall k | 0 <= k < |news|
      ensures Reports(before + news, (c.id, c.steps[k].id))
    {
      NewsReported(before, news, c, k);
    }
  }

  // Whatever a report says was compared was compared with that outcome.
  predicate JudgedNews(w: World, shape: Shape, c: Case, i: nat, news: seq<StepResult>)
    requires CaseFits(shape, c)
  {
    |news| <= |c.steps| && forall k :: 0 <= k < |news| ==> Judged(w, shape, c.steps[k], i, k, news[k].assertions)
  }

  // What became of a case.
  predicate CaseDone(w: World, shape: Shape, c: Case, i: nat, p: Progress, q: Progress, news: seq<StepResult>)
    requires CaseFits(shape, c)
  {
    && q.steps == p.steps + news && InOrder(c, news)
    && (q.terminal.Passed? <==> p.terminal.Passed? && CaseGood(w, shape, c, i))
    && (q.terminal.Passed? ==> |news| == |c.steps| && forall k :: 0 <= k < |news| ==> Full(shape, c, k, news[k]))
    && JudgedNews(w, shape, c, i, news)
    && (q.halted ==> !q.terminal.Passed?)
  }

  // Part way through its steps: `news` so far, none refused its place.
  predicate StepsDone(w: World, shape: Shape, c: Case, i: nat, n: nat, p: Progress, q: Progress, news: seq<StepResult>)
    requires CaseFits(shape, c) && n <= |c.steps|
  {
    && q.steps == p.steps + news && |news| == n && InOrder(c, news)
    && (q.terminal.Passed? <==> p.terminal.Passed? && StepsGood(w, shape, c, i, n))
    && (q.terminal.Passed? ==> forall k :: 0 <= k < n ==> Full(shape, c, k, news[k]))
    && JudgedNews(w, shape, c, i, news)
    && (q.halted ==> !q.terminal.Passed?)
  }

  lemma StepsMore(w: World, shape: Shape, c: Case, i: nat, n: nat, p: Progress, q: Progress, news: seq<StepResult>, r: Progress)
    requires CaseFits(shape, c) && n < |c.steps| && StepsDone(w, shape, c, i, n, p, q, news)
    requires StepDone(w, shape, c, i, n, q, r)
    ensures StepsDone(w, shape, c, i, n + 1, p, r, news + [r.steps[|q.steps|]])
  {
    var one := r.steps[|q.steps|];
    assert r.steps == q.steps + [one];
    assert p.steps + (news + [one]) == (p.steps + news) + [one];
  }

  lemma StepsSkip(w: World, shape: Shape, c: Case, i: nat, n: nat, p: Progress, q: Progress, news: seq<StepResult>, one: StepResult)
    requires CaseFits(shape, c) && n < |c.steps| && StepsDone(w, shape, c, i, n, p, q, news)
    requires !q.terminal.Passed? && Key(one) == (c.id, c.steps[n].id) && one.assertions == []
    ensures StepsDone(w, shape, c, i, n + 1, p, q.(steps := q.steps + [one]), news + [one])
  {
    assert p.steps + (news + [one]) == (p.steps + news) + [one];
  }

  predicate Skipped(r: StepResult) {
    r.state.NotRun? && r.actionsCompleted == 0 && r.assertions == []
  }

  // The run stands as its first steps say.
  predicate StandsAt(w: World, i: nat, stopOnFailure: bool, q: Progress, news: seq<StepResult>, seen: Evidence) {
    Stands(q, seen.Join(SeenAll(w, stopOnFailure, i, news))) && SkipsOnceHalted(w, i, stopOnFailure, seen, news)
  }

  // Nothing is run after what ends the run.
  predicate SkipsOnceHalted(w: World, i: nat, stopOnFailure: bool, seen: Evidence, news: seq<StepResult>) {
    forall j :: 0 <= j < |news| && seen.Join(SeenAll(w, stopOnFailure, i, news[..j])).halt ==> Skipped(news[j])
  }

  lemma SkipsMore(w: World, i: nat, stopOnFailure: bool, seen: Evidence, news: seq<StepResult>, one: StepResult)
    requires SkipsOnceHalted(w, i, stopOnFailure, seen, news)
    requires seen.Join(SeenAll(w, stopOnFailure, i, news)).halt ==> Skipped(one)
    ensures SkipsOnceHalted(w, i, stopOnFailure, seen, news + [one])
  {
    var more := news + [one];
    forall j | 0 <= j < |more| && seen.Join(SeenAll(w, stopOnFailure, i, more[..j])).halt
      ensures Skipped(more[j])
    {
      assert more[..j] == news[..j];
      assert news[..|news|] == news;
    }
  }

  lemma StepMore(w: World, shape: Shape, c: Case, i: nat, n: nat, stopOnFailure: bool, p: Progress, q: Progress,
                 news: seq<StepResult>, r: Progress, seen: Evidence)
    requires CaseFits(shape, c) && n < |c.steps| && StepsDone(w, shape, c, i, n, p, q, news) && !q.halted
    requires StepDone(w, shape, c, i, n, q, r) && Tells(w, shape, c, i, n, stopOnFailure, q, r, r.steps[|q.steps|])
    requires StandsAt(w, i, stopOnFailure, q, news, seen)
    ensures StepsDone(w, shape, c, i, n + 1, p, r, news + [r.steps[|q.steps|]])
    ensures StandsAt(w, i, stopOnFailure, r, news + [r.steps[|q.steps|]], seen)
  {
    StepsMore(w, shape, c, i, n, p, q, news, r);
    SkipsMore(w, i, stopOnFailure, seen, news, r.steps[|q.steps|]);
    SeenMore(w, stopOnFailure, i, news, r.steps[|q.steps|]);
    StepStands(w, shape, c, i, n, stopOnFailure, q, r, r.steps[|q.steps|], seen.Join(SeenAll(w, stopOnFailure, i, news)));
  }

  lemma SkipMore(w: World, shape: Shape, c: Case, i: nat, n: nat, stopOnFailure: bool, p: Progress, q: Progress,
                 news: seq<StepResult>, one: StepResult, seen: Evidence)
    requires CaseFits(shape, c) && n < |c.steps| && StepsDone(w, shape, c, i, n, p, q, news) && q.halted
    requires Key(one) == (c.id, c.steps[n].id) && Skipped(one) && StandsAt(w, i, stopOnFailure, q, news, seen)
    ensures StepsDone(w, shape, c, i, n + 1, p, q.(steps := q.steps + [one]), news + [one])
    ensures StandsAt(w, i, stopOnFailure, q.(steps := q.steps + [one]), news + [one], seen)
  {
    StepsSkip(w, shape, c, i, n, p, q, news, one);
    SkipsMore(w, i, stopOnFailure, seen, news, one);
    SeenMore(w, stopOnFailure, i, news, one);
  }

  // A step of a run that goes on.
  method TakeStep(w: World, shape: Shape, c: Case, i: nat, j: nat, stopOnFailure: bool, ghost p: Progress, q: Progress,
                  ghost news: seq<StepResult>, ghost lost: seq<Assertion>, ghost seen: Evidence)
    returns (threw: bool, r: Progress, ghost more: seq<StepResult>, ghost lostNow: seq<Assertion>)
    requires Shaped(shape) && CaseOk(shape, c) && CaseFits(shape, c) && j < |c.steps|
    requires StepsDone(w, shape, c, i, j, p, q, news) && !q.halted && Tallied(q, lost)
    requires StandsAt(w, i, stopOnFailure, q, news, seen)
    ensures if threw then more == news && r.steps == q.steps && !r.halted && !StepGood(w, shape, c, i, j)
            else lostNow == lost && StepsDone(w, shape, c, i, j + 1, p, r, more) && StandsAt(w, i, stopOnFailure, r, more, seen)
    ensures Tallied(r, lostNow) && LostIn(w, shape, c, i, lost, lostNow)
  {
    EachAt(StepCheck(shape), c.steps, j);
    threw, r, lostNow := RunStep(w, shape, c, i, j, stopOnFailure, q, lost);
    more := news;
    if !threw {
      StepMore(w, shape, c, i, j, stopOnFailure, p, q, news, r, seen);
      more := news + [r.steps[|q.steps|]];
    }
  }

  // A step of a halted run.
  method SkipStep(ghost w: World, ghost shape: Shape, c: Case, ghost i: nat, j: nat, ghost stopOnFailure: bool, ghost p: Progress,
                  q: Progress, ghost news: seq<StepResult>, ghost lost: seq<Assertion>, ghost seen: Evidence)
    returns (r: Progress, ghost more: seq<StepResult>)
    requires CaseFits(shape, c) && j < |c.steps| && StepsDone(w, shape, c, i, j, p, q, news) && q.halted
    requires Tallied(q, lost) && StandsAt(w, i, stopOnFailure, q, news, seen)
    ensures StepsDone(w, shape, c, i, j + 1, p, r, more) && r.halted && Tallied(r, lost)
    ensures StandsAt(w, i, stopOnFailure, r, more, seen)
  {
    var one := StepResult(c.id, c.steps[j].id, NotRun, 0, []);
    SkipMore(w, shape, c, i, j, stopOnFailure, p, q, news, one, seen);
    r := ReportStep(q, lost, q, one);
    more := news + [one];
  }

  // The loop over a case's steps, until one throws.
  method RunSteps(w: World, shape: Shape, c: Case, i: nat, stopOnFailure: bool, p: Progress, ghost lost: seq<Assertion>,
                  ghost seen: Evidence)
    returns (broke: bool, q: Progress, ghost news: seq<StepResult>, ghost lostNow: seq<Assertion>)
    requires Shaped(shape) && CaseOk(shape, c) && (p.halted ==> !p.terminal.Passed?)
    requires CaseFits(shape, c) && Tallied(p, lost) && Stands(p, seen)
    ensures if broke then q.steps == p.steps + news && InOrder(c, news) && JudgedNews(w, shape, c, i, news)
                          && !StepsGood(w, shape, c, i, |c.steps|) && !q.halted
            else StepsDone(w, shape, c, i, |c.steps|, p, q, news)
    ensures p.halted ==> !broke
    ensures Tallied(q, lostNow) && LostIn(w, shape, c, i, lost, lostNow)
    ensures var now := seen.Join(SeenAll(w, stopOnFailure, i, news));
            if broke then |news| < |c.steps| && !now.halt && !now.cancel && !now.deadline else Stands(q, now)
    ensures SkipsOnceHalted(w, i, stopOnFailure, seen, news)
  {
    q, news, lostNow := p, [], lost;
    for j := 0 to |c.steps|
      invariant StepsDone(w, shape, c, i, j, p, q, news) && (p.halted ==> q.halted)
      invariant Tallied(q, lost) && lostNow == lost
      invariant StandsAt(w, i, stopOnFailure, q, news, seen)
    {
      if q.halted {
        q, news := SkipStep(w, shape, c, i, j, stopOnFailure, p, q, news, lost, seen);
      } else {
        var threw;
        threw, q, news, lostNow := TakeStep(w, shape, c, i, j, stopOnFailure, p, q, news, lost, seen);
        if threw {
          assert !StepGood(w, shape, c, i, j);
          return true, q, news, lostNow;
        }
      }
    }
    return false, q, news, lostNow;
  }

  lemma AllFit(shape: Shape, c: Case)
    requires Shaped(shape) && CaseOk(shape, c)
    ensures CaseFits(shape, c) && forall j :: 0 <= j < |c.steps| ==> StepOk(shape, c.steps[j])
  {
    forall j | 0 <= j < |c.steps|
      ensures StepOk(shape, c.steps[j]) && StepFits(shape, c.steps[j])
    {
      EachAt(StepCheck(shape), c.steps, j);
    }
  }

  lemma NewsMore(w: World, shape: Shape, c: Case, i: nat, before: seq<StepResult>, news: seq<StepResult>, one: StepResult)
    requires CaseFits(shape, c) && InOrder(c, news) && JudgedNews(w, shape, c, i, news) && |news| < |c.steps|
    requires Key(one) == (c.id, c.steps[|news|].id) && one.assertions == []
    ensures InOrder(c, news + [one]) && JudgedNews(w, shape, c, i, news + [one])
    ensures before + (news + [one]) == before + news + [one]
  {
    Assoc(before, news, [one]);
  }

  // What is known after a case: what its reports say, and that it did not start
  // well if it was tried at all.
  function CaseEvidence(w: World, shape: Shape, c: Case, i: nat, stopOnFailure: bool, before: Evidence,
                        news: seq<StepResult>): Evidence {
    before.Join(SeenAll(w, stopOnFailure, i, news)).Join(
      if before.halt || StartGood(w, shape, c, i) then NOTHING else Trouble(stopOnFailure))
  }

  // The `catch`: the first step not reported is reported as an error.
  method Recover(w: World, shape: Shape, c: Case, i: nat, stopOnFailure: bool, ghost p: Progress, q: Progress,
                 ghost news: seq<StepResult>, ghost lost: seq<Assertion>, ghost seen: Evidence)
    returns (r: Progress, ghost more: seq<StepResult>)
    requires q.steps == p.steps + news && InOrder(c, news) && CaseFits(shape, c) && JudgedNews(w, shape, c, i, news)
    requires Apart(StepKey(), c.steps) && forall x <- p.steps :: x.caseId != c.id
    requires Tallied(q, lost)
    requires var now := seen.Join(SeenAll(w, stopOnFailure, i, news)); !now.halt && !now.cancel && !now.deadline
    requires |news| < |c.steps| || !StartGood(w, shape, c, i)
    requires SkipsOnceHalted(w, i, stopOnFailure, seen, news)
    ensures Stands(r, CaseEvidence(w, shape, c, i, stopOnFailure, seen, more))
    ensures SkipsOnceHalted(w, i, stopOnFailure, seen, more)
    ensures r.steps == p.steps + more && InOrder(c, more) && JudgedNews(w, shape, c, i, more)
    ensures r.terminal == Errored && r.halted == stopOnFailure
    ensures |more| == if |news| < |c.steps| then |news| + 1 else |news|
    ensures Tallied(r, lost)
  {
    var first := FirstUnreported(q.steps, c);
    FirstIsNext(p.steps, news, c, first);
    r, more := q.(terminal := Errored, halted := stopOnFailure), news;
    if first < |c.steps| {
      var one := StepResult(c.id, c.steps[first].id, StepError, 0, []);
      NewsMore(w, shape, c, i, p.steps, news, one);
      SeenMore(w, stopOnFailure, i, news, one);
      SkipsMore(w, i, stopOnFailure, seen, news, one);
      r := ReportStep(q, lost, r, one);
      more := more + [one];
    }
    TroubleStands(r, seen.Join(SeenAll(w, stopOnFailure, i, news)), stopOnFailure);
  }

  // One case on a session of its own, if there is still a run. Four ways out: the
  // session was not made; its images or its inputs did not go in; a step threw; all
  // steps were gone through. `log` is what becomes of sessions.
  method RunCase(w: World, shape: Shape, c: Case, i: nat, stopOnFailure: bool, p: Progress, log: seq<Event>,
                 ghost lost: seq<Assertion>, ghost seen: Evidence)
    returns (q: Progress, logNow: seq<Event>, ghost news: seq<StepResult>, ghost lostNow: seq<Assertion>)
    requires Shaped(shape) && CaseOk(shape, c) && (p.halted ==> !p.terminal.Passed?)
    requires CaseFits(shape, c) && Tallied(p, lost) && Stands(p, seen)
    requires forall r <- p.steps :: r.caseId != c.id
    ensures CaseDone(w, shape, c, i, p, q, news)
    ensures logNow == log + if !p.halted && w.create(i) then [Opened(i), Closed(i)] else []
    ensures Tallied(q, lostNow) && LostIn(w, shape, c, i, lost, lostNow)
    ensures Stands(q, CaseEvidence(w, shape, c, i, stopOnFailure, seen, news))
    ensures SkipsOnceHalted(w, i, stopOnFailure, seen, news)
  {
    var broke;
    logNow, news, lostNow := log, [], lost;
    if p.halted {
      broke, q, news, lostNow := RunSteps(w, shape, c, i, stopOnFailure, p, lost, seen);
      return;
    }
    if !w.create(i) {
      q, news := Recover(w, shape, c, i, stopOnFailure, p, p, [], lost, seen);
      return;
    }
    q, logNow, news, lostNow := RunOnSession(w, shape, c, i, stopOnFailure, p, log + [Opened(i)], lost, seen);
  }

  lemma CaseRecovered(w: World, shape: Shape, c: Case, i: nat, p: Progress, r: Progress, more: seq<StepResult>)
    requires CaseFits(shape, c) && !CaseGood(w, shape, c, i) && r.steps == p.steps + more && r.terminal == Errored
    requires InOrder(c, more) && JudgedNews(w, shape, c, i, more)
    ensures CaseDone(w, shape, c, i, p, r, more)
  {
  }

  lemma CaseRan(w: World, shape: Shape, c: Case, i: nat, stopOnFailure: bool, p: Progress, q: Progress,
                news: seq<StepResult>, seen: Evidence)
    requires CaseFits(shape, c) && StartGood(w, shape, c, i) && StepsDone(w, shape, c, i, |c.steps|, p, q, news)
    requires Stands(q, seen.Join(SeenAll(w, stopOnFailure, i, news)))
    ensures CaseDone(w, shape, c, i, p, q, news) && Stands(q, CaseEvidence(w, shape, c, i, stopOnFailure, seen, news))
  {
  }

  // A case whose session was made, which goes on every way out.
  method RunOnSession(w: World, shape: Shape, c: Case, i: nat, stopOnFailure: bool, p: Progress, log: seq<Event>,
                      ghost lost: seq<Assertion>, ghost seen: Evidence)
    returns (q: Progress, logNow: seq<Event>, ghost news: seq<StepResult>, ghost lostNow: seq<Assertion>)
    requires Shaped(shape) && CaseOk(shape, c) && !p.halted && w.create(i)
    requires CaseFits(shape, c) && Tallied(p, lost) && Stands(p, seen)
    requires forall r <- p.steps :: r.caseId != c.id
    ensures CaseDone(w, shape, c, i, p, q, news)
    ensures logNow == log + [Closed(i)]
    ensures Tallied(q, lostNow) && LostIn(w, shape, c, i, lost, lostNow)
    ensures Stands(q, CaseEvidence(w, shape, c, i, stopOnFailure, seen, news))
    ensures SkipsOnceHalted(w, i, stopOnFailure, seen, news)
  {
    var ready := Prepare(w, shape, c, i);
    if !ready {
      q, news := Recover(w, shape, c, i, stopOnFailure, p, p, [], lost, seen);
      CaseRecovered(w, shape, c, i, p, q, news);
      return q, log + [Closed(i)], news, lost;
    }
    var broke;
    broke, q, news, lostNow := RunSteps(w, shape, c, i, stopOnFailure, p, lost, seen);
    if broke {
      q, news := Recover(w, shape, c, i, stopOnFailure, p, q, news, lostNow, seen);
      CaseRecovered(w, shape, c, i, p, q, news);
      return q, log + [Closed(i)], news, lostNow;
    }
    CaseRan(w, shape, c, i, stopOnFailure, p, q, news, seen);
    return q, log + [Closed(i)], news, lostNow;
  }

  // A new session given its images and, if asked for, its inputs.
  method Prepare(w: World, shape: Shape, c: Case, i: nat) returns (ready: bool)
    requires Shaped(shape) && CaseOk(shape, c)
    ensures ready <==> ImagesGood(w, c, i, AtStart) && (c.low ==> LowGood(w, shape, i))
  {
    ready := ApplyImages(w, shape, c, i, AtStart);
    if ready && c.low {
      ready := DriveLow(w, shape, i);
    }
  }

  // ---- a run -----------------------------------------------------------------------------------

  datatype Summary = Summary(
    state: RunState, cases: nat, steps: nat, assertions: nat, passedAssertions: nat, failedAssertions: nat, notRunSteps: nat)

  function KeyOf(cases: seq<Case>, a: nat, b: nat): (string, string)
    requires a < |cases| && b < |cases[a].steps|
  {
    (cases[a].id, cases[a].steps[b].id)
  }

  // Only steps of the first `n` cases are reported, ...
  predicate Within(cases: seq<Case>, n: nat, key: (string, string))
    requires n <= |cases|
  {
    exists a, b :: 0 <= a < n && 0 <= b < |cases[a].steps| && KeyOf(cases, a, b) == key
  }

  predicate AllWithin(cases: seq<Case>, n: nat, steps: seq<StepResult>)
    requires n <= |cases|
  {
    forall k :: 0 <= k < |steps| ==> Within(cases, n, Key(steps[k]))
  }

  // ... no step twice, ...
  predicate Once(steps: seq<StepResult>) {
    forall j, k :: 0 <= j < k < |steps| ==> Key(steps[j]) != Key(steps[k])
  }

  // ... and every step of them.
  predicate Covers(cases: seq<Case>, n: nat, steps: seq<StepResult>)
    requires n <= |cases|
  {
    forall a, b :: 0 <= a < n && 0 <= b < |cases[a].steps| ==> Reports(steps, KeyOf(cases, a, b))
  }

  // Reported as a step that passed whole.
  predicate FullOne(shape: Shape, cases: seq<Case>, n: nat, r: StepResult)
    requires n <= |cases|
  {
    exists a, b :: 0 <= a < n && 0 <= b < |cases[a].steps| && KeyOf(cases, a, b) == Key(r) && Full(shape, cases[a], b, r)
  }

  predicate CasesFit(shape: Shape, cases: seq<Case>) {
    forall a :: 0 <= a < |cases| ==> CaseFits(shape, cases[a])
  }

  predicate AllGood(w: World, shape: Shape, cases: seq<Case>, n: nat)
    requires CasesFit(shape, cases) && n <= |cases|
  {
    forall a :: 0 <= a < n ==> CaseGood(w, shape, cases[a], a)
  }

  lemma {:induction false} InOrderOnce(c: Case, news: seq<StepResult>)
    requires InOrder(c, news) && Apart(StepKey(), c.steps)
    ensures Once(news)
  {
    ApartMeans(StepKey(), c.steps);
    forall j, k | 0 <= j < k < |news|
      ensures Key(news[j]) != Key(news[k])
    {
      assert StepKey()(c.steps[j]) != StepKey()(c.steps[k]);
    }
  }

  lemma OnceMore(before: seq<StepResult>, news: seq<StepResult>, c: Case)
    requires Once(before) && Once(news) && InOrder(c, news) && forall r <- before :: r.caseId != c.id
    ensures Once(before + news)
  {
    var all := before + news;
    forall j, k | 0 <= j < k < |all|
      ensures Key(all[j]) != Key(all[k])
    {
      if j < |before| {
        assert all[j] in before;
      }
      if k >= |before| {
        assert Key(news[k - |before|]).0 == c.id;
      }
    }
  }

  lemma WithinMore(cases: seq<Case>, i: nat, before: seq<StepResult>, news: seq<StepResult>)
    requires i < |cases| && AllWithin(cases, i, before) && InOrder(cases[i], news)
    ensures AllWithin(cases, i + 1, before + news)
  {
    var all := before + news;
    forall k | 0 <= k < |all|
      ensures Within(cases, i + 1, Key(all[k]))
    {
      if k < |before| {
        assert Within(cases, i, Key(before[k]));
      } else {
        assert KeyOf(cases, i, k - |before|) == Key(news[k - |before|]);
      }
    }
  }

  // Nothing of this case is reported before it is run.
  lemma NotYet(cases: seq<Case>, i: nat, steps: seq<StepResult>)
    requires i < |cases| && Apart(CaseKey(), cases) && AllWithin(cases, i, steps)
    ensures forall r <- steps :: r.caseId != cases[i].id
  {
    ApartMeans(CaseKey(), cases);
    forall r <- steps
      ensures r.caseId != cases[i].id
    {
      var k :| 0 <= k < |steps| && steps[k] == r;
      assert Within(cases, i, Key(steps[k]));
      var a, b :| 0 <= a < i && 0 <= b < |cases[a].steps| && KeyOf(cases, a, b) == Key(r);
      assert CaseKey()(cases[a]) != CaseKey()(cases[i]);
    }
  }

  lemma CoversMore(cases: seq<Case>, i: nat, before: seq<StepResult>, news: seq<StepResult>)
    requires i < |cases| && Covers(cases, i, before) && InOrder(cases[i], news) && |news| == |cases[i].steps|
    ensures Covers(cases, i + 1, before + news)
  {
    var all := before + news;
    forall a, b | 0 <= a < i + 1 && 0 <= b < |cases[a].steps|
      ensures Reports(all, KeyOf(cases, a, b))
    {
      if a < i {
        assert Reports(before, KeyOf(cases, a, b));
        var k :| 0 <= k < |before| && Key(before[k]) == KeyOf(cases, a, b);
        assert all[k] == before[k];
      } else {
        NewsReported(before, news, cases[i], b);
      }
    }
  }

  // What is added to the reports says that nothing was run.
  predicate Padded(steps: seq<StepResult>, all: seq<StepResult>) {
    && steps <= all && (forall k :: |steps| <= k < |all| ==> Skipped(all[k]))
    && PassedOf(all) == PassedOf(steps) && CountOf(all) == CountOf(steps)
  }

  lemma PaddedMore(steps: seq<StepResult>, all: seq<StepResult>, one: StepResult)
    requires Padded(steps, all) && Skipped(one)
    ensures Padded(steps, all + [one])
  {
    CountsMore(all, one);
  }

  // A step still missing is reported as not run.
  method Sweep(cases: seq<Case>, steps: seq<StepResult>) returns (all: seq<StepResult>)
    requires Once(steps) && AllWithin(cases, |cases|, steps)
    ensures Once(all) && AllWithin(cases, |cases|, all) && Covers(cases, |cases|, all)
    ensures Covers(cases, |cases|, steps) ==> all == steps
    ensures Padded(steps, all)
  {
    all := steps;
    for a := 0 to |cases|
      invariant Once(all) && AllWithin(cases, |cases|, all) && Covers(cases, a, all)
      invariant Covers(cases, |cases|, steps) ==> all == steps
      invariant Padded(steps, all)
    {
      for b := 0 to |cases[a].steps|
        invariant Once(all) && AllWithin(cases, |cases|, all) && Covers(cases, a, all)
        invariant forall h :: 0 <= h < b ==> Reports(all, KeyOf(cases, a, h))
        invariant Covers(cases, |cases|, steps) ==> all == steps
        invariant Padded(steps, all)
      {
        var one := StepResult(cases[a].id, cases[a].steps[b].id, NotRun, 0, []);
        assert Key(one) == KeyOf(cases, a, b);
        if !Reports(all, KeyOf(cases, a, b)) {
          SweepStep(cases, a, all, one);
          PaddedMore(steps, all, one);
          all := all + [one];
        }
      }
    }
  }

  lemma SweepStep(cases: seq<Case>, a: nat, all: seq<StepResult>, one: StepResult)
    requires a <= |cases| && Once(all) && AllWithin(cases, |cases|, all) && Covers(cases, a, all)
    requires !Reports(all, Key(one)) && Within(cases, |cases|, Key(one))
    ensures Once(all + [one]) && AllWithin(cases, |cases|, all + [one]) && Covers(cases, a, all + [one])
    ensures Reports(all + [one], Key(one)) && forall key :: Reports(all, key) ==> Reports(all + [one], key)
  {
    var more := all + [one];
    assert more[|all|] == one;
    forall key | Reports(all, key)
      ensures Reports(more, key)
    {
      var k :| 0 <= k < |all| && Key(all[k]) == key;
      assert more[k] == all[k];
    }
  }

  predicate AllFull(shape: Shape, cases: seq<Case>, n: nat, steps: seq<StepResult>)
    requires n <= |cases|
  {
    forall k :: 0 <= k < |steps| ==> FullOne(shape, cases, n, steps[k])
  }

  lemma FullMore(shape: Shape, cases: seq<Case>, i: nat, before: seq<StepResult>, news: seq<StepResult>)
    requires i < |cases| && AllFull(shape, cases, i, before) && InOrder(cases[i], news)
    requires forall k :: 0 <= k < |news| ==> Full(shape, cases[i], k, news[k])
    ensures AllFull(shape, cases, i + 1, before + news)
  {
    var all := before + news;
    forall k | 0 <= k < |all|
      ensures FullOne(shape, cases, i + 1, all[k])
    {
      if k < |before| {
        assert FullOne(shape, cases, i, before[k]);
      } else {
        var j := k - |before|;
        assert KeyOf(cases, i, j) == Key(news[j]) && Full(shape, cases[i], j, news[j]);
      }
    }
  }

  // Part way through the cases.
  predicate CasesDone(w: World, shape: Shape, cases: seq<Case>, i: nat, p: Progress)
    requires CasesFit(shape, cases) && i <= |cases|
  {
    && Once(p.steps) && AllWithin(cases, i, p.steps)
    && (p.terminal.Passed? <==> AllGood(w, shape, cases, i))
    && (p.terminal.Passed? ==> Covers(cases, i, p.steps) && AllFull(shape, cases, i, p.steps))
    && (p.halted ==> !p.terminal.Passed?)
  }

  lemma CasesMore(w: World, shape: Shape, cases: seq<Case>, i: nat, p: Progress, q: Progress, news: seq<StepResult>)
    requires CasesFit(shape, cases) && i < |cases| && CasesDone(w, shape, cases, i, p)
    requires Apart(CaseKey(), cases) && Apart(StepKey(), cases[i].steps)
    requires CaseDone(w, shape, cases[i], i, p, q, news)
    ensures CasesDone(w, shape, cases, i + 1, q)
  {
    InOrderOnce(cases[i], news);
    NotYet(cases, i, p.steps);
    OnceMore(p.steps, news, cases[i]);
    WithinMore(cases, i, p.steps, news);
    GoodMore(w, shape, cases, i);
    if q.terminal.Passed? {
      CoversMore(cases, i, p.steps, news);
      FullMore(shape, cases, i, p.steps, news);
    }
  }

  lemma GoodMore(w: World, shape: Shape, cases: seq<Case>, i: nat)
    requires CasesFit(shape, cases) && i < |cases|
    ensures AllGood(w, shape, cases, i + 1) <==> AllGood(w, shape, cases, i) && CaseGood(w, shape, cases[i], i)
  {
  }

  // ---- sessions ------------------------------------------------------------------------------

  // Every session made is destroyed before the next is made, only then, and none is
  // made twice.
  predicate ClosedInTurn(log: seq<Event>) {
    && (forall a :: 0 <= a < |log| && log[a].Opened? ==> a + 1 < |log| && log[a + 1] == Closed(log[a].session))
    && (forall a :: 0 <= a < |log| && log[a].Closed? ==> a > 0 && log[a - 1] == Opened(log[a].session))
    && (forall a, b :: 0 <= a < b < |log| && log[a].Opened? && log[b].Opened? ==> log[a].session < log[b].session)
  }

  predicate MadeBefore(w: World, log: seq<Event>, i: nat) {
    forall a :: 0 <= a < |log| ==> log[a].session < i && w.create(log[a].session)
  }

  lemma TurnsMore(w: World, log: seq<Event>, i: nat, more: seq<Event>)
    requires ClosedInTurn(log) && MadeBefore(w, log, i)
    requires more == [] || (w.create(i) && more == [Opened(i), Closed(i)])
    ensures ClosedInTurn(log + more) && MadeBefore(w, log + more, i + 1)
  {
    var all := log + more;
    assert forall a :: 0 <= a < |log| ==> all[a] == log[a];
    assert more != [] ==> all[|log|] == Opened(i) && all[|log| + 1] == Closed(i);
  }

  // No session is made or destroyed twice.
  lemma NothingTwice(log: seq<Event>, a: nat, b: nat)
    requires ClosedInTurn(log) && a < |log| && b < |log| && log[a] == log[b]
    ensures a == b
  {
    if log[a].Closed? {
      assert log[a - 1] == log[b - 1];
    }
  }

  // All of the first `n` cases had a session.
  predicate AllOpened(log: seq<Event>, n: nat) {
    forall a :: 0 <= a < n ==> Opened(a) in log
  }

  // ---- assertions ----------------------------------------------------------------------------

  // The report of a step of the first `n` cases; what it says was compared, was.
  predicate JudgedOne(w: World, shape: Shape, cases: seq<Case>, n: nat, r: StepResult)
    requires CasesFit(shape, cases) && n <= |cases|
  {
    exists a, b :: 0 <= a < n && 0 <= b < |cases[a].steps| && KeyOf(cases, a, b) == Key(r)
                   && Judged(w, shape, cases[a].steps[b], a, b, r.assertions)
  }

  predicate AllJudged(w: World, shape: Shape, cases: seq<Case>, n: nat, steps: seq<StepResult>)
    requires CasesFit(shape, cases) && n <= |cases|
  {
    forall k :: 0 <= k < |steps| ==> JudgedOne(w, shape, cases, n, steps[k])
  }

  // Whatever it says was expected, read and found equal is what was written, what was
  // read and whether they agree.
  ghost predicate CorrectOne(w: World, shape: Shape, cases: seq<Case>, r: StepResult)
    requires CasesFit(shape, cases)
  {
    exists a, b :: 0 <= a < |cases| && 0 <= b < |cases[a].steps| && KeyOf(cases, a, b) == Key(r)
                   && AllCorrect(w, shape, cases[a].steps[b], a, b, r.assertions)
  }

  lemma EachCorrect(w: World, shape: Shape, cases: seq<Case>, steps: seq<StepResult>)
    requires CasesFit(shape, cases) && AllJudged(w, shape, cases, |cases|, steps)
    ensures forall r <- steps :: CorrectOne(w, shape, cases, r)
  {
    forall r <- steps
      ensures CorrectOne(w, shape, cases, r)
    {
      assert JudgedOne(w, shape, cases, |cases|, r);
      var a, b :| 0 <= a < |cases| && 0 <= b < |cases[a].steps| && KeyOf(cases, a, b) == Key(r)
                  && Judged(w, shape, cases[a].steps[b], a, b, r.assertions);
      JudgedCorrect(w, shape, cases[a].steps[b], a, b, r.assertions);
    }
  }

  lemma JudgedCase(w: World, shape: Shape, cases: seq<Case>, i: nat, before: seq<StepResult>, news: seq<StepResult>)
    requires CasesFit(shape, cases) && i < |cases| && AllJudged(w, shape, cases, i, before)
    requires InOrder(cases[i], news) && JudgedNews(w, shape, cases[i], i, news)
    ensures AllJudged(w, shape, cases, i + 1, before + news)
  {
    var all := before + news;
    forall k | 0 <= k < |all|
      ensures JudgedOne(w, shape, cases, i + 1, all[k])
    {
      if k < |before| {
        assert JudgedOne(w, shape, cases, i, before[k]);
      } else {
        var j := k - |before|;
        assert KeyOf(cases, i, j) == Key(news[j]) && Judged(w, shape, cases[i].steps[j], i, j, news[j].assertions);
      }
    }
  }

  lemma JudgedPadded(w: World, shape: Shape, cases: seq<Case>, steps: seq<StepResult>, all: seq<StepResult>)
    requires CasesFit(shape, cases) && AllJudged(w, shape, cases, |cases|, steps)
    requires Padded(steps, all) && AllWithin(cases, |cases|, all)
    ensures AllJudged(w, shape, cases, |cases|, all)
  {
    forall k | 0 <= k < |all|
      ensures JudgedOne(w, shape, cases, |cases|, all[k])
    {
      if k < |steps| {
        assert JudgedOne(w, shape, cases, |cases|, steps[k]);
      } else {
        assert Within(cases, |cases|, Key(all[k]));
        var a, b :| 0 <= a < |cases| && 0 <= b < |cases[a].steps| && KeyOf(cases, a, b) == Key(all[k]);
        assert Judged(w, shape, cases[a].steps[b], a, b, []);
      }
    }
  }

  // Judged in one of the first `n` cases and reported in no step, which happens
  // only when a later read of the step throws.
  predicate AllLost(w: World, shape: Shape, cases: seq<Case>, n: nat, lost: seq<Assertion>)
    requires CasesFit(shape, cases) && n <= |cases|
  {
    && (forall k :: 0 <= k < |lost| ==> exists a :: 0 <= a < n && FromCase(w, shape, cases[a], a, lost[k]))
    && (lost != [] ==> exists a :: 0 <= a < n && ReadThrewLate(w, cases[a], a))
  }

  lemma LostMore(w: World, shape: Shape, cases: seq<Case>, i: nat, before: seq<Assertion>, after: seq<Assertion>)
    requires CasesFit(shape, cases) && i < |cases| && AllLost(w, shape, cases, i, before)
    requires LostIn(w, shape, cases[i], i, before, after)
    ensures AllLost(w, shape, cases, i + 1, after)
  {
    forall k | 0 <= k < |after|
      ensures exists a :: 0 <= a < i + 1 && FromCase(w, shape, cases[a], a, after[k])
    {
      if k < |before| {
        assert after[k] == before[k];
        var a :| 0 <= a < i && FromCase(w, shape, cases[a], a, before[k]);
      } else {
        assert FromCase(w, shape, cases[i], i, after[k]);
      }
    }
    if after != before {
      assert ReadThrewLate(w, cases[i], i);
    }
  }

  lemma GoodRead(w: World, shape: Shape, cases: seq<Case>, a: nat, j: nat, e: nat)
    requires CasesFit(shape, cases) && AllGood(w, shape, cases, |cases|)
    requires a < |cases| && j < |cases[a].steps| && e < |cases[a].steps[j].expects|
    ensures w.read(a, j, e).Read?
  {
    assert CaseGood(w, shape, cases[a], a) && StepGood(w, shape, cases[a], a, j);
    assert ExpectGood(w, shape, cases[a].steps[j], a, j, e);
  }

  // Nothing is lost when everything goes well.
  lemma GoodLosesNone(w: World, shape: Shape, cases: seq<Case>, lost: seq<Assertion>)
    requires CasesFit(shape, cases) && AllGood(w, shape, cases, |cases|) && AllLost(w, shape, cases, |cases|, lost)
    ensures lost == []
  {
    if lost != [] {
      var a :| 0 <= a < |cases| && ReadThrewLate(w, cases[a], a);
      var j, e :| 0 <= j < |cases[a].steps| && 0 < e < |cases[a].steps[j].expects| && w.read(a, j, e).ReadThrew?;
      GoodRead(w, shape, cases, a, j, e);
    }
  }

  // ---- how many steps ------------------------------------------------------------------------

  function KeysOfCase(c: Case): seq<(string, string)> {
    seq(|c.steps|, b requires 0 <= b < |c.steps| => (c.id, c.steps[b].id))
  }

  function StepKeys(cases: seq<Case>, n: nat): seq<(string, string)>
    requires n <= |cases|
  {
    if n == 0 then [] else StepKeys(cases, n - 1) + KeysOfCase(cases[n - 1])
  }

  predicate KeysMatch(cases: seq<Case>, n: nat, keys: seq<(string, string)>)
    requires n <= |cases|
  {
    && (forall key <- keys :: Within(cases, n, key))
    && forall a, b :: 0 <= a < n && 0 <= b < |cases[a].steps| ==> KeyOf(cases, a, b) in keys
  }

  predicate StepsApart(cases: seq<Case>) {
    forall a :: 0 <= a < |cases| ==> Apart(StepKey(), cases[a].steps)
  }

  lemma {:induction false} CountSteps(steps: seq<Step>)
    ensures Count(steps).steps == |steps|
  {
    if steps != [] {
      CountSteps(steps[..|steps| - 1]);
    }
  }

  lemma {:induction false} StepKeysCount(cases: seq<Case>, n: nat)
    requires n <= |cases|
    ensures |StepKeys(cases, n)| == Total(cases[..n]).steps
  {
    if n > 0 {
      StepKeysCount(cases, n - 1);
      assert cases[..n][..n - 1] == cases[..n - 1];
      CountSteps(cases[n - 1].steps);
    }
  }

  lemma {:induction false} StepKeysAre(cases: seq<Case>, n: nat)
    requires n <= |cases| && Apart(CaseKey(), cases) && StepsApart(cases)
    ensures Distinct(StepKeys(cases, n)) && KeysMatch(cases, n, StepKeys(cases, n))
  {
    if n > 0 {
      StepKeysAre(cases, n - 1);
      StepKeysIn(cases, n);
      StepKeysDistinct(cases, n);
    }
  }

  lemma StepKeysIn(cases: seq<Case>, n: nat)
    requires 0 < n <= |cases| && KeysMatch(cases, n - 1, StepKeys(cases, n - 1))
    ensures KeysMatch(cases, n, StepKeys(cases, n))
  {
    var front, last := StepKeys(cases, n - 1), KeysOfCase(cases[n - 1]);
    forall key <- front + last
      ensures Within(cases, n, key)
    {
      if key in last {
        var b :| 0 <= b < |last| && last[b] == key;
        assert KeyOf(cases, n - 1, b) == key;
      } else {
        assert Within(cases, n - 1, key);
      }
    }
    forall a, b | 0 <= a < n && 0 <= b < |cases[a].steps|
      ensures KeyOf(cases, a, b) in front + last
    {
      assert a == n - 1 ==> last[b] == KeyOf(cases, a, b);
    }
  }

  lemma StepKeysDistinct(cases: seq<Case>, n: nat)
    requires 0 < n <= |cases| && Apart(CaseKey(), cases) && Apart(StepKey(), cases[n - 1].steps)
    requires Distinct(StepKeys(cases, n - 1)) && KeysMatch(cases, n - 1, StepKeys(cases, n - 1))
    ensures Distinct(StepKeys(cases, n))
  {
    var front, last := StepKeys(cases, n - 1), KeysOfCase(cases[n - 1]);
    ApartMeans(CaseKey(), cases);
    ApartMeans(StepKey(), cases[n - 1].steps);
    forall j, k | 0 <= j < k < |front + last|
      ensures (front + last)[j] != (front + last)[k]
    {
      if j >= |front| {
        assert StepKey()(cases[n - 1].steps[j - |front|]) != StepKey()(cases[n - 1].steps[k - |front|]);
      } else if k >= |front| {
        assert front[j] in front && Within(cases, n - 1, front[j]);
        var a, b :| 0 <= a < n - 1 && 0 <= b < |cases[a].steps| && KeyOf(cases, a, b) == front[j];
        assert CaseKey()(cases[a]) != CaseKey()(cases[n - 1]);
      }
    }
  }

  function KeysReported(steps: seq<StepResult>): seq<(string, string)> {
    seq(|steps|, k requires 0 <= k < |steps| => Key(steps[k]))
  }

  lemma ReportsMatch(cases: seq<Case>, steps: seq<StepResult>)
    requires AllWithin(cases, |cases|, steps) && Covers(cases, |cases|, steps)
    ensures KeysMatch(cases, |cases|, KeysReported(steps))
  {
    var reported := KeysReported(steps);
    forall key <- reported
      ensures Within(cases, |cases|, key)
    {
      var k :| 0 <= k < |reported| && reported[k] == key;
      assert Within(cases, |cases|, Key(steps[k]));
    }
    forall a, b | 0 <= a < |cases| && 0 <= b < |cases[a].steps|
      ensures KeyOf(cases, a, b) in reported
    {
      assert Reports(steps, KeyOf(cases, a, b));
      var k :| 0 <= k < |steps| && Key(steps[k]) == KeyOf(cases, a, b);
      assert reported[k] == KeyOf(cases, a, b);
    }
  }

  lemma MatchesIn(cases: seq<Case>, xs: seq<(string, string)>, ys: seq<(string, string)>)
    requires KeysMatch(cases, |cases|, xs) && KeysMatch(cases, |cases|, ys)
    ensures SetOf(xs) <= SetOf(ys)
  {
    forall key <- xs
      ensures key in ys
    {
      assert Within(cases, |cases|, key);
      var a, b :| 0 <= a < |cases| && 0 <= b < |cases[a].steps| && KeyOf(cases, a, b) == key;
    }
  }

  // Each step once, and all of them: as many reports as steps.
  lemma AsManySteps(cases: seq<Case>, steps: seq<StepResult>)
    requires Apart(CaseKey(), cases) && StepsApart(cases)
    requires Once(steps) && AllWithin(cases, |cases|, steps) && Covers(cases, |cases|, steps)
    ensures |steps| == Total(cases).steps
  {
    var all, reported := StepKeys(cases, |cases|), KeysReported(steps);
    StepKeysAre(cases, |cases|);
    StepKeysCount(cases, |cases|);
    assert cases[..|cases|] == cases;
    ReportsMatch(cases, steps);
    MatchesIn(cases, all, reported);
    MatchesIn(cases, reported, all);
    DistinctSize(all);
    DistinctSize(reported);
    assert SetOf(all) == SetOf(reported);
  }

  // ---- the whole -----------------------------------------------------------------------------

  lemma EachFits(shape: Shape, cases: seq<Case>)
    requires Shaped(shape) && CasesOk(shape, cases)
    ensures CasesFit(shape, cases) && forall a :: 0 <= a < |cases| ==> CaseOk(shape, cases[a])
  {
    forall a | 0 <= a < |cases|
      ensures CaseOk(shape, cases[a]) && CaseFits(shape, cases[a])
    {
      EachAt(CaseCheck(shape), cases, a);
      AllFit(shape, cases[a]);
    }
  }

  // Part way through the cases, with the sessions and the assertions.
  predicate Reached(w: World, shape: Shape, cases: seq<Case>, i: nat, p: Progress, log: seq<Event>, lost: seq<Assertion>)
    requires CasesFit(shape, cases) && i <= |cases|
  {
    && Tallied(p, lost) && AllLost(w, shape, cases, i, lost) && AllJudged(w, shape, cases, i, p.steps)
    && ClosedInTurn(log) && MadeBefore(w, log, i) && (p.terminal.Passed? ==> AllOpened(log, i))
  }

  lemma ReachedMore(w: World, shape: Shape, cases: seq<Case>, i: nat, p: Progress, q: Progress, log: seq<Event>,
                    logNow: seq<Event>, news: seq<StepResult>, lost: seq<Assertion>, lostNow: seq<Assertion>)
    requires CasesFit(shape, cases) && i < |cases| && Reached(w, shape, cases, i, p, log, lost)
    requires (p.halted ==> !p.terminal.Passed?) && CaseDone(w, shape, cases[i], i, p, q, news)
    requires logNow == log + if !p.halted && w.create(i) then [Opened(i), Closed(i)] else []
    requires Tallied(q, lostNow) && LostIn(w, shape, cases[i], i, lost, lostNow)
    ensures Reached(w, shape, cases, i + 1, q, logNow, lostNow)
  {
    var turn := if !p.halted && w.create(i) then [Opened(i), Closed(i)] else [];
    LostMore(w, shape, cases, i, lost, lostNow);
    JudgedCase(w, shape, cases, i, p.steps, news);
    TurnsMore(w, log, i, turn);
    if q.terminal.Passed? {
      OpenedMore(log, i, turn);
    }
  }

  lemma OpenedMore(log: seq<Event>, i: nat, turn: seq<Event>)
    requires AllOpened(log, i) && turn == [Opened(i), Closed(i)]
    ensures AllOpened(log + turn, i + 1)
  {
    assert (log + turn)[|log|] == Opened(i);
  }

  // ---- how a run ends -------------------------------------------------------------------------

  function Flat(runs: seq<seq<StepResult>>): seq<StepResult> {
    if runs == [] then [] else Flat(runs[..|runs| - 1]) + runs[|runs| - 1]
  }

  // What is known once these cases are through, from their reports.
  function RunEvidence(w: World, shape: Shape, cases: seq<Case>, stopOnFailure: bool, runs: seq<seq<StepResult>>): Evidence
    requires |runs| <= |cases|
  {
    if runs == [] then NOTHING else
    var n := |runs| - 1;
    CaseEvidence(w, shape, cases[n], n, stopOnFailure, RunEvidence(w, shape, cases, stopOnFailure, runs[..n]), runs[n])
  }

  // The case came up before the run was halted.
  predicate Tried(w: World, shape: Shape, cases: seq<Case>, stopOnFailure: bool, runs: seq<seq<StepResult>>, a: nat)
    requires a <= |runs| <= |cases|
  {
    !RunEvidence(w, shape, cases, stopOnFailure, runs[..a]).halt
  }

  predicate RunsInOrder(cases: seq<Case>, runs: seq<seq<StepResult>>)
    requires |runs| <= |cases|
  {
    forall a :: 0 <= a < |runs| ==> InOrder(cases[a], runs[a])
  }

  // A session was made for the cases that came up and could have one, and no other.
  predicate OpenedWhenTried(w: World, shape: Shape, cases: seq<Case>, stopOnFailure: bool, log: seq<Event>,
                            runs: seq<seq<StepResult>>)
    requires |runs| <= |cases|
  {
    forall a :: 0 <= a < |runs| ==> (Opened(a) in log <==> Tried(w, shape, cases, stopOnFailure, runs, a) && w.create(a))
  }

  // ... and no step is run once the run is halted.
  predicate SkipsAfterHalt(w: World, shape: Shape, cases: seq<Case>, stopOnFailure: bool, runs: seq<seq<StepResult>>)
    requires |runs| <= |cases|
  {
    forall a :: 0 <= a < |runs| ==>
      SkipsOnceHalted(w, a, stopOnFailure, RunEvidence(w, shape, cases, stopOnFailure, runs[..a]), runs[a])
  }

  lemma SkipsAfterMore(w: World, shape: Shape, cases: seq<Case>, stopOnFailure: bool, runs: seq<seq<StepResult>>,
                       news: seq<StepResult>)
    requires |runs| < |cases| && SkipsAfterHalt(w, shape, cases, stopOnFailure, runs)
    requires SkipsOnceHalted(w, |runs|, stopOnFailure, RunEvidence(w, shape, cases, stopOnFailure, runs), news)
    ensures SkipsAfterHalt(w, shape, cases, stopOnFailure, runs + [news])
  {
    var more := runs + [news];
    forall a | 0 <= a < |more|
      ensures SkipsOnceHalted(w, a, stopOnFailure, RunEvidence(w, shape, cases, stopOnFailure, more[..a]), more[a])
    {
      assert more[..a] == runs[..a];
      assert runs[..|runs|] == runs;
    }
  }

  // The reports so far, by case, and the state they call for.
  predicate Recorded(w: World, shape: Shape, cases: seq<Case>, stopOnFailure: bool, p: Progress, log: seq<Event>,
                     runs: seq<seq<StepResult>>)
    requires |runs| <= |cases|
  {
    && p.steps == Flat(runs) && RunsInOrder(cases, runs)
    && Stands(p, RunEvidence(w, shape, cases, stopOnFailure, runs))
    && OpenedWhenTried(w, shape, cases, stopOnFailure, log, runs)
    && SkipsAfterHalt(w, shape, cases, stopOnFailure, runs)
  }

  lemma RunsMore(w: World, shape: Shape, cases: seq<Case>, stopOnFailure: bool, runs: seq<seq<StepResult>>,
                 news: seq<StepResult>)
    requires |runs| < |cases|
    ensures Flat(runs + [news]) == Flat(runs) + news
    ensures RunEvidence(w, shape, cases, stopOnFailure, runs + [news]) ==
            CaseEvidence(w, shape, cases[|runs|], |runs|, stopOnFailure,
                         RunEvidence(w, shape, cases, stopOnFailure, runs), news)
  {
    assert (runs + [news])[..|runs|] == runs;
  }

  lemma OpenedWhenTriedMore(w: World, shape: Shape, cases: seq<Case>, stopOnFailure: bool, log: seq<Event>,
                            logNow: seq<Event>, runs: seq<seq<StepResult>>, news: seq<StepResult>)
    requires |runs| < |cases| && OpenedWhenTried(w, shape, cases, stopOnFailure, log, runs) && MadeBefore(w, log, |runs|)
    requires logNow == log + if Tried(w, shape, cases, stopOnFailure, runs, |runs|) && w.create(|runs|)
                             then [Opened(|runs|), Closed(|runs|)] else []
    ensures OpenedWhenTried(w, shape, cases, stopOnFailure, logNow, runs + [news])
  {
    var more := runs + [news];
    forall a | 0 <= a < |more|
      ensures Opened(a) in logNow <==> Tried(w, shape, cases, stopOnFailure, more, a) && w.create(a)
    {
      assert more[..a] == runs[..a];
      if a < |runs| {
        assert Opened(a) in log <==> Tried(w, shape, cases, stopOnFailure, runs, a) && w.create(a);
      } else {
        assert Opened(a) !in log;
      }
    }
  }

  lemma RecordedMore(w: World, shape: Shape, cases: seq<Case>, stopOnFailure: bool, p: Progress, q: Progress,
                     log: seq<Event>, logNow: seq<Event>, runs: seq<seq<StepResult>>, news: seq<StepResult>)
    requires |runs| < |cases| && Recorded(w, shape, cases, stopOnFailure, p, log, runs) && MadeBefore(w, log, |runs|)
    requires q.steps == p.steps + news && InOrder(cases[|runs|], news)
    requires SkipsOnceHalted(w, |runs|, stopOnFailure, RunEvidence(w, shape, cases, stopOnFailure, runs), news)
    requires Stands(q, CaseEvidence(w, shape, cases[|runs|], |runs|, stopOnFailure,
                                    RunEvidence(w, shape, cases, stopOnFailure, runs), news))
    requires logNow == log + if !p.halted && w.create(|runs|) then [Opened(|runs|), Closed(|runs|)] else []
    ensures Recorded(w, shape, cases, stopOnFailure, q, logNow, runs + [news])
  {
    RunsMore(w, shape, cases, stopOnFailure, runs, news);
    assert runs[..|runs|] == runs;
    OpenedWhenTriedMore(w, shape, cases, stopOnFailure, log, logNow, runs, news);
    SkipsAfterMore(w, shape, cases, stopOnFailure, runs, news);
  }

  // A kind of evidence: none in nothing, and in two together just when in one of them.
  ghost predicate Kind(pick: Evidence -> bool) {
    !pick(NOTHING) && forall x: Evidence, y: Evidence :: pick(x.Join(y)) <==> pick(x) || pick(y)
  }

  ghost predicate SeenIn(w: World, stopOnFailure: bool, i: nat, news: seq<StepResult>, pick: Evidence -> bool) {
    exists j :: 0 <= j < |news| && pick(Seen(w, stopOnFailure, i, j, news[j]))
  }

  ghost predicate SeenAnywhere(w: World, stopOnFailure: bool, runs: seq<seq<StepResult>>, pick: Evidence -> bool) {
    exists a :: 0 <= a < |runs| && SeenIn(w, stopOnFailure, a, runs[a], pick)
  }

  lemma {:induction false} SeenAllIs(w: World, stopOnFailure: bool, i: nat, news: seq<StepResult>, pick: Evidence -> bool)
    requires Kind(pick)
    ensures pick(SeenAll(w, stopOnFailure, i, news)) <==> SeenIn(w, stopOnFailure, i, news, pick)
  {
    if news != [] {
      var n := |news| - 1;
      SeenAllIs(w, stopOnFailure, i, news[..n], pick);
      assert forall j :: 0 <= j < n ==> news[..n][j] == news[j];
    }
  }

  // A case was tried and did not start well.
  predicate AnyTrouble(w: World, shape: Shape, cases: seq<Case>, stopOnFailure: bool, runs: seq<seq<StepResult>>)
    requires |runs| <= |cases|
  {
    exists a :: 0 <= a < |runs| && Tried(w, shape, cases, stopOnFailure, runs, a) && !StartGood(w, shape, cases[a], a)
  }

  lemma TroubleMore(w: World, shape: Shape, cases: seq<Case>, stopOnFailure: bool, runs: seq<seq<StepResult>>, n: nat)
    requires |runs| == n + 1 <= |cases|
    ensures AnyTrouble(w, shape, cases, stopOnFailure, runs) <==>
            || AnyTrouble(w, shape, cases, stopOnFailure, runs[..n])
            || (Tried(w, shape, cases, stopOnFailure, runs, n) && !StartGood(w, shape, cases[n], n))
  {
    forall a | 0 <= a < n
      ensures Tried(w, shape, cases, stopOnFailure, runs, a) <==> Tried(w, shape, cases, stopOnFailure, runs[..n], a)
    {
      assert runs[..n][..a] == runs[..a];
    }
  }

  lemma CaseEvidenceIs(w: World, shape: Shape, c: Case, i: nat, stopOnFailure: bool, before: Evidence,
                       news: seq<StepResult>, pick: Evidence -> bool)
    requires Kind(pick)
    ensures pick(CaseEvidence(w, shape, c, i, stopOnFailure, before, news)) <==>
            || pick(before) || SeenIn(w, stopOnFailure, i, news, pick)
            || (!before.halt && !StartGood(w, shape, c, i) && pick(Trouble(stopOnFailure)))
  {
    SeenAllIs(w, stopOnFailure, i, news, pick);
    var both := before.Join(SeenAll(w, stopOnFailure, i, news));
    assert pick(both) <==> pick(before) || pick(SeenAll(w, stopOnFailure, i, news));
  }

  lemma SeenAnywhereMore(w: World, stopOnFailure: bool, runs: seq<seq<StepResult>>, pick: Evidence -> bool, n: nat)
    requires |runs| == n + 1
    ensures SeenAnywhere(w, stopOnFailure, runs, pick) <==>
            SeenAnywhere(w, stopOnFailure, runs[..n], pick) || SeenIn(w, stopOnFailure, n, runs[n], pick)
  {
    assert forall a :: 0 <= a < n ==> runs[..n][a] == runs[a];
  }

  lemma {:induction false} RunEvidenceIs(w: World, shape: Shape, cases: seq<Case>, stopOnFailure: bool,
                                         runs: seq<seq<StepResult>>, pick: Evidence -> bool)
    requires |runs| <= |cases| && Kind(pick)
    ensures pick(RunEvidence(w, shape, cases, stopOnFailure, runs)) <==>
            || SeenAnywhere(w, stopOnFailure, runs, pick)
            || (AnyTrouble(w, shape, cases, stopOnFailure, runs) && pick(Trouble(stopOnFailure)))
  {
    if runs != [] {
      var n := |runs| - 1;
      RunEvidenceIs(w, shape, cases, stopOnFailure, runs[..n], pick);
      CaseEvidenceIs(w, shape, cases[n], n, stopOnFailure, RunEvidence(w, shape, cases, stopOnFailure, runs[..n]), runs[n], pick);
      TroubleMore(w, shape, cases, stopOnFailure, runs, n);
      SeenAnywhereMore(w, stopOnFailure, runs, pick, n);
    }
  }

  predicate AnyInterrupted(w: World, runs: seq<seq<StepResult>>, signal: Signal) {
    exists a, j :: 0 <= a < |runs| && 0 <= j < |runs[a]| && Interrupted(w, a, j, runs[a][j], signal)
  }

  predicate AnyErred(runs: seq<seq<StepResult>>) {
    exists a, j :: 0 <= a < |runs| && 0 <= j < |runs[a]|
                   && (runs[a][j].state.StepError? || AnyUnread(runs[a][j].assertions))
  }

  predicate AnyUnequal(runs: seq<seq<StepResult>>) {
    exists a, j :: 0 <= a < |runs| && 0 <= j < |runs[a]| && AnyMismatch(runs[a][j].assertions)
  }

  // How a run ends: cancelled or out of time when a step was stopped by that; or else
  // in error when a step was, an expectation could not be read or a case could not be
  // started; or else failed when something read differs from what was expected.
  function EndOf(w: World, shape: Shape, cases: seq<Case>, stopOnFailure: bool, runs: seq<seq<StepResult>>): RunState
    requires |runs| <= |cases|
  {
    if AnyInterrupted(w, runs, Cancel) then Cancelled
    else if AnyInterrupted(w, runs, Deadline) then TimedOut
    else if AnyErred(runs) || AnyTrouble(w, shape, cases, stopOnFailure, runs) then Errored
    else if AnyUnequal(runs) then RunState.Failed
    else Passed
  }

  lemma EndIs(w: World, shape: Shape, cases: seq<Case>, stopOnFailure: bool, runs: seq<seq<StepResult>>)
    requires |runs| <= |cases|
    ensures Verdict(RunEvidence(w, shape, cases, stopOnFailure, runs)) == EndOf(w, shape, cases, stopOnFailure, runs)
  {
    InterruptedIs(w, shape, cases, stopOnFailure, runs);
    ErredIs(w, shape, cases, stopOnFailure, runs);
  }

  // What ends a run early: cancelling, time, and when asked for a mismatch or anything
  // else that went wrong but a read.
  lemma HaltIs(w: World, shape: Shape, cases: seq<Case>, stopOnFailure: bool, runs: seq<seq<StepResult>>)
    requires |runs| <= |cases|
    ensures RunEvidence(w, shape, cases, stopOnFailure, runs).halt <==>
            || AnyInterrupted(w, runs, Cancel) || AnyInterrupted(w, runs, Deadline)
            || (stopOnFailure && (AnyStepError(runs) || AnyTrouble(w, shape, cases, stopOnFailure, runs) || AnyUnequal(runs)))
  {
    var halt := (e: Evidence) => e.halt;
    RunEvidenceIs(w, shape, cases, stopOnFailure, runs, halt);
    forall a | 0 <= a < |runs|
      ensures SeenIn(w, stopOnFailure, a, runs[a], halt) <==>
              exists j :: 0 <= j < |runs[a]|
                          && (Interrupted(w, a, j, runs[a][j], Cancel) || Interrupted(w, a, j, runs[a][j], Deadline)
                              || (stopOnFailure && (runs[a][j].state.StepError? || AnyMismatch(runs[a][j].assertions))))
    {
    }
  }

  predicate AnyStepError(runs: seq<seq<StepResult>>) {
    exists a, j :: 0 <= a < |runs| && 0 <= j < |runs[a]| && runs[a][j].state.StepError?
  }

  lemma InterruptedIs(w: World, shape: Shape, cases: seq<Case>, stopOnFailure: bool, runs: seq<seq<StepResult>>)
    requires |runs| <= |cases|
    ensures RunEvidence(w, shape, cases, stopOnFailure, runs).cancel <==> AnyInterrupted(w, runs, Cancel)
    ensures RunEvidence(w, shape, cases, stopOnFailure, runs).deadline <==> AnyInterrupted(w, runs, Deadline)
  {
    var cancel, deadline := (e: Evidence) => e.cancel, (e: Evidence) => e.deadline;
    RunEvidenceIs(w, shape, cases, stopOnFailure, runs, cancel);
    RunEvidenceIs(w, shape, cases, stopOnFailure, runs, deadline);
    forall a | 0 <= a < |runs|
      ensures SeenIn(w, stopOnFailure, a, runs[a], cancel) <==>
              exists j :: 0 <= j < |runs[a]| && Interrupted(w, a, j, runs[a][j], Cancel)
      ensures SeenIn(w, stopOnFailure, a, runs[a], deadline) <==>
              exists j :: 0 <= j < |runs[a]| && Interrupted(w, a, j, runs[a][j], Deadline)
    {
    }
  }

  lemma ErredIs(w: World, shape: Shape, cases: seq<Case>, stopOnFailure: bool, runs: seq<seq<StepResult>>)
    requires |runs| <= |cases|
    ensures RunEvidence(w, shape, cases, stopOnFailure, runs).error <==>
            AnyErred(runs) || AnyTrouble(w, shape, cases, stopOnFailure, runs)
    ensures RunEvidence(w, shape, cases, stopOnFailure, runs).mismatch <==> AnyUnequal(runs)
  {
    var error, mismatch := (e: Evidence) => e.error, (e: Evidence) => e.mismatch;
    RunEvidenceIs(w, shape, cases, stopOnFailure, runs, error);
    RunEvidenceIs(w, shape, cases, stopOnFailure, runs, mismatch);
    forall a | 0 <= a < |runs|
      ensures SeenIn(w, stopOnFailure, a, runs[a], error) <==>
              exists j :: 0 <= j < |runs[a]| && (runs[a][j].state.StepError? || AnyUnread(runs[a][j].assertions))
      ensures SeenIn(w, stopOnFailure, a, runs[a], mismatch) <==>
              exists j :: 0 <= j < |runs[a]| && AnyMismatch(runs[a][j].assertions)
    {
    }
  }

  // Before the first case.
  method Begin(w: World, shape: Shape, cases: seq<Case>, ghost stopOnFailure: bool)
    returns (p: Progress, log: seq<Event>, ghost lost: seq<Assertion>)
    requires CasesFit(shape, cases)
    ensures CasesDone(w, shape, cases, 0, p) && Reached(w, shape, cases, 0, p, log, lost)
    ensures Recorded(w, shape, cases, stopOnFailure, p, log, [])
  {
    p, log, lost := Progress([], 0, 0, false, Passed), [], [];
    NoneDone(w, shape, cases, p);
    NoneReached(w, shape, cases, p, log, lost);
    NoneRecorded(w, shape, cases, stopOnFailure, p, log);
  }

  lemma NoneDone(w: World, shape: Shape, cases: seq<Case>, p: Progress)
    requires CasesFit(shape, cases) && |p.steps| == 0 && p.terminal.Passed? && !p.halted
    ensures CasesDone(w, shape, cases, 0, p)
  {
  }

  lemma NoneReached(w: World, shape: Shape, cases: seq<Case>, p: Progress, log: seq<Event>, lost: seq<Assertion>)
    requires CasesFit(shape, cases) && |p.steps| == |log| == |lost| == p.passed == p.failed == 0
    ensures Reached(w, shape, cases, 0, p, log, lost)
  {
  }

  lemma NoneRecorded(w: World, shape: Shape, cases: seq<Case>, stopOnFailure: bool, p: Progress, log: seq<Event>)
    requires |p.steps| == 0 && p.terminal.Passed? && !p.halted
    ensures Recorded(w, shape, cases, stopOnFailure, p, log, [])
  {
  }

  method RunCases(w: World, shape: Shape, cases: seq<Case>, stopOnFailure: bool)
    returns (p: Progress, log: seq<Event>, ghost lost: seq<Assertion>, ghost runs: seq<seq<StepResult>>)
    requires Shaped(shape) && CasesOk(shape, cases)
    ensures CasesFit(shape, cases) && CasesDone(w, shape, cases, |cases|, p)
    ensures Reached(w, shape, cases, |cases|, p, log, lost)
    ensures |runs| == |cases| && Recorded(w, shape, cases, stopOnFailure, p, log, runs)
  {
    EachFits(shape, cases);
    p, log, lost := Begin(w, shape, cases, stopOnFailure);
    runs := [];
    for i := 0 to |cases|
      invariant CasesDone(w, shape, cases, i, p)
      invariant Reached(w, shape, cases, i, p, log, lost)
      invariant |runs| == i && Recorded(w, shape, cases, stopOnFailure, p, log, runs)
    {
      p, log, lost, runs := OneMore(w, shape, cases, i, stopOnFailure, p, log, lost, runs);
    }
  }

  method OneMore(w: World, shape: Shape, cases: seq<Case>, i: nat, stopOnFailure: bool, p: Progress, log: seq<Event>,
                 ghost lost: seq<Assertion>, ghost runs: seq<seq<StepResult>>)
    returns (q: Progress, logNow: seq<Event>, ghost lostNow: seq<Assertion>, ghost runsNow: seq<seq<StepResult>>)
    requires Shaped(shape) && CasesOk(shape, cases) && CasesFit(shape, cases) && i < |cases|
    requires CasesDone(w, shape, cases, i, p) && Reached(w, shape, cases, i, p, log, lost)
    requires |runs| == i && Recorded(w, shape, cases, stopOnFailure, p, log, runs)
    ensures CasesDone(w, shape, cases, i + 1, q) && Reached(w, shape, cases, i + 1, q, logNow, lostNow)
    ensures |runsNow| == i + 1 && Recorded(w, shape, cases, stopOnFailure, q, logNow, runsNow)
  {
    EachFits(shape, cases);
    NotYet(cases, i, p.steps);
    ghost var news;
    ghost var seen := RunEvidence(w, shape, cases, stopOnFailure, runs);
    q, logNow, news, lostNow := RunCase(w, shape, cases[i], i, stopOnFailure, p, log, lost, seen);
    CasesMore(w, shape, cases, i, p, q, news);
    ReachedMore(w, shape, cases, i, p, q, log, logNow, news, lost, lostNow);
    RecordedMore(w, shape, cases, stopOnFailure, p, q, log, logNow, runs, news);
    runsNow := runs + [news];
  }

  // Every case on its own session, each destroyed once and before the next is made.
  // However it goes, each step of each case is reported exactly once; the counters
  // are those of the assertions judged, of which only those before a read that throws
  // are in no report; the run has passed exactly when everything went well, and then
  // every step passed, its actions all done and its expectations all compared and
  // equal. `runs` are the reports by case, without those of the last sweep.
  method ExecuteVerification(w: World, shape: Shape, cases: seq<Case>, stopOnFailure: bool)
    returns (summary: Summary, steps: seq<StepResult>, log: seq<Event>, ghost lost: seq<Assertion>,
             ghost runs: seq<seq<StepResult>>)
    requires Shaped(shape) && Accepted(shape, cases)
    ensures Once(steps) && AllWithin(cases, |cases|, steps) && Covers(cases, |cases|, steps)
    ensures ClosedInTurn(log) && MadeBefore(w, log, |cases|)
    ensures CasesFit(shape, cases) && (summary.state.Passed? <==> AllGood(w, shape, cases, |cases|))
    ensures summary.state.Passed? ==> AllFull(shape, cases, |cases|, steps) && AllOpened(log, |cases|) && lost == []
    ensures AllJudged(w, shape, cases, |cases|, steps) && AllLost(w, shape, cases, |cases|, lost)
    ensures forall r <- steps :: CorrectOne(w, shape, cases, r)
    ensures |runs| == |cases| && RunsInOrder(cases, runs) && Padded(Flat(runs), steps)
    ensures summary.state == EndOf(w, shape, cases, stopOnFailure, runs)
    ensures OpenedWhenTried(w, shape, cases, stopOnFailure, log, runs)
    ensures SkipsAfterHalt(w, shape, cases, stopOnFailure, runs)
    ensures summary.passedAssertions == PassedOf(steps) + PassedIn(lost)
    ensures summary.assertions == CountOf(steps) + |lost|
    ensures summary.failedAssertions == summary.assertions - summary.passedAssertions
    ensures summary.cases == |cases| && summary.steps == |steps| == Total(cases).steps
    ensures summary.notRunSteps == NotRunOf(steps)
  {
    var p;
    p, log, lost, runs := RunCases(w, shape, cases, stopOnFailure);
    steps := Sweep(cases, p.steps);
    JudgedPadded(w, shape, cases, p.steps, steps);
    EachCorrect(w, shape, cases, steps);
    EndIs(w, shape, cases, stopOnFailure, runs);
    if p.terminal.Passed? {
      GoodLosesNone(w, shape, cases, lost);
    }
    EachFits(shape, cases);
    assert StepsApart(cases);
    AsManySteps(cases, steps);
    summary := Summary(p.terminal, |cases|, |steps|, p.passed + p.failed, p.passed, p.failed, NotRunOf(steps));
  }

  function NotRunOf(steps: seq<StepResult>): nat {
    if steps == [] then 0 else NotRunOf(steps[1..]) + if steps[0].state.NotRun? then 1 else 0
  }
}
