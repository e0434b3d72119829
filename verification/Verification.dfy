// Validating a verification request
// (site/src/scripts/playground-verification.ts, and what it uses of
// site/src/scripts/playground-simulation.ts).
module Verification {
  import opened Numbers
  import opened Wrappers
  import P = SimProtocol
  import opened SimSession
  import Rom = RomImage

  datatype Action =
    | DrivePin(pin: string, value: string, defined: Option<string>)
    | PokeCell(memory: string, address: string, value: string, defined: Option<string>)
    | ClearMemory(memory: string)
    | LoadMemory(memory: string, hex: string)
    | ResetSession

  datatype Expectation =
    | ExpectPin(name: string, value: string, defined: Option<string>)
    | ExpectCell(name: string, address: string, value: string, defined: Option<string>)

  datatype Step = Step(id: string, actions: seq<Action>, expects: seq<Expectation>)

  datatype ImageOf = ImageOf(memory: string, hex: string)

  datatype Case = Case(id: string, low: bool, images: seq<ImageOf>, steps: seq<Step>)

  datatype Shape = Shape(pins: seq<Pin>, memories: seq<Rom.Memory>)

  // ---- strict literals -------------------------------------------------------------------

  predicate LowerHex(c: char) {
    '0' <= c <= '9' || 'a' <= c <= 'f'
  }

  // `0x`, then `0` or digits that do not begin with it.
  predicate StrictHex(s: string) {
    && |s| >= 3 && s[0] == '0' && s[1] == 'x'
    && (|s| > 3 ==> s[2] != '0')
    && forall i :: 2 <= i < |s| ==> LowerHex(s[i])
  }

  function ParseHex(s: string): Option<nat> {
    if StrictHex(s) then Some(ValueOf(s[2..], 16)) else None
  }

  function ParseHexWithin(s: string, width: nat): Option<nat> {
    match ParseHex(s)
    case None => None
    case Some(v) => if v <= Mask(width) then Some(v) else None
  }

  lemma {:induction false} SpelledStrictly(v: nat)
    ensures var s := Spell(v, 16);
            (forall i :: 0 <= i < |s| ==> LowerHex(s[i])) && (|s| > 1 ==> s[0] != '0') && (v > 0 ==> s[0] != '0')
  {
    if v >= 16 {
      SpellSteps(v, 16);
      SpelledStrictly(v / 16);
    }
  }

  lemma LowerDigit(c: char)
    requires LowerHex(c)
    ensures DigitValue(c) < 16 && DigitChar(DigitValue(c)) == c && (c != '0' ==> DigitValue(c) > 0)
  {
  }

  lemma SpellSnoc(n: nat, c: char)
    requires LowerHex(c) && n > 0
    ensures Spell(n * 16 + DigitValue(c), 16) == Spell(n, 16) + [c]
  {
    LowerDigit(c);
    SpellMore(n, DigitValue(c));
  }

  lemma SpellMore(n: nat, d: nat)
    requires d < 16 && n > 0
    ensures Spell(n * 16 + d, 16) == Spell(n, 16) + [DigitChar(d)]
  {
    var v := n * 16 + d;
    assert v / 16 == n && v % 16 == d;
    SpellSteps(v, 16);
  }

  lemma {:induction false} SpellOfValue(s: string)
    requires s != "" && (|s| > 1 ==> s[0] != '0') && forall i :: 0 <= i < |s| ==> LowerHex(s[i])
    ensures Spell(ValueOf(s, 16), 16) == s
    ensures s[0] != '0' ==> ValueOf(s, 16) > 0
  {
    var front, last := s[..|s| - 1], s[|s| - 1];
    LowerDigit(last);
    ValueSnoc(front, last, 16);
    assert front + [last] == s;
    if |s| > 1 {
      assert front[0] == s[0];
      SpellOfValue(front);
      SpellSnoc(ValueOf(front, 16), last);
    }
  }

  // The literals accepted are exactly the canonical spellings, so two that are
  // spelled differently are different values.
  lemma StrictIsCanonical(s: string, v: nat)
    ensures ParseHex(s) == Some(v) <==> s == P.WriteHex(v)
  {
    if ParseHex(s) == Some(v) {
      SpellOfValue(s[2..]);
      assert s == "0x" + s[2..];
    }
    if s == P.WriteHex(v) {
      SpelledStrictly(v);
      SpellValue(v, 16);
      assert s[2..] == Spell(v, 16);
      assert forall i :: 2 <= i < |s| ==> s[i] == Spell(v, 16)[i - 2];
    }
  }

  // With a width the literals are those of the numbers that fit it.
  lemma WithinIsCanonical(s: string, width: nat, v: nat)
    ensures ParseHexWithin(s, width) == Some(v) <==> s == P.WriteHex(v) && v < Pow(2, width)
  {
    StrictIsCanonical(s, v);
  }

  // ---- what is accepted --------------------------------------------------------------------

  predicate Control(c: char) {
    c as int <= 0x1f || 0x7f <= c as int <= 0x9f
  }

  predicate ValidId(id: string) {
    0 < |id| <= 80 && forall i :: 0 <= i < |id| ==> !Control(id[i])
  }

  function PinNamed(pins: seq<Pin>, name: string): (r: Option<Pin>)
    ensures r.Some? ==> r.value in pins && r.value.name == name
  {
    if pins == [] then None else if pins[0].name == name then Some(pins[0]) else PinNamed(pins[1..], name)
  }

  function MemoryNamed(memories: seq<Rom.Memory>, name: string): (r: Option<Rom.Memory>)
    ensures r.Some? ==> r.value in memories && r.value.name == name
  {
    if memories == [] then None
    else if memories[0].name == name then Some(memories[0])
    else MemoryNamed(memories[1..], name)
  }

  predicate Shaped(shape: Shape) {
    forall mem <- shape.memories :: mem.Shaped()
  }

  // Lower-case pairs of digits and nothing between them.
  predicate WholeBytes(hex: string)
    ensures WholeBytes(hex) ==> Rom.WholeHex(hex)
  {
    |hex| % 2 == 0 && forall i :: 0 <= i < |hex| ==> LowerHex(hex[i])
  }

  // The bytes an image text is decoded to, where the parser accepts it.
  function ImageBytes(hex: string, mem: Rom.Memory): Option<Rom.Bytes>
    requires mem.Shaped()
  {
    if WholeBytes(hex) && Rom.Validate(Rom.PairBytes(hex), mem).Accepted? then Some(Rom.PairBytes(hex)) else None
  }

  predicate ImageFits(hex: string, mem: Rom.Memory)
    requires mem.Shaped()
  {
    ImageBytes(hex, mem).Some?
  }

  // Decoded here pair by pair, an image is what the parser reads it as.
  lemma DecodedIsParsed(hex: string, mem: Rom.Memory)
    requires mem.Shaped() && WholeBytes(hex)
    ensures match Rom.Parse(hex, mem)
            case Refused(_) => ImageBytes(hex, mem) == None
            case Accepted(image) => ImageBytes(hex, mem) == Some(image.bytes)
  {
    Rom.PairsScan(hex);
  }

  method DecodeImage(hex: string, mem: Rom.Memory) returns (r: Option<Rom.Bytes>)
    requires mem.Shaped()
    ensures r == ImageBytes(hex, mem)
  {
    if !WholeBytes(hex) {
      return None;
    }
    var bytes: Rom.Bytes := [];
    for i := 0 to |hex| / 2
      invariant bytes == Rom.PairBytes(hex)[..i]
    {
      bytes := bytes + [Rom.PairAt(hex, i)];
    }
    assert Rom.PairBytes(hex)[..|hex| / 2] == Rom.PairBytes(hex);
    DecodedIsParsed(hex, mem);
    var parsed := Rom.ParseRomImage(hex, mem);
    return if parsed.Accepted? then Some(bytes) else None;
  }

  predicate Value(text: string, defined: Option<string>, width: nat) {
    ParseHexWithin(text, width).Some? && (defined.Some? ==> ParseHexWithin(defined.value, width).Some?)
  }

  predicate Address(text: string, mem: Rom.Memory) {
    ParseHex(text).Some? && ParseHex(text).value < mem.Capacity()
  }

  predicate ActionOk(shape: Shape, a: Action)
    requires Shaped(shape)
  {
    match a
    case DrivePin(pin, value, defined) =>
      var target := PinNamed(shape.pins, pin);
      target.Some? && target.value.kind.In? && Value(value, defined, target.value.width)
    case PokeCell(memory, address, value, defined) =>
      var target := MemoryNamed(shape.memories, memory);
      target.Some? && Address(address, target.value) && Value(value, defined, target.value.width)
    case ClearMemory(memory) => MemoryNamed(shape.memories, memory).Some?
    case LoadMemory(memory, hex) =>
      var target := MemoryNamed(shape.memories, memory);
      target.Some? && ImageFits(hex, target.value)
    case ResetSession => true
  }

  function WidthOf(shape: Shape, e: Expectation): Option<nat> {
    match e
    case ExpectPin(name, _, _) =>
      var target := PinNamed(shape.pins, name);
      if target.Some? then Some(target.value.width) else None
    case ExpectCell(name, _, _, _) =>
      var target := MemoryNamed(shape.memories, name);
      if target.Some? then Some(target.value.width) else None
  }

  predicate ExpectOk(shape: Shape, e: Expectation) {
    && WidthOf(shape, e).Some? && Value(e.value, e.defined, WidthOf(shape, e).value)
    && (e.ExpectCell? ==> Address(e.address, MemoryNamed(shape.memories, e.name).value))
  }

  predicate ImageOk(shape: Shape, image: ImageOf)
    requires Shaped(shape)
  {
    var target := MemoryNamed(shape.memories, image.memory);
    target.Some? && ImageFits(image.hex, target.value)
  }

  predicate Each<T>(ok: T -> bool, s: seq<T>) {
    s == [] || (Each(ok, s[..|s| - 1]) && ok(s[|s| - 1]))
  }

  lemma EachStep<T>(ok: T -> bool, s: seq<T>, i: nat)
    requires i < |s|
    ensures Each(ok, s[..i + 1]) <==> Each(ok, s[..i]) && ok(s[i])
  {
    assert s[..i + 1][..i] == s[..i];
  }

  lemma {:induction false} EachPrefix<T>(ok: T -> bool, s: seq<T>, i: nat)
    requires i <= |s| && Each(ok, s)
    ensures Each(ok, s[..i])
    decreases |s|
  {
    if i < |s| {
      var front := s[..|s| - 1];
      EachPrefix(ok, front, i);
      assert front[..i] == s[..i];
    } else {
      assert s[..i] == s;
    }
  }

  lemma {:induction false} EachAt<T>(ok: T -> bool, s: seq<T>, i: nat)
    requires i < |s| && Each(ok, s)
    ensures ok(s[i])
  {
    EachPrefix(ok, s, i + 1);
    EachStep(ok, s, i);
  }

  lemma EachFails<T>(ok: T -> bool, s: seq<T>, i: nat)
    requires i < |s| && !ok(s[i])
    ensures !Each(ok, s)
  {
    if Each(ok, s) {
      EachAt(ok, s, i);
    }
  }

  // The names given to these, and that no name is given twice.
  function Keys<T>(key: T -> string, s: seq<T>): set<string> {
    if s == [] then {} else Keys(key, s[..|s| - 1]) + {key(s[|s| - 1])}
  }

  predicate Apart<T>(key: T -> string, s: seq<T>) {
    s == [] || (Apart(key, s[..|s| - 1]) && key(s[|s| - 1]) !in Keys(key, s[..|s| - 1]))
  }

  lemma ApartStep<T>(key: T -> string, s: seq<T>, i: nat)
    requires i < |s|
    ensures Apart(key, s[..i + 1]) <==> Apart(key, s[..i]) && key(s[i]) !in Keys(key, s[..i])
    ensures Keys(key, s[..i + 1]) == Keys(key, s[..i]) + {key(s[i])}
  {
    assert s[..i + 1][..i] == s[..i];
  }

  lemma {:induction false} KeysAre<T>(key: T -> string, s: seq<T>, k: string)
    ensures k in Keys(key, s) <==> exists i :: 0 <= i < |s| && key(s[i]) == k
  {
    if s != [] {
      KeysAre(key, s[..|s| - 1], k);
      if i :| 0 <= i < |s| && key(s[i]) == k {
        assert i < |s| - 1 ==> s[..|s| - 1][i] == s[i];
      }
    }
  }

  // Pairwise different names.
  lemma {:induction false} ApartMeans<T>(key: T -> string, s: seq<T>)
    ensures Apart(key, s) <==> forall i, j :: 0 <= i < j < |s| ==> key(s[i]) != key(s[j])
  {
    if s != [] {
      var front := s[..|s| - 1];
      ApartMeans(key, front);
      KeysAre(key, front, key(s[|s| - 1]));
      assert forall i :: 0 <= i < |front| ==> front[i] == s[i];
    }
  }

  lemma {:induction false} ApartFails<T>(key: T -> string, s: seq<T>, i: nat)
    requires i < |s| && key(s[i]) in Keys(key, s[..i])
    ensures !Apart(key, s)
    decreases |s|
  {
    if i < |s| - 1 {
      var front := s[..|s| - 1];
      assert front[..i] == s[..i];
      ApartFails(key, front, i);
    }
  }

  function ImageKey(): ImageOf -> string {
    (image: ImageOf) => image.memory
  }

  function StepKey(): Step -> string {
    (s: Step) => s.id
  }

  function CaseKey(): Case -> string {
    (c: Case) => c.id
  }

  function ImageCheck(shape: Shape): ImageOf -> bool {
    image => Shaped(shape) && ImageOk(shape, image)
  }

  predicate ImagesOk(shape: Shape, images: seq<ImageOf>)
    requires Shaped(shape)
  {
    && |images| <= 16 && Each(ImageCheck(shape), images)
    && Apart(ImageKey(), images)
  }

  predicate StepOk(shape: Shape, s: Step)
    requires Shaped(shape)
  {
    && ValidId(s.id) && |s.actions| + |s.expects| > 0
    && (forall i :: 0 <= i < |s.actions| ==> ActionOk(shape, s.actions[i]))
    && (forall i :: 0 <= i < |s.expects| ==> ExpectOk(shape, s.expects[i]))
  }

  function StepCheck(shape: Shape): Step -> bool {
    s => Shaped(shape) && StepOk(shape, s)
  }

  predicate StepsOk(shape: Shape, steps: seq<Step>)
    requires Shaped(shape)
  {
    && Each(StepCheck(shape), steps)
    && Apart(StepKey(), steps)
  }

  predicate CaseOk(shape: Shape, c: Case)
    requires Shaped(shape)
  {
    ValidId(c.id) && ImagesOk(shape, c.images) && StepsOk(shape, c.steps)
  }

  function CaseCheck(shape: Shape): Case -> bool {
    c => Shaped(shape) && CaseOk(shape, c)
  }

  predicate CasesOk(shape: Shape, cases: seq<Case>)
    requires Shaped(shape)
  {
    && Each(CaseCheck(shape), cases)
    && Apart(CaseKey(), cases)
  }

  datatype Tally = Tally(steps: nat, actions: nat, assertions: nat)

  function Count(steps: seq<Step>): Tally {
    if steps == [] then Tally(0, 0, 0) else
    var t := Count(steps[..|steps| - 1]);
    var s := steps[|steps| - 1];
    Tally(t.steps + 1, t.actions + |s.actions|, t.assertions + |s.expects|)
  }

  function Total(cases: seq<Case>): Tally {
    if cases == [] then Tally(0, 0, 0) else
    Plus(Total(cases[..|cases| - 1]), Count(cases[|cases| - 1].steps))
  }

  function Plus(a: Tally, b: Tally): Tally {
    Tally(a.steps + b.steps, a.actions + b.actions, a.assertions + b.assertions)
  }

  predicate Accepted(shape: Shape, cases: seq<Case>)
    requires Shaped(shape)
  {
    && 1 <= |cases| <= 128 && CasesOk(shape, cases)
    && 1 <= Total(cases).steps <= 512 && Total(cases).actions <= 2048 && Total(cases).assertions <= 2048
  }

  datatype Verdict = Valid(caseCount: nat, stepCount: nat, assertionCount: nat) | Invalid(problem: Problem)

  // The source's messages for well-typed requests, one for one.
  datatype Problem =
    | CaseCount | MalformedCase | TooManyImages | BadImage | MalformedStep
    | BadDrive | BadPoke | BadClear | BadLoad | BadExpectation | BadExpectationAddress | OverLimits

  // ---- the first problem -----------------------------------------------------------------------

  function ImagesProblem(shape: Shape, images: seq<ImageOf>): Option<Problem>
    requires Shaped(shape)
  {
    if |images| > 16 then Some(TooManyImages)
    else if !ImagesOk(shape, images) then Some(BadImage)
    else None
  }

  // Nothing can be wrong with a reset.
  function ActionProblem(shape: Shape, a: Action): (problem: Option<Problem>)
    requires Shaped(shape)
    ensures problem.None? <==> ActionOk(shape, a)
  {
    if ActionOk(shape, a) then None else
    match a
    case DrivePin(_, _, _) => Some(BadDrive)
    case PokeCell(_, _, _, _) => Some(BadPoke)
    case ClearMemory(_) => Some(BadClear)
    case LoadMemory(_, _) => Some(BadLoad)
  }

  // A cell's address is looked at last.
  function ExpectProblem(shape: Shape, e: Expectation): (problem: Option<Problem>)
    ensures problem.None? <==> ExpectOk(shape, e)
  {
    if WidthOf(shape, e).None? || !Value(e.value, e.defined, WidthOf(shape, e).value) then Some(BadExpectation)
    else if e.ExpectCell? && !Address(e.address, MemoryNamed(shape.memories, e.name).value) then Some(BadExpectationAddress)
    else None
  }

  // The problem of the first of these that has one.
  function FirstIn<T>(problem: T -> Option<Problem>, s: seq<T>): Option<Problem> {
    if s == [] then None
    else if problem(s[0]).Some? then problem(s[0])
    else FirstIn(problem, s[1..])
  }

  function ActionFault(shape: Shape): Action -> Option<Problem> {
    a => if Shaped(shape) then ActionProblem(shape, a) else None
  }

  function ExpectFault(shape: Shape): Expectation -> Option<Problem> {
    e => ExpectProblem(shape, e)
  }

  // Actions are looked at before expectations.
  function StepProblem(shape: Shape, s: Step): Option<Problem>
    requires Shaped(shape)
  {
    if !ValidId(s.id) || |s.actions| + |s.expects| == 0 then Some(MalformedStep)
    else
      var action := FirstIn(ActionFault(shape), s.actions);
      if action.Some? then action else FirstIn(ExpectFault(shape), s.expects)
  }

  // The problem of the first of these that has one, or that repeats a name.
  function FirstOf<T>(key: T -> string, repeated: Problem, problem: T -> Option<Problem>, s: seq<T>): Option<Problem> {
    if s == [] then None else
    var front, last := s[..|s| - 1], s[|s| - 1];
    var before := FirstOf(key, repeated, problem, front);
    if before.Some? then before
    else if key(last) in Keys(key, front) then Some(repeated)
    else problem(last)
  }

  lemma FirstOfStep<T>(key: T -> string, repeated: Problem, problem: T -> Option<Problem>, s: seq<T>, i: nat)
    requires i < |s| && FirstOf(key, repeated, problem, s[..i]).None?
    ensures FirstOf(key, repeated, problem, s[..i + 1]) ==
            if key(s[i]) in Keys(key, s[..i]) then Some(repeated) else problem(s[i])
  {
    assert s[..i + 1][..i] == s[..i];
  }

  // What was wrong with the beginning is what is wrong with the whole.
  lemma {:induction false} FirstOfStands<T>(key: T -> string, repeated: Problem, problem: T -> Option<Problem>, s: seq<T>, i: nat)
    requires i <= |s| && FirstOf(key, repeated, problem, s[..i]).Some?
    ensures FirstOf(key, repeated, problem, s) == FirstOf(key, repeated, problem, s[..i])
    decreases |s|
  {
    if i < |s| {
      var front := s[..|s| - 1];
      assert front[..i] == s[..i];
      FirstOfStands(key, repeated, problem, front, i);
    } else {
      assert s[..i] == s;
    }
  }

  function StepFault(shape: Shape): Step -> Option<Problem> {
    s => if Shaped(shape) then StepProblem(shape, s) else None
  }

  function StepsProblem(shape: Shape, steps: seq<Step>): Option<Problem> {
    FirstOf(StepKey(), MalformedStep, StepFault(shape), steps)
  }

  // Its own name, then its images, then its steps.
  function CaseProblem(shape: Shape, c: Case): Option<Problem>
    requires Shaped(shape)
  {
    if !ValidId(c.id) then Some(MalformedCase)
    else if ImagesProblem(shape, c.images).Some? then ImagesProblem(shape, c.images)
    else StepsProblem(shape, c.steps)
  }

  function CaseFault(shape: Shape): Case -> Option<Problem> {
    c => if Shaped(shape) then CaseProblem(shape, c) else None
  }

  function CasesProblem(shape: Shape, cases: seq<Case>): Option<Problem> {
    FirstOf(CaseKey(), MalformedCase, CaseFault(shape), cases)
  }

  // ---- validating ----------------------------------------------------------------------------

  method CheckImages(shape: Shape, images: seq<ImageOf>) returns (problem: Option<Problem>)
    requires Shaped(shape)
    ensures problem.None? <==> ImagesOk(shape, images)
    ensures problem == ImagesProblem(shape, images)
  {
    if |images| > 16 {
      return Some(TooManyImages);
    }
    var names: set<string> := {};
    for i := 0 to |images|
      invariant Each(ImageCheck(shape), images[..i])
      invariant names == Keys(ImageKey(), images[..i]) && Apart(ImageKey(), images[..i])
    {
      var image := images[i];
      ApartStep(ImageKey(), images, i);
      if image.memory in names {
        ApartFails(ImageKey(), images, i);
        return Some(BadImage);
      }
      EachStep(ImageCheck(shape), images, i);
      var target, fits := MemoryNamed(shape.memories, image.memory), false;
      if target.Some? {
        var decoded := DecodeImage(image.hex, target.value);
        fits := decoded.Some?;
      }
      if !fits {
        EachFails(ImageCheck(shape), images, i);
        return Some(BadImage);
      }
      names := names + {image.memory};
    }
    assert images[..|images|] == images;
    return None;
  }

  method CheckStep(shape: Shape, s: Step) returns (problem: Option<Problem>)
    requires Shaped(shape)
    ensures problem.None? <==> StepOk(shape, s)
    ensures problem == StepProblem(shape, s)
  {
    if !ValidId(s.id) || |s.actions| + |s.expects| == 0 {
      return Some(MalformedStep);
    }
    problem := CheckActions(shape, s.actions);
    if problem.None? {
      problem := CheckExpects(shape, s.expects);
    }
  }

  method CheckActions(shape: Shape, actions: seq<Action>) returns (problem: Option<Problem>)
    requires Shaped(shape)
    ensures problem.None? <==> forall i :: 0 <= i < |actions| ==> ActionOk(shape, actions[i])
    ensures problem == FirstIn(ActionFault(shape), actions)
  {
    assert actions[0..] == actions;
    for i := 0 to |actions|
      invariant forall k :: 0 <= k < i ==> ActionOk(shape, actions[k])
      invariant FirstIn(ActionFault(shape), actions) == FirstIn(ActionFault(shape), actions[i..])
    {
      assert actions[i..][0] == actions[i] && actions[i..][1..] == actions[i + 1..];
      problem := ActionProblem(shape, actions[i]);
      if problem.Some? {
        return;
      }
    }
    problem := None;
  }

  method CheckExpects(shape: Shape, expects: seq<Expectation>) returns (problem: Option<Problem>)
    ensures problem.None? <==> forall i :: 0 <= i < |expects| ==> ExpectOk(shape, expects[i])
    ensures problem == FirstIn(ExpectFault(shape), expects)
  {
    assert expects[0..] == expects;
    for i := 0 to |expects|
      invariant forall k :: 0 <= k < i ==> ExpectOk(shape, expects[k])
      invariant FirstIn(ExpectFault(shape), expects) == FirstIn(ExpectFault(shape), expects[i..])
    {
      assert expects[i..][0] == expects[i] && expects[i..][1..] == expects[i + 1..];
      problem := ExpectProblem(shape, expects[i]);
      if problem.Some? {
        return;
      }
    }
    problem := None;
  }

  lemma CountStep(steps: seq<Step>, i: nat)
    requires i < |steps|
    ensures Count(steps[..i + 1]) ==
            Plus(Count(steps[..i]), Tally(1, |steps[i].actions|, |steps[i].expects|))
  {
    assert steps[..i + 1][..i] == steps[..i];
  }

  lemma TotalStep(cases: seq<Case>, i: nat)
    requires i < |cases|
    ensures Total(cases[..i + 1]) == Plus(Total(cases[..i]), Count(cases[i].steps))
  {
    assert cases[..i + 1][..i] == cases[..i];
  }

  method CheckSteps(shape: Shape, steps: seq<Step>) returns (problem: Option<Problem>, tally: Tally)
    requires Shaped(shape)
    ensures problem.None? <==> StepsOk(shape, steps)
    ensures problem == StepsProblem(shape, steps)
    ensures problem.None? ==> tally == Count(steps)
  {
    tally := Tally(0, 0, 0);
    var ids: set<string> := {};
    for i := 0 to |steps|
      invariant tally == Count(steps[..i]) && StepsProblem(shape, steps[..i]).None?
      invariant Each(StepCheck(shape), steps[..i])
      invariant ids == Keys(StepKey(), steps[..i]) && Apart(StepKey(), steps[..i])
    {
      var s := steps[i];
      CountStep(steps, i);
      EachStep(StepCheck(shape), steps, i);
      ApartStep(StepKey(), steps, i);
      FirstOfStep(StepKey(), MalformedStep, StepFault(shape), steps, i);
      if s.id in ids {
        ApartFails(StepKey(), steps, i);
        FirstOfStands(StepKey(), MalformedStep, StepFault(shape), steps, i + 1);
        return Some(MalformedStep), tally;
      }
      ids := ids + {s.id};
      tally := Tally(tally.steps + 1, tally.actions + |s.actions|, tally.assertions + |s.expects|);
      problem := CheckStep(shape, s);
      if problem.Some? {
        EachFails(StepCheck(shape), steps, i);
        FirstOfStands(StepKey(), MalformedStep, StepFault(shape), steps, i + 1);
        return problem, tally;
      }
    }
    assert steps[..|steps|] == steps;
    return None, tally;
  }

  method CheckCase(shape: Shape, c: Case) returns (problem: Option<Problem>, tally: Tally)
    requires Shaped(shape)
    ensures problem.None? <==> CaseOk(shape, c)
    ensures problem == CaseProblem(shape, c)
    ensures problem.None? ==> tally == Count(c.steps)
  {
    tally := Tally(0, 0, 0);
    if !ValidId(c.id) {
      return Some(MalformedCase), tally;
    }
    problem := CheckImages(shape, c.images);
    if problem.None? {
      problem, tally := CheckSteps(shape, c.steps);
    }
  }

  method CheckCases(shape: Shape, cases: seq<Case>) returns (problem: Option<Problem>, tally: Tally)
    requires Shaped(shape)
    ensures problem.None? <==> CasesOk(shape, cases)
    ensures problem == CasesProblem(shape, cases)
    ensures problem.None? ==> tally == Total(cases)
  {
    tally := Tally(0, 0, 0);
    var ids: set<string> := {};
    for i := 0 to |cases|
      invariant tally == Total(cases[..i]) && CasesProblem(shape, cases[..i]).None?
      invariant Each(CaseCheck(shape), cases[..i])
      invariant ids == Keys(CaseKey(), cases[..i]) && Apart(CaseKey(), cases[..i])
    {
      TotalStep(cases, i);
      EachStep(CaseCheck(shape), cases, i);
      ApartStep(CaseKey(), cases, i);
      FirstOfStep(CaseKey(), MalformedCase, CaseFault(shape), cases, i);
      if cases[i].id in ids {
        ApartFails(CaseKey(), cases, i);
        FirstOfStands(CaseKey(), MalformedCase, CaseFault(shape), cases, i + 1);
        return Some(MalformedCase), tally;
      }
      var counted;
      problem, counted := CheckCase(shape, cases[i]);
      if problem.Some? {
        EachFails(CaseCheck(shape), cases, i);
        FirstOfStands(CaseKey(), MalformedCase, CaseFault(shape), cases, i + 1);
        return problem, tally;
      }
      ids := ids + {cases[i].id};
      tally := Plus(tally, counted);
    }
    assert cases[..|cases|] == cases;
    return None, tally;
  }

  method ValidateVerification(cases: seq<Case>, shape: Shape) returns (r: Verdict)
    requires Shaped(shape)
    ensures r.Valid? <==> Accepted(shape, cases)
    ensures r.Valid? ==> r == Valid(|cases|, Total(cases).steps, Total(cases).assertions)
    ensures r.Invalid? ==>
              r.problem == if |cases| < 1 || |cases| > 128 then CaseCount
                           else if CasesProblem(shape, cases).Some? then CasesProblem(shape, cases).value
                           else OverLimits
  {
    if |cases| < 1 || |cases| > 128 {
      return Invalid(CaseCount);
    }
    var problem, tally := CheckCases(shape, cases);
    if problem.Some? {
      return Invalid(problem.value);
    }
    if tally.steps < 1 || tally.steps > 512 || tally.actions > 2048 || tally.assertions > 2048 {
      return Invalid(OverLimits);
    }
    return Valid(|cases|, tally.steps, tally.assertions);
  }
}
