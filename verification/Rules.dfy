// The rules a verification request must keep, said by themselves
// (site/src/scripts/playground-verification.ts).
module Rules {
  import opened Numbers
  import opened Wrappers
  import P = SimProtocol
  import opened SimSession
  import opened Verification
  import Rom = RomImage
  import Text = RomText

  // ---- names -------------------------------------------------------------------------------

  predicate PinAt(pins: seq<Pin>, name: string, k: int) {
    0 <= k < |pins| && pins[k].name == name && forall j :: 0 <= j < k ==> pins[j].name != name
  }

  predicate MemoryAt(memories: seq<Rom.Memory>, name: string, k: int) {
    0 <= k < |memories| && memories[k].name == name && forall j :: 0 <= j < k ==> memories[j].name != name
  }

  lemma {:induction false} PinNamedAt(pins: seq<Pin>, name: string)
    ensures match PinNamed(pins, name)
            case None => forall k :: !PinAt(pins, name, k)
            case Some(p) => exists k :: PinAt(pins, name, k) && pins[k] == p
    ensures forall k :: PinAt(pins, name, k) ==> PinNamed(pins, name) == Some(pins[k])
  {
    if pins != [] {
      PinNamedAt(pins[1..], name);
      if pins[0].name == name {
        assert PinAt(pins, name, 0);
      } else {
        forall k | PinAt(pins, name, k)
          ensures PinAt(pins[1..], name, k - 1)
        {
        }
        forall k | PinAt(pins[1..], name, k)
          ensures PinAt(pins, name, k + 1)
        {
        }
      }
    }
  }

  lemma {:induction false} MemoryNamedAt(memories: seq<Rom.Memory>, name: string)
    ensures match MemoryNamed(memories, name)
            case None => forall k :: !MemoryAt(memories, name, k)
            case Some(mem) => exists k :: MemoryAt(memories, name, k) && memories[k] == mem
    ensures forall k :: MemoryAt(memories, name, k) ==> MemoryNamed(memories, name) == Some(memories[k])
  {
    if memories != [] {
      MemoryNamedAt(memories[1..], name);
      if memories[0].name == name {
        assert MemoryAt(memories, name, 0);
      } else {
        forall k | MemoryAt(memories, name, k)
          ensures MemoryAt(memories[1..], name, k - 1)
        {
        }
        forall k | MemoryAt(memories[1..], name, k)
          ensures MemoryAt(memories, name, k + 1)
        {
        }
      }
    }
  }

  // ---- literals ----------------------------------------------------------------------------

  // The hex of a number below the bound.
  ghost predicate WrittenBelow(text: string, bound: nat) {
    exists v: nat :: text == P.WriteHex(v) && v < bound
  }

  lemma WithinIs(text: string, width: nat)
    ensures ParseHexWithin(text, width).Some? <==> WrittenBelow(text, Pow(2, width))
  {
    if ParseHexWithin(text, width).Some? {
      WithinIsCanonical(text, width, ParseHexWithin(text, width).value);
    }
    if v: nat :| text == P.WriteHex(v) && v < Pow(2, width) {
      WithinIsCanonical(text, width, v);
    }
  }

  lemma AddressIs(text: string, mem: Rom.Memory)
    ensures Address(text, mem) <==> WrittenBelow(text, Pow(2, mem.addrWidth))
  {
    if ParseHex(text).Some? {
      StrictIsCanonical(text, ParseHex(text).value);
    }
    if v: nat :| text == P.WriteHex(v) && v < Pow(2, mem.addrWidth) {
      StrictIsCanonical(text, v);
    }
  }

  // A value within the width, and a mask within it if one is given.
  ghost predicate Written(value: string, defined: Option<string>, width: nat) {
    WrittenBelow(value, Pow(2, width)) && (defined.Some? ==> WrittenBelow(defined.value, Pow(2, width)))
  }

  lemma ValueIs(value: string, defined: Option<string>, width: nat)
    ensures Value(value, defined, width) <==> Written(value, defined, width)
  {
    WithinIs(value, width);
    if defined.Some? {
      WithinIs(defined.value, width);
    }
  }

  // Bytes spelled in pairs of digits that are whole words of `n` bytes, no more than
  // fit, each within its width.
  predicate SpellsWords(hex: string, mem: Rom.Memory, bytes: Rom.Bytes, n: nat, words: nat) {
    && Text.SpellsBytes(hex, bytes) && Text.Holds(n, mem.width)
    && |bytes| == words * n && words <= Pow(2, mem.addrWidth)
    && forall i :: 0 <= i < words ==> Text.WordFits(bytes, i, n, mem.width)
  }

  // Lower-case digits and nothing else that spell such words.
  ghost predicate ImageRule(hex: string, mem: Rom.Memory) {
    && (forall i :: 0 <= i < |hex| ==> '0' <= hex[i] <= '9' || 'a' <= hex[i] <= 'f')
    && exists bytes: Rom.Bytes, n: nat, words: nat :: SpellsWords(hex, mem, bytes, n, words)
  }

  lemma ImageRuleHolds(hex: string, mem: Rom.Memory)
    requires mem.Shaped() && ImageFits(hex, mem)
    ensures ImageRule(hex, mem)
  {
    var bytes, n := Rom.PairBytes(hex), mem.Stride();
    var words := Rom.Validate(bytes, mem).value;
    Text.PairsSpell(hex, bytes);
    Text.StrideHolds(mem, n);
    Text.BytesAccepted(bytes, mem, words, n);
    assert SpellsWords(hex, mem, bytes, n, words);
  }

  lemma ImageRuleFits(hex: string, mem: Rom.Memory, bytes: Rom.Bytes, n: nat, words: nat)
    requires mem.Shaped() && forall i :: 0 <= i < |hex| ==> LowerHex(hex[i])
    requires SpellsWords(hex, mem, bytes, n, words)
    ensures ImageFits(hex, mem)
  {
    Text.PairsSpell(hex, bytes);
    Text.BytesAccepted(bytes, mem, words, n);
  }

  lemma ImageIs(hex: string, mem: Rom.Memory)
    requires mem.Shaped()
    ensures ImageFits(hex, mem) <==> ImageRule(hex, mem)
  {
    if ImageFits(hex, mem) {
      ImageRuleHolds(hex, mem);
    }
    if ImageRule(hex, mem) {
      var bytes: Rom.Bytes, n: nat, words: nat :| SpellsWords(hex, mem, bytes, n, words);
      ImageRuleFits(hex, mem, bytes, n, words);
    }
  }

  // ---- actions and expectations --------------------------------------------------------------

  ghost predicate ActionRule(shape: Shape, a: Action) {
    match a
    case DrivePin(name, value, defined) =>
      exists k :: PinAt(shape.pins, name, k) && shape.pins[k].kind == In && Written(value, defined, shape.pins[k].width)
    case PokeCell(name, address, value, defined) =>
      exists k :: MemoryAt(shape.memories, name, k)
                  && WrittenBelow(address, Pow(2, shape.memories[k].addrWidth)) && Written(value, defined, shape.memories[k].width)
    case ClearMemory(name) => exists k :: MemoryAt(shape.memories, name, k)
    case LoadMemory(name, hex) => exists k :: MemoryAt(shape.memories, name, k) && ImageRule(hex, shape.memories[k])
    case ResetSession => true
  }

  ghost predicate ExpectRule(shape: Shape, e: Expectation) {
    match e
    case ExpectPin(name, value, defined) =>
      exists k :: PinAt(shape.pins, name, k) && Written(value, defined, shape.pins[k].width)
    case ExpectCell(name, address, value, defined) =>
      exists k :: MemoryAt(shape.memories, name, k)
                  && WrittenBelow(address, Pow(2, shape.memories[k].addrWidth)) && Written(value, defined, shape.memories[k].width)
  }

  lemma DriveIs(shape: Shape, name: string, value: string, defined: Option<string>)
    requires Shaped(shape)
    ensures ActionOk(shape, DrivePin(name, value, defined)) <==> ActionRule(shape, DrivePin(name, value, defined))
  {
    PinNamedAt(shape.pins, name);
    var target := PinNamed(shape.pins, name);
    if target.Some? {
      ValueIs(value, defined, target.value.width);
    }
  }

  lemma CellIs(shape: Shape, name: string, address: string, value: string, defined: Option<string>)
    ensures var target := MemoryNamed(shape.memories, name);
            target.Some? && Address(address, target.value) && Value(value, defined, target.value.width) <==>
            exists k :: MemoryAt(shape.memories, name, k)
                        && WrittenBelow(address, Pow(2, shape.memories[k].addrWidth))
                        && Written(value, defined, shape.memories[k].width)
  {
    MemoryNamedAt(shape.memories, name);
    var target := MemoryNamed(shape.memories, name);
    if target.Some? {
      AddressIs(address, target.value);
      ValueIs(value, defined, target.value.width);
    }
  }

  lemma LoadIs(shape: Shape, name: string, hex: string)
    requires Shaped(shape)
    ensures var target := MemoryNamed(shape.memories, name);
            target.Some? && ImageFits(hex, target.value) <==>
            exists k :: MemoryAt(shape.memories, name, k) && ImageRule(hex, shape.memories[k])
  {
    MemoryNamedAt(shape.memories, name);
    var target := MemoryNamed(shape.memories, name);
    if target.Some? {
      ImageIs(hex, target.value);
    }
  }

  lemma ActionIs(shape: Shape, a: Action)
    requires Shaped(shape)
    ensures ActionOk(shape, a) <==> ActionRule(shape, a)
  {
    match a
    case DrivePin(name, value, defined) => DriveIs(shape, name, value, defined);
    case PokeCell(name, address, value, defined) => CellIs(shape, name, address, value, defined);
    case ClearMemory(name) => MemoryNamedAt(shape.memories, name);
    case LoadMemory(name, hex) => LoadIs(shape, name, hex);
    case ResetSession =>
  }

  lemma ExpectIs(shape: Shape, e: Expectation)
    ensures ExpectOk(shape, e) <==> ExpectRule(shape, e)
  {
    match e
    case ExpectPin(name, value, defined) =>
      PinNamedAt(shape.pins, name);
      var target := PinNamed(shape.pins, name);
      if target.Some? {
        ValueIs(value, defined, target.value.width);
      }
    case ExpectCell(name, address, value, defined) => CellIs(shape, name, address, value, defined);
  }

  // ---- steps and cases ---------------------------------------------------------------------------

  // One to eighty characters, none of them a control character.
  predicate IdRule(id: string) {
    1 <= |id| <= 80 && forall i :: 0 <= i < |id| ==> !(id[i] as int < 32 || 127 <= id[i] as int <= 159)
  }

  lemma IdIs(id: string)
    ensures ValidId(id) <==> IdRule(id)
  {
    assert forall i :: 0 <= i < |id| ==> (Control(id[i]) <==> id[i] as int < 32 || 127 <= id[i] as int <= 159);
  }

  ghost predicate StepRule(shape: Shape, s: Step) {
    && IdRule(s.id) && (s.actions != [] || s.expects != [])
    && (forall a <- s.actions :: ActionRule(shape, a)) && forall e <- s.expects :: ExpectRule(shape, e)
  }

  lemma StepIs(shape: Shape, s: Step)
    requires Shaped(shape)
    ensures StepOk(shape, s) <==> StepRule(shape, s)
  {
    forall a: Action
      ensures ActionOk(shape, a) <==> ActionRule(shape, a)
    {
      ActionIs(shape, a);
    }
    forall e: Expectation
      ensures ExpectOk(shape, e) <==> ExpectRule(shape, e)
    {
      ExpectIs(shape, e);
    }
  }

  ghost predicate ImageOfRule(shape: Shape, image: ImageOf) {
    exists k :: MemoryAt(shape.memories, image.memory, k) && ImageRule(image.hex, shape.memories[k])
  }

  // At most sixteen images, each of its own memory; and every step keeps its rules under
  // an identifier of its own.
  ghost predicate CaseRule(shape: Shape, c: Case) {
    && IdRule(c.id) && |c.images| <= 16
    && (forall i :: 0 <= i < |c.images| ==> ImageOfRule(shape, c.images[i]))
    && (forall i, j :: 0 <= i < j < |c.images| ==> c.images[i].memory != c.images[j].memory)
    && (forall i :: 0 <= i < |c.steps| ==> StepRule(shape, c.steps[i]))
    && (forall i, j :: 0 <= i < j < |c.steps| ==> c.steps[i].id != c.steps[j].id)
  }

  lemma {:induction false} EachIs<T>(ok: T -> bool, s: seq<T>)
    ensures Each(ok, s) <==> forall i :: 0 <= i < |s| ==> ok(s[i])
  {
    if s != [] {
      EachIs(ok, s[..|s| - 1]);
      assert forall i :: 0 <= i < |s| - 1 ==> s[..|s| - 1][i] == s[i];
    }
  }

  lemma ImagesAre(shape: Shape, images: seq<ImageOf>)
    requires Shaped(shape)
    ensures ImagesOk(shape, images) <==>
            && |images| <= 16
            && (forall i :: 0 <= i < |images| ==> ImageOfRule(shape, images[i]))
            && forall i, j :: 0 <= i < j < |images| ==> images[i].memory != images[j].memory
  {
    EachIs(ImageCheck(shape), images);
    ApartMeans(ImageKey(), images);
    forall i | 0 <= i < |images|
      ensures ImageCheck(shape)(images[i]) <==> ImageOfRule(shape, images[i])
    {
      LoadIs(shape, images[i].memory, images[i].hex);
    }
    assert forall i :: 0 <= i < |images| ==> ImageKey()(images[i]) == images[i].memory;
  }

  lemma StepsAre(shape: Shape, steps: seq<Step>)
    requires Shaped(shape)
    ensures StepsOk(shape, steps) <==>
            && (forall i :: 0 <= i < |steps| ==> StepRule(shape, steps[i]))
            && forall i, j :: 0 <= i < j < |steps| ==> steps[i].id != steps[j].id
  {
    EachIs(StepCheck(shape), steps);
    ApartMeans(StepKey(), steps);
    forall i | 0 <= i < |steps|
      ensures StepCheck(shape)(steps[i]) <==> StepRule(shape, steps[i])
    {
      StepIs(shape, steps[i]);
    }
    assert forall i :: 0 <= i < |steps| ==> StepKey()(steps[i]) == steps[i].id;
  }

  lemma CaseIs(shape: Shape, c: Case)
    requires Shaped(shape)
    ensures CaseOk(shape, c) <==> CaseRule(shape, c)
  {
    IdIs(c.id);
    ImagesAre(shape, c.images);
    StepsAre(shape, c.steps);
  }

  // ---- the whole -----------------------------------------------------------------------------------

  // All that is put one after another.
  function StepsOf(cases: seq<Case>): seq<Step> {
    if cases == [] then [] else StepsOf(cases[..|cases| - 1]) + cases[|cases| - 1].steps
  }

  function ActionsOf(steps: seq<Step>): seq<Action> {
    if steps == [] then [] else ActionsOf(steps[..|steps| - 1]) + steps[|steps| - 1].actions
  }

  function ExpectsOf(steps: seq<Step>): seq<Expectation> {
    if steps == [] then [] else ExpectsOf(steps[..|steps| - 1]) + steps[|steps| - 1].expects
  }

  lemma {:induction false} CountIs(steps: seq<Step>)
    ensures Count(steps) == Tally(|steps|, |ActionsOf(steps)|, |ExpectsOf(steps)|)
  {
    if steps != [] {
      CountIs(steps[..|steps| - 1]);
      assert Count(steps).steps == |steps|;
      assert Count(steps).actions == |ActionsOf(steps)|;
      assert Count(steps).assertions == |ExpectsOf(steps)|;
    }
  }

  lemma {:induction false} OfBoth(a: seq<Step>, b: seq<Step>)
    ensures |ActionsOf(a + b)| == |ActionsOf(a)| + |ActionsOf(b)|
    ensures |ExpectsOf(a + b)| == |ExpectsOf(a)| + |ExpectsOf(b)|
  {
    if b == [] {
      assert a + b == a;
    } else {
      assert (a + b)[..|a + b| - 1] == a + b[..|b| - 1];
      OfBoth(a, b[..|b| - 1]);
    }
  }

  lemma {:induction false} TotalIs(cases: seq<Case>)
    ensures Total(cases) == Tally(|StepsOf(cases)|, |ActionsOf(StepsOf(cases))|, |ExpectsOf(StepsOf(cases))|)
  {
    if cases != [] {
      var front, last := cases[..|cases| - 1], cases[|cases| - 1];
      TotalIs(front);
      CountIs(last.steps);
      OfBoth(StepsOf(front), last.steps);
    }
  }

  ghost predicate RequestRule(shape: Shape, cases: seq<Case>) {
    && 1 <= |cases| <= 128
    && (forall i :: 0 <= i < |cases| ==> CaseRule(shape, cases[i]))
    && (forall i, j :: 0 <= i < j < |cases| ==> cases[i].id != cases[j].id)
    && 1 <= |StepsOf(cases)| <= 512
    && |ActionsOf(StepsOf(cases))| <= 2048 && |ExpectsOf(StepsOf(cases))| <= 2048
  }

  // A request is accepted exactly when it keeps the rules.
  lemma AcceptedIs(shape: Shape, cases: seq<Case>)
    requires Shaped(shape)
    ensures Accepted(shape, cases) <==> RequestRule(shape, cases)
  {
    EachIs(CaseCheck(shape), cases);
    ApartMeans(CaseKey(), cases);
    TotalIs(cases);
    forall i | 0 <= i < |cases|
      ensures CaseCheck(shape)(cases[i]) <==> CaseRule(shape, cases[i])
    {
      CaseIs(shape, cases[i]);
    }
    assert forall i :: 0 <= i < |cases| ==> CaseKey()(cases[i]) == cases[i].id;
  }
}
