// What an eval does, pin by pin (site/src/scripts/sim-session.ts).
module Drives {
  // An eval is the sets of its assignments, first to last, once all of them and all
  // queries are found good; a pin then reads its last assignment.

  import opened Wrappers
  import opened Numbers
  import opened SimSession
  import T = TruthView

  // ---- resolving -----------------------------------------------------------------------------

  // One resolution for each assignment, in order, or the refusal of the first that
  // cannot be resolved.
  ghost predicate ResolvedInOrder(pins: seq<Pin>, assigns: seq<Assign>, r: Result<seq<Resolved>, Reply>) {
    match r
    case Ok(rs) =>
      |rs| == |assigns| && forall i :: 0 <= i < |rs| ==> Resolve(pins, assigns[i]) == Ok(rs[i])
    case Failed(reply) =>
      exists i :: 0 <= i < |assigns| && Resolve(pins, assigns[i]) == Failed(reply)
                  && forall j :: 0 <= j < i ==> Resolve(pins, assigns[j]).Ok?
  }

  lemma {:induction false} ResolvesInOrder(pins: seq<Pin>, assigns: seq<Assign>)
    ensures ResolvedInOrder(pins, assigns, ResolveAll(pins, assigns))
  {
    if assigns != [] {
      ResolvesInOrder(pins, assigns[1..]);
      var first, rest, all := Resolve(pins, assigns[0]), ResolveAll(pins, assigns[1..]), ResolveAll(pins, assigns);
      if first.Ok? && rest.Failed? {
        var i :| 0 <= i < |assigns| - 1 && Resolve(pins, assigns[1..][i]) == Failed(rest.error)
                 && forall j :: 0 <= j < i ==> Resolve(pins, assigns[1..][j]).Ok?;
        assert Resolve(pins, assigns[i + 1]) == Failed(rest.error);
        assert forall j :: 1 <= j < i + 1 ==> assigns[j] == assigns[1..][j - 1];
      } else if first.Ok? {
        assert forall j :: 1 <= j < |assigns| ==> assigns[j] == assigns[1..][j - 1] && all.value[j] == rest.value[j - 1];
      }
    }
  }

  // ---- driving -------------------------------------------------------------------------------

  // A set for each assignment, first to last, until one is refused.
  function SetEach<S>(m: Machine<S>, s: Session<S>, assigns: seq<Assign>): Stepped<S>
    decreases |assigns|
  {
    if assigns == [] then Stepped(s, Done, []) else
    var first := Set(m, s, assigns[0]);
    if !first.reply.Done? then first else
    var rest := SetEach(m, first.session, assigns[1..]);
    Stepped(rest.session, rest.reply, first.events + rest.events)
  }

  predicate AllGood(pins: seq<Pin>, assigns: seq<Assign>, queries: seq<string>) {
    && (forall i :: 0 <= i < |assigns| ==> Resolve(pins, assigns[i]).Ok?)
    && forall i :: 0 <= i < |queries| ==> exists p <- pins :: p.name == queries[i]
  }

  lemma {:induction false} FoundByName(pins: seq<Pin>, name: string)
    ensures Known(pins, name) <==> exists p <- pins :: p.name == name
  {
    if pins != [] {
      FoundByName(pins[1..], name);
      assert forall p :: p in pins <==> p == pins[0] || p in pins[1..];
    }
  }

  lemma {:induction false} UnknownIsFirst(pins: seq<Pin>, queries: seq<string>)
    ensures match FirstUnknown(pins, queries)
            case None => forall i :: 0 <= i < |queries| ==> exists p <- pins :: p.name == queries[i]
            case Some(q) => exists i :: 0 <= i < |queries| && queries[i] == q && (forall p <- pins :: p.name != q)
                                        && forall j :: 0 <= j < i ==> exists p <- pins :: p.name == queries[j]
  {
    if queries != [] {
      UnknownIsFirst(pins, queries[1..]);
      FoundByName(pins, queries[0]);
      var q := FirstUnknown(pins, queries);
      if q.Some? && Known(pins, queries[0]) {
        var i :| 0 <= i < |queries| - 1 && queries[1..][i] == q.value && (forall p <- pins :: p.name != q.value)
                 && forall j :: 0 <= j < i ==> exists p <- pins :: p.name == queries[1..][j];
        assert queries[i + 1] == q.value;
        forall j | 0 <= j < i + 1
          ensures exists p <- pins :: p.name == queries[j]
        {
          if j > 0 {
            assert queries[j] == queries[1..][j - 1];
          }
        }
      } else if q.None? {
        forall j | 0 <= j < |queries|
          ensures exists p <- pins :: p.name == queries[j]
        {
          if j > 0 {
            assert queries[j] == queries[1..][j - 1];
          }
        }
      }
    }
  }

  // Drives one after another are sets one after another.
  lemma {:induction false} DrivesAreSets<S>(m: Machine<S>, s: Session<S>, assigns: seq<Assign>, rs: seq<Resolved>)
    requires !s.poisoned && ResolvedInOrder(m.pins, assigns, Ok(rs))
    ensures var effect, step := DriveAll(m, s.rt, rs), SetEach(m, s, assigns);
            && step.session == Session(effect.next, !effect.settled)
            && step.reply == (if effect.settled then Done else Refused(NoSettle, NO_SETTLE))
            && (effect.settled ==>
                  |step.events| == |rs| && forall i :: 0 <= i < |rs| ==> step.events[i] == Drive([ToldAll(rs)[i]]))
    decreases |assigns|
  {
    if assigns != [] {
      var first := Set(m, s, assigns[0]);
      assert Resolve(m.pins, assigns[0]) == Ok(rs[0]);
      if first.reply.Done? {
        assert forall i :: 0 <= i < |rs| - 1 ==> assigns[1..][i] == assigns[i + 1] && rs[1..][i] == rs[i + 1];
        DrivesAreSets(m, first.session, assigns[1..], rs[1..]);
      }
    }
  }

  // What is told of an eval is what would be told of its sets, at once.
  predicate ToldAtOnce(told: seq<Event>, each: seq<Event>) {
    if each == [] then told == []
    else
      && |told| == 1 && told[0].Drive? && |told[0].assigns| == |each|
      && forall i :: 0 <= i < |each| ==> each[i] == Drive([told[0].assigns[i]])
  }

  // A good eval ends as its sets do, and tells them at once if all settle.
  lemma EvalIsSets<S>(m: Machine<S>, s: Session<S>, assigns: seq<Assign>, queries: seq<string>)
    requires !s.poisoned && AllGood(m.pins, assigns, queries)
    ensures var eval, sets := Eval(m, s, assigns, queries), SetEach(m, s, assigns);
            && eval.session == sets.session && eval.reply == sets.reply
            && if eval.reply.Done? then ToldAtOnce(eval.events, sets.events) else eval.events == []
  {
    ResolvesInOrder(m.pins, assigns);
    UnknownIsFirst(m.pins, queries);
    var rs := ResolveAll(m.pins, assigns).value;
    DrivesAreSets(m, s, assigns, rs);
    assert Session(s.rt, false) == s;
  }

  // One that is not good does nothing: the first assignment at fault is named, and
  // the first unknown query when no assignment is.
  lemma EvalIsInert<S>(m: Machine<S>, s: Session<S>, assigns: seq<Assign>, queries: seq<string>)
    requires s.poisoned || !AllGood(m.pins, assigns, queries)
    ensures var eval := Eval(m, s, assigns, queries);
            && eval.session == s && eval.events == []
            && if s.poisoned then eval.reply == Refused(NoSettle, NO_SETTLE)
               else if exists i :: 0 <= i < |assigns| && Resolve(m.pins, assigns[i]).Failed?
               then ResolvedInOrder(m.pins, assigns, Failed(eval.reply))
               else exists i :: 0 <= i < |queries| && eval.reply == Refused(NoPin, queries[i])
                                && (forall p <- m.pins :: p.name != queries[i])
                                && forall j :: 0 <= j < i ==> exists p <- m.pins :: p.name == queries[j]
  {
    ResolvesInOrder(m.pins, assigns);
    UnknownIsFirst(m.pins, queries);
  }

  // ---- one assignment ------------------------------------------------------------------------

  // Whether a pin of this name and kind is there.
  predicate Has(pins: seq<Pin>, kind: PinKind, name: string) {
    exists p <- pins :: p.kind == kind && p.name == name
  }

  // An input takes what fits it; an output and an unknown name are told apart.
  lemma ResolveMeans(pins: seq<Pin>, a: Assign)
    requires T.PinsDistinct(pins)
    ensures forall p <- pins :: p.kind.In? && p.name == a.pin ==>
              var mask := if a.defined.Some? then a.defined.value else Pow(2, p.width) - 1;
              Resolve(pins, a) == if 0 <= a.value < Pow(2, p.width) && 0 <= mask < Pow(2, p.width)
                                  then Ok(Resolved(p, a.value, mask)) else Failed(Refused(Width, a.pin))
    ensures !Has(pins, In, a.pin) ==>
              Resolve(pins, a) == Failed(Refused(if Has(pins, Out, a.pin) then NotIn else NoPin, a.pin))
  {
    forall p <- pins | p.name == a.pin
      ensures FindPin(pins, p.kind, p.name) == Some(p)
    {
      T.FindPinIs(pins, p);
    }
  }

  // ---- what a pin reads ----------------------------------------------------------------------

  // The last assignment of a pin, if any.
  function LastOf(assigns: seq<Assign>, name: string): Option<Assign> {
    if assigns == [] then None else
    var later := LastOf(assigns[1..], name);
    if later.Some? then later else if assigns[0].pin == name then Some(assigns[0]) else None
  }

  lemma {:induction false} LastOfIs(assigns: seq<Assign>, name: string)
    ensures match LastOf(assigns, name)
            case None => forall a <- assigns :: a.pin != name
            case Some(a) => exists i :: 0 <= i < |assigns| && assigns[i] == a && a.pin == name
                                        && forall j :: i < j < |assigns| ==> assigns[j].pin != name
  {
    if assigns != [] {
      LastOfIs(assigns[1..], name);
      var later := LastOf(assigns[1..], name);
      if later.Some? {
        var i :| 0 <= i < |assigns| - 1 && assigns[1..][i] == later.value && later.value.pin == name
                 && forall j :: i < j < |assigns| - 1 ==> assigns[1..][j].pin != name;
        assert assigns[i + 1] == later.value;
        assert forall j :: i + 1 < j < |assigns| ==> assigns[j] == assigns[1..][j - 1];
      } else {
        assert forall j :: 0 < j < |assigns| ==> assigns[j] == assigns[1..][j - 1];
      }
    }
  }

  // The bits given, of those that are defined and within the width.
  function Given(a: Assign, width: nat): Bits
    requires a.value >= 0 && (a.defined.Some? ==> a.defined.value >= 0)
  {
    Bits(a.value, if a.defined.Some? then a.defined.value else Mask(width)).Canonical(width)
  }

  function Shown<S>(m: Machine<S>, rt: S, p: Pin): Bits {
    m.read(rt, p.id).Canonical(p.width)
  }

  lemma SetReads<S(!new)>(m: Machine<S>, s: Session<S>, a: Assign, q: Pin)
    requires T.PinsDistinct(m.pins) && T.InputsKeep(m) && q in m.pins && q.kind.In? && Set(m, s, a).reply.Done?
    ensures a.pin == q.name ==> a.value >= 0 && (a.defined.Some? ==> a.defined.value >= 0)
    ensures Shown(m, Set(m, s, a).session.rt, q) == if a.pin == q.name then Given(a, q.width) else Shown(m, s.rt, q)
  {
    var r := Resolve(m.pins, a).value;
    T.FindPinIs(m.pins, q);
    assert q.name == r.pin.name <==> q.id == r.pin.id;
    assert m.drive(s.rt, r.pin.id, r.value, r.defined).settled;
  }

  // After sets that all settle an input reads what was last set on it, and what it
  // read before if nothing was.
  lemma {:induction false} SetsRead<S(!new)>(m: Machine<S>, s: Session<S>, assigns: seq<Assign>, q: Pin)
    requires T.PinsDistinct(m.pins) && T.InputsKeep(m) && q in m.pins && q.kind.In? && SetEach(m, s, assigns).reply.Done?
    ensures var last, rt := LastOf(assigns, q.name), SetEach(m, s, assigns).session.rt;
            match last
            case None => Shown(m, rt, q) == Shown(m, s.rt, q)
            case Some(a) => a.value >= 0 && (a.defined.Some? ==> a.defined.value >= 0) && Shown(m, rt, q) == Given(a, q.width)
    decreases |assigns|
  {
    if assigns != [] {
      SetReads(m, s, assigns[0], q);
      SetsRead(m, Set(m, s, assigns[0]).session, assigns[1..], q);
    }
  }

  // So it is after an eval that is answered.
  lemma EvalReads<S(!new)>(m: Machine<S>, s: Session<S>, assigns: seq<Assign>, queries: seq<string>, q: Pin)
    requires T.PinsDistinct(m.pins) && T.InputsKeep(m) && q in m.pins && q.kind.In?
    requires Eval(m, s, assigns, queries).reply.Done?
    ensures var last, rt := LastOf(assigns, q.name), Eval(m, s, assigns, queries).session.rt;
            match last
            case None => Shown(m, rt, q) == Shown(m, s.rt, q)
            case Some(a) => a.value >= 0 && (a.defined.Some? ==> a.defined.value >= 0) && Shown(m, rt, q) == Given(a, q.width)
  {
    if !s.poisoned && AllGood(m.pins, assigns, queries) {
      EvalIsSets(m, s, assigns, queries);
      SetsRead(m, s, assigns, q);
    } else {
      EvalIsInert(m, s, assigns, queries);
      RefusedIs(m.pins, assigns);
    }
  }

  lemma RefusedIs(pins: seq<Pin>, assigns: seq<Assign>)
    ensures forall i :: 0 <= i < |assigns| && Resolve(pins, assigns[i]).Failed? ==> Resolve(pins, assigns[i]).error.Refused?
  {
  }
}
