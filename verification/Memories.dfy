// What pokes and clears do to memories, and a reset to all
// (site/src/scripts/sim-session.ts).
module Memories {
  import opened Numbers
  import opened Wrappers
  import P = SimProtocol
  import opened SimSession
  import A = Answers

  predicate MemsDistinct(mems: seq<Mem>) {
    forall i, j :: 0 <= i < j < |mems| ==> mems[i].name != mems[j].name && mems[i].id != mems[j].id
  }

  // A cell reads what was last written to it, a cleared memory is wholly unknown, and
  // neither changes any other cell.
  ghost predicate CellsKeep<S(!new)>(m: Machine<S>) {
    && (forall x, p, q, a, v, d, b ::
          p in m.mems && q in m.mems && m.write(x, p.id, a, v, d).Some? && m.write(x, p.id, a, v, d).value.settled ==>
            m.cell(m.write(x, p.id, a, v, d).value.next, q.id, b).Canonical(q.width) ==
            (if q.id == p.id && b == a then Bits(v, d) else m.cell(x, q.id, b)).Canonical(q.width))
    && (forall x, p, q, b ::
          p in m.mems && q in m.mems && m.clear(x, p.id).Some? && m.clear(x, p.id).value.settled ==>
            m.cell(m.clear(x, p.id).value.next, q.id, b).Canonical(q.width) ==
            (if q.id == p.id then Bits(0, 0) else m.cell(x, q.id, b)).Canonical(q.width))
  }

  // What the cell shows, within its width and where it is known.
  function Shown<S>(m: Machine<S>, rt: S, mem: Mem, addr: nat): Bits {
    m.cell(rt, mem.id, addr).Canonical(mem.width)
  }

  // The bits given, all of them known when no mask is.
  function Given(value: nat, defined: Option<nat>, width: nat): Bits {
    Bits(value, if defined.Some? then defined.value else Pow(2, width) - 1)
  }

  // The value and the mask fit the memory's width.
  predicate FitsIn(value: int, defined: Option<int>, width: nat) {
    0 <= value < Pow(2, width) && (defined.Some? ==> 0 <= defined.value < Pow(2, width))
  }

  // Why a poke of the first memory of a name does nothing: an address it does not have
  // first, then a value that does not fit, then the runtime's refusal.
  lemma PokeRefused<S>(m: Machine<S>, s: Session<S>, name: string, addr: int, value: int, defined: Option<int>, k: nat)
    requires !s.poisoned && A.FirstMem(m.mems, name, k)
    ensures var mem, step := m.mems[k], Poke(m, s, name, addr, value, defined);
            if addr < 0 || addr >= Pow(2, mem.addrWidth) then step == Stepped(s, Refused(Addr, AddrArg(name, addr)), [])
            else if !FitsIn(value, defined, mem.width) then step == Stepped(s, Refused(Width, name), [])
            else step.reply.Refused? ==> step.reply == Refused(Proto, "write failed") || step.reply == Refused(NoSettle, NO_SETTLE)
  {
    A.FindMemFirst(m.mems, name, k);
  }

  // An accepted poke is told as it was given, and the cell shows it; no other changes.
  lemma PokeShows<S(!new)>(m: Machine<S>, s: Session<S>, name: string, addr: int, value: int, defined: Option<int>, k: nat,
                           q: Mem, b: nat)
    requires MemsDistinct(m.mems) && CellsKeep(m) && A.FirstMem(m.mems, name, k) && q in m.mems
    requires Poke(m, s, name, addr, value, defined).reply.Done?
    ensures var mem, step := m.mems[k], Poke(m, s, name, addr, value, defined);
            && 0 <= addr < Pow(2, mem.addrWidth) && FitsIn(value, defined, mem.width) && !step.session.poisoned
            && (var mask: Option<nat> := if defined.Some? then Some(defined.value) else None;
                var bits := Given(value, mask, mem.width);
                && step.events == [Poked(name, addr, bits.value, bits.defined)]
                && Shown(m, step.session.rt, q, b) ==
                   if q.name == name && b == addr then bits.Canonical(q.width) else Shown(m, s.rt, q, b))
  {
    var mem := m.mems[k];
    A.FindMemFirst(m.mems, name, k);
    var j :| 0 <= j < |m.mems| && m.mems[j] == q;
    assert q.id == mem.id <==> q.name == name;
    var mask := if defined.Some? then defined.value else Mask(mem.width);
    assert m.write(s.rt, mem.id, addr, value, mask).Some? && m.write(s.rt, mem.id, addr, value, mask).value.settled;
  }

  // A clear leaves every cell of the memory unknown, and no other changed.
  lemma ClearShows<S(!new)>(m: Machine<S>, s: Session<S>, name: string, q: Mem, b: nat)
    requires MemsDistinct(m.mems) && CellsKeep(m) && q in m.mems && Clear(m, s, name).reply.Done?
    ensures var step := Clear(m, s, name);
            && step.events == [Cleared(name)] && !step.session.poisoned
            && Shown(m, step.session.rt, q, b) == if q.name == name then Bits(0, 0) else Shown(m, s.rt, q, b)
  {
    var mem := FindMem(m.mems, name).value;
    var i, j :| 0 <= i < |m.mems| && m.mems[i] == mem && 0 <= j < |m.mems| && m.mems[j] == q;
    assert q.id == mem.id <==> q.name == name;
    assert m.clear(s.rt, mem.id).Some? && m.clear(s.rt, mem.id).value.settled;
    assert Bits(0, 0).Canonical(q.width) == Bits(0, 0);
  }

  // A session that failed to settle takes no call but a reset; after one that is
  // answered nothing of the old runtime is left.
  lemma ResetForgets<S>(m: Machine<S>, s: Session<S>, t: Session<S>)
    ensures Reset(m, s, true) == Reset(m, t, true)
    ensures Reset(m, s, true).reply.Done? ==>
            Reset(m, s, true).session == Session(m.boot.next, false) && Reset(m, s, true).events == [Rebuilt]
    ensures Reset(m, s, true).reply.Refused? ==> Reset(m, s, true).session.poisoned && Reset(m, s, true).events == []
    ensures Reset(m, s, false).session == s && Reset(m, s, false).events == []
  {
  }

  lemma PoisonedInert<S>(m: Machine<S>, s: Session<S>, a: Assign, name: string, addr: int, value: int, defined: Option<int>)
    requires s.poisoned
    ensures Set(m, s, a) == Poke(m, s, name, addr, value, defined) == Clear(m, s, name) == Run(m, s) ==
            Stepped(s, Refused(NoSettle, NO_SETTLE), [])
  {
  }
}
