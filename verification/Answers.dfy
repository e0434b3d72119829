// What the answers to reading requests say (site/src/scripts/sim-executor.ts).
module Answers {
  import opened Numbers
  import opened Wrappers
  import P = SimProtocol
  import opened SimSession
  import opened SimExecutor

  // A value and the mask of what is known of it, in hex: within the width, and zero
  // where nothing is known.
  ghost predicate Told(text: string, bits: Bits, width: nat) {
    exists v: nat, d: nat ::
      && text == P.WriteHex(v) + " " + P.WriteHex(d)
      && d == And(bits.defined, Pow(2, width) - 1) && v == And(bits.value, d)
  }

  lemma BitsTold(bits: Bits, width: nat)
    ensures Told(BitsText(bits, width), bits, width)
  {
    var d := And(bits.defined, Pow(2, width) - 1);
    assert BitsText(bits, width) == P.WriteHex(And(bits.value, d)) + " " + P.WriteHex(d);
  }

  predicate FirstPin(pins: seq<Pin>, kind: PinKind, name: string, k: int) {
    0 <= k < |pins| && pins[k].kind == kind && pins[k].name == name
    && forall j :: 0 <= j < k ==> !(pins[j].kind == kind && pins[j].name == name)
  }

  predicate NoPinOf(pins: seq<Pin>, kind: PinKind, name: string) {
    forall p <- pins :: !(p.kind == kind && p.name == name)
  }

  lemma {:induction false} FindPinFirst(pins: seq<Pin>, kind: PinKind, name: string)
    ensures match FindPin(pins, kind, name)
            case None => NoPinOf(pins, kind, name)
            case Some(p) => exists k :: FirstPin(pins, kind, name, k) && p == pins[k]
  {
    if pins != [] && !(pins[0].kind == kind && pins[0].name == name) {
      FindPinFirst(pins[1..], kind, name);
      match FindPin(pins[1..], kind, name)
      case None => assert pins == [pins[0]] + pins[1..];
      case Some(p) =>
        var k :| FirstPin(pins[1..], kind, name, k) && p == pins[1..][k];
        assert FirstPin(pins, kind, name, k + 1);
    }
  }

  // The one line that answers with a value.
  ghost predicate Ok(lines: seq<string>, bits: Bits, width: nat) {
    |lines| == 1 && exists text :: Told(text, bits, width) && lines[0] == "ok " + text
  }

  lemma OkTold(bits: Bits, width: nat)
    ensures Ok(["ok " + BitsText(bits, width)], bits, width)
  {
    BitsTold(bits, width);
  }

  predicate Err(lines: seq<string>, code: string, arg: string) {
    lines == ["err " + code + " " + arg]
  }

  // `get` answers for the first output of the name, or else the first input, and is
  // refused when there is neither.
  lemma GetAnswers<S>(m: Machine<S>, rt: S, name: string)
    ensures var lines := Inquire(m, rt, P.Get(name));
            if NoPinOf(m.pins, Out, name) && NoPinOf(m.pins, In, name) then Err(lines, "E_NOPIN", name)
            else exists k ::
                   (if NoPinOf(m.pins, Out, name) then FirstPin(m.pins, In, name, k) else FirstPin(m.pins, Out, name, k))
                   && Ok(lines, m.read(rt, m.pins[k].id), m.pins[k].width)
  {
    FindPinFirst(m.pins, Out, name);
    FindPinFirst(m.pins, In, name);
    var kind := if FindPin(m.pins, Out, name).Some? then Out else In;
    match FindPin(m.pins, kind, name)
    case None =>
    case Some(pin) =>
      OkTold(m.read(rt, pin.id), pin.width);
      var k :| FirstPin(m.pins, kind, name, k) && pin == m.pins[k];
      assert NoPinOf(m.pins, Out, name) <==> kind == In;
  }

  // ---- dumps -------------------------------------------------------------------------------

  predicate Chosen(p: Pin, which: P.Which) {
    match which
    case All => true
    case Inputs => p.kind == In
    case Outputs => p.kind == Out
  }

  // The pins asked for, in their order: those of two lists are those of one and then
  // those of the other.
  lemma {:induction false} PinsOfConcat(a: seq<Pin>, b: seq<Pin>, which: P.Which)
    ensures PinsOf(a + b, which) == PinsOf(a, which) + PinsOf(b, which)
  {
    if a == [] {
      assert a + b == b;
    } else {
      assert (a + b)[1..] == a[1..] + b;
      PinsOfConcat(a[1..], b, which);
      var head := if Chosen(a[0], which) then [a[0]] else [];
      assert head + (PinsOf(a[1..], which) + PinsOf(b, which)) == head + PinsOf(a[1..], which) + PinsOf(b, which);
    }
  }

  lemma PinsOfOne(p: Pin, which: P.Which)
    ensures PinsOf([], which) == [] && PinsOf([p], which) == if Chosen(p, which) then [p] else []
  {
    assert [p][1..] == [];
  }

  ghost predicate PinTold<S>(m: Machine<S>, rt: S, p: Pin, line: string) {
    exists text :: Told(text, m.read(rt, p.id), p.width) && line == p.name + " " + text
  }

  lemma ValLineTold<S>(m: Machine<S>, rt: S, p: Pin)
    ensures PinTold(m, rt, p, ValLine(m, rt, p))
  {
    BitsTold(m.read(rt, p.id), p.width);
  }

  lemma NthLine(lines: seq<string>, head: string, rest: seq<string>, k: nat)
    requires lines == [head] + rest && k < |rest|
    ensures |lines| == 1 + |rest| && lines[0] == head && lines[1 + k] == rest[k]
  {
  }

  lemma DumpLines<S>(m: Machine<S>, rt: S, which: P.Which)
    ensures Inquire(m, rt, P.Dump(which)) ==
            [Count("vals ", |PinsOf(m.pins, which)|)] + ValLines(m, rt, PinsOf(m.pins, which))
  {
  }

  lemma ValLineAt<S>(m: Machine<S>, rt: S, pins: seq<Pin>, k: nat)
    requires k < |pins|
    ensures ValLines(m, rt, pins)[k] == ValLine(m, rt, pins[k])
  {
  }

  // `dump` gives how many pins there are of those asked for, and a line for each.
  lemma DumpAnswers<S>(m: Machine<S>, rt: S, which: P.Which, k: nat)
    requires k < |PinsOf(m.pins, which)|
    ensures var lines, rows := Inquire(m, rt, P.Dump(which)), PinsOf(m.pins, which);
            && |lines| == 1 + |rows| && lines[0] == "vals " + Spell(|rows|, 10)
            && PinTold(m, rt, rows[k], lines[1 + k])
  {
    var rows := PinsOf(m.pins, which);
    DumpLines(m, rt, which);
    NthLine(Inquire(m, rt, P.Dump(which)), Count("vals ", |rows|), ValLines(m, rt, rows), k);
    ValLineAt(m, rt, rows, k);
    ValLineTold(m, rt, rows[k]);
  }

  // ---- memories ----------------------------------------------------------------------------

  predicate FirstMem(mems: seq<Mem>, name: string, k: int) {
    0 <= k < |mems| && mems[k].name == name && forall j :: 0 <= j < k ==> mems[j].name != name
  }

  predicate NoMemOf(mems: seq<Mem>, name: string) {
    forall mem <- mems :: mem.name != name
  }

  lemma {:induction false} FindMemFirst(mems: seq<Mem>, name: string, k: nat)
    requires FirstMem(mems, name, k)
    ensures FindMem(mems, name) == Some(mems[k])
  {
    if k > 0 {
      FindMemFirst(mems[1..], name, k - 1);
    }
  }

  lemma {:induction false} FindMemNone(mems: seq<Mem>, name: string)
    requires NoMemOf(mems, name)
    ensures FindMem(mems, name).None?
  {
    if mems != [] {
      assert mems[0] in mems;
      FindMemNone(mems[1..], name);
    }
  }

  // No memory goes by the name.
  lemma NoMemAnswers<S>(m: Machine<S>, rt: S, name: string, addr: nat, start: Option<nat>, count: Option<nat>)
    requires NoMemOf(m.mems, name)
    ensures Err(Inquire(m, rt, P.Peek(name, addr)), "E_NOMEM", name)
    ensures Err(Inquire(m, rt, P.Mem(name, start, count)), "E_NOMEM", name)
  {
    FindMemNone(m.mems, name);
  }

  // `peek` answers for the first memory of the name at an address it has.
  lemma PeekAnswers<S>(m: Machine<S>, rt: S, name: string, addr: nat, k: nat)
    requires FirstMem(m.mems, name, k)
    ensures var lines, mem := Inquire(m, rt, P.Peek(name, addr)), m.mems[k];
            if addr < Pow(2, mem.addrWidth) then Ok(lines, m.cell(rt, mem.id, addr), mem.width)
            else Err(lines, "E_ADDR", name + " " + P.WriteHex(addr))
  {
    FindMemFirst(m.mems, name, k);
    OkTold(m.cell(rt, m.mems[k].id, addr), m.mems[k].width);
  }

  ghost predicate CellTold<S>(m: Machine<S>, rt: S, mem: Mem, addr: nat, line: string) {
    exists text :: Told(text, m.cell(rt, mem.id, addr), mem.width) && line == P.WriteHex(addr) + " " + text
  }

  lemma LineTold<S>(m: Machine<S>, rt: S, mem: Mem, addr: nat)
    ensures CellTold(m, rt, mem, addr, CellLine(m, rt, mem, addr))
  {
    BitsTold(m.cell(rt, mem.id, addr), mem.width);
  }

  // How many cells there are to show: as many as asked for, or as there are.
  predicate Shown(total: nat, from: nat, count: Option<nat>, n: nat) {
    if count.Some? && from + count.value <= total then n == count.value else from + n == total
  }

  lemma DumpIs<S>(m: Machine<S>, rt: S, mem: Mem, name: string, from: nat, count: Option<nat>, n: nat)
    requires from < Pow(2, mem.addrWidth) && Shown(Pow(2, mem.addrWidth), from, count, n)
    ensures DumpMem(m, rt, mem, name, from, count) == [Count("cells ", n)] + CellLines(m, rt, mem, from, n)
  {
  }

  // How many cells follow, and each of them in turn.
  ghost predicate ListsCells<S>(m: Machine<S>, rt: S, mem: Mem, from: nat, n: nat, lines: seq<string>) {
    && |lines| == 1 + n && lines[0] == "cells " + Spell(n, 10)
    && forall j {:trigger lines[1..][j]} :: 0 <= j < n ==> CellTold(m, rt, mem, from + j, lines[1..][j])
  }

  lemma CellsListed<S>(m: Machine<S>, rt: S, mem: Mem, from: nat, n: nat, lines: seq<string>)
    requires lines == [Count("cells ", n)] + CellLines(m, rt, mem, from, n)
    ensures ListsCells(m, rt, mem, from, n, lines)
  {
    assert lines[1..] == CellLines(m, rt, mem, from, n);
    forall j | 0 <= j < n
      ensures CellTold(m, rt, mem, from + j, lines[1..][j])
    {
      CellLineTold(m, rt, mem, from, n, j);
    }
  }

  lemma CellLineTold<S>(m: Machine<S>, rt: S, mem: Mem, from: nat, n: nat, j: nat)
    requires j < n
    ensures CellTold(m, rt, mem, from + j, CellLines(m, rt, mem, from, n)[j])
  {
    CellLineAt(m, rt, mem, from, n, j);
    LineTold(m, rt, mem, from + j);
  }

  lemma CellLineAt<S>(m: Machine<S>, rt: S, mem: Mem, from: nat, n: nat, j: nat)
    requires j < n
    ensures CellLines(m, rt, mem, from, n)[j] == CellLine(m, rt, mem, from + j)
  {
  }

  // `mem` answers for the first memory of the name, from the start asked for or from
  // zero.
  lemma MemAnswers<S>(m: Machine<S>, rt: S, name: string, start: Option<nat>, count: Option<nat>, k: nat, n: nat)
    requires FirstMem(m.mems, name, k)
    requires var from, total := if start.Some? then start.value else 0, Pow(2, m.mems[k].addrWidth);
             from < total ==> Shown(total, from, count, n)
    ensures var lines, from := Inquire(m, rt, P.Mem(name, start, count)), if start.Some? then start.value else 0;
            if from < Pow(2, m.mems[k].addrWidth) then ListsCells(m, rt, m.mems[k], from, n, lines)
            else Err(lines, "E_ADDR", name + " " + P.WriteHex(from))
  {
    var from := if start.Some? then start.value else 0;
    FindMemFirst(m.mems, name, k);
    if from < Pow(2, m.mems[k].addrWidth) {
      DumpIs(m, rt, m.mems[k], name, from, count, n);
      CellsListed(m, rt, m.mems[k], from, n, Inquire(m, rt, P.Mem(name, start, count)));
    }
  }

  // ---- what an eval reads --------------------------------------------------------------------

  // The pin a name reads: the first output of that name, or else the first input.
  ghost predicate ReadsPin(pins: seq<Pin>, name: string, p: Pin) {
    exists k :: (if NoPinOf(pins, Out, name) then FirstPin(pins, In, name, k) else FirstPin(pins, Out, name, k)) && p == pins[k]
  }

  lemma {:induction false} ReadAllRows<S>(m: Machine<S>, rt: S, queries: seq<string>)
    requires FirstUnknown(m.pins, queries).None?
    ensures var rows := ReadAll(m, rt, queries);
            |rows| == |queries| && forall i :: 0 <= i < |rows| ==>
              ReadsPin(m.pins, queries[i], rows[i].pin) && rows[i].bits == m.read(rt, rows[i].pin.id)
  {
    if queries != [] {
      var rest := ReadAll(m, rt, queries[1..]);
      ReadAllRows(m, rt, queries[1..]);
      FindPinFirst(m.pins, Out, queries[0]);
      FindPinFirst(m.pins, In, queries[0]);
      var rows := ReadAll(m, rt, queries);
      ReadFirst(m, rt, queries[0]);
      assert rows == [rows[0]] + rest;
    }
  }

  lemma ReadFirst<S>(m: Machine<S>, rt: S, name: string)
    requires Known(m.pins, name)
    ensures var out := FindPin(m.pins, Out, name);
            var pin := if out.Some? then out else FindPin(m.pins, In, name);
            pin.Some? && ReadsPin(m.pins, name, pin.value)
  {
    FindPinFirst(m.pins, Out, name);
    FindPinFirst(m.pins, In, name);
    var kind := if FindPin(m.pins, Out, name).Some? then Out else In;
    var k :| FirstPin(m.pins, kind, name, k) && FindPin(m.pins, kind, name) == Some(m.pins[k]);
    assert NoPinOf(m.pins, Out, name) <==> kind == In;
  }

  // A row of the answer: the pin's name, its value and the mask of what is known.
  ghost predicate RowTold(text: string, row: PinRead) {
    exists v: nat, d: nat ::
      && text == " " + row.pin.name + "=" + P.WriteHex(v) + "/" + P.WriteHex(d)
      && d == And(row.bits.defined, Pow(2, row.pin.width) - 1) && v == And(row.bits.value, d)
  }

  function Joined(texts: seq<string>): string {
    if texts == [] then "" else texts[0] + Joined(texts[1..])
  }

  lemma RowTextOne(row: PinRead) returns (text: string)
    ensures RowTold(text, row)
    ensures forall rows: seq<PinRead> :: rows != [] && rows[0] == row ==> RowsText(rows) == text + RowsText(rows[1..])
  {
    var d := And(row.bits.defined, Pow(2, row.pin.width) - 1);
    text := " " + row.pin.name + "=" + P.WriteHex(And(row.bits.value, d)) + "/" + P.WriteHex(d);
    assert row.bits.Canonical(row.pin.width) == Bits(And(row.bits.value, d), d);
  }

  // The rows one after another, in the order asked for.
  lemma {:induction false} RowsTold(rows: seq<PinRead>) returns (texts: seq<string>)
    ensures |texts| == |rows| && RowsText(rows) == Joined(texts)
    ensures forall i :: 0 <= i < |rows| ==> RowTold(texts[i], rows[i])
  {
    texts := [];
    if rows != [] {
      var first := RowTextOne(rows[0]);
      var rest := RowsTold(rows[1..]);
      texts := [first] + rest;
      assert texts[1..] == rest;
      assert RowsText(rows) == first + RowsText(rows[1..]);
    }
  }
}
