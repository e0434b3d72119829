// Replaying the console's log (site/src/scripts/console.ts).
module Replay {
  // The log's lines are parsed (site/src/scripts/sim-protocol.ts) and executed
  // (site/src/scripts/sim-executor.ts) on a session like the one they were printed
  // for (site/src/scripts/sim-session.ts), and bring it to the same state.

  import opened Collections
  import opened Numbers
  import opened Wrappers
  import P = SimProtocol
  import opened SimSession
  import opened SimExecutor
  import opened Console

  // ---- lines parse back ----------------------------------------------------------------

  // A token: no white space the protocol knows, and something.
  predicate Word(w: string) {
    |w| > 0 && forall i :: 0 <= i < |w| ==> !P.Trims(w[i])
  }

  lemma {:induction false} TokenEnds(w: string, rest: string)
    requires forall i :: 0 <= i < |w| ==> !P.Trims(w[i])
    requires rest == "" || P.Separates(rest[0])
    ensures P.TokenLength(w + rest) == |w|
  {
    if w != "" {
      TokenEnds(w[1..], rest);
      assert (w + rest)[1..] == w[1..] + rest;
    }
  }

  lemma TokensOne(w: string)
    requires Word(w)
    ensures P.Tokens(w) == [w]
  {
    TokenEnds(w, "");
    assert w + "" == w;
    assert w[..|w|] == w && P.Tokens(w[|w|..]) == [];
  }

  lemma TokensMore(w: string, rest: string)
    requires Word(w)
    ensures P.Tokens(w + " " + rest) == [w] + P.Tokens(rest)
  {
    var s := w + " " + rest;
    assert s == w + (" " + rest);
    TokenEnds(w, " " + rest);
    assert s[..|w|] == w && s[|w|..] == " " + rest;
    assert (" " + rest)[1..] == rest;
  }

  // Words spaced out, and back.
  function Spaced(words: seq<string>): string {
    if words == [] then "" else if |words| == 1 then words[0] else words[0] + " " + Spaced(words[1..])
  }

  lemma {:induction false} TokensSpaced(words: seq<string>)
    requires words != [] && forall i :: 0 <= i < |words| ==> Word(words[i])
    ensures P.Tokens(Spaced(words)) == words
  {
    if |words| == 1 {
      TokensOne(words[0]);
    } else {
      TokensSpaced(words[1..]);
      TokensMore(words[0], Spaced(words[1..]));
      assert [words[0]] + words[1..] == words;
    }
  }

  lemma {:induction false} SpacedEnds(words: seq<string>)
    requires words != [] && forall i :: 0 <= i < |words| ==> Word(words[i])
    ensures var s := Spaced(words); Word(words[0]) && |s| > 0 && s[0] == words[0][0] && !P.Trims(s[|s| - 1])
  {
    assert Word(words[0]);
    if |words| > 1 {
      SpacedEnds(words[1..]);
    }
  }

  lemma ParseSpaced(words: seq<string>)
    requires words != [] && forall i :: 0 <= i < |words| ==> Word(words[i])
    requires Word(words[0]) && words[0][0] != '#'
    ensures P.ParseLine(Spaced(words)) == P.ParseTokens(words)
  {
    TokensSpaced(words);
    SpacedEnds(words);
    assert !P.Trims(words[0][0]);
  }

  lemma HexIsWord(v: nat)
    ensures Word(P.WriteHex(v))
  {
    var s := Spell(v, 16);
    assert forall i :: 0 <= i < |s| ==> DigitValue(s[i]) < 16 && !P.Trims(s[i]);
    assert forall i :: 2 <= i < |P.WriteHex(v)| ==> P.WriteHex(v)[i] == s[i - 2];
  }

  // A literal: a word that reads as a value.
  predicate Literal(text: string, v: nat) {
    Word(text) && P.ParseValue(text) == Some(v)
  }

  lemma HexIsLiteral(v: nat)
    requires v < P.U64
    ensures Literal(P.WriteHex(v), v)
  {
    HexIsWord(v);
    P.HexReadsBack(v);
  }

  lemma SetTokens(name: string, hv: string, v: nat, hd: string, d: nat)
    requires Literal(hv, v) && Literal(hd, d)
    ensures P.ParseTokens(["set", name, hv]) == P.Parsed(P.Set(name, v, None))
    ensures P.ParseTokens(["set", name, hv, hd]) == P.Parsed(P.Set(name, v, Some(d)))
  {
    assert ["set", name, hv][1..] == [name, hv] && [name, hv][2..] == [];
    assert ["set", name, hv, hd][1..] == [name, hv, hd] && [name, hv, hd][2..] == [hd];
  }

  lemma PokeTokens(name: string, ha: string, addr: nat, hv: string, v: nat, hd: string, d: nat)
    requires Literal(ha, addr) && Literal(hv, v) && Literal(hd, d)
    ensures P.ParseTokens(["poke", name, ha, hv]) == P.Parsed(P.Poke(name, addr, v, None))
    ensures P.ParseTokens(["poke", name, ha, hv, hd]) == P.Parsed(P.Poke(name, addr, v, Some(d)))
  {
    assert ["poke", name, ha, hv][1..] == [name, ha, hv] && [name, ha, hv][3..] == [];
    assert ["poke", name, ha, hv, hd][1..] == [name, ha, hv, hd] && [name, ha, hv, hd][3..] == [hd];
  }

  lemma SpacedMore(w: string, words: seq<string>)
    requires words != []
    ensures Spaced([w] + words) == w + " " + Spaced(words)
  {
    assert ([w] + words)[1..] == words;
  }

  lemma ParseTwo(a: string, b: string)
    requires Word(a) && Word(b) && a[0] != '#'
    ensures P.ParseLine(a + " " + b) == P.ParseTokens([a, b])
  {
    SpacedMore(a, [b]);
    assert [a] + [b] == [a, b];
    ParseSpaced([a, b]);
  }

  lemma SpacedThree(a: string, b: string, c: string)
    ensures Spaced([a, b, c]) == a + " " + b + " " + c
  {
    SpacedMore(a, [b, c]);
    SpacedMore(b, [c]);
    assert [a] + [b, c] == [a, b, c] && [b] + [c] == [b, c];
    assert a + " " + (b + " " + c) == a + " " + b + " " + c;
  }

  lemma ParseThree(a: string, b: string, c: string)
    requires Word(a) && Word(b) && Word(c) && a[0] != '#'
    ensures P.ParseLine(a + " " + b + " " + c) == P.ParseTokens([a, b, c])
  {
    SpacedThree(a, b, c);
    ParseSpaced([a, b, c]);
  }

  lemma SpacedFour(a: string, b: string, c: string, d: string)
    ensures Spaced([a, b, c, d]) == a + " " + b + " " + c + " " + d
  {
    SpacedMore(a, [b, c, d]);
    SpacedThree(b, c, d);
    assert [a] + [b, c, d] == [a, b, c, d];
    assert a + " " + (b + " " + c + " " + d) == a + " " + b + " " + c + " " + d;
  }

  lemma ParseFour(a: string, b: string, c: string, d: string)
    requires Word(a) && Word(b) && Word(c) && Word(d) && a[0] != '#'
    ensures P.ParseLine(a + " " + b + " " + c + " " + d) == P.ParseTokens([a, b, c, d])
  {
    SpacedFour(a, b, c, d);
    ParseSpaced([a, b, c, d]);
  }

  lemma ParseFive(a: string, b: string, c: string, d: string, e: string)
    requires Word(a) && Word(b) && Word(c) && Word(d) && Word(e) && a[0] != '#'
    ensures P.ParseLine(a + " " + b + " " + c + " " + d + " " + e) == P.ParseTokens([a, b, c, d, e])
  {
    SpacedMore(a, [b, c, d, e]);
    SpacedFour(b, c, d, e);
    assert [a] + [b, c, d, e] == [a, b, c, d, e];
    assert a + " " + (b + " " + c + " " + d + " " + e) == a + " " + b + " " + c + " " + d + " " + e;
    ParseSpaced([a, b, c, d, e]);
  }

  // A value, with a mask or without.
  function WrittenMask(defined: nat, width: Option<nat>): Option<nat> {
    if width.Some? && defined == Mask(width.value) then None else Some(defined)
  }

  lemma VerbsAreWords()
    ensures Word("set") && Word("poke") && Word("clear")
    ensures "set"[0] != '#' && "poke"[0] != '#' && "clear"[0] != '#'
  {
  }

  // A command of a name and a value, and the same with a mask.
  lemma SetText(name: string, hv: string, hd: string)
    ensures "set" + " " + name + " " + hv == "set " + name + " " + hv
    ensures "set" + " " + name + " " + hv + " " + hd == "set " + name + " " + (hv + " " + hd)
  {
    assert "set" + " " == "set ";
    Assoc("set " + name + " " + hv, " ", hd);
    Assoc("set " + name + " ", hv, " " + hd);
    Assoc(hv, " ", hd);
  }

  lemma SetParses(name: string, hv: string, v: nat)
    requires Word(name) && Literal(hv, v)
    ensures P.ParseLine("set " + name + " " + hv) == P.Parsed(P.Set(name, v, None))
  {
    VerbsAreWords();
    SetTokens(name, hv, v, hv, v);
    ParseThree("set", name, hv);
    SetText(name, hv, hv);
  }

  lemma SetMaskParses(name: string, hv: string, v: nat, hd: string, d: nat)
    requires Word(name) && Literal(hv, v) && Literal(hd, d)
    ensures P.ParseLine("set " + name + " " + (hv + " " + hd)) == P.Parsed(P.Set(name, v, Some(d)))
  {
    VerbsAreWords();
    SetTokens(name, hv, v, hd, d);
    ParseFour("set", name, hv, hd);
    SetText(name, hv, hd);
  }

  lemma SetLineParses(pins: seq<Pin>, a: DriveAssign)
    requires Word(a.name) && a.defined < P.U64
    ensures P.ParseLine(SetLine(pins, a)) ==
            P.Parsed(P.Set(a.name, And(a.value, a.defined), WrittenMask(a.defined, PinWidth(pins, a.name))))
  {
    HexIsLiteral(And(a.value, a.defined));
    HexIsLiteral(a.defined);
    SetParses(a.name, P.WriteHex(And(a.value, a.defined)), And(a.value, a.defined));
    SetMaskParses(a.name, P.WriteHex(And(a.value, a.defined)), And(a.value, a.defined), P.WriteHex(a.defined), a.defined);
  }

  function PokeLine<S>(m: Machine<S>, name: string, addr: nat, value: nat, defined: nat): string {
    "poke " + name + " " + P.WriteHex(addr) + " " + ValueWithMask(value, defined, MemWidth(m.mems, name))
  }

  lemma PokeText(name: string, ha: string, hv: string, hd: string)
    ensures "poke" + " " + name + " " + ha + " " + hv == "poke " + name + " " + ha + " " + hv
    ensures "poke" + " " + name + " " + ha + " " + hv + " " + hd == "poke " + name + " " + ha + " " + (hv + " " + hd)
  {
    assert "poke" + " " == "poke ";
    Assoc("poke " + name + " " + ha + " " + hv, " ", hd);
    Assoc("poke " + name + " " + ha + " ", hv, " " + hd);
    Assoc(hv, " ", hd);
  }

  lemma PokeParses(name: string, ha: string, addr: nat, hv: string, v: nat)
    requires Word(name) && Literal(ha, addr) && Literal(hv, v)
    ensures P.ParseLine("poke " + name + " " + ha + " " + hv) == P.Parsed(P.Poke(name, addr, v, None))
  {
    VerbsAreWords();
    PokeTokens(name, ha, addr, hv, v, hv, v);
    ParseFour("poke", name, ha, hv);
    PokeText(name, ha, hv, hv);
  }

  lemma PokeMaskParses(name: string, ha: string, addr: nat, hv: string, v: nat, hd: string, d: nat)
    requires Word(name) && Literal(ha, addr) && Literal(hv, v) && Literal(hd, d)
    ensures P.ParseLine("poke " + name + " " + ha + " " + (hv + " " + hd)) == P.Parsed(P.Poke(name, addr, v, Some(d)))
  {
    VerbsAreWords();
    PokeTokens(name, ha, addr, hv, v, hd, d);
    ParseFive("poke", name, ha, hv, hd);
    PokeText(name, ha, hv, hd);
  }

  lemma PokeLineParses<S>(m: Machine<S>, name: string, addr: nat, value: nat, defined: nat)
    requires Word(name) && addr < P.U64 && defined < P.U64
    ensures P.ParseLine(PokeLine(m, name, addr, value, defined)) ==
            P.Parsed(P.Poke(name, addr, And(value, defined), WrittenMask(defined, MemWidth(m.mems, name))))
  {
    var v := And(value, defined);
    HexIsLiteral(addr);
    HexIsLiteral(v);
    HexIsLiteral(defined);
    PokeParses(name, P.WriteHex(addr), addr, P.WriteHex(v), v);
    PokeMaskParses(name, P.WriteHex(addr), addr, P.WriteHex(v), v, P.WriteHex(defined), defined);
  }

  lemma ClearLineParses(name: string)
    requires Word(name)
    ensures P.ParseLine("clear " + name) == P.Parsed(P.Clear(name))
  {
    VerbsAreWords();
    ParseTwo("clear", name);
    assert "clear" + " " + name == "clear " + name;
    assert ["clear", name][1..] == [name];
  }

  lemma ResetLineParses()
    ensures P.ParseLine("reset") == P.Parsed(P.Reset)
  {
    assert Word("reset");
    ParseSpaced(["reset"]);
  }

  // ---- replaying -------------------------------------------------------------------------

  // What a face may ask of the session.
  datatype Call =
    | CallSet(a: Assign)
    | CallEval(assigns: seq<Assign>, queries: seq<string>)
    | CallPoke(name: string, addr: int, value: int, defined: Option<int>)
    | CallClear(name: string)
    | CallReset(loads: bool)

  function Answer<S>(m: Machine<S>, s: Session<S>, call: Call): Stepped<S> {
    match call
    case CallSet(a) => Set(m, s, a)
    case CallEval(assigns, queries) => Eval(m, s, assigns, queries)
    case CallPoke(name, addr, value, defined) => Poke(m, s, name, addr, value, defined)
    case CallClear(name) => Clear(m, s, name)
    case CallReset(loads) => Reset(m, s, loads)
  }

  // A run of calls: where the session ends and what its listeners were told.
  function Play<S>(m: Machine<S>, s: Session<S>, calls: seq<Call>): (Session<S>, seq<Event>)
    decreases |calls|
  {
    if calls == [] then (s, []) else
    var step := Answer(m, s, calls[0]);
    var (end, events) := Play(m, step.session, calls[1..]);
    (end, step.events + events)
  }

  // One line typed at a console: the line echoed, then its reply.
  function Typed<S>(m: Machine<S>, s: Session<S>, line: string): (Session<S>, seq<string>) {
    var done := Execute(m, s, line, true);
    (done.session, [PromptEcho(line)] + if done.answer.Lines? then done.answer.lines else [])
  }

  // Lines typed one after another: where that ends and all that is shown.
  function Feed<T>(typed: (T, string) -> (T, seq<string>), s: T, lines: seq<string>): (T, seq<string>)
    decreases |lines|
  {
    if lines == [] then (s, []) else
    var (next, shown) := typed(s, lines[0]);
    var (end, more) := Feed(typed, next, lines[1..]);
    (end, shown + more)
  }

  function Typist<S>(m: Machine<S>): (Session<S>, string) -> (Session<S>, seq<string>) {
    (s, line) => Typed(m, s, line)
  }

  // The script of these lines takes `b` to `c` and shows the same lines.
  ghost predicate Reproduces<S>(m: Machine<S>, b: Session<S>, lines: seq<string>, c: Session<S>) {
    Feed(Typist(m), b, Script(lines)) == (c, lines)
  }

  lemma {:induction false} FeedConcat<T>(typed: (T, string) -> (T, seq<string>), s: T, first: seq<string>, second: seq<string>)
    ensures var (mid, shown) := Feed(typed, s, first);
            var (end, more) := Feed(typed, mid, second);
            Feed(typed, s, first + second) == (end, shown + more)
    decreases |first|
  {
    if first == [] {
      assert first + second == second;
      var more := Feed(typed, s, second).1;
      assert [] + more == more;
    } else {
      var (next, shown) := typed(s, first[0]);
      FeedConcat(typed, next, first[1..], second);
      assert (first + second)[1..] == first[1..] + second;
      var (mid, rest) := Feed(typed, next, first[1..]);
      Assoc(shown, rest, Feed(typed, mid, second).1);
    }
  }

  lemma ReproducesBoth<S>(m: Machine<S>, b: Session<S>, l1: seq<string>, c: Session<S>, l2: seq<string>, d: Session<S>)
    requires Reproduces(m, b, l1, c) && Reproduces(m, c, l2, d)
    ensures Reproduces(m, b, l1 + l2, d)
  {
    FlatMapConcat(ScriptLine, l1, l2);
    FeedConcat(Typist(m), b, Script(l1), Script(l2));
  }

  lemma ReproducesNone<S>(m: Machine<S>, b: Session<S>)
    ensures Reproduces(m, b, [], b)
  {
  }

  lemma ScriptOfEntry(line: string)
    ensures Script([PromptEcho(line), "ok"]) == [line]
  {
    var lines := [PromptEcho(line), "ok"];
    assert lines[1..] == ["ok"] && PromptEcho(line)[2..] == line;
    assert "ok"[0] != "> "[0] && "ok"[0] != "# "[0];
    assert ["ok"][1..] == [] && Script(["ok"]) == [] && ScriptLine(PromptEcho(line)) == [line];
  }

  lemma FeedOne<T>(typed: (T, string) -> (T, seq<string>), s: T, line: string)
    ensures Feed(typed, s, [line]) == typed(s, line)
  {
    var (next, shown) := typed(s, line);
    assert [line][1..] == [] && shown + [] == shown;
  }

  lemma EntryReproduces<S>(m: Machine<S>, b: Session<S>, line: string, c: Session<S>)
    requires Execute(m, b, line, true) == Executed(c, Lines(["ok"]))
    ensures Reproduces(m, b, [PromptEcho(line), "ok"], c)
  {
    ScriptOfEntry(line);
    FeedOne(Typist(m), b, line);
    assert [PromptEcho(line)] + ["ok"] == [PromptEcho(line), "ok"];
  }

  // Names the protocol can spell, and words of at most 64 bits.
  predicate Speakable<S>(m: Machine<S>) {
    && (forall p <- m.pins :: Word(p.name) && p.width <= 64)
    && (forall mem <- m.mems :: Word(mem.name) && mem.width <= 64 && mem.addrWidth <= 64)
  }

  lemma FitsSixtyFour(width: nat, v: nat)
    requires width <= 64 && v < Pow(2, width)
    ensures v < P.U64
  {
    PowMonotone(2, width, 64);
  }

  lemma ExecuteParsed<S>(m: Machine<S>, b: Session<S>, line: string)
    requires P.ParseLine(line).Parsed? && !b.poisoned
    ensures Execute(m, b, line, true) == ExecuteCommand(m, b, P.ParseLine(line).command, true)
  {
  }

  lemma PokeCommand<S>(m: Machine<S>, b: Session<S>, mem: Mem, addr: nat, v: nat, d: nat)
    requires !b.poisoned && FindMem(m.mems, mem.name) == Some(mem)
    requires Fits(mem.width, v, d) && addr < Pow(2, mem.addrWidth)
    requires var w := m.write(b.rt, mem.id, addr, v, d); w.Some? && w.value.settled
    ensures ExecuteCommand(m, b, P.Poke(mem.name, addr, v, WrittenMask(d, MemWidth(m.mems, mem.name))), true) ==
            Executed(Session(m.write(b.rt, mem.id, addr, v, d).value.next, false), Lines(["ok"]))
  {
  }

  lemma SetCommand<S>(m: Machine<S>, b: Session<S>, pin: Pin, v: nat, d: nat)
    requires !b.poisoned && FindPin(m.pins, In, pin.name) == Some(pin) && Fits(pin.width, v, d)
    requires m.drive(b.rt, pin.id, v, d).settled
    ensures ExecuteCommand(m, b, P.Set(pin.name, v, WrittenMask(d, PinWidth(m.pins, pin.name))), true) ==
            Executed(Session(m.drive(b.rt, pin.id, v, d).next, false), Lines(["ok"]))
  {
  }

  lemma SetExecutes<S>(m: Machine<S>, b: Session<S>, pin: Pin, v: nat, d: nat)
    requires Speakable(m) && !b.poisoned
    requires FindPin(m.pins, In, pin.name) == Some(pin) && Fits(pin.width, v, d)
    requires m.drive(b.rt, pin.id, And(v, d), d).settled
    ensures Execute(m, b, SetLine(m.pins, DriveAssign(pin.name, v, d)), true) ==
            Executed(Session(m.drive(b.rt, pin.id, And(v, d), d).next, false), Lines(["ok"]))
  {
    FitsSixtyFour(pin.width, d);
    SetLineParses(m.pins, DriveAssign(pin.name, v, d));
    ExecuteParsed(m, b, SetLine(m.pins, DriveAssign(pin.name, v, d)));
    SetCommand(m, b, pin, And(v, d), d);
  }

  lemma PokeExecutes<S>(m: Machine<S>, b: Session<S>, mem: Mem, addr: nat, v: nat, d: nat)
    requires Speakable(m) && !b.poisoned
    requires FindMem(m.mems, mem.name) == Some(mem) && Fits(mem.width, v, d) && addr < Pow(2, mem.addrWidth)
    requires var w := m.write(b.rt, mem.id, addr, And(v, d), d); w.Some? && w.value.settled
    ensures Execute(m, b, PokeLine(m, mem.name, addr, v, d), true) ==
            Executed(Session(m.write(b.rt, mem.id, addr, And(v, d), d).value.next, false), Lines(["ok"]))
  {
    FitsSixtyFour(mem.width, d);
    FitsSixtyFour(mem.addrWidth, addr);
    PokeLineParses(m, mem.name, addr, v, d);
    ExecuteParsed(m, b, PokeLine(m, mem.name, addr, v, d));
    PokeCommand(m, b, mem, addr, And(v, d), d);
  }

  lemma ClearCommand<S>(m: Machine<S>, b: Session<S>, mem: Mem)
    requires !b.poisoned && FindMem(m.mems, mem.name) == Some(mem)
    requires var w := m.clear(b.rt, mem.id); w.Some? && w.value.settled
    ensures ExecuteCommand(m, b, P.Clear(mem.name), true) ==
            Executed(Session(m.clear(b.rt, mem.id).value.next, false), Lines(["ok"]))
  {
  }

  lemma ClearExecutes<S>(m: Machine<S>, b: Session<S>, mem: Mem)
    requires Speakable(m) && !b.poisoned && FindMem(m.mems, mem.name) == Some(mem)
    requires var w := m.clear(b.rt, mem.id); w.Some? && w.value.settled
    ensures Execute(m, b, "clear " + mem.name, true) ==
            Executed(Session(m.clear(b.rt, mem.id).value.next, false), Lines(["ok"]))
  {
    ClearLineParses(mem.name);
    ExecuteParsed(m, b, "clear " + mem.name);
    ClearCommand(m, b, mem);
  }

  const RESET_LINE := "reset"

  lemma ResetExecutes<S>(m: Machine<S>, b: Session<S>)
    requires m.boot.settled
    ensures Execute(m, b, RESET_LINE, true) == Executed(Session(m.boot.next, false), Lines(["ok"]))
  {
    ResetLineParses();
  }

  // ---- the law of the runtime --------------------------------------------------------------

  ghost predicate Agree<S>(same: (S, S) -> bool, e: Settling<S>, f: Settling<S>) {
    e.settled == f.settled && (e.settled ==> same(e.next, f.next))
  }

  ghost predicate AgreeMaybe<S>(same: (S, S) -> bool, e: Option<Settling<S>>, f: Option<Settling<S>>) {
    e.Some? == f.Some? && (e.Some? ==> Agree(same, e.value, f.value))
  }

  // States the runtime cannot tell apart stay so under the same calls, where a
  // call's undefined bits are not told apart either.
  ghost predicate Lawful<S(!new)>(m: Machine<S>, same: (S, S) -> bool) {
    && same(m.boot.next, m.boot.next)
    && (forall x, y, id, v, w, d ::
         same(x, y) && And(v, d) == And(w, d) ==> Agree(same, m.drive(x, id, v, d), m.drive(y, id, w, d)))
    && (forall x, y, id, addr, v, w, d ::
         same(x, y) && And(v, d) == And(w, d) ==> AgreeMaybe(same, m.write(x, id, addr, v, d), m.write(y, id, addr, w, d)))
    && (forall x, y, id :: same(x, y) ==> AgreeMaybe(same, m.clear(x, id), m.clear(y, id)))
  }

  // The canonical reading of every pin and cell agrees.
  ghost predicate ReadsAlike<S>(m: Machine<S>, x: S, y: S) {
    && (forall p <- m.pins :: m.read(x, p.id).Canonical(p.width) == m.read(y, p.id).Canonical(p.width))
    && (forall mem <- m.mems, addr: nat | addr < Pow(2, mem.addrWidth) ::
         m.cell(x, mem.id, addr).Canonical(mem.width) == m.cell(y, mem.id, addr).Canonical(mem.width))
  }

  // The replica is sound, and the same as the original unless that is poisoned.
  ghost predicate Mirrors<S>(same: (S, S) -> bool, a: Session<S>, b: Session<S>) {
    !b.poisoned && (a.poisoned || same(a.rt, b.rt))
  }

  predicate Drivable(pins: seq<Pin>, r: Resolved) {
    FindPin(pins, In, r.pin.name) == Some(r.pin) && Fits(r.pin.width, r.value, r.defined)
  }

  lemma {:induction false} ResolvedIsDrivable(pins: seq<Pin>, assigns: seq<Assign>)
    requires ResolveAll(pins, assigns).Ok?
    ensures forall r <- ResolveAll(pins, assigns).value :: Drivable(pins, r)
    decreases |assigns|
  {
    if assigns != [] {
      ResolvedIsDrivable(pins, assigns[1..]);
    }
  }

  lemma DriveLinesStep(pins: seq<Pin>, resolved: seq<Resolved>)
    requires resolved != []
    ensures DriveLines(pins, ToldAll(resolved)) ==
            [PromptEcho(SetLine(pins, Told(resolved[0]))), "ok"] + DriveLines(pins, ToldAll(resolved[1..]))
  {
    assert ToldAll(resolved)[1..] == ToldAll(resolved[1..]);
  }

  // One `set` a pin, one after another, is the drive they tell of.
  lemma {:induction false} DrivesReproduce<S(!new)>(m: Machine<S>, same: (S, S) -> bool, x: S, b: Session<S>, resolved: seq<Resolved>)
    returns (c: Session<S>)
    requires Speakable(m) && Lawful(m, same) && !b.poisoned && same(x, b.rt)
    requires forall r <- resolved :: Drivable(m.pins, r)
    requires DriveAll(m, x, resolved).settled
    ensures Reproduces(m, b, DriveLines(m.pins, ToldAll(resolved)), c)
    ensures !c.poisoned && same(DriveAll(m, x, resolved).next, c.rt)
    decreases |resolved|
  {
    if resolved == [] {
      c := b;
    } else {
      var r := resolved[0];
      var mid := DriveReproduces(m, same, x, b, r);
      c := DrivesReproduce(m, same, m.drive(x, r.pin.id, r.value, r.defined).next, mid, resolved[1..]);
      DriveLinesStep(m.pins, resolved);
      ReproducesBoth(m, b, [PromptEcho(SetLine(m.pins, Told(r))), "ok"], mid, DriveLines(m.pins, ToldAll(resolved[1..])), c);
    }
  }

  lemma DriveReproduces<S(!new)>(m: Machine<S>, same: (S, S) -> bool, x: S, b: Session<S>, r: Resolved)
    returns (c: Session<S>)
    requires Speakable(m) && Lawful(m, same) && !b.poisoned && same(x, b.rt) && Drivable(m.pins, r)
    requires m.drive(x, r.pin.id, r.value, r.defined).settled
    ensures Reproduces(m, b, [PromptEcho(SetLine(m.pins, Told(r))), "ok"], c)
    ensures !c.poisoned && same(m.drive(x, r.pin.id, r.value, r.defined).next, c.rt)
  {
    AndIdempotent(r.value, r.defined);
    var v := And(r.value, r.defined);
    assert Agree(same, m.drive(x, r.pin.id, r.value, r.defined), m.drive(b.rt, r.pin.id, v, r.defined));
    SetExecutes(m, b, r.pin, r.value, r.defined);
    c := Session(m.drive(b.rt, r.pin.id, v, r.defined).next, false);
    EntryReproduces(m, b, SetLine(m.pins, Told(r)), c);
  }

  lemma PokeReproduces<S(!new)>(m: Machine<S>, same: (S, S) -> bool, x: S, b: Session<S>, mem: Mem, addr: nat, v: nat, d: nat)
    returns (c: Session<S>)
    requires Speakable(m) && Lawful(m, same) && !b.poisoned && same(x, b.rt)
    requires FindMem(m.mems, mem.name) == Some(mem) && Fits(mem.width, v, d) && addr < Pow(2, mem.addrWidth)
    requires var w := m.write(x, mem.id, addr, v, d); w.Some? && w.value.settled
    ensures Reproduces(m, b, [PromptEcho(PokeLine(m, mem.name, addr, v, d)), "ok"], c)
    ensures !c.poisoned && same(m.write(x, mem.id, addr, v, d).value.next, c.rt)
  {
    AndIdempotent(v, d);
    assert AgreeMaybe(same, m.write(x, mem.id, addr, v, d), m.write(b.rt, mem.id, addr, And(v, d), d));
    PokeExecutes(m, b, mem, addr, v, d);
    c := Session(m.write(b.rt, mem.id, addr, And(v, d), d).value.next, false);
    EntryReproduces(m, b, PokeLine(m, mem.name, addr, v, d), c);
  }

  lemma ClearReproduces<S(!new)>(m: Machine<S>, same: (S, S) -> bool, x: S, b: Session<S>, mem: Mem)
    returns (c: Session<S>)
    requires Speakable(m) && Lawful(m, same) && !b.poisoned && same(x, b.rt) && FindMem(m.mems, mem.name) == Some(mem)
    requires var w := m.clear(x, mem.id); w.Some? && w.value.settled
    ensures Reproduces(m, b, [PromptEcho("clear " + mem.name), "ok"], c)
    ensures !c.poisoned && same(m.clear(x, mem.id).value.next, c.rt)
  {
    assert AgreeMaybe(same, m.clear(x, mem.id), m.clear(b.rt, mem.id));
    ClearExecutes(m, b, mem);
    c := Session(m.clear(b.rt, mem.id).value.next, false);
    EntryReproduces(m, b, "clear " + mem.name, c);
  }

  // ---- whole runs --------------------------------------------------------------------------

  lemma LogOfOne<S>(m: Machine<S>, event: Event)
    ensures Log(m, [event]) == CommandFor(m, event)
  {
    FlatMapOne(Printer(m), event);
  }

  lemma DriveCase<S(!new)>(m: Machine<S>, same: (S, S) -> bool, a: Session<S>, b: Session<S>, resolved: seq<Resolved>)
    returns (c: Session<S>)
    requires Speakable(m) && Lawful(m, same) && !a.poisoned && Mirrors(same, a, b)
    requires forall r <- resolved :: Drivable(m.pins, r)
    ensures var step := Reach(DriveAll(m, a.rt, resolved), [Drive(ToldAll(resolved))]);
            Reproduces(m, b, Log(m, step.events), c) && Mirrors(same, step.session, c)
  {
    if DriveAll(m, a.rt, resolved).settled {
      c := DrivesReproduce(m, same, a.rt, b, resolved);
      LogOfOne(m, Drive(ToldAll(resolved)));
    } else {
      c := b;
      ReproducesNone(m, b);
    }
  }

  lemma SetCase<S(!new)>(m: Machine<S>, same: (S, S) -> bool, a: Session<S>, b: Session<S>, assign: Assign)
    returns (c: Session<S>)
    requires Speakable(m) && Lawful(m, same) && Mirrors(same, a, b)
    ensures var step := Set(m, a, assign); Reproduces(m, b, Log(m, step.events), c) && Mirrors(same, step.session, c)
  {
    if a.poisoned || Resolve(m.pins, assign).Failed? {
      c := b;
      ReproducesNone(m, b);
    } else {
      var r := Resolve(m.pins, assign).value;
      assert [r][1..] == [] && ToldAll([r]) == [Told(r)];
      assert DriveAll(m, a.rt, [r]) == m.drive(a.rt, r.pin.id, r.value, r.defined);
      c := DriveCase(m, same, a, b, [r]);
    }
  }

  lemma EvalCase<S(!new)>(m: Machine<S>, same: (S, S) -> bool, a: Session<S>, b: Session<S>, assigns: seq<Assign>, queries: seq<string>)
    returns (c: Session<S>)
    requires Speakable(m) && Lawful(m, same) && Mirrors(same, a, b)
    ensures var step := Eval(m, a, assigns, queries);
            Reproduces(m, b, Log(m, step.events), c) && Mirrors(same, step.session, c)
  {
    var all := ResolveAll(m.pins, assigns);
    if a.poisoned || all.Failed? || FirstUnknown(m.pins, queries).Some? || all.value == [] {
      c := b;
      ReproducesNone(m, b);
    } else {
      ResolvedIsDrivable(m.pins, assigns);
      c := DriveCase(m, same, a, b, all.value);
    }
  }

  lemma PokeCase<S(!new)>(m: Machine<S>, same: (S, S) -> bool, a: Session<S>, b: Session<S>,
                          name: string, addr: int, value: int, defined: Option<int>)
    returns (c: Session<S>)
    requires Speakable(m) && Lawful(m, same) && Mirrors(same, a, b)
    ensures var step := Poke(m, a, name, addr, value, defined);
            Reproduces(m, b, Log(m, step.events), c) && Mirrors(same, step.session, c)
  {
    var step := Poke(m, a, name, addr, value, defined);
    if step.reply.Done? {
      var mem := FindMem(m.mems, name).value;
      var d := if defined.Some? then defined.value else Mask(mem.width);
      c := PokeReproduces(m, same, a.rt, b, mem, addr, value, d);
      LogOfOne(m, Poked(name, addr, value, d));
    } else {
      c := b;
      ReproducesNone(m, b);
    }
  }

  lemma ClearCase<S(!new)>(m: Machine<S>, same: (S, S) -> bool, a: Session<S>, b: Session<S>, name: string)
    returns (c: Session<S>)
    requires Speakable(m) && Lawful(m, same) && Mirrors(same, a, b)
    ensures var step := Clear(m, a, name); Reproduces(m, b, Log(m, step.events), c) && Mirrors(same, step.session, c)
  {
    if Clear(m, a, name).reply.Done? {
      c := ClearReproduces(m, same, a.rt, b, FindMem(m.mems, name).value);
      LogOfOne(m, Cleared(name));
    } else {
      c := b;
      ReproducesNone(m, b);
    }
  }

  lemma ResetReproduces<S(!new)>(m: Machine<S>, b: Session<S>) returns (c: Session<S>)
    requires m.boot.settled
    ensures c == Session(m.boot.next, false) && Reproduces(m, b, Log(m, [Rebuilt]), c)
  {
    c := Session(m.boot.next, false);
    ResetExecutes(m, b);
    LogOfReset(m);
    EntryReproduces(m, b, RESET_LINE, c);
  }

  lemma LogOfReset<S>(m: Machine<S>)
    ensures Log(m, [Rebuilt]) == [PromptEcho(RESET_LINE), "ok"]
  {
    LogOfOne(m, Rebuilt);
  }

  lemma ResetCase<S(!new)>(m: Machine<S>, same: (S, S) -> bool, a: Session<S>, b: Session<S>, loads: bool)
    returns (c: Session<S>)
    requires Lawful(m, same) && Mirrors(same, a, b)
    ensures var step := Reset(m, a, loads); Reproduces(m, b, Log(m, step.events), c) && Mirrors(same, step.session, c)
  {
    if loads && m.boot.settled {
      c := ResetReproduces(m, b);
    } else {
      c := b;
      ReproducesNone(m, b);
    }
  }

  lemma CallReproduces<S(!new)>(m: Machine<S>, same: (S, S) -> bool, a: Session<S>, b: Session<S>, call: Call)
    returns (c: Session<S>)
    requires Speakable(m) && Lawful(m, same) && Mirrors(same, a, b)
    ensures var step := Answer(m, a, call); Reproduces(m, b, Log(m, step.events), c) && Mirrors(same, step.session, c)
  {
    match call
    case CallSet(assign) => c := SetCase(m, same, a, b, assign);
    case CallEval(assigns, queries) => c := EvalCase(m, same, a, b, assigns, queries);
    case CallPoke(name, addr, value, defined) => c := PokeCase(m, same, a, b, name, addr, value, defined);
    case CallClear(name) => c := ClearCase(m, same, a, b, name);
    case CallReset(loads) => c := ResetCase(m, same, a, b, loads);
  }

  // However the calls go, refusals and no-settles among them: the log's script,
  // typed at the console of a like session, shows the log again line for line and
  // leaves that session sound and, unless the original is poisoned, the same.
  lemma {:induction false} LogReplays<S(!new)>(m: Machine<S>, same: (S, S) -> bool, a: Session<S>, b: Session<S>, calls: seq<Call>)
    returns (c: Session<S>)
    requires Speakable(m) && Lawful(m, same) && Mirrors(same, a, b)
    ensures var (end, events) := Play(m, a, calls);
            Feed(Typist(m), b, Script(Log(m, events))) == (c, Log(m, events)) && Mirrors(same, end, c)
    decreases |calls|
  {
    if calls == [] {
      c := b;
      ReproducesNone(m, b);
    } else {
      var mid := CallReproduces(m, same, a, b, calls[0]);
      var step := Answer(m, a, calls[0]);
      var events := Play(m, step.session, calls[1..]).1;
      c := LogReplays(m, same, step.session, mid, calls[1..]);
      FlatMapConcat(Printer(m), step.events, events);
      ReproducesBoth(m, b, Log(m, step.events), mid, Log(m, events), c);
    }
  }

  // A run from a new session that does not end poisoned: the replica reads alike,
  // pin for pin and cell for cell.
  lemma ReplayReadsAlike<S(!new)>(m: Machine<S>, same: (S, S) -> bool, calls: seq<Call>)
    returns (c: Session<S>)
    requires Speakable(m) && Lawful(m, same) && m.boot.settled
    requires forall x, y :: same(x, y) ==> ReadsAlike(m, x, y)
    requires !Play(m, Session(m.boot.next, false), calls).0.poisoned
    ensures var start := Session(m.boot.next, false);
            var (end, events) := Play(m, start, calls);
            Feed(Typist(m), start, Script(Log(m, events))) == (c, Log(m, events)) && ReadsAlike(m, end.rt, c.rt)
  {
    var start := Session(m.boot.next, false);
    c := LogReplays(m, same, start, start, calls);
  }
}
