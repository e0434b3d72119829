// What the console prints for what another face did, and the script that log
// stands for (site/src/scripts/console.ts).
module Console {
  import opened Collections
  import opened Numbers
  import opened Wrappers
  import P = SimProtocol
  import opened SimSession

  function PromptEcho(line: string): string {
    "> " + line
  }

  // Undefined bits as zero; a value all of whose bits are defined needs no mask.
  function ValueWithMask(value: nat, defined: nat, width: Option<nat>): string {
    var canonical := And(value, defined);
    if width.Some? && defined == Mask(width.value) then P.WriteHex(canonical)
    else P.WriteHex(canonical) + " " + P.WriteHex(defined)
  }

  function PinWidth(pins: seq<Pin>, name: string): Option<nat> {
    match FindPin(pins, In, name)
    case Some(pin) => Some(pin.width)
    case None => None
  }

  function MemWidth(mems: seq<Mem>, name: string): Option<nat> {
    match FindMem(mems, name)
    case Some(mem) => Some(mem.width)
    case None => None
  }

  function SetLine(pins: seq<Pin>, a: DriveAssign): string {
    "set " + a.name + " " + ValueWithMask(a.value, a.defined, PinWidth(pins, a.name))
  }

  function DriveLines(pins: seq<Pin>, assigns: seq<DriveAssign>): seq<string> {
    if assigns == [] then [] else [PromptEcho(SetLine(pins, assigns[0])), "ok"] + DriveLines(pins, assigns[1..])
  }

  // An event as a request the prompt takes, with its reply; loading an image has
  // no such request.
  function CommandFor<S>(m: Machine<S>, event: Event): seq<string> {
    match event
    case Drive(assigns) => DriveLines(m.pins, assigns)
    case Loaded(name, words) =>
      ["# " + name + ": image from the memory panel, " + Spell(words, 10) + " word" + (if words == 1 then "" else "s")]
    case Cleared(name) => [PromptEcho("clear " + name), "ok"]
    case Poked(name, addr, value, defined) =>
      [PromptEcho("poke " + name + " " + P.WriteHex(addr) + " " + ValueWithMask(value, defined, MemWidth(m.mems, name))), "ok"]
    case Rebuilt => [PromptEcho("reset"), "ok"]
  }

  // `flatMap`
  function FlatMap<A, B>(f: A -> seq<B>, s: seq<A>): seq<B> {
    if s == [] then [] else f(s[0]) + FlatMap(f, s[1..])
  }

  lemma FlatMapOne<A, B>(f: A -> seq<B>, x: A)
    ensures FlatMap(f, [x]) == f(x)
  {
    assert [x][1..] == [] && f(x) + [] == f(x);
  }

  lemma {:induction false} FlatMapConcat<A, B>(f: A -> seq<B>, s: seq<A>, t: seq<A>)
    ensures FlatMap(f, s + t) == FlatMap(f, s) + FlatMap(f, t)
  {
    if s == [] {
      assert s + t == t;
    } else {
      FlatMapConcat(f, s[1..], t);
      assert (s + t)[1..] == s[1..] + t;
      Assoc(f(s[0]), FlatMap(f, s[1..]), FlatMap(f, t));
    }
  }

  function Printer<S>(m: Machine<S>): Event -> seq<string> {
    event => CommandFor(m, event)
  }

  // The console's lines for all it was told.
  function Log<S>(m: Machine<S>, events: seq<Event>): seq<string> {
    FlatMap(Printer(m), events)
  }

  // What a script keeps of a line: requests, without the prompt, and comments.
  function ScriptLine(line: string): seq<string> {
    if "> " <= line then [line[2..]] else if "# " <= line then [line] else []
  }

  function Script(lines: seq<string>): seq<string> {
    FlatMap(ScriptLine, lines)
  }

  method ScriptOf(lines: seq<string>) returns (out: seq<string>)
    ensures out == Script(lines)
  {
    out := [];
    for i := 0 to |lines|
      invariant out == Script(lines[..i])
    {
      assert lines[..i + 1] == lines[..i] + [lines[i]];
      FlatMapConcat(ScriptLine, lines[..i], [lines[i]]);
      assert Script([lines[i]]) == ScriptLine(lines[i]) + Script([]);
      if "> " <= lines[i] {
        out := out + [lines[i][2..]];
      } else if "# " <= lines[i] {
        out := out + [lines[i]];
      }
    }
    assert lines[..|lines|] == lines;
  }
}
