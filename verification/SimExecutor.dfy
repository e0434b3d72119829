// Request lines executed (site/src/scripts/sim-executor.ts).
module SimExecutor {
  // Files are the page's (site/src/scripts/console.ts): no path can be read or
  // written.

  import opened Numbers
  import opened Wrappers
  import P = SimProtocol
  import opened SimSession

  // The reply lines, or the exception of a reset whose runtime cannot be had.
  datatype Answer = Lines(lines: seq<string>) | Thrown

  datatype Executed<+S> = Executed(session: Session<S>, answer: Answer)

  const LOAD_REFUSAL := "load images in the memory panel"
  const SAVE_REFUSAL := "save images from the memory panel"

  function CodeText(code: Code): string {
    match code
    case NoPin => "E_NOPIN"
    case NotIn => "E_NOTIN"
    case Width => "E_WIDTH"
    case NoSettle => "E_NOSETTLE"
    case NoMem => "E_NOMEM"
    case Addr => "E_ADDR"
    case Proto => "E_PROTO"
  }

  function ReplyLine(reply: Reply): string {
    if reply.Done? then "ok" else "err " + CodeText(reply.code) + " " + reply.arg
  }

  function Decimal(n: nat): string {
    Spell(n, 10)
  }

  // `<value> <defined>`, canonical.
  function BitsText(b: Bits, width: nat): string {
    var c := b.Canonical(width);
    P.WriteHex(c.value) + " " + P.WriteHex(c.defined)
  }

  function PinLine(p: Pin): string {
    "pin " + p.name + " " + (if p.kind.In? then "in" else "out") + " " + Decimal(p.width)
  }

  function MemLine(mem: Mem): string {
    "mem " + mem.name + " " + (if mem.rom then "rom" else "ram") + " " + Decimal(mem.width) + " " + Decimal(mem.addrWidth)
  }

  function PinsOf(pins: seq<Pin>, which: P.Which): seq<Pin> {
    if pins == [] then []
    else (if which.All? || which.Inputs? == pins[0].kind.In? then [pins[0]] else []) + PinsOf(pins[1..], which)
  }

  function ValLine<S>(m: Machine<S>, rt: S, p: Pin): string {
    p.name + " " + BitsText(m.read(rt, p.id), p.width)
  }

  function ValLines<S>(m: Machine<S>, rt: S, pins: seq<Pin>): (lines: seq<string>)
    ensures |lines| == |pins|
  {
    seq(|pins|, i requires 0 <= i < |pins| => ValLine(m, rt, pins[i]))
  }

  // ` name=value/defined` for each pin read.
  function RowsText(rows: seq<PinRead>): string {
    if rows == [] then "" else
    var c := rows[0].bits.Canonical(rows[0].pin.width);
    " " + rows[0].pin.name + "=" + P.WriteHex(c.value) + "/" + P.WriteHex(c.defined) + RowsText(rows[1..])
  }

  function CellLine<S>(m: Machine<S>, rt: S, mem: Mem, addr: nat): string {
    P.WriteHex(addr) + " " + BitsText(m.cell(rt, mem.id, addr), mem.width)
  }

  function CellLines<S>(m: Machine<S>, rt: S, mem: Mem, from: nat, n: nat): (lines: seq<string>)
    ensures |lines| == n
  {
    seq(n, i requires 0 <= i < n => CellLine(m, rt, mem, from + i))
  }

  // A range of cells, clipped to those there are.
  function DumpMem<S>(m: Machine<S>, rt: S, mem: Mem, name: string, from: nat, count: Option<nat>): seq<string> {
    var total := Pow(2, mem.addrWidth);
    if from >= total then [ReplyLine(Refused(Addr, AddrArg(name, from)))] else
    var n := if count.Some? && count.value < total - from then count.value else total - from;
    [Count("cells ", n)] + CellLines(m, rt, mem, from, n)
  }

  function ToSession(assigns: seq<P.Assign>): (out: seq<Assign>)
    ensures |out| == |assigns|
  {
    seq(|assigns|, i requires 0 <= i < |assigns| => Assign(assigns[i].pin, assigns[i].value, MaskOf(assigns[i].mask)))
  }

  function MaskOf(mask: Option<nat>): Option<int> {
    if mask.Some? then Some(mask.value) else None
  }

  // A poisoned session answers only these.
  predicate Excused(c: P.Command) {
    c.Quit? || c.Reset? || c.Pins? || c.Mems?
  }

  // The verbs that only read.
  function Inquire<S>(m: Machine<S>, rt: S, c: P.Command): seq<string> {
    match c
    case Pins => [Count("pins ", |m.pins|)] + Map(m.pins, PinLine)
    case Mems => [Count("mems ", |m.mems|)] + Map(m.mems, MemLine)
    case Get(name) =>
      var out := FindPin(m.pins, Out, name);
      var pin := if out.Some? then out else FindPin(m.pins, In, name);
      if pin.None? then [ReplyLine(Refused(NoPin, name))]
      else ["ok " + BitsText(m.read(rt, pin.value.id), pin.value.width)]
    case Dump(which) =>
      var rows := PinsOf(m.pins, which);
      [Count("vals ", |rows|)] + ValLines(m, rt, rows)
    case Peek(name, addr) =>
      var mem := FindMem(m.mems, name);
      if mem.None? then [ReplyLine(Refused(NoMem, name))]
      else if addr >= Pow(2, mem.value.addrWidth) then [ReplyLine(Refused(Addr, AddrArg(name, addr)))]
      else ["ok " + BitsText(m.cell(rt, mem.value.id, addr), mem.value.width)]
    case Mem(name, start, count) =>
      var mem := FindMem(m.mems, name);
      if mem.None? then [ReplyLine(Refused(NoMem, name))]
      else DumpMem(m, rt, mem.value, name, if start.Some? then start.value else 0, count)
    case Load(name, path) =>
      if FindMem(m.mems, name).None? then [ReplyLine(Refused(NoMem, name))]
      else ["err E_IO " + path + ": " + LOAD_REFUSAL]
    case Save(name, path) =>
      var mem := FindMem(m.mems, name);
      if mem.None? then [ReplyLine(Refused(NoMem, name))]
      else if !m.stores(rt, mem.value.id) then [ReplyLine(Refused(Proto, "store failed"))]
      else ["err E_IO " + path + ": " + SAVE_REFUSAL]
    case _ => []
  }

  function Count(head: string, n: nat): string {
    head + Decimal(n)
  }

  function Map<T>(s: seq<T>, f: T -> string): (lines: seq<string>)
    ensures |lines| == |s|
  {
    seq(|s|, i requires 0 <= i < |s| => f(s[i]))
  }

  function Answered<S>(step: Stepped<S>): Executed<S> {
    Executed(step.session, Lines([ReplyLine(step.reply)]))
  }

  function AfterReset<S>(step: Stepped<S>, line: string): Executed<S> {
    Executed(step.session, if step.reply.Done? then Lines([line]) else Thrown)
  }

  function ExecuteCommand<S>(m: Machine<S>, s: Session<S>, c: P.Command, loads: bool): Executed<S> {
    match c
    case Quit => AfterReset(Reset(m, s, loads), "ok bye")
    case Reset => AfterReset(Reset(m, s, loads), "ok")
    case Run => Answered(Run(m, s))
    case Set(pin, value, mask) => Answered(Set(m, s, Assign(pin, value, MaskOf(mask))))
    case Poke(name, addr, value, mask) => Answered(Poke(m, s, name, addr, value, MaskOf(mask)))
    case Clear(name) => Answered(Clear(m, s, name))
    case Eval(assigns, queries) =>
      var step := Eval(m, s, ToSession(assigns), queries);
      if step.reply.Done? then Executed(step.session, Lines(["ok" + RowsText(ReadAll(m, step.session.rt, queries))]))
      else Answered(step)
    case _ => Executed(s, Lines(Inquire(m, s.rt, c)))
  }

  // `loads` is whether a reset gets its runtime.
  function Execute<S>(m: Machine<S>, s: Session<S>, line: string, loads: bool): Executed<S> {
    match P.ParseLine(line)
    case Empty => Executed(s, Lines([]))
    case BadValue => Executed(s, Lines(["err E_BADVAL invalid integer literal"]))
    case Malformed => Executed(s, Lines(["err E_PROTO malformed command"]))
    case Parsed(c) =>
      if s.poisoned && !Excused(c) then Executed(s, Lines([ReplyLine(Refused(NoSettle, NO_SETTLE))]))
      else ExecuteCommand(m, s, c, loads)
  }

  // The executor over a session object.
  method ExecuteLine<S>(session: SimSession<S>, line: string, loads: bool) returns (answer: Answer)
    modifies session
    ensures Executed(session.State(), answer) == Execute(session.machine, old(session.State()), line, loads)
  {
    match P.ParseLine(line) {
      case Empty => return Lines([]);
      case BadValue => return Lines(["err E_BADVAL invalid integer literal"]);
      case Malformed => return Lines(["err E_PROTO malformed command"]);
      case Parsed(c) =>
        if session.didNotSettle && !Excused(c) {
          return Lines([ReplyLine(Refused(NoSettle, NO_SETTLE))]);
        }
        answer := ExecuteOn(session, c, loads);
    }
  }

  method ExecuteOn<S>(session: SimSession<S>, c: P.Command, loads: bool) returns (answer: Answer)
    modifies session
    ensures Executed(session.State(), answer) == ExecuteCommand(session.machine, old(session.State()), c, loads)
  {
    var reply;
    match c {
      case Quit =>
        reply := session.ResetRuntime(loads);
        return if reply.Done? then Lines(["ok bye"]) else Thrown;
      case Reset =>
        reply := session.ResetRuntime(loads);
        return if reply.Done? then Lines(["ok"]) else Thrown;
      case Run => reply := session.RunQueue();
      case Set(pin, value, mask) => reply := session.SetPin(Assign(pin, value, MaskOf(mask)));
      case Poke(name, addr, value, mask) => reply := session.PokeCell(name, addr, value, MaskOf(mask));
      case Clear(name) => reply := session.ClearMem(name);
      case Eval(assigns, queries) =>
        var rows;
        reply, rows := session.EvalPins(ToSession(assigns), queries);
        if reply.Done? {
          return Lines(["ok" + RowsText(rows)]);
        }
      case _ => return Lines(Inquire(session.machine, session.rt, c));
    }
    answer := Lines([ReplyLine(reply)]);
  }
}
