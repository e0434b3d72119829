// One simulation session over a runtime (site/src/scripts/sim-session.ts).
module SimSession {
  // The runtime is foreign code. Here it is a machine: functions from its state to
  // its next state, to what it reads back and to whether it settled.

  import opened Numbers
  import opened Wrappers
  import P = SimProtocol

  datatype PinKind = In | Out

  datatype Pin = Pin(name: string, id: int, width: nat, kind: PinKind)

  datatype Mem = Mem(name: string, id: int, rom: bool, width: nat, addrWidth: nat)

  datatype Bits = Bits(value: nat, defined: nat) {
    // One spelling for values that differ only where nothing is known.
    function Canonical(width: nat): Bits {
      var d := And(defined, Mask(width));
      Bits(And(value, d), d)
    }
  }

  // The runtime after a call, and whether it settled.
  datatype Settling<+S> = Settling(next: S, settled: bool)

  datatype Machine<!S> = Machine(
    pins: seq<Pin>,
    mems: seq<Mem>,
    // What a load gives, once its memories have their images.
    boot: Settling<S>,
    // `setValue` and `run`
    drive: (S, int, nat, nat) -> Settling<S>,
    run: S -> Settling<S>,
    // `writeMemWord` and `run`; None for a status other than 0
    write: (S, int, nat, nat, nat) -> Option<Settling<S>>,
    // `clearMem` and `run`
    clear: (S, int) -> Option<Settling<S>>,
    read: (S, int) -> Bits,
    cell: (S, int, nat) -> Bits,
    // `storeMemImage`: whether there is an image to give.
    stores: (S, int) -> bool)

  datatype Session<+S> = Session(rt: S, poisoned: bool)

  datatype Code = NoPin | NotIn | Width | NoSettle | NoMem | Addr | Proto

  datatype Reply = Done | Refused(code: Code, arg: string)

  datatype DriveAssign = DriveAssign(name: string, value: nat, defined: nat)

  datatype Event =
    | Drive(assigns: seq<DriveAssign>)
    | Poked(name: string, addr: nat, value: nat, defined: nat)
    | Cleared(name: string)
    | Loaded(name: string, words: nat)
    | Rebuilt

  // What one call did to the session, said to its caller and told its listeners.
  datatype Stepped<+S> = Stepped(session: Session<S>, reply: Reply, events: seq<Event>)

  const NO_SETTLE := "settle work budget exceeded; reset required"

  // ---- looking up --------------------------------------------------------------------

  function FindPin(pins: seq<Pin>, kind: PinKind, name: string): (r: Option<Pin>)
    ensures r.Some? ==> r.value in pins && r.value.kind == kind && r.value.name == name
  {
    if pins == [] then None
    else if pins[0].kind == kind && pins[0].name == name then Some(pins[0])
    else FindPin(pins[1..], kind, name)
  }

  function FindMem(mems: seq<Mem>, name: string): (r: Option<Mem>)
    ensures r.Some? ==> r.value in mems && r.value.name == name
  {
    if mems == [] then None else if mems[0].name == name then Some(mems[0]) else FindMem(mems[1..], name)
  }

  predicate Fits(width: nat, value: int, defined: int) {
    0 <= value < Pow(2, width) && 0 <= defined < Pow(2, width)
  }

  datatype Assign = Assign(pin: string, value: int, defined: Option<int>)

  datatype Resolved = Resolved(pin: Pin, value: nat, defined: nat)

  // An output is not to be driven, an unknown name is no pin, a bit beyond the
  // width does not fit.
  function Resolve(pins: seq<Pin>, a: Assign): Result<Resolved, Reply> {
    match FindPin(pins, In, a.pin)
    case None => Failed(Refused(if FindPin(pins, Out, a.pin).Some? then NotIn else NoPin, a.pin))
    case Some(pin) =>
      var defined := if a.defined.Some? then a.defined.value else Mask(pin.width);
      if Fits(pin.width, a.value, defined) then Ok(Resolved(pin, a.value, defined)) else Failed(Refused(Width, a.pin))
  }

  // ---- the calls ---------------------------------------------------------------------

  function Refuse<S>(s: Session<S>, code: Code, arg: string): Stepped<S> {
    Stepped(s, Refused(code, arg), [])
  }

  // A call that reached the runtime: it settled and is told, or the session is poisoned.
  function Reach<S>(effect: Settling<S>, events: seq<Event>): Stepped<S> {
    if effect.settled then Stepped(Session(effect.next, false), Done, events)
    else Stepped(Session(effect.next, true), Refused(NoSettle, NO_SETTLE), [])
  }

  function Set<S>(m: Machine<S>, s: Session<S>, a: Assign): Stepped<S> {
    if s.poisoned then Refuse(s, NoSettle, NO_SETTLE) else
    match Resolve(m.pins, a)
    case Failed(reply) => Stepped(s, reply, [])
    case Ok(r) => Reach(m.drive(s.rt, r.pin.id, r.value, r.defined), [Drive([Told(r)])])
  }

  function Told(r: Resolved): DriveAssign {
    DriveAssign(r.pin.name, r.value, r.defined)
  }

  function ResolveAll(pins: seq<Pin>, assigns: seq<Assign>): (r: Result<seq<Resolved>, Reply>)
    ensures r.Failed? ==> r.error.Refused?
  {
    if assigns == [] then Ok([]) else
    match Resolve(pins, assigns[0])
    case Failed(reply) => Failed(reply)
    case Ok(r) =>
      match ResolveAll(pins, assigns[1..])
      case Failed(reply) => Failed(reply)
      case Ok(rest) => Ok([r] + rest)
  }

  predicate Known(pins: seq<Pin>, q: string) {
    FindPin(pins, Out, q).Some? || FindPin(pins, In, q).Some?
  }

  function FirstUnknown(pins: seq<Pin>, queries: seq<string>): Option<string> {
    if queries == [] then None
    else if !Known(pins, queries[0]) then Some(queries[0])
    else FirstUnknown(pins, queries[1..])
  }

  // A pin and what it reads.
  datatype PinRead = PinRead(pin: Pin, bits: Bits)

  // The queried pins, outputs first; a name without a pin is passed over.
  function ReadAll<S>(m: Machine<S>, rt: S, queries: seq<string>): seq<PinRead> {
    if queries == [] then [] else
    var out := FindPin(m.pins, Out, queries[0]);
    var pin := if out.Some? then out else FindPin(m.pins, In, queries[0]);
    (if pin.Some? then [PinRead(pin.value, m.read(rt, pin.value.id))] else []) + ReadAll(m, rt, queries[1..])
  }

  // One drive after another, until one does not settle.
  function DriveAll<S>(m: Machine<S>, rt: S, resolved: seq<Resolved>): Settling<S>
    decreases resolved
  {
    if resolved == [] then Settling(rt, true) else
    var r := resolved[0];
    var effect := m.drive(rt, r.pin.id, r.value, r.defined);
    if effect.settled then DriveAll(m, effect.next, resolved[1..]) else effect
  }

  function ToldAll(resolved: seq<Resolved>): (told: seq<DriveAssign>)
    ensures |told| == |resolved|
  {
    seq(|resolved|, i requires 0 <= i < |resolved| => Told(resolved[i]))
  }

  // All checks come first: a refused eval drives nothing.
  function Eval<S>(m: Machine<S>, s: Session<S>, assigns: seq<Assign>, queries: seq<string>): Stepped<S> {
    if s.poisoned then Refuse(s, NoSettle, NO_SETTLE) else
    match ResolveAll(m.pins, assigns)
    case Failed(reply) => Stepped(s, reply, [])
    case Ok(resolved) =>
      var unknown := FirstUnknown(m.pins, queries);
      if unknown.Some? then Refuse(s, NoPin, unknown.value)
      else if resolved == [] then Stepped(s, Done, [])
      else Reach(DriveAll(m, s.rt, resolved), [Drive(ToldAll(resolved))])
  }

  function AddrArg(name: string, addr: int): string {
    name + " " + if addr >= 0 then P.WriteHex(addr) else "0x-" + Spell(-addr, 16)
  }

  function Poke<S>(m: Machine<S>, s: Session<S>, name: string, addr: int, value: int, defined: Option<int>): Stepped<S> {
    if s.poisoned then Refuse(s, NoSettle, NO_SETTLE) else
    match FindMem(m.mems, name)
    case None => Refuse(s, NoMem, name)
    case Some(mem) =>
      if addr < 0 || addr >= Pow(2, mem.addrWidth) then Refuse(s, Addr, AddrArg(name, addr)) else
      var mask := if defined.Some? then defined.value else Mask(mem.width);
      if !Fits(mem.width, value, mask) then Refuse(s, Width, name) else
      match m.write(s.rt, mem.id, addr, value, mask)
      case None => Refuse(s, Proto, "write failed")
      case Some(effect) => Reach(effect, [Poked(name, addr, value, mask)])
  }

  function Clear<S>(m: Machine<S>, s: Session<S>, name: string): Stepped<S> {
    if s.poisoned then Refuse(s, NoSettle, NO_SETTLE) else
    match FindMem(m.mems, name)
    case None => Refuse(s, NoMem, name)
    case Some(mem) =>
      match m.clear(s.rt, mem.id)
      case None => Refuse(s, Proto, "clear failed")
      case Some(effect) => Reach(effect, [Cleared(name)])
  }

  function Run<S>(m: Machine<S>, s: Session<S>): Stepped<S> {
    if s.poisoned then Refuse(s, NoSettle, NO_SETTLE) else Reach(m.run(s.rt), [])
  }

  // A new runtime, unless it fails to load. Preloads that do not settle poison it
  // and nothing is told.
  function Reset<S>(m: Machine<S>, s: Session<S>, loads: bool): Stepped<S> {
    if !loads then Stepped(s, Refused(Proto, "reset failed"), [])
    else if m.boot.settled then Stepped(Session(m.boot.next, false), Done, [Rebuilt])
    else Stepped(Session(m.boot.next, true), Refused(NoSettle, NO_SETTLE), [])
  }

  // ---- the session object ----------------------------------------------------------------

  class SimSession<S> {
    const machine: Machine<S>
    var rt: S
    var didNotSettle: bool
    // What the listeners have been told, oldest first.
    var events: seq<Event>

    ghost function State(): Session<S>
      reads this
    {
      Session(rt, didNotSettle)
    }

    // Built over a runtime whose preloads settled; a build that does not is destroyed.
    constructor (machine: Machine<S>)
      requires machine.boot.settled
      ensures this.machine == machine && State() == Session(machine.boot.next, false) && events == []
    {
      this.machine := machine;
      rt := machine.boot.next;
      didNotSettle := false;
      events := [];
    }

    ghost predicate Did(before: Session<S>, told: seq<Event>, step: Stepped<S>, reply: Reply)
      reads this
    {
      State() == step.session && events == told + step.events && reply == step.reply
    }

    // Take over what the runtime did; a runtime that does not settle poisons.
    method Observe(effect: Settling<S>)
      modifies this
      ensures State() == Session(effect.next, old(didNotSettle) || !effect.settled) && events == old(events)
    {
      rt := effect.next;
      if !effect.settled {
        didNotSettle := true;
      }
    }

    method SetPin(a: Assign) returns (reply: Reply)
      modifies this
      ensures Did(old(State()), old(events), Set(machine, old(State()), a), reply)
    {
      if didNotSettle {
        return Refused(NoSettle, NO_SETTLE);
      }
      match Resolve(machine.pins, a) {
        case Failed(r) => return r;
        case Ok(r) =>
          var effect := machine.drive(rt, r.pin.id, r.value, r.defined);
          Observe(effect);
          if !effect.settled {
            return Refused(NoSettle, NO_SETTLE);
          }
          events := events + [Drive([Told(r)])];
          return Done;
      }
    }

    method EvalPins(assigns: seq<Assign>, queries: seq<string>) returns (reply: Reply, rows: seq<PinRead>)
      modifies this
      ensures Did(old(State()), old(events), Eval(machine, old(State()), assigns, queries), reply)
      ensures rows == if reply.Done? then ReadAll(machine, rt, queries) else []
      ensures reply.Done? ==> |rows| == |queries| && forall i :: 0 <= i < |rows| ==>
                Get(machine, State(), queries[i]) == Ok(rows[i].bits)
    {
      if didNotSettle {
        return Refused(NoSettle, NO_SETTLE), [];
      }
      var resolved := ResolveEach(assigns);
      if resolved.Failed? {
        return resolved.error, [];
      }
      var unknown := FirstUnknown(machine.pins, queries);
      if unknown.Some? {
        return Refused(NoPin, unknown.value), [];
      }
      var settled := DriveEach(resolved.value);
      if !settled {
        return Refused(NoSettle, NO_SETTLE), [];
      }
      if |resolved.value| > 0 {
        events := events + [Drive(ToldAll(resolved.value))];
      }
      ReadsGet(machine, State(), queries);
      return Done, ReadAll(machine, rt, queries);
    }

    method ResolveEach(assigns: seq<Assign>) returns (r: Result<seq<Resolved>, Reply>)
      ensures r == ResolveAll(machine.pins, assigns)
    {
      var resolved: seq<Resolved> := [];
      ghost var all := ResolveAll(machine.pins, assigns);
      assert assigns[0..] == assigns && (all.Ok? ==> resolved + all.value == all.value);
      for i := 0 to |assigns|
        invariant match ResolveAll(machine.pins, assigns[i..])
                  case Failed(e) => all == Failed(e)
                  case Ok(rest) => all == Ok(resolved + rest)
      {
        assert assigns[i..][1..] == assigns[i + 1..];
        var one := Resolve(machine.pins, assigns[i]);
        if one.Failed? {
          return Failed(one.error);
        }
        ghost var rest := ResolveAll(machine.pins, assigns[i + 1..]);
        assert rest.Ok? ==> resolved + ([one.value] + rest.value) == (resolved + [one.value]) + rest.value;
        resolved := resolved + [one.value];
      }
      assert resolved + [] == resolved;
      r := Ok(resolved);
    }

    method DriveEach(resolved: seq<Resolved>) returns (settled: bool)
      requires !didNotSettle
      modifies this
      ensures events == old(events)
      ensures var effect := DriveAll(machine, old(rt), resolved);
              settled == effect.settled && State() == Session(effect.next, !effect.settled)
    {
      for i := 0 to |resolved|
        invariant !didNotSettle && events == old(events)
        invariant DriveAll(machine, old(rt), resolved) == DriveAll(machine, rt, resolved[i..])
      {
        assert resolved[i..][1..] == resolved[i + 1..];
        var r := resolved[i];
        var effect := machine.drive(rt, r.pin.id, r.value, r.defined);
        Observe(effect);
        if !effect.settled {
          return false;
        }
      }
      return true;
    }

    method PokeCell(name: string, addr: int, value: int, defined: Option<int>) returns (reply: Reply)
      modifies this
      ensures Did(old(State()), old(events), Poke(machine, old(State()), name, addr, value, defined), reply)
    {
      if didNotSettle {
        return Refused(NoSettle, NO_SETTLE);
      }
      var mem := FindMem(machine.mems, name);
      if mem.None? {
        return Refused(NoMem, name);
      }
      if addr < 0 || addr >= Pow(2, mem.value.addrWidth) {
        return Refused(Addr, AddrArg(name, addr));
      }
      var mask := if defined.Some? then defined.value else Mask(mem.value.width);
      if !Fits(mem.value.width, value, mask) {
        return Refused(Width, name);
      }
      var effect := machine.write(rt, mem.value.id, addr, value, mask);
      if effect.None? {
        return Refused(Proto, "write failed");
      }
      Observe(effect.value);
      if !effect.value.settled {
        return Refused(NoSettle, NO_SETTLE);
      }
      events := events + [Poked(name, addr, value, mask)];
      return Done;
    }

    method ClearMem(name: string) returns (reply: Reply)
      modifies this
      ensures Did(old(State()), old(events), Clear(machine, old(State()), name), reply)
    {
      if didNotSettle {
        return Refused(NoSettle, NO_SETTLE);
      }
      var mem := FindMem(machine.mems, name);
      if mem.None? {
        return Refused(NoMem, name);
      }
      var effect := machine.clear(rt, mem.value.id);
      if effect.None? {
        return Refused(Proto, "clear failed");
      }
      Observe(effect.value);
      if !effect.value.settled {
        return Refused(NoSettle, NO_SETTLE);
      }
      events := events + [Cleared(name)];
      return Done;
    }

    method RunQueue() returns (reply: Reply)
      modifies this
      ensures Did(old(State()), old(events), Run(machine, old(State())), reply)
    {
      if didNotSettle {
        return Refused(NoSettle, NO_SETTLE);
      }
      var effect := machine.run(rt);
      Observe(effect);
      return if effect.settled then Done else Refused(NoSettle, NO_SETTLE);
    }

    // `loads` is whether the runtime's bytes load again.
    method ResetRuntime(loads: bool) returns (reply: Reply)
      modifies this
      ensures Did(old(State()), old(events), Reset(machine, old(State()), loads), reply)
    {
      if !loads {
        return Refused(Proto, "reset failed");
      }
      didNotSettle := false;
      Observe(machine.boot);
      if !machine.boot.settled {
        return Refused(NoSettle, NO_SETTLE);
      }
      events := events + [Rebuilt];
      return Done;
    }

    // `get`: outputs first, then inputs.
    method GetPin(name: string) returns (r: Result<Bits, Reply>)
      ensures r == Get(machine, State(), name)
    {
      if didNotSettle {
        return Failed(Refused(NoSettle, NO_SETTLE));
      }
      var pin := FindPin(machine.pins, Out, name);
      if pin.None? {
        pin := FindPin(machine.pins, In, name);
      }
      if pin.None? {
        return Failed(Refused(NoPin, name));
      }
      return Ok(machine.read(rt, pin.value.id));
    }
  }

  // Each query answered as a read of its own would be.
  lemma {:induction false} ReadsGet<S>(m: Machine<S>, s: Session<S>, queries: seq<string>)
    requires !s.poisoned && FirstUnknown(m.pins, queries).None?
    ensures var rows := ReadAll(m, s.rt, queries);
            |rows| == |queries| && forall i :: 0 <= i < |rows| ==> Get(m, s, queries[i]) == Ok(rows[i].bits)
  {
    if queries != [] {
      ReadsGet(m, s, queries[1..]);
      var rows, rest := ReadAll(m, s.rt, queries), ReadAll(m, s.rt, queries[1..]);
      forall i | 0 <= i < |rows|
        ensures Get(m, s, queries[i]) == Ok(rows[i].bits)
      {
        if i > 0 {
          assert rows[i] == rest[i - 1] && queries[i] == queries[1..][i - 1];
        }
      }
    }
  }

  function Get<S>(m: Machine<S>, s: Session<S>, name: string): Result<Bits, Reply> {
    if s.poisoned then Failed(Refused(NoSettle, NO_SETTLE)) else
    match FindPin(m.pins, Out, name)
    case Some(pin) => Ok(m.read(s.rt, pin.id))
    case None =>
      match FindPin(m.pins, In, name)
      case Some(pin) => Ok(m.read(s.rt, pin.id))
      case None => Failed(Refused(NoPin, name))
  }
}
