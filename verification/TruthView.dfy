// The truth view over the cap (site/src/scripts/truth-view.ts).
module TruthView {
  // Every assignment of the unknown inputs is tried on a scratch session, and a row
  // is driven and found again.

  import opened Collections
  import opened Numbers
  import opened Wrappers
  import P = SimProtocol
  import opened SimSession
  import E = SimExecutor

  datatype Column = Column(name: string, width: nat)

  type Cell = Option<nat>

  datatype Row = Row(ins: seq<Cell>, outs: seq<Cell>)

  datatype Table = Table(inputs: seq<Column>, outputs: seq<Column>, rows: seq<Row>)

  // A pin's value as it was read, with the width it was read at.
  datatype Reading = Reading(name: string, bits: Bits, width: nat)

  predicate FullyDefined(b: Bits, width: nat) {
    And(b.defined, Mask(width)) == Mask(width)
  }

  // ---- numbering assignments -------------------------------------------------------------

  function Sum(widths: seq<nat>): nat {
    if widths == [] then 0 else widths[0] + Sum(widths[1..])
  }

  // Assignment `i`: the first width takes the lowest bits.
  function Unpack(widths: seq<nat>, i: nat): (values: seq<nat>)
    ensures |values| == |widths|
    decreases |widths|
  {
    if widths == [] then [] else [i % Pow(2, widths[0])] + Unpack(widths[1..], i / Pow(2, widths[0]))
  }

  function Pack(widths: seq<nat>, values: seq<nat>): nat
    requires |widths| == |values|
    decreases |widths|
  {
    if widths == [] then 0 else values[0] + Pow(2, widths[0]) * Pack(widths[1..], values[1..])
  }

  predicate InWidths(widths: seq<nat>, values: seq<nat>) {
    |values| == |widths| && forall k :: 0 <= k < |widths| ==> values[k] < Pow(2, widths[k])
  }

  lemma DivFits(i: nat, p: nat, q: nat)
    requires p > 0 && i < p * q
    ensures i / p < q
  {
    assert i == i / p * p + i % p;
    if i / p >= q {
      MulLe(q, i / p, p);
    }
  }

  lemma RestFits(widths: seq<nat>, i: nat)
    requires widths != [] && i < Pow(2, Sum(widths))
    ensures i / Pow(2, widths[0]) < Pow(2, Sum(widths[1..]))
  {
    PowAdd(2, widths[0], Sum(widths[1..]));
    DivFits(i, Pow(2, widths[0]), Pow(2, Sum(widths[1..])));
  }

  lemma PackStep(widths: seq<nat>, v: nat, rest: seq<nat>)
    requires widths != [] && |rest| == |widths| - 1
    ensures Pack(widths, [v] + rest) == v + Pow(2, widths[0]) * Pack(widths[1..], rest)
  {
    assert ([v] + rest)[1..] == rest;
  }

  lemma Quotient(i: nat, p: nat) returns (v: nat, rest: nat)
    requires p > 0
    ensures v == i % p && rest == i / p && v + p * rest == i
  {
    v, rest := i % p, i / p;
  }

  lemma UnpackStep(widths: seq<nat>, i: nat) returns (v: nat, rest: nat)
    requires widths != [] && i < Pow(2, Sum(widths))
    ensures Unpack(widths, i) == [v] + Unpack(widths[1..], rest)
    ensures v + Pow(2, widths[0]) * rest == i && rest < Pow(2, Sum(widths[1..]))
  {
    RestFits(widths, i);
    v, rest := Quotient(i, Pow(2, widths[0]));
  }

  // Unpacking numbers every assignment once: it is within the widths, ...
  lemma {:induction false} UnpackFits(widths: seq<nat>, i: nat)
    ensures InWidths(widths, Unpack(widths, i))
    decreases |widths|
  {
    if widths != [] {
      UnpackFits(widths[1..], i / Pow(2, widths[0]));
    }
  }

  // ... its number is read back from it, ...
  lemma {:induction false} PackUnpack(widths: seq<nat>, i: nat)
    requires i < Pow(2, Sum(widths))
    ensures Pack(widths, Unpack(widths, i)) == i
    decreases |widths|
  {
    if widths != [] {
      var v, rest := UnpackStep(widths, i);
      PackUnpack(widths[1..], rest);
      PackStep(widths, v, Unpack(widths[1..], rest));
    }
  }

  // ... and every assignment has a number.
  lemma {:induction false} UnpackPack(widths: seq<nat>, values: seq<nat>)
    requires InWidths(widths, values)
    ensures Pack(widths, values) < Pow(2, Sum(widths))
    ensures Unpack(widths, Pack(widths, values)) == values
    decreases |widths|
  {
    if widths != [] {
      var p, rest := Pow(2, widths[0]), Pack(widths[1..], values[1..]);
      UnpackPack(widths[1..], values[1..]);
      PowAdd(2, widths[0], Sum(widths[1..]));
      Below(values[0], p, rest, Pow(2, Sum(widths[1..])));
      ModUnique(Pack(widths, values), p, rest, values[0]);
      assert values == [values[0]] + values[1..];
    }
  }

  lemma Below(v: nat, p: nat, rest: nat, q: nat)
    requires v < p && rest < q
    ensures v + p * rest < p * q
  {
    MulLe(rest + 1, q, p);
    assert (rest + 1) * p == p * rest + p;
  }

  // ---- driving pins in order -----------------------------------------------------------------

  datatype Target = Target(name: string, width: nat, value: nat)

  function SetTarget<S>(m: Machine<S>, s: Session<S>, t: Target): Stepped<S> {
    Set(m, s, Assign(t.name, t.value, Some(Mask(t.width))))
  }

  // Whole values set one after another, until one is refused.
  function Hold<S>(m: Machine<S>, s: Session<S>, targets: seq<Target>): Stepped<S>
    decreases |targets|
  {
    if targets == [] then Stepped(s, Done, []) else
    var step := SetTarget(m, s, targets[0]);
    if step.reply.Done? then After(step.events, Hold(m, step.session, targets[1..])) else step
  }

  // A step, when these events were told before it.
  function After<S>(told: seq<Event>, step: Stepped<S>): Stepped<S> {
    Stepped(step.session, step.reply, told + step.events)
  }

  // What a row's known cells ask for.
  function RowTargets(columns: seq<Column>, cells: seq<Cell>): seq<Target>
    requires |cells| == |columns|
    decreases |columns|
  {
    if columns == [] then []
    else (if cells[0].None? then [] else [Target(columns[0].name, columns[0].width, cells[0].value)])
         + RowTargets(columns[1..], cells[1..])
  }

  predicate WellFormed(table: Table) {
    forall r <- table.rows :: |r.ins| == |table.inputs|
  }

  function DriveRow<S>(m: Machine<S>, s: Session<S>, table: Table, row: nat): Stepped<S>
    requires WellFormed(table)
  {
    if row >= |table.rows| then Stepped(s, Refused(NoPin, E.Decimal(row)), [])
    else Hold(m, s, RowTargets(table.inputs, table.rows[row].ins))
  }

  // Part way through holding: these are left, the listeners told `news` so far.
  ghost predicate Midway<S>(m: Machine<S>, all: Stepped<S>, told: seq<Event>, news: seq<Event>,
                            s: Session<S>, events: seq<Event>, left: seq<Target>)
  {
    events == told + news && all == After(news, Hold(m, s, left))
  }

  lemma Starts<S>(m: Machine<S>, told: seq<Event>, s: Session<S>, targets: seq<Target>)
    ensures Midway(m, Hold(m, s, targets), told, [], s, told, targets)
  {
    assert told + [] == told;
  }

  lemma Goes<S>(m: Machine<S>, all: Stepped<S>, told: seq<Event>, news: seq<Event>,
                s: Session<S>, events: seq<Event>, t: Target, left: seq<Target>)
    requires Midway(m, all, told, news, s, events, [t] + left)
    ensures var step := SetTarget(m, s, t);
            if step.reply.Done? then Midway(m, all, told, news + step.events, step.session, events + step.events, left)
            else all == Stepped(step.session, step.reply, news + step.events) && events + step.events == told + all.events
  {
    var step := SetTarget(m, s, t);
    assert ([t] + left)[1..] == left;
    Assoc(news, step.events, Hold(m, step.session, left).events);
    Assoc(told, news, step.events);
  }

  lemma Ends<S>(m: Machine<S>, all: Stepped<S>, told: seq<Event>, news: seq<Event>, s: Session<S>, events: seq<Event>)
    requires Midway(m, all, told, news, s, events, [])
    ensures all == Stepped(s, Done, news) && events == told + all.events
  {
    assert news + [] == news;
  }

  // One more pin set.
  method Put<S>(session: SimSession<S>, t: Target, ghost all: Stepped<S>, ghost told: seq<Event>,
                ghost news: seq<Event>, ghost left: seq<Target>)
    returns (answer: Reply, ghost more: seq<Event>)
    requires Midway(session.machine, all, told, news, session.State(), session.events, [t] + left)
    modifies session
    ensures if answer.Done? then Midway(session.machine, all, told, more, session.State(), session.events, left)
            else session.State() == all.session && session.events == told + all.events && answer == all.reply
  {
    Goes(session.machine, all, told, news, session.State(), session.events, t, left);
    more := news + SetTarget(session.machine, session.State(), t).events;
    answer := session.SetPin(Assign(t.name, t.value, Some(Mask(t.width))));
  }

  method DriveRowOn<S>(session: SimSession<S>, table: Table, row: nat) returns (reply: Reply)
    requires WellFormed(table)
    modifies session
    ensures session.Did(old(session.State()), old(session.events),
                        DriveRow(session.machine, old(session.State()), table, row), reply)
  {
    if row >= |table.rows| {
      return Refused(NoPin, E.Decimal(row));
    }
    var r := table.rows[row];
    ghost var told, news: seq<Event> := session.events, [];
    ghost var all := DriveRow(session.machine, session.State(), table, row);
    Starts(session.machine, told, session.State(), RowTargets(table.inputs, r.ins));
    assert table.inputs[0..] == table.inputs && r.ins[0..] == r.ins;
    for i := 0 to |table.inputs|
      invariant Midway(session.machine, all, told, news, session.State(), session.events,
                       RowTargets(table.inputs[i..], r.ins[i..]))
    {
      RowTargetsStep(table.inputs, r.ins, i);
      if r.ins[i].Some? {
        var col := table.inputs[i];
        var answer;
        answer, news := Put(session, Target(col.name, col.width, r.ins[i].value), all, told, news,
                            RowTargets(table.inputs[i + 1..], r.ins[i + 1..]));
        if !answer.Done? {
          return answer;
        }
      }
    }
    Ends(session.machine, all, told, news, session.State(), session.events);
    return Done;
  }

  lemma RowTargetsStep(columns: seq<Column>, cells: seq<Cell>, i: nat)
    requires |cells| == |columns| && i < |columns|
    ensures cells[i].None? ==> RowTargets(columns[i..], cells[i..]) == RowTargets(columns[i + 1..], cells[i + 1..])
    ensures cells[i].Some? ==>
            RowTargets(columns[i..], cells[i..]) ==
            [Target(columns[i].name, columns[i].width, cells[i].value)] + RowTargets(columns[i + 1..], cells[i + 1..])
  {
    assert columns[i..][1..] == columns[i + 1..] && cells[i..][1..] == cells[i + 1..];
  }

  // ---- finding the live row ------------------------------------------------------------------

  function FindReading(readings: seq<Reading>, name: string): (r: Option<Reading>)
    ensures r.Some? ==> r.value in readings && r.value.name == name
  {
    if readings == [] then None
    else if readings[0].name == name then Some(readings[0])
    else FindReading(readings[1..], name)
  }

  // What the columns' pins hold; None when there is no such pin or some of its bits
  // are unknown.
  function Wanted(columns: seq<Column>, readings: seq<Reading>): Option<seq<nat>> {
    if columns == [] then Some([]) else
    var pin := FindReading(readings, columns[0].name);
    if pin.None? || !FullyDefined(pin.value.bits, pin.value.width) then None else
    match Wanted(columns[1..], readings)
    case None => None
    case Some(rest) => Some([And(pin.value.bits.value, Mask(columns[0].width))] + rest)
  }

  predicate Matches(cells: seq<Cell>, want: seq<nat>) {
    forall k :: 0 <= k < |cells| ==> k < |want| && cells[k] == Some(want[k])
  }

  // The first row whose inputs are the pins', or -1.
  predicate IsLiveRow(table: Table, readings: seq<Reading>, index: int) {
    match Wanted(table.inputs, readings)
    case None => index == -1
    case Some(want) =>
      if 0 <= index < |table.rows| then
        Matches(table.rows[index].ins, want) && forall j :: 0 <= j < index ==> !Matches(table.rows[j].ins, want)
      else
        index == -1 && forall j :: 0 <= j < |table.rows| ==> !Matches(table.rows[j].ins, want)
  }

  method WantedBy(columns: seq<Column>, readings: seq<Reading>) returns (r: Option<seq<nat>>)
    ensures r == Wanted(columns, readings)
  {
    var want: seq<nat> := [];
    ghost var all := Wanted(columns, readings);
    assert columns[0..] == columns && (all.Some? ==> [] + all.value == all.value);
    for i := 0 to |columns|
      invariant all == match Wanted(columns[i..], readings) case None => None case Some(rest) => Some(want + rest)
    {
      assert columns[i..][1..] == columns[i + 1..];
      var pin := FindReading(readings, columns[i].name);
      if pin.None? || !FullyDefined(pin.value.bits, pin.value.width) {
        return None;
      }
      var v := And(pin.value.bits.value, Mask(columns[i].width));
      ghost var rest := Wanted(columns[i + 1..], readings);
      if rest.Some? {
        Assoc(want, [v], rest.value);
      }
      want := want + [v];
    }
    assert want + [] == want;
    return Some(want);
  }

  method LiveRowIndex(table: Table, readings: seq<Reading>) returns (index: int)
    ensures IsLiveRow(table, readings, index)
  {
    var want := WantedBy(table.inputs, readings);
    if want.None? {
      return -1;
    }
    for j := 0 to |table.rows|
      invariant forall k :: 0 <= k < j ==> !Matches(table.rows[k].ins, want.value)
    {
      if Matches(table.rows[j].ins, want.value) {
        return j;
      }
    }
    return -1;
  }

  // ---- the table over the cap ------------------------------------------------------------------

  // What a session answers for a pin, with the width it has there.
  function Seen<S>(m: Machine<S>, s: Session<S>, name: string): Option<Reading> {
    match Get(m, s, name)
    case Failed(_) => None
    case Ok(bits) =>
      var out := FindPin(m.pins, Out, name);
      var pin := if out.Some? then out else FindPin(m.pins, In, name);
      if pin.None? then None else Some(Reading(name, bits, pin.value.width))
  }

  // `new Map(...)`: of readings of one name the last stands.
  function LastReading(readings: seq<Reading>, name: string): Option<Reading> {
    if readings == [] then None
    else if readings[|readings| - 1].name == name then Some(readings[|readings| - 1])
    else LastReading(readings[..|readings| - 1], name)
  }

  function FixedReading(fixed: Option<seq<Reading>>, name: string): Option<Reading> {
    if fixed.Some? then LastReading(fixed.value, name) else None
  }

  // An input to be enumerated: not wholly defined where its value is taken from,
  // the captured inputs when there are any and else the live session.
  predicate Unknown<S>(m: Machine<S>, live: Session<S>, fixed: Option<seq<Reading>>, pin: Pin) {
    if fixed.Some? then
      var r := FixedReading(fixed, pin.name);
      if r.Some? then !FullyDefined(r.value.bits, r.value.width) else !FullyDefined(Bits(0, 0), pin.width)
    else
      var r := Seen(m, live, pin.name);
      r.None? || !FullyDefined(r.value.bits, r.value.width)
  }

  function UnknownPins<S>(m: Machine<S>, live: Session<S>, fixed: Option<seq<Reading>>, inputs: seq<Pin>): (unknown: seq<Pin>)
    ensures forall p <- unknown :: p in inputs && Unknown(m, live, fixed, p)
    ensures forall p <- inputs :: Unknown(m, live, fixed, p) ==> p in unknown
    decreases |inputs|
  {
    if inputs == [] then []
    else (if Unknown(m, live, fixed, inputs[0]) then [inputs[0]] else []) + UnknownPins(m, live, fixed, inputs[1..])
  }

  function Names(pins: seq<Pin>): (names: seq<string>)
    ensures |names| == |pins|
    ensures forall p <- pins :: p.name in names
  {
    var names := seq(|pins|, i requires 0 <= i < |pins| => pins[i].name);
    assert forall p <- pins :: exists i :: 0 <= i < |pins| && p == pins[i] && names[i] == p.name;
    names
  }

  function Widths(pins: seq<Pin>): (widths: seq<nat>)
    ensures |widths| == |pins|
  {
    seq(|pins|, i requires 0 <= i < |pins| => pins[i].width)
  }

  // The value a known input is held at.
  function KnownValue<S>(m: Machine<S>, live: Session<S>, fixed: Option<seq<Reading>>, pin: Pin): nat {
    var captured := FixedReading(fixed, pin.name);
    var r := if captured.Some? then captured else Seen(m, live, pin.name);
    if r.Some? then And(r.value.bits.value, Mask(pin.width)) else 0
  }

  function KnownTargets<S>(m: Machine<S>, live: Session<S>, fixed: Option<seq<Reading>>, inputs: seq<Pin>, unknown: seq<string>): seq<Target>
    decreases |inputs|
  {
    if inputs == [] then []
    else (if inputs[0].name in unknown then []
          else [Target(inputs[0].name, inputs[0].width, KnownValue(m, live, fixed, inputs[0]))])
         + KnownTargets(m, live, fixed, inputs[1..], unknown)
  }

  // Assignment `i` of the unknown pins.
  function Assigned(unknown: seq<Pin>, i: nat): (targets: seq<Target>)
    ensures |targets| == |unknown|
  {
    var values := Unpack(Widths(unknown), i);
    seq(|unknown|, k requires 0 <= k < |unknown| => Target(unknown[k].name, unknown[k].width, values[k]))
  }

  // `Map.get`: of targets of one name the last stands.
  function ValueIn(targets: seq<Target>, name: string): Cell {
    if targets == [] then None
    else if targets[|targets| - 1].name == name then Some(targets[|targets| - 1].value)
    else ValueIn(targets[..|targets| - 1], name)
  }

  function InCells(inputs: seq<Pin>, unknown: seq<Pin>, known: seq<Target>, i: nat): (cells: seq<Cell>)
    ensures |cells| == |inputs|
  {
    var given, names := Assigned(unknown, i), Names(unknown);
    seq(|inputs|, k requires 0 <= k < |inputs| =>
      if inputs[k].name in names then ValueIn(given, inputs[k].name) else ValueIn(known, inputs[k].name))
  }

  function OutCell<S>(m: Machine<S>, s: Session<S>, pin: Pin): Cell {
    var r := Seen(m, s, pin.name);
    if r.Some? && FullyDefined(r.value.bits, r.value.width) then Some(And(r.value.bits.value, Mask(pin.width))) else None
  }

  function OutCells<S>(m: Machine<S>, s: Session<S>, outputs: seq<Pin>): (cells: seq<Cell>)
    ensures |cells| == |outputs|
  {
    seq(|outputs|, k requires 0 <= k < |outputs| => OutCell(m, s, outputs[k]))
  }

  // What is tried: the pins in play and the inputs already held.
  datatype Plan = Plan(inputs: seq<Pin>, outputs: seq<Pin>, unknown: seq<Pin>, known: seq<Target>)

  datatype Tried<+S> = Tried(session: Session<S>, reply: Reply, events: seq<Event>, rows: seq<Row>)

  function RowAt<S>(m: Machine<S>, s: Session<S>, plan: Plan, i: nat): Row {
    Row(InCells(plan.inputs, plan.unknown, plan.known, i), OutCells(m, s, plan.outputs))
  }

  // Assignments `i` to `total`, each attempted and its row recorded.
  function Enumerate<S>(attempt: (Session<S>, nat) -> Stepped<S>, record: (Session<S>, nat) -> Row,
                        s: Session<S>, i: nat, total: nat): Tried<S>
    decreases total - i
  {
    if i >= total then Tried(s, Done, [], []) else
    var step := attempt(s, i);
    if !step.reply.Done? then Tried(step.session, step.reply, step.events, []) else
    var rest := Enumerate(attempt, record, step.session, i + 1, total);
    Tried(rest.session, rest.reply, step.events + rest.events, [record(step.session, i)] + rest.rows)
  }

  function Driver<S>(m: Machine<S>, plan: Plan): (Session<S>, nat) -> Stepped<S> {
    (s, i: nat) => Hold(m, s, Assigned(plan.unknown, i))
  }

  function Recorder<S>(m: Machine<S>, plan: Plan): (Session<S>, nat) -> Row {
    (s, i: nat) => RowAt(m, s, plan, i)
  }

  datatype ScratchOutcome =
    | Tabulated(table: Table, unknownBits: nat)
    | OverCap(unknownBits: nat)
    | StatefulCircuit(unknownBits: nat)
    | Threw(reply: Reply)

  function Columns(pins: seq<Pin>): (columns: seq<Column>)
    ensures |columns| == |pins|
  {
    seq(|pins|, i requires 0 <= i < |pins| => Column(pins[i].name, pins[i].width))
  }

  predicate HoldsRam(mems: seq<Mem>) {
    exists mem <- mems :: !mem.rom
  }

  function PlanOf<S>(m: Machine<S>, live: Session<S>, fixed: Option<seq<Reading>>): Plan {
    var inputs := E.PinsOf(m.pins, P.Inputs);
    var unknown := UnknownPins(m, live, fixed, inputs);
    Plan(inputs, E.PinsOf(m.pins, P.Outputs), unknown, KnownTargets(m, live, fixed, inputs, Names(unknown)))
  }

  // The known inputs held on the scratch session, then everything tried on it.
  function TryAll<S>(m: Machine<S>, scratch: Session<S>, plan: Plan): Tried<S> {
    var held := Hold(m, scratch, plan.known);
    if !held.reply.Done? then Tried(held.session, held.reply, held.events, []) else
    var tried := Enumerate(Driver(m, plan), Recorder(m, plan), held.session, 0, Pow(2, Sum(Widths(plan.unknown))));
    Tried(tried.session, tried.reply, held.events + tried.events, tried.rows)
  }

  function RowsFor<S>(m: Machine<S>, live: Session<S>, n: Machine<S>, scratch: Session<S>,
                      cap: nat, fixed: Option<seq<Reading>>, hasRam: bool): (ScratchOutcome, Tried<S>)
  {
    var plan := PlanOf(m, live, fixed);
    var bits := Sum(Widths(plan.unknown));
    if bits > cap then (OverCap(bits), Tried(scratch, Done, [], []))
    else if hasRam || HoldsRam(n.mems) then (StatefulCircuit(bits), Tried(scratch, Done, [], []))
    else
      var tried := TryAll(n, scratch, plan);
      (if tried.reply.Done? then Tabulated(Table(Columns(plan.inputs), Columns(plan.outputs), tried.rows), bits)
       else Threw(tried.reply), tried)
  }

  lemma {:induction false} SumSnoc(widths: seq<nat>, k: nat)
    requires k < |widths|
    ensures Sum(widths[..k + 1]) == Sum(widths[..k]) + widths[k]
  {
    if k > 0 {
      SumSnoc(widths[1..], k - 1);
      assert widths[..k + 1][1..] == widths[1..][..k] && widths[..k][1..] == widths[1..][..k - 1];
    }
  }

  // Value `k` of an assignment is shifted out of its number.
  lemma {:induction false} UnpackAt(widths: seq<nat>, i: nat, k: nat)
    requires k < |widths|
    ensures Unpack(widths, i)[k] == And(i / Pow(2, Sum(widths[..k])), Mask(widths[k]))
    decreases |widths|
  {
    if k == 0 {
      AndMask(i, widths[0]);
      assert i / Pow(2, Sum(widths[..0])) == i;
    } else {
      var b, p := Pow(2, widths[0]), Pow(2, Sum(widths[1..][..k - 1]));
      UnpackAt(widths[1..], i / b, k - 1);
      DivModSplit(i, b, p);
      assert widths[..k][1..] == widths[1..][..k - 1];
      PowAdd(2, widths[0], Sum(widths[1..][..k - 1]));
    }
  }

  method UnknownBy<S>(live: SimSession<S>, fixed: Option<seq<Reading>>, pin: Pin) returns (unknown: bool)
    ensures unknown == Unknown(live.machine, live.State(), fixed, pin)
  {
    if fixed.Some? {
      var r := FixedReading(fixed, pin.name);
      return if r.Some? then !FullyDefined(r.value.bits, r.value.width) else !FullyDefined(Bits(0, 0), pin.width);
    }
    var r := SeenBy(live, pin.name);
    return r.None? || !FullyDefined(r.value.bits, r.value.width);
  }

  method UnknownInputs<S>(live: SimSession<S>, fixed: Option<seq<Reading>>, inputs: seq<Pin>) returns (unknown: seq<Pin>)
    ensures unknown == UnknownPins(live.machine, live.State(), fixed, inputs)
  {
    unknown := [];
    assert inputs[0..] == inputs;
    ghost var m, state := live.machine, live.State();
    for i := 0 to |inputs|
      invariant UnknownPins(m, state, fixed, inputs) == unknown + UnknownPins(m, state, fixed, inputs[i..])
    {
      UnknownStep(m, state, fixed, inputs, i);
      var open := UnknownBy(live, fixed, inputs[i]);
      if open {
        Assoc(unknown, [inputs[i]], UnknownPins(m, state, fixed, inputs[i + 1..]));
        unknown := unknown + [inputs[i]];
      }
    }
    assert unknown + [] == unknown;
  }

  lemma UnknownStep<S>(m: Machine<S>, live: Session<S>, fixed: Option<seq<Reading>>, pins: seq<Pin>, i: nat)
    requires i < |pins|
    ensures var rest := UnknownPins(m, live, fixed, pins[i + 1..]);
            UnknownPins(m, live, fixed, pins[i..]) == if Unknown(m, live, fixed, pins[i]) then [pins[i]] + rest else rest
  {
    assert pins[i..][1..] == pins[i + 1..];
  }

  method SeenBy<S>(session: SimSession<S>, name: string) returns (r: Option<Reading>)
    ensures r == Seen(session.machine, session.State(), name)
  {
    var got := session.GetPin(name);
    var out := FindPin(session.machine.pins, Out, name);
    var pin := if out.Some? then out else FindPin(session.machine.pins, In, name);
    r := if got.Failed? || pin.None? then None else Some(Reading(name, got.value, pin.value.width));
  }

  method KnownBy<S>(live: SimSession<S>, fixed: Option<seq<Reading>>, pin: Pin) returns (value: nat)
    ensures value == KnownValue(live.machine, live.State(), fixed, pin)
  {
    var captured := FixedReading(fixed, pin.name);
    if captured.None? {
      captured := SeenBy(live, pin.name);
    }
    value := if captured.Some? then And(captured.value.bits.value, Mask(pin.width)) else 0;
  }

  lemma KnownStep<S>(m: Machine<S>, live: Session<S>, fixed: Option<seq<Reading>>, inputs: seq<Pin>, unknown: seq<string>, i: nat)
    requires i < |inputs|
    ensures var rest, pin := KnownTargets(m, live, fixed, inputs[i + 1..], unknown), inputs[i];
            KnownTargets(m, live, fixed, inputs[i..], unknown) ==
            if pin.name in unknown then rest else [Target(pin.name, pin.width, KnownValue(m, live, fixed, pin))] + rest
  {
    assert inputs[i..][1..] == inputs[i + 1..];
  }

  // The known inputs captured and held on the scratch session.
  method HoldKnown<S>(scratch: SimSession<S>, live: SimSession<S>, fixed: Option<seq<Reading>>, inputs: seq<Pin>, unknown: seq<string>)
    returns (reply: Reply, known: seq<Target>)
    requires scratch != live
    modifies scratch
    ensures var targets := KnownTargets(live.machine, live.State(), fixed, inputs, unknown);
            && scratch.Did(old(scratch.State()), old(scratch.events), Hold(scratch.machine, old(scratch.State()), targets), reply)
            && (reply.Done? ==> known == targets)
  {
    known := [];
    ghost var m, state, told, news: seq<Event> := live.machine, live.State(), scratch.events, [];
    ghost var left := KnownTargets(m, state, fixed, inputs, unknown);
    ghost var targets, all := left, Hold(scratch.machine, scratch.State(), left);
    Starts(scratch.machine, told, scratch.State(), left);
    assert inputs[0..] == inputs;
    for i := 0 to |inputs|
      invariant targets == known + left && left == KnownTargets(m, state, fixed, inputs[i..], unknown)
      invariant Midway(scratch.machine, all, told, news, scratch.State(), scratch.events, left)
    {
      var pin := inputs[i];
      KnownStep(m, state, fixed, inputs, unknown, i);
      if pin.name !in unknown {
        var value := KnownBy(live, fixed, pin);
        var t := Target(pin.name, pin.width, value);
        left := KnownTargets(m, state, fixed, inputs[i + 1..], unknown);
        Assoc(known, [t], left);
        known := known + [t];
        var answer;
        answer, news := Put(scratch, t, all, told, news, left);
        if !answer.Done? {
          return answer, known;
        }
      }
    }
    Ends(scratch.machine, all, told, news, scratch.State(), scratch.events);
    return Done, known;
  }

  // Assignment `i` shifted out and set, pin by pin.
  method Attempt<S>(scratch: SimSession<S>, plan: Plan, i: nat) returns (reply: Reply)
    modifies scratch
    ensures scratch.Did(old(scratch.State()), old(scratch.events), Driver(scratch.machine, plan)(old(scratch.State()), i), reply)
  {
    var shift: nat := 0;
    var unknown := plan.unknown;
    ghost var told, news: seq<Event> := scratch.events, [];
    ghost var targets, widths := Assigned(unknown, i), Widths(unknown);
    ghost var all := Hold(scratch.machine, scratch.State(), targets);
    Starts(scratch.machine, told, scratch.State(), targets);
    assert targets[0..] == targets;
    for k := 0 to |unknown|
      invariant shift == Sum(widths[..k])
      invariant Midway(scratch.machine, all, told, news, scratch.State(), scratch.events, targets[k..])
    {
      var pin := unknown[k];
      var value := ShiftOut(i, shift, pin.width, widths, k);
      AssignedAt(unknown, i, k);
      var answer;
      answer, news := Put(scratch, Target(pin.name, pin.width, value), all, told, news, targets[k + 1..]);
      if !answer.Done? {
        return answer;
      }
      SumSnoc(widths, k);
      shift := shift + pin.width;
    }
    Ends(scratch.machine, all, told, news, scratch.State(), scratch.events);
    return Done;
  }

  method ShiftOut(i: nat, shift: nat, width: nat, ghost widths: seq<nat>, ghost k: nat) returns (value: nat)
    requires k < |widths| && width == widths[k] && shift == Sum(widths[..k])
    ensures value == Unpack(widths, i)[k]
  {
    UnpackAt(widths, i, k);
    value := And(i / Pow(2, shift), Mask(width));
  }

  lemma AssignedAt(unknown: seq<Pin>, i: nat, k: nat)
    requires k < |unknown|
    ensures var targets, pin := Assigned(unknown, i), unknown[k];
            targets[k..] == [Target(pin.name, pin.width, Unpack(Widths(unknown), i)[k])] + targets[k + 1..]
  {
  }

  // A run of attempts, when these events were told and these rows recorded before it.
  function Following<S>(news: seq<Event>, rows: seq<Row>, rest: Tried<S>): Tried<S> {
    Tried(rest.session, rest.reply, news + rest.events, rows + rest.rows)
  }

  lemma EnumerateStep<S>(attempt: (Session<S>, nat) -> Stepped<S>, record: (Session<S>, nat) -> Row,
                         s: Session<S>, i: nat, total: nat, news: seq<Event>, rows: seq<Row>)
    requires i < total
    ensures var step := attempt(s, i);
            Following(news, rows, Enumerate(attempt, record, s, i, total)) ==
            if step.reply.Done? then
              Following(news + step.events, rows + [record(step.session, i)],
                        Enumerate(attempt, record, step.session, i + 1, total))
            else Tried(step.session, step.reply, news + step.events, rows)
  {
    var step := attempt(s, i);
    var rest := Enumerate(attempt, record, step.session, i + 1, total);
    Assoc(news, step.events, rest.events);
    Assoc(rows, [record(step.session, i)], rest.rows);
    assert rows + [] == rows;
  }

  method RowsForPins<S>(scratch: SimSession<S>, live: SimSession<S>, cap: nat, fixed: Option<seq<Reading>>, hasRam: bool)
    returns (r: ScratchOutcome)
    requires scratch != live
    modifies scratch
    ensures var (outcome, tried) := RowsFor(live.machine, live.State(), scratch.machine, old(scratch.State()), cap, fixed, hasRam);
            r == outcome && scratch.State() == tried.session && scratch.events == old(scratch.events) + tried.events
  {
    var inputs, outputs := E.PinsOf(live.machine.pins, P.Inputs), E.PinsOf(live.machine.pins, P.Outputs);
    var unknown := UnknownInputs(live, fixed, inputs);
    var bits := Sum(Widths(unknown));
    assert scratch.events + [] == scratch.events;
    if bits > cap {
      return OverCap(bits);
    }
    if hasRam || HoldsRam(scratch.machine.mems) {
      return StatefulCircuit(bits);
    }
    var reply, rows := TryOn(scratch, live, fixed, inputs, outputs, unknown);
    if !reply.Done? {
      return Threw(reply);
    }
    return Tabulated(Table(Columns(inputs), Columns(outputs), rows), bits);
  }

  // The known inputs held, then everything tried.
  method TryOn<S>(scratch: SimSession<S>, live: SimSession<S>, fixed: Option<seq<Reading>>,
                  inputs: seq<Pin>, outputs: seq<Pin>, unknown: seq<Pin>)
    returns (reply: Reply, rows: seq<Row>)
    requires scratch != live
    modifies scratch
    ensures var plan := Plan(inputs, outputs, unknown,
                             KnownTargets(live.machine, live.State(), fixed, inputs, Names(unknown)));
            var tried := TryAll(scratch.machine, old(scratch.State()), plan);
            && scratch.State() == tried.session && scratch.events == old(scratch.events) + tried.events
            && reply == tried.reply && (reply.Done? ==> rows == tried.rows)
  {
    var known;
    reply, known := HoldKnown(scratch, live, fixed, inputs, Names(unknown));
    rows := [];
    if reply.Done? {
      ghost var told := scratch.events;
      reply, rows := TryEach(scratch, Plan(inputs, outputs, unknown, known), Pow(2, Sum(Widths(unknown))));
      Assoc(old(scratch.events), told[|old(scratch.events)|..], scratch.events[|told|..]);
    }
  }

  method RowBy<S>(scratch: SimSession<S>, plan: Plan, i: nat) returns (row: Row)
    ensures row == RowAt(scratch.machine, scratch.State(), plan, i)
  {
    var outs: seq<Cell> := [];
    for k := 0 to |plan.outputs|
      invariant outs == OutCells(scratch.machine, scratch.State(), plan.outputs)[..k]
    {
      var p := plan.outputs[k];
      var r := SeenBy(scratch, p.name);
      outs := outs + [if r.Some? && FullyDefined(r.value.bits, r.value.width) then Some(And(r.value.bits.value, Mask(p.width))) else None];
    }
    row := Row(InCells(plan.inputs, plan.unknown, plan.known, i), outs);
  }

  // Every assignment attempted in turn and its row recorded.
  method TryEach<S>(scratch: SimSession<S>, plan: Plan, total: nat) returns (reply: Reply, rows: seq<Row>)
    modifies scratch
    ensures var tried := Enumerate(Driver(scratch.machine, plan), Recorder(scratch.machine, plan), old(scratch.State()), 0, total);
            && scratch.State() == tried.session && scratch.events == old(scratch.events) + tried.events
            && reply == tried.reply && rows == tried.rows
  {
    rows := [];
    ghost var attempt, record := Driver(scratch.machine, plan), Recorder(scratch.machine, plan);
    ghost var told, news: seq<Event> := scratch.events, [];
    ghost var all := Enumerate(attempt, record, scratch.State(), 0, total);
    assert told + [] == told && Following([], [], all) == all;
    for i := 0 to total
      invariant scratch.events == told + news
      invariant all == Following(news, rows, Enumerate(attempt, record, scratch.State(), i, total))
    {
      EnumerateStep(attempt, record, scratch.State(), i, total, news, rows);
      ghost var step := attempt(scratch.State(), i);
      var answer := Attempt(scratch, plan, i);
      Assoc(told, news, step.events);
      news := news + step.events;
      if !answer.Done? {
        return answer, rows;
      }
      var row := RowBy(scratch, plan, i);
      rows := rows + [row];
    }
    assert news + [] == news && rows + [] == rows;
    return Done, rows;
  }

  // ---- what holding pins does ------------------------------------------------------------------

  predicate PinsDistinct(pins: seq<Pin>) {
    forall i, j :: 0 <= i < j < |pins| ==> pins[i].name != pins[j].name && pins[i].id != pins[j].id
  }

  // An input reads what it was last set to, and a drive changes no other input.
  ghost predicate InputsKeep<S(!new)>(m: Machine<S>) {
    forall x, p, q, v, d ::
      p in m.pins && q in m.pins && p.kind.In? && q.kind.In? && m.drive(x, p.id, v, d).settled ==>
        m.read(m.drive(x, p.id, v, d).next, q.id).Canonical(q.width) ==
        (if q.id == p.id then Bits(v, d) else m.read(x, q.id)).Canonical(q.width)
  }

  // The pin reads a whole value.
  predicate Reads<S>(m: Machine<S>, rt: S, pin: Pin, v: nat) {
    m.read(rt, pin.id).Canonical(pin.width) == Bits(v, Mask(pin.width))
  }

  lemma ReadsMeans<S>(m: Machine<S>, rt: S, pin: Pin, v: nat)
    requires Reads(m, rt, pin, v)
    ensures FullyDefined(m.read(rt, pin.id), pin.width) && And(m.read(rt, pin.id).value, Mask(pin.width)) == v
  {
  }

  lemma {:induction false} FindPinIs(pins: seq<Pin>, p: Pin)
    requires PinsDistinct(pins) && p in pins
    ensures FindPin(pins, p.kind, p.name) == Some(p)
    ensures FindPin(pins, if p.kind.In? then Out else In, p.name) == None
  {
    if pins[0] == p {
      FindPinNone(pins[1..], p.name);
    } else {
      assert p in pins[1..];
      FindPinIs(pins[1..], p);
    }
  }

  lemma {:induction false} FindPinNone(pins: seq<Pin>, name: string)
    requires forall p <- pins :: p.name != name
    ensures FindPin(pins, In, name) == None && FindPin(pins, Out, name) == None
  {
    if pins != [] {
      FindPinNone(pins[1..], name);
    }
  }

  predicate Suits(pins: seq<Pin>, t: Target) {
    var pin := FindPin(pins, In, t.name);
    pin.Some? && pin.value.width == t.width
  }

  lemma SetTargetReads<S(!new)>(m: Machine<S>, s: Session<S>, t: Target, q: Pin)
    requires PinsDistinct(m.pins) && InputsKeep(m) && Suits(m.pins, t) && q in m.pins && q.kind.In?
    requires SetTarget(m, s, t).reply.Done?
    ensures var rt := SetTarget(m, s, t).session.rt;
            if q.name == t.name then Reads(m, rt, q, t.value)
            else m.read(rt, q.id).Canonical(q.width) == m.read(s.rt, q.id).Canonical(q.width)
  {
    var pin := FindPin(m.pins, In, t.name).value;
    FindPinIs(m.pins, q);
    assert q.name == pin.name <==> q.id == pin.id;
    AndFits(t.value, t.width);
    AndFits(Mask(t.width), t.width);
    assert m.drive(s.rt, pin.id, t.value, Mask(t.width)).settled;
  }

  // Inputs not named keep what they read.
  lemma {:induction false} HoldKeeps<S(!new)>(m: Machine<S>, s: Session<S>, targets: seq<Target>, q: Pin)
    requires PinsDistinct(m.pins) && InputsKeep(m) && (forall t <- targets :: Suits(m.pins, t) && t.name != q.name)
    requires q in m.pins && q.kind.In? && Hold(m, s, targets).reply.Done?
    ensures m.read(Hold(m, s, targets).session.rt, q.id).Canonical(q.width) == m.read(s.rt, q.id).Canonical(q.width)
    decreases |targets|
  {
    if targets != [] {
      SetTargetReads(m, s, targets[0], q);
      HoldKeeps(m, SetTarget(m, s, targets[0]).session, targets[1..], q);
    }
  }

  predicate Apart(targets: seq<Target>) {
    forall i, j :: 0 <= i < j < |targets| ==> targets[i].name != targets[j].name
  }

  // A pin named once reads what it was held at.
  lemma {:induction false} HoldReads<S(!new)>(m: Machine<S>, s: Session<S>, targets: seq<Target>, k: nat, q: Pin)
    requires PinsDistinct(m.pins) && InputsKeep(m) && (forall t <- targets :: Suits(m.pins, t)) && Apart(targets)
    requires k < |targets| && q in m.pins && q.kind.In? && q.name == targets[k].name
    requires Hold(m, s, targets).reply.Done?
    ensures Reads(m, Hold(m, s, targets).session.rt, q, targets[k].value)
    decreases |targets|
  {
    var next := SetTarget(m, s, targets[0]).session;
    SetTargetReads(m, s, targets[0], q);
    if k == 0 {
      assert forall t <- targets[1..] :: t.name != q.name;
      HoldKeeps(m, next, targets[1..], q);
    } else {
      HoldReads(m, next, targets[1..], k - 1, q);
    }
  }

  // ---- a row driven is the row found -----------------------------------------------------------

  function InputReadings<S>(m: Machine<S>, rt: S, pins: seq<Pin>): seq<Reading> {
    if pins == [] then []
    else (if pins[0].kind.In? then [Reading(pins[0].name, m.read(rt, pins[0].id), pins[0].width)] else [])
         + InputReadings(m, rt, pins[1..])
  }

  lemma {:induction false} FindReadingIs<S>(m: Machine<S>, rt: S, pins: seq<Pin>, name: string)
    requires FindPin(pins, In, name).Some?
    ensures var pin := FindPin(pins, In, name).value;
            FindReading(InputReadings(m, rt, pins), name) == Some(Reading(name, m.read(rt, pin.id), pin.width))
  {
    var rest := InputReadings(m, rt, pins[1..]);
    if pins[0].kind.In? {
      var head := Reading(pins[0].name, m.read(rt, pins[0].id), pins[0].width);
      assert ([head] + rest)[1..] == rest;
    } else {
      assert [] + rest == rest;
    }
    if pins[0].kind != In || pins[0].name != name {
      FindReadingIs(m, rt, pins[1..], name);
    }
  }

  function Values(cells: seq<Cell>): (values: seq<nat>)
    requires forall c <- cells :: c.Some?
    ensures |values| == |cells|
  {
    seq(|cells|, k requires 0 <= k < |cells| => cells[k].value)
  }

  lemma {:induction false} RowTargetsAll(columns: seq<Column>, cells: seq<Cell>)
    requires |cells| == |columns| && forall c <- cells :: c.Some?
    ensures |RowTargets(columns, cells)| == |columns|
    ensures forall k :: 0 <= k < |columns| ==>
              RowTargets(columns, cells)[k] == Target(columns[k].name, columns[k].width, cells[k].value)
    decreases |columns|
  {
    if columns != [] {
      RowTargetsAll(columns[1..], cells[1..]);
      assert cells[0].Some?;
    }
  }

  // The column's pin shows the value.
  predicate Shows(readings: seq<Reading>, column: Column, v: nat) {
    var r := FindReading(readings, column.name);
    r.Some? && FullyDefined(r.value.bits, r.value.width) && And(r.value.bits.value, Mask(column.width)) == v
  }

  lemma {:induction false} WantedIs(columns: seq<Column>, readings: seq<Reading>, values: seq<nat>)
    requires |values| == |columns| && forall k :: 0 <= k < |columns| ==> Shows(readings, columns[k], values[k])
    ensures Wanted(columns, readings) == Some(values)
    decreases |columns|
  {
    if columns != [] {
      assert Shows(readings, columns[0], values[0]);
      WantedIs(columns[1..], readings, values[1..]);
      assert [values[0]] + values[1..] == values;
    }
  }

  // Columns of distinct input pins, and complete rows no two of which share inputs.
  predicate Proper(pins: seq<Pin>, table: Table) {
    && WellFormed(table)
    && (forall i, j :: 0 <= i < j < |table.inputs| ==> table.inputs[i].name != table.inputs[j].name)
    && (forall c <- table.inputs :: Suits(pins, Target(c.name, c.width, 0)))
    && (forall r <- table.rows, c <- r.ins :: c.Some?)
    && (forall i, j :: 0 <= i < j < |table.rows| ==> table.rows[i].ins != table.rows[j].ins)
  }

  lemma DrivenRowShows<S(!new)>(m: Machine<S>, s: Session<S>, table: Table, row: nat, k: nat)
    requires PinsDistinct(m.pins) && InputsKeep(m) && Proper(m.pins, table) && row < |table.rows| && k < |table.inputs|
    requires DriveRow(m, s, table, row).reply.Done?
    ensures table.rows[row].ins[k].Some?
    ensures Shows(InputReadings(m, DriveRow(m, s, table, row).session.rt, m.pins), table.inputs[k], table.rows[row].ins[k].value)
  {
    var cells, column := table.rows[row].ins, table.inputs[k];
    var targets, rt := RowTargets(table.inputs, cells), DriveRow(m, s, table, row).session.rt;
    RowTargetsAll(table.inputs, cells);
    assert cells[k].Some?;
    assert Suits(m.pins, Target(column.name, column.width, 0));
    var pin := FindPin(m.pins, In, column.name).value;
    forall t <- targets
      ensures Suits(m.pins, t)
    {
      var i :| 0 <= i < |targets| && targets[i] == t;
      assert Suits(m.pins, Target(table.inputs[i].name, table.inputs[i].width, 0));
    }
    HoldReads(m, s, targets, k, pin);
    ReadsMeans(m, rt, pin, cells[k].value);
    FindReadingIs(m, rt, m.pins, column.name);
  }

  lemma MatchesOne(a: seq<Cell>, b: seq<Cell>, want: seq<nat>)
    requires |a| == |b| && Matches(a, want) && Matches(b, want)
    ensures a == b
  {
  }

  lemma MatchesValues(cells: seq<Cell>)
    requires forall c <- cells :: c.Some?
    ensures Matches(cells, Values(cells))
  {
    forall k | 0 <= k < |cells|
      ensures cells[k] == Some(Values(cells)[k])
    {
      assert cells[k].Some?;
    }
  }

  // Of complete rows that differ, only the one that has the wanted inputs is live.
  lemma LiveRowIs(table: Table, readings: seq<Reading>, row: nat, index: int)
    requires WellFormed(table) && row < |table.rows| && (forall c <- table.rows[row].ins :: c.Some?)
    requires forall i, j :: 0 <= i < j < |table.rows| ==> table.rows[i].ins != table.rows[j].ins
    requires Wanted(table.inputs, readings) == Some(Values(table.rows[row].ins))
    requires IsLiveRow(table, readings, index)
    ensures index == row
  {
    var want := Values(table.rows[row].ins);
    MatchesValues(table.rows[row].ins);
    if 0 <= index < |table.rows| {
      assert table.rows[index] in table.rows && table.rows[row] in table.rows;
      MatchesOne(table.rows[index].ins, table.rows[row].ins, want);
    }
  }

  // Driving a row makes it the live row.
  lemma DrivenRowIsLive<S(!new)>(m: Machine<S>, s: Session<S>, table: Table, row: nat, index: int)
    requires PinsDistinct(m.pins) && InputsKeep(m) && Proper(m.pins, table) && row < |table.rows|
    requires DriveRow(m, s, table, row).reply.Done?
    requires IsLiveRow(table, InputReadings(m, DriveRow(m, s, table, row).session.rt, m.pins), index)
    ensures index == row
  {
    var readings := InputReadings(m, DriveRow(m, s, table, row).session.rt, m.pins);
    assert table.rows[row] in table.rows;
    var values := Values(table.rows[row].ins);
    forall k | 0 <= k < |table.inputs|
      ensures Shows(readings, table.inputs[k], values[k])
    {
      DrivenRowShows(m, s, table, row, k);
    }
    WantedIs(table.inputs, readings, values);
    LiveRowIs(table, readings, row, index);
  }

  // ---- the table is every assignment once --------------------------------------------------------

  lemma {:induction false} InputsAre(pins: seq<Pin>)
    requires PinsDistinct(pins)
    ensures var inputs := E.PinsOf(pins, P.Inputs);
            && PinsDistinct(inputs)
            && (forall p :: p in inputs <==> p in pins && p.kind.In?)
  {
    if pins != [] {
      InputsAre(pins[1..]);
      var rest := E.PinsOf(pins[1..], P.Inputs);
      assert forall p <- rest :: p.name != pins[0].name && p.id != pins[0].id;
      assert forall p :: p in pins <==> p == pins[0] || p in pins[1..];
    }
  }

  lemma {:induction false} UnknownApart<S>(m: Machine<S>, live: Session<S>, fixed: Option<seq<Reading>>, inputs: seq<Pin>)
    requires PinsDistinct(inputs)
    ensures PinsDistinct(UnknownPins(m, live, fixed, inputs))
    decreases |inputs|
  {
    if inputs != [] {
      UnknownApart(m, live, fixed, inputs[1..]);
      var rest := UnknownPins(m, live, fixed, inputs[1..]);
      assert forall p <- rest :: p.name != inputs[0].name && p.id != inputs[0].id;
    }
  }

  lemma {:induction false} ValueInIs(targets: seq<Target>, k: nat)
    requires Apart(targets) && k < |targets|
    ensures ValueIn(targets, targets[k].name) == Some(targets[k].value)
  {
    if k < |targets| - 1 {
      ValueInIs(targets[..|targets| - 1], k);
    }
  }

  // The known inputs, each at its value and once.
  lemma {:induction false} KnownTargetsAre<S>(m: Machine<S>, live: Session<S>, fixed: Option<seq<Reading>>, inputs: seq<Pin>, unknown: seq<string>)
    requires PinsDistinct(inputs)
    ensures var known := KnownTargets(m, live, fixed, inputs, unknown);
            && Apart(known)
            && (forall t <- known :: exists p :: p in inputs && t == Target(p.name, p.width, KnownValue(m, live, fixed, p)) && p.name !in unknown)
            && (forall p <- inputs :: p.name !in unknown ==> Target(p.name, p.width, KnownValue(m, live, fixed, p)) in known)
    decreases |inputs|
  {
    if inputs != [] {
      KnownTargetsAre(m, live, fixed, inputs[1..], unknown);
      var rest := KnownTargets(m, live, fixed, inputs[1..], unknown);
      forall t <- rest
        ensures exists p :: p in inputs && t == Target(p.name, p.width, KnownValue(m, live, fixed, p)) && p.name !in unknown
        ensures t.name != inputs[0].name
      {
        var p :| p in inputs[1..] && t == Target(p.name, p.width, KnownValue(m, live, fixed, p)) && p.name !in unknown;
        assert p in inputs;
      }
    }
  }

  lemma UnknownByName<S>(m: Machine<S>, live: Session<S>, fixed: Option<seq<Reading>>, p: Pin)
    requires PinsDistinct(m.pins) && p in PlanOf(m, live, fixed).inputs
    ensures p.name in Names(PlanOf(m, live, fixed).unknown) <==> Unknown(m, live, fixed, p)
  {
    var plan := PlanOf(m, live, fixed);
    InputsAre(m.pins);
    if p.name in Names(plan.unknown) {
      var u :| 0 <= u < |plan.unknown| && Names(plan.unknown)[u] == p.name;
      assert plan.unknown[u] in plan.inputs;
      assert plan.unknown[u] == p;
    }
  }

  lemma KnownCell<S>(m: Machine<S>, live: Session<S>, fixed: Option<seq<Reading>>, i: nat, k: nat)
    requires PinsDistinct(m.pins)
    requires var plan := PlanOf(m, live, fixed); k < |plan.inputs| && !Unknown(m, live, fixed, plan.inputs[k])
    ensures var plan := PlanOf(m, live, fixed);
            InCells(plan.inputs, plan.unknown, plan.known, i)[k] == Some(KnownValue(m, live, fixed, plan.inputs[k]))
  {
    var plan := PlanOf(m, live, fixed);
    var p := plan.inputs[k];
    InputsAre(m.pins);
    UnknownByName(m, live, fixed, p);
    KnownTargetsAre(m, live, fixed, plan.inputs, Names(plan.unknown));
    var t := Target(p.name, p.width, KnownValue(m, live, fixed, p));
    var j :| 0 <= j < |plan.known| && plan.known[j] == t;
    ValueInIs(plan.known, j);
  }

  lemma AssignedApart(unknown: seq<Pin>, i: nat)
    requires PinsDistinct(unknown)
    ensures Apart(Assigned(unknown, i))
  {
  }

  lemma UnknownCell<S>(m: Machine<S>, live: Session<S>, fixed: Option<seq<Reading>>, i: nat, k: nat, u: nat)
    requires PinsDistinct(m.pins)
    requires var plan := PlanOf(m, live, fixed);
             k < |plan.inputs| && u < |plan.unknown| && plan.unknown[u] == plan.inputs[k]
    ensures var plan := PlanOf(m, live, fixed);
            InCells(plan.inputs, plan.unknown, plan.known, i)[k] == Some(Unpack(Widths(plan.unknown), i)[u])
  {
    var plan := PlanOf(m, live, fixed);
    InputsAre(m.pins);
    UnknownApart(m, live, fixed, plan.inputs);
    AssignedApart(plan.unknown, i);
    ValueInIs(Assigned(plan.unknown, i), u);
    assert Names(plan.unknown)[u] == plan.inputs[k].name;
  }

  // An assignment of every input: the known ones hold their values, the unknown
  // ones anything of their width.
  predicate Extends<S>(m: Machine<S>, live: Session<S>, fixed: Option<seq<Reading>>, cells: seq<Cell>) {
    var inputs := PlanOf(m, live, fixed).inputs;
    && |cells| == |inputs|
    && forall k :: 0 <= k < |inputs| ==>
         && cells[k].Some?
         && if Unknown(m, live, fixed, inputs[k]) then cells[k].value < Pow(2, inputs[k].width)
            else cells[k].value == KnownValue(m, live, fixed, inputs[k])
  }

  // Every row is such an assignment, ...
  lemma RowExtends<S>(m: Machine<S>, live: Session<S>, fixed: Option<seq<Reading>>, i: nat)
    requires PinsDistinct(m.pins)
    ensures var plan := PlanOf(m, live, fixed);
            Extends(m, live, fixed, InCells(plan.inputs, plan.unknown, plan.known, i))
  {
    var plan := PlanOf(m, live, fixed);
    var cells := InCells(plan.inputs, plan.unknown, plan.known, i);
    forall k | 0 <= k < |plan.inputs|
      ensures && cells[k].Some?
              && if Unknown(m, live, fixed, plan.inputs[k]) then cells[k].value < Pow(2, plan.inputs[k].width)
                 else cells[k].value == KnownValue(m, live, fixed, plan.inputs[k])
    {
      if Unknown(m, live, fixed, plan.inputs[k]) {
        var u :| 0 <= u < |plan.unknown| && plan.unknown[u] == plan.inputs[k];
        UnknownCell(m, live, fixed, i, k, u);
        UnpackFits(Widths(plan.unknown), i);
      } else {
        KnownCell(m, live, fixed, i, k);
      }
    }
  }

  // ... and every such assignment is the row whose number its unknown cells pack
  // to, the first unknown pin lowest, and no other row.
  lemma EveryAssignmentOnce<S>(m: Machine<S>, live: Session<S>, fixed: Option<seq<Reading>>, cells: seq<Cell>)
    returns (i: nat)
    requires PinsDistinct(m.pins) && Extends(m, live, fixed, cells)
    ensures var plan := PlanOf(m, live, fixed);
            && i < Pow(2, Sum(Widths(plan.unknown)))
            && InCells(plan.inputs, plan.unknown, plan.known, i) == cells
            && forall j :: 0 <= j < Pow(2, Sum(Widths(plan.unknown))) && j != i ==>
                 InCells(plan.inputs, plan.unknown, plan.known, j) != cells
  {
    var plan := PlanOf(m, live, fixed);
    var widths := Widths(plan.unknown);
    var places := Places(m, live, fixed);
    var choice := seq(|places|, u requires 0 <= u < |places| => CellValue(cells, places[u]));
    i := Pack(widths, choice);
    UnpackPack(widths, choice);
    CellsAre(m, live, fixed, i, cells, places);
    forall j | 0 <= j < Pow(2, Sum(widths)) && InCells(plan.inputs, plan.unknown, plan.known, j) == cells
      ensures j == i
    {
      CellsPack(m, live, fixed, j, cells, places);
      assert Unpack(widths, j) == choice;
      PackUnpack(widths, j);
    }
  }

  // The row's number is what its unknown cells pack to.
  lemma CellsPack<S>(m: Machine<S>, live: Session<S>, fixed: Option<seq<Reading>>, j: nat, cells: seq<Cell>, places: seq<nat>)
    requires PinsDistinct(m.pins) && Placed(PlanOf(m, live, fixed), places)
    requires var plan := PlanOf(m, live, fixed); InCells(plan.inputs, plan.unknown, plan.known, j) == cells
    ensures forall u :: 0 <= u < |places| ==> Unpack(Widths(PlanOf(m, live, fixed).unknown), j)[u] == CellValue(cells, places[u])
  {
    forall u | 0 <= u < |places|
      ensures Unpack(Widths(PlanOf(m, live, fixed).unknown), j)[u] == CellValue(cells, places[u])
    {
      UnknownCell(m, live, fixed, j, places[u], u);
    }
  }

  function CellValue(cells: seq<Cell>, k: nat): nat {
    if k < |cells| && cells[k].Some? then cells[k].value else 0
  }

  // Where each unknown pin stands among the inputs.
  lemma Places<S>(m: Machine<S>, live: Session<S>, fixed: Option<seq<Reading>>) returns (places: seq<nat>)
    ensures var plan := PlanOf(m, live, fixed);
            Placed(plan, places) && forall u :: 0 <= u < |places| ==> Unknown(m, live, fixed, plan.inputs[places[u]])
  {
    var plan := PlanOf(m, live, fixed);
    places := [];
    for u := 0 to |plan.unknown|
      invariant |places| == u
      invariant forall v :: 0 <= v < u ==> places[v] < |plan.inputs| && plan.inputs[places[v]] == plan.unknown[v]
    {
      assert plan.unknown[u] in plan.inputs;
      var k: nat :| k < |plan.inputs| && plan.inputs[k] == plan.unknown[u];
      places := places + [k];
    }
    assert forall u :: 0 <= u < |places| ==> plan.unknown[u] in plan.unknown;
  }

  lemma CellAt<S>(m: Machine<S>, live: Session<S>, fixed: Option<seq<Reading>>, i: nat, cells: seq<Cell>, places: seq<nat>, k: nat)
    requires PinsDistinct(m.pins) && Extends(m, live, fixed, cells)
    requires var plan := PlanOf(m, live, fixed); k < |plan.inputs| && Placed(plan, places)
    requires var plan := PlanOf(m, live, fixed);
             forall u :: 0 <= u < |places| ==> Unpack(Widths(plan.unknown), i)[u] == CellValue(cells, places[u])
    ensures var plan := PlanOf(m, live, fixed); InCells(plan.inputs, plan.unknown, plan.known, i)[k] == cells[k]
  {
    var plan := PlanOf(m, live, fixed);
    assert cells[k].Some?;
    if Unknown(m, live, fixed, plan.inputs[k]) {
      var u :| 0 <= u < |plan.unknown| && plan.unknown[u] == plan.inputs[k];
      UnknownCell(m, live, fixed, i, k, u);
      InputsAre(m.pins);
      SamePlace(plan.inputs, places[u], k);
    } else {
      KnownCell(m, live, fixed, i, k);
    }
  }

  predicate Placed(plan: Plan, places: seq<nat>) {
    && |places| == |plan.unknown|
    && forall u :: 0 <= u < |places| ==> places[u] < |plan.inputs| && plan.inputs[places[u]] == plan.unknown[u]
  }

  lemma CellsAre<S>(m: Machine<S>, live: Session<S>, fixed: Option<seq<Reading>>, i: nat, cells: seq<Cell>, places: seq<nat>)
    requires PinsDistinct(m.pins) && Extends(m, live, fixed, cells) && Placed(PlanOf(m, live, fixed), places)
    requires var plan := PlanOf(m, live, fixed);
             forall u :: 0 <= u < |places| ==> Unpack(Widths(plan.unknown), i)[u] == CellValue(cells, places[u])
    ensures var plan := PlanOf(m, live, fixed); InCells(plan.inputs, plan.unknown, plan.known, i) == cells
  {
    forall k | 0 <= k < |cells|
      ensures var plan := PlanOf(m, live, fixed); InCells(plan.inputs, plan.unknown, plan.known, i)[k] == cells[k]
    {
      CellAt(m, live, fixed, i, cells, places, k);
    }
  }

  lemma SamePlace(pins: seq<Pin>, j: nat, k: nat)
    requires PinsDistinct(pins) && j < |pins| && k < |pins| && pins[j] == pins[k]
    ensures j == k
  {
  }

  // ---- what the scratch session holds as a row's outputs are read ---------------------------------

  // Every known input reads the value it was held at.
  predicate KnownHeld<S>(m: Machine<S>, live: Session<S>, fixed: Option<seq<Reading>>, rt: S) {
    forall p <- PlanOf(m, live, fixed).inputs ::
      !Unknown(m, live, fixed, p) ==> Reads(m, rt, p, KnownValue(m, live, fixed, p))
  }

  // Every input reads its cell.
  predicate CellsRead<S>(m: Machine<S>, rt: S, inputs: seq<Pin>, cells: seq<Cell>) {
    && |cells| == |inputs|
    && forall k :: 0 <= k < |inputs| ==> cells[k].Some? && Reads(m, rt, inputs[k], cells[k].value)
  }

  lemma KnownIsHeld<S(!new)>(m: Machine<S>, live: Session<S>, fixed: Option<seq<Reading>>, s: Session<S>)
    requires PinsDistinct(m.pins) && InputsKeep(m)
    requires Hold(m, s, PlanOf(m, live, fixed).known).reply.Done?
    ensures KnownHeld(m, live, fixed, Hold(m, s, PlanOf(m, live, fixed).known).session.rt)
  {
    var plan := PlanOf(m, live, fixed);
    InputsAre(m.pins);
    KnownTargetsAre(m, live, fixed, plan.inputs, Names(plan.unknown));
    KnownSuits(m, live, fixed);
    forall p <- plan.inputs | !Unknown(m, live, fixed, p)
      ensures Reads(m, Hold(m, s, plan.known).session.rt, p, KnownValue(m, live, fixed, p))
    {
      UnknownByName(m, live, fixed, p);
      var k :| 0 <= k < |plan.known| && plan.known[k] == Target(p.name, p.width, KnownValue(m, live, fixed, p));
      HoldReads(m, s, plan.known, k, p);
    }
  }

  lemma KnownSuits<S>(m: Machine<S>, live: Session<S>, fixed: Option<seq<Reading>>)
    requires PinsDistinct(m.pins)
    ensures forall t <- PlanOf(m, live, fixed).known :: Suits(m.pins, t)
  {
    var plan := PlanOf(m, live, fixed);
    InputsAre(m.pins);
    KnownTargetsAre(m, live, fixed, plan.inputs, Names(plan.unknown));
    forall t <- plan.known
      ensures Suits(m.pins, t)
    {
      var p :| p in plan.inputs && t == Target(p.name, p.width, KnownValue(m, live, fixed, p));
      FindPinIs(m.pins, p);
    }
  }

  lemma AssignedSuits(pins: seq<Pin>, unknown: seq<Pin>, i: nat)
    requires PinsDistinct(pins) && forall p <- unknown :: p in pins && p.kind.In?
    ensures forall t <- Assigned(unknown, i) :: Suits(pins, t)
  {
    forall t <- Assigned(unknown, i)
      ensures Suits(pins, t)
    {
      var k :| 0 <= k < |unknown| && t.name == unknown[k].name && t.width == unknown[k].width;
      FindPinIs(pins, unknown[k]);
    }
  }

  lemma StepReadsPin<S(!new)>(m: Machine<S>, live: Session<S>, fixed: Option<seq<Reading>>, s: Session<S>, i: nat, k: nat)
    requires PinsDistinct(m.pins) && InputsKeep(m) && KnownHeld(m, live, fixed, s.rt) && k < |PlanOf(m, live, fixed).inputs|
    requires Hold(m, s, Assigned(PlanOf(m, live, fixed).unknown, i)).reply.Done?
    ensures var plan := PlanOf(m, live, fixed);
            var cell := InCells(plan.inputs, plan.unknown, plan.known, i)[k];
            cell.Some? && Reads(m, Hold(m, s, Assigned(plan.unknown, i)).session.rt, plan.inputs[k], cell.value)
  {
    if Unknown(m, live, fixed, PlanOf(m, live, fixed).inputs[k]) {
      StepReadsUnknown(m, live, fixed, s, i, k);
    } else {
      StepReadsKnown(m, live, fixed, s, i, k);
    }
  }

  lemma StepReadsUnknown<S(!new)>(m: Machine<S>, live: Session<S>, fixed: Option<seq<Reading>>, s: Session<S>, i: nat, k: nat)
    requires PinsDistinct(m.pins) && InputsKeep(m) && k < |PlanOf(m, live, fixed).inputs|
    requires Unknown(m, live, fixed, PlanOf(m, live, fixed).inputs[k])
    requires Hold(m, s, Assigned(PlanOf(m, live, fixed).unknown, i)).reply.Done?
    ensures var plan := PlanOf(m, live, fixed);
            var cell := InCells(plan.inputs, plan.unknown, plan.known, i)[k];
            cell.Some? && Reads(m, Hold(m, s, Assigned(plan.unknown, i)).session.rt, plan.inputs[k], cell.value)
  {
    var plan := PlanOf(m, live, fixed);
    var u :| 0 <= u < |plan.unknown| && plan.unknown[u] == plan.inputs[k];
    PlanTargets(m, live, fixed, i);
    UnknownCell(m, live, fixed, i, k, u);
    AssignedOne(plan.unknown, i, u);
    HoldReads(m, s, Assigned(plan.unknown, i), u, plan.inputs[k]);
  }

  lemma AssignedOne(unknown: seq<Pin>, i: nat, u: nat)
    requires u < |unknown|
    ensures var targets := Assigned(unknown, i);
            |targets| == |unknown| && targets[u] == Target(unknown[u].name, unknown[u].width, Unpack(Widths(unknown), i)[u])
  {
  }

  lemma StepReadsKnown<S(!new)>(m: Machine<S>, live: Session<S>, fixed: Option<seq<Reading>>, s: Session<S>, i: nat, k: nat)
    requires PinsDistinct(m.pins) && InputsKeep(m) && KnownHeld(m, live, fixed, s.rt) && k < |PlanOf(m, live, fixed).inputs|
    requires !Unknown(m, live, fixed, PlanOf(m, live, fixed).inputs[k])
    requires Hold(m, s, Assigned(PlanOf(m, live, fixed).unknown, i)).reply.Done?
    ensures var plan := PlanOf(m, live, fixed);
            var cell := InCells(plan.inputs, plan.unknown, plan.known, i)[k];
            cell.Some? && Reads(m, Hold(m, s, Assigned(plan.unknown, i)).session.rt, plan.inputs[k], cell.value)
  {
    var plan := PlanOf(m, live, fixed);
    var p := plan.inputs[k];
    PlanTargets(m, live, fixed, i);
    KnownCell(m, live, fixed, i, k);
    KnownIsApart(m, live, fixed, i, p);
    HoldKeeps(m, s, Assigned(plan.unknown, i), p);
  }

  // What a row sets are inputs of the machine, each set once.
  lemma PlanTargets<S>(m: Machine<S>, live: Session<S>, fixed: Option<seq<Reading>>, i: nat)
    requires PinsDistinct(m.pins)
    ensures var plan := PlanOf(m, live, fixed);
            && Apart(Assigned(plan.unknown, i)) && (forall t <- Assigned(plan.unknown, i) :: Suits(m.pins, t))
            && forall p <- plan.inputs :: p in m.pins && p.kind.In?
  {
    var plan := PlanOf(m, live, fixed);
    InputsAre(m.pins);
    UnknownApart(m, live, fixed, plan.inputs);
    AssignedApart(plan.unknown, i);
    AssignedSuits(m.pins, plan.unknown, i);
  }

  lemma KnownIsApart<S>(m: Machine<S>, live: Session<S>, fixed: Option<seq<Reading>>, i: nat, p: Pin)
    requires PinsDistinct(m.pins) && p in PlanOf(m, live, fixed).inputs && !Unknown(m, live, fixed, p)
    ensures forall t <- Assigned(PlanOf(m, live, fixed).unknown, i) :: t.name != p.name
  {
    UnknownByName(m, live, fixed, p);
    var unknown := PlanOf(m, live, fixed).unknown;
    assert forall k :: 0 <= k < |unknown| ==> Names(unknown)[k] == unknown[k].name;
  }

  lemma StepReads<S(!new)>(m: Machine<S>, live: Session<S>, fixed: Option<seq<Reading>>, s: Session<S>, i: nat)
    requires PinsDistinct(m.pins) && InputsKeep(m) && KnownHeld(m, live, fixed, s.rt)
    requires Hold(m, s, Assigned(PlanOf(m, live, fixed).unknown, i)).reply.Done?
    ensures var plan := PlanOf(m, live, fixed);
            var rt := Hold(m, s, Assigned(plan.unknown, i)).session.rt;
            CellsRead(m, rt, plan.inputs, InCells(plan.inputs, plan.unknown, plan.known, i)) && KnownHeld(m, live, fixed, rt)
  {
    var plan := PlanOf(m, live, fixed);
    forall k | 0 <= k < |plan.inputs|
      ensures var cell := InCells(plan.inputs, plan.unknown, plan.known, i)[k];
              && cell.Some? && Reads(m, Hold(m, s, Assigned(plan.unknown, i)).session.rt, plan.inputs[k], cell.value)
              && (!Unknown(m, live, fixed, plan.inputs[k]) ==> cell.value == KnownValue(m, live, fixed, plan.inputs[k]))
    {
      StepReadsPin(m, live, fixed, s, i, k);
      if !Unknown(m, live, fixed, plan.inputs[k]) {
        KnownCell(m, live, fixed, i, k);
      }
    }
  }

  // A session fit to read outputs from.
  ghost predicate Fit<S>(calm: S -> bool, s: Session<S>) {
    !s.poisoned && calm(s.rt)
  }

  ghost predicate DrivesCalm<S(!new)>(m: Machine<S>, calm: S -> bool) {
    forall x, id, v, d :: m.drive(x, id, v, d).settled ==> calm(m.drive(x, id, v, d).next)
  }

  lemma {:induction false} HoldFit<S(!new)>(m: Machine<S>, calm: S -> bool, s: Session<S>, targets: seq<Target>)
    requires DrivesCalm(m, calm) && Fit(calm, s) && Hold(m, s, targets).reply.Done?
    ensures Fit(calm, Hold(m, s, targets).session)
    decreases |targets|
  {
    if targets != [] {
      HoldFit(m, calm, SetTarget(m, s, targets[0]).session, targets[1..]);
    }
  }

  // The sessions the rows are recorded off, one after another.
  predicate Chain<S(==)>(attempt: (Session<S>, nat) -> Stepped<S>, i: nat, s: Session<S>, at: seq<Session<S>>)
    decreases |at|
  {
    at != [] ==>
      attempt(s, i).reply.Done? && attempt(s, i).session == at[0] && Chain(attempt, i + 1, at[0], at[1..])
  }

  lemma {:induction false} EnumerateChain<S>(attempt: (Session<S>, nat) -> Stepped<S>, record: (Session<S>, nat) -> Row,
                                             s: Session<S>, i: nat, total: nat)
    returns (at: seq<Session<S>>)
    requires i <= total && Enumerate(attempt, record, s, i, total).reply.Done?
    ensures var rows := Enumerate(attempt, record, s, i, total).rows;
            && |rows| == |at| == total - i && Chain(attempt, i, s, at)
            && forall j :: 0 <= j < |at| ==> rows[j] == record(at[j], i + j)
    decreases total - i
  {
    if i == total {
      at := [];
    } else {
      var next := attempt(s, i).session;
      var rest := EnumerateChain(attempt, record, next, i + 1, total);
      var tail := Enumerate(attempt, record, next, i + 1, total).rows;
      at := [next] + rest;
      assert at[1..] == rest;
      forall j | 0 <= j < |at|
        ensures ([record(next, i)] + tail)[j] == record(at[j], i + j)
      {
        if j > 0 {
          assert tail[j - 1] == record(rest[j - 1], i + 1 + (j - 1));
        }
      }
    }
  }

  lemma {:induction false} ChainKeeps<S(!new)>(attempt: (Session<S>, nat) -> Stepped<S>, good: Session<S> -> bool,
                                               read: (Session<S>, nat) -> bool, i: nat, s: Session<S>, at: seq<Session<S>>, j: nat)
    requires forall x, k :: good(x) && attempt(x, k).reply.Done? ==> good(attempt(x, k).session) && read(attempt(x, k).session, k)
    requires good(s) && Chain(attempt, i, s, at) && j < |at|
    ensures good(at[j]) && read(at[j], i + j)
    decreases |at|
  {
    if j > 0 {
      ChainKeeps(attempt, good, read, i + 1, at[0], at[1..], j - 1);
    }
  }

  // Fit to read off, the known inputs held.
  ghost predicate Ready<S>(m: Machine<S>, calm: S -> bool, live: Session<S>, fixed: Option<seq<Reading>>, s: Session<S>) {
    Fit(calm, s) && KnownHeld(m, live, fixed, s.rt)
  }

  lemma AttemptReads<S(!new)>(m: Machine<S>, calm: S -> bool, live: Session<S>, fixed: Option<seq<Reading>>, i: nat, s: Session<S>)
    requires PinsDistinct(m.pins) && InputsKeep(m) && DrivesCalm(m, calm) && Ready(m, calm, live, fixed, s)
    requires Driver(m, PlanOf(m, live, fixed))(s, i).reply.Done?
    ensures var plan := PlanOf(m, live, fixed);
            var next := Driver(m, plan)(s, i).session;
            && Ready(m, calm, live, fixed, next)
            && CellsRead(m, next.rt, plan.inputs, InCells(plan.inputs, plan.unknown, plan.known, i))
  {
    StepReads(m, live, fixed, s, i);
    HoldFit(m, calm, s, Assigned(PlanOf(m, live, fixed).unknown, i));
  }

  ghost function Readiness<S>(m: Machine<S>, calm: S -> bool, live: Session<S>, fixed: Option<seq<Reading>>): Session<S> -> bool {
    x => Ready(m, calm, live, fixed, x)
  }

  ghost function RowReading<S>(m: Machine<S>, plan: Plan): (Session<S>, nat) -> bool {
    (x: Session<S>, k: nat) => CellsRead(m, x.rt, plan.inputs, InCells(plan.inputs, plan.unknown, plan.known, k))
  }

  lemma AttemptsKeep<S(!new)>(m: Machine<S>, calm: S -> bool, live: Session<S>, fixed: Option<seq<Reading>>)
    requires PinsDistinct(m.pins) && InputsKeep(m) && DrivesCalm(m, calm)
    ensures var plan, good := PlanOf(m, live, fixed), Readiness(m, calm, live, fixed);
            forall x: Session<S>, k: nat :: good(x) && Driver(m, plan)(x, k).reply.Done? ==>
              good(Driver(m, plan)(x, k).session) && RowReading(m, plan)(Driver(m, plan)(x, k).session, k)
  {
    var plan, good := PlanOf(m, live, fixed), Readiness(m, calm, live, fixed);
    forall x: Session<S>, k: nat | good(x) && Driver(m, plan)(x, k).reply.Done?
      ensures good(Driver(m, plan)(x, k).session) && RowReading(m, plan)(Driver(m, plan)(x, k).session, k)
    {
      AttemptReads(m, calm, live, fixed, k, x);
    }
  }

  lemma ReadOff<S(!new)>(attempt: (Session<S>, nat) -> Stepped<S>, record: (Session<S>, nat) -> Row,
                         good: Session<S> -> bool, read: (Session<S>, nat) -> bool, s: Session<S>, total: nat, i: nat)
    returns (at: Session<S>)
    requires forall x, k :: good(x) && attempt(x, k).reply.Done? ==> good(attempt(x, k).session) && read(attempt(x, k).session, k)
    requires good(s) && i < total && Enumerate(attempt, record, s, 0, total).reply.Done?
    ensures var rows := Enumerate(attempt, record, s, 0, total).rows; |rows| == total && rows[i] == record(at, i)
    ensures good(at) && read(at, i)
  {
    var all := EnumerateChain(attempt, record, s, 0, total);
    ChainKeeps(attempt, good, read, 0, s, all, i);
    at := all[i];
  }

  lemma HeldIsReady<S(!new)>(m: Machine<S>, calm: S -> bool, live: Session<S>, fixed: Option<seq<Reading>>, scratch: Session<S>)
    requires PinsDistinct(m.pins) && InputsKeep(m) && DrivesCalm(m, calm) && Fit(calm, scratch)
    requires Hold(m, scratch, PlanOf(m, live, fixed).known).reply.Done?
    ensures Readiness(m, calm, live, fixed)(Hold(m, scratch, PlanOf(m, live, fixed).known).session)
  {
    KnownIsHeld(m, live, fixed, scratch);
    HoldFit(m, calm, scratch, PlanOf(m, live, fixed).known);
  }

  // ---- the table tells what the circuit does --------------------------------------------------------

  ghost predicate InputsAlike<S>(m: Machine<S>, x: S, y: S) {
    forall p <- m.pins :: p.kind.In? ==> m.read(x, p.id).Canonical(p.width) == m.read(y, p.id).Canonical(p.width)
  }

  // Settled outputs are a function of the inputs.
  ghost predicate Combinational<S(!new)>(m: Machine<S>, calm: S -> bool) {
    forall x, y, p ::
      calm(x) && calm(y) && InputsAlike(m, x, y) && p in m.pins && p.kind.Out? ==>
        m.read(x, p.id).Canonical(p.width) == m.read(y, p.id).Canonical(p.width)
  }

  lemma OutCellIs<S>(m: Machine<S>, s: Session<S>, t: Session<S>, p: Pin)
    requires PinsDistinct(m.pins) && p in m.pins && p.kind.Out? && !s.poisoned && !t.poisoned
    requires m.read(s.rt, p.id).Canonical(p.width) == m.read(t.rt, p.id).Canonical(p.width)
    ensures OutCell(m, s, p) == OutCell(m, t, p)
  {
    FindPinIs(m.pins, p);
  }

  lemma {:induction false} OutputsAre(pins: seq<Pin>)
    ensures forall p :: p in E.PinsOf(pins, P.Outputs) <==> p in pins && p.kind.Out?
  {
    if pins != [] {
      OutputsAre(pins[1..]);
      assert forall p :: p in pins <==> p == pins[0] || p in pins[1..];
    }
  }

  // Two sessions whose inputs read the same cells show the same outputs.
  lemma SameCellsSameOutputs<S(!new)>(m: Machine<S>, calm: S -> bool, s: Session<S>, t: Session<S>, cells: seq<Cell>)
    requires PinsDistinct(m.pins) && Combinational(m, calm) && Fit(calm, s) && Fit(calm, t)
    requires CellsRead(m, s.rt, E.PinsOf(m.pins, P.Inputs), cells) && CellsRead(m, t.rt, E.PinsOf(m.pins, P.Inputs), cells)
    ensures OutCells(m, s, E.PinsOf(m.pins, P.Outputs)) == OutCells(m, t, E.PinsOf(m.pins, P.Outputs))
  {
    var inputs, outputs := E.PinsOf(m.pins, P.Inputs), E.PinsOf(m.pins, P.Outputs);
    InputsAre(m.pins);
    OutputsAre(m.pins);
    forall p <- m.pins | p.kind.In?
      ensures m.read(s.rt, p.id).Canonical(p.width) == m.read(t.rt, p.id).Canonical(p.width)
    {
      var k :| 0 <= k < |inputs| && inputs[k] == p;
      assert Reads(m, s.rt, inputs[k], cells[k].value) && Reads(m, t.rt, inputs[k], cells[k].value);
    }
    assert InputsAlike(m, s.rt, t.rt);
    forall k | 0 <= k < |outputs|
      ensures OutCell(m, s, outputs[k]) == OutCell(m, t, outputs[k])
    {
      assert outputs[k] in outputs;
      OutCellIs(m, s, t, outputs[k]);
    }
  }

  // A cell shows a pin: the value when every bit of it is known, and none when some
  // bit is not.
  ghost predicate ShownBy<S>(m: Machine<S>, rt: S, pin: Pin, cell: Cell) {
    && (forall v: nat :: cell == Some(v) <==> Reads(m, rt, pin, v))
    && (cell.None? <==> And(m.read(rt, pin.id).defined, Pow(2, pin.width) - 1) != Pow(2, pin.width) - 1)
  }

  ghost predicate AllShownBy<S>(m: Machine<S>, rt: S, pins: seq<Pin>, cells: seq<Cell>) {
    |cells| == |pins| && forall k :: 0 <= k < |pins| ==> ShownBy(m, rt, pins[k], cells[k])
  }

  lemma OutCellShows<S>(m: Machine<S>, s: Session<S>, p: Pin)
    requires PinsDistinct(m.pins) && p in m.pins && p.kind.Out? && !s.poisoned
    ensures ShownBy(m, s.rt, p, OutCell(m, s, p))
  {
    FindPinIs(m.pins, p);
    var bits := m.read(s.rt, p.id);
    assert Mask(p.width) == Pow(2, p.width) - 1;
    assert bits.Canonical(p.width) == Bits(And(bits.value, And(bits.defined, Mask(p.width))), And(bits.defined, Mask(p.width)));
  }

  lemma OutCellsShow<S>(m: Machine<S>, s: Session<S>)
    requires PinsDistinct(m.pins) && !s.poisoned
    ensures AllShownBy(m, s.rt, E.PinsOf(m.pins, P.Outputs), OutCells(m, s, E.PinsOf(m.pins, P.Outputs)))
  {
    var outputs := E.PinsOf(m.pins, P.Outputs);
    OutputsAre(m.pins);
    forall k | 0 <= k < |outputs|
      ensures ShownBy(m, s.rt, outputs[k], OutCell(m, s, outputs[k]))
    {
      assert outputs[k] in outputs;
      OutCellShows(m, s, outputs[k]);
    }
  }

  // An input is tried when some bit of it is unknown, and held at what it reads when
  // none is.
  lemma HeldAsRead<S>(m: Machine<S>, live: Session<S>, p: Pin)
    requires PinsDistinct(m.pins) && p in m.pins && p.kind.In? && !live.poisoned
    ensures ShownBy(m, live.rt, p, if Unknown(m, live, None, p) then None else Some(KnownValue(m, live, None, p)))
  {
    FindPinIs(m.pins, p);
    var bits := m.read(live.rt, p.id);
    assert Mask(p.width) == Pow(2, p.width) - 1;
    assert bits.Canonical(p.width) == Bits(And(bits.value, And(bits.defined, Mask(p.width))), And(bits.defined, Mask(p.width)));
  }

  // The reading captured last under a name.
  lemma {:induction false} LastReadingIs(readings: seq<Reading>, name: string)
    ensures match LastReading(readings, name)
            case None => forall r <- readings :: r.name != name
            case Some(r) =>
              exists k :: 0 <= k < |readings| && readings[k] == r && r.name == name
                          && forall j :: k < j < |readings| ==> readings[j].name != name
  {
    if readings != [] {
      var n := |readings| - 1;
      if readings[n].name != name {
        LastReadingIs(readings[..n], name);
        assert readings == readings[..n] + [readings[n]];
      }
    }
  }

  // How tabulating ends: refused when more bits than the cap are to be tried, or when
  // the scratch circuit has a memory that can be written, and then the scratch session
  // is as it was; else a row for every assignment, unless an input cannot be driven.
  lemma OutcomeIs<S>(m: Machine<S>, live: Session<S>, n: Machine<S>, scratch: Session<S>, cap: nat,
                     fixed: Option<seq<Reading>>, hasRam: bool)
    ensures var (outcome, tried) := RowsFor(m, live, n, scratch, cap, fixed, hasRam);
            var unknown := PlanOf(m, live, fixed).unknown;
            var ram := hasRam || exists k :: 0 <= k < |n.mems| && !n.mems[k].rom;
            && (outcome.OverCap? <==> Sum(Widths(unknown)) > cap)
            && (outcome.StatefulCircuit? <==> Sum(Widths(unknown)) <= cap && ram)
            && (!outcome.Threw? ==> outcome.unknownBits == Sum(Widths(unknown)))
            && (outcome.OverCap? || outcome.StatefulCircuit? ==> tried.session == scratch && tried.events == [])
            && (outcome.Tabulated? ==>
                  && |outcome.table.rows| == Pow(2, Sum(Widths(unknown)))
                  && outcome.table.inputs == Columns(E.PinsOf(m.pins, P.Inputs))
                  && outcome.table.outputs == Columns(E.PinsOf(m.pins, P.Outputs)))
  {
    var plan := PlanOf(m, live, fixed);
    var held := Hold(n, scratch, plan.known);
    if TryAll(n, scratch, plan).reply.Done? {
      var at := EnumerateChain(Driver(n, plan), Recorder(n, plan), held.session, 0, Pow(2, Sum(Widths(plan.unknown))));
    }
    assert (exists mem <- n.mems :: !mem.rom) <==> exists k :: 0 <= k < |n.mems| && !n.mems[k].rom;
  }

  // Whatever session's inputs read as row `i` says, its outputs read as row `i` says.
  lemma RowTellsOutputs<S(!new)>(m: Machine<S>, calm: S -> bool, live: Session<S>, fixed: Option<seq<Reading>>,
                                 scratch: Session<S>, i: nat, s: Session<S>)
    requires PinsDistinct(m.pins) && InputsKeep(m) && DrivesCalm(m, calm) && Combinational(m, calm)
    requires Fit(calm, scratch) && Fit(calm, s)
    requires TryAll(m, scratch, PlanOf(m, live, fixed)).reply.Done?
    requires i < Pow(2, Sum(Widths(PlanOf(m, live, fixed).unknown)))
    ensures var plan := PlanOf(m, live, fixed);
            var rows := TryAll(m, scratch, plan).rows;
            && |rows| == Pow(2, Sum(Widths(plan.unknown)))
            && rows[i].ins == InCells(plan.inputs, plan.unknown, plan.known, i)
            && (CellsRead(m, s.rt, plan.inputs, rows[i].ins) ==> rows[i].outs == OutCells(m, s, plan.outputs))
            && (CellsRead(m, s.rt, plan.inputs, rows[i].ins) ==> AllShownBy(m, s.rt, plan.outputs, rows[i].outs))
  {
    var plan := PlanOf(m, live, fixed);
    var held := Hold(m, scratch, plan.known);
    HeldIsReady(m, calm, live, fixed, scratch);
    AttemptsKeep(m, calm, live, fixed);
    var at := ReadOff(Driver(m, plan), Recorder(m, plan), Readiness(m, calm, live, fixed), RowReading(m, plan),
                      held.session, Pow(2, Sum(Widths(plan.unknown))), i);
    RowTells(m, calm, plan, i, at, s);
    OutCellsShow(m, s);
  }

  lemma RowTells<S(!new)>(m: Machine<S>, calm: S -> bool, plan: Plan, i: nat, at: Session<S>, s: Session<S>)
    requires PinsDistinct(m.pins) && Combinational(m, calm) && Fit(calm, at) && Fit(calm, s)
    requires plan.inputs == E.PinsOf(m.pins, P.Inputs) && plan.outputs == E.PinsOf(m.pins, P.Outputs)
    requires CellsRead(m, at.rt, plan.inputs, InCells(plan.inputs, plan.unknown, plan.known, i))
    ensures var row := RowAt(m, at, plan, i);
            CellsRead(m, s.rt, plan.inputs, row.ins) ==> row.outs == OutCells(m, s, plan.outputs)
  {
    var cells := InCells(plan.inputs, plan.unknown, plan.known, i);
    if CellsRead(m, s.rt, plan.inputs, cells) {
      SameCellsSameOutputs(m, calm, at, s, cells);
    }
  }

  // ---- what is tabulated can be driven and found --------------------------------------------------

  lemma RowsDiffer<S>(m: Machine<S>, live: Session<S>, fixed: Option<seq<Reading>>, i: nat, j: nat)
    requires PinsDistinct(m.pins) && i < j < Pow(2, Sum(Widths(PlanOf(m, live, fixed).unknown)))
    ensures var plan := PlanOf(m, live, fixed);
            InCells(plan.inputs, plan.unknown, plan.known, i) != InCells(plan.inputs, plan.unknown, plan.known, j)
  {
    var plan := PlanOf(m, live, fixed);
    RowExtends(m, live, fixed, i);
    var k := EveryAssignmentOnce(m, live, fixed, InCells(plan.inputs, plan.unknown, plan.known, i));
    assert k == i;
  }

  lemma RowsAre<S>(m: Machine<S>, live: Session<S>, fixed: Option<seq<Reading>>, scratch: Session<S>)
    requires TryAll(m, scratch, PlanOf(m, live, fixed)).reply.Done?
    ensures var plan := PlanOf(m, live, fixed);
            var rows := TryAll(m, scratch, plan).rows;
            && |rows| == Pow(2, Sum(Widths(plan.unknown)))
            && forall i :: 0 <= i < |rows| ==> rows[i].ins == InCells(plan.inputs, plan.unknown, plan.known, i)
  {
    var plan := PlanOf(m, live, fixed);
    var at := EnumerateChain(Driver(m, plan), Recorder(m, plan), Hold(m, scratch, plan.known).session,
                             0, Pow(2, Sum(Widths(plan.unknown))));
    RowsInPlace(m, plan, TryAll(m, scratch, plan).rows, at);
  }

  lemma RowsInPlace<S>(m: Machine<S>, plan: Plan, rows: seq<Row>, at: seq<Session<S>>)
    requires |rows| == |at| && forall j :: 0 <= j < |at| ==> rows[j] == Recorder(m, plan)(at[j], 0 + j)
    ensures forall i :: 0 <= i < |rows| ==> rows[i].ins == InCells(plan.inputs, plan.unknown, plan.known, i)
  {
    forall i | 0 <= i < |rows|
      ensures rows[i].ins == InCells(plan.inputs, plan.unknown, plan.known, i)
    {
      assert rows[i] == RowAt(m, at[i], plan, i);
    }
  }

  lemma ColumnsSuit(pins: seq<Pin>)
    requires PinsDistinct(pins)
    ensures var columns := Columns(E.PinsOf(pins, P.Inputs));
            && (forall c <- columns :: Suits(pins, Target(c.name, c.width, 0)))
            && forall i, j :: 0 <= i < j < |columns| ==> columns[i].name != columns[j].name
  {
    var inputs := E.PinsOf(pins, P.Inputs);
    InputsAre(pins);
    forall c <- Columns(inputs)
      ensures Suits(pins, Target(c.name, c.width, 0))
    {
      var k :| 0 <= k < |inputs| && c == Column(inputs[k].name, inputs[k].width);
      FindPinIs(pins, inputs[k]);
    }
  }

  lemma TabulatedIsProper<S>(m: Machine<S>, live: Session<S>, fixed: Option<seq<Reading>>, scratch: Session<S>)
    requires PinsDistinct(m.pins) && TryAll(m, scratch, PlanOf(m, live, fixed)).reply.Done?
    ensures var plan := PlanOf(m, live, fixed);
            Proper(m.pins, Table(Columns(plan.inputs), Columns(plan.outputs), TryAll(m, scratch, plan).rows))
  {
    var plan := PlanOf(m, live, fixed);
    TabulatedWhole(m, live, fixed, scratch);
    TabulatedApart(m, live, fixed, scratch);
    ProperTable(m.pins, Columns(plan.outputs), TryAll(m, scratch, plan).rows);
  }

  lemma ProperTable(pins: seq<Pin>, outputs: seq<Column>, rows: seq<Row>)
    requires PinsDistinct(pins)
    requires forall r <- rows :: |r.ins| == |E.PinsOf(pins, P.Inputs)| && forall c <- r.ins :: c.Some?
    requires forall i, j :: 0 <= i < j < |rows| ==> rows[i].ins != rows[j].ins
    ensures Proper(pins, Table(Columns(E.PinsOf(pins, P.Inputs)), outputs, rows))
  {
    ColumnsSuit(pins);
  }

  lemma TabulatedWhole<S>(m: Machine<S>, live: Session<S>, fixed: Option<seq<Reading>>, scratch: Session<S>)
    requires PinsDistinct(m.pins) && TryAll(m, scratch, PlanOf(m, live, fixed)).reply.Done?
    ensures forall r <- TryAll(m, scratch, PlanOf(m, live, fixed)).rows ::
              |r.ins| == |PlanOf(m, live, fixed).inputs| && forall c <- r.ins :: c.Some?
  {
    var rows := TryAll(m, scratch, PlanOf(m, live, fixed)).rows;
    RowsAre(m, live, fixed, scratch);
    forall i | 0 <= i < |rows|
      ensures |rows[i].ins| == |PlanOf(m, live, fixed).inputs| && forall c <- rows[i].ins :: c.Some?
    {
      RowExtends(m, live, fixed, i);
    }
  }

  lemma TabulatedApart<S>(m: Machine<S>, live: Session<S>, fixed: Option<seq<Reading>>, scratch: Session<S>)
    requires PinsDistinct(m.pins) && TryAll(m, scratch, PlanOf(m, live, fixed)).reply.Done?
    ensures var rows := TryAll(m, scratch, PlanOf(m, live, fixed)).rows;
            forall i, j :: 0 <= i < j < |rows| ==> rows[i].ins != rows[j].ins
  {
    var rows := TryAll(m, scratch, PlanOf(m, live, fixed)).rows;
    RowsAre(m, live, fixed, scratch);
    forall i, j | 0 <= i < j < |rows|
      ensures rows[i].ins != rows[j].ins
    {
      RowsDiffer(m, live, fixed, i, j);
    }
  }
}
