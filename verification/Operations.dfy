// Background operations and their waiters
// (site/src/scripts/playground-operations.ts).
module Operations {
  // Every method runs between two awaits; timeouts and aborts are steps of their own.

  import opened Collections
  import opened Wrappers

  datatype OpState = Queued | Running | Succeeded | Diagnostics | Refused | Failed | Superseded

  predicate Terminal(state: OpState) {
    !state.Queued? && !state.Running?
  }

  // An operation is known by its number in the page's sequence; `detail` is
  // whatever a finish patches in.
  datatype Summary = Summary(
    op: nat, createdAt: int, state: OpState, startedAt: Option<int>, finishedAt: Option<int>, detail: string)

  datatype Lookup = Found(summary: Summary) | NotFound | Expired

  datatype Outcome = Finished(summary: Summary) | TimedOut(summary: Summary) | Cancelled(summary: Summary)

  // A wait that took a slot: the operation, what it looked like then, and how the
  // wait was settled.
  datatype Waiter = Waiter(op: nat, seen: Summary, outcome: Option<Outcome>)

  datatype Store = Store(
    sequence: nat,
    activeWaits: int,
    records: map<nat, Summary>,
    // In the order they subscribed.
    listeners: map<nat, seq<nat>>,
    waiters: seq<Waiter>)

  datatype Waited = Settled(outcome: Outcome) | Missing(lookup: Lookup) | WaitLimit | Pending(waiter: nat)

  const MAX_OPERATION_WAITS := 32

  const START := Store(0, 0, map[], map[], [])

  // An identifier a caller may ask about: as the page spells it, with a number of
  // the page's spelled in another way (as 007 or 7.0), or without such a number.
  datatype Id = Numbered(n: nat) | Respelled(n: nat) | Foreign

  function LookUp(s: Store, id: Id): Lookup {
    if id.Numbered? && id.n in s.records then Found(s.records[id.n])
    else if !id.Foreign? && 0 < id.n <= s.sequence then Expired
    else NotFound
  }

  // ---- waits ---------------------------------------------------------------------------

  function Without(ws: seq<nat>, w: nat): (rest: seq<nat>)
    ensures forall v :: v in rest <==> v in ws && v != w
  {
    if ws == [] then [] else (if ws[0] == w then [] else [ws[0]]) + Without(ws[1..], w)
  }

  predicate Within(ws: seq<nat>, n: nat) {
    forall i :: 0 <= i < |ws| ==> ws[i] < n
  }

  // `complete`: only the first call does anything.
  function Complete(s: Store, w: nat, outcome: Outcome): (r: Store)
    requires w < |s.waiters|
    ensures |r.waiters| == |s.waiters| && r.records == s.records && r.sequence == s.sequence
  {
    var waiter := s.waiters[w];
    if waiter.outcome.Some? then s
    else s.(waiters := s.waiters[w := waiter.(outcome := Some(outcome))],
            activeWaits := s.activeWaits - 1,
            listeners := if waiter.op in s.listeners then s.listeners[waiter.op := Without(s.listeners[waiter.op], w)]
                         else s.listeners)
  }

  function CompleteAll(s: Store, ws: seq<nat>, outcome: Outcome): Store
    requires Within(ws, |s.waiters|)
    decreases |ws|
  {
    if ws == [] then s else CompleteAll(Complete(s, ws[0], outcome), ws[1..], outcome)
  }

  // What the operation looks like now, or looked like if it is gone.
  function Latest(s: Store, w: nat): Summary
    requires w < |s.waiters|
  {
    var waiter := s.waiters[w];
    if waiter.op in s.records then s.records[waiter.op] else waiter.seen
  }

  // ---- retention -------------------------------------------------------------------------

  predicate Older(a: Summary, b: Summary) {
    a.createdAt < b.createdAt || (a.createdAt == b.createdAt && a.op < b.op)
  }

  function TerminalOps(records: map<nat, Summary>): set<nat> {
    set n | n in records && Terminal(records[n].state)
  }

  function NewerOps(records: map<nat, Summary>, n: nat): set<nat>
    requires n in records
  {
    set k | k in records && Terminal(records[k].state) && Older(records[n], records[k])
  }

  // Of the terminal records the newest stay.
  function Evict(records: map<nat, Summary>, max: nat): map<nat, Summary> {
    map n | n in records && (!Terminal(records[n].state) || |NewerOps(records, n)| < max) :: records[n]
  }

  // ---- steps -----------------------------------------------------------------------------

  datatype Step =
    | Create(now: int)
    | Start(op: nat, now: int)
    | Finish(op: nat, state: OpState, now: int, detail: string)
    | Wait(id: Id, atOnce: bool, aborted: bool)
    | Timeout(waiter: nat)
    | Abort(waiter: nat)

  predicate Enabled(s: Store, step: Step) {
    match step
    case Finish(_, state, _, _) => Terminal(state)
    case Timeout(w) => w < |s.waiters|
    case Abort(w) => w < |s.waiters|
    case _ => true
  }

  predicate Open(s: Store, op: nat) {
    op in s.records && !Terminal(s.records[op].state)
  }

  function Subscribed(s: Store, op: nat): seq<nat> {
    if op in s.listeners then s.listeners[op] else []
  }

  // The waiters of an operation are told and forgotten.
  function Tell(s: Store, op: nat): Store
    requires op in s.records && Within(Subscribed(s, op), |s.waiters|)
  {
    var told := CompleteAll(s, Subscribed(s, op), Finished(s.records[op]));
    told.(listeners := told.listeners - {op})
  }

  predicate Sound(s: Store) {
    forall op <- s.listeners :: Within(s.listeners[op], |s.waiters|)
  }

  function WaitOn(s: Store, id: Id, atOnce: bool, aborted: bool): (Store, Waited) {
    var found := LookUp(s, id);
    if !found.Found? then (s, Missing(found))
    else if Terminal(found.summary.state) then (s, Settled(Finished(found.summary)))
    else if atOnce then (s, Settled(TimedOut(found.summary)))
    else if s.activeWaits >= MAX_OPERATION_WAITS then (s, WaitLimit)
    else
      var w := |s.waiters|;
      var taken := s.(activeWaits := s.activeWaits + 1,
                      waiters := s.waiters + [Waiter(id.n, found.summary, None)],
                      listeners := s.listeners[id.n := Subscribed(s, id.n) + [w]]);
      (if aborted then Complete(taken, w, Cancelled(Latest(taken, w))) else taken, Pending(w))
  }

  function Next(s: Store, max: nat, step: Step): Store
    requires Enabled(s, step) && Sound(s)
  {
    match step
    case Create(now) =>
      var op := s.sequence + 1;
      s.(sequence := op, records := s.records[op := Summary(op, now, Queued, None, None, "")])
    case Start(op, now) =>
      if op !in s.records || !s.records[op].state.Queued? then s
      else s.(records := s.records[op := s.records[op].(state := Running, startedAt := Some(now))])
    case Finish(op, state, now, detail) =>
      if !Open(s, op) then s else
      var done := s.records[op].(detail := detail, state := state, finishedAt := Some(now));
      var told := Tell(s.(records := s.records[op := done]), op);
      told.(records := Evict(told.records, max))
    case Wait(id, atOnce, aborted) => WaitOn(s, id, atOnce, aborted).0
    case Timeout(w) => Complete(s, w, TimedOut(Latest(s, w)))
    case Abort(w) => Complete(s, w, Cancelled(Latest(s, w)))
  }

  // ---- what every step keeps -----------------------------------------------------------------

  function Unsettled(waiters: seq<Waiter>): set<nat> {
    set w | 0 <= w < |waiters| && waiters[w].outcome.None?
  }

  // Records are the page's own.
  predicate RecordsOwn(s: Store) {
    forall n <- s.records :: 0 < n <= s.sequence && s.records[n].op == n
  }

  // Those subscribed to an operation wait on it, each once and unsettled.
  predicate Subscribing(s: Store, op: nat, ws: seq<nat>) {
    && Distinct(ws)
    && forall i :: 0 <= i < |ws| ==> ws[i] < |s.waiters| && s.waiters[ws[i]].op == op && s.waiters[ws[i]].outcome.None?
  }

  predicate Subscribers(s: Store) {
    forall op <- s.listeners :: Subscribing(s, op, s.listeners[op])
  }

  // Whoever is unsettled is subscribed, to an operation that is open.
  predicate Listening(s: Store) {
    forall w :: 0 <= w < |s.waiters| && s.waiters[w].outcome.None? ==>
      Open(s, s.waiters[w].op) && w in Subscribed(s, s.waiters[w].op)
  }

  // The slots taken are those of the unsettled, and never more than there are.
  predicate Counted(s: Store) {
    s.activeWaits == |Unsettled(s.waiters)| <= MAX_OPERATION_WAITS
  }

  // A wait said to be finished shows a finished operation, and one given up on an
  // unfinished one, of the operation waited for.
  predicate Honest(waiter: Waiter) {
    && waiter.seen.op == waiter.op && !Terminal(waiter.seen.state)
    && match waiter.outcome
       case None => true
       case Some(outcome) => outcome.summary.op == waiter.op && (outcome.Finished? <==> Terminal(outcome.summary.state))
  }

  predicate AllHonest(s: Store) {
    forall w :: 0 <= w < |s.waiters| ==> Honest(s.waiters[w])
  }

  predicate Inv(s: Store)
    ensures Inv(s) ==> Sound(s)
  {
    RecordsOwn(s) && Subscribers(s) && Listening(s) && Counted(s) && AllHonest(s)
  }

  // ---- settling one --------------------------------------------------------------------------

  lemma {:induction false} WithoutKeeps(ws: seq<nat>, w: nat)
    requires Distinct(ws)
    ensures Distinct(Without(ws, w))
  {
    if ws != [] {
      WithoutKeeps(ws[1..], w);
      var rest := Without(ws[1..], w);
      assert ws[0] !in ws[1..];
      assert forall i :: 0 <= i < |rest| ==> rest[i] in rest && rest[i] in ws[1..];
    }
  }

  // The slots are given back exactly.
  lemma UnsettledWithout(before: seq<Waiter>, after: seq<Waiter>, ws: set<nat>)
    requires |after| == |before| && ws <= Unsettled(before)
    requires forall w :: 0 <= w < |before| ==> (after[w].outcome.None? <==> before[w].outcome.None? && w !in ws)
    ensures |Unsettled(after)| == |Unsettled(before)| - |ws|
  {
    assert Unsettled(after) == Unsettled(before) - ws;
  }

  // A wait given up on is still of an open operation.
  lemma GivenUpOpen(s: Store, w: nat)
    requires Inv(s) && w < |s.waiters| && s.waiters[w].outcome.None?
    ensures Open(s, s.waiters[w].op) && Latest(s, w) == s.records[s.waiters[w].op] && Latest(s, w).op == s.waiters[w].op
  {
  }

  lemma CompleteSubscribers(s: Store, w: nat, outcome: Outcome)
    requires Subscribers(s) && w < |s.waiters| && s.waiters[w].outcome.None?
    ensures Subscribers(Complete(s, w, outcome))
  {
    var t := Complete(s, w, outcome);
    forall op <- t.listeners
      ensures Subscribing(t, op, t.listeners[op])
    {
      var ws := s.listeners[op];
      assert Subscribing(s, op, ws);
      if op == s.waiters[w].op {
        WithoutKeeps(ws, w);
        assert forall i :: 0 <= i < |Without(ws, w)| ==> Without(ws, w)[i] in Without(ws, w);
      }
    }
  }

  lemma CompleteCounted(s: Store, w: nat, outcome: Outcome)
    requires Counted(s) && w < |s.waiters| && s.waiters[w].outcome.None?
    ensures Counted(Complete(s, w, outcome))
  {
    UnsettledWithout(s.waiters, Complete(s, w, outcome).waiters, {w});
  }

  lemma CompleteKeeps(s: Store, w: nat, outcome: Outcome)
    requires Inv(s) && w < |s.waiters|
    requires s.waiters[w].outcome.None? ==> outcome.summary.op == s.waiters[w].op && !outcome.Finished? && !Terminal(outcome.summary.state)
    ensures Inv(Complete(s, w, outcome))
  {
    if s.waiters[w].outcome.None? {
      CompleteSubscribers(s, w, outcome);
      CompleteCounted(s, w, outcome);
    }
  }

  // ---- taking a slot -------------------------------------------------------------------------

  function Take(s: Store, op: nat): Store
    requires op in s.records
  {
    var w := |s.waiters|;
    s.(activeWaits := s.activeWaits + 1, waiters := s.waiters + [Waiter(op, s.records[op], None)],
       listeners := s.listeners[op := Subscribed(s, op) + [w]])
  }

  lemma TakeSubscribers(s: Store, op: nat)
    requires Subscribers(s) && op in s.records
    ensures Subscribers(Take(s, op))
  {
    var t := Take(s, op);
    forall k <- t.listeners
      ensures Subscribing(t, k, t.listeners[k])
    {
      assert k in s.listeners ==> Subscribing(s, k, s.listeners[k]);
    }
  }

  lemma TakeCounted(s: Store, op: nat)
    requires Counted(s) && op in s.records && s.activeWaits < MAX_OPERATION_WAITS
    ensures Counted(Take(s, op))
  {
    assert Unsettled(Take(s, op).waiters) == Unsettled(s.waiters) + {|s.waiters|};
  }

  lemma TakeListening(s: Store, op: nat)
    requires Listening(s) && Open(s, op)
    ensures Listening(Take(s, op))
  {
    var t := Take(s, op);
    assert |s.waiters| in Subscribed(t, op);
    forall w | 0 <= w < |s.waiters| && t.waiters[w].outcome.None?
      ensures Open(t, t.waiters[w].op) && w in Subscribed(t, t.waiters[w].op)
    {
      assert t.waiters[w] == s.waiters[w] && w in Subscribed(s, s.waiters[w].op);
    }
  }

  lemma TakeKeeps(s: Store, op: nat)
    requires Inv(s) && Open(s, op) && s.activeWaits < MAX_OPERATION_WAITS
    ensures Inv(Take(s, op))
  {
    TakeSubscribers(s, op);
    TakeCounted(s, op);
    TakeListening(s, op);
  }

  lemma WaitKeeps(s: Store, id: Id, atOnce: bool, aborted: bool)
    requires Inv(s)
    ensures Inv(WaitOn(s, id, atOnce, aborted).0)
  {
    if WaitOn(s, id, atOnce, aborted).1.Pending? {
      TakeKeeps(s, id.n);
      var t := Take(s, id.n);
      GivenUpOpen(t, |s.waiters|);
      CompleteKeeps(t, |s.waiters|, Cancelled(Latest(t, |s.waiters|)));
    }
  }

  // ---- telling all -----------------------------------------------------------------------------

  // Settling those subscribed settles each once and nobody else.
  lemma {:induction false} CompleteAllMeans(s: Store, op: nat, ws: seq<nat>, outcome: Outcome)
    requires Subscribing(s, op, ws)
    ensures var t := CompleteAll(s, ws, outcome);
            && t.records == s.records && t.sequence == s.sequence && |t.waiters| == |s.waiters|
            && t.activeWaits == s.activeWaits - |ws|
            && t.listeners - {op} == s.listeners - {op}
            && (forall w :: 0 <= w < |s.waiters| ==>
                  t.waiters[w] == if w in ws then s.waiters[w].(outcome := Some(outcome)) else s.waiters[w])
    decreases |ws|
  {
    if ws != [] {
      var next := Complete(s, ws[0], outcome);
      assert Subscribing(next, op, ws[1..]);
      CompleteAllMeans(next, op, ws[1..], outcome);
    }
  }

  lemma SubscribedAre(s: Store, op: nat)
    requires Inv(s)
    ensures Subscribing(s, op, Subscribed(s, op))
    ensures forall w :: 0 <= w < |s.waiters| && s.waiters[w].outcome.None? && s.waiters[w].op == op ==> w in Subscribed(s, op)
  {
  }

  // The record closed and its waiters told: they are settled with it, the rest
  // are as they were, and nobody is left waiting on it.
  lemma TellMeans(s: Store, op: nat, done: Summary)
    requires Inv(s) && Open(s, op)
    ensures var s1 := s.(records := s.records[op := done]);
            var t := Tell(s1, op);
            && t.records == s1.records && t.sequence == s.sequence && |t.waiters| == |s.waiters|
            && t.listeners == s.listeners - {op} && t.activeWaits == s.activeWaits - |Subscribed(s, op)|
            && forall w :: 0 <= w < |s.waiters| ==>
                 t.waiters[w] == if s.waiters[w].op == op && s.waiters[w].outcome.None?
                                 then s.waiters[w].(outcome := Some(Finished(done))) else s.waiters[w]
  {
    var s1, ws := s.(records := s.records[op := done]), Subscribed(s, op);
    SubscribedAre(s, op);
    assert Subscribing(s1, op, ws);
    CompleteAllMeans(s1, op, ws, Finished(done));
    assert forall w <- ws :: exists i :: 0 <= i < |ws| && ws[i] == w;
  }

  lemma TellCounted(s: Store, op: nat, done: Summary)
    requires Inv(s) && Open(s, op)
    ensures Counted(Tell(s.(records := s.records[op := done]), op))
  {
    var ws, t := Subscribed(s, op), Tell(s.(records := s.records[op := done]), op);
    TellMeans(s, op, done);
    SubscribedAre(s, op);
    DistinctSize(ws);
    assert forall w <- ws :: exists i :: 0 <= i < |ws| && ws[i] == w;
    UnsettledWithout(s.waiters, t.waiters, SetOf(ws));
  }

  lemma TellKeeps(s: Store, op: nat, done: Summary)
    requires Inv(s) && Open(s, op) && done.op == op && Terminal(done.state)
    ensures Inv(Tell(s.(records := s.records[op := done]), op))
  {
    TellMeans(s, op, done);
    TellCounted(s, op, done);
    TellSubscribers(s, op, done);
    TellListening(s, op, done);
    TellHonest(s, op, done);
  }

  lemma TellSubscribers(s: Store, op: nat, done: Summary)
    requires Inv(s) && Open(s, op)
    ensures Subscribers(Tell(s.(records := s.records[op := done]), op))
  {
    var t := Tell(s.(records := s.records[op := done]), op);
    TellMeans(s, op, done);
    forall k <- t.listeners
      ensures Subscribing(t, k, t.listeners[k])
    {
      assert Subscribing(s, k, s.listeners[k]);
    }
  }

  lemma TellListening(s: Store, op: nat, done: Summary)
    requires Inv(s) && Open(s, op)
    ensures Listening(Tell(s.(records := s.records[op := done]), op))
  {
    var t := Tell(s.(records := s.records[op := done]), op);
    TellMeans(s, op, done);
    forall w | 0 <= w < |t.waiters| && t.waiters[w].outcome.None?
      ensures Open(t, t.waiters[w].op) && w in Subscribed(t, t.waiters[w].op)
    {
      assert t.waiters[w] == s.waiters[w];
      assert Open(s, s.waiters[w].op) && w in Subscribed(s, s.waiters[w].op);
    }
  }

  lemma TellHonest(s: Store, op: nat, done: Summary)
    requires Inv(s) && Open(s, op) && done.op == op && Terminal(done.state)
    ensures AllHonest(Tell(s.(records := s.records[op := done]), op))
  {
    var t := Tell(s.(records := s.records[op := done]), op);
    TellMeans(s, op, done);
    forall w | 0 <= w < |t.waiters|
      ensures Honest(t.waiters[w])
    {
      assert Honest(s.waiters[w]);
    }
  }

  // ---- every step ------------------------------------------------------------------------------

  // Dropping terminal records disturbs no waiter.
  lemma EvictKeeps(s: Store, max: nat)
    requires Inv(s)
    ensures Inv(s.(records := Evict(s.records, max)))
  {
    var t := s.(records := Evict(s.records, max));
    assert forall op <- t.listeners :: Subscribing(s, op, s.listeners[op]) && Subscribing(t, op, t.listeners[op]);
  }

  // Records may change while no open one closes.
  lemma RecordKeeps(s: Store, op: nat, record: Summary, sequence: nat)
    requires Inv(s) && record.op == op && !Terminal(record.state) && s.sequence <= sequence && 0 < op <= sequence
    ensures Inv(s.(sequence := sequence, records := s.records[op := record]))
  {
    var t := s.(sequence := sequence, records := s.records[op := record]);
    assert forall k <- t.listeners :: Subscribing(s, k, s.listeners[k]) && Subscribing(t, k, t.listeners[k]);
  }

  lemma StepKeeps(s: Store, max: nat, step: Step)
    requires Inv(s) && Enabled(s, step)
    ensures Inv(Next(s, max, step))
  {
    match step
    case Create(now) => RecordKeeps(s, s.sequence + 1, Summary(s.sequence + 1, now, Queued, None, None, ""), s.sequence + 1);
    case Start(op, now) =>
      if op in s.records && s.records[op].state.Queued? {
        RecordKeeps(s, op, s.records[op].(state := Running, startedAt := Some(now)), s.sequence);
      }
    case Finish(op, state, now, detail) =>
      if Open(s, op) {
        var done := s.records[op].(detail := detail, state := state, finishedAt := Some(now));
        TellKeeps(s, op, done);
        EvictKeeps(Tell(s.(records := s.records[op := done]), op), max);
      }
    case Wait(id, atOnce, aborted) => WaitKeeps(s, id, atOnce, aborted);
    case Timeout(w) => GiveUpKeeps(s, w, TimedOut(Latest(s, w)));
    case Abort(w) => GiveUpKeeps(s, w, Cancelled(Latest(s, w)));
  }

  lemma GiveUpKeeps(s: Store, w: nat, outcome: Outcome)
    requires Inv(s) && w < |s.waiters| && !outcome.Finished? && outcome.summary == Latest(s, w)
    ensures Inv(Complete(s, w, outcome))
  {
    if s.waiters[w].outcome.None? {
      GivenUpOpen(s, w);
    }
    CompleteKeeps(s, w, outcome);
  }

  // ---- what never goes back ----------------------------------------------------------------------

  // An outcome stands, a closed record stays as it is until it is dropped, only
  // closed ones are dropped, and a number given out is not given out again.
  predicate Advances(s: Store, t: Store) {
    && s.sequence <= t.sequence && |s.waiters| <= |t.waiters|
    && (forall w :: 0 <= w < |s.waiters| ==>
          t.waiters[w] == s.waiters[w]
          || (s.waiters[w].outcome.None? && t.waiters[w].outcome.Some? && t.waiters[w] == s.waiters[w].(outcome := t.waiters[w].outcome)))
    && (forall n <- s.records :: Terminal(s.records[n].state) && n in t.records ==> t.records[n] == s.records[n])
    && (forall n <- t.records :: 0 < n <= s.sequence ==> n in s.records)
  }

  // What is left of an open operation: its number and the time it was created.
  predicate KeepsOpen(s: Store, t: Store) {
    forall n <- s.records ::
      n in t.records ==> t.records[n].op == s.records[n].op && t.records[n].createdAt == s.records[n].createdAt
  }

  lemma FinishAdvances(s: Store, max: nat, op: nat, state: OpState, now: int, detail: string)
    requires Inv(s) && Terminal(state) && Open(s, op)
    ensures var t := Next(s, max, Finish(op, state, now, detail)); Advances(s, t) && KeepsOpen(s, t)
  {
    TellMeans(s, op, s.records[op].(detail := detail, state := state, finishedAt := Some(now)));
  }

  lemma CompleteAdvances(s: Store, w: nat, outcome: Outcome)
    requires w < |s.waiters|
    ensures Advances(s, Complete(s, w, outcome)) && KeepsOpen(s, Complete(s, w, outcome))
  {
  }

  lemma WaitAdvances(s: Store, id: Id, atOnce: bool, aborted: bool)
    ensures var t := WaitOn(s, id, atOnce, aborted).0; Advances(s, t) && KeepsOpen(s, t)
  {
  }

  lemma StepAdvances(s: Store, max: nat, step: Step)
    requires Inv(s) && Enabled(s, step)
    ensures Advances(s, Next(s, max, step)) && KeepsOpen(s, Next(s, max, step))
  {
    match step
    case Finish(op, state, now, detail) =>
      if Open(s, op) {
        FinishAdvances(s, max, op, state, now, detail);
      }
    case Wait(id, atOnce, aborted) => WaitAdvances(s, id, atOnce, aborted);
    case Timeout(w) => CompleteAdvances(s, w, TimedOut(Latest(s, w)));
    case Abort(w) => CompleteAdvances(s, w, Cancelled(Latest(s, w)));
    case _ =>
  }

  // A finish settles everybody waiting with the finished record, evicted or not,
  // and leaves nobody waiting on it.
  lemma FinishSettles(s: Store, max: nat, op: nat, state: OpState, now: int, detail: string, w: nat)
    requires Inv(s) && Terminal(state) && Open(s, op) && w < |s.waiters|
    requires s.waiters[w].op == op && s.waiters[w].outcome.None?
    ensures var done := s.records[op].(detail := detail, state := state, finishedAt := Some(now));
            var t := Next(s, max, Finish(op, state, now, detail));
            w < |t.waiters| && t.waiters[w].outcome == Some(Finished(done))
  {
    TellMeans(s, op, s.records[op].(detail := detail, state := state, finishedAt := Some(now)));
  }

  // ---- runs --------------------------------------------------------------------------------------

  predicate Possible(s: Store, max: nat, steps: seq<Step>)
    requires Sound(s)
    decreases |steps|
  {
    steps == [] ||
    (Enabled(s, steps[0]) && var t := Next(s, max, steps[0]); Sound(t) && Possible(t, max, steps[1..]))
  }

  function After(s: Store, max: nat, steps: seq<Step>): Store
    requires Sound(s) && Possible(s, max, steps)
    decreases |steps|
  {
    if steps == [] then s else After(Next(s, max, steps[0]), max, steps[1..])
  }

  lemma AdvancesOn(s: Store, t: Store, u: Store)
    requires RecordsOwn(s) && Advances(s, t) && Advances(t, u)
    ensures Advances(s, u)
  {
    forall w | 0 <= w < |s.waiters|
      ensures u.waiters[w] == s.waiters[w]
              || (s.waiters[w].outcome.None? && u.waiters[w].outcome.Some? && u.waiters[w] == s.waiters[w].(outcome := u.waiters[w].outcome))
    {
      assert t.waiters[w] == t.waiters[w];
    }
    forall n <- s.records | Terminal(s.records[n].state) && n in u.records
      ensures u.records[n] == s.records[n]
    {
      assert n in t.records;
    }
  }

  // However creates, starts, finishes, waits, timeouts and aborts interleave.
  lemma {:induction false} RunKeeps(s: Store, max: nat, steps: seq<Step>)
    requires Inv(s) && Possible(s, max, steps)
    ensures Inv(After(s, max, steps)) && Advances(s, After(s, max, steps))
    decreases |steps|
  {
    if steps != [] {
      var t := Next(s, max, steps[0]);
      StepKeeps(s, max, steps[0]);
      StepAdvances(s, max, steps[0]);
      RunKeeps(t, max, steps[1..]);
      AdvancesOn(s, t, After(s, max, steps));
    }
  }

  // ---- evicting in order -------------------------------------------------------------------------

  // Oldest first.
  predicate Sorted(records: map<nat, Summary>, ts: seq<nat>) {
    && (forall t <- ts :: t in records)
    && forall i, j :: 0 <= i < j < |ts| ==> ts[i] in records && ts[j] in records && Older(records[ts[i]], records[ts[j]])
  }

  function Insert(records: map<nat, Summary>, ts: seq<nat>, n: nat): (r: seq<nat>)
    requires n in records && forall t <- ts :: t in records
    ensures forall t :: t in r <==> t in ts || t == n
  {
    if ts == [] then [n]
    else
      assert ts[0] in ts;
      if Older(records[n], records[ts[0]]) then [n] + ts else [ts[0]] + Insert(records, ts[1..], n)
  }

  lemma {:induction false} InsertSorts(records: map<nat, Summary>, ts: seq<nat>, n: nat)
    requires n in records && Sorted(records, ts) && n !in ts && forall k <- records :: records[k].op == k
    ensures Sorted(records, Insert(records, ts, n))
  {
    if ts != [] {
      assert ts[0] in ts;
      if Older(records[n], records[ts[0]]) {
        forall t <- ts
          ensures Older(records[n], records[t])
        {
          var j :| 0 <= j < |ts| && ts[j] == t;
        }
        SortedCons(records, n, ts);
      } else {
        InsertSorts(records, ts[1..], n);
        assert forall t <- ts[1..] :: Older(records[ts[0]], records[t]);
        SortedCons(records, ts[0], Insert(records, ts[1..], n));
      }
    }
  }

  lemma SortedCons(records: map<nat, Summary>, first: nat, rest: seq<nat>)
    requires first in records && Sorted(records, rest)
    requires forall t <- rest :: Older(records[first], records[t])
    ensures Sorted(records, [first] + rest)
  {
    var all := [first] + rest;
    forall i, j | 0 <= i < j < |all|
      ensures all[i] in records && all[j] in records && Older(records[all[i]], records[all[j]])
    {
      assert rest[j - 1] in rest;
      assert i > 0 ==> all[i] == rest[i - 1];
    }
  }

  // Of the sorted, those after one are what is newer than it.
  lemma RankIs(records: map<nat, Summary>, ts: seq<nat>, i: nat)
    requires Sorted(records, ts) && i < |ts| && (forall k <- records :: records[k].op == k)
    requires forall t :: t in ts <==> t in TerminalOps(records)
    ensures |NewerOps(records, ts[i])| == |ts| - 1 - i
  {
    var after := ts[i + 1..];
    assert forall j :: 0 <= j < |after| ==> after[j] == ts[i + 1 + j] && after[j] in ts;
    assert Distinct(after);
    DistinctSize(after);
    forall k: nat
      ensures k in NewerOps(records, ts[i]) <==> k in after
    {
      if k in NewerOps(records, ts[i]) {
        assert k in TerminalOps(records);
        var j :| 0 <= j < |ts| && ts[j] == k;
        assert j > i;
        assert after[j - i - 1] == k;
      }
    }
    assert NewerOps(records, ts[i]) == SetOf(after);
  }

  // Dropping the oldest until `max` are left is eviction by rank.
  lemma DropsAreEvictions(records: map<nat, Summary>, ts: seq<nat>, max: nat)
    requires Sorted(records, ts) && (forall k <- records :: records[k].op == k)
    requires forall t :: t in ts <==> t in TerminalOps(records)
    ensures records - SetOf(ts[..if |ts| > max then |ts| - max else 0]) == Evict(records, max)
  {
    var d := if |ts| > max then |ts| - max else 0;
    forall n <- records
      ensures n in SetOf(ts[..d]) <==> Terminal(records[n].state) && |NewerOps(records, n)| >= max
    {
      if Terminal(records[n].state) {
        assert n in TerminalOps(records);
        var i :| 0 <= i < |ts| && ts[i] == n;
        RankIs(records, ts, i);
        assert i < d ==> ts[..d][i] == n;
        if n in ts[..d] {
          var j :| 0 <= j < d && ts[j] == n;
          assert i == j;
        }
      } else {
        assert n in ts[..d] ==> n in ts;
      }
    }
  }

  // ---- the store object ----------------------------------------------------------------------------

  class OperationStore {
    const maxRetained: nat
    var sequence: nat
    var activeWaits: int
    var records: map<nat, Summary>
    var listeners: map<nat, seq<nat>>
    // The waits that took a slot, and how their promises were settled.
    var waiters: seq<Waiter>

    function Now(): Store
      reads this
    {
      Store(sequence, activeWaits, records, listeners, waiters)
    }

    constructor (maxRetained: nat)
      ensures this.maxRetained == maxRetained && Now() == START
    {
      this.maxRetained := maxRetained;
      sequence, activeWaits, records, listeners, waiters := 0, 0, map[], map[], [];
    }

    method CreateOperation(now: int) returns (op: nat)
      requires Inv(Now())
      modifies this
      ensures Now() == Next(old(Now()), maxRetained, Create(now)) && Inv(Now())
      ensures op == old(sequence) + 1 == sequence
    {
      StepKeeps(Now(), maxRetained, Create(now));
      sequence := sequence + 1;
      op := sequence;
      records := records[op := Summary(op, now, Queued, None, None, "")];
    }

    method LookUpId(id: Id) returns (r: Lookup)
      ensures r == LookUp(Now(), id)
    {
      if id.Numbered? && id.n in records {
        return Found(records[id.n]);
      }
      return if !id.Foreign? && 0 < id.n <= sequence then Expired else NotFound;
    }

    method StartOperation(op: nat, now: int) returns (r: Option<Summary>)
      requires Inv(Now())
      modifies this
      ensures Now() == Next(old(Now()), maxRetained, Start(op, now)) && Inv(Now())
      ensures r.Some? <==> op in old(records) && old(records[op]).state.Queued?
      ensures r.Some? ==> op in records && r.value == records[op]
    {
      StepKeeps(Now(), maxRetained, Start(op, now));
      if op !in records || !records[op].state.Queued? {
        return None;
      }
      var running := records[op].(state := Running, startedAt := Some(now));
      records := records[op := running];
      return Some(running);
    }

    // `finish`, and so `supersede`.
    method FinishOperation(op: nat, state: OpState, now: int, detail: string) returns (r: Option<Summary>)
      requires Inv(Now()) && Terminal(state)
      modifies this
      ensures Now() == Next(old(Now()), maxRetained, Finish(op, state, now, detail)) && Inv(Now())
      ensures r.Some? <==> Open(old(Now()), op)
      ensures r.Some? ==>
                r.value == old(records)[op].(detail := detail, state := state, finishedAt := Some(now))
    {
      StepKeeps(Now(), maxRetained, Finish(op, state, now, detail));
      if op !in records || Terminal(records[op].state) {
        return None;
      }
      var done := records[op].(detail := detail, state := state, finishedAt := Some(now));
      TellMeans(Now(), op, done);
      TellKeeps(Now(), op, done);
      SubscribedAre(Now(), op);
      records := records[op := done];
      TellListeners(op);
      EvictOldest();
      return Some(done);
    }

    // The listeners called in the order they subscribed, then forgotten.
    method TellListeners(op: nat)
      requires op in records && Within(Subscribed(Now(), op), |waiters|)
      modifies this
      ensures Now() == Tell(old(Now()), op)
    {
      var ws := Subscribed(Now(), op);
      ghost var before := Now();
      assert ws[0..] == ws;
      for i := 0 to |ws|
        invariant |waiters| == |before.waiters| && records == before.records
        invariant Within(ws[i..], |waiters|)
        invariant CompleteAll(before, ws, Finished(before.records[op])) ==
                  CompleteAll(Now(), ws[i..], Finished(before.records[op]))
      {
        assert ws[i..][0] == ws[i] && ws[i..][1..] == ws[i + 1..];
        CompleteWait(ws[i], Finished(records[op]));
      }
      listeners := listeners - {op};
    }

    method CompleteWait(w: nat, outcome: Outcome)
      requires w < |waiters|
      modifies this
      ensures Now() == Complete(old(Now()), w, outcome)
    {
      if waiters[w].outcome.Some? {
        return;
      }
      var op := waiters[w].op;
      waiters := waiters[w := waiters[w].(outcome := Some(outcome))];
      activeWaits := activeWaits - 1;
      if op in listeners {
        listeners := listeners[op := Without(listeners[op], w)];
      }
    }

    method EvictOldest()
      requires RecordsOwn(Now())
      modifies this
      ensures Now() == old(Now()).(records := Evict(old(records), maxRetained))
    {
      var terminal := SortedTerminal();
      ghost var before, ts := records, terminal;
      var dropped: nat := 0;
      while |terminal| > maxRetained
        invariant dropped <= |ts| && terminal == ts[dropped..] && records == before - SetOf(ts[..dropped])
        invariant dropped <= if |ts| > maxRetained then |ts| - maxRetained else 0
        invariant Now() == old(Now()).(records := records)
      {
        assert ts[..dropped + 1] == ts[..dropped] + [terminal[0]];
        assert SetOf(ts[..dropped + 1]) == SetOf(ts[..dropped]) + {terminal[0]};
        records := records - {terminal[0]};
        terminal := terminal[1..];
        dropped := dropped + 1;
      }
      DropsAreEvictions(before, ts, maxRetained);
    }

    method SortedTerminal() returns (ts: seq<nat>)
      requires RecordsOwn(Now())
      ensures Sorted(records, ts) && forall t :: t in ts <==> t in TerminalOps(records)
    {
      ts := [];
      var left := TerminalOps(records);
      while left != {}
        invariant left <= TerminalOps(records) && Sorted(records, ts)
        invariant forall t :: t in ts <==> t in TerminalOps(records) && t !in left
        decreases left
      {
        var n :| n in left;
        InsertSorts(records, ts, n);
        ts := Insert(records, ts, n);
        left := left - {n};
      }
    }

    method WaitFor(id: Id, atOnce: bool, aborted: bool) returns (r: Waited)
      requires Inv(Now())
      modifies this
      ensures (Now(), r) == WaitOn(old(Now()), id, atOnce, aborted) && Inv(Now())
    {
      WaitKeeps(Now(), id, atOnce, aborted);
      var found := LookUpId(id);
      if !found.Found? {
        return Missing(found);
      }
      if Terminal(found.summary.state) {
        return Settled(Finished(found.summary));
      }
      if atOnce {
        return Settled(TimedOut(found.summary));
      }
      if activeWaits >= MAX_OPERATION_WAITS {
        return WaitLimit;
      }
      var w := TakeSlot(id.n);
      if aborted {
        CompleteWait(w, Cancelled(Latest(Now(), w)));
      }
      return Pending(w);
    }

    // A slot taken by a waiter that listens for the operation.
    method TakeSlot(op: nat) returns (w: nat)
      requires op in records
      modifies this
      ensures Now() == Take(old(Now()), op) && w == |old(waiters)| < |waiters|
    {
      w := |waiters|;
      var subscribers := Subscribed(Now(), op) + [w];
      activeWaits := activeWaits + 1;
      waiters := waiters + [Waiter(op, records[op], None)];
      listeners := listeners[op := subscribers];
    }

    method TimeOut(w: nat)
      requires Inv(Now()) && w < |waiters|
      modifies this
      ensures Now() == Next(old(Now()), maxRetained, Timeout(w)) && Inv(Now())
    {
      StepKeeps(Now(), maxRetained, Timeout(w));
      CompleteWait(w, TimedOut(Latest(Now(), w)));
    }

    method AbortWait(w: nat)
      requires Inv(Now()) && w < |waiters|
      modifies this
      ensures Now() == Next(old(Now()), maxRetained, Abort(w)) && Inv(Now())
    {
      StepKeeps(Now(), maxRetained, Abort(w));
      CompleteWait(w, Cancelled(Latest(Now(), w)));
    }
  }
}
