// How a wait for an operation ends, from the steps taken
// (site/src/scripts/playground-operations.ts).
module Waits {
  import opened Collections
  import opened Wrappers
  import opened Operations

  // ---- runs in parts -----------------------------------------------------------------------

  lemma {:induction false} InParts(s: Store, max: nat, front: seq<Step>, back: seq<Step>)
    requires Sound(s) && Possible(s, max, front + back)
    ensures Possible(s, max, front)
    ensures var t := After(s, max, front);
            Sound(t) && Possible(t, max, back) && After(s, max, front + back) == After(t, max, back)
    decreases |front|
  {
    if front == [] {
      assert front + back == back;
    } else {
      assert (front + back)[1..] == front[1..] + back;
      InParts(Next(s, max, front[0]), max, front[1..], back);
    }
  }

  lemma Prefix(s: Store, max: nat, steps: seq<Step>, k: nat)
    requires Sound(s) && Possible(s, max, steps) && k <= |steps|
    ensures Possible(s, max, steps[..k])
  {
    assert steps == steps[..k] + steps[k..];
    InParts(s, max, steps[..k], steps[k..]);
  }

  // ---- what ends a wait ----------------------------------------------------------------------

  predicate Finishes(step: Step, op: nat) {
    step.Finish? && step.op == op
  }

  predicate Ends(step: Step, w: nat, op: nat) {
    step == Timeout(w) || step == Abort(w) || Finishes(step, op)
  }

  // The first of the steps that ends it.
  predicate EndsFirst(steps: seq<Step>, w: nat, op: nat, k: int) {
    0 <= k < |steps| && Ends(steps[k], w, op) && forall j :: 0 <= j < k ==> !Ends(steps[j], w, op)
  }

  predicate NeverEnds(steps: seq<Step>, w: nat, op: nat) {
    forall j :: 0 <= j < |steps| ==> !Ends(steps[j], w, op)
  }

  // A finish answers with the record it closes, a timeout or an abort with the record
  // as it is.
  predicate Answers(step: Step, record: Summary, outcome: Outcome) {
    match step
    case Timeout(_) => outcome == TimedOut(record)
    case Abort(_) => outcome == Cancelled(record)
    case Finish(_, state, now, detail) =>
      outcome == Finished(record.(state := state, finishedAt := Some(now), detail := detail))
    case _ => false
  }

  lemma FinishWaits(s: Store, max: nat, op: nat, state: OpState, now: int, detail: string, w: nat)
    requires Inv(s) && Terminal(state) && w < |s.waiters| && s.waiters[w].outcome.None?
    ensures var was, t := s.waiters[w], Next(s, max, Finish(op, state, now, detail));
            && w < |t.waiters|
            && t.waiters[w] == if was.op != op then was
                               else was.(outcome := Some(Finished(s.records[op].(detail := detail, state := state, finishedAt := Some(now)))))
  {
    GivenUpOpen(s, w);
    if Open(s, op) {
      TellMeans(s, op, s.records[op].(detail := detail, state := state, finishedAt := Some(now)));
    }
  }

  // Giving up one wait.
  lemma GiveUpWaits(s: Store, v: nat, outcome: Outcome, w: nat)
    requires v < |s.waiters| && w < |s.waiters| && s.waiters[w].outcome.None?
    ensures Complete(s, v, outcome).waiters[w] ==
            if v == w then s.waiters[w].(outcome := Some(outcome)) else s.waiters[w]
  {
  }

  lemma WaitWaits(s: Store, id: Id, atOnce: bool, aborted: bool, w: nat)
    requires w < |s.waiters|
    ensures var t := WaitOn(s, id, atOnce, aborted).0; w < |t.waiters| && t.waiters[w] == s.waiters[w]
  {
  }

  // What a step does to a wait that is not yet answered.
  predicate Waited(was: Waiter, now: Waiter, step: Step, w: nat, record: Summary) {
    if Ends(step, w, was.op)
    then now == was.(outcome := now.outcome) && now.outcome.Some? && Answers(step, record, now.outcome.value)
    else now == was
  }

  lemma StepWaits(s: Store, max: nat, step: Step, w: nat)
    requires Inv(s) && Enabled(s, step) && w < |s.waiters| && s.waiters[w].outcome.None?
    ensures Open(s, s.waiters[w].op) && w < |Next(s, max, step).waiters|
    ensures Waited(s.waiters[w], Next(s, max, step).waiters[w], step, w, s.records[s.waiters[w].op])
  {
    GivenUpOpen(s, w);
    match step
    case Create(now) =>
    case Start(op, now) =>
    case Finish(op, state, now, detail) => FinishWaits(s, max, op, state, now, detail, w);
    case Wait(id, atOnce, aborted) => WaitWaits(s, id, atOnce, aborted, w);
    case Timeout(v) => GiveUpWaits(s, v, TimedOut(Latest(s, v)), w);
    case Abort(v) => GiveUpWaits(s, v, Cancelled(Latest(s, v)), w);
  }

  // Settled once, it stays so.
  lemma SettledStays(s: Store, max: nat, steps: seq<Step>, w: nat)
    requires Inv(s) && Possible(s, max, steps) && w < |s.waiters| && s.waiters[w].outcome.Some?
    ensures w < |After(s, max, steps).waiters| && After(s, max, steps).waiters[w] == s.waiters[w]
  {
    RunKeeps(s, max, steps);
  }

  // The answer of a wait: that of the first step to end it, with the record as the run
  // then had it.
  ghost predicate AnsweredBy(s: Store, max: nat, steps: seq<Step>, w: nat, op: nat, k: nat, outcome: Option<Outcome>)
    requires Sound(s) && Possible(s, max, steps)
  {
    k < |steps| && outcome.Some? && Possible(s, max, steps[..k])
    && op in After(s, max, steps[..k]).records && Answers(steps[k], After(s, max, steps[..k]).records[op], outcome.value)
  }

  lemma {:induction false} RunWaits(s: Store, max: nat, steps: seq<Step>, w: nat)
    requires Inv(s) && Possible(s, max, steps) && w < |s.waiters| && s.waiters[w].outcome.None?
    ensures var op, t := s.waiters[w].op, After(s, max, steps);
            && w < |t.waiters| && t.waiters[w] == s.waiters[w].(outcome := t.waiters[w].outcome)
            && (NeverEnds(steps, w, op) ==> t.waiters[w].outcome.None?)
            && forall k :: EndsFirst(steps, w, op, k) ==> AnsweredBy(s, max, steps, w, op, k, t.waiters[w].outcome)
    decreases |steps|
  {
    if steps != [] {
      var op, t := s.waiters[w].op, Next(s, max, steps[0]);
      StepWaits(s, max, steps[0], w);
      StepKeeps(s, max, steps[0]);
      if Ends(steps[0], w, op) {
        SettledStays(t, max, steps[1..], w);
        assert steps[..0] == [];
        assert forall k :: EndsFirst(steps, w, op, k) ==> k == 0;
      } else {
        RunWaits(t, max, steps[1..], w);
        forall k | EndsFirst(steps, w, op, k)
          ensures AnsweredBy(s, max, steps, w, op, k, After(s, max, steps).waiters[w].outcome)
        {
          Later(s, max, steps, w, op, k, After(s, max, steps).waiters[w].outcome);
        }
      }
    }
  }

  lemma Later(s: Store, max: nat, steps: seq<Step>, w: nat, op: nat, k: nat, outcome: Option<Outcome>)
    requires Sound(s) && Possible(s, max, steps) && steps != [] && EndsFirst(steps, w, op, k) && k > 0
    requires EndsFirst(steps[1..], w, op, k - 1) ==>
             AnsweredBy(Next(s, max, steps[0]), max, steps[1..], w, op, k - 1, outcome)
    ensures AnsweredBy(s, max, steps, w, op, k, outcome)
  {
    assert EndsFirst(steps[1..], w, op, k - 1);
    assert steps[..k][1..] == steps[1..][..k - 1];
  }

  // ---- one wait in a whole run ---------------------------------------------------------------

  // A wait that gets a slot after some steps is answered by the steps after it: with a
  // timeout exactly when its timeout comes first of its timeout, its abort and a finish
  // of its operation, as cancelled exactly when it was aborted as it waited or its abort
  // comes first, and as finished exactly when the finish comes first; in each case with
  // the record as it then stands. Until one of them comes it is not answered.
  lemma WaitEnds(max: nat, before: seq<Step>, id: Id, aborted: bool, after: seq<Step>)
    requires Possible(START, max, before + [Wait(id, false, aborted)] + after)
    requires Possible(START, max, before) && WaitOn(After(START, max, before), id, false, aborted).1.Pending?
    ensures var start, end := After(START, max, before), After(START, max, before + [Wait(id, false, aborted)] + after);
            var w := |start.waiters|;
            && WaitOn(start, id, false, aborted).1 == Pending(w) && w < |end.waiters|
            && id == Numbered(end.waiters[w].op) && id.n in start.records && !Terminal(start.records[id.n].state)
            && (aborted ==> end.waiters[w].outcome == Some(Cancelled(start.records[id.n])))
            && (!aborted && NeverEnds(after, w, id.n) ==> end.waiters[w].outcome.None?)
            && (!aborted ==> forall k :: EndsFirst(after, w, id.n, k) ==>
                  AnsweredIn(max, before + [Wait(id, false, aborted)], after, id.n, k, end.waiters[w].outcome))
  {
    var wait := Wait(id, false, aborted);
    InParts(START, max, before + [wait], after);
    InParts(START, max, before, [wait]);
    StartKeeps();
    RunKeeps(START, max, before);
    var s := After(START, max, before);
    var t := After(START, max, before + [wait]);
    var w := |s.waiters|;
    assert t == Next(s, max, wait);
    StepKeeps(s, max, wait);
    if aborted {
      SettledStays(t, max, after, w);
    } else {
      RunWaits(t, max, after, w);
      forall k | EndsFirst(after, w, id.n, k)
        ensures AnsweredIn(max, before + [wait], after, id.n, k, After(t, max, after).waiters[w].outcome)
      {
        assert AnsweredBy(t, max, after, w, id.n, k, After(t, max, after).waiters[w].outcome);
        AnsweredSo(max, before + [wait], after, w, id.n, k, After(t, max, after).waiters[w].outcome);
      }
    }
  }

  lemma StartKeeps()
    ensures Inv(START)
  {
    assert Unsettled(START.waiters) == {};
  }

  // The record as the whole run then had it.
  ghost predicate AnsweredIn(max: nat, front: seq<Step>, after: seq<Step>, op: nat, k: nat, outcome: Option<Outcome>) {
    k < |after| && Sound(START) && Possible(START, max, front + after[..k]) && outcome.Some?
    && op in After(START, max, front + after[..k]).records
    && Answers(after[k], After(START, max, front + after[..k]).records[op], outcome.value)
  }

  lemma AnsweredSo(max: nat, front: seq<Step>, after: seq<Step>, w: nat, op: nat, k: nat, outcome: Option<Outcome>)
    requires Possible(START, max, front + after) && Possible(START, max, front)
    requires Sound(After(START, max, front)) && Possible(After(START, max, front), max, after)
    requires AnsweredBy(After(START, max, front), max, after, w, op, k, outcome)
    ensures AnsweredIn(max, front, after, op, k, outcome)
  {
    assert front + after == (front + after[..k]) + after[k..];
    InParts(START, max, front + after[..k], after[k..]);
    InParts(START, max, front, after[..k]);
  }

  lemma {:induction false} FirstEnd(steps: seq<Step>, w: nat, op: nat) returns (k: nat)
    requires !NeverEnds(steps, w, op)
    ensures EndsFirst(steps, w, op, k)
  {
    if Ends(steps[0], w, op) {
      k := 0;
    } else {
      k := FirstEnd(steps[1..], w, op);
      k := k + 1;
    }
  }

  // So the way it ends and which step comes first tell each other.
  lemma EndsExactly(max: nat, before: seq<Step>, id: Id, after: seq<Step>)
    requires Possible(START, max, before + [Wait(id, false, false)] + after)
    requires Possible(START, max, before) && WaitOn(After(START, max, before), id, false, false).1.Pending?
    ensures var w := |After(START, max, before).waiters|;
            var end := After(START, max, before + [Wait(id, false, false)] + after);
            && w < |end.waiters|
            && var outcome := end.waiters[w].outcome;
               && (outcome.None? <==> NeverEnds(after, w, id.n))
               && (outcome.Some? && outcome.value.TimedOut? <==>
                     exists k :: EndsFirst(after, w, id.n, k) && after[k] == Timeout(w))
               && (outcome.Some? && outcome.value.Cancelled? <==>
                     exists k :: EndsFirst(after, w, id.n, k) && after[k] == Abort(w))
               && (outcome.Some? && outcome.value.Finished? <==>
                     exists k :: EndsFirst(after, w, id.n, k) && Finishes(after[k], id.n))
  {
    WaitEnds(max, before, id, false, after);
    var w := |After(START, max, before).waiters|;
    var outcome := After(START, max, before + [Wait(id, false, false)] + after).waiters[w].outcome;
    if !NeverEnds(after, w, id.n) {
      var k := FirstEnd(after, w, id.n);
      assert AnsweredIn(max, before + [Wait(id, false, false)], after, id.n, k, outcome);
      assert forall j :: EndsFirst(after, w, id.n, j) ==> j == k;
    }
  }

  // ---- a wait that takes no slot ---------------------------------------------------------------

  // Asked about an operation that is there: a closed one answers at once, an open one
  // when no time is given, and else the wait is refused when thirty-two are open, or
  // takes a slot. Only then is anything changed.
  lemma WaitAnswers(s: Store, id: Id, atOnce: bool, aborted: bool)
    requires Inv(s)
    ensures var (t, r) := WaitOn(s, id, atOnce, aborted);
            && (!r.Pending? ==> t == s)
            && (r.Missing? <==> !(id.Numbered? && id.n in s.records))
            && (id.Numbered? && id.n in s.records ==>
                  var record, open := s.records[id.n], |set w | 0 <= w < |s.waiters| && s.waiters[w].outcome.None?|;
                  if !(record.state.Queued? || record.state.Running?) then r == Settled(Finished(record))
                  else if atOnce then r == Settled(TimedOut(record))
                  else if open >= 32 then r == WaitLimit
                  else r == Pending(|s.waiters|))
  {
  }

  // ---- records, from the steps -----------------------------------------------------------------

  function Creates(steps: seq<Step>): nat {
    if steps == [] then 0 else Creates(steps[..|steps| - 1]) + if steps[|steps| - 1].Create? then 1 else 0
  }

  predicate Starts(step: Step, op: nat) {
    step.Start? && step.op == op
  }

  // The steps between two places neither start nor finish the operation, or do not
  // finish it.
  predicate Quiet(steps: seq<Step>, op: nat, from: int, to: int) {
    forall j :: 0 <= j < |steps| && from < j < to ==> !Starts(steps[j], op) && !Finishes(steps[j], op)
  }

  predicate Unfinished(steps: seq<Step>, op: nat, from: int, to: int) {
    forall j :: 0 <= j < |steps| && from < j < to ==> !Finishes(steps[j], op)
  }

  // Created here, as the one of this number.
  predicate CreatedAt(steps: seq<Step>, op: nat, c: int, now: int) {
    0 <= c < |steps| && steps[c] == Create(now) && Creates(steps[..c]) + 1 == op
  }

  // Started here first, while it was not finished.
  predicate StartedAt(steps: seq<Step>, op: nat, c: int, b: int, now: int) {
    c < b < |steps| && 0 <= b && steps[b] == Start(op, now) && Quiet(steps, op, c, b)
  }

  // Open at this place, so far as it has been started.
  predicate OpenAs(steps: seq<Step>, r: Summary, c: int, end: int) {
    match r.startedAt
    case None => Quiet(steps, r.op, c, end)
    case Some(now) => exists b :: 0 <= b < |steps| && b < end && StartedAt(steps, r.op, c, b, now) && Unfinished(steps, r.op, b, end)
  }

  // What the steps say of an operation created at `c`.
  predicate Chronicled(steps: seq<Step>, r: Summary, c: int) {
    && CreatedAt(steps, r.op, c, r.createdAt)
    && match r.state
       case Queued => r.startedAt.None? && r.finishedAt.None? && r.detail == "" && OpenAs(steps, r, c, |steps|)
       case Running => r.startedAt.Some? && r.finishedAt.None? && r.detail == "" && OpenAs(steps, r, c, |steps|)
       case _ =>
         exists f :: 0 <= f < |steps| && c < f && r.finishedAt.Some?
                     && steps[f] == Finish(r.op, r.state, r.finishedAt.value, r.detail) && OpenAs(steps, r, c, f)
  }

  predicate AllChronicled(s: Store, steps: seq<Step>) {
    && s.sequence == Creates(steps)
    && forall n <- s.records :: s.records[n].op == n && exists c :: 0 <= c < |steps| && Chronicled(steps, s.records[n], c)
  }

  // ---- adding a step -----------------------------------------------------------------------------

  lemma CreatesMore(steps: seq<Step>, x: Step)
    ensures Creates(steps + [x]) == Creates(steps) + if x.Create? then 1 else 0
  {
    assert (steps + [x])[..|steps|] == steps;
  }

  lemma CreatedStill(steps: seq<Step>, op: nat, c: nat, now: int, x: Step)
    requires CreatedAt(steps, op, c, now)
    ensures CreatedAt(steps + [x], op, c, now)
  {
    assert (steps + [x])[..c] == steps[..c];
  }

  // What happens after the end does not matter; what happens at it must be quiet.
  lemma OpenStill(steps: seq<Step>, r: Summary, c: int, end: nat, x: Step, to: nat)
    requires OpenAs(steps, r, c, end) && end <= |steps| && (to == end || (to == end + 1 == |steps| + 1))
    requires to > end ==> !Finishes(x, r.op) && (r.startedAt.None? ==> !Starts(x, r.op))
    ensures OpenAs(steps + [x], r, c, to)
  {
    var more := steps + [x];
    assert forall j :: 0 <= j < |steps| ==> more[j] == steps[j];
    if r.startedAt.Some? {
      var b :| 0 <= b < |steps| && b < end && StartedAt(steps, r.op, c, b, r.startedAt.value) && Unfinished(steps, r.op, b, end);
      assert StartedAt(more, r.op, c, b, r.startedAt.value);
      assert Unfinished(more, r.op, b, to);
    }
  }

  // A step that does nothing to an operation leaves what is said of it.
  lemma ChronicledStill(steps: seq<Step>, r: Summary, c: nat, x: Step)
    requires Chronicled(steps, r, c)
    requires !Terminal(r.state) ==> !Finishes(x, r.op)
    requires r.state.Queued? ==> !Starts(x, r.op)
    ensures Chronicled(steps + [x], r, c)
  {
    CreatedStill(steps, r.op, c, r.createdAt, x);
    if Terminal(r.state) {
      var f :| 0 <= f < |steps| && c < f && r.finishedAt.Some?
               && steps[f] == Finish(r.op, r.state, r.finishedAt.value, r.detail) && OpenAs(steps, r, c, f);
      OpenStill(steps, r, c, f, x, f);
      assert (steps + [x])[f] == steps[f];
    } else {
      OpenStill(steps, r, c, |steps|, x, |steps| + 1);
    }
  }

  lemma ChronicledStart(steps: seq<Step>, r: Summary, c: nat, now: int)
    requires Chronicled(steps, r, c) && r.state.Queued?
    ensures Chronicled(steps + [Start(r.op, now)], r.(state := Running, startedAt := Some(now)), c)
  {
    var x, b := Start(r.op, now), |steps|;
    CreatedStill(steps, r.op, c, r.createdAt, x);
    assert (steps + [x])[b] == x && StartedAt(steps + [x], r.op, c, b, now);
    assert Unfinished(steps + [x], r.op, b, |steps| + 1);
  }

  lemma ChronicledFinish(steps: seq<Step>, r: Summary, c: nat, state: OpState, now: int, detail: string)
    requires Chronicled(steps, r, c) && !Terminal(r.state) && Terminal(state)
    ensures Chronicled(steps + [Finish(r.op, state, now, detail)],
                       r.(detail := detail, state := state, finishedAt := Some(now)), c)
  {
    var x, f := Finish(r.op, state, now, detail), |steps|;
    var done := r.(detail := detail, state := state, finishedAt := Some(now));
    CreatedStill(steps, r.op, c, r.createdAt, x);
    OpenStill(steps, r, c, f, x, f);
    assert (steps + [x])[f] == x && OpenAs(steps + [x], done, c, f);
  }

  // The record of one operation after a step is told by the step, or is as it was.
  lemma RecordAfter(s: Store, max: nat, x: Step, n: nat)
    requires Inv(s) && Enabled(s, x) && n in s.records && n in Next(s, max, x).records
    ensures var r, t := s.records[n], Next(s, max, x).records[n];
            if Finishes(x, n) && !Terminal(r.state) then t == r.(detail := x.detail, state := x.state, finishedAt := Some(x.now))
            else if Starts(x, n) && r.state.Queued? then t == r.(state := Running, startedAt := Some(x.now))
            else t == r
  {
    if x.Finish? && Open(s, x.op) {
      TellMeans(s, x.op, s.records[x.op].(detail := x.detail, state := x.state, finishedAt := Some(x.now)));
    }
  }

  lemma RecordNew(s: Store, max: nat, x: Step, n: nat)
    requires Inv(s) && Enabled(s, x) && n !in s.records && n in Next(s, max, x).records
    ensures x.Create? && n == s.sequence + 1 && Next(s, max, x).records[n] == Summary(n, x.now, Queued, None, None, "")
  {
    if x.Finish? && Open(s, x.op) {
      TellMeans(s, x.op, s.records[x.op].(detail := x.detail, state := x.state, finishedAt := Some(x.now)));
    }
  }

  lemma SequenceAfter(s: Store, max: nat, x: Step)
    requires Inv(s) && Enabled(s, x)
    ensures Next(s, max, x).sequence == s.sequence + if x.Create? then 1 else 0
  {
    if x.Finish? && Open(s, x.op) {
      TellMeans(s, x.op, s.records[x.op].(detail := x.detail, state := x.state, finishedAt := Some(x.now)));
    }
  }

  lemma ChronicleOne(s: Store, max: nat, steps: seq<Step>, x: Step, n: nat)
    requires Inv(s) && Enabled(s, x) && AllChronicled(s, steps) && n in Next(s, max, x).records
    ensures Next(s, max, x).records[n].op == n
    ensures exists c :: 0 <= c < |steps + [x]| && Chronicled(steps + [x], Next(s, max, x).records[n], c)
  {
    if n in s.records {
      var r := s.records[n];
      var c :| 0 <= c < |steps| && Chronicled(steps, r, c);
      RecordAfter(s, max, x, n);
      if Finishes(x, n) && !Terminal(r.state) {
        ChronicledFinish(steps, r, c, x.state, x.now, x.detail);
      } else if Starts(x, n) && r.state.Queued? {
        ChronicledStart(steps, r, c, x.now);
      } else {
        ChronicledStill(steps, r, c, x);
      }
    } else {
      RecordNew(s, max, x, n);
      CreatedNow(steps, n, x);
    }
  }

  lemma CreatedNow(steps: seq<Step>, n: nat, x: Step)
    requires x.Create? && n == Creates(steps) + 1
    ensures Chronicled(steps + [x], Summary(n, x.now, Queued, None, None, ""), |steps|)
  {
    assert (steps + [x])[..|steps|] == steps;
  }

  lemma ChronicleStep(s: Store, max: nat, steps: seq<Step>, x: Step)
    requires Inv(s) && Enabled(s, x) && AllChronicled(s, steps)
    ensures AllChronicled(Next(s, max, x), steps + [x])
  {
    CreatesMore(steps, x);
    SequenceAfter(s, max, x);
    forall n <- Next(s, max, x).records
      ensures Next(s, max, x).records[n].op == n
      ensures exists c :: 0 <= c < |steps + [x]| && Chronicled(steps + [x], Next(s, max, x).records[n], c)
    {
      ChronicleOne(s, max, steps, x, n);
    }
  }

  // After any run every record says what the steps did: when its operation was created,
  // first started while open, and first finished, and how.
  lemma {:induction false} RecordsTell(max: nat, steps: seq<Step>)
    requires Possible(START, max, steps)
    ensures AllChronicled(After(START, max, steps), steps)
  {
    if steps != [] {
      var n := |steps| - 1;
      assert steps == steps[..n] + [steps[n]];
      InParts(START, max, steps[..n], [steps[n]]);
      RecordsTell(max, steps[..n]);
      StartKeeps();
      RunKeeps(START, max, steps[..n]);
      ChronicleStep(After(START, max, steps[..n]), max, steps[..n], steps[n]);
    }
  }
}
