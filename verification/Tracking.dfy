// What a tracker shows after any run of a page
// (site/src/scripts/playground-revisions.ts).
module Tracking {
  import opened Wrappers
  import opened Revisions

  // ---- the last of a kind of step ------------------------------------------------------------

  predicate Observes(step: Step, id: string) {
    step.Observe? && step.inputs.id == id
  }

  predicate Chooses(step: Step, kind: string) {
    step.Choose? && step.kind == kind
  }

  predicate Observed(steps: seq<Step>, id: string) {
    exists k :: 0 <= k < |steps| && Observes(steps[k], id)
  }

  // A select of a project that was observed before.
  predicate Selects(steps: seq<Step>, k: int) {
    0 <= k < |steps| && steps[k].Select? && Observed(steps[..k], steps[k].projectId)
  }

  predicate LastObserved(steps: seq<Step>, id: string, k: int) {
    0 <= k < |steps| && Observes(steps[k], id) && forall j :: k < j < |steps| ==> !Observes(steps[j], id)
  }

  predicate LastChosen(steps: seq<Step>, kind: string, k: int) {
    0 <= k < |steps| && Chooses(steps[k], kind) && forall j :: k < j < |steps| ==> !Chooses(steps[j], kind)
  }

  predicate LastSelected(steps: seq<Step>, k: int) {
    Selects(steps, k) && forall j :: k < j < |steps| ==> !Selects(steps, j)
  }

  // ---- what is shown -----------------------------------------------------------------------

  // A project shows what was last observed of it, under tokens of their own sorts.
  predicate ProjectShown(t: Tracker, steps: seq<Step>, id: string) {
    if id in t.projects then
      var p := t.projects[id];
      && (exists k :: 0 <= k < |steps| && LastObserved(steps, id, k) && p.inputs == steps[k].inputs)
      && p.version.projectId == id && p.version.revision.sort == ProjectToken
      && p.version.sourceRevision.sort == SourceToken && p.version.imageRevision.sort == ImageToken
    else !Observed(steps, id)
  }

  // An option shows the value it was last given.
  predicate OptionShown(t: Tracker, steps: seq<Step>, kind: string) {
    if kind in t.options then
      && (exists k :: 0 <= k < |steps| && LastChosen(steps, kind, k) && t.options[kind].value == steps[k].value)
      && t.options[kind].revision.sort == OptionsToken(kind)
    else forall k :: 0 <= k < |steps| ==> !Chooses(steps[k], kind)
  }

  // The target is the file last selected, of a project that was there.
  predicate TargetShown(t: Tracker, steps: seq<Step>) {
    match t.target
    case None => forall k :: 0 <= k < |steps| ==> !Selects(steps, k)
    case Some(g) =>
      && (exists k :: 0 <= k < |steps| && LastSelected(steps, k) && steps[k] == Select(g.projectId, g.entryFile))
      && g.targetEpoch.sort == TargetToken
  }

  ghost predicate AllShown(t: Tracker, steps: seq<Step>) {
    && (forall id :: ProjectShown(t, steps, id)) && (forall kind :: OptionShown(t, steps, kind)) && TargetShown(t, steps)
    && t.observation.sort == ObservationToken
  }

  // ---- one more step ---------------------------------------------------------------------------

  lemma ObservedMore(steps: seq<Step>, x: Step, id: string)
    ensures Observed(steps + [x], id) <==> Observed(steps, id) || Observes(x, id)
  {
    var more := steps + [x];
    assert more[|steps|] == x;
    assert forall k :: 0 <= k < |steps| ==> more[k] == steps[k];
  }

  lemma SelectsMore(steps: seq<Step>, x: Step, k: nat)
    ensures Selects(steps + [x], k) <==> Selects(steps, k) || (k == |steps| && x.Select? && Observed(steps, x.projectId))
  {
    if k <= |steps| {
      assert (steps + [x])[..k] == steps[..k];
      assert steps[..|steps|] == steps;
    }
  }

  lemma ProjectMore(s: Tracker, steps: seq<Step>, x: Step, id: string)
    requires ProjectShown(s, steps, id)
    ensures ProjectShown(Next(s, x), steps + [x], id)
  {
    var more, t := steps + [x], Next(s, x);
    ObservedMore(steps, x, id);
    if Observes(x, id) {
      assert LastObserved(more, id, |steps|);
    } else if id in s.projects {
      var k :| 0 <= k < |steps| && LastObserved(steps, id, k) && s.projects[id].inputs == steps[k].inputs;
      assert LastObserved(more, id, k);
      assert t.projects[id] == s.projects[id];
    }
  }

  lemma OptionMore(s: Tracker, steps: seq<Step>, x: Step, kind: string)
    requires OptionShown(s, steps, kind)
    ensures OptionShown(Next(s, x), steps + [x], kind)
  {
    var more, t := steps + [x], Next(s, x);
    if Chooses(x, kind) {
      assert LastChosen(more, kind, |steps|);
    } else if kind in s.options {
      var k :| 0 <= k < |steps| && LastChosen(steps, kind, k) && s.options[kind].value == steps[k].value;
      assert LastChosen(more, kind, k);
      assert t.options[kind] == s.options[kind];
    }
  }

  lemma TargetMore(s: Tracker, steps: seq<Step>, x: Step)
    requires TargetShown(s, steps) && forall id :: ProjectShown(s, steps, id)
    ensures TargetShown(Next(s, x), steps + [x])
  {
    var more := steps + [x];
    forall k: nat
      ensures Selects(more, k) <==> Selects(steps, k) || (k == |steps| && x.Select? && Observed(steps, x.projectId))
    {
      SelectsMore(steps, x, k);
    }
    if x.Select? && Observed(steps, x.projectId) {
      assert ProjectShown(s, steps, x.projectId);
      assert LastSelected(more, |steps|) && more[|steps|] == x;
    } else if s.target.Some? {
      var k :| 0 <= k < |steps| && LastSelected(steps, k) && steps[k] == Select(s.target.value.projectId, s.target.value.entryFile);
      assert LastSelected(more, k);
      if x.Select? {
        assert ProjectShown(s, steps, x.projectId);
      }
    } else if x.Select? {
      assert ProjectShown(s, steps, x.projectId);
    }
  }

  lemma StepShows(s: Tracker, steps: seq<Step>, x: Step)
    requires AllShown(s, steps)
    ensures AllShown(Next(s, x), steps + [x])
  {
    forall id
      ensures ProjectShown(Next(s, x), steps + [x], id) && OptionShown(Next(s, x), steps + [x], id)
    {
      ProjectMore(s, steps, x, id);
      OptionMore(s, steps, x, id);
    }
    TargetMore(s, steps, x);
  }

  lemma {:induction false} AfterMore(s: Tracker, steps: seq<Step>, x: Step)
    ensures After(s, steps + [x]) == Next(After(s, steps), x)
    decreases |steps|
  {
    if steps == [] {
      assert [] + [x] == [x] && [x][1..] == [];
    } else {
      assert (steps + [x])[1..] == steps[1..] + [x];
      AfterMore(Next(s, steps[0]), steps[1..], x);
    }
  }

  // Over any run a page shows of each project what was last observed of it, of each
  // option what was last chosen, and as its target the file last selected of a project
  // then known; each under tokens of the right sort.
  lemma {:induction false} RunShows(steps: seq<Step>)
    ensures AllShown(After(START, steps), steps)
  {
    if steps != [] {
      var n := |steps| - 1;
      assert steps == steps[..n] + [steps[n]];
      RunShows(steps[..n]);
      AfterMore(START, steps[..n], steps[n]);
      StepShows(After(START, steps[..n]), steps[..n], steps[n]);
    }
  }

  // ---- tokens taken ----------------------------------------------------------------------------

  // A select takes a new epoch and nothing else of the target's moves it; a new
  // observation revision is taken exactly when what is shown changes, or a select is
  // made of a known project.
  lemma EpochsMove(s: Tracker, x: Step)
    requires s.target.Some? ==> s.target.value.targetEpoch.n <= s.sequence
    ensures var t := Next(s, x);
            && s.sequence <= t.sequence
            && (x.Select? && x.projectId in s.projects ==>
                  t.target.Some? && s.sequence < t.target.value.targetEpoch.n < t.observation.n == t.sequence)
            && (!(x.Select? && x.projectId in s.projects) && t.target.Some? ==>
                  s.target.Some? && t.target.value.targetEpoch == s.target.value.targetEpoch)
  {
  }
}
