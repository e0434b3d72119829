// Revision tokens (site/src/scripts/playground-revisions.ts).
module Revisions {
  // Equal tokens mean equal content, over everything a page ever observes.

  import opened Collections
  import opened Wrappers

  datatype SourceFile = SourceFile(name: string, body: string)

  type Images = map<string, map<string, string>>

  datatype ProjectInputs = ProjectInputs(id: string, name: string, files: seq<SourceFile>, images: Images)

  // `page:kind:number`; no two have a number in common.
  datatype Sort = ProjectToken | SourceToken | ImageToken | ObservationToken | TargetToken | OptionsToken(kind: string)

  datatype Token = Token(sort: Sort, n: nat)

  datatype Version = Version(projectId: string, revision: Token, sourceRevision: Token, imageRevision: Token)

  datatype Target = Target(projectId: string, sourceRevision: Token, entryFile: string, targetEpoch: Token)

  datatype Tracked = Tracked(inputs: ProjectInputs, version: Version)

  datatype Choice = Chosen(value: string, revision: Token)

  // The tracker, with how far its allocator has counted.
  datatype Tracker = Tracker(
    sequence: nat,
    projects: map<string, Tracked>,
    options: map<string, Choice>,
    target: Option<Target>,
    observation: Token)

  // ---- comparing -----------------------------------------------------------------------

  predicate SameSource(left: seq<SourceFile>, right: seq<SourceFile>)
    ensures SameSource(left, right) <==> left == right
  {
    |left| == |right| && forall i :: 0 <= i < |left| ==> left[i].name == right[i].name && left[i].body == right[i].body
  }

  // Equal sizes and every entry of the one found in the other: the maps are equal.
  method SameTexts(left: map<string, string>, right: map<string, string>) returns (same: bool)
    ensures same <==> left == right
  {
    if |left| != |right| {
      return false;
    }
    var names := left.Keys;
    while names != {}
      invariant names <= left.Keys
      invariant forall n <- left.Keys - names :: n in right && right[n] == left[n]
      decreases names
    {
      var n :| n in names;
      if n !in right || right[n] != left[n] {
        return false;
      }
      names := names - {n};
    }
    assert forall n <- left.Keys :: n in left.Keys - names;
    SubsetSize(left.Keys, right.Keys);
    return true;
  }

  method SameImages(left: Images, right: Images) returns (same: bool)
    ensures same <==> left == right
  {
    if |left| != |right| {
      return false;
    }
    var files := left.Keys;
    while files != {}
      invariant files <= left.Keys
      invariant forall f <- left.Keys - files :: f in right && right[f] == left[f]
      decreases files
    {
      var f :| f in files;
      if f !in right {
        return false;
      }
      var one := SameTexts(left[f], right[f]);
      if !one {
        return false;
      }
      files := files - {f};
    }
    assert forall f <- left.Keys :: f in left.Keys - files;
    SubsetSize(left.Keys, right.Keys);
    return true;
  }

  // ---- steps -----------------------------------------------------------------------------

  datatype Step =
    | Observe(inputs: ProjectInputs)
    | Select(projectId: string, entryFile: string)
    | Choose(kind: string, value: string)
    // The allocator used for something else.
    | Elsewhere

  const START := Tracker(1, map[], map[], None, Token(ObservationToken, 1))

  // A select of a project never observed throws and changes nothing.
  function Next(s: Tracker, step: Step): Tracker {
    match step
    case Observe(inputs) => ObserveOf(s, inputs)
    case Select(projectId, entryFile) =>
      if projectId !in s.projects then s else
      s.(sequence := s.sequence + 2,
         target := Some(Target(projectId, s.projects[projectId].version.sourceRevision, entryFile, Token(TargetToken, s.sequence + 1))),
         observation := Token(ObservationToken, s.sequence + 2))
    case Choose(kind, value) =>
      if kind in s.options && s.options[kind].value == value then s else
      s.(sequence := s.sequence + 1, options := s.options[kind := Chosen(value, Token(OptionsToken(kind), s.sequence + 1))])
    case Elsewhere => s.(sequence := s.sequence + 1)
  }

  function ObserveOf(s: Tracker, inputs: ProjectInputs): Tracker {
    if inputs.id !in s.projects then
      var n := s.sequence;
      var version := Version(inputs.id, Token(ProjectToken, n + 1), Token(SourceToken, n + 2), Token(ImageToken, n + 3));
      s.(sequence := n + 4, projects := s.projects[inputs.id := Tracked(inputs, version)], observation := Token(ObservationToken, n + 4))
    else
      var previous := s.projects[inputs.id];
      if previous.inputs == inputs.(id := previous.inputs.id) then s else
      var sourceChanged, imagesChanged := previous.inputs.files != inputs.files, previous.inputs.images != inputs.images;
      var a := s.sequence + 1;
      var b := if sourceChanged then a + 1 else a;
      var c := if imagesChanged then b + 1 else b;
      var version := Version(inputs.id, Token(ProjectToken, a),
                             if sourceChanged then Token(SourceToken, b) else previous.version.sourceRevision,
                             if imagesChanged then Token(ImageToken, c) else previous.version.imageRevision);
      s.(sequence := c + 1,
         projects := s.projects[inputs.id := Tracked(inputs, version)],
         target := if sourceChanged && s.target.Some? && s.target.value.projectId == inputs.id
                   then Some(s.target.value.(sourceRevision := version.sourceRevision)) else s.target,
         observation := Token(ObservationToken, c + 1))
  }

  // ---- the whole history ---------------------------------------------------------------------

  // One observation: of whom, what was there and the token it was given.
  datatype Entry<+C> = Entry(owner: string, content: C, token: Token)

  // The owner's content was the same all the way from `i` to `j`.
  ghost predicate Steady<C>(log: seq<Entry<C>>, i: nat, j: nat)
    requires i <= j < |log|
  {
    log[i].owner == log[j].owner &&
    forall k :: i <= k <= j && log[k].owner == log[i].owner ==> log[k].content == log[i].content
  }

  // Two tokens are equal exactly when they are of one owner whose content stayed
  // the same in between. In particular equal tokens mean equal content, and going
  // from one content to another and back never brings a token back.
  ghost predicate Faithful<C>(log: seq<Entry<C>>) {
    forall i, j :: 0 <= i < j < |log| ==> (log[i].token == log[j].token <==> Steady(log, i, j))
  }

  predicate Numbered<C>(log: seq<Entry<C>>, n: nat) {
    forall i :: 0 <= i < |log| ==> log[i].token.n <= n
  }

  // The owner's last entry is this.
  ghost predicate Last<C>(log: seq<Entry<C>>, owner: string, content: C, token: Token) {
    exists i :: 0 <= i < |log| && log[i] == Entry(owner, content, token) && forall k :: i < k < |log| ==> log[k].owner != owner
  }

  predicate Unseen<C>(log: seq<Entry<C>>, owner: string) {
    forall i :: 0 <= i < |log| ==> log[i].owner != owner
  }

  lemma SteadyBefore<C>(log: seq<Entry<C>>, e: Entry<C>, i: nat, j: nat)
    requires i <= j < |log|
    ensures Steady(log + [e], i, j) <==> Steady(log, i, j)
  {
    assert forall k :: 0 <= k < |log| ==> (log + [e])[k] == log[k];
  }

  // A token given anew, to an owner never seen or whose content changed.
  lemma FaithfulAnew<C>(log: seq<Entry<C>>, e: Entry<C>, before: Option<(C, Token)>)
    requires Faithful(log) && forall i :: 0 <= i < |log| ==> log[i].token != e.token
    requires match before
             case None => Unseen(log, e.owner)
             case Some((content, token)) => Last(log, e.owner, content, token) && content != e.content
    ensures Faithful(log + [e])
  {
    var more := log + [e];
    forall i, j | 0 <= i < j < |more|
      ensures more[i].token == more[j].token <==> Steady(more, i, j)
    {
      if j < |log| {
        SteadyBefore(log, e, i, j);
      } else {
        assert more[i] == log[i];
        Unsteady(log, e, before, i);
      }
    }
  }

  lemma Unsteady<C>(log: seq<Entry<C>>, e: Entry<C>, before: Option<(C, Token)>, i: nat)
    requires i < |log|
    requires match before
             case None => Unseen(log, e.owner)
             case Some((content, token)) => Last(log, e.owner, content, token) && content != e.content
    ensures !Steady(log + [e], i, |log|)
  {
    var more := log + [e];
    assert more[|log|] == e && more[i] == log[i];
    if before.Some? {
      var k :| 0 <= k < |log| && log[k] == Entry(e.owner, before.value.0, before.value.1)
               && forall h :: k < h < |log| ==> log[h].owner != e.owner;
      assert more[k] == log[k] && (log[i].owner == e.owner ==> i <= k);
    }
  }

  // The owner's last token given again for the same content.
  lemma FaithfulAgain<C>(log: seq<Entry<C>>, e: Entry<C>)
    requires Faithful(log) && Last(log, e.owner, e.content, e.token)
    ensures Faithful(log + [e])
  {
    var more := log + [e];
    var last :| 0 <= last < |log| && log[last] == e && forall h :: last < h < |log| ==> log[h].owner != e.owner;
    forall i, j | 0 <= i < j < |more|
      ensures more[i].token == more[j].token <==> Steady(more, i, j)
    {
      if j < |log| {
        SteadyBefore(log, e, i, j);
      } else {
        AgainAt(log, e, last, i);
      }
    }
  }

  lemma AgainAt<C>(log: seq<Entry<C>>, e: Entry<C>, last: nat, i: nat)
    requires Faithful(log) && i < |log| && last < |log| && log[last] == e && forall h :: last < h < |log| ==> log[h].owner != e.owner
    ensures var more := log + [e]; more[i].token == more[|log|].token <==> Steady(more, i, |log|)
  {
    var more := log + [e];
    assert forall k :: 0 <= k < |log| ==> more[k] == log[k];
    if i < last {
      assert log[i].token == log[last].token <==> Steady(log, i, last);
      assert Steady(log, i, last) <==> Steady(more, i, |log|);
    } else if last < i {
      assert log[last].token == log[i].token <==> Steady(log, last, i);
    }
  }

  // ---- what a page observes ------------------------------------------------------------------

  // All the content a token of each sort was ever given for: a project's files,
  // its images, all of it; an option's value; and what the tracker shows.
  datatype Logs = Logs(
    sources: seq<Entry<seq<SourceFile>>>,
    images: seq<Entry<Images>>,
    projects: seq<Entry<(string, seq<SourceFile>, Images)>>,
    options: seq<Entry<string>>,
    views: seq<Entry<View>>)

  datatype View = View(projects: map<string, Tracked>, target: Option<Target>)

  function ViewOf(s: Tracker): Entry<View> {
    Entry("", View(s.projects, s.target), s.observation)
  }

  const NOTHING := Logs([], [], [], [], [ViewOf(START)])

  function Note(s: Tracker, logs: Logs, step: Step): Logs {
    var t := Next(s, step);
    var seen := logs.(views := logs.views + [ViewOf(t)]);
    match step
    case Observe(inputs) =>
      var v := t.projects[inputs.id].version;
      seen.(sources := logs.sources + [Entry(inputs.id, inputs.files, v.sourceRevision)],
            images := logs.images + [Entry(inputs.id, inputs.images, v.imageRevision)],
            projects := logs.projects + [Entry(inputs.id, (inputs.name, inputs.files, inputs.images), v.revision)])
    case Choose(kind, value) => seen.(options := logs.options + [Entry(kind, value, t.options[kind].revision)])
    case _ => seen
  }

  ghost predicate Truthful(logs: Logs) {
    Faithful(logs.sources) && Faithful(logs.images) && Faithful(logs.projects) && Faithful(logs.options) && Faithful(logs.views)
  }

  predicate AllNumbered(logs: Logs, n: nat) {
    Numbered(logs.sources, n) && Numbered(logs.images, n) && Numbered(logs.projects, n) && Numbered(logs.options, n)
    && Numbered(logs.views, n)
  }

  // What the tracker keeps of a project is its last observation.
  ghost predicate ProjectKept(s: Tracker, logs: Logs, id: string) {
    if id in s.projects then
      var p := s.projects[id];
      && p.inputs.id == id && p.version.projectId == id
      && Last(logs.sources, id, p.inputs.files, p.version.sourceRevision)
      && Last(logs.images, id, p.inputs.images, p.version.imageRevision)
      && Last(logs.projects, id, (p.inputs.name, p.inputs.files, p.inputs.images), p.version.revision)
    else Unseen(logs.sources, id) && Unseen(logs.images, id) && Unseen(logs.projects, id)
  }

  ghost predicate ChoiceKept(s: Tracker, logs: Logs, kind: string) {
    if kind in s.options then Last(logs.options, kind, s.options[kind].value, s.options[kind].revision)
    else Unseen(logs.options, kind)
  }

  // The target's source revision is always its project's.
  predicate TargetCurrent(s: Tracker) {
    s.target.Some? ==>
      s.target.value.projectId in s.projects
      && s.target.value.sourceRevision == s.projects[s.target.value.projectId].version.sourceRevision
  }

  ghost predicate Inv(s: Tracker, logs: Logs) {
    && Truthful(logs) && AllNumbered(logs, s.sequence) && TargetCurrent(s)
    && (forall id :: ProjectKept(s, logs, id)) && (forall kind :: ChoiceKept(s, logs, kind))
    && Last(logs.views, "", View(s.projects, s.target), s.observation)
    && (s.target.Some? ==> s.target.value.targetEpoch.n <= s.sequence)
    && (forall id <- s.projects :: s.projects[id].version.revision.n <= s.sequence)
  }

  // ---- every step --------------------------------------------------------------------------------

  lemma LastMore<C>(log: seq<Entry<C>>, e: Entry<C>)
    ensures Last(log + [e], e.owner, e.content, e.token)
  {
    assert (log + [e])[|log|] == e;
  }

  lemma LastOther<C>(log: seq<Entry<C>>, e: Entry<C>, owner: string, content: C, token: Token)
    requires Last(log, owner, content, token) && owner != e.owner
    ensures Last(log + [e], owner, content, token)
  {
    var i :| 0 <= i < |log| && log[i] == Entry(owner, content, token) && forall k :: i < k < |log| ==> log[k].owner != owner;
    assert (log + [e])[i] == log[i];
  }

  // One more entry of a sort of token: given again for the content it was last
  // given for, or anew.
  lemma Track<C>(log: seq<Entry<C>>, e: Entry<C>, before: Option<(C, Token)>, n: nat, m: nat)
    requires Faithful(log) && Numbered(log, n) && n <= m
    requires match before
             case None => Unseen(log, e.owner)
             case Some((content, token)) => Last(log, e.owner, content, token)
    requires if before.Some? && before.value.0 == e.content then e.token == before.value.1 else n < e.token.n <= m
    ensures Faithful(log + [e]) && Numbered(log + [e], m) && Last(log + [e], e.owner, e.content, e.token)
  {
    LastMore(log, e);
    if before.Some? && before.value.0 == e.content {
      var i :| 0 <= i < |log| && log[i] == e;
      FaithfulAgain(log, e);
    } else {
      FaithfulAnew(log, e, before);
    }
  }

  function SourceBefore(s: Tracker, id: string): Option<(seq<SourceFile>, Token)> {
    if id in s.projects then Some((s.projects[id].inputs.files, s.projects[id].version.sourceRevision)) else None
  }

  function ImagesBefore(s: Tracker, id: string): Option<(Images, Token)> {
    if id in s.projects then Some((s.projects[id].inputs.images, s.projects[id].version.imageRevision)) else None
  }

  function ProjectBefore(s: Tracker, id: string): Option<((string, seq<SourceFile>, Images), Token)> {
    if id in s.projects then
      var p := s.projects[id];
      Some(((p.inputs.name, p.inputs.files, p.inputs.images), p.version.revision))
    else None
  }

  lemma ObserveTracks(s: Tracker, logs: Logs, inputs: ProjectInputs)
    requires Inv(s, logs)
    ensures var t, more := Next(s, Observe(inputs)), Note(s, logs, Observe(inputs));
            && Faithful(more.sources) && Numbered(more.sources, t.sequence)
            && Faithful(more.images) && Numbered(more.images, t.sequence)
            && Faithful(more.projects) && Numbered(more.projects, t.sequence)
            && ProjectKept(t, more, inputs.id)
  {
    assert ProjectKept(s, logs, inputs.id);
    SourcesTrack(s, logs, inputs);
    ImagesTrack(s, logs, inputs);
    ProjectsTrack(s, logs, inputs);
  }

  lemma SourcesTrack(s: Tracker, logs: Logs, inputs: ProjectInputs)
    requires Inv(s, logs)
    ensures var t, more := Next(s, Observe(inputs)), Note(s, logs, Observe(inputs)).sources;
            Faithful(more) && Numbered(more, t.sequence)
            && Last(more, inputs.id, inputs.files, t.projects[inputs.id].version.sourceRevision)
  {
    var t, id := Next(s, Observe(inputs)), inputs.id;
    assert ProjectKept(s, logs, id);
    Track(logs.sources, Entry(id, inputs.files, t.projects[id].version.sourceRevision), SourceBefore(s, id), s.sequence, t.sequence);
  }

  lemma ImagesTrack(s: Tracker, logs: Logs, inputs: ProjectInputs)
    requires Inv(s, logs)
    ensures var t, more := Next(s, Observe(inputs)), Note(s, logs, Observe(inputs)).images;
            Faithful(more) && Numbered(more, t.sequence)
            && Last(more, inputs.id, inputs.images, t.projects[inputs.id].version.imageRevision)
  {
    var t, id := Next(s, Observe(inputs)), inputs.id;
    assert ProjectKept(s, logs, id);
    Track(logs.images, Entry(id, inputs.images, t.projects[id].version.imageRevision), ImagesBefore(s, id), s.sequence, t.sequence);
  }

  lemma ProjectsTrack(s: Tracker, logs: Logs, inputs: ProjectInputs)
    requires Inv(s, logs)
    ensures var t, more := Next(s, Observe(inputs)), Note(s, logs, Observe(inputs)).projects;
            Faithful(more) && Numbered(more, t.sequence)
            && Last(more, inputs.id, (inputs.name, inputs.files, inputs.images), t.projects[inputs.id].version.revision)
  {
    var t, id := Next(s, Observe(inputs)), inputs.id;
    assert ProjectKept(s, logs, id);
    var e := Entry(id, (inputs.name, inputs.files, inputs.images), t.projects[id].version.revision);
    Track(logs.projects, e, ProjectBefore(s, id), s.sequence, t.sequence);
  }

  lemma ObserveLeaves(s: Tracker, logs: Logs, inputs: ProjectInputs, other: string)
    requires Inv(s, logs) && other != inputs.id
    ensures ProjectKept(Next(s, Observe(inputs)), Note(s, logs, Observe(inputs)), other)
  {
    assert ProjectKept(s, logs, other);
    var v, id := Next(s, Observe(inputs)).projects[inputs.id].version, inputs.id;
    if other in s.projects {
      var p := s.projects[other];
      assert Next(s, Observe(inputs)).projects[other] == p;
      LastOther(logs.sources, Entry(id, inputs.files, v.sourceRevision), other, p.inputs.files, p.version.sourceRevision);
      LastOther(logs.images, Entry(id, inputs.images, v.imageRevision), other, p.inputs.images, p.version.imageRevision);
      LastOther(logs.projects, Entry(id, (inputs.name, inputs.files, inputs.images), v.revision), other,
                (p.inputs.name, p.inputs.files, p.inputs.images), p.version.revision);
    }
  }

  // What the tracker shows changes just when it takes a new observation revision.
  lemma ViewTracks(s: Tracker, logs: Logs, step: Step)
    requires Inv(s, logs)
    ensures var t, more := Next(s, step), Note(s, logs, step);
            && Faithful(more.views) && Numbered(more.views, t.sequence)
            && Last(more.views, "", View(t.projects, t.target), t.observation)
  {
    var t := Next(s, step);
    ViewChanges(s, step);
    Track(logs.views, ViewOf(t), Some((View(s.projects, s.target), s.observation)), s.sequence, t.sequence);
  }

  lemma ViewChanges(s: Tracker, step: Step)
    requires s.target.Some? ==> s.target.value.targetEpoch.n <= s.sequence
    requires forall id <- s.projects :: s.projects[id].version.revision.n <= s.sequence
    ensures var t := Next(s, step);
            if View(s.projects, s.target) == View(t.projects, t.target) then t.observation == s.observation
            else s.sequence < t.observation.n <= t.sequence
  {
  }

  lemma ObserveKeeps(s: Tracker, logs: Logs, inputs: ProjectInputs)
    requires Inv(s, logs)
    ensures Inv(Next(s, Observe(inputs)), Note(s, logs, Observe(inputs)))
  {
    ViewTracks(s, logs, Observe(inputs));
    ObserveLogs(s, logs, inputs);
    ObserveCurrent(s, logs, inputs);
    ObserveKeepsAll(s, logs, inputs);
  }

  lemma ObserveLogs(s: Tracker, logs: Logs, inputs: ProjectInputs)
    requires Inv(s, logs)
    ensures var t, more := Next(s, Observe(inputs)), Note(s, logs, Observe(inputs));
            Truthful(more) && AllNumbered(more, t.sequence)
  {
    ViewTracks(s, logs, Observe(inputs));
    ObserveTracks(s, logs, inputs);
  }

  lemma ObserveCurrent(s: Tracker, logs: Logs, inputs: ProjectInputs)
    requires Inv(s, logs)
    ensures var t := Next(s, Observe(inputs));
            && TargetCurrent(t) && (t.target.Some? ==> t.target.value.targetEpoch.n <= t.sequence)
            && forall id <- t.projects :: t.projects[id].version.revision.n <= t.sequence
  {
  }

  lemma ObserveKeepsAll(s: Tracker, logs: Logs, inputs: ProjectInputs)
    requires Inv(s, logs)
    ensures var t, more := Next(s, Observe(inputs)), Note(s, logs, Observe(inputs));
            (forall id :: ProjectKept(t, more, id)) && (forall kind :: ChoiceKept(t, more, kind))
  {
    var t, more := Next(s, Observe(inputs)), Note(s, logs, Observe(inputs));
    ObserveTracks(s, logs, inputs);
    forall id
      ensures ProjectKept(t, more, id)
    {
      if id != inputs.id {
        ObserveLeaves(s, logs, inputs, id);
      }
    }
    forall kind
      ensures ChoiceKept(t, more, kind)
    {
      assert ChoiceKept(s, logs, kind);
    }
  }

  lemma ChooseKeeps(s: Tracker, logs: Logs, kind: string, value: string)
    requires Inv(s, logs)
    ensures Inv(Next(s, Choose(kind, value)), Note(s, logs, Choose(kind, value)))
  {
    ViewTracks(s, logs, Choose(kind, value));
    ChooseTracks(s, logs, kind, value);
  }

  // The steps that observe no project and choose no option.
  lemma OthersKeep(s: Tracker, logs: Logs, step: Step)
    requires Inv(s, logs) && (step.Select? || step.Elsewhere?)
    ensures Inv(Next(s, step), Note(s, logs, step))
  {
    var t, more := Next(s, step), Note(s, logs, step);
    ViewTracks(s, logs, step);
    forall id
      ensures ProjectKept(t, more, id) && ChoiceKept(t, more, id)
    {
      assert ProjectKept(s, logs, id) && ChoiceKept(s, logs, id);
    }
  }

  lemma StepKeeps(s: Tracker, logs: Logs, step: Step)
    requires Inv(s, logs)
    ensures Inv(Next(s, step), Note(s, logs, step))
  {
    match step
    case Observe(inputs) => ObserveKeeps(s, logs, inputs);
    case Choose(kind, value) => ChooseKeeps(s, logs, kind, value);
    case _ => OthersKeep(s, logs, step);
  }

  lemma ChooseTracks(s: Tracker, logs: Logs, kind: string, value: string)
    requires Inv(s, logs)
    ensures var t, more := Next(s, Choose(kind, value)), Note(s, logs, Choose(kind, value));
            && Faithful(more.options) && Numbered(more.options, t.sequence)
            && (forall id :: ProjectKept(t, more, id)) && (forall k :: ChoiceKept(t, more, k))
  {
    var t, more := Next(s, Choose(kind, value)), Note(s, logs, Choose(kind, value));
    assert ChoiceKept(s, logs, kind);
    var before := if kind in s.options then Some((s.options[kind].value, s.options[kind].revision)) else None;
    Track(logs.options, Entry(kind, value, t.options[kind].revision), before, s.sequence, t.sequence);
    forall k
      ensures ProjectKept(t, more, k) && ChoiceKept(t, more, k)
    {
      assert ProjectKept(s, logs, k) && ChoiceKept(s, logs, k);
      if k != kind && k in s.options {
        LastOther(logs.options, Entry(kind, value, t.options[kind].revision), k, s.options[k].value, s.options[k].revision);
      }
    }
  }

  // ---- runs ------------------------------------------------------------------------------------

  function After(s: Tracker, steps: seq<Step>): Tracker
    decreases |steps|
  {
    if steps == [] then s else After(Next(s, steps[0]), steps[1..])
  }

  function History(s: Tracker, logs: Logs, steps: seq<Step>): Logs
    decreases |steps|
  {
    if steps == [] then logs else History(Next(s, steps[0]), Note(s, logs, steps[0]), steps[1..])
  }

  lemma {:induction false} RunKeeps(s: Tracker, logs: Logs, steps: seq<Step>)
    requires Inv(s, logs)
    ensures Inv(After(s, steps), History(s, logs, steps))
    decreases |steps|
  {
    if steps != [] {
      StepKeeps(s, logs, steps[0]);
      RunKeeps(Next(s, steps[0]), Note(s, logs, steps[0]), steps[1..]);
    }
  }

  // Over any run of a page, for each of the five sorts of token: two are equal
  // exactly when they were given to one owner whose content was the same
  // throughout. And the target is always at its project's source revision.
  lemma TokensTellContent(steps: seq<Step>)
    ensures Truthful(History(START, NOTHING, steps)) && TargetCurrent(After(START, steps))
  {
    assert Last(NOTHING.views, "", View(START.projects, START.target), START.observation) by {
      LastMore([], ViewOf(START));
      assert [] + [ViewOf(START)] == NOTHING.views;
    }
    RunKeeps(START, NOTHING, steps);
  }

  // ---- the objects -----------------------------------------------------------------------------

  class RevisionAllocator {
    var sequence: nat

    constructor ()
      ensures sequence == 0
    {
      sequence := 0;
    }

    method Next(sort: Sort) returns (token: Token)
      modifies this
      ensures sequence == old(sequence) + 1 && token == Token(sort, sequence)
    {
      sequence := sequence + 1;
      return Token(sort, sequence);
    }
  }

  class RevisionTracker {
    const ids: RevisionAllocator
    var projects: map<string, Tracked>
    var options: map<string, Choice>
    var target: Option<Target>
    var observation: Token

    function Now(): Tracker
      reads this, ids
    {
      Tracker(ids.sequence, projects, options, target, observation)
    }

    constructor (ids: RevisionAllocator)
      modifies ids
      ensures this.ids == ids && ids.sequence == old(ids.sequence) + 1
      ensures Now() == Tracker(ids.sequence, map[], map[], None, Token(ObservationToken, ids.sequence))
    {
      this.ids := ids;
      projects, options, target := map[], map[], None;
      var first := ids.Next(ObservationToken);
      observation := first;
    }

    method BumpObservation()
      modifies this`observation, ids
      ensures ids.sequence == old(ids.sequence) + 1 && observation == Token(ObservationToken, ids.sequence)
    {
      observation := ids.Next(ObservationToken);
    }

    method ObserveProject(inputs: ProjectInputs) returns (version: Version)
      requires inputs.id in projects ==> projects[inputs.id].inputs.id == inputs.id
      modifies this, ids
      ensures Now() == Next(old(Now()), Observe(inputs))
      ensures inputs.id in projects && version == projects[inputs.id].version
    {
      if inputs.id !in projects {
        version := ObserveNew(inputs);
        return;
      }
      var previous := projects[inputs.id];
      var sourceChanged := !SameSource(previous.inputs.files, inputs.files);
      var imagesSame := SameImages(previous.inputs.images, inputs.images);
      if !sourceChanged && imagesSame && previous.inputs.name == inputs.name {
        return previous.version;
      }
      version := ObserveChanged(inputs, sourceChanged, !imagesSame);
    }

    method ObserveNew(inputs: ProjectInputs) returns (version: Version)
      requires inputs.id !in projects
      modifies this, ids
      ensures Now() == ObserveOf(old(Now()), inputs)
      ensures inputs.id in projects && version == projects[inputs.id].version
    {
      var a := ids.Next(ProjectToken);
      var b := ids.Next(SourceToken);
      var c := ids.Next(ImageToken);
      version := Version(inputs.id, a, b, c);
      projects := projects[inputs.id := Tracked(inputs, version)];
      BumpObservation();
    }

    method ObserveChanged(inputs: ProjectInputs, sourceChanged: bool, imagesChanged: bool) returns (version: Version)
      requires inputs.id in projects && projects[inputs.id].inputs != inputs.(id := projects[inputs.id].inputs.id)
      requires sourceChanged == (projects[inputs.id].inputs.files != inputs.files)
      requires imagesChanged == (projects[inputs.id].inputs.images != inputs.images)
      modifies this, ids
      ensures Now() == ObserveOf(old(Now()), inputs)
      ensures inputs.id in projects && version == projects[inputs.id].version
    {
      var previous := projects[inputs.id];
      var a := ids.Next(ProjectToken);
      var b, c := previous.version.sourceRevision, previous.version.imageRevision;
      if sourceChanged {
        b := ids.Next(SourceToken);
      }
      if imagesChanged {
        c := ids.Next(ImageToken);
      }
      version := Version(inputs.id, a, b, c);
      projects := projects[inputs.id := Tracked(inputs, version)];
      if target.Some? && target.value.projectId == inputs.id && sourceChanged {
        target := Some(target.value.(sourceRevision := b));
      }
      BumpObservation();
    }

    method SelectTarget(projectId: string, entryFile: string) returns (selected: Option<Target>)
      modifies this, ids
      ensures Now() == Next(old(Now()), Select(projectId, entryFile))
      ensures selected == if projectId in old(projects) then target else None
    {
      if projectId !in projects {
        return None;
      }
      var source := projects[projectId].version.sourceRevision;
      var epoch := ids.Next(TargetToken);
      target := Some(Target(projectId, source, entryFile, epoch));
      BumpObservation();
      return target;
    }

    method OptionsRevision(kind: string, value: string) returns (revision: Token)
      modifies this, ids
      ensures Now() == Next(old(Now()), Choose(kind, value))
      ensures kind in options && revision == options[kind].revision
    {
      if kind in options && options[kind].value == value {
        return options[kind].revision;
      }
      revision := ids.Next(OptionsToken(kind));
      options := options[kind := Chosen(value, revision)];
    }
  }
}
