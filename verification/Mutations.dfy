// A batch of file operations planned before anything live changes
// (site/src/scripts/playground-mutations.ts).
module Mutations {
  import opened Wrappers
  import opened Utf16
  import opened SplitFiles
  import opened SplitRoundTrip

  const MAX_PROJECT_FILES := 128
  const MAX_FILE_NAME := 256
  const MAX_FILE_MUTATIONS := 64
  const MAX_TEXT_EDITS := 256

  // ---- text edits ------------------------------------------------------------------

  datatype TextEdit = TextEdit(from: int, to: int, text: Text)

  datatype EditError = NoRange | BadReplacement | OutsideBoundary | Overlapping

  // The first complaint about `edits`, given where the edit before them ended.
  function CheckEdits(body: Text, edits: seq<TextEdit>, previous: int): Option<EditError> {
    if edits == [] then None
    else if !WellFormed(edits[0].text) then Some(BadReplacement)
    else if !Inside(body, edits[0]) then Some(OutsideBoundary)
    else if Collides(edits[0], previous) then Some(Overlapping)
    else CheckEdits(body, edits[1..], edits[0].to)
  }

  predicate Inside(body: Text, e: TextEdit) {
    0 <= e.from <= e.to <= |body| && ScalarBoundary(body, e.from) && ScalarBoundary(body, e.to)
  }

  predicate Collides(e: TextEdit, previous: int) {
    e.from < previous || (e.from == previous && e.from == e.to)
  }

  // Sound in itself, and clear of the edit before it.
  predicate Clear(body: Text, edits: seq<TextEdit>, previous: int, i: nat)
    requires i < |edits|
  {
    && WellFormed(edits[i].text)
    && Inside(body, edits[i])
    && !Collides(edits[i], if i == 0 then previous else edits[i - 1].to)
  }

  // Edits are accepted exactly when each one is clear.
  lemma {:induction false} CheckEditsMeans(body: Text, edits: seq<TextEdit>, previous: int)
    ensures CheckEdits(body, edits, previous).None? <==>
            forall i :: 0 <= i < |edits| ==> Clear(body, edits, previous, i)
  {
    if edits != [] {
      CheckEditsMeans(body, edits[1..], edits[0].to);
      forall i | 1 <= i < |edits|
        ensures Clear(body, edits, previous, i) <==> Clear(body, edits[1..], edits[0].to, i - 1)
      {
      }
      assert CheckEdits(body, edits, previous).None? <==>
             Clear(body, edits, previous, 0) && CheckEdits(body, edits[1..], edits[0].to).None?;
      assert forall i :: 0 <= i < |edits| - 1 ==>
             (Clear(body, edits[1..], edits[0].to, i) <==> Clear(body, edits, previous, i + 1));
    }
  }

  // Ranges in order from `at`, inside the body, none overlapping.
  predicate Ordered(body: Text, edits: seq<TextEdit>, at: int) {
    if edits == [] then 0 <= at <= |body|
    else 0 <= at <= edits[0].from <= edits[0].to && Ordered(body, edits[1..], edits[0].to)
  }

  // Every range replaced at once: the kept segments with the texts between them.
  function Replaced(body: Text, edits: seq<TextEdit>, at: int): Text
    requires Ordered(body, edits, at)
  {
    OrderedInside(body, edits, at);
    if edits == [] then body[at..]
    else body[at..edits[0].from] + edits[0].text + Replaced(body, edits[1..], edits[0].to)
  }

  lemma {:induction false} OrderedInside(body: Text, edits: seq<TextEdit>, at: int)
    requires Ordered(body, edits, at)
    ensures 0 <= at <= |body|
    ensures edits != [] ==> edits[0].from <= edits[0].to <= |body|
  {
    if edits != [] {
      OrderedInside(body, edits[1..], edits[0].to);
    }
  }

  lemma {:induction false} CheckedOrdered(body: Text, edits: seq<TextEdit>, previous: int)
    requires CheckEdits(body, edits, previous).None? && -1 <= previous <= |body|
    ensures Ordered(body, edits, if previous < 0 then 0 else previous)
  {
    if edits != [] {
      CheckedOrdered(body, edits[1..], edits[0].to);
    }
  }

  lemma SliceJoin(s: Text, i: nat, j: nat, k: nat)
    requires i <= j <= k <= |s|
    ensures s[i..k] == s[i..j] + s[j..k]
  {
  }

  lemma Regroup(a: Text, b: Text, c: Text, d: Text)
    ensures a + b + c + d == a + (b + c + d)
  {
  }

  // The kept text before the first range can be split off anywhere.
  lemma ReplacedFrom(body: Text, edits: seq<TextEdit>, at: int, mid: int)
    requires Ordered(body, edits, mid) && 0 <= at <= mid
    ensures Ordered(body, edits, at)
    ensures mid <= |body| && Replaced(body, edits, at) == body[at..mid] + Replaced(body, edits, mid)
  {
    OrderedInside(body, edits, mid);
    if edits == [] {
      SliceJoin(body, at, mid, |body|);
    } else {
      var e, tail := edits[0], Replaced(body, edits[1..], edits[0].to);
      SliceJoin(body, at, mid, e.from);
      Regroup(body[at..mid], body[mid..e.from], e.text, tail);
    }
  }

  // One more edit, in front of those already applied.
  lemma ReplacedStep(body: Text, edits: seq<TextEdit>)
    requires edits != [] && Ordered(body, edits, 0)
    ensures Ordered(body, edits[1..], 0)
    ensures var next := Replaced(body, edits[1..], 0);
            && edits[0].to <= |next|
            && Replaced(body, edits, 0) == next[..edits[0].from] + edits[0].text + next[edits[0].to..]
  {
    var e := edits[0];
    OrderedInside(body, edits, 0);
    ReplacedFrom(body, edits[1..], 0, e.to);
    var tail := Replaced(body, edits[1..], e.to);
    assert (body[..e.to] + tail)[..e.from] == body[0..e.from];
    assert (body[..e.to] + tail)[e.to..] == tail;
  }

  lemma {:induction false} OrderedSuffix(body: Text, edits: seq<TextEdit>, at: int, i: nat)
    requires Ordered(body, edits, at) && i <= |edits|
    ensures Ordered(body, edits[i..], if i == 0 then at else edits[i - 1].to)
    ensures 0 <= at <= if i == 0 then at else edits[i - 1].to
  {
    if i == 0 {
      assert edits[0..] == edits;
    } else {
      OrderedSuffix(body, edits[1..], edits[0].to, i - 1);
      assert edits[1..][i - 1..] == edits[i..];
    }
  }

  function Edited(body: Text, edits: seq<TextEdit>): Result<Text, EditError> {
    if edits == [] then Failed(NoRange) else
    match CheckEdits(body, edits, -1)
    case Some(e) => Failed(e)
    case None =>
      CheckedOrdered(body, edits, -1);
      Ok(Replaced(body, edits, 0))
  }

  // Checked first to last, applied last to first.
  method ApplyEdits(body: Text, edits: seq<TextEdit>) returns (r: Result<Text, EditError>)
    ensures r == Edited(body, edits)
  {
    if |edits| == 0 {
      return Failed(NoRange);
    }
    var previous := -1;
    for i := 0 to |edits|
      invariant previous == if i == 0 then -1 else edits[i - 1].to
      invariant CheckEdits(body, edits, -1) == CheckEdits(body, edits[i..], previous)
    {
      var edit := edits[i];
      assert edits[i..][1..] == edits[i + 1..];
      var ok := IsWellFormed(edit.text);
      if !ok {
        return Failed(BadReplacement);
      }
      if edit.from < 0 || edit.to < edit.from || edit.to > |body|
         || !ScalarBoundary(body, edit.from) || !ScalarBoundary(body, edit.to) {
        return Failed(OutsideBoundary);
      }
      if edit.from < previous || (edit.from == previous && edit.from == edit.to) {
        return Failed(Overlapping);
      }
      previous := edit.to;
    }
    CheckedOrdered(body, edits, -1);
    var next := RightToLeft(body, edits);
    r := Ok(next);
  }

  method RightToLeft(body: Text, edits: seq<TextEdit>) returns (next: Text)
    requires Ordered(body, edits, 0)
    ensures next == Replaced(body, edits, 0)
  {
    next := body;
    var index := |edits|;
    assert edits[index..] == [];
    assert body[0..] == body;
    while index > 0
      invariant 0 <= index <= |edits|
      invariant Ordered(body, edits[index..], 0) && next == Replaced(body, edits[index..], 0)
    {
      index := index - 1;
      OrderedSuffix(body, edits, 0, index);
      ReplacedFrom(body, edits[index..], 0, if index == 0 then 0 else edits[index - 1].to);
      assert edits[index..][1..] == edits[index + 1..];
      ReplacedStep(body, edits[index..]);
      next := next[..edits[index].from] + edits[index].text + next[edits[index].to..];
    }
    assert edits[0..] == edits;
  }

  lemma {:induction false} ReplacedWellFormed(body: Text, edits: seq<TextEdit>, at: int, previous: int)
    requires WellFormed(body) && CheckEdits(body, edits, previous).None?
    requires Ordered(body, edits, at) && ScalarBoundary(body, at)
    ensures WellFormed(Replaced(body, edits, at))
  {
    if edits == [] {
      WellFormedCut(body, at);
    } else {
      var e := edits[0];
      WellFormedSlice(body, at, e.from);
      ReplacedWellFormed(body, edits[1..], e.to, e.to);
      WellFormedConcat(body[at..e.from], e.text);
      WellFormedConcat(body[at..e.from] + e.text, Replaced(body, edits[1..], e.to));
    }
  }

  // Accepted edits of a well-formed body leave it well-formed.
  lemma EditsKeepWellFormed(body: Text, edits: seq<TextEdit>)
    requires WellFormed(body) && Edited(body, edits).Ok?
    ensures WellFormed(Edited(body, edits).value)
  {
    CheckedOrdered(body, edits, -1);
    ReplacedWellFormed(body, edits, 0, -1);
  }

  // ---- batches of file operations ----------------------------------------------------

  // Where a new file goes: before the root when nothing is said, at the end, or
  // before a named file.
  datatype Place = BeforeRoot | AtEnd | Before(name: Text)

  datatype Mutation =
    | Edit(name: Text, edits: seq<TextEdit>)
    | Create(name: Text, body: Option<Text>, place: Place)
    | Rename(name: Text, newName: Text)
    | Delete(name: Text)

  datatype Reason =
    | BatchSize
    | TooManyEdits
    | NoSuchFile
    | BadEdit(why: EditError)
    | NameTaken
    | BadBody
    | NoSuchPlace
    | BadRename
    | MissingOrLast
    | Unjoinable(conflict: SplitFiles.Reason)
    | TooManyFiles
    | NoRoundTrip
    | DestructiveNoOp

  // The operation that failed, or -1 for the batch, and the file it names.
  datatype Failure = Failure(operation: int, reason: Reason, file: Option<Text>)

  datatype Renaming = Renaming(oldName: Text, newName: Text)

  // What the loop carries from one operation to the next.
  datatype Draft = Draft(
    files: seq<NamedFile>,
    active: nat,
    renamed: seq<Renaming>,
    deleted: seq<Text>,
    created: seq<Text>,
    destructive: bool)

  datatype Plan = Plan(
    files: seq<NamedFile>,
    active: nat,
    changed: bool,
    renamed: seq<Renaming>,
    deleted: seq<Text>,
    created: seq<Text>)

  // The first file of that name, or the length when there is none.
  function FindFile(files: seq<NamedFile>, name: Text): (i: nat)
    ensures i <= |files|
    ensures i < |files| ==> files[i].name == name
    ensures forall k :: 0 <= k < i ==> files[k].name != name
  {
    if files == [] || files[0].name == name then 0 else 1 + FindFile(files[1..], name)
  }

  predicate ValidFileName(name: Text) {
    |name| <= MAX_FILE_NAME && WellFormed(name) && IsFileName(name)
  }

  // A comment naming the file, without its extension.
  function SeedBody(name: Text): Text {
    MarkerLine(if |name| >= 5 && name[|name| - 5..] == DOT_CIRC then name[..|name| - 5] else name) + [LF]
  }

  function PlaceIndex(files: seq<NamedFile>, place: Place): Option<nat> {
    match place
    case BeforeRoot => if files == [] then None else Some(|files| - 1)
    case AtEnd => Some(|files|)
    case Before(name) => if FindFile(files, name) < |files| then Some(FindFile(files, name)) else None
  }

  // Some other file already has the name.
  predicate Clashes(files: seq<NamedFile>, index: nat, name: Text) {
    exists k :: 0 <= k < |files| && k != index && files[k].name == name
  }

  // One put in, and one taken out.
  function Inserted<T>(s: seq<T>, at: nat, x: T): seq<T>
    requires at <= |s|
  {
    s[..at] + [x] + s[at..]
  }

  function Removed<T>(s: seq<T>, at: nat): seq<T>
    requires at < |s|
  {
    s[..at] + s[at + 1..]
  }

  function StepEdit(d: Draft, name: Text, edits: seq<TextEdit>): Result<Draft, Reason> {
    var i := FindFile(d.files, name);
    if i == |d.files| then Failed(NoSuchFile) else
    match Edited(d.files[i].body, edits)
    case Failed(e) => Failed(BadEdit(e))
    case Ok(body) => Ok(d.(files := d.files[i := d.files[i].(body := body)]))
  }

  function StepCreate(d: Draft, name: Text, given: Option<Text>, place: Place): Result<Draft, Reason> {
    if !ValidFileName(name) || FindFile(d.files, name) < |d.files| then Failed(NameTaken) else
    var body := if given.Some? then given.value else SeedBody(name);
    if !WellFormed(body) then Failed(BadBody) else InsertNew(d, name, body, place)
  }

  function InsertNew(d: Draft, name: Text, body: Text, place: Place): Result<Draft, Reason> {
    match PlaceIndex(d.files, place)
    case None => Failed(NoSuchPlace)
    case Some(at) =>
      Ok(d.(files := Inserted(d.files, at, NamedFile(name, body)),
            active := if at <= d.active then d.active + 1 else d.active,
            created := d.created + [name],
            destructive := true))
  }

  function StepRename(d: Draft, name: Text, newName: Text): Result<Draft, Reason> {
    var i := FindFile(d.files, name);
    if i == |d.files| || !ValidFileName(newName) || Clashes(d.files, i, newName) then Failed(BadRename)
    else if name == newName then Ok(d)
    else Ok(d.(files := d.files[i := d.files[i].(name := newName)],
               renamed := d.renamed + [Renaming(name, newName)]))
  }

  function StepDelete(d: Draft, name: Text): Result<Draft, Reason> {
    var i := FindFile(d.files, name);
    if i == |d.files| || |d.files| == 1 then Failed(MissingOrLast) else
    Ok(d.(files := Removed(d.files, i),
          active := if i < d.active then d.active - 1
                    else if i == d.active then (if i <= |d.files| - 2 then i else |d.files| - 2)
                    else d.active,
          deleted := d.deleted + [name],
          destructive := true))
  }

  function Step(d: Draft, m: Mutation): Result<Draft, Reason> {
    match m
    case Edit(name, edits) => StepEdit(d, name, edits)
    case Create(name, body, place) => StepCreate(d, name, body, place)
    case Rename(name, newName) => StepRename(d, name, newName)
    case Delete(name) => StepDelete(d, name)
  }

  // An error names no file for an empty name.
  function Naming(name: Text): Option<Text> {
    if name == [] then None else Some(name)
  }

  // The operations from `from` on; a failure names the operation it stopped at.
  function Steps(d: Draft, ops: seq<Mutation>, from: nat): Result<Draft, Failure>
    requires from <= |ops|
    decreases |ops| - from
  {
    if from == |ops| then Ok(d) else
    match Step(d, ops[from])
    case Failed(reason) => Failed(Failure(from, reason, Naming(ops[from].name)))
    case Ok(next) => Steps(next, ops, from + 1)
  }

  function CountEdits(ops: seq<Mutation>): nat {
    if ops == [] then 0
    else CountEdits(ops[..|ops| - 1]) + if ops[|ops| - 1].Edit? then |ops[|ops| - 1].edits| else 0
  }

  function Start(initial: seq<NamedFile>, activeName: Text): Draft {
    var i := FindFile(initial, activeName);
    Draft(initial, if i < |initial| then i else if initial == [] then 0 else |initial| - 1, [], [], [], false)
  }

  // `files[index]?.name`
  function NameAt(files: seq<NamedFile>, index: nat): Option<Text> {
    if index < |files| then Naming(files[index].name) else None
  }

  // The checks after the loop.
  function Finish(initial: seq<NamedFile>, d: Draft): Result<Plan, Failure> {
    var conflicts := Conflicts(d.files);
    if conflicts != [] then Failed(Failure(-1, Unjoinable(conflicts[0].reason), NameAt(d.files, conflicts[0].index)))
    else if |d.files| > MAX_PROJECT_FILES then Failed(Failure(-1, TooManyFiles, NameAt(d.files, 0)))
    else if NamesAndBodies(Split(JoinFiles(d.files))) != d.files then Failed(Failure(-1, NoRoundTrip, None))
    else if d.files == initial && d.destructive then Failed(Failure(-1, DestructiveNoOp, None))
    else Ok(Plan(d.files, d.active, d.files != initial, d.renamed, d.deleted, d.created))
  }

  function Planned(initial: seq<NamedFile>, activeName: Text, ops: seq<Mutation>): Result<Plan, Failure> {
    if |ops| < 1 || |ops| > MAX_FILE_MUTATIONS then Failed(Failure(-1, BatchSize, None))
    else if CountEdits(ops) > MAX_TEXT_EDITS then Failed(Failure(-1, TooManyEdits, None))
    else
      match Steps(Start(initial, activeName), ops, 0)
      case Failed(f) => Failed(f)
      case Ok(d) => Finish(initial, d)
  }

  // The four branches of the loop body.
  method PerformEdit(d: Draft, name: Text, edits: seq<TextEdit>) returns (r: Result<Draft, Reason>)
    ensures r == StepEdit(d, name, edits)
  {
    var index := FindFile(d.files, name);
    if index == |d.files| {
      return Failed(NoSuchFile);
    }
    var edited := ApplyEdits(d.files[index].body, edits);
    if edited.Failed? {
      return Failed(BadEdit(edited.error));
    }
    r := Ok(d.(files := d.files[index := d.files[index].(body := edited.value)]));
  }

  method PerformCreate(d: Draft, name: Text, given: Option<Text>, place: Place) returns (r: Result<Draft, Reason>)
    ensures r == StepCreate(d, name, given, place)
  {
    if !ValidFileName(name) || FindFile(d.files, name) < |d.files| {
      return Failed(NameTaken);
    }
    var body := if given.Some? then given.value else SeedBody(name);
    var ok := IsWellFormed(body);
    if !ok {
      return Failed(BadBody);
    }
    r := PerformInsert(d, name, body, place);
  }

  method PerformInsert(d: Draft, name: Text, body: Text, place: Place) returns (r: Result<Draft, Reason>)
    ensures r == InsertNew(d, name, body, place)
  {
    var files, active := d.files, d.active;
    var before := PlaceIndex(files, place);
    if before.None? {
      return Failed(NoSuchPlace);
    }
    files := Inserted(files, before.value, NamedFile(name, body));
    if before.value <= active {
      active := active + 1;
    }
    r := Ok(d.(files := files, active := active, created := d.created + [name], destructive := true));
  }

  method PerformRename(d: Draft, name: Text, newName: Text) returns (r: Result<Draft, Reason>)
    ensures r == StepRename(d, name, newName)
  {
    var files, renamed := d.files, d.renamed;
    var index := FindFile(files, name);
    if index == |files| || !ValidFileName(newName) || Clashes(files, index, newName) {
      return Failed(BadRename);
    }
    if name != newName {
      files := files[index := files[index].(name := newName)];
      renamed := renamed + [Renaming(name, newName)];
    }
    r := Ok(d.(files := files, renamed := renamed));
  }

  method PerformDelete(d: Draft, name: Text) returns (r: Result<Draft, Reason>)
    ensures r == StepDelete(d, name)
  {
    var files, active := d.files, d.active;
    var index := FindFile(files, name);
    if index == |files| || |files| == 1 {
      return Failed(MissingOrLast);
    }
    files := Removed(files, index);
    if index < active {
      active := active - 1;
    } else if index == active {
      active := if index <= |files| - 1 then index else |files| - 1;
    }
    r := Ok(d.(files := files, active := active, deleted := d.deleted + [name], destructive := true));
  }

  method Perform(d: Draft, m: Mutation) returns (r: Result<Draft, Reason>)
    ensures r == Step(d, m)
  {
    match m {
      case Edit(name, edits) => r := PerformEdit(d, name, edits);
      case Create(name, given, place) => r := PerformCreate(d, name, given, place);
      case Rename(name, newName) => r := PerformRename(d, name, newName);
      case Delete(name) => r := PerformDelete(d, name);
    }
  }

  // The loop over the operations.
  method PerformAll(start: Draft, ops: seq<Mutation>) returns (r: Result<Draft, Failure>)
    ensures r == Steps(start, ops, 0)
  {
    var d := start;
    for operation := 0 to |ops|
      invariant Steps(start, ops, 0) == Steps(d, ops, operation)
    {
      var stepped := Perform(d, ops[operation]);
      if stepped.Failed? {
        return Failed(Failure(operation, stepped.error, Naming(ops[operation].name)));
      }
      d := stepped.value;
    }
    r := Ok(d);
  }

  method EditCount(ops: seq<Mutation>) returns (count: nat)
    ensures count == CountEdits(ops)
  {
    count := 0;
    for i := 0 to |ops|
      invariant count == CountEdits(ops[..i])
    {
      assert ops[..i + 1][..i] == ops[..i];
      count := count + if ops[i].Edit? then |ops[i].edits| else 0;
    }
    assert ops[..|ops|] == ops;
  }

  method PlanMutations(initial: seq<NamedFile>, activeName: Text, ops: seq<Mutation>)
    returns (r: Result<Plan, Failure>)
    ensures r == Planned(initial, activeName, ops)
  {
    if |ops| < 1 || |ops| > MAX_FILE_MUTATIONS {
      return Failed(Failure(-1, BatchSize, None));
    }
    var count := EditCount(ops);
    if count > MAX_TEXT_EDITS {
      return Failed(Failure(-1, TooManyEdits, None));
    }
    var performed := PerformAll(Start(initial, activeName), ops);
    if performed.Failed? {
      return Failed(performed.error);
    }
    r := Conclude(initial, performed.value);
  }

  method Conclude(initial: seq<NamedFile>, d: Draft) returns (r: Result<Plan, Failure>)
    ensures r == Finish(initial, d)
  {
    var conflicts := JoinConflicts(d.files);
    if |conflicts| > 0 {
      return Failed(Failure(-1, Unjoinable(conflicts[0].reason), NameAt(d.files, conflicts[0].index)));
    }
    if |d.files| > MAX_PROJECT_FILES {
      return Failed(Failure(-1, TooManyFiles, NameAt(d.files, 0)));
    }
    var split := SplitFilesOf(JoinFiles(d.files));
    if NamesAndBodies(split) != d.files {
      return Failed(Failure(-1, NoRoundTrip, None));
    }
    var sourceChanged := d.files != initial;
    if !sourceChanged && d.destructive {
      return Failed(Failure(-1, DestructiveNoOp, None));
    }
    r := Ok(Plan(d.files, d.active, sourceChanged, d.renamed, d.deleted, d.created));
  }

  // ---- the active file ------------------------------------------------------------------

  // What an operation does to the places of the files.
  datatype Move = Stay | Insert(at: nat) | Remove(at: nat)

  function MoveOf(d: Draft, m: Mutation): Move
    requires Step(d, m).Ok?
  {
    match m
    case Create(_, _, place) => Insert(PlaceIndex(d.files, place).value)
    case Delete(name) => Remove(FindFile(d.files, name))
    case _ => Stay
  }

  predicate Fits(move: Move, n: nat) {
    match move
    case Stay => true
    case Insert(at) => at <= n
    case Remove(at) => at < n && n >= 2
  }

  // The active index with the files' identities beside it: a created file gets
  // `nextId`, a rename or an edit keeps the file's own.
  datatype Tracked = Tracked(active: nat, ids: seq<nat>, nextId: nat)

  function MoveTracked(t: Tracked, move: Move): Tracked {
    if !Fits(move, |t.ids|) then t else
    match move
    case Stay => t
    case Insert(at) => Tracked(MoveActive(t.active, move, |t.ids|), Inserted(t.ids, at, t.nextId), t.nextId + 1)
    case Remove(at) => Tracked(MoveActive(t.active, move, |t.ids|), Removed(t.ids, at), t.nextId)
  }

  function RunTracked(t: Tracked, moves: seq<Move>): Tracked
    decreases moves
  {
    if moves == [] then t else RunTracked(MoveTracked(t, moves[0]), moves[1..])
  }

  function MoveActive(active: nat, move: Move, n: nat): nat
    requires Fits(move, n)
  {
    match move
    case Stay => active
    case Insert(at) => if at <= active then active + 1 else active
    case Remove(at) =>
      if at < active then active - 1
      else if at == active then (if at <= n - 2 then at else n - 2)
      else active
  }

  // `e` is `d` after the move: the files themselves, and the active index.
  predicate MovesAs(d: Draft, move: Move, e: Draft) {
    && Fits(move, |d.files|)
    && e.active == MoveActive(d.active, move, |d.files|)
    && match move
       case Insert(at) => at < |e.files| && e.files == Inserted(d.files, at, e.files[at])
       case Remove(at) => e.files == Removed(d.files, at)
       case Stay =>
         && |e.files| == |d.files|
         && ((forall k :: 0 <= k < |d.files| ==> e.files[k].name == d.files[k].name)
             || (forall k :: 0 <= k < |d.files| ==> e.files[k].body == d.files[k].body))
  }

  lemma InsertMoves(d: Draft, name: Text, body: Text, place: Place)
    requires InsertNew(d, name, body, place).Ok?
    ensures MovesAs(d, Insert(PlaceIndex(d.files, place).value), InsertNew(d, name, body, place).value)
  {
  }

  lemma CreateMoves(d: Draft, name: Text, body: Option<Text>, place: Place)
    requires StepCreate(d, name, body, place).Ok?
    ensures MovesAs(d, Insert(PlaceIndex(d.files, place).value), StepCreate(d, name, body, place).value)
  {
    InsertMoves(d, name, if body.Some? then body.value else SeedBody(name), place);
  }

  lemma DeleteMoves(d: Draft, name: Text)
    requires StepDelete(d, name).Ok?
    ensures MovesAs(d, Remove(FindFile(d.files, name)), StepDelete(d, name).value)
  {
  }

  lemma EditMoves(d: Draft, name: Text, edits: seq<TextEdit>)
    requires StepEdit(d, name, edits).Ok?
    ensures MovesAs(d, Stay, StepEdit(d, name, edits).value)
  {
  }

  lemma RenameMoves(d: Draft, name: Text, newName: Text)
    requires StepRename(d, name, newName).Ok?
    ensures MovesAs(d, Stay, StepRename(d, name, newName).value)
  {
  }

  // A step moves the active index as it moves the files.
  lemma StepMoves(d: Draft, m: Mutation)
    requires Step(d, m).Ok?
    ensures MovesAs(d, MoveOf(d, m), Step(d, m).value)
  {
    match m
    case Edit(name, edits) => EditMoves(d, name, edits);
    case Create(name, body, place) => CreateMoves(d, name, body, place);
    case Rename(name, newName) => RenameMoves(d, name, newName);
    case Delete(name) => DeleteMoves(d, name);
  }

  function Moves(d: Draft, ops: seq<Mutation>, from: nat): seq<Move>
    requires from <= |ops| && Steps(d, ops, from).Ok?
    decreases |ops| - from
  {
    if from == |ops| then [] else [MoveOf(d, ops[from])] + Moves(Step(d, ops[from]).value, ops, from + 1)
  }

  // The active file is the one of identity `who`, or that one is gone for good.
  predicate Follows(t: Tracked, who: nat) {
    && t.active < |t.ids|
    && (forall i, j :: 0 <= i < j < |t.ids| ==> t.ids[i] != t.ids[j])
    && (forall i :: 0 <= i < |t.ids| ==> t.ids[i] < t.nextId)
    && who < t.nextId
    && (t.ids[t.active] == who || who !in t.ids)
  }

  lemma InsertFollows(t: Tracked, at: nat, who: nat)
    requires at <= |t.ids| && Follows(t, who)
    ensures Follows(MoveTracked(t, Insert(at)), who)
  {
    var next := Inserted(t.ids, at, t.nextId);
    InsertedAt(t.ids, at, t.nextId);
    forall i, j | 0 <= i < j < |next|
      ensures next[i] != next[j]
    {
    }
    assert who in next ==> who in t.ids;
  }

  lemma InsertedAt<T>(s: seq<T>, at: nat, x: T)
    requires at <= |s|
    ensures var next := Inserted(s, at, x);
            && |next| == |s| + 1 && next[at] == x
            && (forall i :: 0 <= i < at ==> next[i] == s[i]) && (forall i :: at < i < |next| ==> next[i] == s[i - 1])
  {
  }

  lemma RemoveFollows(t: Tracked, at: nat, who: nat)
    requires Fits(Remove(at), |t.ids|) && Follows(t, who)
    ensures Follows(MoveTracked(t, Remove(at)), who)
  {
    var ids, next := t.ids, Removed(t.ids, at);
    assert forall i :: 0 <= i < at ==> next[i] == ids[i];
    assert forall i :: at <= i < |next| ==> next[i] == ids[i + 1];
    if at == t.active {
      assert forall i :: 0 <= i < |next| ==> next[i] != ids[at];
    }
  }

  lemma MoveFollows(t: Tracked, move: Move, who: nat)
    requires Follows(t, who)
    ensures Follows(MoveTracked(t, move), who)
  {
    if Fits(move, |t.ids|) {
      match move
      case Stay =>
      case Insert(at) => InsertFollows(t, at, who);
      case Remove(at) => RemoveFollows(t, at, who);
    }
  }

  lemma {:induction false} RunFollows(t: Tracked, moves: seq<Move>, who: nat)
    requires Follows(t, who)
    ensures Follows(RunTracked(t, moves), who)
    decreases moves
  {
    if moves != [] {
      MoveFollows(t, moves[0], who);
      RunFollows(MoveTracked(t, moves[0]), moves[1..], who);
    }
  }

  lemma {:induction false} StepsMove(d: Draft, ops: seq<Mutation>, from: nat, t: Tracked)
    requires from <= |ops| && Steps(d, ops, from).Ok? && t.active == d.active && |t.ids| == |d.files|
    ensures var e, u := Steps(d, ops, from).value, RunTracked(t, Moves(d, ops, from));
            u.active == e.active && |u.ids| == |e.files|
    decreases |ops| - from
  {
    if from < |ops| {
      var next, move := Step(d, ops[from]).value, MoveOf(d, ops[from]);
      StepMoves(d, ops[from]);
      StepsMove(next, ops, from + 1, MoveTracked(t, move));
      RunStep(t, move, Moves(next, ops, from + 1));
    }
  }

  lemma RunStep(t: Tracked, move: Move, rest: seq<Move>)
    ensures RunTracked(t, [move] + rest) == RunTracked(MoveTracked(t, move), rest)
  {
    assert ([move] + rest)[1..] == rest;
  }

  // Every file under an identity of its own.
  function Track(d: Draft): Tracked {
    Tracked(d.active, seq(|d.files|, i => i), |d.files|)
  }

  // ---- one file through a batch ---------------------------------------------------------------

  // What becomes of a file that goes by its name, whatever else there is; None
  // when it is deleted.
  function Fate(f: NamedFile, m: Mutation): Option<NamedFile> {
    if m.name != f.name then Some(f) else
    match m
    case Edit(_, edits) => if Edited(f.body, edits).Ok? then Some(f.(body := Edited(f.body, edits).value)) else Some(f)
    case Create(_, _, _) => Some(f)
    case Rename(_, newName) => Some(f.(name := newName))
    case Delete(_) => None
  }

  function Fates(f: NamedFile, ops: seq<Mutation>, from: nat): Option<NamedFile>
    requires from <= |ops|
    decreases |ops| - from
  {
    if from == |ops| then Some(f)
    else if Fate(f, ops[from]).None? then None
    else Fates(Fate(f, ops[from]).value, ops, from + 1)
  }

  // The file at this place is the one its name finds.
  predicate Found(files: seq<NamedFile>, p: nat) {
    p < |files| && FindFile(files, files[p].name) == p
  }

  // Where a file that is not removed is after a move.
  function PlaceAfter(move: Move, p: nat): nat {
    match move
    case Stay => p
    case Insert(at) => if at <= p then p + 1 else p
    case Remove(at) => if at < p then p - 1 else p
  }

  lemma FoundIs(files: seq<NamedFile>, p: nat)
    requires p < |files| && forall k :: 0 <= k < p ==> files[k].name != files[p].name
    ensures Found(files, p)
  {
  }

  lemma EditFate(d: Draft, p: nat, name: Text, edits: seq<TextEdit>)
    requires Found(d.files, p) && StepEdit(d, name, edits).Ok?
    ensures var files := StepEdit(d, name, edits).value.files;
            Found(files, p) && Fate(d.files[p], Edit(name, edits)) == Some(files[p])
  {
    FoundIs(StepEdit(d, name, edits).value.files, p);
  }

  lemma RenameFate(d: Draft, p: nat, name: Text, newName: Text)
    requires Found(d.files, p) && StepRename(d, name, newName).Ok?
    ensures var files := StepRename(d, name, newName).value.files;
            Found(files, p) && Fate(d.files[p], Rename(name, newName)) == Some(files[p])
  {
    FoundIs(StepRename(d, name, newName).value.files, p);
  }

  lemma InsertKeepsFound(files: seq<NamedFile>, p: nat, at: nat, f: NamedFile)
    requires Found(files, p) && at <= |files| && f.name != files[p].name
    ensures var q := PlaceAfter(Insert(at), p); Found(Inserted(files, at, f), q) && Inserted(files, at, f)[q] == files[p]
  {
    var next := Inserted(files, at, f);
    assert forall i :: 0 <= i < |next| ==> next[i] == if i < at then files[i] else if i == at then f else files[i - 1];
    FoundIs(next, PlaceAfter(Insert(at), p));
  }

  lemma RemoveKeepsFound(files: seq<NamedFile>, p: nat, at: nat)
    requires Found(files, p) && at < |files| && at != p
    ensures var q := PlaceAfter(Remove(at), p); Found(Removed(files, at), q) && Removed(files, at)[q] == files[p]
  {
    var next := Removed(files, at);
    assert forall i :: 0 <= i < |next| ==> next[i] == if i < at then files[i] else files[i + 1];
    FoundIs(next, PlaceAfter(Remove(at), p));
  }

  lemma CreateFate(d: Draft, p: nat, name: Text, given: Option<Text>, place: Place)
    requires Found(d.files, p) && StepCreate(d, name, given, place).Ok?
    ensures var files, q := StepCreate(d, name, given, place).value.files, PlaceAfter(Insert(PlaceIndex(d.files, place).value), p);
            Found(files, q) && Fate(d.files[p], Create(name, given, place)) == Some(files[q])
  {
    InsertKeepsFound(d.files, p, PlaceIndex(d.files, place).value,
                     NamedFile(name, if given.Some? then given.value else SeedBody(name)));
  }

  lemma DeleteFate(d: Draft, p: nat, name: Text)
    requires Found(d.files, p) && StepDelete(d, name).Ok?
    ensures var files, q := StepDelete(d, name).value.files, PlaceAfter(Remove(FindFile(d.files, name)), p);
            if FindFile(d.files, name) == p then Fate(d.files[p], Delete(name)).None?
            else Found(files, q) && Fate(d.files[p], Delete(name)) == Some(files[q])
  {
    if FindFile(d.files, name) != p {
      RemoveKeepsFound(d.files, p, FindFile(d.files, name));
    }
  }

  // A step does to the file what its fate says, and keeps it found by its name.
  lemma StepFate(d: Draft, p: nat, m: Mutation)
    requires Found(d.files, p) && Step(d, m).Ok?
    ensures var files, q := Step(d, m).value.files, PlaceAfter(MoveOf(d, m), p);
            if MoveOf(d, m) == Remove(p) then Fate(d.files[p], m).None?
            else Found(files, q) && Fate(d.files[p], m) == Some(files[q])
  {
    match m
    case Edit(name, edits) => EditFate(d, p, name, edits);
    case Create(name, body, place) => CreateFate(d, p, name, body, place);
    case Rename(name, newName) => RenameFate(d, p, name, newName);
    case Delete(name) => DeleteFate(d, p, name);
  }

  // Identities move along with the files.
  lemma PlaceTracked(t: Tracked, move: Move, p: nat)
    requires p < |t.ids| && Fits(move, |t.ids|) && move != Remove(p)
    ensures var u, q := MoveTracked(t, move), PlaceAfter(move, p); q < |u.ids| && u.ids[q] == t.ids[p]
  {
  }

  lemma {:induction false} GoneForGood(t: Tracked, moves: seq<Move>, who: nat)
    requires who !in t.ids && who < t.nextId
    ensures who !in RunTracked(t, moves).ids
    decreases moves
  {
    if moves != [] {
      GoneForGood(MoveTracked(t, moves[0]), moves[1..], who);
    }
  }

  lemma RemovedGone(t: Tracked, at: nat, who: nat)
    requires Fits(Remove(at), |t.ids|) && Follows(t, who) && t.ids[at] == who
    ensures who !in MoveTracked(t, Remove(at)).ids && who < MoveTracked(t, Remove(at)).nextId
  {
    var next := Removed(t.ids, at);
    assert forall i :: 0 <= i < |next| ==> next[i] == if i < at then t.ids[i] else t.ids[i + 1];
  }

  // The file is there under its identity as its fate has it, or it is gone.
  predicate Ended(ids: seq<nat>, files: seq<NamedFile>, who: nat, fate: Option<NamedFile>) {
    && |ids| == |files|
    && match fate
       case None => who !in ids
       case Some(f) => exists p :: 0 <= p < |ids| && ids[p] == who && files[p] == f
  }

  lemma {:induction false} StepsFate(d: Draft, ops: seq<Mutation>, from: nat, t: Tracked, p: nat, who: nat)
    requires from <= |ops| && Steps(d, ops, from).Ok? && t.active == d.active && |t.ids| == |d.files|
    requires Found(d.files, p) && t.ids[p] == who && Follows(t.(active := p), who)
    ensures Ended(RunTracked(t, Moves(d, ops, from)).ids, Steps(d, ops, from).value.files, who, Fates(d.files[p], ops, from))
    decreases |ops| - from
  {
    if from < |ops| {
      var next, move := Step(d, ops[from]).value, MoveOf(d, ops[from]);
      var rest := Moves(next, ops, from + 1);
      StepMoves(d, ops[from]);
      StepFate(d, p, ops[from]);
      RunStep(t, move, rest);
      if move == Remove(p) {
        RemovedGone(t.(active := p), p, who);
        GoneForGood(MoveTracked(t, move), rest, who);
        StepsMove(next, ops, from + 1, MoveTracked(t, move));
      } else {
        PlaceTracked(t, move, p);
        MoveFollows(t.(active := p), move, who);
        FollowsAt(MoveTracked(t.(active := p), move), MoveTracked(t, move), PlaceAfter(move, p), who);
        StepsFate(next, ops, from + 1, MoveTracked(t, move), PlaceAfter(move, p), who);
      }
    }
  }

  lemma FollowsAt(t: Tracked, u: Tracked, q: nat, who: nat)
    requires Follows(t, who) && t.ids == u.ids && t.nextId == u.nextId && q < |u.ids| && u.ids[q] == who
    ensures Follows(u.(active := q), who)
  {
  }

  // Every file of an accepted batch that a name finds ends as the operations on
  // that name have it.
  lemma FilesFollow(initial: seq<NamedFile>, activeName: Text, ops: seq<Mutation>, k: nat)
    requires Planned(initial, activeName, ops).Ok? && Found(initial, k)
    ensures var start, plan := Start(initial, activeName), Planned(initial, activeName, ops).value;
            Ended(RunTracked(Track(start), Moves(start, ops, 0)).ids, plan.files, k, Fates(initial[k], ops, 0))
  {
    var start := Start(initial, activeName);
    StepsFate(start, ops, 0, Track(start), k, k);
  }

  // Through every accepted batch on a project with files, the active index stays in
  // range and stays on the same file unless that file is deleted; and the file is
  // then as the operations on its name have left it.
  lemma ActiveFollows(initial: seq<NamedFile>, activeName: Text, ops: seq<Mutation>)
    requires initial != [] && Planned(initial, activeName, ops).Ok?
    ensures var start, plan := Start(initial, activeName), Planned(initial, activeName, ops).value;
            var ids := RunTracked(Track(start), Moves(start, ops, 0)).ids;
            && |ids| == |plan.files| && plan.active < |plan.files|
            && (start.active in ids ==> ids[plan.active] == start.active)
            && (Found(initial, start.active) ==>
                  match Fates(initial[start.active], ops, 0)
                  case None => start.active !in ids
                  case Some(f) => plan.files[plan.active] == f)
  {
    ActiveTracked(initial, activeName, ops);
    var start, plan := Start(initial, activeName), Planned(initial, activeName, ops).value;
    var ids := RunTracked(Track(start), Moves(start, ops, 0)).ids;
    if Found(initial, start.active) {
      FilesFollow(initial, activeName, ops, start.active);
      EndedActive(ids, plan.files, plan.active, start.active, Fates(initial[start.active], ops, 0));
    }
  }

  lemma EndedActive(ids: seq<nat>, files: seq<NamedFile>, active: nat, who: nat, fate: Option<NamedFile>)
    requires Ended(ids, files, who, fate) && active < |ids| && (who in ids ==> ids[active] == who)
    requires forall i, j :: 0 <= i < j < |ids| ==> ids[i] != ids[j]
    ensures match fate case None => who !in ids case Some(f) => files[active] == f
  {
  }

  // Identities stay apart, and the active index keeps to its own.
  lemma ActiveTracked(initial: seq<NamedFile>, activeName: Text, ops: seq<Mutation>)
    requires initial != [] && Planned(initial, activeName, ops).Ok?
    ensures var start, plan := Start(initial, activeName), Planned(initial, activeName, ops).value;
            var ids := RunTracked(Track(start), Moves(start, ops, 0)).ids;
            && |ids| == |plan.files| && plan.active < |plan.files|
            && (forall i, j :: 0 <= i < j < |ids| ==> ids[i] != ids[j])
            && (start.active in ids ==> ids[plan.active] == start.active)
  {
    var start := Start(initial, activeName);
    StepsMove(start, ops, 0, Track(start));
    RunFollows(Track(start), Moves(start, ops, 0), start.active);
  }

  // With no files to begin with the index always ends one past the last file.
  lemma {:induction false} EmptyStartRunsPast(d: Draft, ops: seq<Mutation>, from: nat)
    requires from <= |ops| && d.active == |d.files| && Steps(d, ops, from).Ok?
    ensures var e := Steps(d, ops, from).value; e.active == |e.files|
    decreases |ops| - from
  {
    if from < |ops| {
      StepMoves(d, ops[from]);
      EmptyStartRunsPast(Step(d, ops[from]).value, ops, from + 1);
    }
  }

  // So the active index of an accepted plan is in range exactly when the project
  // had files.
  lemma ActiveInRange(initial: seq<NamedFile>, activeName: Text, ops: seq<Mutation>)
    requires Planned(initial, activeName, ops).Ok?
    ensures var plan := Planned(initial, activeName, ops).value;
            plan.active < |plan.files| <==> initial != []
  {
    if initial == [] {
      EmptyStartRunsPast(Start(initial, activeName), ops, 0);
    } else {
      ActiveTracked(initial, activeName, ops);
    }
  }

  // Such a batch: a project without files is given its first.
  lemma FirstFileRunsPast(name: Text, body: Text)
    requires ValidFileName(name) && WellFormed(body) && !Interrupted(ReadLines(body))
    ensures var plan := Planned([], [], [Create(name, Some(body), AtEnd)]);
            plan.Ok? && plan.value.active == 1 == |plan.value.files|
  {
    var op, f := Create(name, Some(body), AtEnd), NamedFile(name, body);
    FirstFile(Start([], []), name, body);
    OneClean(f);
    FinishOne(f, Step(Start([], []), op).value);
    OneStep([], [], op);
  }

  lemma FirstFile(d: Draft, name: Text, body: Text)
    requires d.files == [] && ValidFileName(name) && WellFormed(body)
    ensures StepCreate(d, name, Some(body), AtEnd) ==
            Ok(d.(files := [NamedFile(name, body)], active := d.active + 1,
                  created := d.created + [name], destructive := true))
  {
    assert Inserted(d.files, 0, NamedFile(name, body)) == [NamedFile(name, body)];
  }

  lemma OneStep(initial: seq<NamedFile>, activeName: Text, op: Mutation)
    requires !op.Edit? && Step(Start(initial, activeName), op).Ok?
    ensures Planned(initial, activeName, [op]) == Finish(initial, Step(Start(initial, activeName), op).value)
  {
    var d := Start(initial, activeName);
    assert CountEdits([op]) == 0 by { assert [op][..0] == []; }
    assert Steps(Step(d, op).value, [op], 1) == Ok(Step(d, op).value);
  }

  lemma FinishOne(f: NamedFile, d: Draft)
    requires d.files == [f] && Conflicts([f]) == [] && NamesAndBodies(Split(JoinFiles([f]))) == [f]
    ensures Finish([], d) == Ok(Plan([f], d.active, true, d.renamed, d.deleted, d.created))
  {
  }

  lemma OneClean(f: NamedFile)
    requires IsFileName(f.name) && !Interrupted(ReadLines(f.body))
    ensures Conflicts([f]) == [] && NamesAndBodies(Split(JoinFiles([f]))) == [f]
  {
    if Conflicts([f]) != [] {
      var c := Conflicts([f])[0];
      ConflictsMean([f], c.index, c.reason);
    }
    RoundTripExactly([f]);
  }

  // There is such a file: an empty `main.circ`.
  lemma MainIsValid()
    ensures ValidFileName(MAIN_CIRC) && WellFormed([]) && !Interrupted(ReadLines([]))
  {
    MainIsAName();
    FileNameShape(MAIN_CIRC);
    PlainWellFormed(MAIN_CIRC);
    EmptyUnmarked();
  }

  lemma {:induction false} PlainWellFormed(s: Text)
    requires forall i :: 0 <= i < |s| ==> s[i] < 0xD800
    ensures WellFormed(s)
  {
    if s != [] {
      PlainWellFormed(s[1..]);
    }
  }

  lemma EmptyUnmarked()
    ensures !Interrupted(ReadLines([]))
  {
    assert SplitLines([]) == [[]] && ReadLines([]) == [Look([])];
  }

  lemma EmptyProjectRunsPast()
    ensures var plan := Planned([], [], [Create(MAIN_CIRC, Some([]), AtEnd)]);
            plan.Ok? && plan.value.active == 1 == |plan.value.files|
  {
    MainIsValid();
    FirstFileRunsPast(MAIN_CIRC, []);
  }

  // ---- the final check ---------------------------------------------------------------------

  lemma {:induction false} StepsLeaveFiles(d: Draft, ops: seq<Mutation>, from: nat)
    requires from <= |ops| && Steps(d, ops, from).Ok? && (from < |ops| || d.files != [])
    ensures Steps(d, ops, from).value.files != []
    decreases |ops| - from
  {
    if from < |ops| {
      var next := Step(d, ops[from]).value;
      assert next.files != [];
      StepsLeaveFiles(next, ops, from + 1);
    }
  }

  // The final round trip rejects nothing that the conflict check let through.
  lemma RoundTripNeverRejects(initial: seq<NamedFile>, activeName: Text, ops: seq<Mutation>)
    ensures Planned(initial, activeName, ops) != Failed(Failure(-1, NoRoundTrip, None))
  {
    if 1 <= |ops| <= MAX_FILE_MUTATIONS && CountEdits(ops) <= MAX_TEXT_EDITS {
      var steps := Steps(Start(initial, activeName), ops, 0);
      if steps.Ok? {
        StepsLeaveFiles(Start(initial, activeName), ops, 0);
        RoundTripExactly(steps.value.files);
      } else {
        StepsBlame(Start(initial, activeName), ops, 0);
      }
    }
  }

  lemma {:induction false} StepsBlame(d: Draft, ops: seq<Mutation>, from: nat)
    requires from <= |ops| && Steps(d, ops, from).Failed?
    ensures from <= Steps(d, ops, from).error.operation < |ops|
    decreases |ops| - from
  {
    if Step(d, ops[from]).Ok? {
      StepsBlame(Step(d, ops[from]).value, ops, from + 1);
    }
  }

  predicate AllWellFormed(files: seq<NamedFile>) {
    forall i :: 0 <= i < |files| ==> WellFormed(files[i].body)
  }

  lemma EditKeepsWellFormed(d: Draft, name: Text, edits: seq<TextEdit>)
    requires StepEdit(d, name, edits).Ok? && AllWellFormed(d.files)
    ensures AllWellFormed(StepEdit(d, name, edits).value.files)
  {
    EditsKeepWellFormed(d.files[FindFile(d.files, name)].body, edits);
  }

  lemma CreateKeepsWellFormed(d: Draft, name: Text, body: Option<Text>, place: Place)
    requires StepCreate(d, name, body, place).Ok? && AllWellFormed(d.files)
    ensures AllWellFormed(StepCreate(d, name, body, place).value.files)
  {
    var at := PlaceIndex(d.files, place).value;
    assert StepCreate(d, name, body, place).value.files[at].name == name;
    InsertKeepsWellFormed(d.files, at, StepCreate(d, name, body, place).value.files[at]);
  }

  lemma InsertKeepsWellFormed(files: seq<NamedFile>, at: nat, f: NamedFile)
    requires at <= |files| && AllWellFormed(files) && WellFormed(f.body)
    ensures AllWellFormed(Inserted(files, at, f))
  {
    var next := Inserted(files, at, f);
    assert forall i :: 0 <= i < |next| ==> next[i] == if i < at then files[i] else if i == at then f else files[i - 1];
  }

  lemma {:induction false} StepsKeepWellFormed(d: Draft, ops: seq<Mutation>, from: nat)
    requires from <= |ops| && Steps(d, ops, from).Ok? && AllWellFormed(d.files)
    ensures AllWellFormed(Steps(d, ops, from).value.files)
    decreases |ops| - from
  {
    if from < |ops| {
      match ops[from] {
        case Edit(name, edits) => EditKeepsWellFormed(d, name, edits);
        case Create(name, body, place) => CreateKeepsWellFormed(d, name, body, place);
        case Rename(_, _) =>
        case Delete(_) =>
      }
      StepsKeepWellFormed(Step(d, ops[from]).value, ops, from + 1);
    }
  }

  lemma NamesDistinct(files: seq<NamedFile>)
    requires Conflicts(files) == []
    ensures forall i, j :: 0 <= i < j < |files| ==> files[i].name != files[j].name
  {
    forall i, j | 0 <= i < j < |files|
      ensures files[i].name != files[j].name
    {
      ConflictsMean(files, j, DuplicateName);
      assert files[..j][i] == files[i];
    }
  }

  // What an accepted plan can be relied on for: it survives the marker format,
  // its names are distinct, well-formed bodies stay so, and a batch that creates
  // or deletes anything changes the source.
  lemma AcceptedPlan(initial: seq<NamedFile>, activeName: Text, ops: seq<Mutation>)
    requires Planned(initial, activeName, ops).Ok?
    ensures var plan := Planned(initial, activeName, ops).value;
            && 1 <= |plan.files| <= MAX_PROJECT_FILES
            && NamesAndBodies(Split(JoinFiles(plan.files))) == plan.files
            && (forall i, j :: 0 <= i < j < |plan.files| ==> plan.files[i].name != plan.files[j].name)
            && (AllWellFormed(initial) ==> AllWellFormed(plan.files))
            && (plan.created != [] || plan.deleted != [] ==> plan.files != initial)
  {
    var start := Start(initial, activeName);
    var d := Steps(start, ops, 0).value;
    StepsLeaveFiles(start, ops, 0);
    if AllWellFormed(initial) {
      StepsKeepWellFormed(start, ops, 0);
    }
    StepsDestroy(start, ops, 0);
    FinishMeans(initial, d);
  }

  lemma FinishMeans(initial: seq<NamedFile>, d: Draft)
    requires Finish(initial, d).Ok?
    ensures NamesAndBodies(Split(JoinFiles(d.files))) == d.files && |d.files| <= MAX_PROJECT_FILES
    ensures forall i, j :: 0 <= i < j < |d.files| ==> d.files[i].name != d.files[j].name
    ensures d.destructive ==> d.files != initial
  {
    NamesDistinct(d.files);
  }

  lemma {:induction false} StepsDestroy(d: Draft, ops: seq<Mutation>, from: nat)
    requires from <= |ops| && Steps(d, ops, from).Ok?
    requires d.created != [] || d.deleted != [] ==> d.destructive
    ensures var e := Steps(d, ops, from).value; e.created != [] || e.deleted != [] ==> e.destructive
    decreases |ops| - from
  {
    if from < |ops| {
      StepsDestroy(Step(d, ops[from]).value, ops, from + 1);
    }
  }
}
