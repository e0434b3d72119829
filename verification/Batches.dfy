// What an operation on the files does, said without how it is done
// (site/src/scripts/playground-mutations.ts).
module Batches {
  import opened Wrappers
  import opened Utf16
  import opened SplitFiles
  import opened Mutations
  import M = SplitMeaning

  // ---- edits -------------------------------------------------------------------------------

  // How much longer a body gets.
  function Growth(edits: seq<TextEdit>): int {
    if edits == [] then 0
    else Growth(edits[..|edits| - 1]) + |edits[|edits| - 1].text| - (edits[|edits| - 1].to - edits[|edits| - 1].from)
  }

  lemma {:induction false} GrowthFront(edits: seq<TextEdit>)
    requires edits != []
    ensures Growth(edits) == |edits[0].text| - (edits[0].to - edits[0].from) + Growth(edits[1..])
  {
    var n := |edits| - 1;
    if n > 0 {
      GrowthFront(edits[..n]);
      assert edits[..n][1..] == edits[1..][..n - 1];
    } else {
      assert edits[..0] == [];
    }
  }

  lemma GrowthTo(edits: seq<TextEdit>, i: nat)
    requires 0 < i <= |edits|
    ensures Growth(edits[..i]) == |edits[0].text| - (edits[0].to - edits[0].from) + Growth(edits[1..][..i - 1])
  {
    GrowthFront(edits[..i]);
    assert edits[..i][1..] == edits[1..][..i - 1];
  }

  // Between edit `i - 1` and edit `i`, and before the first and after the last.
  predicate Untouched(body: Text, edits: seq<TextEdit>, at: int, i: nat, k: int)
    requires i <= |edits|
  {
    (if i == 0 then at else edits[i - 1].to) <= k < (if i == |edits| then |body| else edits[i].from)
  }

  // The text stands in `r` from this offset on.
  predicate StandsAt(r: Text, offset: int, text: Text) {
    0 <= offset <= offset + |text| <= |r| && r[offset..offset + |text|] == text
  }

  predicate KeptAt(r: Text, offset: int, unit: Unit) {
    0 <= offset < |r| && r[offset] == unit
  }

  // Every text stands where its range was, moved by the growth before it, ...
  predicate TextsLand(edits: seq<TextEdit>, at: int, r: Text) {
    forall i :: 0 <= i < |edits| ==> StandsAt(r, edits[i].from - at + Growth(edits[..i]), edits[i].text)
  }

  // ... and whatever is in no range is kept and moved likewise.
  predicate RestLands(body: Text, edits: seq<TextEdit>, at: int, r: Text) {
    forall i, k :: 0 <= i <= |edits| && 0 <= k < |body| && Untouched(body, edits, at, i, k) ==>
      KeptAt(r, k - at + Growth(edits[..i]), body[k])
  }

  predicate Lands(body: Text, edits: seq<TextEdit>, at: int, r: Text) {
    |r| == |body| - at + Growth(edits) && TextsLand(edits, at, r) && RestLands(body, edits, at, r)
  }

  // The front edit applied ahead of the rest.
  function Ahead(body: Text, e: TextEdit, at: int, rest: Text): Text
    requires 0 <= at <= e.from <= |body|
  {
    body[at..e.from] + e.text + rest
  }

  lemma TextLands(body: Text, edits: seq<TextEdit>, at: int, rest: Text, i: nat)
    requires edits != [] && 0 <= at <= edits[0].from <= edits[0].to <= |body| && i < |edits|
    requires TextsLand(edits[1..], edits[0].to, rest)
    ensures StandsAt(Ahead(body, edits[0], at, rest), edits[i].from - at + Growth(edits[..i]), edits[i].text)
  {
    var e := edits[0];
    if i > 0 {
      GrowthTo(edits, i);
      var o := edits[i].from - e.to + Growth(edits[1..][..i - 1]);
      assert StandsAt(rest, o, edits[1..][i - 1].text);
      Further(body[at..e.from] + e.text, rest, o, edits[i].text);
    } else {
      assert Ahead(body, e, at, rest)[e.from - at..e.from - at + |e.text|] == e.text;
    }
  }

  lemma KeptLands(body: Text, edits: seq<TextEdit>, at: int, rest: Text, i: nat, k: nat)
    requires edits != [] && 0 <= at <= edits[0].from <= edits[0].to <= |body| && i <= |edits| && k < |body|
    requires RestLands(body, edits[1..], edits[0].to, rest) && Untouched(body, edits, at, i, k)
    ensures KeptAt(Ahead(body, edits[0], at, rest), k - at + Growth(edits[..i]), body[k])
  {
    var e := edits[0];
    if i > 0 {
      GrowthTo(edits, i);
      assert Untouched(body, edits[1..], e.to, i - 1, k);
      FurtherUnit(body[at..e.from] + e.text, rest, k - e.to + Growth(edits[1..][..i - 1]), body[k]);
    } else {
      assert edits[..0] == [];
      assert Ahead(body, e, at, rest)[k - at] == body[k];
    }
  }

  lemma FurtherUnit(before: Text, rest: Text, offset: int, unit: Unit)
    requires KeptAt(rest, offset, unit)
    ensures KeptAt(before + rest, |before| + offset, unit)
  {
  }

  lemma LandsMore(body: Text, edits: seq<TextEdit>, at: int, rest: Text)
    requires edits != [] && Ordered(body, edits, at) && edits[0].to <= |body| && Lands(body, edits[1..], edits[0].to, rest)
    ensures Lands(body, edits, at, Ahead(body, edits[0], at, rest))
  {
    var r := Ahead(body, edits[0], at, rest);
    GrowthFront(edits);
    forall i | 0 <= i < |edits|
      ensures StandsAt(r, edits[i].from - at + Growth(edits[..i]), edits[i].text)
    {
      TextLands(body, edits, at, rest, i);
    }
    RestMore(body, edits, at, rest);
  }

  lemma RestMore(body: Text, edits: seq<TextEdit>, at: int, rest: Text)
    requires edits != [] && 0 <= at <= edits[0].from <= edits[0].to <= |body|
    requires RestLands(body, edits[1..], edits[0].to, rest)
    ensures RestLands(body, edits, at, Ahead(body, edits[0], at, rest))
  {
    forall i, k | 0 <= i <= |edits| && 0 <= k < |body| && Untouched(body, edits, at, i, k)
      ensures KeptAt(Ahead(body, edits[0], at, rest), k - at + Growth(edits[..i]), body[k])
    {
      KeptLands(body, edits, at, rest, i, k);
    }
  }

  lemma Further(before: Text, rest: Text, offset: int, text: Text)
    requires StandsAt(rest, offset, text)
    ensures StandsAt(before + rest, |before| + offset, text)
  {
    assert (before + rest)[|before| + offset..|before| + offset + |text|] == rest[offset..offset + |text|];
  }

  lemma {:induction false} ReplacedLands(body: Text, edits: seq<TextEdit>, at: int)
    requires Ordered(body, edits, at)
    ensures Lands(body, edits, at, Replaced(body, edits, at))
  {
    OrderedInside(body, edits, at);
    if edits != [] {
      ReplacedLands(body, edits[1..], edits[0].to);
      LandsMore(body, edits, at, Replaced(body, edits[1..], edits[0].to));
    }
  }

  // Accepted edits all take effect, and nothing else does.
  lemma EditsLand(body: Text, edits: seq<TextEdit>)
    requires Edited(body, edits).Ok?
    ensures Lands(body, edits, 0, Edited(body, edits).value)
  {
    CheckedOrdered(body, edits, -1);
    ReplacedLands(body, edits, 0);
  }

  // What is wrong with an edit that is not clear.
  function Complaint(body: Text, e: TextEdit): EditError {
    if !WellFormed(e.text) then BadReplacement
    else if !Inside(body, e) then OutsideBoundary
    else Overlapping
  }

  lemma {:induction false} FirstComplaint(body: Text, edits: seq<TextEdit>, previous: int) returns (i: nat)
    requires CheckEdits(body, edits, previous).Some?
    ensures i < |edits| && !Clear(body, edits, previous, i)
    ensures forall j :: 0 <= j < i ==> Clear(body, edits, previous, j)
    ensures CheckEdits(body, edits, previous) == Some(Complaint(body, edits[i]))
  {
    if Clear(body, edits, previous, 0) {
      var k := FirstComplaint(body, edits[1..], edits[0].to);
      i := k + 1;
      forall j | 0 < j < i
        ensures Clear(body, edits, previous, j)
      {
        assert Clear(body, edits[1..], edits[0].to, j - 1);
      }
    } else {
      i := 0;
    }
  }

  // Edits are refused when there are none or one of them is not clear, for what is
  // wrong with the first such.
  lemma EditsRefused(body: Text, edits: seq<TextEdit>)
    ensures Edited(body, edits).Failed? <==> edits == [] || exists i :: 0 <= i < |edits| && !Clear(body, edits, -1, i)
    ensures edits == [] ==> Edited(body, edits) == Failed(NoRange)
    ensures edits != [] && Edited(body, edits).Failed? ==>
            exists i :: 0 <= i < |edits| && !Clear(body, edits, -1, i)
                        && (forall j :: 0 <= j < i ==> Clear(body, edits, -1, j))
                        && Edited(body, edits) == Failed(Complaint(body, edits[i]))
  {
    CheckEditsMeans(body, edits, -1);
    if edits != [] && Edited(body, edits).Failed? {
      var i := FirstComplaint(body, edits, -1);
    }
  }

  // ---- one operation -----------------------------------------------------------------------

  // The first file of that name is here.
  predicate FirstNamed(files: seq<NamedFile>, i: int, name: Text) {
    0 <= i < |files| && files[i].name == name && forall k :: 0 <= k < i ==> files[k].name != name
  }

  predicate NoneNamed(files: seq<NamedFile>, name: Text) {
    forall f <- files :: f.name != name
  }

  lemma FindIsFirst(files: seq<NamedFile>, name: Text)
    ensures if FindFile(files, name) == |files| then NoneNamed(files, name)
            else FirstNamed(files, FindFile(files, name), name)
  {
  }

  // Before the last file, at the end, or before the first file of a name.
  predicate PlacedAt(files: seq<NamedFile>, at: int, place: Place) {
    match place
    case BeforeRoot => at == |files| - 1
    case AtEnd => at == |files|
    case Before(name) => FirstNamed(files, at, name)
  }

  // A new file's body when none is given: a comment of its name without `.circ`.
  ghost predicate SeededWith(body: Text, name: Text) {
    exists stem: Text :: name == stem + DOT_CIRC && body == [SLASH, SLASH, SPACE] + stem + [LF]
  }

  predicate EditDone(d: Draft, name: Text, edits: seq<TextEdit>, e: Draft) {
    exists i :: 0 <= i < |d.files| && FirstNamed(d.files, i, name)
                && Edited(d.files[i].body, edits).Ok?
                && e == d.(files := d.files[..i] + [NamedFile(name, Edited(d.files[i].body, edits).value)] + d.files[i + 1..])
  }

  // The rest keep their order around the new file, and the active file stays active.
  ghost predicate CreateDone(d: Draft, name: Text, given: Option<Text>, place: Place, e: Draft) {
    exists at: nat, body: Text ::
      && at <= |d.files| && PlacedAt(d.files, at, place)
      && (if given.Some? then body == given.value else SeededWith(body, name))
      && e.files == d.files[..at] + [NamedFile(name, body)] + d.files[at..]
      && e.active == (if d.active < at then d.active else d.active + 1)
      && e.renamed == d.renamed && e.deleted == d.deleted && e.created == d.created + [name] && e.destructive
  }

  predicate RenamedAt(d: Draft, i: nat, name: Text, newName: Text, e: Draft) {
    && FirstNamed(d.files, i, name)
    && e == d.(files := d.files[..i] + [NamedFile(newName, d.files[i].body)] + d.files[i + 1..],
               renamed := d.renamed + if name == newName then [] else [Renaming(name, newName)])
  }

  predicate RenameDone(d: Draft, name: Text, newName: Text, e: Draft) {
    exists i :: 0 <= i < |d.files| && RenamedAt(d, i, name, newName, e)
  }

  // With the active file gone the one after it is active, or the new last.
  predicate DeleteDone(d: Draft, name: Text, e: Draft) {
    exists i :: 0 <= i < |d.files| && FirstNamed(d.files, i, name) && |d.files| > 1
                && e.files == d.files[..i] + d.files[i + 1..]
                && e.active == (if d.active < i then d.active
                                else if d.active > i then d.active - 1
                                else if i + 1 < |d.files| then i else i - 1)
                && e.renamed == d.renamed && e.created == d.created && e.deleted == d.deleted + [name] && e.destructive
  }

  ghost predicate DoneBy(d: Draft, m: Mutation, e: Draft) {
    match m
    case Edit(name, edits) => EditDone(d, name, edits, e)
    case Create(name, given, place) => CreateDone(d, name, given, place, e)
    case Rename(name, newName) => RenameDone(d, name, newName, e)
    case Delete(name) => DeleteDone(d, name, e)
  }

  lemma Replacing(files: seq<NamedFile>, i: nat, f: NamedFile)
    requires i < |files|
    ensures files[i := f] == files[..i] + [f] + files[i + 1..]
    ensures files[i] == f ==> files == files[..i] + [f] + files[i + 1..]
  {
  }

  lemma EditIsDone(d: Draft, name: Text, edits: seq<TextEdit>)
    requires StepEdit(d, name, edits).Ok?
    ensures EditDone(d, name, edits, StepEdit(d, name, edits).value)
  {
    var i := FindFile(d.files, name);
    FindIsFirst(d.files, name);
    Replacing(d.files, i, NamedFile(name, Edited(d.files[i].body, edits).value));
  }

  lemma SeedIs(name: Text)
    requires ValidFileName(name)
    ensures SeededWith(SeedBody(name), name)
  {
    var stem := name[..|name| - 5];
    assert name == stem + DOT_CIRC;
    assert SeedBody(name) == [SLASH, SLASH, SPACE] + stem + [LF];
  }

  lemma PlaceIs(files: seq<NamedFile>, place: Place)
    requires PlaceIndex(files, place).Some?
    ensures var at := PlaceIndex(files, place).value; at <= |files| && PlacedAt(files, at, place)
  {
    if place.Before? {
      FindIsFirst(files, place.name);
    }
  }

  lemma InsertIsDone(d: Draft, name: Text, given: Option<Text>, body: Text, place: Place)
    requires InsertNew(d, name, body, place).Ok?
    requires if given.Some? then body == given.value else SeededWith(body, name)
    ensures CreateDone(d, name, given, place, InsertNew(d, name, body, place).value)
  {
    var at := PlaceIndex(d.files, place).value;
    PlaceIs(d.files, place);
    assert InsertNew(d, name, body, place).value.files == d.files[..at] + [NamedFile(name, body)] + d.files[at..];
  }

  lemma CreateIsDone(d: Draft, name: Text, given: Option<Text>, place: Place)
    requires StepCreate(d, name, given, place).Ok?
    ensures CreateDone(d, name, given, place, StepCreate(d, name, given, place).value)
  {
    if given.None? {
      SeedIs(name);
      InsertIsDone(d, name, given, SeedBody(name), place);
    } else {
      InsertIsDone(d, name, given, given.value, place);
    }
  }

  // The file renamed is given its new name and keeps its body and its place.
  lemma RenamedFiles(files: seq<NamedFile>, i: nat, newName: Text)
    requires i < |files|
    ensures var f := NamedFile(newName, files[i].body);
            && files[i := f] == files[..i] + [f] + files[i + 1..]
            && (files[i].name == newName ==> files == files[..i] + [f] + files[i + 1..])
  {
    Replacing(files, i, NamedFile(newName, files[i].body));
  }

  lemma RenameIsDone(d: Draft, name: Text, newName: Text)
    requires StepRename(d, name, newName).Ok?
    ensures RenameDone(d, name, newName, StepRename(d, name, newName).value)
  {
    var i := FindFile(d.files, name);
    FindIsFirst(d.files, name);
    RenamedFiles(d.files, i, newName);
    if name == newName {
      assert d.renamed + [] == d.renamed;
    }
    assert RenamedAt(d, i, name, newName, StepRename(d, name, newName).value);
  }

  lemma DeleteIsDone(d: Draft, name: Text)
    requires StepDelete(d, name).Ok?
    ensures DeleteDone(d, name, StepDelete(d, name).value)
  {
    FindIsFirst(d.files, name);
    assert FirstNamed(d.files, FindFile(d.files, name), name);
  }

  // What a successful operation has done to the files, the active index and the lists.
  lemma StepIsDone(d: Draft, m: Mutation)
    requires Step(d, m).Ok?
    ensures DoneBy(d, m, Step(d, m).value)
  {
    match m
    case Edit(name, edits) => EditIsDone(d, name, edits);
    case Create(name, given, place) => CreateIsDone(d, name, given, place);
    case Rename(name, newName) => RenameIsDone(d, name, newName);
    case Delete(name) => DeleteIsDone(d, name);
  }

  // ---- refusals ------------------------------------------------------------------------------

  // Some file but the first of that name goes by the new name.
  predicate TakenByAnother(files: seq<NamedFile>, name: Text, newName: Text) {
    exists i, k :: 0 <= i < |files| && FirstNamed(files, i, name) && 0 <= k < |files| && k != i && files[k].name == newName
  }

  // A name of the marker format's form, of at most 256 units.
  predicate NameRule(name: Text) {
    |name| <= 256 && M.NameLike(name)
  }

  lemma NameIs(name: Text)
    ensures ValidFileName(name) <==> NameRule(name)
  {
    FileNameShape(name);
    M.NameLikeIs(name);
    if M.NameLike(name) {
      assert forall i :: 0 <= i < |name| ==> M.WordLike(name[i]) && name[i] < 0xD800;
      PlainWellFormed(name);
    }
  }

  predicate NoPlace(files: seq<NamedFile>, place: Place) {
    match place
    case BeforeRoot => files == []
    case AtEnd => false
    case Before(name) => NoneNamed(files, name)
  }

  // Why an operation is refused, and that it is.
  predicate RefusedFor(d: Draft, m: Mutation, why: Mutations.Reason) {
    match m
    case Edit(name, edits) =>
      if NoneNamed(d.files, name) then why == NoSuchFile
      else exists i :: 0 <= i < |d.files| && FirstNamed(d.files, i, name) && Edited(d.files[i].body, edits).Failed?
                       && why == BadEdit(Edited(d.files[i].body, edits).error)
    case Create(name, given, place) =>
      if !NameRule(name) || !NoneNamed(d.files, name) then why == NameTaken
      else if given.Some? && !WellFormed(given.value) then why == BadBody
      else NoPlace(d.files, place) && why == NoSuchPlace
    case Rename(name, newName) =>
      (NoneNamed(d.files, name) || !NameRule(newName) || TakenByAnother(d.files, name, newName)) && why == BadRename
    case Delete(name) =>
      (NoneNamed(d.files, name) || |d.files| == 1) && why == MissingOrLast
  }

  lemma EditRefusal(d: Draft, name: Text, edits: seq<TextEdit>, why: Mutations.Reason)
    ensures StepEdit(d, name, edits) == Failed(why) <==> RefusedFor(d, Edit(name, edits), why)
  {
    FindIsFirst(d.files, name);
    var i := FindFile(d.files, name);
    if i < |d.files| {
      assert d.files[i] in d.files;
    }
  }

  // A comment of a well-formed name is well-formed.
  lemma SeedWellFormed(name: Text)
    requires ValidFileName(name)
    ensures WellFormed(SeedBody(name))
  {
    StemWellFormed(name);
    CommentWellFormed(name[..|name| - 5]);
  }

  lemma StemWellFormed(name: Text)
    requires ValidFileName(name)
    ensures WellFormed(name[..|name| - 5])
  {
    assert name[|name| - 5..][0] == 46;
    assert name[0..|name| - 5] == name[..|name| - 5];
    WellFormedSlice(name, 0, |name| - 5);
  }

  lemma CommentWellFormed(stem: Text)
    requires WellFormed(stem)
    ensures WellFormed(MarkerLine(stem) + [LF])
  {
    PlainWellFormed([SLASH, SLASH, SPACE]);
    PlainWellFormed([LF]);
    WellFormedConcat([SLASH, SLASH, SPACE], stem);
    WellFormedConcat(MarkerLine(stem), [LF]);
  }

  lemma CreateRefusal(d: Draft, name: Text, given: Option<Text>, place: Place, why: Mutations.Reason)
    ensures StepCreate(d, name, given, place) == Failed(why) <==> RefusedFor(d, Create(name, given, place), why)
  {
    FindIsFirst(d.files, name);
    NameIs(name);
    if ValidFileName(name) {
      SeedWellFormed(name);
    }
    if place.Before? {
      FindIsFirst(d.files, place.name);
    }
    assert FindFile(d.files, name) < |d.files| <==> !NoneNamed(d.files, name);
    assert PlaceIndex(d.files, place).None? <==> NoPlace(d.files, place);
  }

  lemma RenameRefusal(d: Draft, name: Text, newName: Text, why: Mutations.Reason)
    ensures StepRename(d, name, newName) == Failed(why) <==> RefusedFor(d, Rename(name, newName), why)
  {
    FindIsFirst(d.files, name);
    NameIs(newName);
    var i := FindFile(d.files, name);
    if i < |d.files| {
      assert d.files[i] in d.files && FirstNamed(d.files, i, name);
      assert Clashes(d.files, i, newName) <==> TakenByAnother(d.files, name, newName);
    }
  }

  lemma DeleteRefusal(d: Draft, name: Text, why: Mutations.Reason)
    ensures StepDelete(d, name) == Failed(why) <==> RefusedFor(d, Delete(name), why)
  {
    FindIsFirst(d.files, name);
    var i := FindFile(d.files, name);
    if i < |d.files| {
      assert d.files[i] in d.files;
    }
  }

  // An operation is refused exactly for the reason there is.
  lemma StepIsRefused(d: Draft, m: Mutation, why: Mutations.Reason)
    ensures Step(d, m) == Failed(why) <==> RefusedFor(d, m, why)
  {
    match m
    case Edit(name, edits) => EditRefusal(d, name, edits, why);
    case Create(name, given, place) => CreateRefusal(d, name, given, place, why);
    case Rename(name, newName) => RenameRefusal(d, name, newName, why);
    case Delete(name) => DeleteRefusal(d, name, why);
  }

  // ---- a batch -------------------------------------------------------------------------------

  // The files and lists before the first operation and after each.
  ghost predicate RunOf(d: Draft, ops: seq<Mutation>, ds: seq<Draft>) {
    |ds| == |ops| + 1 && ds[0] == d && forall i :: 0 <= i < |ops| ==> DoneBy(ds[i], ops[i], ds[i + 1])
  }

  lemma RunMore(d: Draft, ops: seq<Mutation>, ds: seq<Draft>, m: Mutation)
    requires RunOf(d, ops, ds) && Step(ds[|ops|], m).Ok?
    ensures RunOf(d, ops + [m], ds + [Step(ds[|ops|], m).value])
  {
    var next := Step(ds[|ops|], m).value;
    StepIsDone(ds[|ops|], m);
    forall i | 0 <= i < |ops + [m]|
      ensures DoneBy((ds + [next])[i], (ops + [m])[i], (ds + [next])[i + 1])
    {
      if i < |ops| {
        assert DoneBy(ds[i], ops[i], ds[i + 1]);
      }
    }
  }

  // The operations up to the first refused, which is reported under its name.
  ghost predicate StopsAt(ops: seq<Mutation>, ds: seq<Draft>, f: Failure) {
    && 0 <= f.operation < |ops| && |ds| == f.operation + 1 && RefusedFor(ds[f.operation], ops[f.operation], f.reason)
    && f.file == if ops[f.operation].name == [] then None else Some(ops[f.operation].name)
  }

  lemma {:induction false} StepsRun(d: Draft, ops: seq<Mutation>, from: nat, ds: seq<Draft>) returns (all: seq<Draft>)
    requires from <= |ops| && RunOf(d, ops[..from], ds)
    ensures match Steps(ds[from], ops, from)
            case Ok(e) => RunOf(d, ops, all) && all[|ops|] == e
            case Failed(f) => StopsAt(ops, all, f) && RunOf(d, ops[..f.operation], all)
    decreases |ops| - from
  {
    all := ds;
    if from == |ops| {
      assert ops[..from] == ops;
    } else {
      match Step(ds[from], ops[from])
      case Failed(why) => StepIsRefused(ds[from], ops[from], why);
      case Ok(next) =>
        RunMore(d, ops[..from], ds, ops[from]);
        assert ops[..from + 1] == ops[..from] + [ops[from]];
        all := StepsRun(d, ops, from + 1, ds + [next]);
    }
  }

  // ---- what is reported ------------------------------------------------------------------------

  function Renamings(ops: seq<Mutation>): seq<Renaming> {
    if ops == [] then [] else
    var m := ops[|ops| - 1];
    Renamings(ops[..|ops| - 1]) + if m.Rename? && m.name != m.newName then [Renaming(m.name, m.newName)] else []
  }

  function Created(ops: seq<Mutation>): seq<Text> {
    if ops == [] then []
    else Created(ops[..|ops| - 1]) + if ops[|ops| - 1].Create? then [ops[|ops| - 1].name] else []
  }

  function Deleted(ops: seq<Mutation>): seq<Text> {
    if ops == [] then []
    else Deleted(ops[..|ops| - 1]) + if ops[|ops| - 1].Delete? then [ops[|ops| - 1].name] else []
  }

  // The lists hold what was renamed, made and deleted, in order.
  predicate Listed(d: Draft, ops: seq<Mutation>, e: Draft) {
    && e.renamed == d.renamed + Renamings(ops) && e.created == d.created + Created(ops)
    && e.deleted == d.deleted + Deleted(ops) && (e.destructive <==> d.destructive || Created(ops) + Deleted(ops) != [])
  }

  lemma ListedMore(d: Draft, ops: seq<Mutation>, e: Draft, m: Mutation, next: Draft)
    requires Listed(d, ops, e) && DoneBy(e, m, next)
    ensures Listed(d, ops + [m], next)
  {
    assert (ops + [m])[..|ops|] == ops;
  }

  lemma RunFront(d: Draft, ops: seq<Mutation>, ds: seq<Draft>, n: nat)
    requires RunOf(d, ops, ds) && |ops| == n + 1
    ensures RunOf(d, ops[..n], ds[..n + 1]) && ds[..n + 1][n] == ds[n] && DoneBy(ds[n], ops[n], ds[n + 1])
    ensures ops == ops[..n] + [ops[n]]
  {
    forall i | 0 <= i < n
      ensures DoneBy(ds[..n + 1][i], ops[..n][i], ds[..n + 1][i + 1])
    {
      assert DoneBy(ds[i], ops[i], ds[i + 1]);
    }
  }

  lemma {:induction false} RunLists(d: Draft, ops: seq<Mutation>, ds: seq<Draft>)
    requires RunOf(d, ops, ds)
    ensures Listed(d, ops, ds[|ops|])
  {
    if ops != [] {
      var n := |ops| - 1;
      RunFront(d, ops, ds, n);
      RunLists(d, ops[..n], ds[..n + 1]);
      ListedMore(d, ops[..n], ds[n], ops[n], ds[n + 1]);
    }
  }

  // The file of the active name to begin with, or the last.
  lemma StartIs(initial: seq<NamedFile>, activeName: Text)
    ensures var d := Start(initial, activeName);
            && d == Draft(initial, d.active, [], [], [], false)
            && (NoneNamed(initial, activeName) ==> d.active == if initial == [] then 0 else |initial| - 1)
            && (!NoneNamed(initial, activeName) ==> FirstNamed(initial, d.active, activeName))
  {
    FindIsFirst(initial, activeName);
  }

  function AllEdits(ops: seq<Mutation>): seq<TextEdit> {
    if ops == [] then [] else (if ops[0].Edit? then ops[0].edits else []) + AllEdits(ops[1..])
  }

  lemma {:induction false} EditsCounted(ops: seq<Mutation>)
    ensures CountEdits(ops) == |AllEdits(ops)|
  {
    if ops != [] {
      EditsFront(ops);
      EditsCounted(ops[1..]);
    }
  }

  lemma {:induction false} EditsFront(ops: seq<Mutation>)
    requires ops != []
    ensures CountEdits(ops) == (if ops[0].Edit? then |ops[0].edits| else 0) + CountEdits(ops[1..])
  {
    var n := |ops| - 1;
    if n > 0 {
      EditsFront(ops[..n]);
      assert ops[..n][1..] == ops[1..][..n - 1];
    } else {
      assert ops[..0] == [];
    }
  }

  // An accepted batch: each operation in turn, from the files as they were, with
  // nothing left that would not survive the format, and the lists of what was done.
  lemma PlanIsRun(initial: seq<NamedFile>, activeName: Text, ops: seq<Mutation>) returns (ds: seq<Draft>)
    requires Planned(initial, activeName, ops).Ok?
    ensures RunOf(Start(initial, activeName), ops, ds) && 1 <= |ops| <= 64 && |AllEdits(ops)| <= 256
    ensures var plan := Planned(initial, activeName, ops).value;
            && plan.files == ds[|ops|].files && plan.active == ds[|ops|].active
            && (plan.changed <==> plan.files != initial)
            && plan.renamed == Renamings(ops) && plan.created == Created(ops) && plan.deleted == Deleted(ops)
            && (plan.changed || Created(ops) + Deleted(ops) == [])
            && Conflicts(plan.files) == [] && |plan.files| <= 128
  {
    var start := Start(initial, activeName);
    assert RunOf(start, ops[..0], [start]);
    EditsCounted(ops);
    ds := StepsRun(start, ops, 0, [start]);
    RunLists(start, ops, ds);
  }

  // A refused batch: too long, too many edits, the first operation that is refused as
  // things stand by then, or what comes of them all.
  lemma PlanStops(initial: seq<NamedFile>, activeName: Text, ops: seq<Mutation>) returns (ds: seq<Draft>)
    requires Planned(initial, activeName, ops).Failed?
    ensures var f := Planned(initial, activeName, ops).error;
            if |ops| < 1 || |ops| > 64 then f == Failure(-1, BatchSize, None)
            else if |AllEdits(ops)| > 256 then f == Failure(-1, TooManyEdits, None)
            else if f.operation >= 0 then
              StopsAt(ops, ds, f) && RunOf(Start(initial, activeName), ops[..f.operation], ds)
            else RunOf(Start(initial, activeName), ops, ds) && Unfit(initial, ops, ds[|ops|].files, f.reason)
  {
    var start := Start(initial, activeName);
    assert RunOf(start, ops[..0], [start]);
    EditsCounted(ops);
    ds := StepsRun(start, ops, 0, [start]);
    RoundTripNeverRejects(initial, activeName, ops);
    if Steps(start, ops, 0).Ok? {
      RunLists(start, ops, ds);
    }
  }

  // What stops a batch whose operations all went through.
  predicate Unfit(initial: seq<NamedFile>, ops: seq<Mutation>, files: seq<NamedFile>, why: Mutations.Reason) {
    if Conflicts(files) != [] then why == Unjoinable(Conflicts(files)[0].reason)
    else if |files| > 128 then why == TooManyFiles
    else files == initial && Created(ops) + Deleted(ops) != [] && why == DestructiveNoOp
  }
}
