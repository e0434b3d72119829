// The project marker format: many files in one text, each opened by a
// `// <name>.circ` line (site/src/utils/split-files.ts).
module SplitFiles {
  import opened Collections
  import opened Wrappers
  import opened Utf16

  datatype NamedFile = NamedFile(name: Text, body: Text)

  datatype SplitFile = SplitFile(name: Text, body: Text, startLine: nat) {
    function Named(): NamedFile {
      NamedFile(name, body)
    }
  }

  const SLASH: Unit := 47
  const SPACE: Unit := 32
  const DOT_CIRC: Text := [46, 99, 105, 114, 99]
  const MAIN_CIRC: Text := [109, 97, 105, 110, 46, 99, 105, 114, 99]

  // ---- markers -------------------------------------------------------------------

  // `[\w_.-]`
  predicate IsNameUnit(u: Unit) {
    48 <= u <= 57 || 65 <= u <= 90 || 97 <= u <= 122 || u == 95 || u == 46 || u == 45
  }

  // `[\w_.-]+\.circ`
  predicate IsNameShape(name: Text) {
    && |name| > 5
    && name[|name| - 5..] == DOT_CIRC
    && forall i :: 0 <= i < |name| ==> IsNameUnit(name[i])
  }

  function TrimStart(s: Text): (t: Text)
    ensures |t| <= |s|
    ensures t != [] ==> !IsSpace(t[0])
  {
    if s != [] && IsSpace(s[0]) then TrimStart(s[1..]) else s
  }

  function TrimEnd(s: Text): (t: Text)
    ensures |t| <= |s|
    ensures t != [] ==> !IsSpace(t[|t| - 1]) && t[0] == s[0]
  {
    if s != [] && IsSpace(s[|s| - 1]) then TrimEnd(s[..|s| - 1]) else s
  }

  // The name `/^\/\/\s+([\w_.-]+\.circ)\s*$/` captures. A name holds no white
  // space, so the capture is whatever lies between the two runs of it.
  function MarkerName(line: Text): (name: Option<Text>)
    ensures name.Some? ==> IsNameShape(name.value)
  {
    if |line| >= 3 && line[0] == SLASH && line[1] == SLASH && IsSpace(line[2]) then
      var name := TrimEnd(TrimStart(line[2..]));
      if IsNameShape(name) then Some(name) else None
    else None
  }

  predicate IsMarker(line: Text) {
    MarkerName(line).Some?
  }

  // `// ${name}`
  function MarkerLine(name: Text): Text {
    [SLASH, SLASH, SPACE] + name
  }

  predicate IsFileName(name: Text) {
    MarkerName(MarkerLine(name)) == Some(name)
  }

  // A legal file name is exactly one of the marker's own shape.
  lemma FileNameShape(name: Text)
    ensures IsFileName(name) <==> IsNameShape(name)
    ensures IsNameShape(name) ==> Bare(MarkerLine(name)) && !Blank(MarkerLine(name))
  {
    if IsNameShape(name) {
      assert IsNameUnit(name[0]) && IsNameUnit(name[|name| - 1]);
      assert MarkerLine(name)[2..] == [SPACE] + name;
      assert ([SPACE] + name)[1..] == name;
      assert TrimStart([SPACE] + name) == name;
      assert MarkerLine(name)[0] == SLASH;
      forall u | u in MarkerLine(name)
        ensures u != LF
      {
      }
    }
  }

  // ---- splitting -------------------------------------------------------------------

  // White space and nothing else.
  predicate Blank(line: Text) {
    forall i :: 0 <= i < |line| ==> IsSpace(line[i])
  }

  // A line with what the format reads off it: the name it marks, if any, and
  // whether it is blank.
  datatype Line = Line(text: Text, name: Option<Text>, blank: bool)

  function Look(text: Text): Line {
    Line(text, MarkerName(text), Blank(text))
  }

  function LookAll(texts: seq<Text>): (lines: seq<Line>)
    ensures |lines| == |texts|
    ensures forall i :: 0 <= i < |lines| ==> lines[i] == Look(texts[i])
  {
    seq(|texts|, i requires 0 <= i < |texts| => Look(texts[i]))
  }

  function Texts(lines: seq<Line>): (texts: seq<Text>)
    ensures |texts| == |lines|
    ensures forall i :: 0 <= i < |texts| ==> texts[i] == lines[i].text
  {
    seq(|lines|, i requires 0 <= i < |lines| => lines[i].text)
  }

  function ReadLines(source: Text): (lines: seq<Line>)
    ensures lines != []
  {
    LookAll(SplitLines(source))
  }

  predicate HasContent(body: seq<Line>) {
    exists i :: 0 <= i < |body| && !body[i].blank
  }

  // A file as its body lines.
  datatype Open = Open(name: Text, body: seq<Line>, startLine: nat) {
    function Closed(): SplitFile {
      SplitFile(name, JoinLines(Texts(body)), startLine)
    }
  }

  // `cur` and every file after it, given the lines not yet read; `at` is the
  // number of lines read.
  function SplitFrom(rest: seq<Line>, at: nat, cur: Open): (files: seq<Open>)
    ensures files != []
  {
    if rest == [] then [cur]
    else if rest[0].name.Some? && HasContent(cur.body) then
      [cur] + SplitFrom(rest[1..], at + 1, Open(rest[0].name.value, [], at + 1))
    else SplitFrom(rest[1..], at + 1, cur.(body := cur.body + [rest[0]]))
  }

  // The first file: opened by a leading marker, or the unnamed one.
  function SplitOpens(lines: seq<Line>): (files: seq<Open>)
    requires lines != []
    ensures files != []
  {
    if lines[0].name.Some? then SplitFrom(lines[1..], 1, Open(lines[0].name.value, [], 1))
    else SplitFrom(lines, 0, Open(MAIN_CIRC, [], 0))
  }

  function CloseAll(opens: seq<Open>): (files: seq<SplitFile>)
    ensures |files| == |opens|
    ensures forall i :: 0 <= i < |files| ==> files[i] == opens[i].Closed()
  {
    seq(|opens|, i requires 0 <= i < |opens| => opens[i].Closed())
  }

  function Split(source: Text): (files: seq<SplitFile>)
    ensures files != []
  {
    CloseAll(SplitOpens(ReadLines(source)))
  }

  function NamesAndBodies(files: seq<SplitFile>): (named: seq<NamedFile>)
    ensures |named| == |files|
    ensures forall i :: 0 <= i < |files| ==> named[i] == files[i].Named()
  {
    seq(|files|, i requires 0 <= i < |files| => files[i].Named())
  }

  // The scan for a line that is not blank.
  method SomeContent(body: seq<Line>) returns (some: bool)
    ensures some == HasContent(body)
  {
    for i := 0 to |body|
      invariant forall k :: 0 <= k < i ==> body[k].blank
    {
      if !body[i].blank {
        return true;
      }
    }
    return false;
  }

  // One line read: the file in hand is done, or takes it.
  lemma SplitStep(lines: seq<Line>, i: nat, done: seq<Open>, cur: Open)
    requires i < |lines|
    ensures var line := lines[i];
            done + SplitFrom(lines[i..], i, cur) ==
            if line.name.Some? && HasContent(cur.body)
            then done + [cur] + SplitFrom(lines[i + 1..], i + 1, Open(line.name.value, [], i + 1))
            else done + SplitFrom(lines[i + 1..], i + 1, cur.(body := cur.body + [line]))
  {
    assert lines[i..][1..] == lines[i + 1..];
    var rest := SplitFrom(lines[i + 1..], i + 1, Open(if lines[i].name.Some? then lines[i].name.value else [], [], i + 1));
    assert done + ([cur] + rest) == done + [cur] + rest;
  }

  lemma SplitStart(lines: seq<Line>)
    requires lines != []
    ensures SplitOpens(lines) ==
            [] + SplitFrom(lines[1..], 1, if lines[0].name.Some? then Open(lines[0].name.value, [], 1) else Open(MAIN_CIRC, [] + [lines[0]], 0))
  {
    SplitStep(lines, 0, [], Open(MAIN_CIRC, [], 0));
    assert lines[0..] == lines;
  }

  // The loop over the lines, with the file in hand and those done.
  method SplitOpensOf(lines: seq<Line>) returns (opens: seq<Open>)
    requires lines != []
    ensures opens == SplitOpens(lines)
  {
    var done: seq<Open> := [];
    var cur: Option<Open> := None;
    for i := 0 to |lines|
      invariant cur.None? <==> i == 0
      invariant cur.None? ==> done == []
      invariant cur.Some? ==> SplitOpens(lines) == done + SplitFrom(lines[i..], i, cur.value)
    {
      var line := lines[i];
      var content := true;
      if cur.Some? {
        content := SomeContent(cur.value.body);
        SplitStep(lines, i, done, cur.value);
      } else {
        SplitStart(lines);
      }
      if line.name.Some? && (cur.None? || content) {
        if cur.Some? {
          done := done + [cur.value];
        }
        cur := Some(Open(line.name.value, [], i + 1));
      } else {
        if cur.None? {
          cur := Some(Open(MAIN_CIRC, [], 0));
        }
        cur := Some(cur.value.(body := cur.value.body + [line]));
      }
    }
    assert lines[|lines|..] == [];
    opens := done + [cur.value];
  }

  method SplitFilesOf(source: Text) returns (files: seq<SplitFile>)
    ensures files == Split(source)
  {
    var opens := SplitOpensOf(ReadLines(source));
    files := CloseAll(opens);
  }

  // ---- joining ---------------------------------------------------------------------

  // The first file goes unmarked if it is `main.circ` and its body opens with no marker.
  predicate OmitsMarker(f: NamedFile, i: nat) {
    i == 0 && f.name == MAIN_CIRC && !IsMarker(SplitLines(f.body)[0])
  }

  function Segment(f: NamedFile, i: nat): Text {
    if OmitsMarker(f, i) then f.body else MarkerLine(f.name) + [LF] + f.body
  }

  function Segments(files: seq<NamedFile>): (segments: seq<Text>)
    ensures |segments| == |files|
  {
    seq(|files|, i requires 0 <= i < |files| => Segment(files[i], i))
  }

  function JoinFiles(files: seq<NamedFile>): Text {
    JoinLines(Segments(files))
  }

  // ---- conflicts -------------------------------------------------------------------

  datatype Reason = BlankBody | MarkerInBody | IllegalName | DuplicateName

  datatype Conflict = Conflict(index: nat, reason: Reason)

  // A marker line after some content.
  predicate InterruptedAt(body: seq<Line>, k: nat)
    requires k < |body|
  {
    body[k].name.Some? && HasContent(body[..k])
  }

  predicate Interrupted(body: seq<Line>) {
    exists k :: 0 <= k < |body| && InterruptedAt(body, k)
  }

  predicate Repeats(files: seq<NamedFile>, i: nat)
    requires i < |files|
  {
    files[i].name in NamesOf(files[..i])
  }

  function NamesOf(files: seq<NamedFile>): set<Text> {
    set j | 0 <= j < |files| :: files[j].name
  }

  lemma NamesSnoc(files: seq<NamedFile>, i: nat)
    requires i < |files|
    ensures NamesOf(files[..i + 1]) == NamesOf(files[..i]) + {files[i].name}
  {
    forall name | name in NamesOf(files[..i]) + {files[i].name}
      ensures name in NamesOf(files[..i + 1])
    {
      assert files[..i + 1][i] == files[i];
      if name in NamesOf(files[..i]) {
        var j :| 0 <= j < i && files[..i][j].name == name;
        assert files[..i + 1][j].name == name;
      }
    }
  }

  predicate Fault(files: seq<NamedFile>, i: nat, reason: Reason)
    requires i < |files|
  {
    var lines := ReadLines(files[i].body);
    match reason
    case IllegalName => !IsFileName(files[i].name)
    case DuplicateName => Repeats(files, i)
    case BlankBody => i < |files| - 1 && !HasContent(lines)
    case MarkerInBody => Interrupted(lines)
  }

  // One file's faults, in the order they are reported.
  datatype Findings = Findings(illegal: bool, duplicate: bool, blank: bool, interrupted: bool) {
    predicate Has(reason: Reason) {
      match reason
      case IllegalName => illegal
      case DuplicateName => duplicate
      case BlankBody => blank
      case MarkerInBody => interrupted
    }

    function Report(i: nat): seq<Conflict> {
      (if illegal then [Conflict(i, IllegalName)] else [])
      + (if duplicate then [Conflict(i, DuplicateName)] else [])
      + (if blank then [Conflict(i, BlankBody)] else [])
      + (if interrupted then [Conflict(i, MarkerInBody)] else [])
    }
  }

  function FindingsAt(files: seq<NamedFile>, i: nat): Findings
    requires i < |files|
  {
    Findings(Fault(files, i, IllegalName), Fault(files, i, DuplicateName),
             Fault(files, i, BlankBody), Fault(files, i, MarkerInBody))
  }

  function AllFindings(files: seq<NamedFile>): (table: seq<Findings>)
    ensures |table| == |files|
    ensures forall i :: 0 <= i < |files| ==> table[i] == FindingsAt(files, i)
  {
    seq(|files|, i requires 0 <= i < |files| => FindingsAt(files, i))
  }

  function Reports(table: seq<Findings>): (rows: seq<seq<Conflict>>)
    ensures |rows| == |table|
    ensures forall i :: 0 <= i < |table| ==> rows[i] == table[i].Report(i)
  {
    seq(|table|, i requires 0 <= i < |table| => table[i].Report(i))
  }

  lemma {:induction false} InFlatten<T>(rows: seq<seq<T>>, x: T)
    ensures x in Flatten(rows) <==> exists i :: 0 <= i < |rows| && x in rows[i]
  {
    if rows != [] {
      InFlatten(rows[..|rows| - 1], x);
    }
  }

  function Conflicts(files: seq<NamedFile>): seq<Conflict> {
    Flatten(Reports(AllFindings(files)))
  }

  lemma ContentSnoc(body: seq<Line>, line: Line)
    ensures HasContent(body + [line]) <==> HasContent(body) || !line.blank
  {
    if HasContent(body) {
      var i :| 0 <= i < |body| && !body[i].blank;
      assert !(body + [line])[i].blank;
    }
    if !line.blank {
      assert !(body + [line])[|body|].blank;
    }
  }

  // The scan for a marker after content.
  method FindsInterruption(lines: seq<Line>) returns (found: bool)
    ensures found == Interrupted(lines)
  {
    var sawContent := false;
    for k := 0 to |lines|
      invariant sawContent == HasContent(lines[..k])
      invariant forall j :: 0 <= j < k ==> !InterruptedAt(lines, j)
    {
      if sawContent && lines[k].name.Some? {
        assert InterruptedAt(lines, k);
        return true;
      }
      assert lines[..k + 1] == lines[..k] + [lines[k]];
      ContentSnoc(lines[..k], lines[k]);
      if !lines[k].blank {
        sawContent := true;
      }
    }
    return false;
  }

  // The body of the loop over files.
  method FindingsOf(files: seq<NamedFile>, i: nat, repeated: bool) returns (out: seq<Conflict>)
    requires i < |files| && repeated == Repeats(files, i)
    ensures out == FindingsAt(files, i).Report(i)
  {
    var lines := ReadLines(files[i].body);
    var content := SomeContent(lines);
    var interrupted := FindsInterruption(lines);
    out := ReportOf(Findings(!IsFileName(files[i].name), repeated, i != |files| - 1 && !content, interrupted), i);
  }

  method ReportOf(found: Findings, i: nat) returns (out: seq<Conflict>)
    ensures out == found.Report(i)
  {
    out := [];
    if found.illegal {
      out := out + [Conflict(i, IllegalName)];
    }
    if found.duplicate {
      out := out + [Conflict(i, DuplicateName)];
    }
    if found.blank {
      out := out + [Conflict(i, BlankBody)];
    }
    if found.interrupted {
      out := out + [Conflict(i, MarkerInBody)];
    }
  }

  method JoinConflicts(files: seq<NamedFile>) returns (out: seq<Conflict>)
    ensures out == Conflicts(files)
  {
    out := [];
    var seen: set<Text> := {};
    ghost var rows := Reports(AllFindings(files));
    for i := 0 to |files|
      invariant out == Flatten(rows[..i])
      invariant seen == NamesOf(files[..i])
    {
      var more := FindingsOf(files, i, files[i].name in seen);
      out := Extend(rows, i, out, more);
      NamesSnoc(files, i);
      seen := seen + {files[i].name};
    }
    assert rows[..|files|] == rows;
  }

  function Extend<T>(ghost rows: seq<seq<T>>, ghost i: nat, out: seq<T>, more: seq<T>): (longer: seq<T>)
    requires i < |rows| && out == Flatten(rows[..i]) && more == rows[i]
    ensures longer == Flatten(rows[..i + 1])
  {
    assert rows[..i + 1][..i] == rows[..i];
    out + more
  }

  lemma ReportMeans(row: Findings, i: nat, c: Conflict)
    ensures c in row.Report(i) <==> c.index == i && row.Has(c.reason)
  {
  }

  lemma ReportsMean(table: seq<Findings>, c: Conflict)
    ensures c in Flatten(Reports(table)) <==> c.index < |table| && table[c.index].Has(c.reason)
  {
    var rows := Reports(table);
    InFlatten(rows, c);
    forall k | 0 <= k < |rows|
      ensures c in rows[k] <==> k == c.index && table[k].Has(c.reason)
    {
      ReportMeans(table[k], k, c);
    }
  }

  lemma FindingsMean(files: seq<NamedFile>, i: nat, reason: Reason)
    requires i < |files|
    ensures FindingsAt(files, i).Has(reason) <==> Fault(files, i, reason)
  {
    match reason
    case IllegalName =>
    case DuplicateName =>
    case BlankBody =>
    case MarkerInBody =>
  }

  // A conflict is reported exactly when it is there.
  lemma ConflictsMean(files: seq<NamedFile>, i: nat, reason: Reason)
    ensures Conflict(i, reason) in Conflicts(files) <==> i < |files| && Fault(files, i, reason)
  {
    ReportsMean(AllFindings(files), Conflict(i, reason));
    if i < |files| {
      FindingsMean(files, i, reason);
    }
  }
}
