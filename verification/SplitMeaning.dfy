// The marker format read off the text itself (site/src/utils/split-files.ts).
module SplitMeaning {
  import opened Collections
  import opened Wrappers
  import opened Utf16
  import opened SplitFiles

  // ---- markers -----------------------------------------------------------------------------

  predicate AllSpace(s: Text) {
    forall i :: 0 <= i < |s| ==> IsSpace(s[i])
  }

  // A letter, a digit or one of `_.-`.
  predicate WordLike(u: Unit) {
    || '0' as int <= u <= '9' as int || 'A' as int <= u <= 'Z' as int || 'a' as int <= u <= 'z' as int
    || u == '_' as int || u == '.' as int || u == '-' as int
  }

  predicate Spelt(s: Text, word: string) {
    |s| == |word| && forall i :: 0 <= i < |s| ==> s[i] == word[i] as int
  }

  // Such units and then `.circ`.
  predicate NameLike(name: Text) {
    |name| > 5 && Spelt(name[|name| - 5..], ".circ") && forall i :: 0 <= i < |name| ==> WordLike(name[i])
  }

  // Two slashes, white space, the name, and maybe white space.
  ghost predicate Marks(line: Text, name: Text) {
    NameLike(name) && exists gap: Text, end: Text ::
      gap != [] && AllSpace(gap) && AllSpace(end) && line == [SLASH, SLASH] + gap + name + end
  }

  lemma NameLikeIs(name: Text)
    ensures NameLike(name) <==> IsNameShape(name)
  {
    if |name| > 5 {
      var tail := name[|name| - 5..];
      assert Spelt(tail, ".circ") <==> tail == DOT_CIRC;
    }
  }

  lemma {:induction false} TrimStartParts(s: Text) returns (gap: Text)
    ensures AllSpace(gap) && s == gap + TrimStart(s)
  {
    gap := [];
    if s != [] && IsSpace(s[0]) {
      var rest := TrimStartParts(s[1..]);
      gap := [s[0]] + rest;
    }
  }

  lemma {:induction false} TrimEndParts(s: Text) returns (end: Text)
    ensures AllSpace(end) && s == TrimEnd(s) + end
  {
    end := [];
    if s != [] && IsSpace(s[|s| - 1]) {
      var rest := TrimEndParts(s[..|s| - 1]);
      end := rest + [s[|s| - 1]];
    }
  }

  lemma {:induction false} TrimStartOver(gap: Text, s: Text)
    requires AllSpace(gap) && (s == [] || !IsSpace(s[0]))
    ensures TrimStart(gap + s) == s
  {
    if gap == [] {
      assert gap + s == s;
    } else {
      assert (gap + s)[1..] == gap[1..] + s;
      TrimStartOver(gap[1..], s);
    }
  }

  lemma {:induction false} TrimEndOver(s: Text, end: Text)
    requires AllSpace(end) && (s == [] || !IsSpace(s[|s| - 1]))
    ensures TrimEnd(s + end) == s
  {
    if end == [] {
      assert s + end == s;
    } else {
      assert (s + end)[..|s + end| - 1] == s + end[..|end| - 1];
      TrimEndOver(s, end[..|end| - 1]);
    }
  }

  lemma NameEnds(name: Text)
    requires NameLike(name)
    ensures name != [] && !IsSpace(name[0]) && !IsSpace(name[|name| - 1])
  {
    assert WordLike(name[0]) && WordLike(name[|name| - 1]);
  }

  lemma MarkedIs(line: Text, name: Text, gap: Text, end: Text)
    requires NameLike(name) && gap != [] && AllSpace(gap) && AllSpace(end) && line == [SLASH, SLASH] + gap + name + end
    ensures MarkerName(line) == Some(name)
  {
    NameEnds(name);
    assert line[2..] == gap + (name + end);
    assert (name + end)[0] == name[0];
    TrimStartOver(gap, name + end);
    TrimEndOver(name, end);
    NameLikeIs(name);
    assert line[2] == gap[0];
  }

  lemma GapThere(s: Text, gap: Text, rest: Text)
    requires s == gap + rest && s != [] && rest != [] && IsSpace(s[0]) && !IsSpace(rest[0])
    ensures gap != []
  {
  }

  lemma MarkerParts(line: Text)
    requires MarkerName(line).Some?
    ensures Marks(line, MarkerName(line).value)
  {
    var name := MarkerName(line).value;
    var gap := TrimStartParts(line[2..]);
    var end := TrimEndParts(TrimStart(line[2..]));
    NameLikeIs(name);
    NameEnds(name);
    assert line[2..] == gap + (name + end);
    GapThere(line[2..], gap, name + end);
    assert line == [SLASH, SLASH] + gap + name + end;
  }

  // A line names a file exactly when it has the marker's form.
  lemma MarkerMeans(line: Text, name: Text)
    ensures MarkerName(line) == Some(name) <==> Marks(line, name)
  {
    if MarkerName(line) == Some(name) {
      MarkerParts(line);
    }
    if Marks(line, name) {
      var gap, end :| gap != [] && AllSpace(gap) && AllSpace(end) && line == [SLASH, SLASH] + gap + name + end;
      MarkedIs(line, name, gap, end);
    }
  }

  ghost predicate MarksSome(line: Text) {
    exists name: Text :: Marks(line, name)
  }

  lemma MarksSomeIs(line: Text)
    ensures MarkerName(line).Some? <==> MarksSome(line)
  {
    if MarkerName(line).Some? {
      MarkerMeans(line, MarkerName(line).value);
    }
    if name: Text :| Marks(line, name) {
      MarkerMeans(line, name);
    }
  }

  // ---- content -----------------------------------------------------------------------------

  // Something other than white space.
  predicate Visible(s: Text) {
    exists i :: 0 <= i < |s| && !IsSpace(s[i])
  }

  predicate AnyVisible(lines: seq<Text>) {
    exists i :: 0 <= i < |lines| && Visible(lines[i])
  }

  lemma AnyFront(line: Text, lines: seq<Text>)
    ensures AnyVisible([line] + lines) <==> Visible(line) || AnyVisible(lines)
  {
    var all := [line] + lines;
    assert all[0] == line;
    assert forall i :: 0 <= i < |lines| ==> all[i + 1] == lines[i];
  }

  lemma VisibleFront(u: Unit, s: Text)
    ensures Visible([u] + s) <==> !IsSpace(u) || Visible(s)
  {
    var all := [u] + s;
    assert all[0] == u;
    assert forall i :: 0 <= i < |s| ==> all[i + 1] == s[i];
  }

  lemma {:induction false} LinesVisible(s: Text)
    ensures Visible(s) <==> AnyVisible(SplitLines(s))
  {
    if s == [] {
      AnyFront([], []);
    } else {
      var rest := SplitLines(s[1..]);
      LinesVisible(s[1..]);
      VisibleFront(s[0], s[1..]);
      assert s == [s[0]] + s[1..];
      if s[0] == LF {
        AnyFront([], rest);
      } else {
        VisibleFront(s[0], rest[0]);
        AnyFront([s[0]] + rest[0], rest[1..]);
        AnyFront(rest[0], rest[1..]);
        assert rest == [rest[0]] + rest[1..];
      }
    }
  }

  lemma BlankIs(s: Text)
    ensures Blank(s) <==> !Visible(s)
  {
  }

  lemma ContentIs(texts: seq<Text>)
    ensures HasContent(LookAll(texts)) <==> AnyVisible(texts)
  {
    forall i | 0 <= i < |texts|
      ensures LookAll(texts)[i].blank <==> !Visible(texts[i])
    {
      BlankIs(texts[i]);
    }
  }

  // A body has content when it has anything but white space.
  lemma ContentMeans(body: Text)
    ensures HasContent(ReadLines(body)) <==> Visible(body)
  {
    ContentIs(SplitLines(body));
    LinesVisible(body);
  }

  // A line of its own that marks a file, after something visible.
  ghost predicate MarkedAfter(body: Text, before: Text, line: Text, after: Text) {
    && Visible(before) && Bare(line) && MarksSome(line)
    && (body == before + [LF] + line || body == before + [LF] + line + [LF] + after)
  }

  ghost predicate MarksLater(body: Text) {
    exists before: Text, line: Text, after: Text :: MarkedAfter(body, before, line, after)
  }

  lemma {:induction false} JoinAt(lines: seq<Text>, k: nat)
    requires 0 < k < |lines|
    ensures JoinLines(lines) == JoinLines(lines[..k]) + [LF] + JoinLines(lines[k..])
  {
    if k == 1 {
      assert lines[..1] == [lines[0]];
    } else {
      JoinAt(lines[1..], k - 1);
      assert lines[1..][..k - 1] == lines[..k][1..] && lines[1..][k - 1..] == lines[k..];
      var front, back := JoinLines(lines[..k][1..]), JoinLines(lines[k..]);
      assert lines[0] + [LF] + (front + [LF] + back) == (lines[0] + [LF] + front) + [LF] + back;
    }
  }

  lemma InterruptionParts(body: Text, k: nat)
    requires k < |SplitLines(body)| && InterruptedAt(ReadLines(body), k)
    ensures MarksLater(body)
  {
    var lines := SplitLines(body);
    var before := JoinLines(lines[..k]);
    assert LookAll(lines)[..k] == LookAll(lines[..k]);
    ContentIs(lines[..k]);
    SplitLinesBare(body);
    MarksSomeIs(lines[k]);
    LinesBack(lines[..k]);
    LinesVisible(before);
    LineParts(body, k);
    if k + 1 == |lines| {
      assert MarkedAfter(body, before, lines[k], []);
    } else {
      assert MarkedAfter(body, before, lines[k], JoinLines(lines[k + 1..]));
    }
  }

  lemma LineParts(body: Text, k: nat)
    requires 0 < k < |SplitLines(body)|
    ensures var lines := SplitLines(body);
            var before := JoinLines(lines[..k]);
            if k + 1 == |lines| then body == before + [LF] + lines[k]
            else body == before + [LF] + lines[k] + [LF] + JoinLines(lines[k + 1..])
  {
    var lines := SplitLines(body);
    JoinSplitLines(body);
    JoinAt(lines, k);
    if k + 1 == |lines| {
      assert lines[k..] == [lines[k]];
    } else {
      assert lines[k..][1..] == lines[k + 1..];
      var before, after := JoinLines(lines[..k]), JoinLines(lines[k + 1..]);
      assert before + [LF] + (lines[k] + [LF] + after) == before + [LF] + lines[k] + [LF] + after;
    }
  }

  lemma LinesBack(lines: seq<Text>)
    requires lines != [] && AllBare(lines)
    ensures SplitLines(JoinLines(lines)) == lines
  {
    SplitJoinLines(lines);
  }

  lemma MarkedInterrupts(body: Text, before: Text, line: Text, after: Text)
    requires MarkedAfter(body, before, line, after)
    ensures Interrupted(ReadLines(body))
  {
    var k, lines := |SplitLines(before)|, SplitLines(body);
    SplitBare(line);
    SplitConcat(before, line);
    if body == before + [LF] + line {
      assert lines == SplitLines(before) + [line];
    } else {
      SplitConcat(before + [LF] + line, after);
      assert lines == SplitLines(before) + [line] + SplitLines(after);
    }
    assert lines[..k] == SplitLines(before) && lines[k] == line;
    assert LookAll(lines)[..k] == LookAll(SplitLines(before));
    ContentMeans(before);
    MarksSomeIs(line);
    assert InterruptedAt(ReadLines(body), k);
  }

  // A body is interrupted when a marker line stands in it after something visible.
  lemma InterruptedMeans(body: Text)
    ensures Interrupted(ReadLines(body)) <==> MarksLater(body)
  {
    if Interrupted(ReadLines(body)) {
      var k :| 0 <= k < |ReadLines(body)| && InterruptedAt(ReadLines(body), k);
      InterruptionParts(body, k);
    }
    if before: Text, line: Text, after: Text :| MarkedAfter(body, before, line, after) {
      MarkedInterrupts(body, before, line, after);
    }
  }

  // ---- conflicts ---------------------------------------------------------------------------

  // What is wrong with a file, read off its text and its place.
  ghost predicate Wrong(files: seq<NamedFile>, i: nat, reason: Reason)
    requires i < |files|
  {
    match reason
    case IllegalName => !NameLike(files[i].name)
    case DuplicateName => exists j :: 0 <= j < i && files[j].name == files[i].name
    case BlankBody => i + 1 < |files| && !Visible(files[i].body)
    case MarkerInBody => MarksLater(files[i].body)
  }

  lemma ReportedIs(files: seq<NamedFile>, i: nat, reason: Reason)
    ensures Conflict(i, reason) in Conflicts(files) <==> i < |files| && Wrong(files, i, reason)
  {
    ConflictsMean(files, i, reason);
    if i < |files| {
      FileNameShape(files[i].name);
      NameLikeIs(files[i].name);
      ContentMeans(files[i].body);
      InterruptedMeans(files[i].body);
      RepeatsIs(files, i);
    }
  }

  lemma RepeatsIs(files: seq<NamedFile>, i: nat)
    requires i < |files|
    ensures Repeats(files, i) <==> exists j :: 0 <= j < i && files[j].name == files[i].name
  {
    assert forall j :: 0 <= j < i ==> files[..i][j].name == files[j].name;
  }

  function Rank(reason: Reason): nat {
    match reason
    case IllegalName => 0
    case DuplicateName => 1
    case BlankBody => 2
    case MarkerInBody => 3
  }

  predicate Sooner(a: Conflict, b: Conflict) {
    a.index < b.index || (a.index == b.index && Rank(a.reason) < Rank(b.reason))
  }

  predicate InOrder(conflicts: seq<Conflict>) {
    forall p, q :: 0 <= p < q < |conflicts| ==> Sooner(conflicts[p], conflicts[q])
  }

  lemma ReportInOrder(row: Findings, i: nat)
    ensures InOrder(row.Report(i)) && forall c <- row.Report(i) :: c.index == i
  {
  }

  lemma {:induction false} FlatInOrder(table: seq<Findings>, n: nat)
    requires n <= |table|
    ensures InOrder(Flatten(Reports(table)[..n])) && forall c <- Flatten(Reports(table)[..n]) :: c.index < n
  {
    if n > 0 {
      FlatInOrder(table, n - 1);
      ReportInOrder(table[n - 1], n - 1);
      var rows := Reports(table);
      assert rows[..n][..n - 1] == rows[..n - 1] && rows[..n][n - 1] == rows[n - 1];
      var front, last := Flatten(rows[..n - 1]), rows[n - 1];
      forall p, q | 0 <= p < q < |front + last|
        ensures Sooner((front + last)[p], (front + last)[q])
      {
        assert p < |front| ==> front[p] in front;
        assert q >= |front| ==> last[q - |front|] in last;
      }
    }
  }

  // Conflicts are reported file by file, and of one file its name before its body.
  lemma ConflictsInOrder(files: seq<NamedFile>)
    ensures InOrder(Conflicts(files))
  {
    var table := AllFindings(files);
    FlatInOrder(table, |table|);
    assert Reports(table)[..|table|] == Reports(table);
  }

  // ---- splitting ---------------------------------------------------------------------------

  // Where a file's lines end: before the marker of the next.
  function EndOf(all: seq<Line>, opens: seq<Open>, k: nat): int
    requires k < |opens|
  {
    if k + 1 < |opens| then opens[k + 1].startLine - 1 else |all|
  }

  // One file of a split: its lines up to the next file's marker, nothing but the last
  // without content, none interrupted, and all but the first after a marker of its own.
  predicate Laid(all: seq<Line>, opens: seq<Open>, k: nat)
    requires k < |opens|
  {
    var o, end := opens[k], EndOf(all, opens, k);
    && o.startLine <= end <= |all| && o.body == all[o.startLine..end] && !Interrupted(o.body)
    && (k > 0 ==> o.startLine > 0 && all[o.startLine - 1].name == Some(o.name))
    && (k + 1 < |opens| ==> HasContent(o.body))
  }

  predicate AllLaid(all: seq<Line>, opens: seq<Open>) {
    forall k :: 0 <= k < |opens| ==> Laid(all, opens, k)
  }

  lemma NotInterruptedMore(body: seq<Line>, line: Line)
    requires !Interrupted(body) && !(line.name.Some? && HasContent(body))
    ensures !Interrupted(body + [line])
  {
    var more := body + [line];
    forall k | 0 <= k < |more|
      ensures !InterruptedAt(more, k)
    {
      assert more[..k] == body[..k];
      if k < |body| {
        assert !InterruptedAt(body, k);
      } else {
        assert body[..k] == body;
      }
    }
  }

  lemma {:induction false} FromLaid(all: seq<Line>, at: nat, cur: Open)
    requires cur.startLine <= at <= |all| && cur.body == all[cur.startLine..at] && !Interrupted(cur.body)
    ensures var opens := SplitFrom(all[at..], at, cur);
            && opens[0].name == cur.name && opens[0].startLine == cur.startLine
            && Laid(all, [Open(cur.name, opens[0].body, cur.startLine)] + opens[1..], 0)
            && forall k :: 1 <= k < |opens| ==> Laid(all, opens, k)
    decreases |all| - at
  {
    if at < |all| {
      var line := all[at];
      assert all[at..][1..] == all[at + 1..];
      if line.name.Some? && HasContent(cur.body) {
        var next := Open(line.name.value, [], at + 1);
        FromLaid(all, at + 1, next);
        FromNext(all, at, cur, next, SplitFrom(all[at + 1..], at + 1, next));
      } else {
        NotInterruptedMore(cur.body, line);
        assert all[cur.startLine..at] + [line] == all[cur.startLine..at + 1];
        FromLaid(all, at + 1, cur.(body := cur.body + [line]));
      }
    } else {
      assert all[at..] == [];
    }
  }

  lemma FromNext(all: seq<Line>, at: nat, cur: Open, next: Open, opens: seq<Open>)
    requires cur.startLine <= at < |all| && cur.body == all[cur.startLine..at] && !Interrupted(cur.body)
    requires HasContent(cur.body) && all[at].name == Some(next.name) && next.startLine == at + 1
    requires opens != [] && opens[0].name == next.name && opens[0].startLine == next.startLine
    requires Laid(all, [Open(next.name, opens[0].body, next.startLine)] + opens[1..], 0)
    requires forall k :: 1 <= k < |opens| ==> Laid(all, opens, k)
    ensures AllLaid(all, [cur] + opens)
  {
    var more := [cur] + opens;
    assert [Open(next.name, opens[0].body, next.startLine)] + opens[1..] == opens;
    forall k | 0 <= k < |more|
      ensures Laid(all, more, k)
    {
      if k > 0 {
        assert more[k] == opens[k - 1] && EndOf(all, more, k) == EndOf(all, opens, k - 1);
        assert Laid(all, opens, k - 1);
      }
    }
  }

  lemma OpensLaid(all: seq<Line>)
    requires all != []
    ensures AllLaid(all, SplitOpens(all))
    ensures var first := SplitOpens(all)[0];
            if all[0].name.Some? then first.startLine == 1 && first.name == all[0].name.value
            else first.startLine == 0 && first.name == MAIN_CIRC
  {
    var opens := SplitOpens(all);
    assert all[0..] == all;
    var cur := if all[0].name.Some? then Open(all[0].name.value, [], 1) else Open(MAIN_CIRC, [], 0);
    FromLaid(all, cur.startLine, cur);
    assert [Open(cur.name, opens[0].body, cur.startLine)] + opens[1..] == opens;
  }

  // ---- the split of a source -------------------------------------------------------------------

  function LastLine(lines: seq<Text>, files: seq<SplitFile>, k: nat): int
    requires k < |files|
  {
    if k + 1 < |files| then files[k + 1].startLine - 1 else |lines|
  }

  // File `k` of a split of these lines.
  ghost predicate FileOf(lines: seq<Text>, files: seq<SplitFile>, k: nat)
    requires k < |files|
  {
    var f, end := files[k], LastLine(lines, files, k);
    && f.startLine <= end <= |lines| && f.body == JoinLines(lines[f.startLine..end])
    && (k > 0 ==> f.startLine > 0 && Marks(lines[f.startLine - 1], f.name))
    && (k + 1 < |files| ==> exists i :: f.startLine <= i < end && Visible(lines[i]))
    && !exists i, j :: f.startLine <= i < j < end && Visible(lines[i]) && MarksSome(lines[j])
  }

  lemma NoneInterrupts(lines: seq<Text>, from: nat, end: nat)
    requires from <= end <= |lines| && !Interrupted(LookAll(lines)[from..end])
    ensures !exists i, j :: from <= i < j < end && Visible(lines[i]) && MarksSome(lines[j])
  {
    var body := LookAll(lines)[from..end];
    forall i, j | from <= i < j < end && Visible(lines[i])
      ensures !MarksSome(lines[j])
    {
      assert body[..j - from][i - from] == Look(lines[i]) && body[j - from] == Look(lines[j]);
      assert !Blank(lines[i]);
      assert HasContent(body[..j - from]) && !InterruptedAt(body, j - from);
      MarksSomeIs(lines[j]);
    }
  }

  lemma LaidBody(lines: seq<Text>, o: Open, end: nat)
    requires o.startLine <= end <= |lines| && o.body == LookAll(lines)[o.startLine..end]
    ensures o.Closed().body == JoinLines(lines[o.startLine..end])
  {
    assert Texts(o.body) == lines[o.startLine..end];
  }

  lemma LaidContent(lines: seq<Text>, from: nat, end: nat)
    requires from <= end <= |lines| && HasContent(LookAll(lines)[from..end])
    ensures exists i :: from <= i < end && Visible(lines[i])
  {
    var body := LookAll(lines)[from..end];
    var i :| 0 <= i < |body| && !body[i].blank;
    BlankIs(lines[from + i]);
    assert body[i] == Look(lines[from + i]);
  }

  lemma LaidFile(lines: seq<Text>, opens: seq<Open>, k: nat)
    requires k < |opens| && Laid(LookAll(lines), opens, k)
    ensures FileOf(lines, CloseAll(opens), k)
  {
    var from, end := opens[k].startLine, EndOf(LookAll(lines), opens, k);
    assert LastLine(lines, CloseAll(opens), k) == end;
    LaidBody(lines, opens[k], end);
    NoneInterrupts(lines, from, end);
    if k > 0 {
      MarkerMeans(lines[from - 1], opens[k].name);
    }
    if k + 1 < |opens| {
      LaidContent(lines, from, end);
    }
  }

  // A split: the first file is opened by a marker on the first line, or is `main.circ`
  // from the first line on; every later one by a marker on the line before its first;
  // each has the lines up to the next one's marker; a marker opens a file exactly when
  // something visible came before it in the file it ends.
  lemma SplitMeans(source: Text)
    ensures var lines, files := SplitLines(source), Split(source);
            && (if MarksSome(lines[0]) then files[0].startLine == 1 && Marks(lines[0], files[0].name)
                else files[0].startLine == 0 && Spelt(files[0].name, "main.circ"))
            && forall k :: 0 <= k < |files| ==> FileOf(lines, files, k)
  {
    var lines, all := SplitLines(source), ReadLines(source);
    OpensLaid(all);
    MarksSomeIs(lines[0]);
    if all[0].name.Some? {
      MarkerMeans(lines[0], all[0].name.value);
    }
    var opens, files := SplitOpens(all), Split(source);
    forall k | 0 <= k < |files|
      ensures FileOf(lines, files, k)
    {
      LaidFile(lines, opens, k);
    }
  }

  // ---- joining ---------------------------------------------------------------------------------

  // A file with its marker on a line of its own.
  function Marked(f: NamedFile): Text {
    [SLASH, SLASH, SPACE] + f.name + [LF] + f.body
  }

  // The first file stands with its marker, unless it is `main.circ` and its first line
  // marks none.
  lemma JoinFirst(f: NamedFile)
    ensures JoinFiles([f]) ==
            if Spelt(f.name, "main.circ") && !MarksSome(SplitLines(f.body)[0]) then f.body else Marked(f)
  {
    MarksSomeIs(SplitLines(f.body)[0]);
    assert Spelt(f.name, "main.circ") <==> f.name == MAIN_CIRC;
  }

  lemma {:induction false} JoinSnoc(lines: seq<Text>, line: Text)
    requires lines != []
    ensures JoinLines(lines + [line]) == JoinLines(lines) + [LF] + line
  {
    JoinAt(lines + [line], |lines|);
    assert (lines + [line])[..|lines|] == lines && (lines + [line])[|lines|..] == [line];
  }

  // Every further one stands with its marker after a newline.
  lemma JoinMore(files: seq<NamedFile>, f: NamedFile)
    requires files != []
    ensures JoinFiles(files + [f]) == JoinFiles(files) + [LF] + Marked(f)
  {
    assert Segments(files + [f]) == Segments(files) + [Segment(f, |files|)];
    JoinSnoc(Segments(files), Segment(f, |files|));
  }
}
