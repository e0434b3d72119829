// A join splits back into the same files exactly when `joinConflicts` reports
// nothing but duplicate names (site/src/utils/split-files.ts).
module SplitRoundTrip {
  import opened Wrappers
  import opened Utf16
  import opened SplitFiles

  // ---- what every split produces -----------------------------------------------------

  // Whether a position interrupts depends only on the lines up to it.
  lemma InterruptedPrefix(body: seq<Line>, more: seq<Line>, k: nat)
    requires k < |body|
    ensures InterruptedAt(body + more, k) <==> InterruptedAt(body, k)
  {
    assert (body + more)[..k] == body[..k];
  }

  lemma InterruptedSnoc(body: seq<Line>, line: Line)
    ensures Interrupted(body + [line]) <==> Interrupted(body) || (line.name.Some? && HasContent(body))
  {
    forall k: nat | k < |body|
      ensures InterruptedAt(body + [line], k) <==> InterruptedAt(body, k)
    {
      InterruptedPrefix(body, [line], k);
    }
    assert (body + [line])[..|body|] == body;
    assert InterruptedAt(body + [line], |body|) <==> line.name.Some? && HasContent(body);
  }

  // Lines as they were read off a text: looked at, and free of newlines.
  predicate Read(lines: seq<Line>) {
    forall i :: 0 <= i < |lines| ==> lines[i] == Look(lines[i].text) && Bare(lines[i].text)
  }

  predicate Tidy(open: Open) {
    IsNameShape(open.name) && !Interrupted(open.body) && Read(open.body)
  }

  // No file but the last is blank, none is interrupted, all are legally named.
  ghost predicate AllTidy(opens: seq<Open>) {
    && (forall i :: 0 <= i < |opens| ==> Tidy(opens[i]))
    && (forall i :: 0 <= i < |opens| - 1 ==> HasContent(opens[i].body))
  }

  lemma {:induction false} SplitFromTidy(rest: seq<Line>, at: nat, cur: Open)
    requires Read(rest) && Tidy(cur)
    ensures AllTidy(SplitFrom(rest, at, cur))
    decreases rest
  {
    if rest != [] {
      var line := rest[0];
      assert line == Look(line.text);
      if line.name.Some? && HasContent(cur.body) {
        var next := Open(line.name.value, [], at + 1);
        SplitFromTidy(rest[1..], at + 1, next);
        var tail := SplitFrom(rest[1..], at + 1, next);
        assert SplitFrom(rest, at, cur) == [cur] + tail;
      } else {
        var next := cur.(body := cur.body + [line]);
        InterruptedSnoc(cur.body, line);
        SplitFromTidy(rest[1..], at + 1, next);
        assert SplitFrom(rest, at, cur) == SplitFrom(rest[1..], at + 1, next);
      }
    }
  }

  // Files the marker format can hold, duplicates apart.
  ghost predicate Clean(files: seq<NamedFile>) {
    forall i :: 0 <= i < |files| ==> CleanAt(files, i)
  }

  ghost predicate CleanAt(files: seq<NamedFile>, i: nat)
    requires i < |files|
  {
    !Fault(files, i, IllegalName) && !Fault(files, i, BlankBody) && !Fault(files, i, MarkerInBody)
  }

  // What joinConflicts says of it: nothing but duplicate names.
  lemma CleanMeans(files: seq<NamedFile>)
    ensures Clean(files) <==> forall c :: c in Conflicts(files) ==> c.reason == DuplicateName
  {
    if Clean(files) {
      forall c | c in Conflicts(files)
        ensures c.reason == DuplicateName
      {
        ConflictsMean(files, c.index, c.reason);
        assert CleanAt(files, c.index);
      }
    } else {
      var i :| 0 <= i < |files| && !CleanAt(files, i);
      ConflictsMean(files, i, IllegalName);
      ConflictsMean(files, i, BlankBody);
      ConflictsMean(files, i, MarkerInBody);
    }
  }

  // The lines of a closed body: its own, or one empty line when it had none.
  lemma ClosedLines(open: Open)
    requires Read(open.body)
    ensures ReadLines(open.Closed().body) == if open.body == [] then [Look([])] else open.body
  {
    if open.body != [] {
      SplitJoinLines(Texts(open.body));
    }
  }

  lemma MainIsAName()
    ensures IsNameShape(MAIN_CIRC)
  {
    assert MAIN_CIRC[4..] == DOT_CIRC;
  }

  lemma ReadLinesRead(source: Text)
    ensures Read(ReadLines(source))
  {
    SplitLinesBare(source);
  }

  lemma OpensTidy(lines: seq<Line>)
    requires lines != [] && Read(lines)
    ensures AllTidy(SplitOpens(lines))
  {
    MainIsAName();
    assert lines[0] == Look(lines[0].text);
    if lines[0].name.Some? {
      SplitFromTidy(lines[1..], 1, Open(lines[0].name.value, [], 1));
    } else {
      SplitFromTidy(lines, 0, Open(MAIN_CIRC, [], 0));
    }
  }

  // Every split is clean: the only conflict a split can have is a repeated name.
  lemma SplitIsClean(source: Text)
    ensures Clean(NamesAndBodies(Split(source)))
  {
    ReadLinesRead(source);
    OpensTidy(ReadLines(source));
    var opens := SplitOpens(ReadLines(source));
    var files := NamesAndBodies(Split(source));
    forall i | 0 <= i < |files|
      ensures CleanAt(files, i)
    {
      FileNameShape(opens[i].name);
      ClosedLines(opens[i]);
      assert opens[i].body == [] ==> !Interrupted([Look([])]);
    }
  }

  // ---- the round trip ------------------------------------------------------------------

  // A file as the lines a join writes for it.
  datatype Marked = Marked(marker: Line, body: seq<Line>)

  function Unroll(files: seq<Marked>): seq<Line> {
    if files == [] then [] else [files[0].marker] + files[0].body + Unroll(files[1..])
  }

  predicate Sound(files: seq<Marked>) {
    && (forall i :: 0 <= i < |files| ==> files[i].marker.name.Some? && !Interrupted(files[i].body))
    && (forall i :: 0 <= i < |files| - 1 ==> HasContent(files[i].body))
  }

  // The files a split should find there.
  function Reopen(files: seq<Marked>, at: nat): (opens: seq<Open>)
    requires Sound(files)
    ensures |opens| == |files|
  {
    if files == [] then [] else
    assert forall i :: 0 <= i < |files| - 1 ==> files[1..][i] == files[i + 1];
    [Open(files[0].marker.name.value, files[0].body, at + 1)] + Reopen(files[1..], at + 1 + |files[0].body|)
  }

  lemma {:induction false} ReopenAt(files: seq<Marked>, at: nat, i: nat)
    requires Sound(files) && i < |files|
    ensures var o := Reopen(files, at)[i]; o.name == files[i].marker.name.value && o.body == files[i].body
  {
    if i > 0 {
      assert forall k :: 0 <= k < |files| - 1 ==> files[1..][k] == files[k + 1];
      ReopenAt(files[1..], at + 1 + |files[0].body|, i - 1);
    }
  }

  // Lines that open nothing are all taken into the current body.
  lemma {:induction false} Absorb(lines: seq<Line>, rest: seq<Line>, at: nat, cur: Open)
    requires !Interrupted(cur.body + lines)
    ensures SplitFrom(lines + rest, at, cur) == SplitFrom(rest, at + |lines|, cur.(body := cur.body + lines))
    decreases lines
  {
    if lines == [] {
      assert lines + rest == rest && cur.body + lines == cur.body;
    } else {
      var all := cur.body + lines;
      assert (lines + rest)[1..] == lines[1..] + rest;
      assert cur.body + [lines[0]] + lines[1..] == all;
      assert all[..|cur.body|] == cur.body;
      assert !InterruptedAt(all, |cur.body|);
      Absorb(lines[1..], rest, at + 1, cur.(body := cur.body + [lines[0]]));
    }
  }

  // One marked file after a file with content.
  lemma SplitOneMarked(marker: Line, body: seq<Line>, rest: seq<Line>, at: nat, cur: Open)
    requires marker.name.Some? && !Interrupted(body) && HasContent(cur.body)
    ensures SplitFrom([marker] + body + rest, at, cur) ==
            [cur] + SplitFrom(rest, at + 1 + |body|, Open(marker.name.value, body, at + 1))
  {
    var lines := [marker] + body + rest;
    assert lines[0] == marker && lines[1..] == body + rest;
    assert [] + body == body;
    Absorb(body, rest, at + 1, Open(marker.name.value, [], at + 1));
    assert SplitFrom(lines, at, cur) == [cur] + SplitFrom(body + rest, at + 1, Open(marker.name.value, [], at + 1));
  }

  lemma SoundRest(files: seq<Marked>)
    requires Sound(files) && files != []
    ensures Sound(files[1..]) && !Interrupted(files[0].body) && files[0].marker.name.Some?
    ensures |files| > 1 ==> HasContent(files[0].body)
  {
    assert forall k :: 0 <= k < |files| - 1 ==> files[1..][k] == files[k + 1];
  }

  // A file with content, then the marked files: each comes back whole.
  lemma {:induction false} SplitMarked(files: seq<Marked>, at: nat, cur: Open)
    requires Sound(files)
    requires files != [] ==> HasContent(cur.body)
    ensures SplitFrom(Unroll(files), at, cur) == [cur] + Reopen(files, at)
    decreases |files|
  {
    if files != [] {
      var f := files[0];
      SoundRest(files);
      SplitOneMarked(f.marker, f.body, Unroll(files[1..]), at, cur);
      SplitMarked(files[1..], at + 1 + |f.body|, Open(f.marker.name.value, f.body, at + 1));
    }
  }

  // The first file, with or without its marker.
  lemma SplitFirst(f: Marked, rest: seq<Line>, bare: bool)
    requires f.body != [] && f.marker.name.Some? && !Interrupted(f.body)
    requires bare ==> f.marker.name.value == MAIN_CIRC && f.body[0].name.None?
    ensures var at := if bare then 0 else 1;
            SplitOpens((if bare then f.body else [f.marker] + f.body) + rest) ==
            SplitFrom(rest, at + |f.body|, Open(f.marker.name.value, f.body, at))
  {
    var name, lines := f.marker.name.value, f.body + rest;
    assert [] + f.body == f.body;
    if bare {
      assert lines[0] == f.body[0];
      Absorb(f.body, rest, 0, Open(name, [], 0));
    } else {
      assert [f.marker] + f.body + rest == [f.marker] + lines;
      assert ([f.marker] + lines)[1..] == lines;
      Absorb(f.body, rest, 1, Open(name, [], 1));
    }
  }

  lemma ReadConcat(s: Text, t: Text)
    ensures ReadLines(s + [LF] + t) == ReadLines(s) + ReadLines(t)
  {
    SplitConcat(s, t);
  }

  // Joined segments read as their lines one after another.
  lemma {:induction false} ReadJoined(segments: seq<Text>, files: seq<Marked>)
    requires segments != [] && |segments| == |files|
    requires forall i :: 0 <= i < |files| ==> ReadLines(segments[i]) == [files[i].marker] + files[i].body
    ensures ReadLines(JoinLines(segments)) == Unroll(files)
  {
    if |segments| == 1 {
      assert Unroll(files[1..]) == [];
    } else {
      assert forall i :: 0 <= i < |files| - 1 ==> files[1..][i] == files[i + 1] && segments[1..][i] == segments[i + 1];
      ReadJoined(segments[1..], files[1..]);
      ReadConcat(segments[0], JoinLines(segments[1..]));
    }
  }

  function MarkedFile(f: NamedFile): Marked {
    Marked(Look(MarkerLine(f.name)), ReadLines(f.body))
  }

  function MarkedFiles(files: seq<NamedFile>): (marked: seq<Marked>)
    ensures |marked| == |files|
    ensures forall i :: 0 <= i < |files| ==> marked[i] == MarkedFile(files[i])
  {
    seq(|files|, i requires 0 <= i < |files| => MarkedFile(files[i]))
  }

  lemma CleanFile(files: seq<NamedFile>, i: nat)
    requires i < |files|
    ensures CleanAt(files, i) <==>
            && MarkedFile(files[i]).marker.name == Some(files[i].name)
            && !Interrupted(MarkedFile(files[i]).body)
            && (i < |files| - 1 ==> HasContent(MarkedFile(files[i]).body))
  {
  }

  lemma CleanIsSound(files: seq<NamedFile>)
    requires Clean(files)
    ensures Sound(MarkedFiles(files))
    ensures forall i :: 0 <= i < |files| ==> MarkedFiles(files)[i].marker.name == Some(files[i].name)
  {
    forall i | 0 <= i < |files|
      ensures MarkedFiles(files)[i].marker.name == Some(files[i].name)
      ensures !Interrupted(MarkedFiles(files)[i].body)
      ensures i < |files| - 1 ==> HasContent(MarkedFiles(files)[i].body)
    {
      assert CleanAt(files, i);
      CleanFile(files, i);
    }
  }

  lemma SegmentLines(f: NamedFile, i: nat)
    requires IsFileName(f.name)
    ensures ReadLines(Segment(f, i)) ==
            if OmitsMarker(f, i) then MarkedFile(f).body else [MarkedFile(f).marker] + MarkedFile(f).body
  {
    if !OmitsMarker(f, i) {
      FileNameShape(f.name);
      ReadConcat(MarkerLine(f.name), f.body);
      SplitBare(MarkerLine(f.name));
    }
  }

  // The lines of the joined text.
  lemma JoinedLines(files: seq<NamedFile>)
    requires files != [] && Clean(files)
    ensures ReadLines(JoinFiles(files)) ==
            ReadLines(Segment(files[0], 0)) + Unroll(MarkedFiles(files)[1..])
  {
    var segments, marked := Segments(files), MarkedFiles(files);
    if |files| > 1 {
      forall i | 1 <= i < |files|
        ensures ReadLines(segments[i]) == [marked[i].marker] + marked[i].body
      {
        assert CleanAt(files, i);
        SegmentLines(files[i], i);
      }
      ReadJoined(segments[1..], marked[1..]);
      ReadConcat(segments[0], JoinLines(segments[1..]));
    }
  }

  // What a split finds in the lines a join writes: every file, whole.
  lemma OpensOfMarked(files: seq<Marked>, bare: bool)
    requires files != [] && Sound(files) && files[0].body != []
    requires bare ==> files[0].marker.name.value == MAIN_CIRC && files[0].body[0].name.None?
    ensures var opens := SplitOpens((if bare then files[0].body else [files[0].marker] + files[0].body) + Unroll(files[1..]));
            && |opens| == |files|
            && forall i :: 0 <= i < |files| ==>
                 opens[i].name == files[i].marker.name.value && opens[i].body == files[i].body
  {
    var f, at := files[0], if bare then 0 else 1;
    assert forall k :: 0 <= k < |files| - 1 ==> files[1..][k] == files[k + 1];
    SplitFirst(f, Unroll(files[1..]), bare);
    SplitMarked(files[1..], at + |f.body|, Open(f.marker.name.value, f.body, at));
    ReopenAll(files, at + |f.body|);
  }

  lemma ReopenAll(files: seq<Marked>, at: nat)
    requires files != [] && Sound(files)
    ensures Sound(files[1..]) && |Reopen(files[1..], at)| == |files| - 1
    ensures forall i :: 1 <= i < |files| ==>
              && Reopen(files[1..], at)[i - 1].name == files[i].marker.name.value
              && Reopen(files[1..], at)[i - 1].body == files[i].body
  {
    assert forall k :: 0 <= k < |files| - 1 ==> files[1..][k] == files[k + 1];
    assert Sound(files[1..]);
    forall i | 1 <= i < |files|
      ensures i - 1 < |Reopen(files[1..], at)|
      ensures Reopen(files[1..], at)[i - 1].name == files[i].marker.name.value
      ensures Reopen(files[1..], at)[i - 1].body == files[i].body
    {
      ReopenAt(files[1..], at, i - 1);
    }
  }

  // Reading a body's lines and closing them again gives the body.
  lemma CloseRead(f: NamedFile, o: Open)
    requires o.name == f.name && o.body == ReadLines(f.body)
    ensures o.Closed().Named() == f
  {
    JoinSplitLines(f.body);
    assert Texts(ReadLines(f.body)) == SplitLines(f.body);
  }

  lemma CloseReadAll(files: seq<NamedFile>, opens: seq<Open>)
    requires |files| == |opens|
    requires forall i :: 0 <= i < |files| ==> opens[i].name == files[i].name && opens[i].body == ReadLines(files[i].body)
    ensures NamesAndBodies(CloseAll(opens)) == files
  {
    forall i | 0 <= i < |files|
      ensures opens[i].Closed().Named() == files[i]
    {
      CloseRead(files[i], opens[i]);
    }
  }

  // Clean files survive.
  lemma CleanRoundTrip(files: seq<NamedFile>)
    requires files != [] && Clean(files)
    ensures NamesAndBodies(Split(JoinFiles(files))) == files
  {
    var marked := MarkedFiles(files);
    CleanIsSound(files);
    JoinedLines(files);
    FirstSegment(files);
    OpensOfMarked(marked, OmitsMarker(files[0], 0));
    CloseReadAll(files, SplitOpens(ReadLines(JoinFiles(files))));
  }

  lemma FirstSegment(files: seq<NamedFile>)
    requires files != [] && Clean(files)
    ensures var first := MarkedFiles(files)[0];
            ReadLines(Segment(files[0], 0)) ==
            if OmitsMarker(files[0], 0) then first.body else [first.marker] + first.body
  {
    assert CleanAt(files, 0);
    SegmentLines(files[0], 0);
  }

  // Splitting a join gives the same names and bodies back exactly when no
  // conflict but a duplicate name is reported.
  lemma RoundTripExactly(files: seq<NamedFile>)
    requires files != []
    ensures NamesAndBodies(Split(JoinFiles(files))) == files <==>
            forall c :: c in Conflicts(files) ==> c.reason == DuplicateName
  {
    CleanMeans(files);
    if Clean(files) {
      CleanRoundTrip(files);
    }
    SplitIsClean(JoinFiles(files));
  }

  // Two files of one name: reported, and not disturbed.
  lemma RepeatedNameSurvives(f: NamedFile)
    requires IsFileName(f.name) && HasContent(ReadLines(f.body)) && !Interrupted(ReadLines(f.body))
    ensures Conflict(1, DuplicateName) in Conflicts([f, f])
    ensures NamesAndBodies(Split(JoinFiles([f, f]))) == [f, f]
  {
    TwiceReported(f);
    TwiceClean(f);
    CleanMeans([f, f]);
    RoundTripExactly([f, f]);
  }

  lemma TwiceReported(f: NamedFile)
    ensures Conflict(1, DuplicateName) in Conflicts([f, f])
  {
    assert [f, f][..1] == [f] && [f][0].name in NamesOf([f]);
    ConflictsMean([f, f], 1, DuplicateName);
  }

  lemma TwiceClean(f: NamedFile)
    requires IsFileName(f.name) && HasContent(ReadLines(f.body)) && !Interrupted(ReadLines(f.body))
    ensures Clean([f, f])
  {
  }

  // Splitting, joining and splitting again changes no name and no body.
  lemma SplitJoinSplit(source: Text)
    ensures NamesAndBodies(Split(JoinFiles(NamesAndBodies(Split(source))))) == NamesAndBodies(Split(source))
  {
    SplitIsClean(source);
    CleanRoundTrip(NamesAndBodies(Split(source)));
  }
}
