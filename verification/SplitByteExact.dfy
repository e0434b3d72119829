// Where the files of a split lie in their source, and which sources a join
// gives back byte for byte (site/src/utils/split-files.ts).
module SplitByteExact {
  import opened Wrappers
  import opened Utf16
  import opened SplitFiles
  import opened SplitRoundTrip

  // ---- where files lie in their source, and which sources join back byte for byte ------

  // Every body lies where its start line says, and the last one reaches the end.
  ghost predicate AllInPlace(all: seq<Line>, opens: seq<Open>) {
    && (forall k :: 0 <= k < |opens| ==> InPlace(all, opens[k]))
    && (forall k :: 1 <= k < |opens| ==> opens[k].startLine >= 1)
    && (opens != [] ==> opens[|opens| - 1].startLine + |opens[|opens| - 1].body| == |all|)
  }

  lemma {:induction false} BodiesInPlace(all: seq<Line>, at: nat, cur: Open)
    requires cur.startLine + |cur.body| == at <= |all| && all[cur.startLine..at] == cur.body
    ensures AllInPlace(all, SplitFrom(all[at..], at, cur))
    ensures SplitFrom(all[at..], at, cur)[0].startLine == cur.startLine
    decreases |all| - at
  {
    if at < |all| {
      SplitAt(all, at, cur);
      if all[at].name.Some? && HasContent(cur.body) {
        var next := Open(all[at].name.value, [], at + 1);
        BodiesInPlace(all, at + 1, next);
        InPlaceCons(all, cur, SplitFrom(all[at + 1..], at + 1, next));
      } else {
        var next := cur.(body := cur.body + [all[at]]);
        assert all[cur.startLine..at + 1] == next.body;
        BodiesInPlace(all, at + 1, next);
      }
    }
  }

  // A split taken one line further.
  lemma SplitAt(all: seq<Line>, at: nat, cur: Open)
    requires at < |all|
    ensures SplitFrom(all[at..], at, cur) ==
            if all[at].name.Some? && HasContent(cur.body)
            then [cur] + SplitFrom(all[at + 1..], at + 1, Open(all[at].name.value, [], at + 1))
            else SplitFrom(all[at + 1..], at + 1, cur.(body := cur.body + [all[at]]))
  {
    assert all[at..][1..] == all[at + 1..];
  }

  lemma InPlaceCons(all: seq<Line>, cur: Open, tail: seq<Open>)
    requires InPlace(all, cur) && tail != [] && AllInPlace(all, tail) && tail[0].startLine >= 1
    ensures AllInPlace(all, [cur] + tail)
  {
  }

  predicate InPlace(all: seq<Line>, o: Open) {
    o.startLine + |o.body| <= |all| && all[o.startLine..o.startLine + |o.body|] == o.body
  }

  lemma OpensInPlace(all: seq<Line>)
    requires all != []
    ensures AllInPlace(all, SplitOpens(all))
    ensures SplitOpens(all)[0].startLine == if all[0].name.Some? then 1 else 0
  {
    if all[0].name.Some? {
      BodiesInPlace(all, 1, Open(all[0].name.value, [], 1));
    } else {
      assert all[0..] == all;
      BodiesInPlace(all, 0, Open(MAIN_CIRC, [], 0));
    }
  }

  predicate SameBodies(files: seq<Marked>, opens: seq<Open>) {
    |files| == |opens| && forall k :: 0 <= k < |files| ==> files[k].body == opens[k].body
  }

  // Each file's marker is the very line that opened it.
  predicate OwnMarkers(all: seq<Line>, files: seq<Marked>, opens: seq<Open>)
    requires |files| == |opens|
  {
    forall k :: 0 <= k < |files| ==>
      1 <= opens[k].startLine <= |all| && files[k].marker == all[opens[k].startLine - 1]
  }

  lemma OwnMarkersCons(all: seq<Line>, files: seq<Marked>, opens: seq<Open>)
    requires |files| == |opens| && files != [] && SameBodies(files, opens)
    ensures SameBodies(files[1..], opens[1..])
    ensures OwnMarkers(all, files, opens) <==>
            && 1 <= opens[0].startLine <= |all| && files[0].marker == all[opens[0].startLine - 1]
            && OwnMarkers(all, files[1..], opens[1..])
  {
    assert forall k :: 0 <= k < |files| - 1 ==> files[1..][k] == files[k + 1] && opens[1..][k] == opens[k + 1];
    assert forall k :: 1 <= k < |files| ==> files[k] == files[1..][k - 1] && opens[k] == opens[1..][k - 1];
  }

  lemma UnrollStep(all: seq<Line>, at: nat, from: nat, body: seq<Line>, files: seq<Marked>)
    requires from <= at < |all| && all[from..at] == body && files != []
    ensures body + Unroll(files) == all[from..] <==>
            files[0].marker == all[at] && files[0].body + Unroll(files[1..]) == all[at + 1..]
  {
    var rest := files[0].body + Unroll(files[1..]);
    assert body + Unroll(files) == body + [files[0].marker] + rest;
    RewriteStep(all, at, from, body, files[0].marker, rest);
  }

  // One file, then the rest.
  lemma RewrittenOne(all: seq<Line>, at: nat, cur: Open, own: bool, files: seq<Marked>)
    requires cur.startLine <= at < |all| && all[cur.startLine..at] == cur.body && files != []
    requires files[0].body + Unroll(files[1..]) == all[at + 1..] <==> own
    ensures cur.body + Unroll(files) == all[cur.startLine..] <==> files[0].marker == all[at] && own
  {
    UnrollStep(all, at, cur.startLine, cur.body, files);
  }

  // Writing the files of a split back, each under a given marker line, gives the
  // same lines exactly when each marker is the line that opened its file.
  lemma {:induction false} Rewritten(all: seq<Line>, at: nat, cur: Open, files: seq<Marked>)
    requires cur.startLine + |cur.body| == at <= |all| && all[cur.startLine..at] == cur.body
    requires SameBodies(files, SplitFrom(all[at..], at, cur)[1..])
    ensures var opens := SplitFrom(all[at..], at, cur);
            opens[0].body + Unroll(files) == all[cur.startLine..] <==> OwnMarkers(all, files, opens[1..])
    decreases |all| - at
  {
    var rest := all[at..];
    var opens := SplitFrom(rest, at, cur);
    if rest == [] {
      assert all[cur.startLine..] == cur.body;
      assert opens[0].body + Unroll(files) == cur.body;
    } else {
      assert rest[1..] == all[at + 1..];
      if rest[0].name.Some? && HasContent(cur.body) {
        var next := Open(rest[0].name.value, [], at + 1);
        var tail := SplitFrom(all[at + 1..], at + 1, next);
        assert opens == [cur] + tail;
        assert opens[1..] == tail;
        OwnMarkersCons(all, files, tail);
        BodiesInPlace(all, at + 1, next);
        Rewritten(all, at + 1, next, files[1..]);
        assert files[0].body == tail[0].body && tail[0].startLine == at + 1;
        RewrittenOne(all, at, cur, OwnMarkers(all, files[1..], tail[1..]), files);
      } else {
        Rewritten(all, at + 1, cur.(body := cur.body + [rest[0]]), files);
      }
    }
  }

  lemma RewriteStep(all: seq<Line>, at: nat, from: nat, body: seq<Line>, marker: Line, tail: seq<Line>)
    requires from <= at < |all| && all[from..at] == body
    ensures body + [marker] + tail == all[from..] <==> marker == all[at] && tail == all[at + 1..]
  {
    assert all[from..] == body + [all[at]] + all[at + 1..];
    if body + [marker] + tail == all[from..] {
      assert (body + [marker] + tail)[|body|] == marker;
      assert (body + [marker] + tail)[|body| + 1..] == tail;
      assert all[from..][|body|] == all[at];
      assert all[from..][|body| + 1..] == all[at + 1..];
    }
  }

  // ---- byte-exact sources ---------------------------------------------------------------

  // The three things a join normalises, each read off the source and where its
  // files start.
  predicate ByteExact(source: Text) {
    var all, files := ReadLines(source), Split(source);
    // The last line opens no file.
    && files[|files| - 1].startLine < |all|
    // A leading marker for main.circ is needed: a second marker follows it.
    && (files[0].startLine == 1 ==> !OmitsMarker(files[0].Named(), 0))
    // Every opening line is spelled as a join spells it.
    && CanonicalMarkers(all, files)
  }

  predicate CanonicalMarkers(all: seq<Line>, files: seq<SplitFile>) {
    forall k :: 0 <= k < |files| && 1 <= files[k].startLine <= |all| ==>
      all[files[k].startLine - 1].text == MarkerLine(files[k].name)
  }

  lemma SpelledFiles(all: seq<Line>, opens: seq<Open>)
    ensures CanonicalMarkers(all, CloseAll(opens)) <==> Spelled(all, opens)
  {
    var files := CloseAll(opens);
    assert forall k :: 0 <= k < |opens| ==> files[k].startLine == opens[k].startLine && files[k].name == opens[k].name;
  }

  lemma ReadLinesInjective(s: Text, t: Text)
    requires ReadLines(s) == ReadLines(t)
    ensures s == t
  {
    JoinSplitLines(s);
    JoinSplitLines(t);
    assert Texts(ReadLines(s)) == SplitLines(s) && Texts(ReadLines(t)) == SplitLines(t);
  }

  // The lines a split's files are written back with: their own bodies, but one
  // empty line where a body had none.
  lemma WrittenBodies(source: Text)
    ensures var opens := SplitOpens(ReadLines(source));
            var marked := MarkedFiles(NamesAndBodies(Split(source)));
            && |marked| == |opens|
            && forall k :: 0 <= k < |opens| ==>
                 && marked[k].body == (if opens[k].body == [] then [Look([])] else opens[k].body)
                 && marked[k].marker == Look(MarkerLine(opens[k].name))
                 && (k < |opens| - 1 ==> opens[k].body != [])
  {
    ReadLinesRead(source);
    OpensTidy(ReadLines(source));
    var opens := SplitOpens(ReadLines(source));
    forall k | 0 <= k < |opens|
      ensures ReadLines(opens[k].Closed().body) == if opens[k].body == [] then [Look([])] else opens[k].body
    {
      ClosedLines(opens[k]);
    }
  }

  // The lines of the joined split, first file apart.
  lemma WrittenLines(source: Text)
    ensures var named := NamesAndBodies(Split(source));
            var marked := MarkedFiles(named);
            ReadLines(JoinFiles(named)) ==
            (if OmitsMarker(named[0], 0) then marked[0].body else [marked[0].marker] + marked[0].body) + Unroll(marked[1..])
  {
    SplitIsClean(source);
    JoinedLines(NamesAndBodies(Split(source)));
    FirstSegment(NamesAndBodies(Split(source)));
  }

  lemma OwnMarkersShift(all: seq<Line>, files: seq<Marked>, opens: seq<Open>)
    requires |files| == |opens| && files != []
    ensures OwnMarkers(all, files[1..], opens[1..]) <==>
            forall k :: 1 <= k < |files| ==>
              1 <= opens[k].startLine <= |all| && files[k].marker == all[opens[k].startLine - 1]
  {
    assert forall k :: 0 <= k < |files| - 1 ==> files[1..][k] == files[k + 1] && opens[1..][k] == opens[k + 1];
    assert forall k :: 1 <= k < |files| ==> files[k] == files[1..][k - 1] && opens[k] == opens[1..][k - 1];
  }

  // Whether lines written back are the lines split, on lines alone.
  lemma RewrittenBare(all: seq<Line>, marked: seq<Marked>, opens: seq<Open>)
    requires all != [] && all[0].name.None?
    requires opens == SplitOpens(all) && SameBodies(marked, opens)
    ensures marked[0].body + Unroll(marked[1..]) == all <==> OwnMarkers(all, marked[1..], opens[1..])
  {
    OwnMarkersCons(all, marked, opens);
    assert all[0..] == all;
    Rewritten(all, 0, Open(MAIN_CIRC, [], 0), marked[1..]);
  }

  lemma RewrittenMarked(all: seq<Line>, marked: seq<Marked>, opens: seq<Open>)
    requires all != [] && all[0].name.Some?
    requires opens == SplitOpens(all) && SameBodies(marked, opens)
    ensures [marked[0].marker] + marked[0].body + Unroll(marked[1..]) == all <==>
            marked[0].marker == all[0] && OwnMarkers(all, marked[1..], opens[1..])
  {
    OwnMarkersCons(all, marked, opens);
    Rewritten(all, 1, Open(all[0].name.value, [], 1), marked[1..]);
    var rest := marked[0].body + Unroll(marked[1..]);
    assert [marked[0].marker] + marked[0].body + Unroll(marked[1..]) == [marked[0].marker] + rest;
    assert all[0..] == all && all[0..0] == [];
    RewriteStep(all, 0, 0, [], marked[0].marker, rest);
    assert [] + [marked[0].marker] + rest == [marked[0].marker] + rest;
  }

  predicate Spelled(all: seq<Line>, opens: seq<Open>) {
    forall k :: 0 <= k < |opens| && 1 <= opens[k].startLine <= |all| ==>
      all[opens[k].startLine - 1].text == MarkerLine(opens[k].name)
  }

  lemma MarkerSpelled(all: seq<Line>, marked: Marked, o: Open)
    requires Read(all) && 1 <= o.startLine <= |all| && marked.marker == Look(MarkerLine(o.name))
    ensures marked.marker == all[o.startLine - 1] <==> all[o.startLine - 1].text == MarkerLine(o.name)
  {
    var line := all[o.startLine - 1];
    assert line == Look(line.text);
  }

  // Own markers are canonically spelled ones; the first file may have none.
  lemma OwnMarkersSpelled(all: seq<Line>, marked: seq<Marked>, opens: seq<Open>)
    requires Read(all) && opens != [] && |marked| == |opens| && AllInPlace(all, opens) && opens[0].startLine <= 1
    requires forall k :: 0 <= k < |opens| ==> marked[k].marker == Look(MarkerLine(opens[k].name))
    ensures Spelled(all, opens) <==>
            && OwnMarkers(all, marked[1..], opens[1..])
            && (opens[0].startLine == 1 && all != [] ==> marked[0].marker == all[0])
  {
    OwnMarkersShift(all, marked, opens);
    SpelledAt(all, marked, opens);
    LaterInPlace(all, opens);
  }

  // Each opening line is spelled as a join spells it when it is the file's marker.
  lemma SpelledAt(all: seq<Line>, marked: seq<Marked>, opens: seq<Open>)
    requires Read(all) && |marked| == |opens|
    requires forall k :: 0 <= k < |opens| ==> marked[k].marker == Look(MarkerLine(opens[k].name))
    ensures Spelled(all, opens) <==>
            forall k :: 0 <= k < |opens| && 1 <= opens[k].startLine <= |all| ==>
              marked[k].marker == all[opens[k].startLine - 1]
  {
    forall k | 0 <= k < |opens| && 1 <= opens[k].startLine <= |all|
      ensures marked[k].marker == all[opens[k].startLine - 1] <==>
              all[opens[k].startLine - 1].text == MarkerLine(opens[k].name)
    {
      MarkerSpelled(all, marked[k], opens[k]);
    }
  }

  lemma LaterInPlace(all: seq<Line>, opens: seq<Open>)
    requires AllInPlace(all, opens)
    ensures forall k :: 1 <= k < |opens| ==> 1 <= opens[k].startLine <= |all|
  {
    assert forall k :: 1 <= k < |opens| ==> InPlace(all, opens[k]) && opens[k].startLine >= 1;
  }

  lemma {:induction false} FirstName(rest: seq<Line>, at: nat, cur: Open)
    ensures SplitFrom(rest, at, cur)[0].name == cur.name
    decreases rest
  {
    if rest != [] && !(rest[0].name.Some? && HasContent(cur.body)) {
      FirstName(rest[1..], at + 1, cur.(body := cur.body + [rest[0]]));
    }
  }

  // The first file goes unmarked exactly as its lines say.
  lemma FirstOmits(source: Text)
    ensures var first := MarkedFiles(NamesAndBodies(Split(source)))[0];
            var all, named := ReadLines(source), NamesAndBodies(Split(source));
            && (OmitsMarker(named[0], 0) <==> named[0].name == MAIN_CIRC && first.body[0].name.None?)
            && (all[0].name.None? ==> named[0].name == MAIN_CIRC && first.body[0] == all[0])
  {
    var all := ReadLines(source);
    WrittenBodies(source);
    OpensInPlace(all);
    if all[0].name.None? {
      FirstName(all, 0, Open(MAIN_CIRC, [], 0));
      assert InPlace(all, SplitOpens(all)[0]);
    }
  }

  // What relates the lines of a source to the files split from them ...
  ghost predicate BodiesBack(all: seq<Line>, opens: seq<Open>, marked: seq<Marked>) {
    && all != [] && opens != [] && Read(all) && |marked| == |opens| && AllInPlace(all, opens)
    && opens[0].startLine == (if all[0].name.Some? then 1 else 0)
    && (forall k :: 0 <= k < |opens| ==> marked[k].marker == Look(MarkerLine(opens[k].name)))
    && (forall k :: 0 <= k < |opens| ==> marked[k].body == if opens[k].body == [] then [Look([])] else opens[k].body)
    && (forall k :: 0 <= k < |opens| - 1 ==> opens[k].body != [])
  }

  // ... and to the lines those files are written back with.
  ghost predicate LinesBack(all: seq<Line>, marked: seq<Marked>, bare: bool, joined: seq<Line>) {
    && all != [] && marked != [] && marked[0].body != []
    && joined == (if bare then marked[0].body else [marked[0].marker] + marked[0].body) + Unroll(marked[1..])
    && (all[0].name.None? ==> bare)
    && (bare ==> marked[0].body[0].name.None?)
    && (!bare ==> marked[0].marker.name.Some?)
  }

  ghost predicate WrittenBack(all: seq<Line>, opens: seq<Open>, marked: seq<Marked>, bare: bool, joined: seq<Line>) {
    BodiesBack(all, opens, marked) && LinesBack(all, marked, bare, joined)
  }

  // Every body is its own exactly when the last line opens no file.
  lemma KeptBodies(all: seq<Line>, opens: seq<Open>, marked: seq<Marked>)
    requires BodiesBack(all, opens, marked)
    ensures SameBodies(marked, opens) <==> opens[|opens| - 1].startLine < |all|
  {
    var last := |opens| - 1;
    assert opens[last].startLine + |opens[last].body| == |all|;
    if opens[last].body == [] {
      assert marked[last].body != opens[last].body;
    }
  }

  lemma ExactOnLines(all: seq<Line>, opens: seq<Open>, marked: seq<Marked>, bare: bool, joined: seq<Line>)
    requires WrittenBack(all, opens, marked, bare, joined) && opens == SplitOpens(all)
    requires SameBodies(marked, opens) && (opens[0].startLine == 1 ==> !bare)
    ensures joined == all <==> Spelled(all, opens)
  {
    OwnMarkersSpelled(all, marked, opens);
    if all[0].name.None? {
      RewrittenBare(all, marked, opens);
    } else {
      RewrittenMarked(all, marked, opens);
    }
  }

  lemma SplitBodiesBack(source: Text)
    ensures var all, named := ReadLines(source), NamesAndBodies(Split(source));
            BodiesBack(all, SplitOpens(all), MarkedFiles(named))
  {
    WrittenBodies(source);
    ReadLinesRead(source);
    OpensInPlace(ReadLines(source));
  }

  lemma SplitIsSound(source: Text)
    ensures var named := NamesAndBodies(Split(source));
            Sound(MarkedFiles(named)) && (OmitsMarker(named[0], 0) ==> MarkedFiles(named)[0].marker.name.value == MAIN_CIRC)
  {
    FirstOmits(source);
    SplitIsClean(source);
    CleanIsSound(NamesAndBodies(Split(source)));
  }

  lemma FirstParts(source: Text)
    ensures var first := MarkedFiles(NamesAndBodies(Split(source)))[0]; first.body != [] && first.marker.name.Some?
  {
    SplitIsSound(source);
    WrittenBodies(source);
  }

  lemma SplitLinesBack(source: Text)
    ensures var all, named := ReadLines(source), NamesAndBodies(Split(source));
            LinesBack(all, MarkedFiles(named), OmitsMarker(named[0], 0), ReadLines(JoinFiles(named)))
  {
    WrittenLines(source);
    FirstOmits(source);
    FirstParts(source);
  }

  // The parts a split and a join are made of, as lines.
  lemma SplitParts(source: Text) returns (all: seq<Line>, opens: seq<Open>, marked: seq<Marked>, bare: bool, joined: seq<Line>)
    ensures all == ReadLines(source) && opens == SplitOpens(all)
    ensures bare == OmitsMarker(NamesAndBodies(Split(source))[0], 0)
    ensures joined == ReadLines(JoinFiles(NamesAndBodies(Split(source))))
    ensures WrittenBack(all, opens, marked, bare, joined) && Sound(marked) && (bare ==> marked[0].marker.name.value == MAIN_CIRC)
  {
    var named := NamesAndBodies(Split(source));
    all, marked, bare, joined := ReadLines(source), MarkedFiles(named), OmitsMarker(named[0], 0), ReadLines(JoinFiles(named));
    opens := SplitOpens(all);
    SplitBodiesBack(source);
    SplitLinesBack(source);
    SplitIsSound(source);
  }

  // Lines written back to themselves leave no body empty and no marker redundant.
  lemma ExactOnlyWhen(all: seq<Line>, opens: seq<Open>, marked: seq<Marked>, bare: bool)
    requires WrittenBack(all, opens, marked, bare, all) && opens == SplitOpens(all) && Sound(marked)
    requires bare ==> marked[0].marker.name.value == MAIN_CIRC
    ensures SameBodies(marked, opens) && (opens[0].startLine == 1 ==> !bare)
  {
    OpensOfMarked(marked, bare);
    if bare {
      assert all[0] == marked[0].body[0];
    }
  }

  lemma ExactLines(all: seq<Line>, opens: seq<Open>, marked: seq<Marked>, bare: bool, joined: seq<Line>)
    requires WrittenBack(all, opens, marked, bare, joined) && opens == SplitOpens(all) && Sound(marked)
    requires bare ==> marked[0].marker.name.value == MAIN_CIRC
    ensures joined == all <==>
            opens[|opens| - 1].startLine < |all| && (opens[0].startLine == 1 ==> !bare) && Spelled(all, opens)
  {
    KeptBodies(all, opens, marked);
    if joined == all {
      ExactOnlyWhen(all, opens, marked, bare);
      ExactOnLines(all, opens, marked, bare, joined);
    } else if SameBodies(marked, opens) && (opens[0].startLine == 1 ==> !bare) {
      ExactOnLines(all, opens, marked, bare, joined);
    }
  }

  lemma ByteExactMeans(source: Text)
    ensures var all := ReadLines(source);
            var opens := SplitOpens(all);
            ByteExact(source) <==>
            && opens[|opens| - 1].startLine < |all|
            && (opens[0].startLine == 1 ==> !OmitsMarker(NamesAndBodies(Split(source))[0], 0))
            && Spelled(all, opens)
  {
    SpelledFiles(ReadLines(source), SplitOpens(ReadLines(source)));
  }

  // A join gives back the source byte for byte exactly when there is nothing to
  // normalise.
  lemma JoinSplitExactly(source: Text)
    ensures JoinFiles(NamesAndBodies(Split(source))) == source <==> ByteExact(source)
  {
    var named := NamesAndBodies(Split(source));
    JoinSplitLinesExactly(source);
    ByteExactMeans(source);
    if ReadLines(JoinFiles(named)) == ReadLines(source) {
      ReadLinesInjective(JoinFiles(named), source);
    }
  }

  lemma JoinSplitLinesExactly(source: Text)
    ensures var all, named := ReadLines(source), NamesAndBodies(Split(source));
            var opens := SplitOpens(all);
            ReadLines(JoinFiles(named)) == all <==>
            && opens[|opens| - 1].startLine < |all|
            && (opens[0].startLine == 1 ==> !OmitsMarker(named[0], 0))
            && Spelled(all, opens)
  {
    var all, opens, marked, bare, joined := SplitParts(source);
    ExactLines(all, opens, marked, bare, joined);
  }
}
