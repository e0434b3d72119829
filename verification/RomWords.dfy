// A memory image edited word by word (site/src/scripts/rom-words.ts).
module RomWords {
  // The image text can only say a prefix of the memory. Beside it travels the
  // set of implied addresses. Together they stand for a finite partial map from
  // addresses to words: the words the reader chose.

  import opened Collections
  import opened Wrappers
  import opened Numbers
  import opened RomImage

  type Words = seq<nat>

  predicate Fit(words: Words, mem: Memory) {
    && |words| <= mem.Capacity()
    && forall i :: 0 <= i < |words| ==> words[i] < Pow(2, mem.width)
  }

  // ---- text to words and back --------------------------------------------------

  predicate AllInRange(bytes: Bytes, mem: Memory, n: nat) {
    forall i :: 0 <= i < n ==> InRange(bytes, mem, i)
  }

  function WordList(bytes: Bytes, mem: Memory, n: nat): (words: Words)
    requires AllInRange(bytes, mem, n)
    ensures |words| == n
  {
    seq(n, i requires 0 <= i < n => assert InRange(bytes, mem, i); WordAt(bytes, i, mem.Stride()))
  }

  function WordsIn(text: string, mem: Memory): Outcome<Words>
    requires mem.Shaped()
  {
    match Parse(text, mem)
    case Refused(e) => Refused(e)
    case Accepted(image) =>
      AcceptedMeans(image.bytes, mem, image.words);
      Accepted(WordList(image.bytes, mem, image.words))
  }

  lemma WordsInFit(text: string, mem: Memory)
    requires mem.Shaped()
    ensures WordsIn(text, mem).Accepted? ==> Fit(WordsIn(text, mem).value, mem)
  {
    var parsed := Parse(text, mem);
    if parsed.Accepted? {
      var image := parsed.value;
      AcceptedMeans(image.bytes, mem, image.words);
      var words := WordList(image.bytes, mem, image.words);
      forall i | 0 <= i < |words|
        ensures words[i] < Pow(2, mem.width)
      {
        assert InRange(image.bytes, mem, i);
      }
    }
  }

  // One word of an accepted image, gathered highest byte first. The low eight
  // bits of a shifted word are clear, so `|` adds.
  method GatherWord(bytes: Bytes, i: nat, mem: Memory) returns (word: nat)
    requires InRange(bytes, mem, i)
    ensures word == WordAt(bytes, i, mem.Stride())
  {
    var stride := mem.Stride();
    var base := i * stride;
    ghost var mine := WordBytes(bytes, i, stride);
    var sum: nat, b: nat := 0, stride;
    while b > 0
      invariant 0 <= b <= stride
      invariant sum == LittleEndian(mine[b..])
    {
      b := b - 1;
      assert mine[b..][1..] == mine[b + 1..];
      sum := sum * 256 + bytes[base + b];
    }
    assert mine[0..] == mine;
    AndFits(sum, mem.width);
    word := And(sum, Mask(mem.width));
  }

  method GatherWords(bytes: Bytes, mem: Memory, n: nat) returns (words: Words)
    requires AllInRange(bytes, mem, n)
    ensures words == WordList(bytes, mem, n)
  {
    ghost var all := WordList(bytes, mem, n);
    words := [];
    for i := 0 to n
      invariant words == all[..i]
    {
      var word := GatherWord(bytes, i, mem);
      words := words + [word];
    }
  }

  method WordsOf(text: string, mem: Memory) returns (r: Outcome<Words>)
    requires mem.Shaped()
    ensures r == WordsIn(text, mem)
  {
    var parsed := ParseRomImage(text, mem);
    if parsed.Refused? {
      return Refused(parsed.error);
    }
    AcceptedMeans(parsed.value.bytes, mem, parsed.value.words);
    var words := GatherWords(parsed.value.bytes, mem, parsed.value.words);
    r := Accepted(words);
  }

  lemma {:induction false} FlattenLength(chunks: seq<Bytes>, stride: nat)
    requires forall c :: c in chunks ==> |c| == stride
    ensures |Flatten(chunks)| == |chunks| * stride
  {
    if chunks != [] {
      FlattenLength(chunks[..|chunks| - 1], stride);
      WordEnds(|chunks| - 1, |chunks|, stride);
    }
  }

  lemma {:induction false} FlattenAt(chunks: seq<Bytes>, stride: nat, i: nat)
    requires i < |chunks| && forall c :: c in chunks ==> |c| == stride
    ensures i * stride + stride <= |Flatten(chunks)| && WordBytes(Flatten(chunks), i, stride) == chunks[i]
  {
    var last := |chunks| - 1;
    var front := Flatten(chunks[..last]);
    FlattenLength(chunks[..last], stride);
    if i < last {
      FlattenAt(chunks[..last], stride, i);
      WordOfFront(front, chunks[last], i, stride);
    } else {
      WordOfBack(front, chunks[last], i, stride);
    }
  }

  lemma WordOfFront(front: Bytes, back: Bytes, i: nat, stride: nat)
    requires i * stride + stride <= |front|
    ensures i * stride + stride <= |front + back| && WordBytes(front + back, i, stride) == WordBytes(front, i, stride)
  {
    SliceOfPrefix(front, back, i * stride, i * stride + stride);
  }

  lemma WordOfBack(front: Bytes, back: Bytes, i: nat, stride: nat)
    requires |front| == i * stride && |back| == stride
    ensures i * stride + stride <= |front + back| && WordBytes(front + back, i, stride) == back
  {
    SliceOfRest(front, back);
  }

  lemma SliceOfPrefix(front: Bytes, back: Bytes, i: nat, j: nat)
    requires i <= j <= |front|
    ensures (front + back)[i..j] == front[i..j]
  {
  }

  lemma SliceOfRest(front: Bytes, back: Bytes)
    ensures (front + back)[|front|..|front| + |back|] == back
  {
  }

  function Chunks(words: Words, mem: Memory): (chunks: seq<Bytes>)
    ensures |chunks| == |words| && forall c :: c in chunks ==> |c| == mem.Stride()
  {
    seq(|words|, i requires 0 <= i < |words| => BytesOf(words[i] % Pow(2, mem.width), mem.Stride()))
  }

  function ImageText(words: Words, mem: Memory): string {
    HexOf(Flatten(Chunks(words, mem)))
  }

  lemma {:induction false} BytesOfAt(word: nat, n: nat, k: nat)
    requires k < n
    ensures BytesOf(word, n)[k] == word / Pow(256, k) % 256
  {
    if k > 0 {
      BytesOfAt(word / 256, n - 1, k - 1);
      DivModSplit(word, 256, Pow(256, k - 1));
    }
  }

  // Spread one word over the bytes from `base`, lowest first.
  method PutWord(bytes: array<Byte>, base: nat, word: nat, mem: Memory)
    requires base + mem.Stride() <= bytes.Length
    modifies bytes
    ensures bytes[..base] == old(bytes[..base])
    ensures bytes[base..base + mem.Stride()] == BytesOf(word % Pow(2, mem.width), mem.Stride())
  {
    var stride := mem.Stride();
    var w := And(word, Mask(mem.width));
    AndMask(word, mem.width);
    ghost var whole, goal := w, BytesOf(w, stride);
    for b := 0 to stride
      invariant bytes[..base] == old(bytes[..base])
      invariant bytes[base..base + b] == goal[..b]
      invariant w == whole / Pow(256, b)
    {
      BytesOfAt(whole, stride, b);
      bytes[base + b] := w % 256;
      DivModSplit(whole, Pow(256, b), 256);
      PowStep(b);
      w := w / 256;
    }
  }

  lemma PowStep(b: nat)
    ensures Pow(256, b) * 256 == Pow(256, b + 1)
  {
  }

  lemma FlattenSnoc(chunks: seq<Bytes>, i: nat, stride: nat)
    requires i < |chunks| && forall c :: c in chunks ==> |c| == stride
    ensures Flatten(chunks[..i + 1]) == Flatten(chunks[..i]) + chunks[i]
    ensures |Flatten(chunks[..i])| + stride <= |Flatten(chunks)|
  {
    assert chunks[..i + 1][..i] == chunks[..i];
    FlattenLength(chunks[..i], stride);
    FlattenLength(chunks, stride);
    WordEnds(i, |chunks|, stride);
  }

  lemma JoinSlices(bytes: Bytes, i: nat, j: nat)
    requires i <= j <= |bytes|
    ensures bytes[..j] == bytes[..i] + bytes[i..j]
  {
  }

  // Fill the byte array word by word.
  method FillImage(bytes: array<Byte>, words: Words, mem: Memory)
    requires bytes.Length == |Flatten(Chunks(words, mem))|
    modifies bytes
    ensures bytes[..] == Flatten(Chunks(words, mem))
  {
    ghost var chunks := Chunks(words, mem);
    var base := 0;
    for i := 0 to |words|
      invariant base == |Flatten(chunks[..i])| <= bytes.Length
      invariant bytes[..base] == Flatten(chunks[..i])
    {
      FlattenSnoc(chunks, i, mem.Stride());
      PutWord(bytes, base, words[i], mem);
      JoinSlices(bytes[..], base, base + mem.Stride());
      base := base + mem.Stride();
    }
    assert chunks[..|words|] == chunks;
  }

  method ImageOf(words: Words, mem: Memory) returns (text: string)
    requires mem.Shaped()
    ensures text == ImageText(words, mem)
  {
    var bytes := new Byte[|words| * mem.Stride()];
    FlattenLength(Chunks(words, mem), mem.Stride());
    FillImage(bytes, words, mem);
    text := HexOf(bytes[..]);
  }

  // The printer's text reads back as exactly the words printed, for every list
  // of words the memory can hold.
  lemma ImageReadsBack(words: Words, mem: Memory)
    requires mem.Shaped() && Fit(words, mem)
    ensures WordsIn(ImageText(words, mem), mem) == Accepted(words)
  {
    var chunks, stride := Chunks(words, mem), mem.Stride();
    var bytes := Flatten(chunks);
    FlattenLength(chunks, stride);
    forall i | 0 <= i < |words|
      ensures InRange(bytes, mem, i) && WordAt(bytes, i, stride) == words[i]
    {
      FlattenAt(chunks, stride, i);
      WidthFitsStride(mem);
      ModUnique(words[i], Pow(2, mem.width), 0, words[i]);
      LittleEndianOfBytes(words[i], stride);
    }
    AcceptedMeans(bytes, mem, |words|);
    HexScans(bytes);
    assert WordList(bytes, mem, |words|) == words;
  }

  // ---- the edit ------------------------------------------------------------------

  datatype Edit = Edit(text: string, implied: set<int>)

  datatype EditError =
    | NotAnAddress(addr: int)
    | Unreadable(why: Error)
    | TooLarge(width: nat)

  datatype EditOutcome = Edited(edit: Edit) | EditRefused(why: EditError)

  function Trim(implied: set<int>, length: nat): set<int> {
    set a | a in implied && a < length
  }

  // Down past implied addresses.
  function Shrink(implied: set<int>, end: nat): (e: nat)
    ensures e <= end
    ensures forall a :: e <= a < end ==> a in implied
    ensures e == 0 || e - 1 !in implied
  {
    if end > 0 && end - 1 in implied then Shrink(implied, end - 1) else end
  }

  // The addresses from `from` up to, not including, `to`.
  function Gap(from: int, to: int): (g: set<int>)
    ensures forall a :: a in g <==> from <= a < to
    decreases if from < to then to - from else 0
  {
    if from >= to then {} else Gap(from, to - 1) + {to - 1}
  }

  function ZeroWords(n: nat): Words {
    seq(n, _ => 0)
  }

  // The edit on words and implied addresses, between the parse and the print.
  function EditWords(words: Words, implied: set<int>, addr: nat, value: Option<nat>): (Words, set<int>) {
    match value
    case None =>
      if addr >= |words| then (words, Trim(implied, |words|))
      else if addr == |words| - 1 then
        var end := Shrink(implied, addr);
        (words[..end], Trim(implied, end))
      else (words[addr := 0], Trim(implied + {addr}, |words|))
    case Some(v) =>
      if addr < |words| then (words[addr := v], Trim(implied - {addr}, |words|))
      else (words + ZeroWords(addr - |words|) + [v], Trim(implied + Gap(|words|, addr) - {addr}, addr + 1))
  }

  function EditText(text: string, implied: set<int>, mem: Memory, addr: int, value: Option<int>): EditOutcome
    requires mem.Shaped()
  {
    if addr < 0 || addr >= mem.Capacity() then EditRefused(NotAnAddress(addr)) else
    match WordsIn(text, mem)
    case Refused(e) => EditRefused(Unreadable(e))
    case Accepted(words) =>
      if value.Some? && !(0 <= value.value <= Mask(mem.width)) then EditRefused(TooLarge(mem.width)) else
      var chosen: Option<nat> := if value.None? then None else Some(value.value);
      var (w, i) := EditWords(words, implied, addr, chosen);
      Edited(Edit(ImageText(w, mem), i))
  }

  // The un-write branches.
  method Unwrite(words: Words, implied: set<int>, addr: nat) returns (w: Words, next: set<int>)
    ensures (w, Trim(next, |w|)) == EditWords(words, implied, addr, None)
  {
    w, next := words, implied;
    if addr < |words| - 1 {
      w := w[addr := 0];
      next := next + {addr};
    } else if addr == |words| - 1 {
      // Implied words left at the end go with it: nothing needs them any more.
      var end: nat := addr;
      while end > 0 && end - 1 in next
        invariant Shrink(implied, addr) == Shrink(implied, end)
        invariant end <= addr
      {
        end := end - 1;
      }
      w := w[..end];
    }
  }

  // The write branch: fill the gap, then place the value.
  method Write(words: Words, implied: set<int>, addr: nat, value: nat) returns (w: Words, next: set<int>)
    ensures (w, Trim(next, |w|)) == EditWords(words, implied, addr, Some(value))
  {
    w, next := words, implied;
    var i := |words|;
    while i < addr
      invariant |words| <= i && (i <= addr || i == |words|)
      invariant w == words + ZeroWords(i - |words|)
      invariant next == implied + Gap(|words|, i)
    {
      w := w + [0];
      next := next + {i};
      i := i + 1;
    }
    w := if addr < |w| then w[addr := value] else w + [value];
    next := next - {addr};
    assert addr < |words| ==> Gap(|words|, i) == {};
  }

  method EditWord(text: string, implied: set<int>, mem: Memory, addr: int, value: Option<int>)
    returns (r: EditOutcome)
    requires mem.Shaped()
    ensures r == EditText(text, implied, mem, addr, value)
  {
    if addr < 0 || addr >= mem.Capacity() {
      return EditRefused(NotAnAddress(addr));
    }
    var read := WordsOf(text, mem);
    if read.Refused? {
      return EditRefused(Unreadable(read.error));
    }
    var words, next;
    if value.None? {
      words, next := Unwrite(read.value, implied, addr);
    } else if value.value < 0 || value.value > Mask(mem.width) {
      return EditRefused(TooLarge(mem.width));
    } else {
      words, next := Write(read.value, implied, addr, value.value);
    }
    var printed := ImageOf(words, mem);
    r := Edited(Edit(printed, Trim(next, |words|)));
  }

  // ---- the partial map behind it -------------------------------------------------

  // The reader's own words.
  function Chosen(words: Words, implied: set<int>): map<int, nat> {
    map a: int | 0 <= a < |words| && a !in implied :: words[a]
  }

  // Implied words are zeros inside the image, and the last word is never one.
  ghost predicate Coherent(words: Words, implied: set<int>) {
    && (forall a :: a in implied ==> 0 <= a < |words| && words[a] == 0)
    && |words| - 1 !in implied
  }

  // `edit` stands for the partial map `m` in the memory's shape.
  ghost predicate Stands(edit: Edit, mem: Memory, m: map<int, nat>)
    requires mem.Shaped()
  {
    var read := WordsIn(edit.text, mem);
    read.Accepted? && Coherent(read.value, edit.implied) && Chosen(read.value, edit.implied) == m
  }

  // What standing for `m` says of the image: one past the largest chosen address
  // long, chosen words in place, zeros elsewhere, implied exactly the rest.
  ghost predicate Pictures(words: Words, implied: set<int>, m: map<int, nat>) {
    && (forall a :: a in m ==> 0 <= a < |words| && words[a] == m[a])
    && (words != [] ==> |words| - 1 in m)
    && (forall a :: 0 <= a < |words| && a !in m ==> words[a] == 0)
    && (forall a :: a in implied <==> 0 <= a < |words| && a !in m)
  }

  lemma StandsMeans(edit: Edit, mem: Memory, m: map<int, nat>)
    requires mem.Shaped()
    ensures Stands(edit, mem, m) <==>
            WordsIn(edit.text, mem).Accepted? && Pictures(WordsIn(edit.text, mem).value, edit.implied, m)
  {
    if WordsIn(edit.text, mem).Accepted? {
      CoherentPictures(WordsIn(edit.text, mem).value, edit.implied, m);
    }
  }

  lemma CoherentPictures(words: Words, implied: set<int>, m: map<int, nat>)
    ensures Coherent(words, implied) && Chosen(words, implied) == m <==> Pictures(words, implied, m)
  {
    var c := Chosen(words, implied);
    if Coherent(words, implied) && c == m {
      assert forall a :: 0 <= a < |words| ==> (a in c <==> a !in implied);
      assert words != [] ==> |words| - 1 in c;
    }
    if Pictures(words, implied, m) {
      assert forall a :: a in c <==> a in m;
    }
  }

  // Hence the pair is determined by the map: no two images say the same thing.
  lemma StandsUnique(e: Edit, f: Edit, mem: Memory, m: map<int, nat>)
    requires mem.Shaped() && Stands(e, mem, m) && Stands(f, mem, m)
    ensures WordsIn(e.text, mem) == WordsIn(f.text, mem) && e.implied == f.implied
  {
    StandsMeans(e, mem, m);
    StandsMeans(f, mem, m);
    PicturesUnique(WordsIn(e.text, mem).value, e.implied, WordsIn(f.text, mem).value, f.implied, m);
  }

  lemma PicturesUnique(u: Words, i: set<int>, v: Words, j: set<int>, m: map<int, nat>)
    requires Pictures(u, i, m) && Pictures(v, j, m)
    ensures u == v && i == j
  {
    assert |u| == |v| by {
      assert u != [] ==> |u| - 1 in m;
      assert v != [] ==> |v| - 1 in m;
    }
    assert u == v;
    assert forall a :: a in i <==> a in j;
  }

  // Any readable text with nothing implied stands for all of its words.
  lemma FreshStands(text: string, mem: Memory)
    requires mem.Shaped() && WordsIn(text, mem).Accepted?
    ensures Stands(Edit(text, {}), mem, Chosen(WordsIn(text, mem).value, {}))
  {
  }

  datatype Change = Change(addr: int, value: Option<int>)

  predicate Legal(change: Change, mem: Memory) {
    && 0 <= change.addr < mem.Capacity()
    && (change.value.Some? ==> 0 <= change.value.value <= Mask(mem.width))
  }

  // The change as the reader means it.
  function Apply(m: map<int, nat>, change: Change, mem: Memory): map<int, nat> {
    if !Legal(change, mem) then m
    else if change.value.None? then m - {change.addr}
    else m[change.addr := change.value.value]
  }

  // The change as the module makes it; a refusal changes nothing.
  function Step(edit: Edit, change: Change, mem: Memory): Edit
    requires mem.Shaped()
  {
    match EditText(edit.text, edit.implied, mem, change.addr, change.value)
    case Edited(e) => e
    case EditRefused(_) => edit
  }

  lemma EditWordsRefines(words: Words, implied: set<int>, addr: nat, value: Option<nat>)
    requires Coherent(words, implied)
    ensures var (w, i) := EditWords(words, implied, addr, value);
            && Coherent(w, i)
            && Chosen(w, i) == if value.None? then Chosen(words, implied) - {addr}
                               else Chosen(words, implied)[addr := value.value]
  {
    var (w, i) := EditWords(words, implied, addr, value);
    var m := if value.None? then Chosen(words, implied) - {addr} else Chosen(words, implied)[addr := value.value];
    forall a: int
      ensures a in Chosen(w, i) <==> a in m
      ensures a in m ==> Chosen(w, i)[a] == m[a]
    {
    }
  }

  lemma EditWordsFits(words: Words, implied: set<int>, addr: nat, value: Option<nat>, mem: Memory)
    requires Fit(words, mem) && addr < mem.Capacity()
    requires value.Some? ==> value.value < Pow(2, mem.width)
    ensures Fit(EditWords(words, implied, addr, value).0, mem)
  {
  }

  // A legal edit of a readable image goes through text and comes back as the
  // edit on words.
  lemma EditThroughText(text: string, implied: set<int>, mem: Memory, addr: nat, value: Option<nat>)
    requires mem.Shaped() && WordsIn(text, mem).Accepted? && addr < mem.Capacity()
    requires value.Some? ==> value.value < Pow(2, mem.width)
    ensures var (w, i) := EditWords(WordsIn(text, mem).value, implied, addr, value);
            && EditText(text, implied, mem, addr, value) == Edited(Edit(ImageText(w, mem), i))
            && WordsIn(ImageText(w, mem), mem) == Accepted(w)
  {
    WordsInFit(text, mem);
    EditTextIs(text, implied, mem, addr, value);
    EditReadsBack(WordsIn(text, mem).value, implied, addr, value, mem);
  }

  lemma EditTextIs(text: string, implied: set<int>, mem: Memory, addr: nat, value: Option<nat>)
    requires mem.Shaped() && WordsIn(text, mem).Accepted? && addr < mem.Capacity()
    requires value.Some? ==> value.value < Pow(2, mem.width)
    ensures var (w, i) := EditWords(WordsIn(text, mem).value, implied, addr, value);
            EditText(text, implied, mem, addr, value) == Edited(Edit(ImageText(w, mem), i))
  {
  }

  lemma EditReadsBack(words: Words, implied: set<int>, addr: nat, value: Option<nat>, mem: Memory)
    requires mem.Shaped() && Fit(words, mem) && addr < mem.Capacity()
    requires value.Some? ==> value.value < Pow(2, mem.width)
    ensures var w := EditWords(words, implied, addr, value).0; WordsIn(ImageText(w, mem), mem) == Accepted(w)
  {
    EditWordsFits(words, implied, addr, value, mem);
    ImageReadsBack(EditWords(words, implied, addr, value).0, mem);
  }

  lemma StepRefines(edit: Edit, change: Change, mem: Memory, m: map<int, nat>)
    requires mem.Shaped() && Stands(edit, mem, m)
    ensures Stands(Step(edit, change, mem), mem, Apply(m, change, mem))
    ensures Legal(change, mem) ==> Printed(Step(edit, change, mem), mem)
    ensures !Legal(change, mem) ==> Step(edit, change, mem) == edit
  {
    if Legal(change, mem) {
      var words := WordsIn(edit.text, mem).value;
      var value: Option<nat> := if change.value.None? then None else Some(change.value.value);
      EditThroughText(edit.text, edit.implied, mem, change.addr, value);
      EditWordsRefines(words, edit.implied, change.addr, value);
    }
  }

  function RunEdits(edit: Edit, changes: seq<Change>, mem: Memory): Edit
    requires mem.Shaped()
    decreases changes
  {
    if changes == [] then edit else RunEdits(Step(edit, changes[0], mem), changes[1..], mem)
  }

  function RunMap(m: map<int, nat>, changes: seq<Change>, mem: Memory): map<int, nat>
    decreases changes
  {
    if changes == [] then m else RunMap(Apply(m, changes[0], mem), changes[1..], mem)
  }

  // Every run of writes and un-writes keeps the image standing for the map the
  // reader's own changes build.
  lemma {:induction false} RunRefines(edit: Edit, changes: seq<Change>, mem: Memory, m: map<int, nat>)
    requires mem.Shaped() && Stands(edit, mem, m)
    ensures Stands(RunEdits(edit, changes, mem), mem, RunMap(m, changes, mem))
    ensures (exists c :: c in changes && Legal(c, mem)) || Printed(edit, mem) ==>
            Printed(RunEdits(edit, changes, mem), mem)
    decreases changes
  {
    if changes != [] {
      StepRefines(edit, changes[0], mem, m);
      RunRefines(Step(edit, changes[0], mem), changes[1..], mem, Apply(m, changes[0], mem));
    }
  }

  // The text is the module's own canonical print.
  predicate Printed(edit: Edit, mem: Memory)
    requires mem.Shaped()
  {
    var read := WordsIn(edit.text, mem);
    read.Accepted? && edit.text == ImageText(read.value, mem)
  }

  // The image forgets its history: two edited images that come to the same map
  // are the same text and the same implied set, whatever was typed on the way.
  lemma HistoryForgotten(e: Edit, f: Edit, cs: seq<Change>, ds: seq<Change>, mem: Memory, m: map<int, nat>, n: map<int, nat>)
    requires mem.Shaped() && Stands(e, mem, m) && Stands(f, mem, n)
    requires exists c :: c in cs && Legal(c, mem)
    requires exists d :: d in ds && Legal(d, mem)
    ensures RunEdits(e, cs, mem) == RunEdits(f, ds, mem) <==> RunMap(m, cs, mem) == RunMap(n, ds, mem)
  {
    RunRefines(e, cs, mem, m);
    RunRefines(f, ds, mem, n);
    if RunMap(m, cs, mem) == RunMap(n, ds, mem) {
      StandsUnique(RunEdits(e, cs, mem), RunEdits(f, ds, mem), mem, RunMap(m, cs, mem));
    }
  }

  // `imageCells`: the grid of the whole memory when nothing is running.
  method ImageCells(text: string, mem: Memory) returns (r: Outcome<seq<Option<nat>>>)
    requires mem.Shaped()
    ensures r.Accepted? <==> WordsIn(text, mem).Accepted?
    ensures r.Accepted? ==> |r.value| == mem.Capacity() && forall a :: 0 <= a < mem.Capacity() ==>
      r.value[a] == if a < |WordsIn(text, mem).value| then Some(WordsIn(text, mem).value[a]) else None
  {
    var read := WordsOf(text, mem);
    if read.Refused? {
      return Refused(read.error);
    }
    var cells := seq(mem.Capacity(), _ => None);
    for i := 0 to |read.value|
      invariant |cells| == mem.Capacity()
      invariant forall a :: 0 <= a < |cells| ==> cells[a] == if a < i then Some(read.value[a]) else None
    {
      cells := cells[i := Some(read.value[i])];
    }
    r := Accepted(cells);
  }
}
