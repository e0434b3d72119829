// Reading a text in chunks that never split a surrogate pair
// (site/src/scripts/playground-reads.ts, site/src/scripts/playground-inspection.ts).
module Paging {
  import opened Wrappers
  import opened Utf16

  const MAX_CHUNK_SIZE := 4096
  const MAX_PAGE_SIZE := 24 * 1024

  // A chunk of text and where the next one starts.
  datatype Page = Page(text: Text, next: Option<nat>)

  // `readFile`, once the file is found and the revisions agree.
  function ReadFile(body: Text, offset: int, size: int): Option<Page> {
    if offset < 0 || size < 2 || size > MAX_CHUNK_SIZE || offset > |body|
       || (0 < offset < |body| && IsLow(body[offset])) then None
    else
      var most := if offset + size < |body| then offset + size else |body|;
      var end := if most < |body| && IsLow(body[most]) then most - 1 else most;
      Some(Page(body[offset..end], if end == |body| then None else Some(end)))
  }

  // `textPage`
  function TextPage(text: Text, offset: int, target: int): Option<Page> {
    if offset < 0 || offset > |text| || target < 1 || target > MAX_PAGE_SIZE then None
    else
      var most := if offset + target < |text| then offset + target else |text|;
      var back := if most < |text| && most > offset && IsHigh(text[most - 1]) then most - 1 else most;
      var end := if back == offset && back < |text| then back + 2 else back;
      var cut := if end < |text| then end else |text|;
      Some(Page(text[offset..cut], if end < |text| then Some(end) else None))
  }

  // Which of the two readers is followed, and the sizes it accepts.
  datatype Reader = Files | Pages {
    function Read(text: Text, offset: int, size: int): Option<Page> {
      if Files? then ReadFile(text, offset, size) else TextPage(text, offset, size)
    }

    predicate Legal(size: int) {
      if Files? then 2 <= size <= MAX_CHUNK_SIZE else 1 <= size <= MAX_PAGE_SIZE
    }
  }

  // The chunks got by following `next` from `offset`, the k-th read asking for
  // `sizes(k)`; None when a read is refused or fails to advance.
  function Follow(reader: Reader, text: Text, offset: nat, sizes: nat -> int, k: nat): Option<seq<Text>>
    decreases |text| - offset
  {
    match reader.Read(text, offset, sizes(k))
    case None => None
    case Some(page) =>
      if page.next.None? then Some([page.text])
      else if !(offset < page.next.value <= |text|) then None
      else
        match Follow(reader, text, page.next.value, sizes, k + 1)
        case None => None
        case Some(rest) => Some([page.text] + rest)
  }

  function Concat(chunks: seq<Text>): Text {
    if chunks == [] then [] else chunks[0] + Concat(chunks[1..])
  }

  // Well-formedness as it shows around each offset.
  predicate Paired(s: Text) {
    && (forall k :: 0 < k < |s| ==> (IsHigh(s[k - 1]) <==> IsLow(s[k])))
    && (s != [] ==> !IsLow(s[0]) && !IsHigh(s[|s| - 1]))
  }

  lemma WellFormedPaired(s: Text)
    requires WellFormed(s)
    ensures Paired(s)
  {
    WellFormedMeans(s);
  }

  // The page ends at a scalar boundary, later than it started unless the text
  // is over.
  predicate Advances(text: Text, offset: nat, page: Page) {
    var end := if page.next.Some? then page.next.value else |text|;
    && offset <= end <= |text| && page.text == text[offset..end]
    && ScalarBoundary(text, end)
    && (page.next.Some? ==> offset < end < |text|)
  }

  lemma ReadFileAdvances(text: Text, offset: nat, size: int)
    requires Paired(text) && ScalarBoundary(text, offset) && Files.Legal(size)
    ensures ReadFile(text, offset, size).Some? && Advances(text, offset, ReadFile(text, offset, size).value)
  {
    var most := if offset + size < |text| then offset + size else |text|;
    if most < |text| && IsLow(text[most]) {
      assert IsHigh(text[most - 1]);
    }
  }

  lemma TextPageAdvances(text: Text, offset: nat, target: int)
    requires Paired(text) && ScalarBoundary(text, offset) && Pages.Legal(target)
    ensures TextPage(text, offset, target).Some? && Advances(text, offset, TextPage(text, offset, target).value)
  {
    var most := if offset + target < |text| then offset + target else |text|;
    if offset < most < |text| && IsHigh(text[most - 1]) {
      assert IsLow(text[most]);
      if most + 1 < |text| {
        assert !IsHigh(text[most]);
      }
    }
  }

  // One read at a scalar boundary succeeds, and the next one starts at a later one.
  lemma ReadAdvances(reader: Reader, text: Text, offset: nat, size: int)
    requires Paired(text) && ScalarBoundary(text, offset) && reader.Legal(size)
    ensures reader.Read(text, offset, size).Some? && Advances(text, offset, reader.Read(text, offset, size).value)
  {
    match reader
    case Files => ReadFileAdvances(text, offset, size);
    case Pages => TextPageAdvances(text, offset, size);
  }

  // Where a page ends: at the last scalar boundary within its size, or past the one
  // pair there is no room for.
  predicate Longest(text: Text, offset: nat, size: int, page: Page) {
    var end := if page.next.Some? then page.next.value else |text|;
    && (end <= offset + size || (end == offset + 2 && size == 1))
    && forall j :: end < j <= |text| && j <= offset + size ==> !ScalarBoundary(text, j)
  }

  // A page holds as much as its size allows.
  lemma ReadIsLongest(reader: Reader, text: Text, offset: nat, size: int)
    requires Paired(text) && ScalarBoundary(text, offset) && reader.Legal(size)
    ensures var page := reader.Read(text, offset, size);
            page.Some? && Advances(text, offset, page.value) && Longest(text, offset, size, page.value)
  {
    ReadAdvances(reader, text, offset, size);
    var most := if offset + size < |text| then offset + size else |text|;
    if 0 < most < |text| {
      assert IsHigh(text[most - 1]) <==> IsLow(text[most]);
      if most - 1 > 0 {
        assert IsHigh(text[most - 2]) <==> IsLow(text[most - 1]);
      }
    }
  }

  // A read of a file is refused exactly for a size that is not 2 to 4096, an offset
  // outside the text, or one in front of a low surrogate; a page of text for a size
  // that is not 1 to 24576 or an offset outside.
  lemma RefusedExactly(text: Text, offset: int, size: int)
    ensures Files.Read(text, offset, size).None? <==>
            !(2 <= size <= 4096) || !(0 <= offset <= |text|) || (0 < offset < |text| && 0xDC00 <= text[offset] <= 0xDFFF)
    ensures Pages.Read(text, offset, size).None? <==> !(1 <= size <= 24576) || !(0 <= offset <= |text|)
  {
  }

  // ---- which texts come back whole -----------------------------------------------------------

  // Two low surrogates in a row, past the first unit: where a chunk can end and
  // no later read may start.
  predicate AdjoiningLows(text: Text, k: nat) {
    2 <= k < |text| && IsLow(text[k - 1]) && IsLow(text[k])
  }

  predicate Readable(reader: Reader, text: Text) {
    reader.Files? ==> forall k :: 0 <= k < |text| ==> !AdjoiningLows(text, k)
  }

  // Where a read is not refused.
  predicate Startable(reader: Reader, text: Text, offset: nat) {
    offset <= |text| && (reader.Files? && 0 < offset < |text| ==> !IsLow(text[offset]))
  }

  // A stretch of the text from the offset, not empty unless the text is over.
  predicate Sliced(text: Text, offset: nat, page: Page) {
    var end := if page.next.Some? then page.next.value else |text|;
    && offset <= end <= |text| && page.text == text[offset..end]
    && (page.next.Some? ==> offset < end < |text|)
  }

  lemma ReadSlices(reader: Reader, text: Text, offset: nat, size: int)
    requires Readable(reader, text) && Startable(reader, text, offset) && reader.Legal(size)
    ensures var page := reader.Read(text, offset, size);
            && page.Some? && Sliced(text, offset, page.value)
            && (page.value.next.Some? ==> Startable(reader, text, page.value.next.value))
  {
    if reader.Files? {
      var most := if offset + size < |text| then offset + size else |text|;
      assert most < |text| ==> !AdjoiningLows(text, most);
    }
  }

  // The chunks add up to the text from the offset on.
  predicate Restores(text: Text, offset: nat, chunks: Option<seq<Text>>)
    requires offset <= |text|
  {
    chunks.Some? && Concat(chunks.value) == text[offset..]
  }

  lemma AddChunk(text: Text, offset: nat, end: nat, rest: seq<Text>)
    requires offset <= end <= |text| && Restores(text, end, Some(rest))
    ensures Restores(text, offset, Some([text[offset..end]] + rest))
  {
    assert text[offset..end] + text[end..] == text[offset..];
    assert ([text[offset..end]] + rest)[1..] == rest;
  }

  lemma LastChunk(text: Text, offset: nat)
    requires offset <= |text|
    ensures Restores(text, offset, Some([text[offset..|text|]]))
  {
    assert text[|text|..] == [] && [text[offset..|text|]] + [] == [text[offset..|text|]];
    AddChunk(text, offset, |text|, []);
  }

  lemma {:induction false} FollowRestores(reader: Reader, text: Text, offset: nat, sizes: nat -> int, k: nat)
    requires Readable(reader, text) && Startable(reader, text, offset)
    requires forall i: nat :: reader.Legal(sizes(i))
    ensures Restores(text, offset, Follow(reader, text, offset, sizes, k))
    decreases |text| - offset
  {
    ReadSlices(reader, text, offset, sizes(k));
    var page := reader.Read(text, offset, sizes(k)).value;
    if page.next.Some? {
      FollowRestores(reader, text, page.next.value, sizes, k + 1);
      AddChunk(text, offset, page.next.value, Follow(reader, text, page.next.value, sizes, k + 1).value);
    } else {
      LastChunk(text, offset);
    }
  }

  // Only the sizes still to come matter.
  lemma {:induction false} FollowAlike(reader: Reader, text: Text, offset: nat, a: nat -> int, b: nat -> int, k: nat)
    requires forall i: nat :: i >= k ==> a(i) == b(i)
    ensures Follow(reader, text, offset, a, k) == Follow(reader, text, offset, b, k)
    decreases |text| - offset
  {
    var page := reader.Read(text, offset, a(k));
    if page.Some? && page.value.next.Some? && offset < page.value.next.value <= |text| {
      FollowAlike(reader, text, page.value.next.value, a, b, k + 1);
    }
  }

  // Sizes that run into two low surrogates in a row: long strides until the
  // second of them is near, then exactly up to it.
  lemma {:induction false} RunsInto(text: Text, low: nat, offset: nat, k: nat) returns (sizes: nat -> int)
    requires AdjoiningLows(text, low) && offset + 2 <= low
    ensures forall i: nat :: Files.Legal(sizes(i))
    ensures Follow(Files, text, offset, sizes, k).None?
    decreases low - offset
  {
    if low - offset <= MAX_CHUNK_SIZE {
      sizes := (i: nat) => low - offset;
      assert ReadFile(text, offset, sizes(k)).Some? ==> ReadFile(text, offset, sizes(k)).value.next == Some(low - 1);
      assert ReadFile(text, low - 1, sizes(k + 1)).None?;
    } else {
      var page := ReadFile(text, offset, MAX_CHUNK_SIZE - 2);
      var rest := (i: nat) => MAX_CHUNK_SIZE - 2;
      if page.Some? {
        rest := RunsInto(text, low, page.value.next.value, k + 1);
      }
      sizes := (i: nat) => if i == k then MAX_CHUNK_SIZE - 2 else rest(i);
      if page.Some? {
        FollowAlike(Files, text, page.value.next.value, rest, sizes, k + 1);
      }
    }
  }

  // Followed from the start with any legal sizes, the chunks always add up to the
  // text exactly when it is readable: any text by pages, and by files any without
  // two low surrogates in a row past its first unit.
  lemma ReadsExactly(reader: Reader, text: Text)
    ensures Readable(reader, text) <==>
            forall sizes: nat -> int :: (forall i: nat :: reader.Legal(sizes(i))) ==>
              Restores(text, 0, Follow(reader, text, 0, sizes, 0))
  {
    if Readable(reader, text) {
      forall sizes: nat -> int | forall i: nat :: reader.Legal(sizes(i))
        ensures Restores(text, 0, Follow(reader, text, 0, sizes, 0))
      {
        FollowRestores(reader, text, 0, sizes, 0);
      }
    } else {
      var low: nat :| low < |text| && AdjoiningLows(text, low);
      var sizes := RunsInto(text, low, 0, 0);
      assert !Restores(text, 0, Follow(reader, text, 0, sizes, 0));
    }
  }

  lemma WellFormedReadable(reader: Reader, text: Text)
    requires WellFormed(text)
    ensures Readable(reader, text)
  {
    WellFormedPaired(text);
  }

  predicate EachWellFormed(chunks: seq<Text>) {
    forall i :: 0 <= i < |chunks| ==> WellFormed(chunks[i])
  }

  lemma {:induction false} ChunksFrom(reader: Reader, text: Text, offset: nat, sizes: nat -> int, k: nat)
    requires WellFormed(text) && ScalarBoundary(text, offset)
    requires forall i: nat :: reader.Legal(sizes(i))
    ensures Follow(reader, text, offset, sizes, k).Some? && EachWellFormed(Follow(reader, text, offset, sizes, k).value)
    decreases |text| - offset
  {
    WellFormedPaired(text);
    ReadAdvances(reader, text, offset, sizes(k));
    var page := reader.Read(text, offset, sizes(k)).value;
    if page.next.Some? {
      ChunksFrom(reader, text, page.next.value, sizes, k + 1);
      WellFormedSlice(text, offset, page.next.value);
    } else {
      WellFormedCut(text, offset);
      assert text[offset..|text|] == text[offset..];
    }
  }

  // A well-formed text comes back whole, in chunks that are well-formed.
  lemma WholeTextReads(reader: Reader, text: Text, sizes: nat -> int)
    requires WellFormed(text) && forall i: nat :: reader.Legal(sizes(i))
    ensures var chunks := Follow(reader, text, 0, sizes, 0);
            chunks.Some? && Concat(chunks.value) == text && EachWellFormed(chunks.value)
  {
    WellFormedReadable(reader, text);
    FollowRestores(reader, text, 0, sizes, 0);
    ChunksFrom(reader, text, 0, sizes, 0);
    assert text[0..] == text;
  }

  // An input that is not readable: a chunk of two ends where no read may start.
  lemma StrayLowsBreakReading()
    ensures var body: Text := [0x61, 0xDC00, 0xDC00];
            && AdjoiningLows(body, 2) && ReadFile(body, 0, 2).Some? && ReadFile(body, 0, 2).value.next == Some(1)
            && ReadFile(body, 1, 2).None?
  {
    var body: Text := [0x61, 0xDC00, 0xDC00];
    assert body[1..][0] == 0xDC00;
  }
}
