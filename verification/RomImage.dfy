// Reading and validating a memory image: hex text to bytes, bytes to
// little-endian words (site/src/utils/rom-image.ts).
module RomImage {
  import opened Numbers
  import Utf16

  type Byte = n: nat | n < 256
  type Bytes = seq<Byte>

  datatype Kind = Rom | Ram

  datatype Memory = Memory(name: string, kind: Kind, width: nat, addrWidth: nat) {
    // W runs 1..64 and A runs 1..16.
    predicate Shaped() {
      1 <= width <= 64 && 1 <= addrWidth <= 16
    }

    function Stride(): (n: nat)
      ensures width > 0 ==> n > 0
    {
      (width + 7) / 8
    }

    function Capacity(): (n: nat)
      ensures n > 0
    {
      Pow(2, addrWidth)
    }
  }

  datatype Error =
    | BadChar(index: nat, bad: char)
    | OddToken(token: string, index: nat)
    | NotWordMultiple(bytes: nat, bytesPerWord: nat)
    | TooManyWords(words: nat, capacity: nat)
    | WordExceedsWidth(word: nat, dataWidth: nat)

  datatype Outcome<+T> = Accepted(value: T) | Refused(error: Error)

  datatype Image = Image(bytes: Bytes, words: nat, hex: string)

  // ---- words ----------------------------------------------------------------

  // The value of little-endian bytes.
  function LittleEndian(bytes: Bytes): nat {
    if bytes == [] then 0 else bytes[0] + 256 * LittleEndian(bytes[1..])
  }

  // The low `n` bytes of a word, lowest first.
  function BytesOf(word: nat, n: nat): (bytes: Bytes)
    ensures |bytes| == n
  {
    if n == 0 then [] else [word % 256] + BytesOf(word / 256, n - 1)
  }

  // The bytes of word `index`.
  function WordBytes(bytes: Bytes, index: nat, stride: nat): (b: Bytes)
    requires index * stride + stride <= |bytes|
    ensures |b| == stride
  {
    bytes[index * stride..index * stride + stride]
  }

  function WordAt(bytes: Bytes, index: nat, stride: nat): nat
    requires index * stride + stride <= |bytes|
  {
    LittleEndian(WordBytes(bytes, index, stride))
  }

  // Word `index` lies inside an image of `words` words.
  lemma WordEnds(index: nat, words: nat, stride: nat)
    requires index < words
    ensures index * stride + stride <= words * stride
    ensures index * stride + stride == (index + 1) * stride
  {
    MulLe(index + 1, words, stride);
  }

  lemma {:induction false} LittleEndianSnoc(bytes: Bytes, b: Byte)
    ensures LittleEndian(bytes + [b]) == LittleEndian(bytes) + b * Pow(256, |bytes|)
  {
    if bytes == [] {
      assert [b][1..] == [];
    } else {
      assert (bytes + [b])[1..] == bytes[1..] + [b];
      LittleEndianSnoc(bytes[1..], b);
      assert 256 * (b * Pow(256, |bytes| - 1)) == b * Pow(256, |bytes|);
    }
  }

  // `readWord`: the bytes gathered lowest first, each shifted to its place. The
  // places do not overlap, so `|` adds.
  method ReadWord(bytes: Bytes, index: nat, stride: nat) returns (word: nat)
    requires index * stride + stride <= |bytes|
    ensures word == WordAt(bytes, index, stride)
  {
    var base := index * stride;
    ghost var mine := WordBytes(bytes, index, stride);
    word := 0;
    for k := 0 to stride
      invariant word == LittleEndian(mine[..k])
    {
      assert mine[..k + 1] == mine[..k] + [bytes[base + k]];
      LittleEndianSnoc(mine[..k], bytes[base + k]);
      word := word + bytes[base + k] * Pow(256, k);
    }
    assert mine[..stride] == mine;
  }

  lemma {:induction false} LittleEndianOfBytes(word: nat, n: nat)
    requires word < Pow(256, n)
    ensures LittleEndian(BytesOf(word, n)) == word
  {
    if n > 0 {
      DivBelow(word, 256, Pow(256, n - 1));
      LittleEndianOfBytes(word / 256, n - 1);
      assert BytesOf(word, n)[1..] == BytesOf(word / 256, n - 1);
    }
  }

  // A word that fits its width fits the bytes its width rounds up to.
  lemma WidthFitsStride(mem: Memory)
    ensures Pow(2, mem.width) <= Pow(256, mem.Stride())
  {
    var n := mem.Stride();
    assert Pow(2, 8) == 256 by {
      assert Pow(2, 4) == 16;
      PowAdd(2, 4, 4);
    }
    PowPow(2, 8, n);
    PowMonotone(2, mem.width, 8 * n);
  }

  // ---- checks on whole bytes ----------------

  // The first word at or after `from` that has a bit beyond the data width.
  function FirstWide(bytes: Bytes, mem: Memory, from: nat, words: nat): (i: nat)
    requires from <= words && words * mem.Stride() == |bytes|
    ensures from <= i <= words
    ensures forall j :: from <= j < i ==> InRange(bytes, mem, j)
    ensures i < words ==> i * mem.Stride() + mem.Stride() <= |bytes| && !InRange(bytes, mem, i)
    decreases words - from
  {
    if from == words then words else
    WordEnds(from, words, mem.Stride());
    if InRange(bytes, mem, from) then FirstWide(bytes, mem, from + 1, words) else from
  }

  predicate InRange(bytes: Bytes, mem: Memory, index: nat) {
    index * mem.Stride() + mem.Stride() <= |bytes| && WordAt(bytes, index, mem.Stride()) < Pow(2, mem.width)
  }

  function Validate(bytes: Bytes, mem: Memory): Outcome<nat>
    requires mem.Shaped()
  {
    var stride := mem.Stride();
    if |bytes| % stride != 0 then Refused(NotWordMultiple(|bytes|, stride)) else
    var words := |bytes| / stride;
    if words > mem.Capacity() then Refused(TooManyWords(words, mem.Capacity())) else
    assert words * stride == |bytes|;
    var i := FirstWide(bytes, mem, 0, words);
    if i < words then Refused(WordExceedsWidth(WordAt(bytes, i, stride), mem.width)) else Accepted(words)
  }

  method ValidateImageBytes(bytes: Bytes, mem: Memory) returns (r: Outcome<nat>)
    requires mem.Shaped()
    ensures r == Validate(bytes, mem)
  {
    var stride := mem.Stride();
    if |bytes| % stride != 0 {
      return Refused(NotWordMultiple(|bytes|, stride));
    }
    var words := |bytes| / stride;
    if words > mem.Capacity() {
      return Refused(TooManyWords(words, mem.Capacity()));
    }
    assert words * stride == |bytes|;
    for i := 0 to words
      invariant FirstWide(bytes, mem, 0, words) == FirstWide(bytes, mem, i, words)
    {
      WordEnds(i, words, stride);
      var word := ReadWord(bytes, i, stride);
      // `word & ~mask` is zero exactly when the word is at most the mask.
      if word > Mask(mem.width) {
        return Refused(WordExceedsWidth(word, mem.width));
      }
    }
    r := Accepted(words);
  }

  // What acceptance means: whole words, no more than fit, each within its width.
  lemma AcceptedMeans(bytes: Bytes, mem: Memory, words: nat)
    requires mem.Shaped()
    ensures Validate(bytes, mem) == Accepted(words) <==>
            && |bytes| == words * mem.Stride()
            && words <= mem.Capacity()
            && forall i :: 0 <= i < words ==> InRange(bytes, mem, i)
  {
    var stride := mem.Stride();
    assert |bytes| == |bytes| / stride * stride + |bytes| % stride;
    if |bytes| == words * stride {
      ModUnique(|bytes|, stride, words, 0);
      var i := FirstWide(bytes, mem, 0, words);
    }
  }

  // ---- hex text --------------------------------------------------------------

  predicate IsSpace(c: char) {
    Utf16.IsSpace(c as nat)
  }

  predicate IsHex(c: char) {
    DigitValue(c) < 16
  }

  // The suffix from the first newline on.
  function FromNewline(s: string): (t: string)
    ensures |t| <= |s|
  {
    if s == "" || s[0] == '\n' then s else FromNewline(s[1..])
  }

  function DropSlashComments(s: string): string
    decreases |s|
  {
    if s == "" then ""
    else if |s| >= 2 && s[0] == '/' && s[1] == '/' then " " + DropSlashComments(FromNewline(s[2..]))
    else [s[0]] + DropSlashComments(s[1..])
  }

  function DropHashComments(s: string): string
    decreases |s|
  {
    if s == "" then ""
    else if s[0] == '#' then " " + DropHashComments(FromNewline(s[1..]))
    else [s[0]] + DropHashComments(s[1..])
  }

  function BlankCommas(s: string): string {
    seq(|s|, i requires 0 <= i < |s| => if s[i] == ',' then ' ' else s[i])
  }

  function Strip(text: string): string {
    BlankCommas(DropHashComments(DropSlashComments(text)))
  }

  function TokenStart(s: string, pos: nat): (i: nat)
    requires pos <= |s|
    ensures pos <= i <= |s|
    ensures i < |s| ==> !IsSpace(s[i])
    decreases |s| - pos
  {
    if pos < |s| && IsSpace(s[pos]) then TokenStart(s, pos + 1) else pos
  }

  function TokenEnd(s: string, pos: nat): (i: nat)
    requires pos <= |s|
    ensures pos <= i <= |s|
    ensures pos < |s| && !IsSpace(s[pos]) ==> pos < i
    ensures forall k :: pos <= k < i ==> !IsSpace(s[k])
    ensures i < |s| ==> IsSpace(s[i])
    decreases |s| - pos
  {
    if pos < |s| && !IsSpace(s[pos]) then TokenEnd(s, pos + 1) else pos
  }

  predicate WholeHex(token: string) {
    |token| % 2 == 0 && forall i :: 0 <= i < |token| ==> IsHex(token[i])
  }

  function PairAt(token: string, i: nat): Byte
    requires WholeHex(token) && 2 * i < |token|
  {
    assert IsHex(token[2 * i]) && IsHex(token[2 * i + 1]);
    DigitValue(token[2 * i]) * 16 + DigitValue(token[2 * i + 1])
  }

  function PairBytes(token: string): (bytes: Bytes)
    requires WholeHex(token)
    ensures |bytes| == |token| / 2
  {
    seq(|token| / 2, i requires 0 <= i < |token| / 2 => PairAt(token, i))
  }

  function FirstBad(token: string): (i: nat)
    ensures i <= |token|
    ensures forall k :: 0 <= k < i ==> IsHex(token[k])
    ensures i < |token| ==> !IsHex(token[i])
  {
    if token == "" || !IsHex(token[0]) then 0 else 1 + FirstBad(token[1..])
  }

  function Unprefixed(token: string): string {
    if |token| >= 2 && token[0] == '0' && (token[1] == 'x' || token[1] == 'X') then token[2..] else token
  }

  // The bytes of one token that starts at `index` of the stripped text.
  function TokenBytes(token: string, index: nat): Outcome<Bytes> {
    var t := Unprefixed(token);
    var bad := FirstBad(t);
    if bad < |t| then Refused(BadChar(index + bad, t[bad]))
    else if |t| % 2 != 0 then Refused(OddToken(t, index))
    else Accepted(PairBytes(t))
  }

  // Every token from `pos` on, or the first refusal.
  function ScanBytes(s: string, pos: nat): Outcome<Bytes>
    requires pos <= |s|
    decreases |s| - pos
  {
    var start := TokenStart(s, pos);
    if start == |s| then Accepted([]) else
    var end := TokenEnd(s, start);
    match TokenBytes(s[start..end], start)
    case Refused(e) => Refused(e)
    case Accepted(here) =>
      match ScanBytes(s, end)
      case Refused(e) => Refused(e)
      case Accepted(rest) => Accepted(here + rest)
  }

  // Two digits for each byte.
  function HexOf(bytes: Bytes): (s: string)
    ensures |s| == 2 * |bytes|
    ensures forall i :: 0 <= i < |s| ==> IsHex(s[i])
  {
    if bytes == [] then "" else HexPair(bytes[0]) + HexOf(bytes[1..])
  }

  function HexPair(b: Byte): (s: string)
    ensures |s| == 2 && IsHex(s[0]) && IsHex(s[1])
    ensures DigitValue(s[0]) * 16 + DigitValue(s[1]) == b
  {
    assert b >= 16 ==> Spell(b, 16) == Spell(b / 16, 16) + [DigitChar(b % 16)];
    Pad(Spell(b, 16), 2)
  }

  function Parse(text: string, mem: Memory): Outcome<Image>
    requires mem.Shaped()
  {
    match ScanBytes(Strip(text), 0)
    case Refused(e) => Refused(e)
    case Accepted(bytes) =>
      match Validate(bytes, mem)
      case Refused(e) => Refused(e)
      case Accepted(words) => Accepted(Image(bytes, words, HexOf(bytes)))
  }

  // The body of the token loop.
  method ReadToken(raw: string, index: nat) returns (r: Outcome<Bytes>)
    ensures r == TokenBytes(raw, index)
  {
    var token := Unprefixed(raw);
    var bad := FirstBad(token);
    if bad < |token| {
      return Refused(BadChar(index + bad, token[bad]));
    }
    if |token| % 2 != 0 {
      return Refused(OddToken(token, index));
    }
    var bytes: Bytes := [];
    for i := 0 to |token| / 2
      invariant bytes == PairBytes(token)[..i]
    {
      bytes := bytes + [PairAt(token, i)];
    }
    assert PairBytes(token)[..|token| / 2] == PairBytes(token);
    r := Accepted(bytes);
  }

  function Prepend(bytes: Bytes, r: Outcome<Bytes>): Outcome<Bytes> {
    match r
    case Refused(e) => Refused(e)
    case Accepted(rest) => Accepted(bytes + rest)
  }

  lemma ScanStep(s: string, pos: nat, before: Bytes)
    requires pos <= |s| && TokenStart(s, pos) < |s|
    ensures var start := TokenStart(s, pos);
            var end := TokenEnd(s, start);
            var here := TokenBytes(s[start..end], start);
            Prepend(before, ScanBytes(s, pos)) ==
            if here.Refused? then here else Prepend(before + here.value, ScanBytes(s, end))
  {
    var start := TokenStart(s, pos);
    var end := TokenEnd(s, start);
    var here := TokenBytes(s[start..end], start);
    ScanUnfolds(s, pos);
    if here.Accepted? {
      PrependTwice(before, here.value, ScanBytes(s, end));
    }
  }

  lemma ScanUnfolds(s: string, pos: nat)
    requires pos <= |s| && TokenStart(s, pos) < |s|
    ensures var start := TokenStart(s, pos);
            var end := TokenEnd(s, start);
            var here := TokenBytes(s[start..end], start);
            ScanBytes(s, pos) == if here.Refused? then here else Prepend(here.value, ScanBytes(s, end))
  {
  }

  lemma PrependTwice(a: Bytes, b: Bytes, r: Outcome<Bytes>)
    ensures Prepend(a, Prepend(b, r)) == Prepend(a + b, r)
  {
    if r.Accepted? {
      assert a + (b + r.value) == (a + b) + r.value;
    }
  }

  // The token loop.
  method ScanTokens(stripped: string) returns (r: Outcome<Bytes>)
    ensures r == ScanBytes(stripped, 0)
  {
    var bytes: Bytes := [];
    var pos := 0;
    ghost var all := ScanBytes(stripped, 0);
    assert all.Accepted? ==> bytes + all.value == all.value;
    while TokenStart(stripped, pos) < |stripped|
      invariant pos <= |stripped|
      invariant all == Prepend(bytes, ScanBytes(stripped, pos))
      decreases |stripped| - pos
    {
      ScanStep(stripped, pos, bytes);
      var start := TokenStart(stripped, pos);
      pos := TokenEnd(stripped, start);
      var here := ReadToken(stripped[start..pos], start);
      if here.Refused? {
        return here;
      }
      bytes := bytes + here.value;
    }
    assert bytes + [] == bytes;
    r := Accepted(bytes);
  }

  method ParseRomImage(text: string, mem: Memory) returns (r: Outcome<Image>)
    requires mem.Shaped()
    ensures r == Parse(text, mem)
  {
    var scanned := ScanTokens(Strip(text));
    if scanned.Refused? {
      return Refused(scanned.error);
    }
    var checked := ValidateImageBytes(scanned.value, mem);
    if checked.Refused? {
      return Refused(checked.error);
    }
    r := Accepted(Image(scanned.value, checked.value, HexOf(scanned.value)));
  }

  // ---- canonical hex reads back ----------------------------------------------

  lemma {:induction false} NoComments(s: string)
    requires forall i :: 0 <= i < |s| ==> IsHex(s[i])
    ensures DropSlashComments(s) == s && DropHashComments(s) == s
  {
    if s != "" {
      assert IsHex(s[0]);
      NoComments(s[1..]);
    }
  }

  lemma {:induction false} HexAt(bytes: Bytes, i: nat)
    requires i < |bytes|
    ensures HexOf(bytes)[2 * i..2 * i + 2] == HexPair(bytes[i])
  {
    if i > 0 {
      HexAt(bytes[1..], i - 1);
      PairOfRest(HexPair(bytes[0]), HexOf(bytes[1..]), i - 1);
    }
  }

  lemma PairOfRest(first: string, rest: string, i: nat)
    requires |first| == 2 && 2 * i + 2 <= |rest|
    ensures (first + rest)[2 * (i + 1)..2 * (i + 1) + 2] == rest[2 * i..2 * i + 2]
  {
    SliceOfSuffix(first, rest, 2 * i, 2 * i + 2);
  }

  lemma SliceOfSuffix(front: string, back: string, i: nat, j: nat)
    requires i <= j <= |back|
    ensures (front + back)[|front| + i..|front| + j] == back[i..j]
  {
  }

  lemma HexPairs(bytes: Bytes)
    ensures WholeHex(HexOf(bytes)) && PairBytes(HexOf(bytes)) == bytes
  {
    var s := HexOf(bytes);
    forall i | 0 <= i < |bytes|
      ensures PairAt(s, i) == bytes[i]
    {
      HexAt(bytes, i);
      PairOfSlice(s, i, bytes[i]);
    }
  }

  lemma PairOfSlice(s: string, i: nat, b: Byte)
    requires WholeHex(s) && 2 * i + 2 <= |s| && s[2 * i..2 * i + 2] == HexPair(b)
    ensures PairAt(s, i) == b
  {
    var pair := s[2 * i..2 * i + 2];
    assert s[2 * i] == pair[0] && s[2 * i + 1] == pair[1];
  }

  lemma {:induction false} HexIsOneToken(s: string)
    requires forall i :: 0 <= i < |s| ==> IsHex(s[i])
    ensures Strip(s) == s
    ensures s != "" ==> TokenStart(s, 0) == 0 && TokenEnd(s, 0) == |s|
    ensures Unprefixed(s) == s && FirstBad(s) == |s|
  {
    NoComments(s);
    assert forall i :: 0 <= i < |s| ==> IsHex(s[i]) && s[i] != ',' && !IsSpace(s[i]);
    if |s| >= 2 {
      assert IsHex(s[1]);
    }
  }

  // Whole pairs of digits with nothing between them scan as those pairs.
  lemma PairsScan(s: string)
    requires WholeHex(s)
    ensures ScanBytes(Strip(s), 0) == Accepted(PairBytes(s))
  {
    HexIsOneToken(s);
    if s != "" {
      assert s[0..|s|] == s;
      assert TokenBytes(s, 0) == Accepted(PairBytes(s));
      assert ScanBytes(s, |s|) == Accepted([]);
      assert PairBytes(s) + [] == PairBytes(s);
    }
  }

  // The printer's text scans back to exactly the bytes it printed.
  lemma HexScans(bytes: Bytes)
    ensures ScanBytes(Strip(HexOf(bytes)), 0) == Accepted(bytes)
  {
    HexPairs(bytes);
    PairsScan(HexOf(bytes));
  }

  // An accepted image's own `hex` is a fixed point: it parses to the same bytes,
  // the same word count and the same hex.
  lemma HexIsCanonical(text: string, mem: Memory)
    requires mem.Shaped()
    ensures var r := Parse(text, mem); r.Accepted? ==> Parse(r.value.hex, mem) == r
  {
    var r := Parse(text, mem);
    if r.Accepted? {
      HexScans(r.value.bytes);
    }
  }
}
