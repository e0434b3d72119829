// What a typed memory image means (site/src/utils/rom-image.ts).
module RomText {
  import opened Numbers
  import opened RomImage

  // ---- comments and commas, in one pass ------------------------------------------------------

  // A comment is a space up to the end of its line, and so is a comma.
  function Clean(s: string, comment: bool): string
    decreases |s|
  {
    if s == "" then ""
    else if comment then (if s[0] == '\n' then "\n" + Clean(s[1..], false) else Clean(s[1..], true))
    else if |s| >= 2 && s[0] == '/' && s[1] == '/' then " " + Clean(s[2..], true)
    else if s[0] == '#' then " " + Clean(s[1..], true)
    else (if s[0] == ',' then " " else [s[0]]) + Clean(s[1..], false)
  }

  lemma {:induction false} CleanComment(s: string)
    ensures Clean(s, true) == Clean(FromNewline(s), false)
    decreases |s|
  {
    if s != "" && s[0] != '\n' {
      CleanComment(s[1..]);
    }
  }

  lemma BlankMore(front: string, back: string)
    ensures BlankCommas(front + back) == BlankCommas(front) + BlankCommas(back)
  {
  }

  // Where a line comment starts both passes leave the rest of its line out.
  lemma {:induction false} HashToLine(s: string)
    ensures DropSlashComments(FromNewline(s)) == FromNewline(DropSlashComments(s))
    decreases |s|
  {
    if s != "" && s[0] != '\n' {
      if |s| >= 2 && s[0] == '/' && s[1] == '/' {
        var rest := FromNewline(s[2..]);
        LineOnce(s[2..]);
        HashToLine(rest);
        assert FromNewline(s) == rest by {
          assert s[1..][1..] == s[2..];
        }
        assert (" " + DropSlashComments(rest))[1..] == DropSlashComments(rest);
      } else {
        HashToLine(s[1..]);
        assert ([s[0]] + DropSlashComments(s[1..]))[1..] == DropSlashComments(s[1..]);
      }
    }
  }

  lemma {:induction false} LineOnce(s: string)
    ensures FromNewline(FromNewline(s)) == FromNewline(s)
  {
    if s != "" && s[0] != '\n' {
      LineOnce(s[1..]);
    }
  }

  lemma DropHashFront(c: char, rest: string)
    ensures DropHashComments([c] + rest) ==
            if c == '#' then " " + DropHashComments(FromNewline(rest)) else [c] + DropHashComments(rest)
  {
    assert ([c] + rest)[1..] == rest;
  }

  lemma StripHash(rest: string)
    ensures Strip("#" + rest) == " " + Strip(FromNewline(rest))
  {
    var s := "#" + rest;
    assert s[1..] == rest && DropSlashComments(s) == ['#'] + DropSlashComments(rest);
    DropHashFront('#', DropSlashComments(rest));
    HashToLine(rest);
    BlankMore(" ", DropHashComments(FromNewline(DropSlashComments(rest))));
  }

  lemma StripPlain(c: char, rest: string)
    requires c != '#' && !(c == '/' && rest != "" && rest[0] == '/')
    ensures Strip([c] + rest) == (if c == ',' then " " else [c]) + Strip(rest)
  {
    var s := [c] + rest;
    assert s[1..] == rest && DropSlashComments(s) == [c] + DropSlashComments(rest);
    DropHashFront(c, DropSlashComments(rest));
    BlankMore([c], DropHashComments(DropSlashComments(rest)));
  }

  lemma StripSlashes(s: string)
    requires |s| >= 2 && s[0] == '/' && s[1] == '/'
    ensures Strip(s) == " " + Strip(FromNewline(s[2..]))
  {
    var rest := DropSlashComments(FromNewline(s[2..]));
    DropHashFront(' ', rest);
    BlankMore(" ", DropHashComments(rest));
  }

  // The three replacements, one after another, are that one pass.
  lemma {:induction false} StripIsClean(s: string)
    ensures Strip(s) == Clean(s, false)
    decreases |s|
  {
    if s != "" {
      if |s| >= 2 && s[0] == '/' && s[1] == '/' {
        StripSlashes(s);
        CleanComment(s[2..]);
        StripIsClean(FromNewline(s[2..]));
      } else {
        assert s == [s[0]] + s[1..];
        if s[0] == '#' {
          StripHash(s[1..]);
          CleanComment(s[1..]);
          StripIsClean(FromNewline(s[1..]));
        } else {
          StripPlain(s[0], s[1..]);
          StripIsClean(s[1..]);
        }
      }
    }
  }

  // ---- tokens --------------------------------------------------------------------------------

  datatype Token = Token(start: nat, text: string)

  // Runs without a space, and where they start; the one being read began at `start`.
  function Tokens(s: string, pos: nat, start: nat): seq<Token>
    requires start <= pos <= |s|
    decreases |s| - pos
  {
    var read := if start < pos then [Token(start, s[start..pos])] else [];
    if pos == |s| then read
    else if IsSpace(s[pos]) then read + Tokens(s, pos + 1, pos + 1)
    else Tokens(s, pos + 1, start)
  }

  lemma {:induction false} SkipSpaces(s: string, pos: nat)
    requires pos <= |s|
    ensures Tokens(s, pos, pos) == Tokens(s, TokenStart(s, pos), TokenStart(s, pos))
    decreases |s| - pos
  {
    if pos < |s| && IsSpace(s[pos]) {
      SkipSpaces(s, pos + 1);
    }
  }

  lemma {:induction false} ReadOn(s: string, pos: nat, start: nat)
    requires start <= pos <= |s|
    ensures Tokens(s, pos, start) == Tokens(s, TokenEnd(s, pos), start)
    decreases |s| - pos
  {
    if pos < |s| && !IsSpace(s[pos]) {
      ReadOn(s, pos + 1, start);
    }
  }

  lemma NextToken(s: string, pos: nat)
    requires pos <= |s|
    ensures var start := TokenStart(s, pos);
            var end := TokenEnd(s, start);
            Tokens(s, pos, pos) == if start == |s| then [] else [Token(start, s[start..end])] + Tokens(s, end, end)
  {
    var start := TokenStart(s, pos);
    SkipSpaces(s, pos);
    ReadOn(s, start, start);
  }

  // Each token in order, up to the first refused.
  function ReadAll(ts: seq<Token>): Outcome<Bytes> {
    if ts == [] then Accepted([]) else
    var here := TokenBytes(ts[0].text, ts[0].start);
    if here.Refused? then here else Prepend(here.value, ReadAll(ts[1..]))
  }

  lemma {:induction false} ScanIsReadAll(s: string, pos: nat)
    requires pos <= |s|
    ensures ScanBytes(s, pos) == ReadAll(Tokens(s, pos, pos))
    decreases |s| - pos
  {
    var start := TokenStart(s, pos);
    NextToken(s, pos);
    if start < |s| {
      var end := TokenEnd(s, start);
      ScanUnfolds(s, pos);
      ScanIsReadAll(s, end);
      assert ([Token(start, s[start..end])] + Tokens(s, end, end))[1..] == Tokens(s, end, end);
    }
  }

  // ---- what is read off them -------------------------------------------------------------------

  // The digits of a token, `0x` or `0X` before them or not.
  predicate Digits(text: string, digits: string) {
    if "0x" <= text || "0X" <= text then digits == text[2..] else digits == text
  }

  // Two digits for each byte, the high one first.
  predicate SpellsBytes(digits: string, bytes: Bytes) {
    && |digits| == 2 * |bytes|
    && forall i :: 0 <= i < |bytes| ==>
         IsHex(digits[2 * i]) && IsHex(digits[2 * i + 1])
         && bytes[i] == 16 * DigitValue(digits[2 * i]) + DigitValue(digits[2 * i + 1])
  }

  ghost predicate TokenSpells(text: string, bytes: Bytes) {
    exists digits: string :: Digits(text, digits) && SpellsBytes(digits, bytes)
  }

  function Concat(parts: seq<Bytes>): Bytes {
    if parts == [] then [] else parts[0] + Concat(parts[1..])
  }

  // The tokens spell the bytes between them, in order.
  ghost predicate AllSpell(ts: seq<Token>, parts: seq<Bytes>) {
    |parts| == |ts| && forall i :: 0 <= i < |ts| ==> TokenSpells(ts[i].text, parts[i])
  }

  lemma DigitsAre(text: string)
    ensures Digits(text, Unprefixed(text))
    ensures forall digits :: Digits(text, digits) ==> digits == Unprefixed(text)
  {
    assert "0x" <= text <==> |text| >= 2 && text[0] == '0' && text[1] == 'x';
    assert "0X" <= text <==> |text| >= 2 && text[0] == '0' && text[1] == 'X';
  }

  lemma PairsSpell(digits: string, bytes: Bytes)
    ensures WholeHex(digits) && PairBytes(digits) == bytes <==> SpellsBytes(digits, bytes)
  {
    if SpellsBytes(digits, bytes) {
      forall i | 0 <= i < |digits|
        ensures IsHex(digits[i])
      {
        assert i == 2 * (i / 2) || i == 2 * (i / 2) + 1;
      }
      assert PairBytes(digits) == bytes;
    }
  }

  lemma {:induction false} BadIs(digits: string)
    ensures FirstBad(digits) == |digits| <==> forall i :: 0 <= i < |digits| ==> IsHex(digits[i])
  {
  }

  lemma TokenMeans(text: string, start: nat, bytes: Bytes)
    ensures TokenBytes(text, start) == Accepted(bytes) <==> TokenSpells(text, bytes)
  {
    DigitsAre(text);
    BadIs(Unprefixed(text));
    PairsSpell(Unprefixed(text), bytes);
  }

  lemma {:induction false} ReadAllSpelled(ts: seq<Token>, parts: seq<Bytes>)
    requires AllSpell(ts, parts)
    ensures ReadAll(ts) == Accepted(Concat(parts))
  {
    if ts != [] {
      TokenMeans(ts[0].text, ts[0].start, parts[0]);
      ReadAllSpelled(ts[1..], parts[1..]);
    }
  }

  lemma {:induction false} ReadAllParts(ts: seq<Token>) returns (parts: seq<Bytes>)
    requires ReadAll(ts).Accepted?
    ensures AllSpell(ts, parts) && ReadAll(ts).value == Concat(parts)
  {
    parts := [];
    if ts != [] {
      var here := TokenBytes(ts[0].text, ts[0].start).value;
      TokenMeans(ts[0].text, ts[0].start, here);
      var rest := ReadAllParts(ts[1..]);
      parts := [here] + rest;
      SpellMore(ts, here, rest);
    }
  }

  lemma SpellMore(ts: seq<Token>, here: Bytes, rest: seq<Bytes>)
    requires ts != [] && TokenSpells(ts[0].text, here) && AllSpell(ts[1..], rest)
    ensures AllSpell(ts, [here] + rest) && Concat([here] + rest) == here + Concat(rest)
  {
    var parts := [here] + rest;
    assert parts[1..] == rest;
    forall i | 0 <= i < |ts|
      ensures TokenSpells(ts[i].text, parts[i])
    {
      assert i > 0 ==> ts[i] == ts[1..][i - 1] && parts[i] == rest[i - 1];
    }
  }

  function TokensOf(text: string): seq<Token> {
    Tokens(Clean(text, false), 0, 0)
  }

  lemma ScanIs(text: string)
    ensures ScanBytes(Strip(text), 0) == ReadAll(TokensOf(text))
  {
    StripIsClean(text);
    ScanIsReadAll(Strip(text), 0);
  }

  ghost predicate TextSpells(text: string, bytes: Bytes) {
    exists parts: seq<Bytes> :: AllSpell(TokensOf(text), parts) && bytes == Concat(parts)
  }

  // A text is read exactly when its tokens spell bytes, as those bytes in order.
  lemma TextMeans(text: string, bytes: Bytes)
    ensures ScanBytes(Strip(text), 0) == Accepted(bytes) <==> TextSpells(text, bytes)
  {
    ScanIs(text);
    if ReadAll(TokensOf(text)).Accepted? {
      var parts := ReadAllParts(TokensOf(text));
    }
    forall parts: seq<Bytes> | AllSpell(TokensOf(text), parts)
      ensures ReadAll(TokensOf(text)) == Accepted(Concat(parts))
    {
      ReadAllSpelled(TokensOf(text), parts);
    }
  }

  // What is wrong with a token: a character that is no digit, counted from where the
  // token starts but without its prefix, or else an odd number of digits.
  predicate Faulty(t: Token, e: Error) {
    match e
    case BadChar(index, bad) =>
      exists i :: 0 <= i < |Unprefixed(t.text)| && index == t.start + i && Unprefixed(t.text)[i] == bad && !IsHex(bad)
                  && forall j :: 0 <= j < i ==> IsHex(Unprefixed(t.text)[j])
    case OddToken(digits, index) =>
      Digits(t.text, digits) && index == t.start && |digits| % 2 == 1 && forall j :: 0 <= j < |digits| ==> IsHex(digits[j])
    case _ => false
  }

  lemma TokenFault(t: Token)
    requires TokenBytes(t.text, t.start).Refused?
    ensures Faulty(t, TokenBytes(t.text, t.start).error)
  {
    DigitsAre(t.text);
    BadIs(Unprefixed(t.text));
  }

  ghost predicate Sound(t: Token) {
    exists bytes: Bytes :: TokenSpells(t.text, bytes)
  }

  lemma {:induction false} FirstFault(ts: seq<Token>) returns (k: nat)
    requires ReadAll(ts).Refused?
    ensures k < |ts| && Faulty(ts[k], ReadAll(ts).error) && forall j :: 0 <= j < k ==> Sound(ts[j])
  {
    var here := TokenBytes(ts[0].text, ts[0].start);
    if here.Refused? {
      k := 0;
      TokenFault(ts[0]);
    } else {
      ReadAllFront(ts);
      k := FirstFault(ts[1..]);
      SoundFront(ts, k);
      k := k + 1;
    }
  }

  lemma ReadAllFront(ts: seq<Token>)
    requires ReadAll(ts).Refused? && TokenBytes(ts[0].text, ts[0].start).Accepted?
    ensures ReadAll(ts[1..]).Refused? && ReadAll(ts[1..]).error == ReadAll(ts).error
  {
  }

  lemma SoundFront(ts: seq<Token>, k: nat)
    requires k < |ts| - 1 && TokenBytes(ts[0].text, ts[0].start).Accepted? && forall j :: 0 <= j < k ==> Sound(ts[1..][j])
    ensures forall j :: 0 <= j < k + 1 ==> Sound(ts[j])
  {
    TokenMeans(ts[0].text, ts[0].start, TokenBytes(ts[0].text, ts[0].start).value);
    forall j | 0 <= j < k + 1
      ensures Sound(ts[j])
    {
      assert j > 0 ==> ts[j] == ts[1..][j - 1];
    }
  }

  // A text that is not read is refused for its first token that spells nothing.
  lemma TextRefused(text: string) returns (k: nat)
    requires ScanBytes(Strip(text), 0).Refused?
    ensures k < |TokensOf(text)| && Faulty(TokensOf(text)[k], ScanBytes(Strip(text), 0).error)
    ensures forall j :: 0 <= j < k ==> Sound(TokensOf(text)[j])
  {
    ScanIs(text);
    k := FirstFault(TokensOf(text));
  }

  // ---- the whole ---------------------------------------------------------------------------------

  // As many bytes as the bits of a word need.
  predicate Holds(bytesPerWord: nat, width: nat) {
    8 * (bytesPerWord - 1) < width <= 8 * bytesPerWord
  }

  predicate WordFits(bytes: Bytes, i: nat, n: nat, width: nat) {
    i * n + n <= |bytes| && WordAt(bytes, i, n) < Pow(2, width)
  }

  lemma StrideHolds(mem: Memory, n: nat)
    ensures mem.width > 0 ==> (Holds(n, mem.width) <==> n == mem.Stride())
  {
  }

  // A typed image is accepted exactly when its text spells whole words, no more than the
  // addresses there are, each within its width; and is then those bytes, that many
  // words, and the bytes printed.
  lemma ImageMeans(text: string, mem: Memory, image: Image, n: nat)
    requires 1 <= mem.width <= 64 && 1 <= mem.addrWidth <= 16 && Holds(n, mem.width)
    ensures Parse(text, mem) == Accepted(image) <==>
            && TextSpells(text, image.bytes) && |image.bytes| == image.words * n && image.words <= Pow(2, mem.addrWidth)
            && (forall i :: 0 <= i < image.words ==> WordFits(image.bytes, i, n, mem.width))
            && image.hex == HexOf(image.bytes)
  {
    TextMeans(text, image.bytes);
    BytesAccepted(image.bytes, mem, image.words, n);
  }

  lemma BytesAccepted(bytes: Bytes, mem: Memory, words: nat, n: nat)
    requires 1 <= mem.width <= 64 && 1 <= mem.addrWidth <= 16 && Holds(n, mem.width)
    ensures Validate(bytes, mem) == Accepted(words) <==>
            && |bytes| == words * n && words <= Pow(2, mem.addrWidth)
            && forall i :: 0 <= i < words ==> WordFits(bytes, i, n, mem.width)
  {
    StrideHolds(mem, n);
    AcceptedMeans(bytes, mem, words);
    assert forall i: nat :: WordFits(bytes, i, n, mem.width) <==> InRange(bytes, mem, i);
  }

  // Digits in either case.
  lemma DigitIs(c: char)
    ensures IsHex(c) <==> '0' <= c <= '9' || 'a' <= c <= 'f' || 'A' <= c <= 'F'
    ensures '0' <= c <= '9' ==> DigitValue(c) == c as int - '0' as int
    ensures 'a' <= c <= 'f' ==> DigitValue(c) == 10 + c as int - 'a' as int
    ensures 'A' <= c <= 'F' ==> DigitValue(c) == 10 + c as int - 'A' as int
  {
  }

  predicate NotWhole(bytes: Bytes, n: nat) {
    forall words: nat :: words <= |bytes| ==> |bytes| != words * n
  }

  // Some word is this, too wide, and the first so.
  ghost predicate FirstTooWide(bytes: Bytes, n: nat, width: nat, word: nat) {
    exists i: nat :: WordIs(bytes, i, n, word) && word >= Pow(2, width)
                     && forall j :: 0 <= j < i ==> WordFits(bytes, j, n, width)
  }

  predicate WordIs(bytes: Bytes, i: nat, n: nat, word: nat) {
    i * n + n <= |bytes| && word == WordAt(bytes, i, n)
  }

  lemma NotWholeIs(bytes: Bytes, n: nat)
    requires n > 0 && |bytes| % n != 0
    ensures NotWhole(bytes, n)
  {
    forall words: nat | words <= |bytes|
      ensures |bytes| != words * n
    {
      if |bytes| == words * n {
        ModUnique(|bytes|, n, words, 0);
      }
    }
  }

  lemma FirstTooWideIs(bytes: Bytes, mem: Memory, n: nat, words: nat)
    requires n > 0 && n == mem.Stride() && |bytes| == words * n && FirstWide(bytes, mem, 0, words) < words
    ensures var i := FirstWide(bytes, mem, 0, words);
            i * n + n <= |bytes| && FirstTooWide(bytes, n, mem.width, WordAt(bytes, i, n))
  {
    var i := FirstWide(bytes, mem, 0, words);
    var word := WordAt(bytes, i, n);
    assert WordIs(bytes, i, n, word);
    forall j | 0 <= j < i
      ensures WordFits(bytes, j, n, mem.width)
    {
      assert InRange(bytes, mem, j);
    }
  }

  // Bytes too many or too few for whole words are refused first, then words too many,
  // then a word too wide, of which the first is told.
  lemma BytesRefused(bytes: Bytes, mem: Memory, n: nat)
    requires 1 <= mem.width <= 64 && 1 <= mem.addrWidth <= 16 && Holds(n, mem.width)
    requires Validate(bytes, mem).Refused?
    ensures match Validate(bytes, mem).error
            case NotWordMultiple(count, per) => count == |bytes| && per == n && NotWhole(bytes, n)
            case TooManyWords(words, capacity) => |bytes| == words * n && words > capacity == Pow(2, mem.addrWidth)
            case WordExceedsWidth(word, width) => width == mem.width && FirstTooWide(bytes, n, width, word)
            case _ => false
  {
    StrideHolds(mem, n);
    var words := |bytes| / n;
    assert |bytes| == words * n + |bytes| % n;
    if |bytes| % n != 0 {
      NotWholeIs(bytes, n);
    } else if words <= mem.Capacity() {
      FirstTooWideIs(bytes, mem, n, words);
    }
  }

  // ---- the hex printed -----------------------------------------------------------------------------

  predicate Plain(c: char) {
    '0' <= c <= '9' || 'a' <= c <= 'f'
  }

  lemma PairPlain(b: Byte)
    ensures Plain(HexPair(b)[0]) && Plain(HexPair(b)[1])
  {
    if b < 16 {
      assert Spell(b, 16) == [DigitChar(b)];
      assert Zeros(1) == "0";
    } else {
      assert Spell(b, 16) == Spell(b / 16, 16) + [DigitChar(b % 16)] && Spell(b / 16, 16) == [DigitChar(b / 16)];
    }
  }

  lemma {:induction false} HexPlain(bytes: Bytes)
    ensures forall i :: 0 <= i < |HexOf(bytes)| ==> Plain(HexOf(bytes)[i])
  {
    if bytes != [] {
      PairPlain(bytes[0]);
      HexPlain(bytes[1..]);
    }
  }

  // The text printed spells the bytes, two lower-case digits each.
  lemma HexSpells(bytes: Bytes)
    ensures SpellsBytes(HexOf(bytes), bytes) && forall i :: 0 <= i < |HexOf(bytes)| ==> Plain(HexOf(bytes)[i])
  {
    HexPairs(bytes);
    PairsSpell(HexOf(bytes), bytes);
    HexPlain(bytes);
  }
}
