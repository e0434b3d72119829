// What a printed word shows and what a typed one means, bit by bit and digit by digit
// (site/src/scripts/memory-panel.ts).
module PanelText {
  import opened Numbers
  import opened MemoryPanel

  // ---- bits --------------------------------------------------------------------------------

  function Bit(n: nat, k: nat): nat {
    n / Pow(2, k) % 2
  }

  lemma BitHalf(n: nat, k: nat)
    requires k > 0
    ensures Bit(n, k) == Bit(n / 2, k - 1)
  {
    DivModSplit(n, 2, Pow(2, k - 1));
  }

  lemma {:induction false} AndBit(a: nat, b: nat, k: nat)
    ensures Bit(And(a, b), k) == if Bit(a, k) == 1 && Bit(b, k) == 1 then 1 else 0
  {
    if a == 0 || b == 0 {
      ZeroBit(k);
    } else if k == 0 {
      assert And(a, b) % 2 == if a % 2 == 1 && b % 2 == 1 then 1 else 0;
    } else {
      BitHalf(a, k);
      BitHalf(b, k);
      BitHalf(And(a, b), k);
      assert And(a, b) / 2 == And(a / 2, b / 2);
      AndBit(a / 2, b / 2, k - 1);
    }
  }

  lemma ZeroBit(k: nat)
    ensures Bit(0, k) == 0
  {
  }

  // The low bits of a number are the one on top and those below it.
  lemma TopBit(n: nat, w: nat)
    requires w > 0
    ensures n % Pow(2, w) == Bit(n, w - 1) * Pow(2, w - 1) + n % Pow(2, w - 1)
  {
    DivModSplit(n, Pow(2, w - 1), 2);
    assert Pow(2, w) == Pow(2, w - 1) * 2;
  }

  // ---- a word known in part --------------------------------------------------------------------

  // The text with its known bits marked, and with its unknown ones taken as zero.
  function KnownOf(c: char): char {
    if c == 'x' then '0' else '1'
  }

  function ZeroOf(c: char): char {
    if c == 'x' then '0' else c
  }

  function Through(f: char -> char, s: string): (t: string)
    ensures |t| == |s|
  {
    seq(|s|, i requires 0 <= i < |s| => f(s[i]))
  }

  lemma ThroughFront(f: char -> char, c: char, s: string)
    ensures Through(f, [c] + s) == [f(c)] + Through(f, s)
  {
  }

  lemma FrontValue(c: char, s: string)
    ensures ValueOf([c] + s, 2) == DigitValue(c) * Pow(2, |s|) + ValueOf(s, 2)
  {
    ValueConcat([c], s, 2);
    assert [c][..0] == [];
    assert ValueOf([c], 2) == DigitValue(c);
  }

  lemma {:induction false} PartialChars(value: nat, defined: nat, width: nat)
    ensures |PartialText(value, defined, width)| == width
    ensures forall i :: 0 <= i < width ==> PartialText(value, defined, width)[i] in "01x"
  {
    if width > 0 {
      PartialChars(value, defined, width - 1);
    }
  }

  lemma OneMoreBit(f: char -> char, c: char, rest: string, n: nat)
    requires ValueOf(Through(f, rest), 2) == n % Pow(2, |rest|) && DigitValue(f(c)) == Bit(n, |rest|)
    ensures ValueOf(Through(f, [c] + rest), 2) == n % Pow(2, |rest| + 1)
  {
    ThroughFront(f, c, rest);
    FrontValue(f(c), Through(f, rest));
    TopBit(n, |rest| + 1);
  }

  ghost predicate BitFor(value: nat, defined: nat, f: char -> char, n: nat) {
    forall k: nat :: DigitValue(f(BitChar(value, defined, k))) == Bit(n, k)
  }

  lemma BitForAt(value: nat, defined: nat, f: char -> char, n: nat, k: nat)
    requires BitFor(value, defined, f, n)
    ensures DigitValue(f(BitChar(value, defined, k))) == Bit(n, k)
  {
  }

  // Read through `f`, which makes of each character the bit of `n` it stands for, the
  // text spells `n`.
  lemma {:induction false} PartialSpells(value: nat, defined: nat, width: nat, f: char -> char, n: nat)
    requires BitFor(value, defined, f, n)
    ensures ValueOf(Through(f, PartialText(value, defined, width)), 2) == n % Pow(2, width)
  {
    if width > 0 {
      PartialSpells(value, defined, width - 1, f, n);
      PartialChars(value, defined, width - 1);
      BitForAt(value, defined, f, n, width - 1);
      OneMoreBit(f, BitChar(value, defined, width - 1), PartialText(value, defined, width - 1), n);
    } else {
      ModOne(n);
    }
  }

  lemma ModOne(n: nat)
    ensures n % Pow(2, 0) == 0
  {
  }

  lemma BitCharIs(value: nat, defined: nat, k: nat)
    requires Bit(value, k) == 1 ==> Bit(defined, k) == 1
    ensures var c := BitChar(value, defined, k);
            DigitValue(KnownOf(c)) == Bit(defined, k) && DigitValue(ZeroOf(c)) == Bit(value, k)
  {
  }

  lemma PartialMeans(value: nat, defined: nat, width: nat)
    requires forall k: nat :: Bit(value, k) == 1 ==> Bit(defined, k) == 1
    requires value < Pow(2, width) && defined < Pow(2, width)
    ensures var text := PartialText(value, defined, width);
            ValueOf(Through(KnownOf, text), 2) == defined && ValueOf(Through(ZeroOf, text), 2) == value
  {
    forall k: nat
      ensures DigitValue(KnownOf(BitChar(value, defined, k))) == Bit(defined, k)
      ensures DigitValue(ZeroOf(BitChar(value, defined, k))) == Bit(value, k)
    {
      BitCharIs(value, defined, k);
    }
    PartialSpells(value, defined, width, KnownOf, defined);
    PartialSpells(value, defined, width, ZeroOf, value);
    ModUnique(defined, Pow(2, width), 0, defined);
    ModUnique(value, Pow(2, width), 0, value);
  }

  lemma PartialFormat(cell: Cell, width: nat, format: ValueFormat, d: nat)
    requires d == And(cell.defined, Mask(width)) && 0 < d < Mask(width)
    ensures Format(cell, width, format) == PartialText(And(cell.value, d), d, width)
  {
  }

  // A word known in part is printed with a character for each bit: those known spell
  // the mask, and with zeros for those unknown the text spells the value.
  lemma PartlyKnown(cell: Cell, width: nat, format: ValueFormat)
    requires 0 < And(cell.defined, Pow(2, width) - 1) < Pow(2, width) - 1
    ensures var d := And(cell.defined, Pow(2, width) - 1); Tells(Format(cell, width, format), width, And(cell.value, d), d)
  {
    PartialFormat(cell, width, format, And(cell.defined, Mask(width)));
    PartOf(cell.value, And(cell.defined, Mask(width)), width);
  }

  predicate Tells(text: string, width: nat, value: nat, known: nat) {
    && |text| == width && (forall i :: 0 <= i < width ==> text[i] in "01x")
    && ValueOf(Through(KnownOf, text), 2) == known && ValueOf(Through(ZeroOf, text), 2) == value
  }

  lemma PartOf(value: nat, d: nat, width: nat)
    requires d < Pow(2, width)
    ensures Tells(PartialText(And(value, d), d, width), width, And(value, d), d)
  {
    BitsWithin(value, d);
    PartialMeans(And(value, d), d, width);
    PartialChars(And(value, d), d, width);
  }

  lemma BitsWithin(value: nat, d: nat)
    ensures forall k: nat :: Bit(And(value, d), k) == 1 ==> Bit(d, k) == 1
  {
    forall k: nat | Bit(And(value, d), k) == 1
      ensures Bit(d, k) == 1
    {
      AndBit(value, d, k);
    }
  }

  // ---- a word known whole ------------------------------------------------------------------------

  lemma WholeFormat(cell: Cell, width: nat, format: ValueFormat)
    requires width >= 1 && And(cell.defined, Mask(width)) == Mask(width)
    ensures Format(cell, width, format) == FullText(And(cell.value, Mask(width)), width, format)
  {
  }

  lemma FullLength(value: nat, width: nat, format: ValueFormat, n: nat)
    requires width >= 1 && value <= Mask(width) && 4 * (n - 1) < width <= 4 * n
    ensures var text := FullText(value, width, format);
            && (format.Binary? ==> |text| == width) && (format.Hex? ==> |text| == n)
            && (format.Decimal? ==> |text| == 1 || text[0] != '0')
  {
    match format
    case Binary => SpellLength(value, 2, width);
    case Hex => HexLength(value, width);
    case Decimal => NoLeadingZero(value, 10);
  }

  // The digits of the format spell the value, in binary a digit for each bit and in hex
  // one for every four.
  lemma WhollyKnown(cell: Cell, width: nat, format: ValueFormat, n: nat)
    requires width >= 1 && And(cell.defined, Pow(2, width) - 1) == Pow(2, width) - 1 && 4 * (n - 1) < width <= 4 * n
    ensures var text, base := Format(cell, width, format), if format.Hex? then 16 else if format.Binary? then 2 else 10;
            && MemoryPanel.Plain(text) && AllDigits(text, base)
            && ValueOf(text, base) == And(cell.value, Pow(2, width) - 1)
            && (format.Binary? ==> |text| == width) && (format.Hex? ==> |text| == n)
            && (format.Decimal? ==> |text| == 1 || text[0] != '0')
  {
    WholeFormat(cell, width, format);
    FullTextSpells(And(cell.value, Mask(width)), width, format);
    FullLength(And(cell.value, Mask(width)), width, format, n);
  }

  lemma {:induction false} NoLeadingZero(n: nat, base: nat)
    requires 2 <= base <= 16
    ensures |Spell(n, base)| == 1 || Spell(n, base)[0] != '0'
    ensures n > 0 ==> Spell(n, base)[0] != '0'
  {
    if n < base {
      assert n > 0 ==> DigitValue(DigitChar(n)) != 0;
    } else {
      SpellSteps(n, base);
      MulLe(1, n / base, 1);
      NoLeadingZero(n / base, base);
    }
  }

  // ---- a typed word --------------------------------------------------------------------------------

  // What the digits are read as: a number that fits, or what is wrong with them.
  lemma MeaningIs(body: string, radix: nat, width: nat)
    ensures match Meaning(body, radix, width)
            case Word(v, d) =>
              body != "" && AllDigits(body, radix) && v == ValueOf(body, radix) < Pow(2, width) && d == Pow(2, width) - 1
            case Refused(Empty) => body == ""
            case Refused(NotDigits(r)) => r == radix && exists i :: 0 <= i < |body| && DigitValue(body[i]) >= radix
            case Refused(TooLarge(w)) => w == width && AllDigits(body, radix) && ValueOf(body, radix) >= Pow(2, width)
  {
  }

  // Nothing to trim at either end.
  predicate Bare(s: string) {
    s != "" && !RomImage.IsSpace(s[0]) && !RomImage.IsSpace(s[|s| - 1])
  }

  lemma TrimBare(s: string)
    requires Bare(s)
    ensures TrimEnd(TrimStart(s)) == s
  {
  }

  lemma TidyFront(c: char, s: string)
    ensures Tidy([c] + s) == (if c == '_' then "" else [ToLower(c)]) + Tidy(s)
  {
    assert ([c] + s)[1..] == s;
  }

  // A prefix decides the radix whatever the format, in either case; without one the
  // format does.
  lemma PrefixDecides(s: string, width: nat, format: ValueFormat)
    requires MemoryPanel.Plain(s) && s != ""
    ensures ParseWord("0x" + s, width, format) == ParseWord("0X" + s, width, format) == Meaning(s, 16, width)
    ensures ParseWord("0b" + s, width, format) == ParseWord("0B" + s, width, format) == Meaning(s, 2, width)
    ensures !("0b" <= s) ==>
            ParseWord(s, width, format) == Meaning(s, if format.Hex? then 16 else if format.Binary? then 2 else 10, width)
  {
    PrefixedAs('x', 'x', s, width, format);
    PrefixedAs('X', 'x', s, width, format);
    PrefixedAs('b', 'b', s, width, format);
    PrefixedAs('B', 'b', s, width, format);
    assert ['0', 'x'] + s == "0x" + s && ['0', 'X'] + s == "0X" + s;
    assert ['0', 'b'] + s == "0b" + s && ['0', 'B'] + s == "0B" + s;
    ParsePlain(s, width, format);
  }

  lemma PrefixedAs(p: char, low: char, s: string, width: nat, format: ValueFormat)
    requires MemoryPanel.Plain(s) && s != "" && ToLower(p) == low && low in "xb" && p != '_'
    ensures ParseWord(['0', p] + s, width, format) == Meaning(s, if low == 'x' then 16 else 2, width)
  {
    var t := ['0', p] + s;
    assert t[|t| - 1] == s[|s| - 1];
    TrimBare(t);
    TidyPrefixed(p, low, s);
    BodyPrefixed(low, s, format);
  }

  lemma TidyPrefixed(p: char, low: char, s: string)
    requires MemoryPanel.Plain(s) && ToLower(p) == low && p != '_'
    ensures Tidy(['0', p] + s) == ['0', low] + s
  {
    assert ['0', p] + s == ['0'] + ([p] + s) && ['0', low] + s == ['0'] + ([low] + s);
    TidyFront('0', [p] + s);
    TidyFront(p, s);
    TidyPlain(s);
  }

  lemma BodyPrefixed(low: char, s: string, format: ValueFormat)
    requires low in "xb"
    ensures Body(['0', low] + s, format) == (s, if low == 'x' then 16 else 2)
  {
    var tidy := ['0', low] + s;
    assert tidy[2..] == s;
    assert tidy[1] == low;
  }

  // Underscores and case do not matter.
  lemma {:induction false} TidyConcat(s: string, t: string)
    ensures Tidy(s + t) == Tidy(s) + Tidy(t)
  {
    if s == "" {
      assert s + t == t;
    } else {
      assert (s + t)[1..] == s[1..] + t;
      TidyConcat(s[1..], t);
      var head := if s[0] == '_' then "" else [ToLower(s[0])];
      assert head + (Tidy(s[1..]) + Tidy(t)) == head + Tidy(s[1..]) + Tidy(t);
    }
  }

  lemma UnderscoresSkipped(s: string, t: string, width: nat, format: ValueFormat)
    requires Bare(s) && Bare(t) && s != "?" && t != "?"
    ensures ParseWord(s + "_" + t, width, format) == ParseWord(s + t, width, format)
  {
    TrimBare(s + "_" + t);
    TrimBare(s + t);
    TidyConcat(s + "_", t);
    TidyConcat(s, "_");
    TidyConcat(s, t);
    assert Tidy("_") == "";
    assert Tidy(s) + "" == Tidy(s);
    assert |s + t| >= 2;
  }
}
