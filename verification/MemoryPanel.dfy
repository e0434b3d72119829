// How a memory word is written down and read back
// (site/src/scripts/memory-panel.ts).
module MemoryPanel {
  import opened Numbers
  import RomImage

  datatype ValueFormat = Binary | Hex | Decimal {
    function Radix(): nat {
      match this
      case Binary => 2
      case Hex => 16
      case Decimal => 10
    }
  }

  // One cell: its bits, and which of them are known.
  datatype Cell = Cell(value: nat, defined: nat)

  datatype ParseError = Empty | NotDigits(radix: nat) | TooLarge(width: nat)

  datatype ParsedWord = Word(value: nat, defined: nat) | Refused(why: ParseError)

  // The cell without bits beyond its width or undefined ones.
  function Canonical(cell: Cell, width: nat): (c: Cell)
    ensures c.defined <= Mask(width)
  {
    var defined := And(cell.defined, Mask(width));
    Cell(And(cell.value, defined), defined)
  }

  // ---- printing --------------------------------------------------------------------

  predicate BitSet(n: nat, bit: nat) {
    n / Pow(2, bit) % 2 == 1
  }

  function BitChar(value: nat, defined: nat, bit: nat): char {
    if !BitSet(defined, bit) then 'x' else if BitSet(value, bit) then '1' else '0'
  }

  // The low `width` bits, highest first, `x` for each unknown one.
  function PartialText(value: nat, defined: nat, width: nat): string {
    if width == 0 then "" else [BitChar(value, defined, width - 1)] + PartialText(value, defined, width - 1)
  }

  // Four bits a digit, rounded up.
  function HexDigits(width: nat): nat {
    (width + 3) / 4
  }

  function FullText(value: nat, width: nat, format: ValueFormat): string {
    match format
    case Binary => Pad(Spell(value, 2), width)
    case Hex => Pad(Spell(value, 16), HexDigits(width))
    case Decimal => Spell(value, 10)
  }

  function Format(cell: Cell, width: nat, format: ValueFormat): string {
    var c := Canonical(cell, width);
    if c.defined == 0 then "?"
    else if c.defined != Mask(width) then PartialText(c.value, c.defined, width)
    else FullText(c.value, width, format)
  }

  method FormatWord(cell: Cell, width: nat, format: ValueFormat) returns (text: string)
    ensures text == Format(cell, width, format)
  {
    var mask := Mask(width);
    var defined := And(cell.defined, mask);
    var value := And(cell.value, defined);
    if defined == 0 {
      return "?";
    }
    if defined != mask {
      text := FormatPartial(value, defined, width);
      return;
    }
    text := FullText(value, width, format);
  }

  method FormatPartial(value: nat, defined: nat, width: nat) returns (out: string)
    ensures out == PartialText(value, defined, width)
  {
    var bit: nat := width;
    out := "";
    while bit > 0
      invariant out + PartialText(value, defined, bit) == PartialText(value, defined, width)
    {
      PartialStep(out, value, defined, bit);
      bit := bit - 1;
      out := out + [BitChar(value, defined, bit)];
    }
    assert out + "" == out;
  }

  lemma PartialStep(out: string, value: nat, defined: nat, bit: nat)
    requires bit > 0
    ensures out + PartialText(value, defined, bit) ==
            out + [BitChar(value, defined, bit - 1)] + PartialText(value, defined, bit - 1)
  {
  }

  // ---- parsing ---------------------------------------------------------------------

  function TrimStart(s: string): string {
    if s != "" && RomImage.IsSpace(s[0]) then TrimStart(s[1..]) else s
  }

  function TrimEnd(s: string): string {
    if s != "" && RomImage.IsSpace(s[|s| - 1]) then TrimEnd(s[..|s| - 1]) else s
  }

  function ToLower(c: char): char {
    if 'A' <= c <= 'Z' then 'a' + (c - 'A') else c
  }

  // Lower case, underscores dropped.
  function Tidy(s: string): string {
    if s == "" then "" else (if s[0] == '_' then "" else [ToLower(s[0])]) + Tidy(s[1..])
  }

  // The digits and the radix they are read in: an explicit prefix wins.
  function Body(tidy: string, format: ValueFormat): (string, nat) {
    if "0x" <= tidy then (tidy[2..], 16)
    else if "0b" <= tidy then (tidy[2..], 2)
    else (tidy, format.Radix())
  }

  function ParseWord(text: string, width: nat, format: ValueFormat): ParsedWord {
    var trimmed := TrimEnd(TrimStart(text));
    if trimmed == "" || trimmed == "?" then Word(0, 0) else
    var (body, radix) := Body(Tidy(trimmed), format);
    Meaning(body, radix, width)
  }

  // Digits in a radix, or why they are no word.
  function Meaning(body: string, radix: nat, width: nat): ParsedWord {
    if body == "" then Refused(Empty)
    else if !AllDigits(body, radix) then Refused(NotDigits(radix))
    else if ValueOf(body, radix) > Mask(width) then Refused(TooLarge(width))
    else Word(ValueOf(body, radix), Mask(width))
  }

  // ---- the round trip ----------------------------------------------------------------

  // Lower-case hex digits and nothing else.
  predicate Plain(s: string) {
    forall i :: 0 <= i < |s| ==> '0' <= s[i] <= '9' || 'a' <= s[i] <= 'f'
  }

  lemma {:induction false} SpellPlain(n: nat, base: nat)
    requires 2 <= base <= 16
    ensures Plain(Spell(n, base))
  {
    if n >= base {
      SpellSteps(n, base);
      SpellPlain(n / base, base);
    }
  }

  lemma {:induction false} TidyPlain(s: string)
    requires Plain(s)
    ensures Tidy(s) == s
  {
    if s != "" {
      TidyPlain(s[1..]);
    }
  }

  lemma TrimPlain(s: string)
    requires Plain(s)
    ensures TrimEnd(TrimStart(s)) == s
  {
  }

  lemma BodyPlain(s: string, format: ValueFormat)
    requires Plain(s) && s != ""
    ensures var trimmed := TrimEnd(TrimStart(s));
            && trimmed == s && s != "?"
            && Body(Tidy(trimmed), format) == if "0b" <= s then (s[2..], 2) else (s, format.Radix())
  {
    TrimPlain(s);
    TidyPlain(s);
    assert s[0] != '?';
    assert |s| >= 2 ==> s[1] != 'x';
  }

  // A plain text is read in the format's radix, unless it begins with `0b`.
  lemma ParsePlain(s: string, width: nat, format: ValueFormat)
    requires Plain(s) && s != ""
    ensures ParseWord(s, width, format) ==
            if "0b" <= s then Meaning(s[2..], 2, width) else Meaning(s, format.Radix(), width)
  {
    BodyPlain(s, format);
  }

  lemma PadPlain(s: string, k: nat)
    requires Plain(s)
    ensures Plain(Zeros(k) + s)
  {
  }

  lemma PadSpells(value: nat, base: nat, width: nat)
    requires 2 <= base <= 16
    ensures var s := Pad(Spell(value, base), width);
            s != "" && Plain(s) && AllDigits(s, base) && ValueOf(s, base) == value
  {
    SpellPlain(value, base);
    SpellValue(value, base);
    PadKeeps(Spell(value, base), base, width);
  }

  lemma PadKeeps(s: string, base: nat, width: nat)
    requires 2 <= base <= 16 && s != "" && Plain(s) && AllDigits(s, base)
    ensures var padded := Pad(s, width);
            padded != "" && Plain(padded) && AllDigits(padded, base) && ValueOf(padded, base) == ValueOf(s, base)
  {
    var k := if |s| < width then width - |s| else 0;
    PadPlain(s, k);
    PadValue(s, k, base);
  }

  // Digits of the format, spelling the value.
  lemma FullTextSpells(value: nat, width: nat, format: ValueFormat)
    ensures var s := FullText(value, width, format);
            s != "" && Plain(s) && AllDigits(s, format.Radix()) && ValueOf(s, format.Radix()) == value
  {
    match format
    case Binary => PadSpells(value, 2, width);
    case Hex => PadSpells(value, 16, HexDigits(width));
    case Decimal =>
      SpellPlain(value, 10);
      SpellValue(value, 10);
  }

  lemma TwoDigitValue(a: char, b: char)
    ensures ValueOf([a, b], 16) == DigitValue(a) * 16 + DigitValue(b)
  {
    assert [a, b][..1] == [a] && [a][..0] == [];
    assert ValueOf([a], 16) == DigitValue(a);
  }

  lemma HeadEleven(head: string, rest: string)
    requires ValueOf(head, 16) == 11
    ensures ValueOf(head + rest, 16) == 11 * Pow(16, |rest|) + ValueOf(rest, 16)
  {
    ValueConcat(head, rest, 16);
  }

  // Read in binary, what follows `0b` is always less than the hex value printed.
  lemma BinaryReadsLess(s: string)
    requires "0b" <= s && AllDigits(s[2..], 2)
    ensures ValueOf(s[2..], 2) < ValueOf(s, 16)
  {
    var rest := s[2..];
    assert s == s[..2] + rest && s[..2] == [s[0], s[1]];
    TwoDigitValue(s[0], s[1]);
    HeadEleven(s[..2], rest);
    ValueBound(rest, 2);
    PowGrows(2, 16, |rest|);
  }

  lemma {:induction false} PowGrows(a: nat, b: nat, e: nat)
    requires 0 < a <= b
    ensures Pow(a, e) <= Pow(b, e)
  {
    if e > 0 {
      PowGrows(a, b, e - 1);
      MulLe(Pow(a, e - 1), Pow(b, e - 1), a);
      MulLe(a, b, Pow(b, e - 1));
    }
  }

  lemma FullReadsBack(value: nat, width: nat, format: ValueFormat)
    requires value <= Mask(width)
    ensures var s := FullText(value, width, format);
            ParseWord(s, width, format) == Word(value, Mask(width)) <==> !(format.Hex? && "0b" <= s)
  {
    var s := FullText(value, width, format);
    FullTextSpells(value, width, format);
    ParsePlain(s, width, format);
    if "0b" <= s {
      assert DigitValue(s[1]) == 11;
      if AllDigits(s[2..], 2) {
        BinaryReadsLess(s);
      }
    }
  }

  // For every cell, every width and every format, reading back what was printed
  // gives the cell exactly when it is wholly unknown, or wholly known and, in
  // hex, not printed with a leading `0b`.
  lemma ReadsBack(cell: Cell, width: nat, format: ValueFormat)
    requires width >= 1
    ensures var c := Canonical(cell, width);
            ParseWord(Format(cell, width, format), width, format) == Word(c.value, c.defined) <==>
            || c.defined == 0
            || (c.defined == Mask(width) && !(format.Hex? && "0b" <= FullText(c.value, width, Hex)))
  {
    var c := Canonical(cell, width);
    if c.defined == 0 {
      UnknownReadsBack(width, format);
    } else if c.defined == Mask(width) {
      FullReadsBack(c.value, width, format);
    } else {
      ParsesWhole(Format(cell, width, format), width, format);
    }
  }

  lemma UnknownReadsBack(width: nat, format: ValueFormat)
    ensures ParseWord("?", width, format) == Word(0, 0)
  {
  }

  // A typed word is wholly known or wholly unknown, never in part.
  lemma ParsesWhole(text: string, width: nat, format: ValueFormat)
    ensures var w := ParseWord(text, width, format); w.Word? ==> w.defined == 0 || w.defined == Mask(width)
  {
  }

  // The prefix trap in numbers: the two highest digits of the word are 0 and b.
  lemma BeginsBinary(value: nat, width: nat)
    requires 1 <= width && value <= Mask(width)
    ensures "0b" <= FullText(value, width, Hex) <==>
            HexDigits(width) >= 2 && value / Pow(16, HexDigits(width) - 2) == 11
  {
    HexLength(value, width);
    FullTextSpells(value, width, Hex);
    if HexDigits(width) >= 2 {
      TopTwo(FullText(value, width, Hex));
    }
  }

  lemma HexLength(value: nat, width: nat)
    requires 1 <= width && value <= Mask(width)
    ensures |FullText(value, width, Hex)| == HexDigits(width)
  {
    HexWidth(value, width);
  }

  // A text of hex digits begins with `0b` when its value does.
  lemma TopTwo(s: string)
    requires |s| >= 2 && AllDigits(s, 16) && Plain(s)
    ensures "0b" <= s <==> ValueOf(s, 16) / Pow(16, |s| - 2) == 11
  {
    TopDigits(s);
    TwoDigits(s);
  }

  // Such a word, of eight bits: it prints as a prefix with no digits after it.
  lemma ElevenReadsNothing()
    ensures Format(Cell(0x0b, 0xff), 8, Hex) == "0b" && ParseWord("0b", 8, Hex) == Refused(Empty)
  {
    assert Mask(8) == 255;
    AndFits(255, 8);
    AndFits(11, 8);
    assert Spell(11, 16) == "b";
    assert FullText(11, 8, Hex) == "0b";
    ParsePlain("0b", 8, Hex);
  }

  lemma TopDigits(s: string)
    requires |s| >= 2 && AllDigits(s, 16)
    ensures ValueOf(s, 16) / Pow(16, |s| - 2) == ValueOf(s[..2], 16)
  {
    assert s == s[..2] + s[2..];
    ValueConcat(s[..2], s[2..], 16);
    ValueBound(s[2..], 16);
    ModUnique(ValueOf(s, 16), Pow(16, |s| - 2), ValueOf(s[..2], 16), ValueOf(s[2..], 16));
  }

  lemma TwoDigits(s: string)
    requires |s| >= 2 && Plain(s)
    ensures ValueOf(s[..2], 16) == 11 <==> "0b" <= s
  {
    TwoDigitValue(s[0], s[1]);
    assert s[..2] == [s[0], s[1]];
  }

  lemma HexWidth(value: nat, width: nat)
    requires 1 <= width && value <= Mask(width)
    ensures |Spell(value, 16)| <= HexDigits(width)
  {
    var n := HexDigits(width);
    PowPow(2, 4, n);
    assert Pow(2, 4) == 16;
    PowMonotone(2, width, 4 * n);
    SpellLength(value, 16, n);
  }
}
