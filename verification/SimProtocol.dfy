// The `--sim` request grammar (site/src/scripts/sim-protocol.ts).
module SimProtocol {
  import opened Wrappers
  import opened Numbers

  datatype Which = Inputs | Outputs | All

  datatype Assign = Assign(pin: string, value: nat, mask: Option<nat>)

  datatype Command =
    | Pins | Run | Reset | Quit | Mems
    | Set(pin: string, value: nat, mask: Option<nat>)
    | Get(pin: string)
    | Dump(which: Which)
    | Eval(assigns: seq<Assign>, queries: seq<string>)
    | Load(mem: string, path: string)
    | Save(mem: string, path: string)
    | Peek(mem: string, addr: nat)
    | Poke(mem: string, addr: nat, value: nat, mask: Option<nat>)
    | Mem(mem: string, start: Option<nat>, count: Option<nat>)
    | Clear(mem: string)

  datatype Outcome = Parsed(command: Command) | Empty | Malformed | BadValue

  // ---- integer literals --------------------------------------------------------------

  const U64: nat := Pow(2, 64)

  // Underscores between digits are skipped.
  function Unspaced(digits: string): string {
    if digits == "" then ""
    else Unspaced(digits[..|digits| - 1]) + if digits[|digits| - 1] == '_' then "" else [digits[|digits| - 1]]
  }

  // The base a literal is in and its digits: a prefix counts only past two characters.
  function Prefixed(buf: string): (nat, string) {
    if |buf| > 2 && buf[0] == '0' && (buf[1] == 'b' || buf[1] == 'B') then (2, buf[2..])
    else if |buf| > 2 && buf[0] == '0' && (buf[1] == 'o' || buf[1] == 'O') then (8, buf[2..])
    else if |buf| > 2 && buf[0] == '0' && (buf[1] == 'x' || buf[1] == 'X') then (16, buf[2..])
    else (10, buf)
  }

  function Unsigned(digits: string, base: nat): Option<nat> {
    if digits == "" || digits[0] == '_' || digits[|digits| - 1] == '_' then None else
    var plain := Unspaced(digits);
    if AllDigits(plain, base) && ValueOf(plain, base) < U64 then Some(ValueOf(plain, base)) else None
  }

  // A literal of 64 bits, its base told by its prefix; of the negative ones only zero
  // is one.
  function ParseValue(text: string): Option<nat> {
    if text == "" then None else
    var buf := if text[0] == '+' || text[0] == '-' then text[1..] else text;
    if buf == "" then None else
    var (base, digits) := Prefixed(buf);
    match Unsigned(digits, base)
    case None => None
    case Some(v) => if text[0] == '-' && v != 0 then None else Some(v)
  }

  lemma ValueGrows(s: string, t: string, base: nat)
    requires base >= 1
    ensures ValueOf(s, base) <= ValueOf(s + t, base)
  {
    ValueConcat(s, t, base);
    Grows(ValueOf(s, base), Pow(base, |t|), ValueOf(t, base));
  }

  lemma Grows(x: nat, p: nat, y: nat)
    requires p >= 1
    ensures x <= x * p + y
  {
    MulLe(1, p, x);
  }

  lemma {:induction false} UnspacedConcat(s: string, t: string)
    ensures Unspaced(s + t) == Unspaced(s) + Unspaced(t)
  {
    if t == "" {
      assert s + t == s;
    } else {
      UnspacedConcat(s, t[..|t| - 1]);
      assert (s + t)[..|s + t| - 1] == s + t[..|t| - 1];
    }
  }

  // A digit that is none, or a value already past 64 bits, decides the literal.
  lemma StopsEarly(digits: string, i: nat, base: nat)
    requires base >= 1 && i <= |digits|
    requires !AllDigits(Unspaced(digits[..i]), base) || ValueOf(Unspaced(digits[..i]), base) >= U64
    ensures Unsigned(digits, base) == None
  {
    var s, t := Unspaced(digits[..i]), Unspaced(digits[i..]);
    UnspacedConcat(digits[..i], digits[i..]);
    assert digits[..i] + digits[i..] == digits;
    ValueGrows(s, t, base);
    if AllDigits(s + t, base) {
      assert forall k :: 0 <= k < |s| ==> s[k] == (s + t)[k];
    }
  }

  // One more character, and what it makes of the digits and the value so far.
  lemma UnspacedStep(digits: string, i: nat, base: nat)
    requires i < |digits|
    ensures digits[i] == '_' ==> Unspaced(digits[..i + 1]) == Unspaced(digits[..i])
    ensures digits[i] != '_' ==>
            var s, t := Unspaced(digits[..i]), Unspaced(digits[..i + 1]);
            && t == s + [digits[i]]
            && ValueOf(t, base) == ValueOf(s, base) * base + DigitValue(digits[i])
            && (AllDigits(t, base) <==> AllDigits(s, base) && DigitValue(digits[i]) < base)
  {
    assert digits[..i + 1][..i] == digits[..i];
    if digits[i] != '_' {
      var s := Unspaced(digits[..i]);
      ValueSnoc(s, digits[i], base);
      assert forall k :: 0 <= k < |s| ==> (s + [digits[i]])[k] == s[k];
      assert (s + [digits[i]])[|s|] == digits[i];
    }
  }

  // The digit loop.
  method Accumulate(digits: string, base: nat) returns (r: Option<nat>)
    requires digits != "" && base >= 2
    ensures r == Unsigned(digits, base)
  {
    if digits[0] == '_' || digits[|digits| - 1] == '_' {
      return None;
    }
    var acc: nat := 0;
    for i := 0 to |digits|
      invariant AllDigits(Unspaced(digits[..i]), base) && acc == ValueOf(Unspaced(digits[..i]), base) < U64
    {
      UnspacedStep(digits, i, base);
      if digits[i] != '_' {
        var d := DigitValue(digits[i]);
        acc := acc * base + d;
        if d >= base || acc >= U64 {
          StopsEarly(digits, i + 1, base);
          return None;
        }
      }
    }
    assert digits[..|digits|] == digits;
    r := Some(acc);
  }

  method ParseValueOf(text: string) returns (r: Option<nat>)
    ensures r == ParseValue(text)
  {
    if |text| == 0 {
      return None;
    }
    var buf, negative := text, false;
    if buf[0] == '+' {
      buf := buf[1..];
    } else if buf[0] == '-' {
      buf := buf[1..];
      negative := true;
    }
    if |buf| == 0 {
      return None;
    }
    var (base, digits) := Prefixed(buf);
    var acc := Accumulate(digits, base);
    if acc.Some? && negative && acc.value != 0 {
      return None;
    }
    r := acc;
  }

  // Lower-case hex, prefixed, unpadded.
  function WriteHex(v: nat): string {
    "0x" + Spell(v, 16)
  }

  predicate NoUnderscore(s: string) {
    forall i :: 0 <= i < |s| ==> s[i] != '_'
  }

  lemma {:induction false} UnspacedPlain(s: string)
    requires NoUnderscore(s)
    ensures Unspaced(s) == s
  {
    if s != "" {
      UnspacedPlain(s[..|s| - 1]);
      assert s[..|s| - 1] + [s[|s| - 1]] == s;
    }
  }

  lemma UnsignedPlain(s: string, base: nat)
    requires s != "" && AllDigits(s, base) && base <= 36
    ensures Unsigned(s, base) == if ValueOf(s, base) < U64 then Some(ValueOf(s, base)) else None
  {
    forall i | 0 <= i < |s|
      ensures s[i] != '_'
    {
      assert DigitValue(s[i]) < base;
    }
    UnspacedPlain(s);
  }

  // A value written in hex reads back as itself exactly when it has 64 bits.
  lemma HexReadsBack(v: nat)
    ensures ParseValue(WriteHex(v)) == if v < U64 then Some(v) else None
  {
    var s := Spell(v, 16);
    SpellValue(v, 16);
    UnsignedPlain(s, 16);
    assert WriteHex(v)[2..] == s;
    assert Prefixed(WriteHex(v)) == (16, s);
  }

  // ---- request lines -----------------------------------------------------------------

  // `[ \t]`
  predicate Separates(c: char) {
    c == ' ' || c == '\t'
  }

  // `[ \t\r\n]`
  predicate Trims(c: char) {
    Separates(c) || c == '\r' || c == '\n'
  }

  function TrimLeft(s: string): (t: string)
    ensures t != "" ==> !Trims(t[0])
  {
    if s != "" && Trims(s[0]) then TrimLeft(s[1..]) else s
  }

  function TrimRight(s: string): (t: string)
    ensures t != "" ==> s != "" && t[0] == s[0]
  {
    if s != "" && Trims(s[|s| - 1]) then TrimRight(s[..|s| - 1]) else s
  }

  // The length of the first token.
  function TokenLength(s: string): (n: nat)
    ensures n <= |s|
    ensures s != "" && !Separates(s[0]) ==> n > 0
  {
    if s == "" || Separates(s[0]) then 0 else 1 + TokenLength(s[1..])
  }

  // `line.split(/[ \t]+/)`, for a line trimmed at both ends.
  function Tokens(s: string): (tokens: seq<string>)
    ensures s != "" && !Separates(s[0]) ==> tokens != []
    decreases |s|
  {
    if s == "" then []
    else if Separates(s[0]) then Tokens(s[1..])
    else
      var n := TokenLength(s);
      [s[..n]] + Tokens(s[n..])
  }

  function Index(s: string, c: char): (i: nat)
    ensures i <= |s|
    ensures i < |s| ==> s[i] == c
  {
    if s == "" || s[0] == c then 0 else 1 + Index(s[1..], c)
  }

  // `value` or `value/mask`
  function ParseAssign(tok: string): Outcome {
    var eq := Index(tok, '=');
    if eq == 0 || eq == |tok| || eq == |tok| - 1 then Malformed else
    var pin, rhs := tok[..eq], tok[eq + 1..];
    var slash := Index(rhs, '/');
    var v := ParseValue(if slash < |rhs| then rhs[..slash] else rhs);
    var m := if slash < |rhs| then ParseValue(rhs[slash + 1..]) else None;
    if v.None? || (slash < |rhs| && m.None?) then BadValue
    else Parsed(Eval([Assign(pin, v.value, m)], []))
  }

  // The tokens of an `eval`, assignments before the arrow and queries after it.
  function ParseEval(rest: seq<string>, assigns: seq<Assign>, queries: seq<string>, sawArrow: bool): Outcome {
    if rest == [] then (if sawArrow then Parsed(Eval(assigns, queries)) else Malformed)
    else if rest[0] == "=>" then
      if sawArrow then Malformed else ParseEval(rest[1..], assigns, queries, true)
    else if sawArrow then ParseEval(rest[1..], assigns, queries + [rest[0]], true)
    else
      match ParseAssign(rest[0])
      case Parsed(Eval(a, _)) => ParseEval(rest[1..], assigns + a, queries, false)
      case other => other
  }

  method ParseEvalOf(rest: seq<string>) returns (r: Outcome)
    ensures r == ParseEval(rest, [], [], false)
  {
    var assigns: seq<Assign>, queries: seq<string>, sawArrow := [], [], false;
    for i := 0 to |rest|
      invariant ParseEval(rest, [], [], false) == ParseEval(rest[i..], assigns, queries, sawArrow)
    {
      var tok := rest[i];
      assert rest[i..][1..] == rest[i + 1..];
      if tok == "=>" {
        if sawArrow {
          return Malformed;
        }
        sawArrow := true;
      } else if sawArrow {
        queries := queries + [tok];
      } else {
        match ParseAssign(tok) {
          case Parsed(Eval(a, _)) => assigns := assigns + a;
          case other => return other;
        }
      }
    }
    if !sawArrow {
      return Malformed;
    }
    r := Parsed(Eval(assigns, queries));
  }

  // The literal that may still follow, and nothing after it.
  function WithMask(rest: seq<string>): (Outcome, Option<nat>) {
    if rest == [] then (Empty, None)
    else if ParseValue(rest[0]).None? then (BadValue, None)
    else if |rest| > 1 then (Malformed, None)
    else (Empty, ParseValue(rest[0]))
  }

  function ParseSet(rest: seq<string>): Outcome {
    if |rest| < 2 then Malformed else
    var v := ParseValue(rest[1]);
    if v.None? then BadValue else
    var (bad, mask) := WithMask(rest[2..]);
    if bad != Empty then bad else Parsed(Set(rest[0], v.value, mask))
  }

  function ParsePoke(rest: seq<string>): Outcome {
    if |rest| < 3 then Malformed else
    var addr, v := ParseValue(rest[1]), ParseValue(rest[2]);
    if addr.None? || v.None? then BadValue else
    var (bad, mask) := WithMask(rest[3..]);
    if bad != Empty then bad else Parsed(Poke(rest[0], addr.value, v.value, mask))
  }

  function ParseMem(rest: seq<string>): Outcome {
    if |rest| == 0 then Malformed
    else if |rest| == 1 then Parsed(Mem(rest[0], None, None))
    else if ParseValue(rest[1]).None? then BadValue
    else
      var (bad, count) := WithMask(rest[2..]);
      if bad != Empty then bad else Parsed(Mem(rest[0], ParseValue(rest[1]), count))
  }

  function ParseTokens(tokens: seq<string>): Outcome
    requires tokens != []
  {
    var verb, rest := tokens[0], tokens[1..];
    if verb == "pins" then Parsed(Pins)
    else if verb == "run" then Parsed(Run)
    else if verb == "reset" then Parsed(Reset)
    else if verb == "quit" then Parsed(Quit)
    else if verb == "mems" then (if rest == [] then Parsed(Mems) else Malformed)
    else if verb == "load" then (if |rest| == 2 then Parsed(Load(rest[0], rest[1])) else Malformed)
    else if verb == "save" then (if |rest| == 2 then Parsed(Save(rest[0], rest[1])) else Malformed)
    else if verb == "peek" then
      if |rest| != 2 then Malformed
      else if ParseValue(rest[1]).None? then BadValue
      else Parsed(Peek(rest[0], ParseValue(rest[1]).value))
    else if verb == "poke" then ParsePoke(rest)
    else if verb == "mem" then ParseMem(rest)
    else if verb == "clear" then (if |rest| == 1 then Parsed(Clear(rest[0])) else Malformed)
    else if verb == "get" then (if |rest| == 1 then Parsed(Get(rest[0])) else Malformed)
    else if verb == "dump" then
      if |rest| != 1 then Malformed
      else if rest[0] == "in" then Parsed(Dump(Inputs))
      else if rest[0] == "out" then Parsed(Dump(Outputs))
      else if rest[0] == "all" then Parsed(Dump(All))
      else Malformed
    else if verb == "set" then ParseSet(rest)
    else if verb == "eval" then ParseEval(rest, [], [], false)
    else Malformed
  }

  function ParseLine(raw: string): Outcome {
    var line := TrimRight(TrimLeft(raw));
    if line == "" || line[0] == '#' then Empty else
    ParseTokens(Tokens(line))
  }
}
