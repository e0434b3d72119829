// Which lines are which requests (site/src/scripts/sim-protocol.ts).
module Requests {
  import opened Numbers
  import opened Wrappers
  import opened SimProtocol

  // ---- words -------------------------------------------------------------------------------

  lemma {:induction false} TokenLengthOver(w: string, rest: string)
    requires (forall i :: 0 <= i < |w| ==> !Separates(w[i])) && (rest == "" || Separates(rest[0]))
    ensures TokenLength(w + rest) == |w|
  {
    if w != "" {
      assert (w + rest)[1..] == w[1..] + rest;
      TokenLengthOver(w[1..], rest);
    } else {
      assert w + rest == rest;
    }
  }

  predicate OneWord(w: string) {
    w != "" && forall i :: 0 <= i < |w| ==> !Separates(w[i])
  }

  lemma TokensWord(w: string, rest: string)
    requires OneWord(w) && (rest == "" || Separates(rest[0]))
    ensures Tokens(w + rest) == [w] + Tokens(rest)
  {
    TokenLengthOver(w, rest);
    assert (w + rest)[0] == w[0];
    assert (w + rest)[..|w|] == w && (w + rest)[|w|..] == rest;
  }

  // The words of two texts apart are those of the one and then those of the other; of
  // nothing there are none, and of a run without a space there is itself.
  lemma {:induction false} TokensApart(a: string, c: char, b: string)
    requires Separates(c)
    ensures Tokens(a + [c] + b) == Tokens(a) + Tokens(b)
    decreases |a|
  {
    var s := a + [c] + b;
    if a == "" {
      assert s[1..] == b;
    } else if Separates(a[0]) {
      assert s[1..] == a[1..] + [c] + b;
      TokensApart(a[1..], c, b);
    } else {
      var n := TokenLength(a);
      TokenRun(a);
      TokensApart(a[n..], c, b);
      WordApart(a[..n], a[n..], c, b);
      assert a == a[..n] + a[n..];
    }
  }

  lemma Assoc(a: string, b: string, c: string, d: string)
    ensures a + b + c + d == a + (b + c + d)
  {
  }

  lemma Three(a: seq<string>, b: seq<string>, c: seq<string>)
    ensures a + (b + c) == a + b + c
  {
  }

  lemma WordApart(w: string, rest: string, c: char, b: string)
    requires OneWord(w) && (rest == "" || Separates(rest[0])) && Separates(c)
    requires Tokens(rest + [c] + b) == Tokens(rest) + Tokens(b)
    ensures Tokens(w + rest + [c] + b) == Tokens(w + rest) + Tokens(b)
  {
    Assoc(w, rest, [c], b);
    assert rest + [c] + b == rest + ([c] + b) && (rest == "" ==> (rest + [c] + b)[0] == c);
    TokensWord(w, rest + [c] + b);
    TokensWord(w, rest);
    Three([w], Tokens(rest), Tokens(b));
  }

  lemma {:induction false} TokenRun(s: string)
    ensures var n := TokenLength(s);
            (forall i :: 0 <= i < n ==> !Separates(s[i])) && (n == |s| || Separates(s[n]))
  {
    if s != "" && !Separates(s[0]) {
      TokenRun(s[1..]);
    }
  }

  lemma TokensOfWord(w: string)
    ensures Tokens("") == [] && (OneWord(w) ==> Tokens(w) == [w])
  {
    if OneWord(w) {
      TokensWord(w, "");
      assert w + "" == w;
    }
  }

  // ---- literals ----------------------------------------------------------------------------

  // What may stand before the digits, and the base it tells.
  predicate Tells(prefix: string, base: nat) {
    || (prefix == "" && base == 10)
    || (prefix in ["0b", "0B"] && base == 2) || (prefix in ["0o", "0O"] && base == 8) || (prefix in ["0x", "0X"] && base == 16)
  }

  // It begins as a prefix does, with something after that.
  predicate Begins(s: string) {
    |s| > 2 && s[0] == '0' && s[1] in "bBoOxX"
  }

  // Digits with underscores between them, that say a number of 64 bits.
  predicate DigitsSay(digits: string, base: nat, v: nat) {
    && digits != "" && digits[0] != '_' && digits[|digits| - 1] != '_'
    && AllDigits(Unspaced(digits), base) && v == ValueOf(Unspaced(digits), base) < Pow(2, 64)
  }

  // A sign, a prefix and digits. Without a prefix they must not look like having one,
  // and with a minus they say zero.
  predicate Spells(sign: string, prefix: string, base: nat, digits: string, v: nat) {
    && sign in ["", "+", "-"] && Tells(prefix, base) && DigitsSay(digits, base, v)
    && (prefix == "" ==> !Begins(digits))
    && (sign == "-" ==> v == 0)
  }

  ghost predicate LiteralOf(text: string, v: nat) {
    exists sign: string, prefix: string, base: nat, digits: string ::
      Spells(sign, prefix, base, digits, v) && text == sign + (prefix + digits)
  }

  lemma PrefixedIs(prefix: string, base: nat, digits: string)
    requires Tells(prefix, base) && digits != ""
    requires prefix == "" ==> !Begins(digits)
    ensures Prefixed(prefix + digits) == (base, digits)
  {
    var buf := prefix + digits;
    if prefix == "" {
      assert buf == digits;
    } else {
      assert |prefix| == 2 && buf[0] == prefix[0] && buf[1] == prefix[1] && buf[2..] == digits;
    }
  }

  lemma PrefixedParts(buf: string) returns (prefix: string)
    requires buf != ""
    ensures var (base, digits) := Prefixed(buf);
            && Tells(prefix, base) && buf == prefix + digits
            && (prefix == "" ==> !Begins(digits))
  {
    var (base, digits) := Prefixed(buf);
    if base == 10 {
      prefix := "";
    } else {
      prefix := buf[..2];
      assert prefix == ['0', buf[1]];
      assert "0b" == ['0', 'b'] && "0B" == ['0', 'B'] && "0o" == ['0', 'o'] && "0O" == ['0', 'O'];
      assert "0x" == ['0', 'x'] && "0X" == ['0', 'X'];
    }
  }

  lemma UnsignedIs(digits: string, base: nat, v: nat)
    ensures Unsigned(digits, base) == Some(v) <==> DigitsSay(digits, base, v)
  {
  }

  lemma SignOf(text: string) returns (sign: string, buf: string)
    requires text != ""
    ensures sign in ["", "+", "-"] && text == sign + buf
    ensures buf == if text[0] == '+' || text[0] == '-' then text[1..] else text
    ensures sign == "-" <==> text[0] == '-'
  {
    sign, buf := "", text;
    if text[0] == '+' {
      sign, buf := "+", text[1..];
    } else if text[0] == '-' {
      sign, buf := "-", text[1..];
    }
    assert sign == "" || sign == "+" || sign == "-";
  }

  lemma LiteralParts(text: string, v: nat)
    requires ParseValue(text) == Some(v)
    ensures LiteralOf(text, v)
  {
    var sign, buf := SignOf(text);
    var prefix := PrefixedParts(buf);
    var (base, digits) := Prefixed(buf);
    UnsignedIs(digits, base, v);
    assert Spells(sign, prefix, base, digits, v);
  }

  lemma LiteralReads(sign: string, prefix: string, base: nat, digits: string, v: nat)
    requires Spells(sign, prefix, base, digits, v)
    ensures ParseValue(sign + (prefix + digits)) == Some(v)
  {
    PrefixedIs(prefix, base, digits);
    UnsignedIs(digits, base, v);
    SignedReads(sign, prefix, base, digits, v);
  }

  lemma SignedReads(sign: string, prefix: string, base: nat, digits: string, v: nat)
    requires Spells(sign, prefix, base, digits, v) && Prefixed(prefix + digits) == (base, digits)
    requires Unsigned(digits, base) == Some(v)
    ensures ParseValue(sign + (prefix + digits)) == Some(v)
  {
    var buf := prefix + digits;
    if sign == "" {
      assert sign + buf == buf;
      NoSign(prefix, base, digits);
    } else {
      assert (sign + buf)[1..] == buf && (sign + buf)[0] == sign[0];
    }
  }

  lemma NoSign(prefix: string, base: nat, digits: string)
    requires Tells(prefix, base) && digits != "" && digits[0] != '_' && AllDigits(Unspaced(digits), base)
    ensures var buf := prefix + digits; buf[0] != '+' && buf[0] != '-'
  {
    if prefix == "" {
      UnspacedConcat(digits[..1], digits[1..]);
      assert digits == digits[..1] + digits[1..];
      assert digits[..1][..0] == "";
      assert Unspaced(digits[..1]) == [digits[0]];
      assert Unspaced(digits)[0] == digits[0];
    } else {
      assert (prefix + digits)[0] == prefix[0];
    }
  }

  // A literal is exactly what has this form, and is then that number.
  lemma LiteralMeans(text: string, v: nat)
    ensures ParseValue(text) == Some(v) <==> LiteralOf(text, v)
  {
    if ParseValue(text) == Some(v) {
      LiteralParts(text, v);
    }
    if LiteralOf(text, v) {
      var sign: string, prefix: string, base: nat, digits: string :|
        Spells(sign, prefix, base, digits, v) && text == sign + (prefix + digits);
      LiteralReads(sign, prefix, base, digits, v);
    }
  }

  // ---- requests ----------------------------------------------------------------------------

  // A literal that may be left out.
  predicate Maybe(rest: seq<string>, m: Option<nat>) {
    match m
    case None => rest == []
    case Some(v) => |rest| == 1 && ParseValue(rest[0]) == Some(v)
  }

  // The first of a character stands here.
  predicate FirstAt(s: string, c: char, i: int) {
    0 <= i < |s| && s[i] == c && forall j :: 0 <= j < i ==> s[j] != c
  }

  // A literal, and maybe `/` and a mask.
  predicate SidesOf(rhs: string, v: nat, mask: Option<nat>) {
    match mask
    case None => '/' !in rhs && ParseValue(rhs) == Some(v)
    case Some(m) =>
      exists k :: 0 <= k < |rhs| && FirstAt(rhs, '/', k) && ParseValue(rhs[..k]) == Some(v) && ParseValue(rhs[k + 1..]) == Some(m)
  }

  // A pin, `=`, and what it is set to.
  predicate AssignOf(tok: string, a: Assign) {
    exists k :: 0 < k < |tok| && FirstAt(tok, '=', k) && a.pin == tok[..k] && SidesOf(tok[k + 1..], a.value, a.mask)
  }

  predicate NoArrow(ws: seq<string>) {
    forall i :: 0 <= i < |ws| ==> ws[i] != "=>"
  }

  // Assignments, one arrow, and what is asked.
  ghost predicate EvalOf(rest: seq<string>, assigns: seq<Assign>, queries: seq<string>) {
    var n := |assigns|;
    && n < |rest| && rest[n] == "=>" && queries == rest[n + 1..] && NoArrow(rest[..n]) && NoArrow(queries)
    && forall i :: 0 <= i < n ==> AssignOf(rest[i], assigns[i])
  }

  predicate SetOf(rest: seq<string>, c: Command) {
    c.Set? && |rest| >= 2 && rest[0] == c.pin && ParseValue(rest[1]) == Some(c.value) && Maybe(rest[2..], c.mask)
  }

  predicate PokeOf(rest: seq<string>, c: Command) {
    && c.Poke? && |rest| >= 3 && rest[0] == c.mem
    && ParseValue(rest[1]) == Some(c.addr) && ParseValue(rest[2]) == Some(c.value) && Maybe(rest[3..], c.mask)
  }

  predicate MemOf(rest: seq<string>, c: Command) {
    && c.Mem? && |rest| >= 1 && rest[0] == c.mem
    && if c.start.None? then |rest| == 1 && c.count.None?
       else |rest| >= 2 && ParseValue(rest[1]) == c.start && Maybe(rest[2..], c.count)
  }

  predicate PeekOf(rest: seq<string>, c: Command) {
    c.Peek? && |rest| == 2 && rest[0] == c.mem && ParseValue(rest[1]) == Some(c.addr)
  }

  predicate DumpOf(rest: seq<string>, c: Command) {
    c.Dump? && rest == [match c.which case Inputs => "in" case Outputs => "out" case All => "all"]
  }

  // The words of a request: its verb and what follows it.
  ghost predicate RequestOf(verb: string, rest: seq<string>, c: Command) {
    match c
    case Pins => verb == "pins"
    case Run => verb == "run"
    case Reset => verb == "reset"
    case Quit => verb == "quit"
    case Mems => verb == "mems" && rest == []
    case Set(_, _, _) => verb == "set" && SetOf(rest, c)
    case Get(pin) => verb == "get" && rest == [pin]
    case Dump(_) => verb == "dump" && DumpOf(rest, c)
    case Eval(assigns, queries) => verb == "eval" && EvalOf(rest, assigns, queries)
    case Load(mem, path) => verb == "load" && rest == [mem, path]
    case Save(mem, path) => verb == "save" && rest == [mem, path]
    case Peek(_, _) => verb == "peek" && PeekOf(rest, c)
    case Poke(_, _, _, _) => verb == "poke" && PokeOf(rest, c)
    case Mem(_, _, _) => verb == "mem" && MemOf(rest, c)
    case Clear(mem) => verb == "clear" && rest == [mem]
  }

  lemma WithMaskIs(rest: seq<string>, m: Option<nat>)
    ensures WithMask(rest) == (Empty, m) <==> Maybe(rest, m)
  {
  }

  lemma {:induction false} IndexIs(s: string, c: char)
    ensures var i := Index(s, c); (forall j :: 0 <= j < i ==> s[j] != c) && (i == |s| <==> c !in s)
  {
    if s != "" && s[0] != c {
      IndexIs(s[1..], c);
      assert s == [s[0]] + s[1..];
      assert forall j :: 0 < j < |s| ==> s[j] == s[1..][j - 1];
    }
  }

  lemma IndexFirst(s: string, c: char, k: int)
    ensures FirstAt(s, c, k) <==> k == Index(s, c) < |s|
  {
    IndexIs(s, c);
  }

  // The one assignment a token is read as.
  function Assigning(a: Assign): Outcome {
    Parsed(Eval([a], []))
  }

  // What a right-hand side is read as: a literal and maybe a mask, or nothing.
  function Sides(rhs: string): (Option<nat>, Option<nat>) {
    var slash := Index(rhs, '/');
    if slash < |rhs| then (ParseValue(rhs[..slash]), ParseValue(rhs[slash + 1..])) else (ParseValue(rhs), None)
  }

  lemma NoSlash(rhs: string, v: nat, mask: Option<nat>)
    requires '/' !in rhs
    ensures SidesOf(rhs, v, mask) <==> mask.None? && ParseValue(rhs) == Some(v)
  {
    assert forall k :: 0 <= k < |rhs| ==> rhs[k] in rhs;
  }

  lemma OneSlash(rhs: string, v: nat, mask: Option<nat>, k: nat)
    requires FirstAt(rhs, '/', k)
    ensures SidesOf(rhs, v, mask) <==> mask.Some? && ParseValue(rhs[..k]) == Some(v) && ParseValue(rhs[k + 1..]) == mask
  {
    assert rhs[k] in rhs;
    if mask.Some? && SidesOf(rhs, v, mask) {
      var h :| 0 <= h < |rhs| && FirstAt(rhs, '/', h) && ParseValue(rhs[..h]) == Some(v) && ParseValue(rhs[h + 1..]) == mask;
      assert h == k;
    }
  }

  lemma SidesMean(rhs: string, v: nat, mask: Option<nat>)
    ensures SidesOf(rhs, v, mask) <==>
            Sides(rhs) == (Some(v), mask) && (mask.None? <==> Index(rhs, '/') == |rhs|)
  {
    IndexIs(rhs, '/');
    if Index(rhs, '/') == |rhs| {
      NoSlash(rhs, v, mask);
    } else {
      OneSlash(rhs, v, mask, Index(rhs, '/'));
    }
  }

  lemma AssignUnfolds(tok: string, k: nat)
    requires k == Index(tok, '=') && 0 < k < |tok|
    ensures var (v, mask) := Sides(tok[k + 1..]);
            var masked := Index(tok[k + 1..], '/') < |tok[k + 1..]|;
            ParseAssign(tok) == if k == |tok| - 1 then Malformed
                                else if v.None? || (masked && mask.None?) then BadValue
                                else Assigning(Assign(tok[..k], v.value, mask))
  {
  }

  lemma EmptySides(v: nat, mask: Option<nat>)
    ensures !SidesOf("", v, mask)
  {
  }

  lemma AssignIs(tok: string, a: Assign)
    ensures ParseAssign(tok) == Assigning(a) <==>
            var k := Index(tok, '=');
            0 < k < |tok| && a.pin == tok[..k] && SidesOf(tok[k + 1..], a.value, a.mask)
  {
    var k := Index(tok, '=');
    if 0 < k < |tok| {
      AssignUnfolds(tok, k);
      SidesMean(tok[k + 1..], a.value, a.mask);
      if k == |tok| - 1 {
        assert tok[k + 1..] == "";
        EmptySides(a.value, a.mask);
      }
    }
  }

  lemma AssignReads(tok: string, a: Assign)
    requires AssignOf(tok, a)
    ensures ParseAssign(tok) == Assigning(a)
  {
    var k :| 0 < k < |tok| && FirstAt(tok, '=', k) && a.pin == tok[..k] && SidesOf(tok[k + 1..], a.value, a.mask);
    IndexFirst(tok, '=', k);
    AssignIs(tok, a);
  }

  lemma AssignParts(tok: string)
    requires ParseAssign(tok).Parsed?
    ensures exists a: Assign :: ParseAssign(tok) == Assigning(a) && AssignOf(tok, a)
  {
    var a := AssignRead(tok);
    AssignIs(tok, a);
    IndexFirst(tok, '=', Index(tok, '='));
  }

  lemma AssignRead(tok: string) returns (a: Assign)
    requires ParseAssign(tok).Parsed?
    ensures ParseAssign(tok) == Assigning(a)
  {
    a := ParseAssign(tok).command.assigns[0];
  }

  // A token is read as an assignment exactly when it has this form.
  lemma AssignMeans(tok: string, a: Assign)
    ensures ParseAssign(tok) == Assigning(a) <==> AssignOf(tok, a)
  {
    if AssignOf(tok, a) {
      AssignReads(tok, a);
    }
    if ParseAssign(tok) == Assigning(a) {
      AssignParts(tok);
    }
  }

  lemma EvalFront(rest: seq<string>, assigns: seq<Assign>, queries: seq<string>)
    requires rest != []
    ensures EvalOf(rest, assigns, queries) <==>
            if rest[0] == "=>" then assigns == [] && queries == rest[1..] && NoArrow(queries)
            else assigns != [] && AssignOf(rest[0], assigns[0]) && EvalOf(rest[1..], assigns[1..], queries)
  {
    var n := |assigns|;
    if rest[0] != "=>" && n > 0 && n < |rest| {
      assert rest[n + 1..] == rest[1..][n..] && rest[n] == rest[1..][n - 1];
      assert rest[..n] == [rest[0]] + rest[1..][..n - 1];
      assert forall i :: 1 <= i < n ==> rest[i] == rest[1..][i - 1] && assigns[i] == assigns[1..][i - 1];
      assert NoArrow(rest[..n]) <==> NoArrow(rest[1..][..n - 1]);
    } else if n > 0 && n < |rest| {
      assert rest[..n][0] == rest[0];
    }
  }

  lemma {:induction false} QueriesMean(rest: seq<string>, assigns: seq<Assign>, queries: seq<string>, c: Command)
    ensures ParseEval(rest, assigns, queries, true) == Parsed(c) <==> NoArrow(rest) && c == Eval(assigns, queries + rest)
    decreases |rest|
  {
    if rest == [] {
      assert queries + rest == queries;
    } else {
      QueriesMean(rest[1..], assigns, queries + [rest[0]], c);
      assert queries + [rest[0]] + rest[1..] == queries + rest;
      assert rest == [rest[0]] + rest[1..];
    }
  }

  // The rest of an `eval` after some assignments.
  lemma {:induction false} EvalMeans(rest: seq<string>, before: seq<Assign>, more: seq<Assign>, queries: seq<string>)
    ensures ParseEval(rest, before, [], false) == Parsed(Eval(before + more, queries)) <==> EvalOf(rest, more, queries)
    decreases |rest|
  {
    if rest != [] {
      EvalFront(rest, more, queries);
      if rest[0] == "=>" {
        QueriesMean(rest[1..], before, [], Eval(before + more, queries));
        assert [] + rest[1..] == rest[1..];
        assert before + more == before <==> more == [];
      } else {
        EvalStep(rest, before, more, queries);
      }
    }
  }

  lemma EvalUnfolds(rest: seq<string>, before: seq<Assign>, a: Assign)
    requires rest != [] && rest[0] != "=>" && ParseAssign(rest[0]) == Assigning(a)
    ensures ParseEval(rest, before, [], false) == ParseEval(rest[1..], before + [a], [], false)
  {
  }

  lemma EvalStep(rest: seq<string>, before: seq<Assign>, more: seq<Assign>, queries: seq<string>)
    requires rest != [] && rest[0] != "=>"
    ensures ParseEval(rest, before, [], false) == Parsed(Eval(before + more, queries)) <==>
            more != [] && AssignOf(rest[0], more[0]) && EvalOf(rest[1..], more[1..], queries)
    decreases |rest|, 0
  {
    if ParseAssign(rest[0]).Parsed? {
      AssignParts(rest[0]);
      var a :| ParseAssign(rest[0]) == Assigning(a) && AssignOf(rest[0], a);
      EvalUnfolds(rest, before, a);
      if more != [] && more[0] == a {
        EvalMeans(rest[1..], before + [a], more[1..], queries);
        Shifted(before, more);
      } else {
        OtherAssign(rest, before, more, queries, a);
      }
    } else {
      NoAssign(rest, before, queries, before + more);
      if more != [] {
        AssignMeans(rest[0], more[0]);
      }
    }
  }

  lemma Shifted(before: seq<Assign>, more: seq<Assign>)
    requires more != []
    ensures before + [more[0]] + more[1..] == before + more
  {
  }

  lemma NoAssign(rest: seq<string>, before: seq<Assign>, queries: seq<string>, all: seq<Assign>)
    requires rest != [] && rest[0] != "=>" && !ParseAssign(rest[0]).Parsed?
    ensures ParseEval(rest, before, [], false) != Parsed(Eval(all, queries))
  {
  }

  lemma OtherAssign(rest: seq<string>, before: seq<Assign>, more: seq<Assign>, queries: seq<string>, a: Assign)
    requires rest != [] && ParseAssign(rest[0]) == Assigning(a) && (more == [] || more[0] != a)
    ensures ParseEval(rest[1..], before + [a], [], false) != Parsed(Eval(before + more, queries))
    ensures more != [] ==> !AssignOf(rest[0], more[0])
  {
    EvalBegins(rest[1..], before + [a], before + more, queries);
    if more != [] {
      AssignMeans(rest[0], more[0]);
      assert (before + more)[|before|] == more[0];
    }
    assert (before + [a])[|before|] == a;
  }

  // What is parsed begins with what was.
  lemma {:induction false} EvalBegins(rest: seq<string>, before: seq<Assign>, all: seq<Assign>, queries: seq<string>)
    ensures ParseEval(rest, before, [], false) == Parsed(Eval(all, queries)) ==> before <= all
    decreases |rest|
  {
    if rest != [] {
      if rest[0] == "=>" {
        QueriesMean(rest[1..], before, [], Eval(all, queries));
      } else if ParseAssign(rest[0]).Parsed? {
        AssignParts(rest[0]);
        var a :| ParseAssign(rest[0]) == Assigning(a) && AssignOf(rest[0], a);
        EvalBegins(rest[1..], before + [a], all, queries);
      }
    }
  }

  // A literal that may follow, judged before anything after it.
  lemma SetMeans(rest: seq<string>, c: Command)
    ensures ParseSet(rest) == Parsed(c) <==> SetOf(rest, c)
  {
    if |rest| >= 2 {
      var (bad, mask) := WithMask(rest[2..]);
      WithMaskIs(rest[2..], mask);
      if c.Set? {
        WithMaskIs(rest[2..], c.mask);
      }
    }
  }

  lemma PokeMeans(rest: seq<string>, c: Command)
    ensures ParsePoke(rest) == Parsed(c) <==> PokeOf(rest, c)
  {
    if |rest| >= 3 {
      var (bad, mask) := WithMask(rest[3..]);
      WithMaskIs(rest[3..], mask);
      if c.Poke? {
        WithMaskIs(rest[3..], c.mask);
      }
    }
  }

  lemma MemMeans(rest: seq<string>, c: Command)
    ensures ParseMem(rest) == Parsed(c) <==> MemOf(rest, c)
  {
    if |rest| >= 2 {
      var (bad, count) := WithMask(rest[2..]);
      WithMaskIs(rest[2..], count);
      if c.Mem? {
        WithMaskIs(rest[2..], c.count);
      }
    }
  }

  lemma EvalIs(rest: seq<string>, c: Command)
    ensures ParseEval(rest, [], [], false) == Parsed(c) <==> c.Eval? && EvalOf(rest, c.assigns, c.queries)
  {
    if c.Eval? {
      EvalMeans(rest, [], c.assigns, c.queries);
      assert [] + c.assigns == c.assigns;
    } else {
      EvalOnly(rest, [], c);
    }
  }

  lemma {:induction false} EvalOnly(rest: seq<string>, before: seq<Assign>, c: Command)
    requires !c.Eval?
    ensures ParseEval(rest, before, [], false) != Parsed(c)
    decreases |rest|
  {
    if rest != [] {
      if rest[0] == "=>" {
        QueriesMean(rest[1..], before, [], c);
      } else if ParseAssign(rest[0]).Parsed? {
        AssignParts(rest[0]);
        var a :| ParseAssign(rest[0]) == Assigning(a) && AssignOf(rest[0], a);
        EvalOnly(rest[1..], before + [a], c);
      }
    }
  }

  // The verbs that take names or nothing.
  lemma NamesMean(verb: string, rest: seq<string>, c: Command)
    requires verb != "set" && verb != "poke" && verb != "mem" && verb != "eval" && verb != "peek" && verb != "dump"
    ensures ParseTokens([verb] + rest) == Parsed(c) <==> RequestOf(verb, rest, c)
  {
    assert ([verb] + rest)[1..] == rest;
  }

  lemma Verbs(rest: seq<string>)
    ensures ParseTokens(["set"] + rest) == ParseSet(rest) && ParseTokens(["poke"] + rest) == ParsePoke(rest)
    ensures ParseTokens(["mem"] + rest) == ParseMem(rest) && ParseTokens(["eval"] + rest) == ParseEval(rest, [], [], false)
  {
    assert (["set"] + rest)[1..] == rest && (["poke"] + rest)[1..] == rest;
    assert (["mem"] + rest)[1..] == rest && (["eval"] + rest)[1..] == rest;
  }

  lemma VerbsTell(rest: seq<string>, c: Command)
    ensures RequestOf("set", rest, c) <==> SetOf(rest, c)
    ensures RequestOf("poke", rest, c) <==> PokeOf(rest, c)
    ensures RequestOf("mem", rest, c) <==> MemOf(rest, c)
  {
  }

  lemma SetWords(rest: seq<string>, c: Command)
    ensures ParseTokens(["set"] + rest) == Parsed(c) <==> RequestOf("set", rest, c)
  {
    Verbs(rest);
    VerbsTell(rest, c);
    SetMeans(rest, c);
  }

  lemma PokeWords(rest: seq<string>, c: Command)
    ensures ParseTokens(["poke"] + rest) == Parsed(c) <==> RequestOf("poke", rest, c)
  {
    Verbs(rest);
    VerbsTell(rest, c);
    PokeMeans(rest, c);
  }

  lemma MemWords(rest: seq<string>, c: Command)
    ensures ParseTokens(["mem"] + rest) == Parsed(c) <==> RequestOf("mem", rest, c)
  {
    Verbs(rest);
    VerbsTell(rest, c);
    MemMeans(rest, c);
  }

  lemma EvalWords(rest: seq<string>, c: Command)
    ensures ParseTokens(["eval"] + rest) == Parsed(c) <==> RequestOf("eval", rest, c)
  {
    Verbs(rest);
    EvalIs(rest, c);
  }

  lemma ReadWords(verb: string, rest: seq<string>, c: Command)
    requires verb == "peek" || verb == "dump"
    ensures ParseTokens([verb] + rest) == Parsed(c) <==> RequestOf(verb, rest, c)
  {
    assert ([verb] + rest)[1..] == rest;
  }

  // Words are read as a request exactly when they are its words.
  lemma WordsMean(ws: seq<string>, c: Command)
    requires ws != []
    ensures ParseTokens(ws) == Parsed(c) <==> RequestOf(ws[0], ws[1..], c)
  {
    assert ws == [ws[0]] + ws[1..];
    if ws[0] == "set" {
      SetWords(ws[1..], c);
    } else if ws[0] == "poke" {
      PokeWords(ws[1..], c);
    } else if ws[0] == "mem" {
      MemWords(ws[1..], c);
    } else if ws[0] == "eval" {
      EvalWords(ws[1..], c);
    } else if ws[0] == "peek" || ws[0] == "dump" {
      ReadWords(ws[0], ws[1..], c);
    } else {
      NamesMean(ws[0], ws[1..], c);
    }
  }

  // A line is a request exactly when, trimmed, it is something, is no comment, and its
  // words are those of the request.
  lemma LineMeans(raw: string, c: Command)
    ensures var line := TrimRight(TrimLeft(raw));
            ParseLine(raw) == Parsed(c) <==>
            line != "" && line[0] != '#' && Tokens(line) != [] && RequestOf(Tokens(line)[0], Tokens(line)[1..], c)
  {
    var line := TrimRight(TrimLeft(raw));
    if line != "" && line[0] != '#' {
      WordsMean(Tokens(line), c);
    }
  }
}
