// Strings as the page sees them: sequences of UTF-16 code units.
module Utf16 {
  type Unit = n: nat | n < 0x10000
  type Text = seq<Unit>

  const LF: Unit := 10

  predicate IsHigh(u: Unit) {
    0xD800 <= u <= 0xDBFF
  }

  predicate IsLow(u: Unit) {
    0xDC00 <= u <= 0xDFFF
  }

  // ECMAScript white space and line terminators, which `\s` and `trim` share.
  predicate IsSpace(u: nat) {
    || 9 <= u <= 13 || u == 0x20 || u == 0xA0 || u == 0x1680 || 0x2000 <= u <= 0x200A
    || u == 0x2028 || u == 0x2029 || u == 0x202F || u == 0x205F || u == 0x3000 || u == 0xFEFF
  }

  // Every surrogate stands in a high-low pair.
  predicate WellFormed(s: Text) {
    if s == [] then true
    else if IsHigh(s[0]) then |s| >= 2 && IsLow(s[1]) && WellFormed(s[2..])
    else !IsLow(s[0]) && WellFormed(s[1..])
  }

  // `offset` does not fall between the halves of a pair.
  predicate ScalarBoundary(s: Text, offset: int) {
    0 <= offset <= |s| && !(0 < offset < |s| && IsHigh(s[offset - 1]) && IsLow(s[offset]))
  }

  // The loop that skips the low half of each pair it accepts.
  method IsWellFormed(value: Text) returns (ok: bool)
    ensures ok == WellFormed(value)
  {
    var index := 0;
    while index < |value|
      invariant 0 <= index <= |value|
      invariant WellFormed(value) == WellFormed(value[index..])
    {
      var code := value[index];
      if IsHigh(code) {
        if index + 1 >= |value| || !IsLow(value[index + 1]) {
          return false;
        }
        assert value[index..][2..] == value[index + 2..];
        index := index + 1;
      } else if IsLow(code) {
        return false;
      }
      assert IsHigh(code) || value[index..][1..] == value[index + 1..];
      index := index + 1;
    }
    return true;
  }

  // Well-formedness, position by position.
  lemma {:induction false} WellFormedMeans(s: Text)
    ensures WellFormed(s) <==>
            && (forall i :: 0 <= i < |s| && IsHigh(s[i]) ==> i + 1 < |s| && IsLow(s[i + 1]))
            && (forall i :: 0 <= i < |s| && IsLow(s[i]) ==> 0 < i && IsHigh(s[i - 1]))
  {
    if s == [] {
    } else if IsHigh(s[0]) {
      if |s| >= 2 && IsLow(s[1]) {
        WellFormedMeans(s[2..]);
        assert forall i :: 0 <= i < |s| - 2 ==> s[2..][i] == s[i + 2];
        assert forall i :: 2 <= i < |s| ==> s[i] == s[2..][i - 2];
      }
    } else if !IsLow(s[0]) {
      WellFormedMeans(s[1..]);
      assert forall i :: 0 <= i < |s| - 1 ==> s[1..][i] == s[i + 1];
      assert forall i :: 1 <= i < |s| ==> s[i] == s[1..][i - 1];
    }
  }

  lemma {:induction false} WellFormedConcat(s: Text, t: Text)
    requires WellFormed(s) && WellFormed(t)
    ensures WellFormed(s + t)
  {
    if s == [] {
      assert s + t == t;
    } else if IsHigh(s[0]) {
      WellFormedConcat(s[2..], t);
      assert (s + t)[2..] == s[2..] + t;
    } else {
      WellFormedConcat(s[1..], t);
      assert (s + t)[1..] == s[1..] + t;
    }
  }

  // A well-formed text cut at a scalar boundary falls into well-formed parts.
  lemma {:induction false} WellFormedCut(s: Text, k: nat)
    requires WellFormed(s) && ScalarBoundary(s, k)
    ensures WellFormed(s[..k]) && WellFormed(s[k..])
  {
    if k == 0 {
      assert s[k..] == s;
    } else if IsHigh(s[0]) {
      assert k != 1;
      WellFormedCut(s[2..], k - 2);
      assert s[..k][2..] == s[2..][..k - 2];
      assert s[k..] == s[2..][k - 2..];
    } else {
      WellFormedCut(s[1..], k - 1);
      assert s[..k][1..] == s[1..][..k - 1];
      assert s[k..] == s[1..][k - 1..];
    }
  }

  lemma WellFormedSlice(s: Text, i: nat, j: nat)
    requires WellFormed(s) && i <= j && ScalarBoundary(s, i) && ScalarBoundary(s, j)
    ensures WellFormed(s[i..j])
  {
    WellFormedCut(s, j);
    WellFormedCut(s[..j], i);
    assert s[i..j] == s[..j][i..];
  }

  // ---- lines -------------------------------------------------------------------

  // `s.split('\n')`
  function SplitLines(s: Text): (lines: seq<Text>)
    ensures lines != []
  {
    if s == [] then [[]]
    else if s[0] == LF then [[]] + SplitLines(s[1..])
    else
      var rest := SplitLines(s[1..]);
      [[s[0]] + rest[0]] + rest[1..]
  }

  // `lines.join('\n')`
  function JoinLines(lines: seq<Text>): Text {
    if lines == [] then []
    else if |lines| == 1 then lines[0]
    else lines[0] + [LF] + JoinLines(lines[1..])
  }

  predicate Bare(line: Text) {
    LF !in line
  }

  predicate AllBare(lines: seq<Text>) {
    forall i :: 0 <= i < |lines| ==> Bare(lines[i])
  }

  lemma {:induction false} SplitLinesBare(s: Text)
    ensures AllBare(SplitLines(s))
  {
    if s != [] {
      SplitLinesBare(s[1..]);
      assert Bare(SplitLines(s[1..])[0]);
    }
  }

  lemma {:induction false} JoinSplitLines(s: Text)
    ensures JoinLines(SplitLines(s)) == s
  {
    if s != [] {
      JoinSplitLines(s[1..]);
      var rest := SplitLines(s[1..]);
      if s[0] == LF {
        assert SplitLines(s)[1..] == rest;
      } else if |rest| > 1 {
        assert SplitLines(s)[1..] == rest[1..];
        assert [s[0]] + rest[0] + [LF] + JoinLines(rest[1..]) == [s[0]] + (rest[0] + [LF] + JoinLines(rest[1..]));
      }
    }
  }

  lemma {:induction false} SplitBare(line: Text)
    requires Bare(line)
    ensures SplitLines(line) == [line]
  {
    if line != [] {
      assert line[0] in line;
      assert forall u :: u in line[1..] ==> u in line;
      SplitBare(line[1..]);
      assert [line[0]] + line[1..] == line;
    }
  }

  // A newline between two texts separates their lines.
  lemma {:induction false} SplitConcat(s: Text, t: Text)
    ensures SplitLines(s + [LF] + t) == SplitLines(s) + SplitLines(t)
  {
    var whole := s + [LF] + t;
    if s == [] {
      assert whole[1..] == t;
    } else {
      assert whole[0] == s[0] && whole[1..] == s[1..] + [LF] + t;
      SplitConcat(s[1..], t);
    }
  }

  lemma {:induction false} SplitJoinLines(lines: seq<Text>)
    requires lines != [] && AllBare(lines)
    ensures SplitLines(JoinLines(lines)) == lines
  {
    SplitBare(lines[0]);
    if |lines| > 1 {
      assert forall i :: 0 <= i < |lines| - 1 ==> lines[1..][i] == lines[i + 1];
      SplitJoinLines(lines[1..]);
      SplitConcat(lines[0], JoinLines(lines[1..]));
      assert [lines[0]] + lines[1..] == lines;
    }
  }
}
