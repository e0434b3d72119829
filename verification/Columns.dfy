// Byte columns to UTF-16 columns (site/src/utils/columns.ts).
module Columns {
  // UTF-8 lengths are those of section 3 of RFC 3629; an unpaired surrogate counts
  // as the three bytes of U+FFFD.

  import opened Utf16

  // The code units of the first code point.
  function UnitsOf(s: Text): (n: nat)
    requires s != []
    ensures 1 <= n <= |s|
  {
    if IsHigh(s[0]) && |s| >= 2 && IsLow(s[1]) then 2 else 1
  }

  // The UTF-8 bytes of the first code point.
  function BytesOf(s: Text): (n: nat)
    requires s != []
    ensures 1 <= n <= 4
  {
    if UnitsOf(s) == 2 then 4 else if s[0] < 0x80 then 1 else if s[0] < 0x800 then 2 else 3
  }

  // The length of the UTF-8 encoding.
  function Utf8Length(s: Text): nat {
    if s == [] then 0 else BytesOf(s) + Utf8Length(s[UnitsOf(s)..])
  }

  // The units passed before `target` bytes are reached.
  function UnitsBefore(s: Text, target: int): (n: nat)
    ensures n <= |s|
  {
    if s == [] || target <= 0 then 0
    else UnitsOf(s) + UnitsBefore(s[UnitsOf(s)..], target - BytesOf(s))
  }

  method ByteColToUtf16(line: Text, byteCol: int) returns (col: nat)
    ensures col == UnitsBefore(line, byteCol - 1) + 1
  {
    var bytes, units := 0, 0;
    var target := byteCol - 1;
    assert line[0..] == line;
    while units < |line| && bytes < target
      invariant 0 <= units <= |line|
      invariant UnitsBefore(line, target) == units + UnitsBefore(line[units..], target - bytes)
      decreases |line| - units
    {
      var rest := line[units..];
      assert rest[UnitsOf(rest)..] == line[units + UnitsOf(rest)..];
      bytes := bytes + BytesOf(rest);
      units := units + UnitsOf(rest);
    }
    col := (if units < |line| then units else |line|) + 1;
  }

  // Stepping code point by code point visits exactly the scalar boundaries.
  lemma BoundaryAfter(s: Text, k: nat)
    requires s != [] && k <= |s| && ScalarBoundary(s, k) && k > 0
    ensures UnitsOf(s) <= k && ScalarBoundary(s[UnitsOf(s)..], k - UnitsOf(s))
  {
  }

  lemma {:induction false} Utf8Prefix(s: Text, k: nat)
    requires s != [] && 0 < k && ScalarBoundary(s, k)
    ensures UnitsOf(s) <= k
    ensures Utf8Length(s[..k]) == BytesOf(s) + Utf8Length(s[UnitsOf(s)..][..k - UnitsOf(s)])
  {
    BoundaryAfter(s, k);
    var n := UnitsOf(s);
    assert UnitsOf(s[..k]) == n && BytesOf(s[..k]) == BytesOf(s);
    assert s[..k][n..] == s[n..][..k - n];
  }

  // At every scalar boundary the column of the prefix's UTF-8 length is the boundary.
  lemma {:induction false} ColumnInvertsPrefix(s: Text, k: nat)
    requires ScalarBoundary(s, k)
    ensures UnitsBefore(s, Utf8Length(s[..k])) == k
  {
    if k > 0 {
      var n := UnitsOf(s);
      Utf8Prefix(s, k);
      BoundaryAfter(s, k);
      ColumnInvertsPrefix(s[n..], k - n);
    } else {
      assert s[..0] == [];
    }
  }

  // Any byte target, even inside a character or past the end, gives the first
  // boundary that reaches it, or the end of the line.
  lemma {:induction false} ColumnIsFirstReaching(s: Text, target: int)
    ensures var k := UnitsBefore(s, target);
            && ScalarBoundary(s, k)
            && (k == |s| || Utf8Length(s[..k]) >= target)
            && (forall j :: 0 <= j < k && ScalarBoundary(s, j) ==> Utf8Length(s[..j]) < target)
  {
    var k := UnitsBefore(s, target);
    if s != [] && target > 0 {
      var n := UnitsOf(s);
      ColumnIsFirstReaching(s[n..], target - BytesOf(s));
      BoundaryBack(s, k);
      Utf8Prefix(s, k);
      forall j | 0 <= j < k && ScalarBoundary(s, j)
        ensures Utf8Length(s[..j]) < target
      {
        if j == 0 {
          assert s[..0] == [];
        } else {
          Utf8Prefix(s, j);
          BoundaryAfter(s, j);
        }
      }
    } else {
      assert s[..0] == [];
    }
  }

  lemma BoundaryBack(s: Text, k: nat)
    requires s != [] && UnitsOf(s) <= k && ScalarBoundary(s[UnitsOf(s)..], k - UnitsOf(s))
    ensures ScalarBoundary(s, k)
  {
    var n := UnitsOf(s);
    var rest := s[n..];
    assert |rest| == |s| - n;
    if n < k < |s| {
      assert rest[k - n] == s[k] && rest[k - n - 1] == s[k - 1];
    }
  }
}
