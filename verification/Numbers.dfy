// Naturals as the sources use bigint: powers, bit masks, bitwise `&`, and
// positional notation. Digits are spelled as `toString(base)` spells them.
module Numbers {
  function Pow(b: nat, e: nat): (r: nat)
    ensures b > 0 ==> r > 0
  {
    if e == 0 then 1 else b * Pow(b, e - 1)
  }

  // All bits of the width set.
  function Mask(width: nat): nat {
    Pow(2, width) - 1
  }

  // Bitwise `&` on naturals.
  function And(a: nat, b: nat): (r: nat)
    ensures r <= a && r <= b
  {
    if a == 0 || b == 0 then 0
    else (if a % 2 == 1 && b % 2 == 1 then 1 else 0) + 2 * And(a / 2, b / 2)
  }

  lemma {:induction false} AndIdempotent(a: nat, b: nat)
    ensures And(And(a, b), b) == And(a, b)
  {
    if a != 0 && b != 0 {
      AndIdempotent(a / 2, b / 2);
      var r := And(a, b);
      assert r / 2 == And(a / 2, b / 2);
    }
  }

  lemma {:induction false} AndCommutes(a: nat, b: nat)
    ensures And(a, b) == And(b, a)
  {
    if a != 0 && b != 0 {
      AndCommutes(a / 2, b / 2);
    }
  }

  // ---- small facts about products, quotients and remainders ----------------

  lemma MulLe(a: nat, b: nat, k: nat)
    requires a <= b
    ensures a * k <= b * k
  {
    var d := b - a;
    assert b * k == a * k + d * k;
  }

  lemma ModUnique(a: nat, d: nat, q: nat, r: nat)
    requires d > 0 && r < d && a == q * d + r
    ensures a / d == q && a % d == r
  {
    var q', r' := a / d, a % d;
    assert a == q' * d + r';
    if q < q' {
      MulLe(q + 1, q', d);
    } else if q' < q {
      MulLe(q' + 1, q, d);
    }
  }

  lemma DivLess(n: nat, b: nat)
    requires b >= 2 && n > 0
    ensures n / b < n
  {
    var q := n / b;
    assert n == q * b + n % b;
    if q >= n {
      MulLe(2, b, q);
    }
  }

  // Splitting a quotient and a remainder at the lowest digit.
  lemma DivModSplit(a: nat, b: nat, p: nat)
    requires b > 0 && p > 0
    ensures b * p > 0
    ensures a % (b * p) == a % b + b * (a / b % p)
    ensures a / (b * p) == a / b / p
  {
    var q, s := a / b / p, a / b % p;
    assert a / b == q * p + s;
    assert a == a / b * b + a % b;
    assert a == (q * p + s) * b + a % b == q * (b * p) + (s * b + a % b);
    MulLe(s, p - 1, b);
    assert (p - 1) * b == b * p - b;
    MulLe(1, p, b);
    ModUnique(a, b * p, q, s * b + a % b);
  }

  lemma AndOdd(a: nat, m: nat)
    ensures And(a, 1 + 2 * m) == a % 2 + 2 * And(a / 2, m)
  {
  }

  // Masking is reduction modulo a power of two.
  lemma {:induction false} AndMask(a: nat, w: nat)
    ensures And(a, Mask(w)) == a % Pow(2, w)
  {
    if a == 0 {
      ModUnique(0, Pow(2, w), 0, 0);
    } else if w > 0 {
      AndMask(a / 2, w - 1);
      AndOdd(a, Mask(w - 1));
      DivModSplit(a, 2, Pow(2, w - 1));
    }
  }

  lemma {:induction false} AndFits(a: nat, w: nat)
    requires a < Pow(2, w)
    ensures And(a, Mask(w)) == a
  {
    AndMask(a, w);
    ModUnique(a, Pow(2, w), 0, a);
  }

  lemma {:induction false} PowAdd(b: nat, m: nat, n: nat)
    ensures Pow(b, m + n) == Pow(b, m) * Pow(b, n)
  {
    if m > 0 {
      PowAdd(b, m - 1, n);
      MulAssoc(b, Pow(b, m - 1), Pow(b, n));
    }
  }

  lemma MulAssoc(a: nat, b: nat, c: nat)
    ensures a * (b * c) == (a * b) * c
  {
  }

  lemma {:induction false} PowMonotone(b: nat, m: nat, n: nat)
    requires b > 0 && m <= n
    ensures Pow(b, m) <= Pow(b, n)
    decreases n
  {
    if m < n {
      PowMonotone(b, m, n - 1);
    }
  }

  lemma {:induction false} PowPow(b: nat, m: nat, n: nat)
    ensures Pow(Pow(b, m), n) == Pow(b, m * n)
  {
    if n > 0 {
      PowPow(b, m, n - 1);
      PowAdd(b, m, m * (n - 1));
      assert m * n == m + m * (n - 1);
    }
  }

  // ---- positional notation -------------------------------------------------

  function DigitChar(d: nat): (c: char)
    requires d < 16
    ensures DigitValue(c) == d
  {
    "0123456789abcdef"[d]
  }

  // What a digit is worth; 99 for other characters.
  function DigitValue(c: char): nat {
    if '0' <= c <= '9' then c as nat - '0' as nat
    else if 'a' <= c <= 'z' then c as nat - 'a' as nat + 10
    else if 'A' <= c <= 'Z' then c as nat - 'A' as nat + 10
    else 99
  }

  predicate AllDigits(s: string, base: nat) {
    forall i :: 0 <= i < |s| ==> DigitValue(s[i]) < base
  }

  // Horner's value, leftmost digit most significant.
  function ValueOf(s: string, base: nat): nat {
    if s == [] then 0 else ValueOf(s[..|s| - 1], base) * base + DigitValue(s[|s| - 1])
  }

  // `n.toString(base)`
  function Spell(n: nat, base: nat): (s: string)
    requires 2 <= base <= 16
    ensures s != [] && AllDigits(s, base)
  {
    if n < base then [DigitChar(n)] else
    DivLess(n, base);
    Spell(n / base, base) + [DigitChar(n % base)]
  }

  function Zeros(k: nat): (s: string)
    ensures |s| == k && forall i :: 0 <= i < k ==> s[i] == '0'
  {
    seq(k, _ => '0')
  }

  // `s.padStart(width, '0')`
  function Pad(s: string, width: nat): string {
    Zeros(if |s| < width then width - |s| else 0) + s
  }

  lemma SpellSteps(n: nat, base: nat)
    requires 2 <= base <= 16 && n >= base
    ensures n / base < n && n == n / base * base + n % base
    ensures Spell(n, base) == Spell(n / base, base) + [DigitChar(n % base)]
  {
    DivLess(n, base);
  }

  lemma {:induction false} SpellValue(n: nat, base: nat)
    requires 2 <= base <= 16
    ensures ValueOf(Spell(n, base), base) == n
  {
    if n < base {
      ValueSnoc([], DigitChar(n), base);
      assert [] + [DigitChar(n)] == Spell(n, base);
    } else {
      SpellSteps(n, base);
      SpellValue(n / base, base);
      ValueSnoc(Spell(n / base, base), DigitChar(n % base), base);
    }
  }

  lemma ValueSnoc(s: string, c: char, base: nat)
    ensures ValueOf(s + [c], base) == ValueOf(s, base) * base + DigitValue(c)
  {
    assert (s + [c])[..|s|] == s;
  }

  lemma {:induction false} PadValue(s: string, k: nat, base: nat)
    requires base >= 2 && AllDigits(s, base)
    ensures ValueOf(Zeros(k) + s, base) == ValueOf(s, base)
    ensures AllDigits(Zeros(k) + s, base)
  {
    var t := Zeros(k) + s;
    if s != [] {
      assert t[..|t| - 1] == Zeros(k) + s[..|s| - 1];
      PadValue(s[..|s| - 1], k, base);
    } else if k > 0 {
      assert t[..|t| - 1] == Zeros(k - 1) + [];
      PadValue([], k - 1, base);
      assert t[|t| - 1] == '0';
    } else {
      assert t == [];
    }
  }

  // A spelling has at most `k` digits exactly when the number is below `base^k`.
  lemma {:induction false} SpellLength(n: nat, base: nat, k: nat)
    requires 2 <= base <= 16 && k >= 1
    ensures |Spell(n, base)| <= k <==> n < Pow(base, k)
    decreases k
  {
    if n < base {
      PowMonotone(base, 1, k);
    } else if k > 1 {
      SpellLength(n / base, base, k - 1);
      DivBelow(n, base, Pow(base, k - 1));
    }
  }

  lemma DivBelow(n: nat, b: nat, p: nat)
    requires b > 0
    ensures n / b < p <==> n < b * p
  {
    var q := n / b;
    assert n == q * b + n % b;
    if q < p {
      MulLe(q + 1, p, b);
    } else {
      MulLe(p, q, b);
    }
  }

  lemma {:induction false} ValueBound(s: string, base: nat)
    requires base >= 1 && AllDigits(s, base)
    ensures ValueOf(s, base) < Pow(base, |s|)
  {
    if s != [] {
      var t := s[..|s| - 1];
      ValueBound(t, base);
      HornerBound(ValueOf(t, base), DigitValue(s[|s| - 1]), Pow(base, |t|), base);
    }
  }

  lemma HornerBound(x: nat, d: nat, p: nat, b: nat)
    requires x < p && d < b
    ensures x * b + d < b * p
  {
    MulLe(x + 1, p, b);
  }

  lemma {:induction false} ValueConcat(s: string, t: string, base: nat)
    ensures ValueOf(s + t, base) == ValueOf(s, base) * Pow(base, |t|) + ValueOf(t, base)
  {
    if t == [] {
      assert s + t == s;
    } else {
      var u, d := t[..|t| - 1], DigitValue(t[|t| - 1]);
      assert (s + t)[..|s + t| - 1] == s + u;
      ValueConcat(s, u, base);
      HornerStep(ValueOf(s, base), Pow(base, |u|), ValueOf(u, base), base);
    }
  }

  lemma HornerStep(x: nat, p: nat, y: nat, b: nat)
    ensures (x * p + y) * b == x * (b * p) + y * b
  {
  }
}
