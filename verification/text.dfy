/** The string operations the source borrows from JavaScript: integer and fixed-point
    rendering (`toString`, `toFixed`, `toLocaleString`, `padStart`), ASCII case mapping,
    `includes` and the single-occurrence `replace`. */
module Text {

  function Abs(x: int): nat {
    if x < 0 then -x else x
  }

  function Pow10(k: nat): (r: nat)
    ensures r >= 1
  {
    if k == 0 then 1 else 10 * Pow10(k - 1)
  }

  predicate IsDigit(c: char) {
    '0' <= c <= '9'
  }

  predicate AllDigits(s: string) {
    forall i :: 0 <= i < |s| ==> IsDigit(s[i])
  }

  function DigitValue(c: char): (d: nat)
    requires IsDigit(c)
    ensures d < 10
  {
    c as int - '0' as int
  }

  function DigitChar(d: nat): (c: char)
    requires d < 10
    ensures IsDigit(c) && DigitValue(c) == d
  {
    ('0' as int + d) as char
  }

  /** The number a string of decimal digits denotes, most significant digit first. */
  function DigitsValue(s: string): nat
    requires AllDigits(s)
  {
    if |s| == 0 then 0 else 10 * DigitsValue(s[..|s| - 1]) + DigitValue(s[|s| - 1])
  }

  function Repeat(c: char, n: nat): (r: string)
    ensures |r| == n
    ensures forall i :: 0 <= i < n ==> r[i] == c
  {
    seq(n, _ => c)
  }

  /** `n.toString()` for a non-negative integer: the shortest digit string, so it has
      no leading zero and its length is the number of decimal digits of `n`. */
  function NatToString(n: nat): (r: string)
    ensures |r| >= 1 && AllDigits(r)
    ensures r[0] == '0' ==> n == 0
    ensures n < Pow10(|r|)
    ensures |r| > 1 ==> Pow10(|r| - 1) <= n
    decreases n
  {
    if n < 10 then [DigitChar(n)] else NatToString(n / 10) + [DigitChar(n % 10)]
  }

  /** Reading back the rendered digits gives the number. */
  lemma {:induction false} NatToStringRoundTrip(n: nat)
    ensures DigitsValue(NatToString(n)) == n
  {
    if n >= 10 {
      var r := NatToString(n);
      assert r[..|r| - 1] == NatToString(n / 10);
      NatToStringRoundTrip(n / 10);
    }
  }

  /** `i.toString()` for any integer: a minus sign before the magnitude's digits. */
  function IntToString(i: int): (r: string)
    ensures i < 0 ==> |r| >= 2 && r[0] == '-' && r[1..] == NatToString(-i)
    ensures i >= 0 ==> r == NatToString(i)
  {
    if i < 0 then "-" + NatToString(-i) else NatToString(i)
  }

  /** Zeros in front of a digit string do not change the number it denotes. */
  lemma {:induction false} LeadingZeros(z: nat, s: string)
    requires AllDigits(s)
    ensures AllDigits(Repeat('0', z) + s)
    ensures DigitsValue(Repeat('0', z) + s) == DigitsValue(s)
    decreases |s|
  {
    var t := Repeat('0', z) + s;
    if |s| == 0 {
      assert t == Repeat('0', z);
      ZerosValue(z);
    } else {
      assert t[..|t| - 1] == Repeat('0', z) + s[..|s| - 1];
      LeadingZeros(z, s[..|s| - 1]);
    }
  }

  lemma {:induction false} ZerosValue(z: nat)
    ensures DigitsValue(Repeat('0', z)) == 0
  {
    if z > 0 {
      assert Repeat('0', z)[..z - 1] == Repeat('0', z - 1);
      ZerosValue(z - 1);
    }
  }

  /** `s.padStart(width, c)`: `s` is kept whole as the suffix (never truncated) and the
      filler only makes up the missing length. */
  function PadStart(s: string, width: nat, c: char): (r: string)
    ensures |r| == if |s| >= width then |s| else width
    ensures r[|r| - |s|..] == s
    ensures forall i :: 0 <= i < |r| - |s| ==> r[i] == c
  {
    if |s| >= width then s else Repeat(c, width - |s|) + s
  }

  /** `q` is the integer nearest to `a / b`, a half rounded up: `q - 1/2 <= a / b < q + 1/2`. */
  predicate NearestHalfUp(a: nat, b: nat, q: nat) {
    2 * b * q <= 2 * a + b < 2 * b * q + 2 * b
  }

  function RoundHalfUp(a: nat, b: nat): (q: nat)
    requires b > 0
    ensures NearestHalfUp(a, b, q)
  {
    (2 * a + b) / (2 * b)
  }

  /** The digit-string step of `toFixed(f)`: zeros are added in front until more than `f`
      digits remain, then the point goes before the last `f` digits. */
  function PointShift(m: string, f: nat): (r: string)
    requires AllDigits(m)
  {
    if f == 0 then m else PointAt(ZeroFilled(m, f), f)
  }

  /** `k` with a point before its last `f` characters. */
  function PointAt(k: string, f: nat): string
    requires |k| >= f
  {
    k[..|k| - f] + "." + k[|k| - f..]
  }

  /** A fixed-point string with its point (the `f`-th character from the right end
      plus one) taken out. */
  function Unpoint(body: string, f: nat): string
    requires |body| >= f + 1
  {
    if f == 0 then body else body[..|body| - f - 1] + body[|body| - f..]
  }

  /** `(num / den).toFixed(f)` on the exact rational: the magnitude is rounded to `f`
      decimals, halves upward, and a negative number keeps its minus sign even when it
      rounds to zero, as the ECMAScript algorithm does. */
  function ToFixed(num: int, den: nat, f: nat): (r: string)
    requires den > 0
    ensures FixedShape(r, num < 0, f, RoundedUnits(num, den, f))
  {
    RenderedFixedShape(RoundedUnits(num, den, f), f, num < 0);
    FixedRendering(RoundedUnits(num, den, f), f, num < 0)
  }

  /** The magnitude of `num / den` in units of 10^-f, rounded to the nearest unit. */
  function RoundedUnits(num: int, den: nat, f: nat): nat
    requires den > 0
  {
    RoundHalfUp(Abs(num) * Pow10(f), den)
  }

  /** The rendering of `n` units of 10^-f, with a leading minus sign when `neg`. */
  function FixedRendering(n: nat, f: nat, neg: bool): string {
    (if neg then "-" else "") + PointShift(NatToString(n), f)
  }

  /** A digit string with a point before its last `f` digits (none when `f` is 0),
      starting and ending with a digit, whose digits denote `n`. */
  predicate PointedDigits(body: string, f: nat, n: nat) {
    && |body| >= f + 1
    && IsDigit(body[0]) && IsDigit(body[|body| - 1])
    && (f > 0 ==> body[|body| - f - 1] == '.')
    && AllDigits(Unpoint(body, f))
    && DigitsValue(Unpoint(body, f)) == n
  }

  lemma PointShiftShape(m: string, f: nat)
    requires |m| >= 1 && AllDigits(m)
    ensures PointedDigits(PointShift(m, f), f, DigitsValue(m))
  {
    if f > 0 {
      PointInserted(ZeroFilled(m, f), f);
    }
  }

  /** The zeros `toFixed` puts in front of a short digit string keep its value. */
  function ZeroFilled(m: string, f: nat): (k: string)
    requires AllDigits(m)
    ensures |k| >= f + 1 && |k| >= |m| && AllDigits(k) && DigitsValue(k) == DigitsValue(m)
  {
    if |m| <= f then
      LeadingZeros(f + 1 - |m|, m);
      Repeat('0', f + 1 - |m|) + m
    else m
  }

  /** A point put before the last `f` digits of a digit string longer than `f`. */
  lemma PointInserted(k: string, f: nat)
    requires f > 0 && |k| >= f + 1 && AllDigits(k)
    ensures PointedDigits(PointAt(k, f), f, DigitsValue(k))
  {
    var r := PointAt(k, f);
    PointRemoved(k, f);
    assert IsDigit(r[0]) && IsDigit(r[|r| - 1]) && r[|r| - f - 1] == '.';
  }

  lemma PointRemoved(k: string, f: nat)
    requires f > 0 && |k| >= f + 1
    ensures Unpoint(PointAt(k, f), f) == k
  {
    var a, b := k[..|k| - f], k[|k| - f..];
    var r := a + "." + b;
    assert r[..|a|] == a;
    assert r[|a| + 1..] == b;
    assert a + b == k;
  }

  /** What a `toFixed(f)` rendering of the signed count `n` of 10^-f units looks like:
      a minus sign exactly when `neg`, then digits with the point before the last `f`,
      and those digits denote `n`. */
  predicate FixedShape(r: string, neg: bool, f: nat, n: nat) {
    && |r| >= 1
    && (r[0] == '-' <==> neg)
    && PointedDigits(if neg then r[1..] else r, f, n)
  }

  /** A signed count of 10^-f units, rendered the way `toFixed` renders it. */
  lemma RenderedFixedShape(n: nat, f: nat, neg: bool)
    ensures FixedShape(FixedRendering(n, f, neg), neg, f, n)
  {
    var p := PointShift(NatToString(n), f);
    PointShiftShape(NatToString(n), f);
    NatToStringRoundTrip(n);
    var r := FixedRendering(n, f, neg);
    if neg {
      assert r[1..] == p;
    } else {
      assert r == p;
    }
  }

  /** `$`, then `cents / unit` to `f` decimals, then the unit's suffix. */
  function Money(cents: int, unit: nat, f: nat, suffix: string): (r: string)
    requires unit > 0
    ensures |r| == |FixedRendering(RoundedUnits(cents, unit, f), f, cents < 0)| + 1 + |suffix|
    ensures r[0] == '$' && r[|r| - |suffix|..] == suffix
    ensures FixedShape(r[1..|r| - |suffix|], cents < 0, f, RoundedUnits(cents, unit, f))
  {
    var digits := ToFixed(cents, unit, f);
    var r := "$" + digits + suffix;
    assert r[1..|r| - |suffix|] == digits;
    r
  }

  function LowerChar(c: char): char {
    if 'A' <= c <= 'Z' then (c as int + 32) as char else c
  }

  function UpperChar(c: char): char {
    if 'a' <= c <= 'z' then (c as int - 32) as char else c
  }

  /** `toLowerCase` restricted to ASCII letters. */
  function Lower(s: string): (r: string)
    ensures |r| == |s|
    ensures forall i :: 0 <= i < |s| ==> r[i] == LowerChar(s[i])
  {
    seq(|s|, i requires 0 <= i < |s| => LowerChar(s[i]))
  }

  predicate IsPrefix(p: string, s: string) {
    |p| <= |s| && s[..|p|] == p
  }

  /** `t` occurs in `s` starting at position `i`. */
  predicate OccursAt(s: string, t: string, i: int) {
    0 <= i <= |s| - |t| && s[i..i + |t|] == t
  }

  /** `s.includes(t)`, scanning the start positions left to right. */
  function Contains(s: string, t: string): bool
    decreases |s|
  {
    if IsPrefix(t, s) then true
    else if |s| == 0 then false
    else Contains(s[1..], t)
  }

  /** The scan finds `t` exactly when `t` occurs somewhere in `s`. */
  lemma {:induction false} ContainsSpec(s: string, t: string)
    ensures Contains(s, t) <==> exists i :: OccursAt(s, t, i)
    decreases |s|
  {
    if IsPrefix(t, s) {
      assert s[0..|t|] == s[..|t|];
      assert OccursAt(s, t, 0);
    } else if |s| == 0 {
      assert forall i :: !OccursAt(s, t, i);
    } else {
      ContainsSpec(s[1..], t);
      forall i | OccursAt(s[1..], t, i)
        ensures OccursAt(s, t, i + 1)
      {
        assert s[1..][i..i + |t|] == s[i + 1..i + 1 + |t|];
      }
      forall i | OccursAt(s, t, i)
        ensures OccursAt(s[1..], t, i - 1)
      {
        if i == 0 {
          assert false;
        }
        assert s[1..][i - 1..i - 1 + |t|] == s[i..i + |t|];
      }
    }
  }

  /** `s.replace(from, to)` with a one-character string pattern: only the FIRST
      occurrence is replaced. */
  function ReplaceFirst(s: string, from: char, to: char): (r: string)
    ensures |r| == |s|
  {
    if |s| == 0 then s
    else if s[0] == from then [to] + s[1..]
    else [s[0]] + ReplaceFirst(s[1..], from, to)
  }

  /** Position by position, the replacement changes only the first occurrence. */
  lemma {:induction false} ReplaceFirstPointwise(s: string, from: char, to: char, i: nat)
    requires i < |s|
    ensures ReplaceFirst(s, from, to)[i] == (if s[i] == from && from !in s[..i] then to else s[i])
  {
    if s[0] == from {
      if i > 0 {
        assert s[..i][0] == from;
      }
    } else if i > 0 {
      ReplaceFirstPointwise(s[1..], from, to, i - 1);
      assert s[..i] == [s[0]] + s[1..][..i - 1];
    }
  }

  /** When `from` first occurs at `k`, that one character is replaced and the rest kept. */
  lemma ReplaceFirstAt(s: string, from: char, to: char, k: nat)
    requires k < |s| && s[k] == from && from !in s[..k]
    ensures ReplaceFirst(s, from, to) == s[..k] + [to] + s[k + 1..]
  {
    var r := ReplaceFirst(s, from, to);
    forall i | 0 <= i < |s| ensures r[i] == (s[..k] + [to] + s[k + 1..])[i] {
      ReplaceFirstPointwise(s, from, to, i);
      if i > k {
        assert s[..i][k] == from;
      } else if i < k {
        assert s[i] == s[..k][i];
      }
    }
  }

  /** en-US digit grouping of a non-negative integer: a comma between groups of three. */
  function Grouped(n: nat): (r: string)
    ensures |r| >= 1 && IsDigit(r[0]) && IsDigit(r[|r| - 1])
    decreases n
  {
    if n < 1000 then NatToString(n)
    else Grouped(n / 1000) + "," + PadStart(NatToString(n % 1000), 3, '0')
  }

  /** The characters of `s` other than commas. */
  function Ungroup(s: string): string
  {
    if |s| == 0 then ""
    else if s[0] == ',' then Ungroup(s[1..])
    else [s[0]] + Ungroup(s[1..])
  }

  lemma {:induction false} UngroupAppend(a: string, b: string)
    ensures Ungroup(a + b) == Ungroup(a) + Ungroup(b)
  {
    if |a| > 0 {
      assert (a + b)[1..] == a[1..] + b;
      UngroupAppend(a[1..], b);
    } else {
      assert a + b == b;
    }
  }

  lemma {:induction false} UngroupDigits(s: string)
    requires AllDigits(s)
    ensures Ungroup(s) == s
  {
    if |s| > 0 {
      UngroupDigits(s[1..]);
    }
  }

  /** Appending digit `d` to `v * p + w` multiplies it by ten and adds `d`. */
  lemma ShiftDigit(v: nat, p: nat, w: nat, d: nat)
    ensures 10 * (v * p + w) + d == v * (10 * p) + (10 * w + d)
  {
  }

  /** The number denoted by two digit strings written one after the other. */
  lemma {:induction false} DigitsValueAppend(a: string, b: string)
    requires AllDigits(a) && AllDigits(b)
    ensures AllDigits(a + b)
    ensures DigitsValue(a + b) == DigitsValue(a) * Pow10(|b|) + DigitsValue(b)
    decreases |b|
  {
    if |b| > 0 {
      var b' := b[..|b| - 1];
      assert (a + b)[..|a + b| - 1] == a + b';
      DigitsValueAppend(a, b');
      ShiftDigit(DigitsValue(a), Pow10(|b'|), DigitsValue(b'), DigitValue(b[|b| - 1]));
    } else {
      assert a + b == a;
    }
  }

  /** A group of three digits after a comma: zero-padded, and it denotes `x`. */
  lemma ThreeDigits(x: nat)
    requires x < 1000
    ensures var lo := PadStart(NatToString(x), 3, '0');
      |lo| == 3 && AllDigits(lo) && DigitsValue(lo) == x
  {
    var digits := NatToString(x);
    Pow10Grows(3, |digits| - 1);
    assert Pow10(3) == 1000;
    assert PadStart(digits, 3, '0') == Repeat('0', 3 - |digits|) + digits;
    LeadingZeros(3 - |digits|, digits);
    NatToStringRoundTrip(x);
  }

  /** Reading the grouped rendering back, commas dropped, gives the number. */
  lemma {:induction false} GroupedReadsBack(n: nat)
    ensures AllDigits(Ungroup(Grouped(n)))
    ensures DigitsValue(Ungroup(Grouped(n))) == n
    decreases n
  {
    if n < 1000 {
      UngroupDigits(NatToString(n));
      NatToStringRoundTrip(n);
    } else {
      var lo := PadStart(NatToString(n % 1000), 3, '0');
      var u := Ungroup(Grouped(n / 1000));
      UngroupStep(n);
      ThreeDigits(n % 1000);
      GroupedReadsBack(n / 1000);
      DigitsValueAppend(u, lo);
      assert Pow10(|lo|) == 1000;
    }
  }

  /** Past the first group, dropping the commas leaves the higher groups' digits
      followed by the last three digits. */
  lemma UngroupStep(n: nat)
    requires n >= 1000
    ensures Ungroup(Grouped(n))
         == Ungroup(Grouped(n / 1000)) + PadStart(NatToString(n % 1000), 3, '0')
  {
    var hi := Grouped(n / 1000);
    var lo := PadStart(NatToString(n % 1000), 3, '0');
    ThreeDigits(n % 1000);
    assert Grouped(n) == (hi + ",") + lo;
    UngroupAppend(hi + ",", lo);
    UngroupAppend(hi, ",");
    UngroupDigits(lo);
    assert Ungroup(",") == "";
  }

  lemma {:induction false} Pow10Grows(j: nat, k: nat)
    ensures j <= k ==> Pow10(j) <= Pow10(k)
    decreases k
  {
    if j < k {
      Pow10Grows(j, k - 1);
    }
  }

  /** The fraction part of an en-US rendering of a whole number of cents: trailing
      zeros are dropped, and no point is written for a whole amount. */
  function CentsFraction(f: nat): (r: string)
    requires f < 100
    ensures r == "" || (|r| >= 2 && r[0] == '.' && IsDigit(r[|r| - 1]))
  {
    if f == 0 then ""
    else if f % 10 == 0 then "." + [DigitChar(f / 10)]
    else "." + [DigitChar(f / 10), DigitChar(f % 10)]
  }

  /** `toLocaleString()` (en-US) of an amount held as whole cents. */
  function LocaleCents(cents: int): (r: string)
    ensures |r| >= 1 && IsDigit(r[|r| - 1])
    ensures r[0] == '-' <==> cents < 0
  {
    var sign := if cents < 0 then "-" else "";
    sign + Grouped(Abs(cents) / 100) + CentsFraction(Abs(cents) % 100)
  }

  /** Every character of the grouped rendering is a digit or a comma. */
  lemma {:induction false} GroupedChars(n: nat)
    ensures forall i :: 0 <= i < |Grouped(n)| ==> IsDigit(Grouped(n)[i]) || Grouped(n)[i] == ','
    decreases n
  {
    if n >= 1000 {
      var hi := Grouped(n / 1000);
      var lo := PadStart(NatToString(n % 1000), 3, '0');
      GroupedChars(n / 1000);
      ThreeDigits(n % 1000);
      assert Grouped(n) == hi + "," + lo;
    }
  }

  /** The position of the first decimal point, or the length when there is none. */
  function PointIndex(s: string): (k: nat)
    ensures k <= |s|
    ensures forall i :: 0 <= i < k ==> s[i] != '.'
    ensures k < |s| ==> s[k] == '.'
  {
    if |s| == 0 || s[0] == '.' then 0 else 1 + PointIndex(s[1..])
  }

  /** One or two digits after the point, read as cents: a single digit counts tens. */
  function FractionCents(d: string): nat
    requires AllDigits(d) && |d| <= 2
  {
    DigitsValue(d) * Pow10(2 - |d|)
  }

  /** `b` reads back to `n` dollars and `c` cents: the part before its first point,
      commas dropped, denotes `n`; it has a point exactly when `c` is not zero, and
      then one or two digits follow, the last not `0`, that denote `c` cents. */
  predicate ReadsBackAs(b: string, n: nat, c: nat) {
    var k := PointIndex(b);
    && AllDigits(Ungroup(b[..k]))
    && DigitsValue(Ungroup(b[..k])) == n
    && (k == |b| <==> c == 0)
    && (k < |b| ==> 1 <= |b[k + 1..]| <= 2 && AllDigits(b[k + 1..]) && b[|b| - 1] != '0'
                    && FractionCents(b[k + 1..]) == c)
  }

  /** Reading an en-US amount back: after the optional minus sign, the rendering reads
      back to the whole dollars and the cents of the amount. */
  lemma LocaleCentsReadsBack(cents: int)
    ensures var r := LocaleCents(cents);
      ReadsBackAs(if cents < 0 then r[1..] else r, Abs(cents) / 100, Abs(cents) % 100)
  {
    var g := Grouped(Abs(cents) / 100);
    var f := CentsFraction(Abs(cents) % 100);
    LocaleCentsUnsigned(cents);
    GroupedChars(Abs(cents) / 100);
    GroupedReadsBack(Abs(cents) / 100);
    PartsReadBack(g, f, Abs(cents) / 100, Abs(cents) % 100);
  }

  /** Without its minus sign, the en-US rendering is the grouped whole part followed
      by the fraction. */
  lemma LocaleCentsUnsigned(cents: int)
    ensures var r := LocaleCents(cents);
      (if cents < 0 then r[1..] else r)
        == Grouped(Abs(cents) / 100) + CentsFraction(Abs(cents) % 100)
  {
  }

  /** A grouped whole part denoting `n`, followed by the fraction of `c` cents, reads
      back to `n` dollars and `c` cents. */
  lemma PartsReadBack(g: string, f: string, n: nat, c: nat)
    requires forall i :: 0 <= i < |g| ==> IsDigit(g[i]) || g[i] == ','
    requires AllDigits(Ungroup(g)) && DigitsValue(Ungroup(g)) == n
    requires c < 100 && f == CentsFraction(c)
    ensures ReadsBackAs(g + f, n, c)
  {
    FractionReadsBack(c);
    SplitAtPoint(g, f);
    var b := g + f;
    if f != "" {
      var d := f[1..];
      assert b[|g| + 1..] == d;
      assert b[|b| - 1] == f[|f| - 1];
    }
  }

  /** A point-free whole part followed by a fraction that starts with the point splits
      back into the two at the first point. */
  lemma SplitAtPoint(g: string, f: string)
    requires forall i :: 0 <= i < |g| ==> IsDigit(g[i]) || g[i] == ','
    requires f == "" || f[0] == '.'
    ensures PointIndex(g + f) == |g|
    ensures (g + f)[..|g|] == g
    ensures f != "" ==> (g + f)[|g| + 1..] == f[1..]
  {
    var b := g + f;
    assert forall i :: 0 <= i < |g| ==> b[i] == g[i] && b[i] != '.';
    if f != "" {
      assert b[|g|] == '.';
    }
  }

  /** The digits `CentsFraction` writes after its point read back to the cents. */
  lemma FractionReadsBack(c: nat)
    requires c < 100
    ensures var f := CentsFraction(c);
      && (f == "" <==> c == 0)
      && (f != "" ==> 1 <= |f[1..]| <= 2 && AllDigits(f[1..]) && f[|f| - 1] != '0'
                      && FractionCents(f[1..]) == c)
  {
    var f := CentsFraction(c);
    if c != 0 {
      var d := f[1..];
      if c % 10 == 0 {
        assert d == [DigitChar(c / 10)];
        assert d[..0] == [];
        assert DigitsValue(d) == c / 10;
      } else {
        assert d == [DigitChar(c / 10), DigitChar(c % 10)];
        assert d[..1] == [DigitChar(c / 10)];
        assert d[..1][..0] == [];
        assert DigitsValue(d[..1]) == c / 10;
        assert DigitValue(d[1]) == c % 10;
        assert DigitsValue(d) == 10 * (c / 10) + c % 10;
      }
    }
  }
}
