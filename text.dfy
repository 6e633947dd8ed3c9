/** String helpers the source gets from JavaScript's runtime: decimal rendering and
    `parseInt`, `split`, `includes`, and ASCII case mapping. */
module Text {
  import opened Wrappers

  predicate IsDigit(c: char) { '0' <= c <= '9' }

  predicate AllDigits(s: string) { forall i :: 0 <= i < |s| ==> IsDigit(s[i]) }

  function DigitChar(n: nat): (c: char)
    requires n < 10
    ensures IsDigit(c) && c as int - '0' as int == n
  {
    ('0' as int + n) as char
  }

  function DigitValue(c: char): (n: nat)
    requires IsDigit(c)
    ensures n < 10 && DigitChar(n) == c
  {
    c as int - '0' as int
  }

  /** Decimal rendering of a natural number, without leading zeros (`String(n)`). */
  function NatToString(n: nat): (s: string)
    ensures |s| >= 1 && AllDigits(s)
    ensures (|s| == 1) == (n < 10)
    ensures s[0] == '0' ==> n == 0
    decreases n
  {
    if n < 10 then [DigitChar(n)] else NatToString(n / 10) + [DigitChar(n % 10)]
  }

  /** The value of a non-empty string of decimal digits. */
  function DigitsValue(s: string): nat
    requires AllDigits(s)
    decreases |s|
  {
    if s == [] then 0 else DigitsValue(s[..|s| - 1]) * 10 + DigitValue(s[|s| - 1])
  }

  /** `parseInt(s, 10)` restricted to what the callers pass: a string of digits, or NaN (None). */
  function ParseNat(s: string): (r: Option<nat>)
    ensures r.Some? <==> |s| > 0 && AllDigits(s)
  {
    if |s| > 0 && AllDigits(s) then Some(DigitsValue(s)) else None
  }

  lemma {:induction false} DigitsValueOfNatToString(n: nat)
    ensures DigitsValue(NatToString(n)) == n
    decreases n
  {
    if n >= 10 {
      var s := NatToString(n);
      assert s[..|s| - 1] == NatToString(n / 10);
      DigitsValueOfNatToString(n / 10);
    }
  }

  /** Parsing what `NatToString` renders gives the number back. */
  lemma ParseNatOfNatToString(n: nat)
    ensures ParseNat(NatToString(n)) == Some(n)
  {
    DigitsValueOfNatToString(n);
  }

  lemma NatToStringInjective(a: nat, b: nat)
    requires NatToString(a) == NatToString(b)
    ensures a == b
  {
    DigitsValueOfNatToString(a);
    DigitsValueOfNatToString(b);
  }

  function Pow10(k: nat): (p: nat)
    ensures p >= 1
  {
    if k == 0 then 1 else 10 * Pow10(k - 1)
  }

  /** A string of `k` digits stands for a number below 10^k. */
  lemma {:induction false} DigitsValueBelow(s: string)
    requires AllDigits(s)
    ensures DigitsValue(s) < Pow10(|s|)
    decreases |s|
  {
    if s != [] {
      DigitsValueBelow(s[..|s| - 1]);
    }
  }

  /** The digits of `a` followed by those of `b` stand for a * 10^|b| + b. */
  lemma {:induction false} DigitsValueAppend(a: string, b: string)
    requires AllDigits(a) && AllDigits(b)
    ensures DigitsValue(a + b) == DigitsValue(a) * Pow10(|b|) + DigitsValue(b)
    decreases |b|
  {
    if b == [] {
      assert a + b == a;
    } else {
      var c, b' := a + b, b[..|b| - 1];
      assert c[..|c| - 1] == a + b' && c[|c| - 1] == b[|b| - 1];
      DigitsValueAppend(a, b');
      ShiftDigit(DigitsValue(a), Pow10(|b'|), DigitsValue(b'), DigitValue(b[|b| - 1]));
    }
  }

  lemma ShiftDigit(x: nat, p: nat, y: nat, d: nat)
    ensures (x * p + y) * 10 + d == x * (10 * p) + (y * 10 + d)
  {
  }

  /** A remainder by 10^6 of a number written as a multiple of 10^6 plus a smaller part. */
  lemma ModMillion(x: nat, v: nat)
    requires v < 1000000
    ensures (x * 1000000 + v) % 1000000 == v
  {
  }

  lemma {:induction false} Pow10Monotone(j: nat, k: nat)
    requires j <= k
    ensures Pow10(j) <= Pow10(k)
    decreases k
  {
    if j < k {
      Pow10Monotone(j, k - 1);
    }
  }

  /** The last six digits of `n`'s decimal rendering spell `n` modulo 10^6, and the
      rendering has at least six digits once `n` reaches 10^5. */
  lemma LastSixDigits(n: nat)
    ensures var s := NatToString(n);
      && (|s| <= 6 ==> n < 1000000)
      && (|s| > 6 ==> DigitsValue(s[|s| - 6..]) == n % 1000000)
      && (n >= 100000 ==> |s| >= 6)
  {
    var s := NatToString(n);
    DigitsValueOfNatToString(n);
    DigitsValueBelow(s);
    assert Pow10(5) == 100000;
    assert Pow10(6) == 1000000;
    if |s| <= 6 {
      Pow10Monotone(|s|, 6);
    } else {
      var hi, lo := s[..|s| - 6], s[|s| - 6..];
      assert s == hi + lo;
      DigitsValueAppend(hi, lo);
      DigitsValueBelow(lo);
      ModMillion(DigitsValue(hi), DigitsValue(lo));
    }
    if |s| < 6 {
      Pow10Monotone(|s|, 5);
    }
  }

  /** Two-digit zero-padded rendering, as the en-GB locale writes day and month. */
  function Pad2(n: nat): (s: string)
    requires n < 100
    ensures |s| == 2 && AllDigits(s)
  {
    if n < 10 then "0" + NatToString(n) else NatToString(n)
  }

  lemma {:induction false} DigitsValueLeadingZero(s: string)
    requires AllDigits(s)
    ensures DigitsValue("0" + s) == DigitsValue(s)
    decreases |s|
  {
    if s != [] {
      var t := "0" + s;
      assert t[..|t| - 1] == "0" + s[..|s| - 1];
      DigitsValueLeadingZero(s[..|s| - 1]);
    }
  }

  lemma ParseNatOfPad2(n: nat)
    requires n < 100
    ensures ParseNat(Pad2(n)) == Some(n)
  {
    DigitsValueOfNatToString(n);
    if n < 10 { DigitsValueLeadingZero(NatToString(n)); }
  }

  /** `s.split(sep)`: the pieces between separators, always at least one. */
  function Split(s: string, sep: char): (parts: seq<string>)
    ensures |parts| >= 1
    decreases |s|
  {
    if |s| == 0 then [""]
    else if s[0] == sep then [""] + Split(s[1..], sep)
    else var rest := Split(s[1..], sep); [[s[0]] + rest[0]] + rest[1..]
  }

  lemma {:induction false} SplitNoSeparator(s: string, sep: char)
    requires sep !in s
    ensures Split(s, sep) == [s]
    decreases |s|
  {
    if |s| > 0 {
      SplitNoSeparator(s[1..], sep);
      assert [s[0]] + s[1..] == s;
    }
  }

  /** Splitting a separator-free piece followed by the separator peels that piece off. */
  lemma {:induction false} SplitPiece(a: string, sep: char, b: string)
    requires sep !in a
    ensures Split(a + [sep] + b, sep) == [a] + Split(b, sep)
    decreases |a|
  {
    var s := a + [sep] + b;
    if |a| == 0 {
      assert s[1..] == b;
    } else {
      assert s[1..] == a[1..] + [sep] + b;
      SplitPiece(a[1..], sep, b);
      assert [a[0]] + a[1..] == a;
    }
  }

  lemma DigitsHaveNo(s: string, c: char)
    requires AllDigits(s) && !IsDigit(c)
    ensures c !in s
  {
  }

  function LowerChar(c: char): char
  {
    if 'A' <= c <= 'Z' then (c as int + 32) as char else c
  }

  function UpperChar(c: char): char
  {
    if 'a' <= c <= 'z' then (c as int - 32) as char else c
  }

  /** `s.toLowerCase()` on ASCII letters. */
  function Lower(s: string): (r: string)
    ensures |r| == |s|
    ensures forall i :: 0 <= i < |s| ==> r[i] == LowerChar(s[i])
  {
    seq(|s|, i requires 0 <= i < |s| => LowerChar(s[i]))
  }

  /** `s.toUpperCase()` on ASCII letters. */
  function Upper(s: string): (r: string)
    ensures |r| == |s|
    ensures forall i :: 0 <= i < |s| ==> r[i] == UpperChar(s[i])
  {
    seq(|s|, i requires 0 <= i < |s| => UpperChar(s[i]))
  }

  /** `needle` sits in `hay` starting at offset `k`. */
  predicate OccursAt(needle: string, hay: string, k: int)
  {
    0 <= k <= |hay| - |needle| && hay[k..k + |needle|] == needle
  }

  /** Reference meaning of `hay.includes(needle)`: needle occurs at some offset. */
  ghost predicate OccursIn(needle: string, hay: string)
  {
    exists k :: OccursAt(needle, hay, k)
  }

  /** `hay.includes(needle)`, computed by trying each offset from the left. */
  function Includes(hay: string, needle: string): (b: bool)
    ensures b <==> OccursIn(needle, hay)
    decreases |hay|
  {
    if |needle| <= |hay| && hay[..|needle|] == needle then
      assert OccursAt(needle, hay, 0);
      true
    else if |needle| >= |hay| then
      assert forall k :: OccursAt(needle, hay, k) ==> k == 0;
      false
    else
      var r := Includes(hay[1..], needle);
      assert forall k :: OccursAt(needle, hay[1..], k) <==> OccursAt(needle, hay, k + 1) by {
        forall k ensures OccursAt(needle, hay[1..], k) <==> OccursAt(needle, hay, k + 1) {
          if 0 <= k <= |hay| - 1 - |needle| {
            assert hay[1..][k..k + |needle|] == hay[k + 1..k + 1 + |needle|];
          }
        }
      }
      assert OccursIn(needle, hay) ==> r by {
        if OccursIn(needle, hay) {
          var k :| OccursAt(needle, hay, k);
          assert k != 0;
          assert OccursAt(needle, hay[1..], k - 1);
        }
      }
      r
  }

  /** The empty string occurs in every string, so an empty search term matches everything. */
  lemma IncludesEmpty(hay: string)
    ensures Includes(hay, "")
  {
    assert OccursAt("", hay, 0);
  }

  /** `hay.toLowerCase().includes(term.toLowerCase())`. */
  function IncludesIgnoringCase(hay: string, term: string): (b: bool)
    ensures b <==> OccursIn(Lower(term), Lower(hay))
  {
    Includes(Lower(hay), Lower(term))
  }
}
