/** String helpers: splitting at the first separator and reading and writing decimal digits. */
module Text {

  import opened Options

  /** The part of `s` before the first `sep`; all of `s` when there is none
      (Python's `s.split(sep)[0]`). */
  function BeforeFirst(s: string, sep: char): (r: string)
    ensures sep !in r
    ensures r <= s
    ensures |r| < |s| ==> s[|r|] == sep
  {
    if s == [] then []
    else if s[0] == sep then []
    else [s[0]] + BeforeFirst(s[1..], sep)
  }

  /** The part of `s` after the first `sep`; empty when there is none. */
  function AfterFirst(s: string, sep: char): (r: string)
    ensures sep in s ==> s == BeforeFirst(s, sep) + [sep] + r
    ensures sep !in s ==> r == []
  {
    if s == [] then []
    else if s[0] == sep then s[1..]
    else AfterFirst(s[1..], sep)
  }

  /** Splitting a joined string at a separator that the head does not contain gives the two parts back. */
  lemma {:induction false} SplitJoined(a: string, sep: char, b: string)
    requires sep !in a
    ensures BeforeFirst(a + [sep] + b, sep) == a
    ensures AfterFirst(a + [sep] + b, sep) == b
  {
    if a != [] {
      assert (a + [sep] + b)[1..] == a[1..] + [sep] + b;
      SplitJoined(a[1..], sep, b);
    }
  }

  /** How many times `c` occurs in `s` (Python's `s.count(c)`). */
  function Count(s: string, c: char): (n: nat)
    ensures n <= |s|
    ensures n == 0 <==> c !in s
  {
    if s == [] then 0
    else (if s[0] == c then 1 else 0) + Count(s[1..], c)
  }

  /** A separator joined after a head that does not contain it adds exactly one occurrence. */
  lemma {:induction false} CountJoined(a: string, sep: char, b: string)
    requires sep !in a
    ensures Count(a + [sep] + b, sep) == 1 + Count(b, sep)
  {
    if a == [] {
      assert (a + [sep] + b)[1..] == b;
    } else {
      assert (a + [sep] + b)[1..] == a[1..] + [sep] + b;
      CountJoined(a[1..], sep, b);
    }
  }

  predicate IsDigit(c: char)
  {
    '0' <= c <= '9'
  }

  predicate AllDigits(s: string)
  {
    forall i :: 0 <= i < |s| ==> IsDigit(s[i])
  }

  function DigitChar(d: nat): (c: char)
    requires d < 10
    ensures IsDigit(c)
  {
    ('0' as int + d) as char
  }

  /** The value of a non-empty run of ASCII digits; None when `s` is empty or holds anything else. */
  function DecimalValue(s: string): (r: Option<nat>)
    ensures r.Some? <==> |s| > 0 && AllDigits(s)
    ensures r.Some? ==> r.value < Power10(|s|)
  {
    if |s| == 0 || !IsDigit(s[|s| - 1]) then None
    else
      var last := s[|s| - 1] as int - '0' as int;
      if |s| == 1 then Some(last)
      else match DecimalValue(s[..|s| - 1])
        case None => None
        case Some(v) => Some(10 * v + last)
  }

  function Power10(n: nat): (p: nat)
    ensures p >= 1
  {
    if n == 0 then 1 else 10 * Power10(n - 1)
  }

  /** `n` written with exactly `width` digits, zero-padded on the left (strftime's `%d` for width 2, `%Y` for width 4). */
  function Padded(n: nat, width: nat): (s: string)
    requires n < Power10(width)
    ensures |s| == width && AllDigits(s)
    decreases width
  {
    if width == 0 then []
    else Padded(n / 10, width - 1) + [DigitChar(n % 10)]
  }

  /** `n` in decimal without leading zeros (Python's `str(n)`). */
  function DecimalText(n: nat): (s: string)
    ensures |s| > 0 && AllDigits(s)
  {
    if n < 10 then [DigitChar(n)] else DecimalText(n / 10) + [DigitChar(n % 10)]
  }

  /** `int()` reads the decimal text of a number back as that number. */
  lemma {:induction false} DecimalValueText(n: nat)
    ensures DecimalValue(DecimalText(n)) == Some(n)
  {
    if n >= 10 {
      var s := DecimalText(n);
      assert s[..|s| - 1] == DecimalText(n / 10);
      DecimalValueText(n / 10);
    }
  }

  /** A run of digits is the zero-padded text of its own value. */
  lemma {:induction false} PaddedDecimalValue(t: string)
    requires |t| > 0 && AllDigits(t)
    ensures DecimalValue(t).value < Power10(|t|) && Padded(DecimalValue(t).value, |t|) == t
  {
    var n := DecimalValue(t).value;
    var last := t[|t| - 1] as int - '0' as int;
    if |t| > 1 {
      var head := t[..|t| - 1];
      assert AllDigits(head) by {
        forall i | 0 <= i < |head| ensures IsDigit(head[i]) {
          assert head[i] == t[i];
        }
      }
      PaddedDecimalValue(head);
      assert n / 10 == DecimalValue(head).value && n % 10 == last;
      assert t == head + [t[|t| - 1]];
    }
  }

  /** Reading a zero-padded number gives back the number it was written from. */
  lemma {:induction false} DecimalValuePadded(n: nat, width: nat)
    requires 0 < width && n < Power10(width)
    ensures DecimalValue(Padded(n, width)) == Some(n)
    decreases width
  {
    var s := Padded(n, width);
    assert s[..|s| - 1] == Padded(n / 10, width - 1);
    if width > 1 {
      DecimalValuePadded(n / 10, width - 1);
    }
  }
}
