/** The few JavaScript built-ins the application's logic relies on, stated
    over Dafny's unbounded integers and strings: Math.round of a quotient,
    Math.floor(Math.random() * n), Number#toString and parseInt for integers,
    and String#trim / String#split. */
module JsBuiltins {
  import opened Types

  // ---------------------------------------------------------------- numbers

  /** A value returned by Math.random(): the fraction num / den, in [0, 1). */
  datatype Fraction = Fraction(num: nat, den: nat)
  type RandomDraw = f: Fraction | f.num < f.den witness Fraction(0, 1)

  lemma MulLeftMono(a: int, b: int, c: nat)
    requires a <= b
    ensures a * c <= b * c
  {}

  /** Euclidean division of a natural number brackets it between two
      multiples of the divisor. */
  lemma DivBounds(p: nat, den: nat)
    requires den > 0
    ensures 0 <= p / den
    ensures (p / den) * den <= p < (p / den + 1) * den
  {
    var k := p / den;
    assert p == k * den + p % den;
    assert (k + 1) * den == k * den + den;
  }

  /** The whole part of num * n / den brackets the product and, for a draw
      below 1, stays below n. */
  lemma ScaledBounds(num: nat, den: nat, n: nat)
    requires num < den
    ensures var k := num * n / den;
      0 <= k && k * den <= num * n < (k + 1) * den && (n > 0 ==> k < n)
  {
    var k := num * n / den;
    DivBounds(num * n, den);
    assert (num + 1) * n == num * n + n;
    assert n * den == den * n;
    if n > 0 && k >= n {
      MulLeftMono(n, k, den);
      MulLeftMono(num + 1, den, n);
    }
  }

  /** Math.floor(u * n): the whole part of the draw u scaled up to n. */
  function ScaleDraw(u: RandomDraw, n: nat): (k: nat)
    ensures k * u.den <= u.num * n < (k + 1) * u.den
    ensures n > 0 ==> k < n
  {
    ScaledBounds(u.num, u.den, n);
    u.num * n / u.den
  }

  /** Scaling is exact on slices: every draw in [i/n, (i+1)/n) scales to i,
      so each of the n equal slices of [0, 1) leads to its own whole number. */
  lemma ScaleDrawSlice(u: RandomDraw, n: nat, i: nat)
    requires i * u.den <= u.num * n < (i + 1) * u.den
    ensures ScaleDraw(u, n) == i
  {
    var k := ScaleDraw(u, n);
    if k < i {
      MulLeftMono(k + 1, i, u.den);
    } else if k > i {
      MulLeftMono(i + 1, k, u.den);
    }
  }

  /** Math.round(num / den): the nearest integer to the quotient, a half
      rounded up (towards positive infinity). */
  function RoundDiv(num: int, den: nat): (r: int)
    requires den > 0
    ensures 2 * den * r - den <= 2 * num < 2 * den * r + den
  {
    (2 * num + den) / (2 * den)
  }

  /** The rounding is unique: no other integer lies within half a unit. */
  lemma RoundDivUnique(num: int, den: nat, r: int)
    requires den > 0
    requires 2 * den * r - den <= 2 * num < 2 * den * r + den
    ensures r == RoundDiv(num, den)
  {
    var q := RoundDiv(num, den);
    if r < q {
      MulLeftMono(r + 1, q, 2 * den);
    } else if r > q {
      MulLeftMono(q + 1, r, 2 * den);
    }
  }

  /** Rounding a quotient whose value lies in [lo, hi] stays in [lo, hi]. */
  lemma RoundDivWithin(num: int, den: nat, lo: int, hi: int)
    requires den > 0 && den * lo <= num <= den * hi
    ensures lo <= RoundDiv(num, den) <= hi
  {
    var r := RoundDiv(num, den);
    var d2 := 2 * den;
    assert d2 * r == 2 * den * r;
    assert (r + 1) * d2 == r * d2 + d2;
    assert (hi + 1) * d2 == hi * d2 + d2;
    assert lo * d2 == 2 * (den * lo) && hi * d2 == 2 * (den * hi);
    if r < lo {
      MulLeftMono(r + 1, lo, d2);
    } else if r > hi {
      MulLeftMono(hi + 1, r, d2);
    }
  }

  // ----------------------------------------------------------- white space

  /** The line terminators of ECMAScript (the characters `.` does not match). */
  predicate IsLineTerminator(c: char) {
    c == '\n' || c == '\r' || c == '\U{2028}' || c == '\U{2029}'
  }

  /** ECMAScript white space and line terminators: what `trim` removes and
      what the regular-expression class `\s` matches. */
  predicate IsWhitespace(c: char) {
    || IsLineTerminator(c)
    || c == '\t' || c == '\U{000B}' || c == '\U{000C}' || c == ' '
    || c == '\U{00A0}' || c == '\U{1680}' || ('\U{2000}' <= c <= '\U{200A}')
    || c == '\U{202F}' || c == '\U{205F}' || c == '\U{3000}' || c == '\U{FEFF}'
  }

  /** Drops the white space at the front of s. */
  function TrimStart(s: string): (r: string)
    ensures |r| <= |s| && r == s[|s| - |r|..]
    ensures r != [] ==> !IsWhitespace(r[0])
    ensures forall k :: 0 <= k < |s| - |r| ==> IsWhitespace(s[k])
  {
    if s != [] && IsWhitespace(s[0]) then TrimStart(s[1..]) else s
  }

  lemma TrimStartNoop(s: string)
    requires s != [] && (s[0] == '-' || IsDigit(s[0]))
    ensures TrimStart(s) == s
  {
    assert !IsWhitespace(s[0]);
  }

  /** Drops the white space at the end of s. */
  function TrimEnd(s: string): (r: string)
    ensures |r| <= |s| && r == s[..|r|]
    ensures r != [] ==> !IsWhitespace(r[|r| - 1])
    ensures forall k :: |r| <= k < |s| ==> IsWhitespace(s[k])
  {
    if s != [] && IsWhitespace(s[|s| - 1]) then TrimEnd(s[..|s| - 1]) else s
  }

  /** String#trim: the part of s between its leading and trailing white space. */
  function Trim(s: string): (r: string)
    ensures r != [] ==> !IsWhitespace(r[0]) && !IsWhitespace(r[|r| - 1])
    ensures exists i :: TrimmedAt(s, r, i)
  {
    var t := TrimStart(s);
    var r := TrimEnd(t);
    TrimmedBetween(s, t, r);
    r
  }

  lemma TrimmedBetween(s: string, t: string, r: string)
    requires |t| <= |s| && t == s[|s| - |t|..]
    requires forall k :: 0 <= k < |s| - |t| ==> IsWhitespace(s[k])
    requires |r| <= |t| && r == t[..|r|]
    requires forall k :: |r| <= k < |t| ==> IsWhitespace(t[k])
    ensures TrimmedAt(s, r, |s| - |t|)
  {
    var i := |s| - |t|;
    assert r == s[i..i + |r|];
    forall k | i + |r| <= k < |s|
      ensures IsWhitespace(s[k])
    {
      assert s[k] == t[k - i];
    }
  }

  /** r occurs in s at offset i and only white space lies around it. */
  ghost predicate TrimmedAt(s: string, r: string, i: int) {
    && 0 <= i && i + |r| <= |s| && r == s[i..i + |r|]
    && (forall k :: 0 <= k < i ==> IsWhitespace(s[k]))
    && (forall k :: i + |r| <= k < |s| ==> IsWhitespace(s[k]))
  }

  // -------------------------------------------------------------- filtering

  /** Array#filter: the elements that pass, in their order. */
  function Filter<T>(s: seq<T>, keep: T -> bool): (r: seq<T>)
    ensures |r| <= |s|
  {
    if s == [] then [] else (if keep(s[0]) then [s[0]] else []) + Filter(s[1..], keep)
  }

  /** The filter keeps exactly the elements that pass. */
  lemma {:induction false} FilterMembers<T>(s: seq<T>, keep: T -> bool)
    ensures forall x :: x in Filter(s, keep) <==> x in s && keep(x)
  {
    if s != [] {
      FilterMembers(s[1..], keep);
      assert s == [s[0]] + s[1..];
    }
  }

  /** The filter keeps the order: filtering a concatenation concatenates
      the filtered parts. */
  lemma {:induction false} FilterAppend<T>(a: seq<T>, b: seq<T>, keep: T -> bool)
    ensures Filter(a + b, keep) == Filter(a, keep) + Filter(b, keep)
  {
    if a == [] {
      assert a + b == b;
    } else {
      var t := a[1..];
      var head := if keep(a[0]) then [a[0]] else [];
      assert (a + b)[0] == a[0];
      assert (a + b)[1..] == t + b;
      calc {
        Filter(a + b, keep);
        head + Filter(t + b, keep);
        { FilterAppend(t, b, keep); }
        head + (Filter(t, keep) + Filter(b, keep));
        (head + Filter(t, keep)) + Filter(b, keep);
        Filter(a, keep) + Filter(b, keep);
      }
    }
  }

  // -------------------------------------------------------------- splitting

  /** String#split with a one-character separator: the pieces between the
      separators, empty pieces included. */
  function Split(s: string, sep: char): (parts: seq<string>)
    ensures |parts| >= 1
    ensures forall p :: p in parts ==> sep !in p
  {
    if s == [] then [""]
    else
      var rest := Split(s[1..], sep);
      if s[0] == sep then [""] + rest
      else [[s[0]] + rest[0]] + rest[1..]
  }

  /** Array#join with a one-character separator. */
  function Join(parts: seq<string>, sep: char): string
    requires |parts| >= 1
  {
    if |parts| == 1 then parts[0] else parts[0] + [sep] + Join(parts[1..], sep)
  }

  /** Joining the pieces back gives the original string. */
  lemma {:induction false} JoinSplit(s: string, sep: char)
    ensures Join(Split(s, sep), sep) == s
  {
    if s != [] {
      var rest := Split(s[1..], sep);
      JoinSplit(s[1..], sep);
      if s[0] != sep {
        var parts := Split(s, sep);
        assert parts[1..] == rest[1..];
        if |rest| == 1 {
          assert Join(parts, sep) == [s[0]] + rest[0];
        } else {
          assert Join(parts, sep) == [s[0]] + rest[0] + [sep] + Join(rest[1..], sep);
        }
      } else {
        assert Split(s, sep)[1..] == rest;
      }
    }
  }

  /** A piece without the separator splits to itself, and a separator ends it. */
  lemma {:induction false} SplitPiece(a: string, tail: seq<char>, sep: char)
    requires sep !in a
    ensures tail == [] ==> Split(a, sep) == [a]
    ensures tail != [] && tail[0] == sep ==> Split(a + tail, sep) == [a] + Split(tail[1..], sep)
  {
    if a == [] {
      assert a + tail == tail;
    } else {
      SplitPiece(a[1..], tail, sep);
      assert (a + tail)[1..] == a[1..] + tail;
      assert [a[0]] + a[1..] == a;
    }
  }

  /** Splitting joined pieces that hold no separator gives the pieces back. */
  lemma {:induction false} SplitJoin(parts: seq<string>, sep: char)
    requires |parts| >= 1
    requires forall p :: p in parts ==> sep !in p
    ensures Split(Join(parts, sep), sep) == parts
  {
    if |parts| == 1 {
      SplitPiece(parts[0], [], sep);
    } else {
      var rest := Join(parts[1..], sep);
      SplitJoin(parts[1..], sep);
      assert parts[0] + [sep] + rest == parts[0] + ([sep] + rest);
      SplitPiece(parts[0], [sep] + rest, sep);
      assert ([sep] + rest)[1..] == rest;
      assert [parts[0]] + parts[1..] == parts;
    }
  }

  // ---------------------------------------------------------------- decimal

  predicate IsDigit(c: char) { '0' <= c <= '9' }

  predicate AllDigits(s: string) { forall k :: 0 <= k < |s| ==> IsDigit(s[k]) }

  function DigitChar(d: nat): (c: char)
    requires d < 10
    ensures IsDigit(c) && DigitValue(c) == d
  {
    (('0' as int) + d) as char
  }

  function DigitValue(c: char): nat
    requires IsDigit(c)
  {
    (c as int) - ('0' as int)
  }

  /** The decimal digits of n, without leading zeros. */
  function NatToDecimal(n: nat): (s: string)
    ensures s != [] && AllDigits(s)
    ensures |s| > 1 ==> s[0] != '0'
  {
    if n < 10 then [DigitChar(n)] else NatToDecimal(n / 10) + [DigitChar(n % 10)]
  }

  /** Number#toString of an integer: an optional minus sign and its digits. */
  function IntToDecimal(n: int): (s: string)
    ensures s != [] && (s[0] == '-' <==> n < 0)
  {
    if n < 0 then "-" + NatToDecimal(-n) else NatToDecimal(n)
  }

  /** The value of a string of decimal digits. */
  function DigitsValue(s: string): nat
    requires AllDigits(s)
  {
    if s == [] then 0 else DigitsValue(s[..|s| - 1]) * 10 + DigitValue(s[|s| - 1])
  }

  /** The length of the run of digits at the front of s. */
  function LeadingDigitCount(s: string): (n: nat)
    ensures n <= |s| && AllDigits(s[..n])
    ensures n < |s| ==> !IsDigit(s[n])
  {
    if s != [] && IsDigit(s[0]) then
      var n := 1 + LeadingDigitCount(s[1..]);
      assert s[..n] == [s[0]] + s[1..][..n - 1];
      n
    else 0
  }

  /** The value of the run of digits at the front of s, if there is one. */
  function ParseDigits(s: string): Option<nat> {
    var n := LeadingDigitCount(s);
    if n == 0 then None else Some(DigitsValue(s[..n]))
  }

  /** parseInt(s, 10): leading white space, an optional sign, then the longest
      run of digits; NaN (here None) when no digit follows. */
  function ParseInt(s: string): (r: Option<int>) {
    var t := TrimStart(s);
    if t != [] && t[0] == '-' then
      match ParseDigits(t[1..])
      case None => None
      case Some(v) => Some(-(v as int))
    else if t != [] && t[0] == '+' then
      match ParseDigits(t[1..])
      case None => None
      case Some(v) => Some(v)
    else
      match ParseDigits(t)
      case None => None
      case Some(v) => Some(v)
  }

  /** parseInt gives NaN exactly when no digit follows the leading white
      space and the optional sign. */
  lemma ParseIntNaN(s: string)
    ensures var t := TrimStart(s);
      var u := if t != [] && (t[0] == '-' || t[0] == '+') then t[1..] else t;
      ParseInt(s).None? <==> (u == [] || !IsDigit(u[0]))
  {}

  lemma {:induction false} NatToDecimalValue(n: nat)
    ensures DigitsValue(NatToDecimal(n)) == n
  {
    if n >= 10 {
      NatToDecimalValue(n / 10);
      var s := NatToDecimal(n);
      assert s[..|s| - 1] == NatToDecimal(n / 10);
    }
  }

  /** The run of digits stops where the digits stop. */
  lemma {:induction false} LeadingDigitsThen(digits: string, suffix: string)
    requires AllDigits(digits)
    requires suffix == [] || !IsDigit(suffix[0])
    ensures LeadingDigitCount(digits + suffix) == |digits|
  {
    if digits == [] {
      assert digits + suffix == suffix;
    } else {
      assert (digits + suffix)[1..] == digits[1..] + suffix;
      LeadingDigitsThen(digits[1..], suffix);
    }
  }

  /** A number's digits followed by text that does not start with a digit
      read back as the number. */
  lemma DigitsThenSuffix(m: nat, suffix: string)
    requires suffix == [] || !IsDigit(suffix[0])
    ensures var body := NatToDecimal(m) + suffix;
      body != [] && IsDigit(body[0]) && ParseDigits(body) == Some(m)
  {
    var digits := NatToDecimal(m);
    NatToDecimalValue(m);
    LeadingDigitsThen(digits, suffix);
    assert (digits + suffix)[..|digits|] == digits;
  }

  /** parseInt reads back what toString wrote, whatever non-digit text
      follows it. */
  lemma DecimalPrefixParses(n: int, suffix: string)
    requires suffix == [] || !IsDigit(suffix[0])
    ensures ParseInt(IntToDecimal(n) + suffix) == Some(n)
  {
    if n < 0 {
      NegativePrefixParses(-n, suffix);
    } else {
      DigitsThenSuffix(n, suffix);
      TrimStartNoop(NatToDecimal(n) + suffix);
    }
  }

  lemma NegativePrefixParses(m: nat, suffix: string)
    requires m > 0 && (suffix == [] || !IsDigit(suffix[0]))
    ensures ParseInt(IntToDecimal(-(m as int)) + suffix) == Some(-(m as int))
  {
    SignedText(m, suffix);
    SignedParses(m, suffix);
  }

  /** The text of a negative number is a minus sign before its digits. */
  lemma SignedText(m: nat, suffix: string)
    requires m > 0
    ensures IntToDecimal(-(m as int)) + suffix == ['-'] + (NatToDecimal(m) + suffix)
  {
    assert IntToDecimal(-(m as int)) == "-" + NatToDecimal(m);
  }

  /** A minus sign before a number's digits parses as the negated number. */
  lemma SignedParses(m: nat, suffix: string)
    requires suffix == [] || !IsDigit(suffix[0])
    ensures ParseInt(['-'] + (NatToDecimal(m) + suffix)) == Some(-(m as int))
  {
    var body := NatToDecimal(m) + suffix;
    var signed := ['-'] + body;
    DigitsThenSuffix(m, suffix);
    assert signed[1..] == body;
    MinusSign(signed, m);
  }

  /** parseInt of text starting with a minus sign negates the digits that
      follow it. */
  lemma MinusSign(t: string, v: nat)
    requires t != [] && t[0] == '-' && ParseDigits(t[1..]) == Some(v)
    ensures ParseInt(t) == Some(-(v as int))
  {
    TrimStartNoop(t);
  }

  /** parseInt reads back what toString wrote. */
  lemma DecimalRoundTrip(n: int)
    ensures ParseInt(IntToDecimal(n)) == Some(n)
  {
    DecimalPrefixParses(n, "");
    assert IntToDecimal(n) + "" == IntToDecimal(n);
  }
}
