/** The JavaScript string and number primitives the app relies on, written
    out the way the JavaScript runtime evaluates them on the inputs the model
    covers: `String.prototype.split("/")`, `Number.prototype.toString()` on
    non-negative integers, the `Number(text)` conversion, `parseInt(text, 10)`
    and the truncating `%` operator. */
module JsText {

  /** A JavaScript number restricted to the integers, plus NaN. */
  datatype JsNum = NaN | Num(value: int) {

    /** JavaScript truthiness: NaN and 0 are falsy. */
    predicate Truthy() {
      Num? && value != 0
    }
  }

  // ---------------------------------------------------------------------
  // split("/")
  // ---------------------------------------------------------------------

  /** `s.split("/")`: the maximal slash-free pieces of `s`, in order; there is
      always one more piece than there are slashes. */
  function Split(s: string): (r: seq<string>)
    ensures |r| >= 1
    ensures forall i :: 0 <= i < |r| ==> '/' !in r[i]
    ensures |r| == 1 + Slashes(s)
    decreases |s|
  {
    if |s| == 0 then [""]
    else
      var rest := Split(s[1..]);
      if s[0] == '/' then [""] + rest
      else [[s[0]] + rest[0]] + rest[1..]
  }

  /** Number of '/' characters in `s`. */
  function Slashes(s: string): nat
    decreases |s|
  {
    if |s| == 0 then 0 else (if s[0] == '/' then 1 else 0) + Slashes(s[1..])
  }

  /** `pieces.join("/")`. */
  function Join(pieces: seq<string>): string
    decreases |pieces|
  {
    if |pieces| == 0 then ""
    else if |pieces| == 1 then pieces[0]
    else pieces[0] + "/" + Join(pieces[1..])
  }

  /** Splitting and re-joining gives back the original string. */
  lemma {:induction false} SplitJoin(s: string)
    ensures Join(Split(s)) == s
    decreases |s|
  {
    if |s| == 0 {
    } else {
      var rest := Split(s[1..]);
      SplitJoin(s[1..]);
      if s[0] == '/' {
        assert Split(s) == [""] + rest;
        if |rest| == 1 {
          assert Join(Split(s)) == "" + "/" + rest[0];
        } else {
          assert Join(Split(s)) == "" + "/" + Join(rest);
        }
        assert s == [s[0]] + s[1..];
      } else {
        var r := Split(s);
        assert r == [[s[0]] + rest[0]] + rest[1..];
        if |rest| == 1 {
          assert Join(r) == [s[0]] + rest[0];
        } else {
          assert Join(rest) == rest[0] + "/" + Join(rest[1..]);
          assert r[1..] == rest[1..];
          assert Join(r) == ([s[0]] + rest[0]) + "/" + Join(rest[1..]);
        }
        assert s == [s[0]] + s[1..];
      }
    }
  }

  /** A slash-free string splits into itself alone. */
  lemma {:induction false} SplitSlashFree(a: string)
    requires '/' !in a
    ensures Split(a) == [a]
    decreases |a|
  {
    if |a| > 0 {
      assert '/' !in a[1..] by {
        forall i | 0 <= i < |a[1..]| ensures a[1..][i] != '/' {
          assert a[1..][i] == a[i + 1];
        }
      }
      SplitSlashFree(a[1..]);
      assert [a[0]] + a[1..] == a;
    }
  }

  /** A slash-free piece followed by '/' becomes the first piece, and the
      rest splits on its own. */
  lemma {:induction false} SplitAfterPiece(a: string, b: string)
    requires '/' !in a
    ensures Split(a + "/" + b) == [a] + Split(b)
    decreases |a|
  {
    var s := a + "/" + b;
    if |a| == 0 {
      assert s == "/" + b;
      assert s[1..] == b;
    } else {
      assert s[1..] == a[1..] + "/" + b;
      assert '/' !in a[1..] by {
        forall i | 0 <= i < |a[1..]| ensures a[1..][i] != '/' {
          assert a[1..][i] == a[i + 1];
        }
      }
      SplitAfterPiece(a[1..], b);
      assert [a[0]] + a[1..] == a;
    }
  }

  /** `s.split("/")[k]`: `undefined` (None) when there are too few pieces. */
  function SegmentAt(s: string, k: nat): (r: Option<string>)
    ensures r.Some? <==> k <= Slashes(s)
    ensures r.Some? ==> '/' !in r.value
    ensures r.Some? ==> k < |Split(s)| && r.value == Split(s)[k]
  {
    var pieces := Split(s);
    if k < |pieces| then Some(pieces[k]) else None
  }

  // ---------------------------------------------------------------------
  // Decimal digits, toString() and Number()
  // ---------------------------------------------------------------------

  predicate IsDigit(c: char) {
    '0' <= c <= '9'
  }

  predicate AllDigits(s: string) {
    forall i :: 0 <= i < |s| ==> IsDigit(s[i])
  }

  function DigitChar(d: nat): (c: char)
    requires d < 10
    ensures IsDigit(c)
  {
    ('0' as int + d) as char
  }

  function DigitValue(c: char): (d: nat)
    requires IsDigit(c)
    ensures d < 10
  {
    c as int - '0' as int
  }

  /** Value of a string of decimal digits ("" reads as 0). */
  function ParseDigits(s: string): nat
    requires AllDigits(s)
    decreases |s|
  {
    if |s| == 0 then 0
    else ParseDigits(s[..|s| - 1]) * 10 + DigitValue(s[|s| - 1])
  }

  /** `n.toString()` for a non-negative integer: its canonical decimal text. */
  function NatToString(n: nat): (r: string)
    ensures |r| >= 1 && AllDigits(r)
    ensures |r| > 1 ==> r[0] != '0'
    decreases n
  {
    if n < 10 then [DigitChar(n)]
    else NatToString(n / 10) + [DigitChar(n % 10)]
  }

  /** Template-literal text of an integer (`${i}`). */
  function IntToString(i: int): (r: string)
    ensures |r| >= 1
    ensures i >= 0 <==> AllDigits(r)
  {
    if i < 0 then
      var r := "-" + NatToString(-i);
      assert !IsDigit(r[0]);
      r
    else NatToString(i)
  }

  /** Decimal text reads back as the number it was printed from. */
  lemma {:induction false} ParseNatToString(n: nat)
    ensures ParseDigits(NatToString(n)) == n
    decreases n
  {
    if n >= 10 {
      var s := NatToString(n);
      ParseNatToString(n / 10);
      assert s[..|s| - 1] == NatToString(n / 10);
    }
  }

  /** `Number(text)`: "" is 0, an optionally signed run of decimal digits is
      its value, and every other text is NaN. */
  function ToNumber(s: string): (r: JsNum)
    ensures AllDigits(s) ==> r.Num? && r.value >= 0
    ensures r.NaN? ==> !AllDigits(s)
  {
    if |s| == 0 then Num(0)
    else if s[0] == '-' && |s| > 1 && AllDigits(s[1..]) then Num(-(ParseDigits(s[1..]) as int))
    else if s[0] == '+' && |s| > 1 && AllDigits(s[1..]) then Num(ParseDigits(s[1..]))
    else if AllDigits(s) then Num(ParseDigits(s))
    else NaN
  }

  /** Printing a non-negative integer and converting it back with Number()
      is the identity. */
  lemma ToNumberOfNatToString(n: nat)
    ensures ToNumber(NatToString(n)) == Num(n)
  {
    ParseNatToString(n);
  }

  /** Number() reads back the template-literal text of any integer. */
  lemma ToNumberOfIntToString(i: int)
    ensures ToNumber(IntToString(i)) == Num(i)
  {
    if i < 0 {
      var s := IntToString(i);
      assert s[1..] == NatToString(-i);
      ParseNatToString(-i);
    } else {
      ToNumberOfNatToString(i);
    }
  }

  /** Length of the longest prefix of `s` made of decimal digits. */
  function DigitPrefix(s: string): (k: nat)
    ensures k <= |s| && AllDigits(s[..k])
    ensures k < |s| ==> !IsDigit(s[k])
    decreases |s|
  {
    if |s| == 0 || !IsDigit(s[0]) then 0
    else
      var k := DigitPrefix(s[1..]);
      assert s[..k + 1] == [s[0]] + s[1..][..k];
      k + 1
  }

  /** The longest leading run of digits as a number; NaN when there is no
      digit. */
  function ParseUnsigned(s: string): JsNum {
    var k := DigitPrefix(s);
    if k == 0 then NaN else Num(ParseDigits(s[..k]))
  }

  function Negate(n: JsNum): JsNum {
    match n
    case NaN => NaN
    case Num(v) => Num(-v)
  }

  /** `parseInt(text, 10)`: an optional sign followed by the longest run of
      digits; NaN when there is no digit. */
  function ParseIntPrefix(s: string): (r: JsNum)
  {
    if |s| > 0 && s[0] == '-' then Negate(ParseUnsigned(s[1..]))
    else if |s| > 0 && s[0] == '+' then ParseUnsigned(s[1..])
    else ParseUnsigned(s)
  }

  /** The digit run of `a + b` stops where `b` starts with a non-digit. */
  lemma {:induction false} DigitPrefixOfConcat(a: string, b: string)
    requires AllDigits(a) && |b| > 0 && !IsDigit(b[0])
    ensures DigitPrefix(a + b) == |a|
    decreases |a|
  {
    if |a| > 0 {
      assert (a + b)[1..] == a[1..] + b;
      DigitPrefixOfConcat(a[1..], b);
    } else {
      assert a + b == b;
    }
  }

  /** A non-empty digit run followed by a non-digit reads as the run's
      value. */
  lemma ParseUnsignedOfDigitRun(digits: string, suffix: string)
    requires |digits| > 0 && AllDigits(digits)
    requires |suffix| > 0 && !IsDigit(suffix[0])
    ensures ParseUnsigned(digits + suffix) == Num(ParseDigits(digits))
  {
    DigitPrefixOfConcat(digits, suffix);
    assert (digits + suffix)[..|digits|] == digits;
  }

  /** A printed non-negative integer followed by a non-digit reads back. */
  lemma ParseIntOfPrintedNat(n: nat, suffix: string)
    requires |suffix| > 0 && !IsDigit(suffix[0])
    ensures ParseIntPrefix(NatToString(n) + suffix) == Num(n)
  {
    var digits := NatToString(n);
    assert (digits + suffix)[0] == digits[0];
    ParseUnsignedOfDigitRun(digits, suffix);
    ParseNatToString(n);
  }

  /** A printed negative integer followed by a non-digit reads back. */
  lemma ParseIntOfPrintedNegative(n: nat, suffix: string)
    requires n > 0 && |suffix| > 0 && !IsDigit(suffix[0])
    ensures ParseIntPrefix("-" + (NatToString(n) + suffix)) == Num(-(n as int))
  {
    var digits := NatToString(n);
    var s := "-" + (digits + suffix);
    assert s[1..] == digits + suffix;
    ParseUnsignedOfDigitRun(digits, suffix);
    ParseNatToString(n);
  }

  /** `parseInt` reads back a printed integer followed by any text that does
      not start with a digit. */
  lemma ParseIntOfPrinted(i: int, suffix: string)
    requires |suffix| > 0 && !IsDigit(suffix[0])
    ensures ParseIntPrefix(IntToString(i) + suffix) == Num(i)
  {
    if i < 0 {
      var digits := NatToString(-i);
      var t := IntToString(i);
      assert t == "-" + digits;
      assert t + suffix == "-" + (digits + suffix);
      ParseIntOfPrintedNegative(-i, suffix);
    } else {
      ParseIntOfPrintedNat(i, suffix);
    }
  }

  // ---------------------------------------------------------------------
  // The % operator
  // ---------------------------------------------------------------------

  /** JavaScript's `a % n`: truncated division, so the remainder takes the
      sign of the dividend (Dafny's own `%` is Euclidean). */
  function JsRem(a: int, n: int): (r: int)
    requires n != 0
    ensures a >= 0 ==> 0 <= r < (if n > 0 then n else -n)
    ensures a < 0 ==> -(if n > 0 then n else -n) < r <= 0
    ensures a >= 0 && n > 0 ==> r == a % n
  {
    var m := if n > 0 then n else -n;
    if a >= 0 then a % m else -((-a) % m)
  }

  /** Below three times the divisor, the remainder is at most two
      subtractions away. */
  lemma JsRemWrap(a: int, n: int)
    requires n >= 1 && 0 <= a < 3 * n
    ensures JsRem(a, n) == if a < n then a else if a < 2 * n then a - n else a - 2 * n
  {
    if a >= 2 * n {
      ModUnique(a, n, 2, a - 2 * n);
    } else if a >= n {
      ModUnique(a, n, 1, a - n);
    } else {
      ModUnique(a, n, 0, a);
    }
  }

  lemma MulAtLeast(d: int, n: int)
    requires d >= 1 && n >= 1
    ensures d * n >= n
  {
    assert d * n == (d - 1) * n + n;
  }

  /** The remainder is the unique `r` in `[0, n)` with `a = q*n + r`. */
  lemma ModUnique(a: int, n: int, q: int, r: int)
    requires n >= 1 && 0 <= r < n && a == q * n + r
    ensures a % n == r
  {
    var q' := a / n;
    var r' := a % n;
    assert a == q' * n + r';
    var d := q - q';
    assert d * n == r' - r by {
      assert q * n - q' * n == (q - q') * n;
    }
    // |r' - r| < n, so d is neither >= 1 nor <= -1
    if d >= 1 {
      MulAtLeast(d, n);
    } else if d <= -1 {
      MulAtLeast(-d, n);
    }
  }

  import opened Wrappers
}
