/** String helpers the bot's validators and formatters are built from:
    ASCII digits (`\d` in a regular expression without the `u` flag),
    `Number()` on digit strings, `toString()` and `padStart` on
    non-negative integers, and `split`/`join` on a one-character separator. */
module Text {

  predicate IsDigit(c: char) {
    '0' <= c <= '9'
  }

  predicate AllDigits(s: string) {
    forall i :: 0 <= i < |s| ==> IsDigit(s[i])
  }

  function DigitValue(c: char): (d: nat)
    requires IsDigit(c)
    ensures d < 10
  {
    c as int - '0' as int
  }

  function Digit(d: nat): (c: char)
    requires d < 10
    ensures IsDigit(c) && DigitValue(c) == d
  {
    ('0' as int + d) as char
  }

  /** The value of a decimal digit string, most significant digit first;
      the empty string is 0. */
  function DigitsValue(s: string): nat
    requires AllDigits(s)
    decreases |s|
  {
    if |s| == 0 then 0 else DigitsValue(s[..|s| - 1]) * 10 + DigitValue(s[|s| - 1])
  }

  function Pow10(w: nat): (p: nat)
    ensures p >= 1
  {
    if w == 0 then 1 else 10 * Pow10(w - 1)
  }

  /** `n.toString()` for a non-negative integer: its decimal digits with no
      leading zero. */
  function ToDecimal(n: nat): (s: string)
    ensures 1 <= |s| && AllDigits(s) && DigitsValue(s) == n
    ensures |s| > 1 ==> s[0] != '0'
    decreases n
  {
    if n < 10 then [Digit(n)]
    else
      var front := ToDecimal(n / 10);
      var s := front + [Digit(n % 10)];
      assert s[..|s| - 1] == front;
      s
  }

  function Repeat(c: char, k: nat): (s: string)
    ensures |s| == k && forall i :: 0 <= i < k ==> s[i] == c
  {
    if k == 0 then [] else [c] + Repeat(c, k - 1)
  }

  /** `s.padStart(width, fill)`: `s` preceded by as many `fill` characters as
      it takes to reach `width`; `s` itself when it is already that long. */
  function PadStart(s: string, width: nat, fill: char): (r: string)
    ensures |r| == if |s| >= width then |s| else width
    ensures r[|r| - |s|..] == s
    ensures forall i :: 0 <= i < |r| - |s| ==> r[i] == fill
  {
    if |s| >= width then s else Repeat(fill, width - |s|) + s
  }

  /** `n.toString().padStart(width, '0')`. */
  function Pad(n: nat, width: nat): string {
    PadStart(ToDecimal(n), width, '0')
  }

  lemma {:induction false} DecimalWidth(n: nat, w: nat)
    requires 1 <= w && n < Pow10(w)
    ensures |ToDecimal(n)| <= w
    decreases n
  {
    if n >= 10 {
      assert Pow10(1) == 10;
      assert w >= 2;
      assert n / 10 < Pow10(w - 1);
      DecimalWidth(n / 10, w - 1);
    }
  }

  lemma {:induction false} LeadingZeros(k: nat, s: string)
    requires AllDigits(s)
    ensures AllDigits(Repeat('0', k) + s)
    ensures DigitsValue(Repeat('0', k) + s) == DigitsValue(s)
    decreases |s|
  {
    var z := Repeat('0', k) + s;
    if |s| == 0 {
      assert z == Repeat('0', k);
      ZerosValue(k);
    } else {
      assert z[..|z| - 1] == Repeat('0', k) + s[..|s| - 1];
      LeadingZeros(k, s[..|s| - 1]);
    }
  }

  lemma {:induction false} ZerosValue(k: nat)
    ensures AllDigits(Repeat('0', k)) && DigitsValue(Repeat('0', k)) == 0
  {
    if k > 0 {
      assert Repeat('0', k)[..k - 1] == Repeat('0', k - 1);
      ZerosValue(k - 1);
    }
  }

  /** A non-negative integer below 10^width, zero-padded to `width`, is
      exactly `width` digits that read back as that integer. */
  lemma PadDigits(n: nat, width: nat)
    requires 1 <= width && n < Pow10(width)
    ensures |Pad(n, width)| == width
    ensures AllDigits(Pad(n, width)) && DigitsValue(Pad(n, width)) == n
  {
    var s := ToDecimal(n);
    DecimalWidth(n, width);
    PadShape(n, width);
    ZeroPadded(s, width);
  }

  lemma ZeroPadded(s: string, width: nat)
    requires AllDigits(s) && |s| <= width
    ensures var z := Repeat('0', width - |s|) + s;
      |z| == width && AllDigits(z) && DigitsValue(z) == DigitsValue(s)
  {
    LeadingZeros(width - |s|, s);
  }

  /** Padding a number that fits puts zeros in front of its digits. */
  lemma PadShape(n: nat, width: nat)
    requires |ToDecimal(n)| <= width
    ensures Pad(n, width) == Repeat('0', width - |ToDecimal(n)|) + ToDecimal(n)
  {
    if |ToDecimal(n)| == width {
      assert Repeat('0', 0) == [];
    }
  }

  /** Two-digit padding written out character by character. */
  lemma Pad2Chars(a: nat, b: nat)
    requires a < 10 && b < 10
    ensures Pad(10 * a + b, 2) == [Digit(a), Digit(b)]
  {
    var n := 10 * a + b;
    DivMod10(a, b);
    if a == 0 {
      assert ToDecimal(n) == [Digit(b)];
    } else {
      assert ToDecimal(n) == ToDecimal(a) + [Digit(b)];
      assert ToDecimal(a) == [Digit(a)];
    }
  }

  lemma DivMod10(a: nat, b: nat)
    requires b < 10
    ensures (10 * a + b) / 10 == a && (10 * a + b) % 10 == b
  {
  }

  lemma TwoDigitsValue(s: string)
    requires |s| == 2 && AllDigits(s)
    ensures DigitsValue(s) == 10 * DigitValue(s[0]) + DigitValue(s[1])
  {
    var front := s[..1];
    assert front[..0] == [] && front[0] == s[0];
    assert DigitsValue(front) == DigitsValue(front[..0]) * 10 + DigitValue(s[0]);
    assert DigitsValue(s) == DigitsValue(front) * 10 + DigitValue(s[1]);
  }

  /** Every two-digit string is the two-digit padding of its own value. */
  lemma PadOfTwoDigits(s: string)
    requires |s| == 2 && AllDigits(s)
    ensures DigitsValue(s) < 100 && Pad(DigitsValue(s), 2) == s
  {
    TwoDigitsValue(s);
    Pad2Chars(DigitValue(s[0]), DigitValue(s[1]));
    DigitOfValue(s[0]);
    DigitOfValue(s[1]);
  }

  lemma DigitOfValue(c: char)
    requires IsDigit(c)
    ensures Digit(DigitValue(c)) == c
  {
  }

  // ---------------------------------------------------------------------------
  // Number()

  /** A JavaScript number produced by `Number(...)`. Only digit strings are
      computed; any other text is kept as it is (JavaScript may read it as
      NaN, or as a signed, decimal, exponent or hexadecimal value). */
  datatype JsNumber = Num(value: nat) | Unmodelled(text: string)

  /** `Number(s)` for a string `s` ("" is 0, as in JavaScript). */
  function ToNumber(s: string): (x: JsNumber)
    ensures x.Num? <==> AllDigits(s)
    ensures AllDigits(s) ==> x.value == DigitsValue(s)
  {
    if AllDigits(s) then Num(DigitsValue(s)) else Unmodelled(s)
  }

  // ---------------------------------------------------------------------------
  // split and join

  /** `s.split(sep)` for a one-character separator: the maximal pieces
      between separators, in order; never empty ("" splits to [""]). */
  function Split(s: string, sep: char): (parts: seq<string>)
    ensures |parts| >= 1
    ensures forall i :: 0 <= i < |parts| ==> sep !in parts[i]
    ensures Join(parts, sep) == s
    decreases |s|
  {
    if |s| == 0 then [""]
    else
      var rest := Split(s[1..], sep);
      if s[0] == sep then
        var parts := [""] + rest;
        assert parts[1..] == rest;
        assert s == [sep] + s[1..];
        parts
      else
        var parts := [[s[0]] + rest[0]] + rest[1..];
        assert s == [s[0]] + s[1..];
        if |rest| == 1 then parts
        else
          assert parts[1..] == rest[1..];
          assert Join(rest, sep) == rest[0] + [sep] + Join(rest[1..], sep);
          parts
  }

  /** `parts.join(sep)`. */
  function Join(parts: seq<string>, sep: char): string
    decreases |parts|
  {
    if |parts| == 0 then ""
    else if |parts| == 1 then parts[0]
    else parts[0] + [sep] + Join(parts[1..], sep)
  }

  /** A join of at least one piece begins with the first piece. */
  lemma JoinStartsWithFirst(parts: seq<string>, sep: char)
    requires |parts| >= 1
    ensures parts[0] <= Join(parts, sep)
  {
    if |parts| > 1 {
      assert Join(parts, sep) == parts[0] + ([sep] + Join(parts[1..], sep));
    }
  }

  /** The number of occurrences of `c` in `s`. */
  function Count(s: string, c: char): nat
    decreases |s|
  {
    if |s| == 0 then 0 else (if s[0] == c then 1 else 0) + Count(s[1..], c)
  }

  lemma {:induction false} SplitOfPlain(a: string, sep: char)
    requires sep !in a
    ensures Split(a, sep) == [a]
    decreases |a|
  {
    if |a| > 0 {
      assert sep !in a[1..];
      SplitOfPlain(a[1..], sep);
    }
  }

  lemma {:induction false} SplitAfterPlain(a: string, sep: char, t: string)
    requires sep !in a
    ensures Split(a + [sep] + t, sep) == [a] + Split(t, sep)
    decreases |a|
  {
    var s := a + [sep] + t;
    if |a| == 0 {
      assert s[1..] == t;
    } else {
      assert s[1..] == a[1..] + [sep] + t;
      assert sep !in a[1..];
      SplitAfterPlain(a[1..], sep, t);
      assert a == [a[0]] + a[1..];
    }
  }

  /** Joining pieces that do not contain the separator and splitting again
      gives the pieces back. */
  lemma {:induction false} SplitJoin(parts: seq<string>, sep: char)
    requires |parts| >= 1
    requires forall i :: 0 <= i < |parts| ==> sep !in parts[i]
    ensures Split(Join(parts, sep), sep) == parts
    decreases |parts|
  {
    if |parts| == 1 {
      SplitOfPlain(parts[0], sep);
    } else {
      SplitAfterPlain(parts[0], sep, Join(parts[1..], sep));
      SplitJoin(parts[1..], sep);
    }
  }

  /** A string has one more piece than it has separators. */
  lemma {:induction false} SplitCount(s: string, sep: char)
    ensures |Split(s, sep)| == Count(s, sep) + 1
    decreases |s|
  {
    if |s| > 0 {
      SplitCount(s[1..], sep);
    }
  }

  /** A string that holds `c` counts it at least once. */
  lemma {:induction false} CountPositive(s: string, c: char)
    requires c in s
    ensures Count(s, c) > 0
    decreases |s|
  {
    if s[0] != c {
      assert c in s[1..];
      CountPositive(s[1..], c);
    }
  }

  /** Joining n pieces free of the separator puts exactly n - 1 separators
      into the result. */
  lemma JoinCount(parts: seq<string>, sep: char)
    requires |parts| >= 1
    requires forall i :: 0 <= i < |parts| ==> sep !in parts[i]
    ensures Count(Join(parts, sep), sep) == |parts| - 1
  {
    SplitJoin(parts, sep);
    SplitCount(Join(parts, sep), sep);
  }
}
