/** Numbers printed with leading zeros, and how such texts compare. */
module Decimals {
  function Power(base: nat, k: nat): nat {
    if k == 0 then 1 else base * Power(base, k - 1)
  }

  predicate IsDigit(c: char) {
    '0' <= c <= '9'
  }

  function Decimal(n: nat): string {
    if n < 10 then ['0' + n as char] else Decimal(n / 10) + ['0' + (n % 10) as char]
  }

  function Pad(s: string, width: nat): string
    decreases width - |s|
  {
    if |s| < width then Pad("0" + s, width) else s
  }

  /** fmt.Sprintf("%0*d", width, n) */
  function Format(n: nat, width: nat): string {
    Pad(Decimal(n), width)
  }

  /** Reading the digits back. */
  function Value(s: string): nat
    requires forall i :: 0 <= i < |s| ==> IsDigit(s[i])
  {
    if s == "" then 0
    else
      assert IsDigit(s[|s| - 1]);
      Value(s[..|s| - 1]) * 10 + (s[|s| - 1] - '0') as nat
  }

  lemma {:induction false} DecimalReads(n: nat, width: nat)
    requires width >= 1 && n < Power(10, width)
    ensures 1 <= |Decimal(n)| <= width && forall i :: 0 <= i < |Decimal(n)| ==> IsDigit(Decimal(n)[i])
    ensures Value(Decimal(n)) == n
    decreases width
  {
    if n < 10 {
      assert Decimal(n)[..0] == "";
    } else {
      assert width > 1;
      DecimalReads(n / 10, width - 1);
      assert Decimal(n)[..|Decimal(n)| - 1] == Decimal(n / 10);
    }
  }

  lemma {:induction false} PadReads(s: string, width: nat)
    requires |s| <= width && forall i :: 0 <= i < |s| ==> IsDigit(s[i])
    ensures |Pad(s, width)| == width && forall i :: 0 <= i < width ==> IsDigit(Pad(s, width)[i])
    ensures Value(Pad(s, width)) == Value(s)
    decreases width - |s|
  {
    if |s| < width {
      ZeroInFront(s);
      PadReads("0" + s, width);
    }
  }

  lemma {:induction false} ZeroInFront(s: string)
    requires forall i :: 0 <= i < |s| ==> IsDigit(s[i])
    ensures Value("0" + s) == Value(s)
  {
    var t := "0" + s;
    if s == "" {
      assert t[..0] == "";
    } else {
      ZeroInFront(s[..|s| - 1]);
      assert t[..|t| - 1] == "0" + s[..|s| - 1];
    }
  }

  /** Below 10^width the format has exactly that many digits, and they read as the number. */
  lemma {:induction false} FormatReads(n: nat, width: nat)
    requires width >= 1 && n < Power(10, width)
    ensures |Format(n, width)| == width && forall i :: 0 <= i < width ==> IsDigit(Format(n, width)[i])
    ensures Value(Format(n, width)) == n
  {
    DecimalReads(n, width);
    PadReads(Decimal(n), width);
  }

  /** Go's < on strings, bytewise. */
  predicate Less(a: string, b: string) {
    b != "" && (a == "" || a[0] < b[0] || (a[0] == b[0] && Less(a[1..], b[1..])))
  }

  lemma {:induction false} ValueOfFirst(s: string)
    requires s != "" && forall i :: 0 <= i < |s| ==> IsDigit(s[i])
    ensures Value(s) == (s[0] - '0') as nat * Power(10, |s| - 1) + Value(s[1..])
    ensures Value(s[1..]) < Power(10, |s| - 1)
  {
    var n := |s| - 1;
    if n == 0 {
      assert s[..0] == "" && s[1..] == "";
    } else {
      ValueOfFirst(s[..n]);
      assert s[..n][1..] == s[1..][..n - 1];
      assert Value(s[1..]) == Value(s[1..][..n - 1]) * 10 + (s[n] - '0') as nat;
      var p := Power(10, n - 1);
      assert Power(10, n) == 10 * p;
      Scaled((s[0] - '0') as nat, p, Value(s[1..][..n - 1]), (s[n] - '0') as nat);
    }
  }

  lemma {:induction false} Scaled(first: nat, p: nat, middle: nat, last: nat)
    ensures (first * p + middle) * 10 + last == first * (10 * p) + (middle * 10 + last)
  {
  }

  /** Digit texts of one length compare as the numbers they read as. */
  lemma {:induction false} DigitsCompare(s: string, t: string)
    requires |s| == |t| && forall i :: 0 <= i < |s| ==> IsDigit(s[i]) && IsDigit(t[i])
    ensures Less(s, t) <==> Value(s) < Value(t)
    ensures Value(s) == Value(t) ==> s == t
  {
    hide Value, Power;
    if s == "" {
      assert t == "";
    } else {
      ValueOfFirst(s);
      ValueOfFirst(t);
      assert forall i :: 0 <= i < |s[1..]| ==> IsDigit(s[1..][i]) && IsDigit(t[1..][i]);
      DigitsCompare(s[1..], t[1..]);
      Leading((s[0] - '0') as nat, (t[0] - '0') as nat, Power(10, |s| - 1), Value(s[1..]), Value(t[1..]));
      assert s == [s[0]] + s[1..] && t == [t[0]] + t[1..];
    }
  }

  lemma {:induction false} Leading(a: nat, b: nat, p: nat, x: nat, y: nat)
    requires x < p && y < p
    ensures a * p + x < b * p + y <==> a < b || (a == b && x < y)
    ensures a * p + x == b * p + y <==> a == b && x == y
  {
    if a < b {
      MultipleOfMore(a, b - a, p);
    } else if b < a {
      MultipleOfMore(b, a - b, p);
    }
  }

  lemma {:induction false} MultipleOfMore(a: nat, d: nat, p: nat)
    requires d >= 1
    ensures (a + d) * p >= a * p + p
  {
    assert (a + d) * p == a * p + d * p;
  }

  /** Numbers printed to one width compare as numbers. */
  lemma {:induction false} FormatsCompare(m: nat, n: nat, width: nat)
    requires width >= 1 && m < Power(10, width) && n < Power(10, width)
    ensures |Format(m, width)| == |Format(n, width)| == width
    ensures Less(Format(m, width), Format(n, width)) <==> m < n
    ensures Format(m, width) == Format(n, width) <==> m == n
  {
    FormatReads(m, width);
    FormatReads(n, width);
    DigitsCompare(Format(m, width), Format(n, width));
  }
}
