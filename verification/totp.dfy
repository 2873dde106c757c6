/** One-time codes: dynamic truncation, six digits, and the window of accepted counters. */
module Totp {
  import opened Decimals
  import opened Strings
  import opened Wrappers

  const DIGITS: nat := 6
  const PERIOD: int := 30
  const SKEW: int := 1
  const TWO_32: nat := 0x1_0000_0000
  const TWO_64: nat := 0x1_0000_0000_0000_0000

  type Byte = n: nat | n < 256

  // ---------------------------------------------------------------- bits

  function BitAnd(x: nat, y: nat): nat {
    if x == 0 || y == 0 then 0 else (x % 2) * (y % 2) + 2 * BitAnd(x / 2, y / 2)
  }

  function BitOr(x: nat, y: nat): nat
    decreases x + y
  {
    if x == 0 then y
    else if y == 0 then x
    else (if x % 2 == 1 || y % 2 == 1 then 1 else 0) + 2 * BitOr(x / 2, y / 2)
  }

  /** A shift of a uint32: bits pushed past the top are lost. */
  function ShiftLeft(x: nat, k: nat): nat {
    x * Power(2, k) % TWO_32
  }

  lemma {:induction false} PowerIsPositive(k: nat)
    ensures Power(2, k) >= 1
  {
    if k > 0 {
      PowerIsPositive(k - 1);
    }
  }

  lemma {:induction false} HalveModulo(x: nat, k: nat)
    requires k >= 1
    ensures Power(2, k - 1) >= 1 && Power(2, k) >= 1
    ensures x % Power(2, k) == x % 2 + 2 * (x / 2 % Power(2, k - 1))
  {
    PowerIsPositive(k - 1);
    var m := Power(2, k - 1);
    var q, r := x / 2 / m, x / 2 % m;
    assert x / 2 == q * m + r;
    assert x == q * (2 * m) + (2 * r + x % 2);
    Remainder(x, q, 2 * m, 2 * r + x % 2);
  }

  lemma {:induction false} Remainder(x: nat, q: nat, m: nat, r: nat)
    requires m >= 1 && r < m && x == q * m + r
    ensures x % m == r && x / m == q
  {
    var d: int := x / m - q;
    assert d * m == r - x % m;
    MultipleIsFar(d, m);
  }

  lemma {:induction false} MultipleIsFar(d: int, m: nat)
    ensures d >= 1 ==> d * m >= m
    ensures d <= -1 ==> d * m + m <= 0
  {
  }

  /** Masking with k ones keeps the k low bits. */
  lemma {:induction false} MaskIsModulo(x: nat, k: nat)
    ensures Power(2, k) >= 1 && BitAnd(x, Power(2, k) - 1) == x % Power(2, k)
  {
    PowerIsPositive(k);
    if k == 0 {
    } else {
      assert Power(2, k) == 2 * Power(2, k - 1);
      HalveModulo(x, k);
      MaskIsModulo(x / 2, k - 1);
      hide BitAnd, Power;
      MaskStep(x, Power(2, k - 1));
    }
  }

  lemma {:induction false} MaskStep(x: nat, m: nat)
    requires m >= 1
    ensures BitAnd(x, 2 * m - 1) == x % 2 + 2 * BitAnd(x / 2, m - 1)
  {
    assert (2 * m - 1) / 2 == m - 1 && (2 * m - 1) % 2 == 1;
  }

  /** Or-ing a number into the free low bits of another adds it. */
  lemma {:induction false} OrIsSum(high: nat, low: nat, k: nat)
    requires low < Power(2, k)
    ensures BitOr(high * Power(2, k), low) == high * Power(2, k) + low
  {
    if k > 0 && high > 0 && low > 0 {
      PowerIsPositive(k - 1);
      var x := high * Power(2, k - 1);
      assert high * Power(2, k) == 2 * x;
      assert x > 0;
      OrIsSum(high, low / 2, k - 1);
    } else if k == 0 {
      assert low == 0;
    }
  }

  // ---------------------------------------------------------------- bytes

  function BigEndian(bytes: seq<Byte>): nat {
    if bytes == [] then 0 else BigEndian(bytes[..|bytes| - 1]) * 256 + bytes[|bytes| - 1]
  }

  /** binary.BigEndian.PutUint64 */
  function PutUint(v: nat, width: nat): (bytes: seq<Byte>)
    ensures |bytes| == width
  {
    if width == 0 then [] else PutUint(v / 256, width - 1) + [v % 256]
  }

  lemma {:induction false} PutUintRoundTrip(v: nat, width: nat)
    requires v < Power(256, width)
    ensures BigEndian(PutUint(v, width)) == v
  {
    if width > 0 {
      PutUintRoundTrip(v / 256, width - 1);
    }
  }

  // ---------------------------------------------------------------- hotp

  /** HMAC-SHA-1 yields twenty bytes. */
  datatype Mac = Mac(sum: (seq<Byte>, seq<Byte>) -> seq<Byte>)

  ghost predicate MacLaw(mac: Mac) {
    forall key, text :: |mac.sum(key, text)| == 20
  }

  /** Section 5.3 of RFC 4226: the 31 low bits of the four bytes at the offset the last byte
      gives, as a big-endian number, modulo 10^6. */
  function Truncate(sum: seq<Byte>): (code: nat)
    requires |sum| == 20
  {
    var offset := sum[19] % 16;
    BigEndian(sum[offset..offset + 4]) % 0x8000_0000 % 1_000_000
  }

  function Code(mac: Mac, key: seq<Byte>, counter: nat): string
    requires MacLaw(mac)
  {
    Format(Truncate(mac.sum(key, PutUint(counter, 8))), DIGITS)
  }

  lemma {:induction false} Masks(x: Byte)
    ensures BitAnd(x, 0x0f) == x % 16 && BitAnd(x, 0x7f) == x % 128 && BitAnd(x, 0xff) == x
  {
    SmallPowers();
    hide BitAnd, Power;
    MaskIsModulo(x, 4);
    MaskIsModulo(x, 7);
    MaskIsModulo(x, 8);
  }

  method BinCode(sum: seq<Byte>) returns (code: nat)
    requires |sum| == 20
    ensures code == BigEndian(sum[sum[19] % 16..sum[19] % 16 + 4]) % 0x8000_0000
  {
    hide BitAnd, BitOr, BigEndian, Power;
    Masks(sum[|sum| - 1]);
    var offset := BitAnd(sum[|sum| - 1], 0x0f);
    assert offset == sum[19] % 16;
    code := BitOr(BitOr(BitOr(
                          ShiftLeft(BitAnd(sum[offset], 0x7f), 24),
                          ShiftLeft(BitAnd(sum[offset + 1], 0xff), 16)),
                        ShiftLeft(BitAnd(sum[offset + 2], 0xff), 8)),
                  BitAnd(sum[offset + 3], 0xff));
    FourBytes(sum[offset], sum[offset + 1], sum[offset + 2], sum[offset + 3]);
    assert sum[offset..offset + 4] == [sum[offset], sum[offset + 1], sum[offset + 2], sum[offset + 3]];
  }

  lemma {:induction false} SmallPowers()
    ensures Power(2, 4) == 16 && Power(2, 7) == 128 && Power(2, 8) == 256
    ensures Power(2, 16) == 0x1_0000 && Power(2, 24) == 0x100_0000
    ensures Power(10, 6) == 1_000_000
  {
    assert Power(2, 8) == 256;
    assert Power(2, 12) == 4096;
    assert Power(2, 16) == 0x1_0000;
    assert Power(2, 20) == 0x10_0000;
    assert Power(2, 24) == 0x100_0000;
  }

  /** The shifted and or-ed bytes are their big-endian value without its top bit. */
  lemma {:induction false} FourBytes(a: Byte, b: Byte, c: Byte, d: Byte)
    ensures BitOr(BitOr(BitOr(ShiftLeft(BitAnd(a, 0x7f), 24), ShiftLeft(BitAnd(b, 0xff), 16)),
                        ShiftLeft(BitAnd(c, 0xff), 8)),
                  BitAnd(d, 0xff)) == BigEndian([a, b, c, d]) % 0x8000_0000
  {
    FourBytesValue(a, b, c, d);
    hide BitAnd, BitOr, BigEndian, Power, ShiftLeft;
    Masks(a);
    Masks(b);
    Masks(c);
    Masks(d);
    Shifts(a % 128, b, c);
    OrBytes(a % 128, b, c, d);
  }

  lemma {:induction false} Shifts(a: Byte, b: Byte, c: Byte)
    requires a < 128
    ensures ShiftLeft(a, 24) == a * 0x100_0000 && ShiftLeft(b, 16) == b * 0x1_0000 && ShiftLeft(c, 8) == c * 0x100
  {
    SmallPowers();
    hide Power;
  }

  lemma {:induction false} OrBytes(a: Byte, b: Byte, c: Byte, d: Byte)
    ensures BitOr(BitOr(BitOr(a * 0x100_0000, b * 0x1_0000), c * 0x100), d)
            == a * 0x100_0000 + b * 0x1_0000 + c * 0x100 + d
  {
    SmallPowers();
    hide BitOr, Power;
    OrByte(a, b, 16);
    OrByte(a * 0x100 + b, c, 8);
    OrIsSum(a * 0x1_0000 + b * 0x100 + c, d, 8);
  }

  /** One more byte below, at bit k. */
  lemma {:induction false} OrByte(high: nat, byte: Byte, k: nat)
    ensures BitOr(high * 256 * Power(2, k), byte * Power(2, k)) == (high * 256 + byte) * Power(2, k)
  {
    SmallPowers();
    OrShifted(high * 256, byte, k);
    OrIsSum(high, byte, 8);
  }

  lemma {:induction false} OrDouble(x: nat, y: nat)
    ensures BitOr(2 * x, 2 * y) == 2 * BitOr(x, y)
  {
  }

  /** Or commutes with shifting both sides. */
  lemma {:induction false} OrShifted(x: nat, y: nat, k: nat)
    ensures BitOr(x * Power(2, k), y * Power(2, k)) == BitOr(x, y) * Power(2, k)
  {
    hide BitOr;
    if k > 0 {
      var p := Power(2, k - 1);
      OrShifted(x, y, k - 1);
      OrDouble(x * p, y * p);
      Doubled(x, p);
      Doubled(y, p);
      Doubled(BitOr(x, y), p);
    }
  }

  lemma {:induction false} Doubled(x: nat, p: nat)
    ensures x * (2 * p) == 2 * (x * p)
  {
  }

  lemma {:induction false} FourBytesValue(a: Byte, b: Byte, c: Byte, d: Byte)
    ensures BigEndian([a, b, c, d]) == a * 0x100_0000 + b * 0x1_0000 + c * 0x100 + d
    ensures BigEndian([a, b, c, d]) % 0x8000_0000 == a % 128 * 0x100_0000 + b * 0x1_0000 + c * 0x100 + d
  {
    assert [a, b, c, d][..3] == [a, b, c] && [a, b, c][..2] == [a, b] && [a, b][..1] == [a] && [a][..0] == [];
    assert BigEndian([a]) == a;
    assert BigEndian([a, b]) == a * 256 + b;
    assert BigEndian([a, b, c]) == (a * 256 + b) * 256 + c;
  }

  lemma {:induction false} PowersOfTen()
    ensures Power(10, 0) == 1 && Power(10, 1) == 10 && Power(10, 2) == 100 && Power(10, 3) == 1000
    ensures Power(10, 4) == 10_000 && Power(10, 5) == 100_000 && Power(10, 6) == 1_000_000
  {
  }

  method Hotp(mac: Mac, key: seq<Byte>, counter: nat) returns (code: string)
    requires MacLaw(mac) && counter < TWO_64
    ensures code == Code(mac, key, counter)
  {
    var sum := mac.sum(key, PutUint(counter, 8));
    var binCode := BinCode(sum);
    PowersOfTen();
    hide Power;
    var mod := 1;
    for i := 0 to DIGITS
      invariant mod == Power(10, i)
    {
      mod := mod * 10 % TWO_32;
    }
    code := Format(binCode % mod, DIGITS);
  }

  /** A code is six digits that read as the truncated value. */
  lemma {:induction false} CodeReads(mac: Mac, key: seq<Byte>, counter: nat)
    requires MacLaw(mac)
    ensures |Code(mac, key, counter)| == 6
    ensures forall i :: 0 <= i < 6 ==> IsDigit(Code(mac, key, counter)[i])
    ensures var sum := mac.sum(key, PutUint(counter, 8));
            && Value(Code(mac, key, counter)) == Truncate(sum)
            && Value(Code(mac, key, counter)) == BigEndian(sum[sum[19] % 16..sum[19] % 16 + 4]) % 0x8000_0000 % 1_000_000
  {
    SmallPowers();
    FormatReads(Truncate(mac.sum(key, PutUint(counter, 8))), 6);
  }

  // ---------------------------------------------------------------- validation

  /** Go's division of int64: toward zero. */
  function Quotient(x: int, y: int): int
    requires y > 0
  {
    if x >= 0 then x / y else -(-x / y)
  }

  /** uint64(...) of an int64 */
  function Wrapped(x: int): nat
    requires -0x8000_0000_0000_0000 <= x < 0x8000_0000_0000_0000
  {
    if x >= 0 then x else x + TWO_64
  }

  /** Seconds an int64 holds with a period to spare on both sides. */
  predicate Seconds(unix: int) {
    -0x7fff_ffff_ffff_ff00 <= unix < 0x7fff_ffff_ffff_ff00
  }

  function Counter(unix: int, skew: int): (counter: nat)
    requires Seconds(unix) && -SKEW <= skew <= SKEW
    ensures counter < TWO_64
  {
    Wrapped(Quotient(unix + skew * PERIOD, PERIOD))
  }

  /** base32 decoding and the alphabet's upper case. */
  datatype Encoding = Encoding(decode: string -> Option<seq<Byte>>, upper: string -> string, space: char -> bool)

  method ValidateTOTP(mac: Mac, enc: Encoding, secret: string, code: string, now: int) returns (ok: bool)
    requires MacLaw(mac) && Seconds(now)
    ensures ok <==>
            && enc.decode(enc.upper(secret)).Some?
            && exists skew ::
                 -SKEW <= skew <= SKEW
                 && TrimSpace(code, enc.space) == Code(mac, enc.decode(enc.upper(secret)).value, Counter(now, skew))
  {
    var trimmed := TrimSpace(code, enc.space);
    if |trimmed| != DIGITS {
      forall key, skew | -SKEW <= skew <= SKEW ensures trimmed != Code(mac, key, Counter(now, skew)) {
        CodeReads(mac, key, Counter(now, skew));
      }
      return false;
    }
    var key := enc.decode(enc.upper(secret));
    if key.None? {
      return false;
    }
    var skew := -SKEW;
    while skew <= SKEW
      invariant -SKEW <= skew <= SKEW + 1
      invariant forall s :: -SKEW <= s < skew ==> trimmed != Code(mac, key.value, Counter(now, s))
    {
      var expected := Hotp(mac, key.value, Counter(now, skew));
      if expected == trimmed {
        return true;
      }
      skew := skew + 1;
    }
    return false;
  }

  /** The counters tried are T-1, T and T+1 with T = floor(unix / 30), as section 4.2 and
      section 5.2 of RFC 6238 have it, exactly from the second period on: before, truncation
      toward zero or the wrap to uint64 gives something else. */
  lemma {:induction false} CountersExactly(unix: int)
    requires Seconds(unix)
    ensures (forall skew :: -SKEW <= skew <= SKEW ==> Counter(unix, skew) == unix / PERIOD + skew) <==> unix >= PERIOD
  {
    if unix >= PERIOD {
      forall skew | -SKEW <= skew <= SKEW ensures Counter(unix, skew) == unix / PERIOD + skew {
        assert (unix + skew * PERIOD) / PERIOD == unix / PERIOD + skew;
      }
    } else {
      assert Counter(unix, -1) != unix / PERIOD - 1;
    }
  }

  /** From the second period on, the codes accepted are those of T-1, T and T+1. */
  lemma {:induction false} WindowOfThree(mac: Mac, key: seq<Byte>, code: string, unix: int)
    requires MacLaw(mac) && Seconds(unix) && unix >= PERIOD
    ensures (exists skew :: -SKEW <= skew <= SKEW && code == Code(mac, key, Counter(unix, skew))) <==>
            exists counter: nat :: unix / PERIOD - 1 <= counter <= unix / PERIOD + 1 && code == Code(mac, key, counter)
  {
    hide Counter, Code;
    CountersExactly(unix);
    if counter: nat :| unix / PERIOD - 1 <= counter <= unix / PERIOD + 1 && code == Code(mac, key, counter) {
      var skew := counter - unix / PERIOD;
      assert Counter(unix, skew) == counter;
    }
  }

  /** Codes of two counters differ whenever their truncated values do. */
  lemma {:induction false} CodesTellValuesApart(mac: Mac, key: seq<Byte>, one: nat, other: nat)
    requires MacLaw(mac)
    ensures Code(mac, key, one) == Code(mac, key, other) <==>
            Truncate(mac.sum(key, PutUint(one, 8))) == Truncate(mac.sum(key, PutUint(other, 8)))
  {
    CodeReads(mac, key, one);
    CodeReads(mac, key, other);
  }
}
