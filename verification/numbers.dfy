/** Fixed-width decimal account numbers: `longPow` and `parseAccountNumber`. */
module Numbers {
  import opened Bytes

  /** a raised to the n-th power, the reference for exponentiation by squaring. */
  function Pow(a: int, n: nat): int {
    if n == 0 then 1 else a * Pow(a, n - 1)
  }

  lemma {:induction false} PowAdd(a: int, m: nat, n: nat)
    ensures Pow(a, m + n) == Pow(a, m) * Pow(a, n)
  {
    if m > 0 {
      PowAdd(a, m - 1, n);
      assert Pow(a, m + n) == a * Pow(a, m - 1 + n);
    }
  }

  lemma {:induction false} PowSquare(a: int, n: nat)
    ensures Pow(a * a, n) == Pow(a, 2 * n)
  {
    if n > 0 {
      var rest := Pow(a, 2 * (n - 1));
      PowSquare(a, n - 1);
      assert Pow(a * a, n) == (a * a) * rest;
      PowAdd(a, 2, 2 * (n - 1));
      assert Pow(a, 1) == a * Pow(a, 0) == a;
      assert Pow(a, 2) == a * Pow(a, 1) == a * a;
      assert 2 + 2 * (n - 1) == 2 * n;
    }
  }

  /** One round of squaring: x^e = (x if e is odd) * (x*x)^(e/2). */
  lemma PowHalf(x: int, e: nat)
    ensures Pow(x, e) == (if e % 2 == 1 then x else 1) * Pow(x * x, e / 2)
  {
    PowSquare(x, e / 2);
    if e % 2 == 1 {
      assert e == 2 * (e / 2) + 1;
    } else {
      assert e == 2 * (e / 2);
    }
  }

  /** Exponentiation by squaring as the source writes it; a negative exponent never
      enters the loop and yields 1. */
  method LongPow(a: int, b: int) returns (r: int)
    ensures b >= 0 ==> r == Pow(a, b)
    ensures b < 0 ==> r == 1
  {
    r := 1;
    var sq := a;
    var e := b;
    while e > 0
      invariant b >= 0 ==> 0 <= e && r * Pow(sq, e) == Pow(a, b)
      invariant b < 0 ==> e == b && r == 1
    {
      PowHalf(sq, e);
      if e % 2 == 1 {
        r := r * sq;
      }
      sq := sq * sq;
      e := e / 2;
    }
  }

  /** The value of a digit string read most significant digit first, each byte
      contributing its signed value minus '0' (the source does not check that the
      bytes after the first are digits). */
  function DecimalValue(ds: seq<byte>): int {
    if |ds| == 0 then 0
    else DecimalValue(ds[..|ds| - 1]) * 10 + (JavaByte(ds[|ds| - 1]) - Zero as int)
  }

  /** Digit strings denote exactly the numbers below 10^width. */
  lemma {:induction false} DecimalValueRange(ds: seq<byte>)
    requires AllDigits(ds)
    ensures 0 <= DecimalValue(ds) < Pow(10, |ds|)
  {
    if |ds| > 0 {
      var init := ds[..|ds| - 1];
      assert AllDigits(init);
      DecimalValueRange(init);
      var d := JavaByte(ds[|ds| - 1]) - Zero as int;
      assert 0 <= d <= 9;
      assert DecimalValue(init) * 10 <= (Pow(10, |init|) - 1) * 10;
    }
  }

  /** Whatever the bytes, each contributes between -176 and 79 per place, so the value
      stays within these bounds (for ten bytes, far inside a signed 64-bit long). */
  lemma {:induction false} DecimalValueBound(ds: seq<byte>)
    ensures 20 - 20 * Pow(10, |ds|) <= DecimalValue(ds) <= 10 * Pow(10, |ds|) - 10
  {
    if |ds| > 0 {
      var init := ds[..|ds| - 1];
      DecimalValueBound(init);
      assert Pow(10, |ds|) == 10 * Pow(10, |init|);
    }
  }

  /** Reading one more byte shifts the value one decimal place and adds the byte. */
  lemma DecimalValueSnoc(buf: seq<byte>, pos: nat, next: nat)
    requires pos <= next < |buf|
    ensures DecimalValue(buf[pos..next + 1]) == DecimalValue(buf[pos..next]) * 10 + (JavaByte(buf[next]) - Zero as int)
  {
    assert buf[pos..next + 1][..next - pos] == buf[pos..next];
  }

  /** Adding a digit at place `p` to a value held at place `10 * p`. */
  lemma PlaceShift(before: int, d: int, p: int)
    ensures before * (10 * p) + d * p == (before * 10 + d) * p
  {
  }

  /** The range of a Java `long`. */
  const LongMin: int := -0x8000_0000_0000_0000
  const LongMax: int := 0x7FFF_FFFF_FFFF_FFFF

  /** `parseAccountNumber`: reads ten bytes starting at `pos`, the first weighted by
      10^9 and the rest by `LongPow(10, i)` for i from 8 down to 0. */
  method ParseAccountNumber(buf: seq<byte>, pos: nat) returns (value: int, next: nat)
    requires pos + 10 <= |buf|
    ensures next == pos + 10
    ensures value == DecimalValue(buf[pos..next])
    ensures AllDigits(buf[pos..next]) ==> 0 <= value < 10_000_000_000
    ensures LongMin <= value <= LongMax
  {
    value := (JavaByte(buf[pos]) - Zero as int) * 1_000_000_000;
    next := pos + 1;
    assert buf[pos..next][..0] == [];
    var i := 8;
    while i >= 0
      invariant -1 <= i <= 8
      invariant next == pos + 9 - i
      invariant value == DecimalValue(buf[pos..next]) * Pow(10, i + 1)
    {
      var p := LongPow(10, i);
      var d := JavaByte(buf[next]) - Zero as int;
      DecimalValueSnoc(buf, pos, next);
      PlaceShift(DecimalValue(buf[pos..next]), d, p);
      value := value + d * p;
      next := next + 1;
      i := i - 1;
    }
    if AllDigits(buf[pos..next]) {
      DecimalValueRange(buf[pos..next]);
    }
    DecimalValueBound(buf[pos..next]);
    assert Pow(10, 10) == 10_000_000_000;
  }

  /** The `width`-digit zero-padded decimal rendering of `n` (its low `width` digits). */
  function Digits(n: nat, width: nat): (r: seq<byte>)
    ensures |r| == width && AllDigits(r)
  {
    if width == 0 then []
    else Digits(n / 10, width - 1) + [(Zero as int + n % 10) as byte]
  }

  /** Rendering a number that fits in `width` digits and reading it back gives the number. */
  lemma {:induction false} DigitsRoundTrip(n: nat, width: nat)
    requires n < Pow(10, width)
    ensures DecimalValue(Digits(n, width)) == n
  {
    if width > 0 {
      var ds := Digits(n, width);
      assert ds[..width - 1] == Digits(n / 10, width - 1);
      assert n / 10 < Pow(10, width - 1);
      DigitsRoundTrip(n / 10, width - 1);
      assert JavaByte(ds[width - 1]) - Zero as int == n % 10;
    }
  }

  /** Reading a digit string and rendering the value at the same width gives the string back. */
  lemma {:induction false} DecimalValueRoundTrip(ds: seq<byte>)
    requires AllDigits(ds)
    ensures DecimalValue(ds) >= 0 && Digits(DecimalValue(ds), |ds|) == ds
  {
    DecimalValueRange(ds);
    if |ds| > 0 {
      var init := ds[..|ds| - 1];
      assert AllDigits(init);
      DecimalValueRoundTrip(init);
      var v := DecimalValue(init);
      var d := JavaByte(ds[|ds| - 1]) - Zero as int;
      assert 0 <= d <= 9;
      assert (v * 10 + d) / 10 == v;
      assert (v * 10 + d) % 10 == d;
      assert ds == init + [ds[|ds| - 1]];
    }
  }
}
