/** The two decimal renderings the store relies on for order: itoaPad's fixed ten digits, and the
    "%06d" of a doc-ref chunk key, which pads to six digits but grows past them. */
module Decimals {
  import opened ByteStrings

  function Pow10(w: nat): (p: nat)
    ensures p >= 1
  {
    if w == 0 then 1 else 10 * Pow10(w - 1)
  }

  function Digit(d: nat): byte
    requires d < 10
  {
    (48 + d) as byte
  }

  /** The low `w` decimal digits of `n`, most significant first. */
  function LowDigits(n: nat, w: nat): (s: Bytes)
    ensures |s| == w
  {
    if w == 0 then [] else LowDigits(n / 10, w - 1) + [Digit(n % 10)]
  }

  /** fmt's "%0<w>d": at least `w` digits, and as many more as the number needs. */
  function Padded(n: nat, w: nat): Bytes
    decreases n, w
  {
    if n < 10 && w <= 1 then [Digit(n)]
    else Padded(n / 10, if w == 0 then 0 else w - 1) + [Digit(n % 10)]
  }

  function Parse(s: Bytes): int
  {
    if s == [] then 0 else 10 * Parse(s[..|s| - 1]) + (s[|s| - 1] as int - 48)
  }

  /** Reading a padded number gives the number back, so no two numbers print alike. */
  lemma {:induction false} ParsePadded(n: nat, w: nat)
    ensures Parse(Padded(n, w)) == n
    decreases n, w
  {
    if n < 10 && w <= 1 {
      assert Padded(n, w)[..0] == [];
      assert Parse([]) == 0;
    } else {
      var w' := if w == 0 then 0 else w - 1;
      ParsePadded(n / 10, w');
      assert Padded(n, w)[..|Padded(n, w)| - 1] == Padded(n / 10, w');
    }
  }

  lemma PaddedInjective(m: nat, n: nat, w: nat)
    requires Padded(m, w) == Padded(n, w)
    ensures m == n
  {
    ParsePadded(m, w);
    ParsePadded(n, w);
  }

  lemma {:induction false} PaddedFits(n: nat, w: nat)
    requires 1 <= w && n < Pow10(w)
    ensures Padded(n, w) == LowDigits(n, w)
    decreases w
  {
    if w == 1 {
      assert LowDigits(n / 10, 0) == [];
    } else {
      PaddedFits(n / 10, w - 1);
    }
  }

  /** At equal width, byte order is number order. */
  lemma {:induction false} LowDigitsOrder(m: nat, n: nat, w: nat)
    requires m < n < Pow10(w)
    ensures Less(LowDigits(m, w), LowDigits(n, w))
    decreases w
  {
    if m / 10 < n / 10 {
      LowDigitsOrder(m / 10, n / 10, w - 1);
      LessExtend(LowDigits(m / 10, w - 1), LowDigits(n / 10, w - 1), [Digit(m % 10)], [Digit(n % 10)]);
    } else {
      assert m / 10 == n / 10;
      assert PartsBelow(LowDigits(m, w), LowDigits(n, w), w - 1);
    }
  }

  lemma PaddedOrder(m: nat, n: nat, w: nat)
    requires 1 <= w && m < n < Pow10(w)
    ensures Less(Padded(m, w), Padded(n, w))
  {
    PaddedFits(m, w);
    PaddedFits(n, w);
    LowDigitsOrder(m, n, w);
  }

  /** The first number that outgrows "%06d" sorts among the six-digit ones: 1000000 comes before 100001. */
  lemma PaddedOrderBreaks()
    ensures Pow10(6) == 1_000_000
    ensures Less(Padded(1_000_000, 6), Padded(100_001, 6))
  {
    assert Pow10(6) == 1_000_000;
    MillionText();
    BelowMillionText();
    hide Padded;
    assert PartsBelow(Padded(1_000_000, 6), Padded(100_001, 6), 5);
  }

  lemma MillionText()
    ensures Padded(1_000_000, 6) == [49, 48, 48, 48, 48, 48, 48]
  {
    assert Padded(1, 0) == [49];
    assert Padded(10, 1) == [49, 48];
    assert Padded(100, 2) == [49, 48, 48];
    assert Padded(1_000, 3) == [49, 48, 48, 48];
    assert Padded(10_000, 4) == [49, 48, 48, 48, 48];
    assert Padded(100_000, 5) == [49, 48, 48, 48, 48, 48];
  }

  lemma BelowMillionText()
    ensures Padded(100_001, 6) == [49, 48, 48, 48, 48, 49]
  {
    PaddedFits(100_001, 6);
    assert LowDigits(1, 1) == [49];
    assert LowDigits(10, 2) == [49, 48];
    assert LowDigits(100, 3) == [49, 48, 48];
    assert LowDigits(1_000, 4) == [49, 48, 48, 48];
    assert LowDigits(10_000, 5) == [49, 48, 48, 48, 48];
  }

  const RUN_NAME_DIGITS := 10

  /** Run file names are distinct for the first 10^10 runs, and then start over. */
  lemma RunNamesDistinct(m: nat, n: nat)
    ensures m < Pow10(RUN_NAME_DIGITS) && n < Pow10(RUN_NAME_DIGITS) && m != n
            ==> LowDigits(m, RUN_NAME_DIGITS) != LowDigits(n, RUN_NAME_DIGITS)
    ensures LowDigits(n + Pow10(RUN_NAME_DIGITS), RUN_NAME_DIGITS) == LowDigits(n, RUN_NAME_DIGITS)
  {
    OrderLaws();
    if m < n < Pow10(RUN_NAME_DIGITS) { LowDigitsOrder(m, n, RUN_NAME_DIGITS); }
    if n < m < Pow10(RUN_NAME_DIGITS) { LowDigitsOrder(n, m, RUN_NAME_DIGITS); }
    LowDigitsWrap(n, RUN_NAME_DIGITS);
  }

  lemma {:induction false} LowDigitsWrap(n: nat, w: nat)
    ensures LowDigits(n + Pow10(w), w) == LowDigits(n, w)
  {
    if w > 0 {
      LowDigitsWrap(n / 10, w - 1);
      assert (n + Pow10(w)) / 10 == n / 10 + Pow10(w - 1);
    }
  }

  /** The source's itoaPad: fill ten bytes from the right. */
  method ItoaPad(n: nat) returns (s: Bytes)
    ensures s == LowDigits(n, RUN_NAME_DIGITS)
  {
    var b := new byte[RUN_NAME_DIGITS];
    var i, rest := b.Length, n;
    while i > 0
      invariant 0 <= i <= b.Length
      invariant LowDigits(n, RUN_NAME_DIGITS) == LowDigits(rest, i) + b[i..]
    {
      i := i - 1;
      ghost var tail := b[i + 1..];
      b[i] := Digit(rest % 10);
      assert b[i..] == [Digit(rest % 10)] + tail;
      assert LowDigits(rest, i + 1) == LowDigits(rest / 10, i) + [Digit(rest % 10)];
      rest := rest / 10;
    }
    s := b[..];
  }
}
