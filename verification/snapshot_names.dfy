/**
 * The file name of a numbered training snapshot, `f"epoch_{epoch:03}.pt"`
 * (dino/patch.py), together with the parser that inverts it. The parser is
 * not part of the training script; it is the partner that shows the naming
 * scheme never maps two epochs to the same file.
 */
module SnapshotNames {
  import opened Wrappers

  /** The decimal digit character for `d`. */
  function DigitChar(d: nat): (c: char)
    requires d < 10
    ensures IsDigit(c) && DigitOf(c) == d
  {
    (('0' as int) + d) as char
  }

  predicate IsDigit(c: char) {
    '0' <= c <= '9'
  }

  /** The value of one decimal digit character. */
  function DigitOf(c: char): nat
    requires IsDigit(c)
  {
    (c as int) - ('0' as int)
  }

  predicate AllDigits(s: string) {
    forall i :: 0 <= i < |s| ==> IsDigit(s[i])
  }

  /** `str(n)` for a non-negative integer: decimal digits without leading zeros. */
  function Decimal(n: nat): string
    decreases n
  {
    if n < 10 then [DigitChar(n)] else Decimal(n / 10) + [DigitChar(n % 10)]
  }

  /** The number a string of digits denotes; leading zeros are allowed, as for `int(s)`. */
  function DigitsValue(s: string): nat
    requires AllDigits(s)
  {
    if s == [] then 0 else DigitsValue(s[..|s| - 1]) * 10 + DigitOf(s[|s| - 1])
  }

  /** `k` zero characters. */
  function Zeros(k: nat): string {
    seq(k, _ => '0')
  }

  /** Left-pads `s` with zeros up to `width` characters; a longer `s` is kept whole. */
  function ZeroPad(s: string, width: nat): string {
    if |s| < width then Zeros(width - |s|) + s else s
  }

  /**
   * Python's `format(n, "03")`: width three, zero padding placed after the
   * sign, so -5 becomes "-05" and 1234 stays "1234".
   */
  function Format03(n: int): string {
    if 0 <= n then ZeroPad(Decimal(n), 3) else "-" + ZeroPad(Decimal(-n), 2)
  }

  /** `str(n)` is a non-empty digit string with no leading zero; its length grows with `n`. */
  lemma {:induction false} DecimalShape(n: nat)
    ensures 1 <= |Decimal(n)| && AllDigits(Decimal(n))
    ensures Decimal(n)[0] == '0' <==> n == 0
    ensures n < 10 <==> |Decimal(n)| == 1
    ensures n < 100 <==> |Decimal(n)| <= 2
    ensures n < 1000 <==> |Decimal(n)| <= 3
    decreases n
  {
    if n >= 10 {
      DecimalShape(n / 10);
    }
  }

  /** Padding keeps the digits at the end, puts only zeros in front, and reaches the width. */
  lemma ZeroPadShape(s: string, width: nat)
    ensures |ZeroPad(s, width)| == if |s| < width then width else |s|
    ensures ZeroPad(s, width)[|ZeroPad(s, width)| - |s|..] == s
    ensures forall i :: 0 <= i < |ZeroPad(s, width)| - |s| ==> ZeroPad(s, width)[i] == '0'
  {
  }

  /**
   * A formatted epoch has at least three characters: exactly three below
   * 1000, otherwise just the digits of the epoch, with no zero in front of a
   * number that already has three digits. It denotes the epoch, after a minus
   * sign when negative; the sign counts towards the width, so a negative epoch
   * is padded to two digits.
   */
  lemma Format03Shape(n: int)
    ensures 3 <= |Format03(n)|
    ensures 0 <= n ==> |Format03(n)| == if n < 1000 then 3 else |Decimal(n)|
    ensures 100 <= n ==> Format03(n)[0] != '0'
    ensures 0 <= n ==> AllDigits(Format03(n)) && DigitsValue(Format03(n)) == n
    ensures n < 0 ==> |Format03(n)| == if -n < 100 then 3 else 1 + |Decimal(-n)|
    ensures n <= -10 ==> Format03(n)[1] != '0'
    ensures n < 0 ==> Format03(n)[0] == '-' && AllDigits(Format03(n)[1..]) && DigitsValue(Format03(n)[1..]) == -n
  {
    if 0 <= n {
      DecimalShape(n);
      PaddedShape(n, 3);
    } else {
      DecimalShape(-n);
      PaddedShape(-n, 2);
      assert Format03(n)[1..] == ZeroPad(Decimal(-n), 2);
    }
  }

  /** A number zero-padded to two or three digits: its length, leading digit and value. */
  lemma PaddedShape(m: nat, w: nat)
    requires w == 2 || w == 3
    ensures |ZeroPad(Decimal(m), w)| == if |Decimal(m)| < w then w else |Decimal(m)|
    ensures w <= |Decimal(m)| ==> ZeroPad(Decimal(m), w)[0] != '0'
    ensures AllDigits(ZeroPad(Decimal(m), w)) && DigitsValue(ZeroPad(Decimal(m), w)) == m
  {
    DecimalShape(m);
    ZeroPadShape(Decimal(m), w);
    ZeroPadValue(Decimal(m), w);
    if w <= |Decimal(m)| {
      assert ZeroPad(Decimal(m), w)[0] == Decimal(m)[0];
    }
    DecimalValue(m);
  }

  /** The name of the numbered snapshot for `epoch`, relative to the snapshot directory. */
  function SnapshotName(epoch: int): string {
    "epoch_" + Format03(epoch) + ".pt"
  }

  /** Inverse of `Format03`: the integer a formatted epoch denotes, if any. */
  function ParseFormatted(s: string): Option<int> {
    if 2 <= |s| && s[0] == '-' && AllDigits(s[1..]) then Some(-(DigitsValue(s[1..]) as int))
    else if 1 <= |s| && AllDigits(s) then Some(DigitsValue(s))
    else None
  }

  /** Inverse of `SnapshotName`: the epoch a numbered snapshot name stands for, if any. */
  function EpochOfSnapshotName(name: string): Option<int> {
    if 9 <= |name| && name[..6] == "epoch_" && name[|name| - 3..] == ".pt"
    then ParseFormatted(name[6..|name| - 3])
    else None
  }

  lemma DigitsValueSnoc(s: string, c: char)
    requires AllDigits(s) && IsDigit(c)
    ensures AllDigits(s + [c])
    ensures DigitsValue(s + [c]) == DigitsValue(s) * 10 + DigitOf(c)
  {
    assert (s + [c])[..|s|] == s;
  }

  /** Reading back `str(n)` gives `n`. */
  lemma {:induction false} DecimalValue(n: nat)
    ensures AllDigits(Decimal(n)) && DigitsValue(Decimal(n)) == n
    decreases n
  {
    DecimalShape(n);
    if n >= 10 {
      DecimalValue(n / 10);
      DigitsValueSnoc(Decimal(n / 10), DigitChar(n % 10));
    }
  }

  /** Leading zeros do not change the value of a digit string. */
  lemma {:induction false} ZerosValue(k: nat, s: string)
    requires AllDigits(s)
    ensures AllDigits(Zeros(k) + s)
    ensures DigitsValue(Zeros(k) + s) == DigitsValue(s)
    decreases |s| + k
  {
    if s == [] {
      assert Zeros(k) + s == Zeros(k);
      if k > 0 {
        assert Zeros(k)[..k - 1] == Zeros(k - 1);
        ZerosValue(k - 1, []);
        assert Zeros(k - 1) + [] == Zeros(k - 1);
      }
    } else {
      var init, last := s[..|s| - 1], s[|s| - 1];
      assert s == init + [last];
      ZerosValue(k, init);
      assert Zeros(k) + s == (Zeros(k) + init) + [last];
      DigitsValueSnoc(Zeros(k) + init, last);
      DigitsValueSnoc(init, last);
    }
  }

  /** Zero padding does not change the value of a digit string. */
  lemma ZeroPadValue(s: string, width: nat)
    requires AllDigits(s)
    ensures AllDigits(ZeroPad(s, width)) && DigitsValue(ZeroPad(s, width)) == DigitsValue(s)
  {
    if |s| < width {
      ZerosValue(width - |s|, s);
    }
  }

  /** Parsing a formatted epoch gives the epoch back. */
  lemma ParseFormat03(n: int)
    ensures ParseFormatted(Format03(n)) == Some(n)
  {
    Format03Shape(n);
  }

  /** Round trip: the epoch can be read back from its snapshot file name. */
  lemma SnapshotNameRoundTrip(epoch: int)
    ensures EpochOfSnapshotName(SnapshotName(epoch)) == Some(epoch)
  {
    var name, f := SnapshotName(epoch), Format03(epoch);
    assert name == "epoch_" + f + ".pt";
    assert name[..6] == "epoch_";
    assert name[|name| - 3..] == ".pt";
    assert name[6..|name| - 3] == f;
    ParseFormat03(epoch);
  }

  /** Two different epochs never share a snapshot file. */
  lemma SnapshotNameInjective(a: int, b: int)
    requires SnapshotName(a) == SnapshotName(b)
    ensures a == b
  {
    SnapshotNameRoundTrip(a);
    SnapshotNameRoundTrip(b);
  }
}
