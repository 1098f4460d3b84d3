/** The 32-bit preference key of a controller address, and why two addresses never share one. */
module PreferenceKey {
  import opened Words

  const FNV1_OFFSET_BASIS := 2166136261
  const FNV1_PRIME := 16777619

  datatype Address = Address(b0: Byte, b1: Byte, b2: Byte)

  /** `h ^ b` for a word and one byte: only the low byte changes. */
  function XorByte(h: Word, b: Byte): (r: Word) {
    XorBound(h % 256, b, 256);
    h / 256 * 256 + Xor(h % 256, b)
  }

  /** One FNV round. */
  function Mix(h: Word, b: Byte): Word { XorByte(h, b) * FNV1_PRIME % WORD }

  function Key(id: Address): Word {
    Mix(Mix(Mix(Mix(Mix(FNV1_OFFSET_BASIS, '1' as int), 'W' as int), id.b0), id.b1), id.b2)
  }

  /** Two rounds cannot bring states that differ in their low byte back to states that agree above it. */
  lemma NoCancellation(d: int, f: int, e: int, k: int, q: int)
    requires -255 <= d <= 255 && -510 <= f <= 510 && -255 <= e <= 255
    requires 162409 * d + 403 * f - e == k * 16777216
    requires 38 * d + f + k == 256 * q
    ensures d == 0
  {
    assert -2 <= k <= 2;
    if k == 0 {
    } else if k == 1 {
    } else if k == 2 {
    } else if k == -1 {
    } else {
    }
  }

  /** One round: what equality, or agreement above the low byte, of the results says about the arguments. */
  lemma MixDifference(h: Word, h': Word, b: Byte, b': Byte) returns (q: int)
    ensures Mix(h, b) - Mix(h', b') == (XorByte(h, b) - XorByte(h', b')) * FNV1_PRIME - q * WORD
  {
    var y, y' := XorByte(h, b) * FNV1_PRIME, XorByte(h', b') * FNV1_PRIME;
    q := y / WORD - y' / WORD;
    assert y == y / WORD * WORD + y % WORD && y' == y' / WORD * WORD + y' % WORD;
  }

  lemma XorByteInjective(h: Word, b: Byte, b': Byte)
    requires XorByte(h, b) == XorByte(h, b')
    ensures b == b'
  {
    XorInjective(h % 256, b, b');
  }

  lemma XorByteLow(h: Word, b: Byte)
    ensures XorByte(h, b) / 256 == h / 256 && h - 255 <= XorByte(h, b) <= h + 255
  {
    XorBound(h % 256, b, 256);
  }

  /** Equal results of one round come from states that agree above the low byte. */
  lemma MixEqual(h: Word, h': Word, b: Byte, b': Byte)
    requires Mix(h, b) == Mix(h', b')
    ensures XorByte(h, b) == XorByte(h', b') && h / 256 == h' / 256
  {
    var q := MixDifference(h, h', b, b');
    var x := XorByte(h, b) - XorByte(h', b');
    assert x * FNV1_PRIME == q * WORD;
    OddFactor(x, q);
    XorByteLow(h, b);
    XorByteLow(h', b');
  }

  /** The prime is invertible modulo 2^32. */
  lemma OddFactor(x: int, q: int)
    requires x * FNV1_PRIME == q * WORD && -WORD < x < WORD
    ensures x == 0
  {
    var inverse := 899433627;
    assert FNV1_PRIME * inverse == 1 + 3513497 * WORD;
    assert x == WORD * (q * inverse - 3513497 * x);
  }

  /** The middle rounds: states that came from one state through different bytes never meet again. */
  lemma FirstByte(s: Word, x: Address, y: Address)
    requires Mix(Mix(Mix(s, x.b0), x.b1), x.b2) == Mix(Mix(Mix(s, y.b0), y.b1), y.b2)
    ensures x.b0 == y.b0
  {
    var u, u' := Mix(s, x.b0), Mix(s, y.b0);
    var v, v' := Mix(u, x.b1), Mix(u', y.b1);
    MixEqual(v, v', x.b2, y.b2);
    SameHigh(v, v');
    Diffused(s, x.b0, y.b0, x.b1, y.b1);
  }

  lemma Diffused(s: Word, a: Byte, a': Byte, b: Byte, b': Byte)
    requires -255 <= Mix(Mix(s, a), b) - Mix(Mix(s, a'), b') <= 255
    ensures a == a'
  {
    var d, q1 := SameState(s, a, a');
    var f, q2 := TwoStates(Mix(s, a), Mix(s, a'), b, b');
    TwoRounds(d, Mix(s, a) - Mix(s, a'), f, Mix(Mix(s, a), b) - Mix(Mix(s, a'), b'), q1, q2);
  }

  lemma SameState(s: Word, a: Byte, a': Byte) returns (d: int, q: int)
    ensures Mix(s, a) - Mix(s, a') == d * FNV1_PRIME - q * WORD
    ensures -255 <= d <= 255 && (d == 0 ==> a == a')
  {
    q := MixDifference(s, s, a, a');
    d := XorByte(s, a) - XorByte(s, a');
    XorByteLow(s, a);
    XorByteLow(s, a');
    SameHigh(XorByte(s, a), XorByte(s, a'));
    if d == 0 { XorByteInjective(s, a, a'); }
  }

  lemma TwoStates(u: Word, u': Word, b: Byte, b': Byte) returns (f: int, q: int)
    ensures Mix(u, b) - Mix(u', b') == (u - u' + f) * FNV1_PRIME - q * WORD
    ensures -510 <= f <= 510
  {
    q := MixDifference(u, u', b, b');
    f := XorByte(u, b) - XorByte(u', b') - (u - u');
    XorByteLow(u, b);
    XorByteLow(u', b');
  }

  lemma SameHigh(a: Word, b: Word)
    requires a / 256 == b / 256
    ensures -255 <= a - b <= 255
  {
  }

  /** `d` and `f` are the low-byte differences fed to two rounds, `u` and `e` the differences after each. */
  lemma TwoRounds(d: int, u: int, f: int, e: int, q1: int, q2: int)
    requires -255 <= d <= 255 && -510 <= f <= 510 && -255 <= e <= 255
    requires u == d * FNV1_PRIME - q1 * WORD && e == (u + f) * FNV1_PRIME - q2 * WORD
    ensures d == 0
  {
    var q := q1 * FNV1_PRIME + q2;
    assert e == d * 281488499309161 + f * FNV1_PRIME - q * WORD;
    var t := 16777216 * d + 806 * d + f;
    NoCancellation(d, f, e, 256 * q - t, q - 65539 * d);
  }

  /** Distinct controller addresses have distinct preference keys, over all 2^24 addresses. */
  lemma KeyInjective(x: Address, y: Address)
    requires Key(x) == Key(y)
    ensures x == y
  {
    var s := Mix(Mix(FNV1_OFFSET_BASIS, '1' as int), 'W' as int);
    FirstByte(s, x, y);
    var u := Mix(s, x.b0);
    MixEqual(Mix(u, x.b1), Mix(u, y.b1), x.b2, y.b2);
    SecondByte(u, x.b1, y.b1);
    XorByteInjective(Mix(u, x.b1), x.b2, y.b2);
  }

  lemma SecondByte(u: Word, b: Byte, b': Byte)
    requires Mix(u, b) / 256 == Mix(u, b') / 256
    ensures b == b'
  {
    var d, q := SameState(u, b, b');
    SameHigh(Mix(u, b), Mix(u, b'));
    OneRound(d, Mix(u, b) - Mix(u, b'), q);
  }

  /** One round cannot bring a difference of the low byte back into the low byte. */
  lemma OneRound(d: int, e: int, q: int)
    requires -255 <= d <= 255 && -255 <= e <= 255 && e == d * FNV1_PRIME - q * WORD
    ensures d == 0
  {
    assert -1 <= q <= 1;
  }
}
