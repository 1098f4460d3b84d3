/** The machine words of the hub. */
module Words {
  const WORD := 0x1_0000_0000

  type Byte = n: nat | n < 256
  type U16 = n: nat | n < 65536
  type Word = n: nat | n < WORD
  type NodeId = n: nat | n < 0x100_0000

  /** What millis() shows at time `t`. */
  function Clock(t: nat): Word { t % WORD }

  /** Unsigned 32-bit subtraction. */
  function Minus(a: Word, b: Word): Word { (a - b) % WORD }

  lemma Residue(d: int, k: int)
    ensures (d + k * WORD) % WORD == d % WORD
  {
  }

  /** The difference of two clock readings less than a clock period apart is the time between them. */
  lemma Elapsed(start: nat, now: nat)
    requires start <= now < start + WORD
    ensures Minus(Clock(now), Clock(start)) == now - start
  {
    var q := start / WORD - now / WORD;
    assert Clock(now) - Clock(start) == (now - start) + q * WORD;
    Residue(now - start, q);
  }

  /** Bitwise exclusive or of two naturals. */
  function Xor(a: nat, b: nat): nat
    decreases a + b
  {
    if a == 0 && b == 0 then 0 else (a + b) % 2 + 2 * Xor(a / 2, b / 2)
  }

  lemma {:induction false} XorBound(a: nat, b: nat, m: nat)
    requires a < m && b < m && m in {1, 2, 4, 8, 16, 32, 64, 128, 256}
    ensures Xor(a, b) < m
  {
    if m > 1 { XorBound(a / 2, b / 2, m / 2); }
  }

  lemma {:induction false} XorInjective(a: nat, b: nat, c: nat)
    requires Xor(a, b) == Xor(a, c)
    ensures b == c
    decreases a + b + c
  {
    if a != 0 || b != 0 || c != 0 {
      XorInjective(a / 2, b / 2, c / 2);
    }
  }

  function ByteXor(a: Byte, b: Byte): Byte {
    XorBound(a, b, 256);
    Xor(a, b)
  }

  /** The lowest bit and the others. */
  lemma XorBits(a: nat, b: nat)
    ensures Xor(a, b) % 2 == (a + b) % 2 && Xor(a, b) / 2 == Xor(a / 2, b / 2)
  {
    var x := Xor(a / 2, b / 2);
    assert ((a + b) % 2 + 2 * x) / 2 == x;
  }

  lemma ParityTwice(a: nat, b: nat, x: nat)
    requires x % 2 == (a + b) % 2
    ensures (x + b) % 2 == a % 2
  {
  }

  lemma SameBits(a: nat, b: nat)
    requires a / 2 == b / 2 && a % 2 == b % 2
    ensures a == b
  {
  }

  lemma {:induction false} XorTwice(a: nat, b: nat)
    ensures Xor(Xor(a, b), b) == a
    decreases a + b
  {
    if a != 0 || b != 0 {
      var x := Xor(a, b);
      XorTwice(a / 2, b / 2);
      XorBits(a, b);
      XorBits(x, b);
      ParityTwice(a, b, x);
      SameBits(Xor(x, b), a);
    }
  }
}
