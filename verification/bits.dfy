/**
 * Machine integers of the Chip-8 tool set.
 *
 * The C source works on `unsigned char` (8 bits) and `unsigned short`
 * (16 bits).  Both are modelled as subranges of `int`; wrap-around is written
 * out with `Wrap8`/`Wrap16`.  The bitwise operators `&`, `|` and `^` are
 * defined bit by bit over an explicit width, so that facts about them are
 * proved by induction rather than by bit-vector decision procedures.
 */
module Bits {

  type Byte = b: int | 0 <= b < 0x100
  type Word = w: int | 0 <= w < 0x1_0000

  /** Conversion to `unsigned char`: reduction modulo 256. */
  function Wrap8(n: int): (r: Byte)
    ensures (r - n) % 0x100 == 0
  {
    n % 0x100
  }

  /** Conversion to `unsigned short`: reduction modulo 65536. */
  function Wrap16(n: int): (r: Word)
    ensures (r - n) % 0x1_0000 == 0
  {
    n % 0x1_0000
  }

  function Pow2(k: nat): (r: nat)
    ensures r >= 1
  {
    if k == 0 then 1 else 2 * Pow2(k - 1)
  }

  lemma Pow2Values()
    ensures Pow2(4) == 0x10 && Pow2(8) == 0x100 && Pow2(12) == 0x1000 && Pow2(16) == 0x1_0000
  {
    assert Pow2(4) == 0x10;
    assert Pow2(8) == 0x100;
    assert Pow2(12) == 0x1000;
  }

  /** The low `w` bits of `a & b`. */
  function BitAnd(a: nat, b: nat, w: nat): (r: nat)
    ensures r < Pow2(w)
  {
    if w == 0 then 0
    else (if a % 2 == 1 && b % 2 == 1 then 1 else 0) + 2 * BitAnd(a / 2, b / 2, w - 1)
  }

  /** The low `w` bits of `a | b`. */
  function BitOr(a: nat, b: nat, w: nat): (r: nat)
    ensures r < Pow2(w)
  {
    if w == 0 then 0
    else (if a % 2 == 1 || b % 2 == 1 then 1 else 0) + 2 * BitOr(a / 2, b / 2, w - 1)
  }

  /** The low `w` bits of `a ^ b`. */
  function BitXor(a: nat, b: nat, w: nat): (r: nat)
    ensures r < Pow2(w)
  {
    if w == 0 then 0
    else (if a % 2 != b % 2 then 1 else 0) + 2 * BitXor(a / 2, b / 2, w - 1)
  }

  function And8(a: Byte, b: Byte): Byte
  {
    Pow2Values();
    BitAnd(a, b, 8)
  }

  function Or8(a: Byte, b: Byte): Byte
  {
    Pow2Values();
    BitOr(a, b, 8)
  }

  function Xor8(a: Byte, b: Byte): Byte
  {
    Pow2Values();
    BitXor(a, b, 8)
  }

  /** The low 16 bits of the C `int` expression `a | b`. */
  function Or16(a: int, b: int): Word
  {
    Pow2Values();
    BitOr(Wrap16(a), Wrap16(b), 16)
  }

  /** `a & b` has no bit that `b` lacks: or-ing it back into `b` gives `b`. */
  lemma {:induction false} AndWithin(a: nat, b: nat, w: nat)
    requires b < Pow2(w)
    ensures BitOr(BitAnd(a, b, w), b, w) == b
    decreases w
  {
    if w > 0 {
      AndWithin(a / 2, b / 2, w - 1);
    }
  }

  /** Or-ing in zero keeps a value that fits in the width. */
  lemma {:induction false} OrZero(a: nat, w: nat)
    requires a < Pow2(w)
    ensures BitOr(a, 0, w) == a
    decreases w
  {
    if w > 0 {
      OrZero(a / 2, w - 1);
    }
  }

  /**
   * Or-ing a value whose low `k` bits are clear with a value below `2^k` is
   * addition: this is how opcode fields are packed into one word.
   */
  lemma {:induction false} OrDisjoint(hi: nat, lo: nat, k: nat, w: nat)
    requires k <= w
    requires lo < Pow2(k) && hi * Pow2(k) < Pow2(w)
    ensures BitOr(hi * Pow2(k), lo, w) == hi * Pow2(k) + lo
    decreases w
  {
    var a := hi * Pow2(k);
    if w == 0 {
      assert a == 0 && lo == 0;
    } else if k == 0 {
      assert lo == 0;
      OrZero(hi, w);
    } else {
      var p := Pow2(k - 1);
      assert a == 2 * (hi * p);
      assert a % 2 == 0 && a / 2 == hi * p;
      assert hi * p < Pow2(w - 1);
      OrDisjoint(hi, lo / 2, k - 1, w - 1);
    }
  }

  /** Or-ing two multiples of `2^k` or-s their quotients. */
  lemma {:induction false} OrScaled(a: nat, b: nat, k: nat, w: nat)
    requires k <= w
    ensures BitOr(a * Pow2(k), b * Pow2(k), w) == BitOr(a, b, w - k) * Pow2(k)
    decreases k
  {
    if k > 0 {
      var p := Pow2(k - 1);
      assert Pow2(k) == 2 * p;
      var x, y := a * p, b * p;
      Double(a, p);
      Double(b, p);
      assert BitOr(2 * x, 2 * y, w) == 2 * BitOr(x, y, w - 1);
      OrScaled(a, b, k - 1, w - 1);
      Double(BitOr(a, b, w - k), p);
    }
  }

  lemma Double(a: nat, p: nat)
    ensures a * (2 * p) == 2 * (a * p)
  {
  }

  /** Xor-ing twice with the same value restores the original. */
  lemma {:induction false} XorTwice(a: nat, b: nat, w: nat)
    requires a < Pow2(w)
    ensures BitXor(BitXor(a, b, w), b, w) == a
    decreases w
  {
    if w > 0 {
      var x := BitXor(a / 2, b / 2, w - 1);
      var bit := if a % 2 != b % 2 then 1 else 0;
      var c := bit + 2 * x;
      assert BitXor(a, b, w) == c;
      DivUnique(c, 2, x, bit);
      XorTwice(a / 2, b / 2, w - 1);
      assert BitXor(c, b, w) == (if bit != b % 2 then 1 else 0) + 2 * (a / 2);
    }
  }

  /** A quotient and remainder that recombine into `n` are `n / d` and `n % d`. */
  lemma DivUnique(n: nat, d: nat, q: nat, r: nat)
    requires d > 0 && n == d * q + r && r < d
    ensures n / d == q && n % d == r
  {
    var q', r' := n / d, n % d;
    if q' < q {
      var k := q - q';
      assert d * q == d * q' + d * k;
      assert d * k >= d by { MulAtLeast(d, k); }
    } else if q' > q {
      var k := q' - q;
      assert d * q' == d * q + d * k;
      assert d * k >= d by { MulAtLeast(d, k); }
    }
  }

  /** Dividing by 2 and then by `p` is dividing by `2 * p`; the remainder splits likewise. */
  lemma HalfDiv(v: nat, p: nat)
    requires p >= 1
    ensures v / (2 * p) == (v / 2) / p
    ensures v % (2 * p) == 2 * ((v / 2) % p) + v % 2
  {
    var q := (v / 2) / p;
    var r := (v / 2) % p;
    assert v == (2 * p) * q + (2 * r + v % 2);
    DivUnique(v, 2 * p, q, 2 * r + v % 2);
  }

  lemma MulAtLeast(d: nat, k: nat)
    requires k >= 1
    ensures d * k >= d
  {
  }

  /** And-ing with zero clears everything. */
  lemma {:induction false} AndZero(a: nat, w: nat)
    ensures BitAnd(a, 0, w) == 0
    decreases w
  {
    if w > 0 {
      AndZero(a / 2, w - 1);
    }
  }

  /** Bit `j` of `a`. */
  function Bit(a: nat, j: nat): (r: nat)
    ensures r < 2
  {
    if j == 0 then a % 2 else Bit(a / 2, j - 1)
  }

  /** And-ing with the single bit `2^j` tests bit `j`. */
  lemma {:induction false} AndPow2(a: nat, j: nat, w: nat)
    ensures BitAnd(a, Pow2(j), w) == if j < w && Bit(a, j) == 1 then Pow2(j) else 0
    decreases w
  {
    if w == 0 {
    } else if j == 0 {
      AndZero(a / 2, w - 1);
    } else {
      var p := Pow2(j - 1);
      assert Pow2(j) == 2 * p;
      assert Pow2(j) % 2 == 0 && Pow2(j) / 2 == p;
      AndPow2(a / 2, j - 1, w - 1);
    }
  }

  /** Xor-ing with zero keeps a value that fits in the width. */
  lemma {:induction false} XorZero(a: nat, w: nat)
    requires a < Pow2(w)
    ensures BitXor(a, 0, w) == a
    decreases w
  {
    if w > 0 {
      XorZero(a / 2, w - 1);
    }
  }

  /** Xor-ing a value with itself clears every bit. */
  lemma {:induction false} XorSelf(a: nat, w: nat)
    ensures BitXor(a, a, w) == 0
    decreases w
  {
    if w > 0 {
      XorSelf(a / 2, w - 1);
    }
  }

  /** Xor-ing with 1 flips the lowest bit. */
  lemma XorOne(a: nat, w: nat)
    requires 0 < w && a < Pow2(w)
    ensures BitXor(a, 1, w) == if a % 2 == 0 then a + 1 else a - 1
  {
    XorZero(a / 2, w - 1);
  }

  /** The decimal digits of a number below 1000 recombine into it. */
  lemma DecimalDigits(v: nat)
    requires v < 1000
    ensures v / 100 < 10 && v / 10 % 10 < 10 && v % 100 % 10 < 10
    ensures 100 * (v / 100) + 10 * (v / 10 % 10) + v % 100 % 10 == v
  {
    var q1, d0 := v / 10, v % 10;
    var q2, d1 := q1 / 10, q1 % 10;
    DivUnique(v, 100, q2, 10 * d1 + d0);
    DivUnique(v % 100, 10, d1, d0);
  }

  /** Or-ing zero into a value that fits in the width, from the left. */
  lemma {:induction false} ZeroOr(a: nat, w: nat)
    requires a < Pow2(w)
    ensures BitOr(0, a, w) == a
    decreases w
  {
    if w > 0 {
      ZeroOr(a / 2, w - 1);
    }
  }

  /** Four nibbles, most significant first, as one 16-bit word. */
  function Nibbles(a: nat, b: nat, c: nat, d: nat): (w: Word)
    requires a < 0x10 && b < 0x10 && c < 0x10 && d < 0x10
  {
    ((a * 0x10 + b) * 0x10 + c) * 0x10 + d
  }

  /** The nibble `n | m`. */
  function Or4(n: nat, m: nat): (r: nat)
    ensures r < 0x10
  {
    Pow2Values();
    BitOr(n, m, 4)
  }

  /** A nibble or-ed with zero, on either side, is itself. */
  lemma Or4Zero(n: nat)
    requires n < 0x10
    ensures Or4(n, 0) == n && Or4(0, n) == n
  {
    Pow2Values();
    OrZero(n, 4);
    ZeroOr(n, 4);
  }


  /** Halving a value split at bit `k` halves its lower part and moves the split down one bit. */
  lemma HalvePacked(hi: nat, lo: nat, k: nat)
    requires 0 < k && lo < Pow2(k)
    ensures var a := hi * Pow2(k) + lo;
            && a % 2 == lo % 2
            && a / 2 == hi * Pow2(k - 1) + lo / 2
            && lo / 2 < Pow2(k - 1)
  {
    var p := Pow2(k - 1);
    Double(hi, p);
    DivUnique(hi * Pow2(k) + lo, 2, hi * p + lo / 2, lo % 2);
  }

  /** One step of `BitOr`: the lowest bit, then the rest shifted down. */
  lemma OrStep(a: nat, b: nat, w: nat)
    requires w > 0
    ensures BitOr(a, b, w) == (if a % 2 == 1 || b % 2 == 1 then 1 else 0) + 2 * BitOr(a / 2, b / 2, w - 1)
  {
  }

  /** The step of `OrPacked`: the lowest bit is shared, the rest is the split one bit down. */
  lemma OrCombine(a: nat, a': nat, lo: nat, lo': nat, x: nat, p: nat, w: nat, k: nat)
    requires 0 < k <= w && a % 2 == lo % 2 && a' % 2 == lo' % 2
    requires BitOr(a / 2, a' / 2, w - 1) == x * p + BitOr(lo / 2, lo' / 2, k - 1)
    ensures BitOr(a, a', w) == x * (2 * p) + BitOr(lo, lo', k)
  {
    OrStep(a, a', w);
    OrStep(lo, lo', k);
    Double(x, p);
  }

  /**
   * `|` on two values split at bit `k` is `|` on the parts above and on the
   * parts below, put back together.
   */
  lemma {:induction false} OrPacked(hi: nat, lo: nat, hi': nat, lo': nat, k: nat, w: nat)
    requires k <= w && lo < Pow2(k) && lo' < Pow2(k)
    ensures BitOr(hi * Pow2(k) + lo, hi' * Pow2(k) + lo', w) == BitOr(hi, hi', w - k) * Pow2(k) + BitOr(lo, lo', k)
    decreases k
  {
    if k > 0 {
      var p := Pow2(k - 1);
      var a: nat, a': nat := hi * Pow2(k) + lo, hi' * Pow2(k) + lo';
      HalvePacked(hi, lo, k);
      HalvePacked(hi', lo', k);
      OrPacked(hi, lo / 2, hi', lo' / 2, k - 1, w - 1);
      OrCombine(a, a', lo, lo', BitOr(hi, hi', w - k), p, w, k);
    }
  }

  /** `OrPacked` at a nibble boundary. */
  lemma OrNibblePacked(hi: nat, lo: nat, hi': nat, lo': nat, w: nat)
    requires 4 <= w && lo < 0x10 && lo' < 0x10
    ensures BitOr(hi * 0x10 + lo, hi' * 0x10 + lo', w) == BitOr(hi, hi', w - 4) * 0x10 + Or4(lo, lo')
  {
    Pow2Values();
    OrPacked(hi, lo, hi', lo', 4, w);
  }

  /** One nibble more on both sides of `OrPack`. */
  lemma OrNibbleStep(hi: nat, lo: nat, hi': nat, lo': nat, r: nat, n: nat)
    requires 0 < n && lo < 0x10 && lo' < 0x10 && BitOr(hi, hi', 4 * (n - 1)) == r
    ensures BitOr(hi * 0x10 + lo, hi' * 0x10 + lo', 4 * n) == r * 0x10 + Or4(lo, lo')
  {
    OrNibblePacked(hi, lo, hi', lo', 4 * n);
  }

  /** On values that already fit in 16 bits, `Or16` is the 16-bit `|`. */
  lemma Or16Words(a: Word, b: Word)
    ensures Or16(a, b) == BitOr(a, b, 16)
  {
    assert Wrap16(a) == a;
    assert Wrap16(b) == b;
  }

  /** Nibbles, most significant first, packed into one number. */
  function Pack(ns: seq<nat>): nat
  {
    if ns == [] then 0 else Pack(ns[..|ns| - 1]) * 0x10 + ns[|ns| - 1]
  }

  /** The last nibble is the lowest. */
  lemma PackLast(ns: seq<nat>)
    requires ns != []
    ensures Pack(ns) == Pack(ns[..|ns| - 1]) * 0x10 + ns[|ns| - 1]
  {
  }

  /** `Or4` on corresponding nibbles. */
  function OrEach(ns: seq<nat>, ms: seq<nat>): (r: seq<nat>)
    requires |ns| == |ms|
    ensures |r| == |ns| && forall i :: 0 <= i < |r| ==> r[i] == Or4(ns[i], ms[i])
  {
    seq(|ns|, i requires 0 <= i < |ns| => Or4(ns[i], ms[i]))
  }

  /** `|` on packed nibbles is `|` nibble by nibble. */
  lemma {:induction false} OrPack(ns: seq<nat>, ms: seq<nat>)
    requires |ns| == |ms|
    requires forall i :: 0 <= i < |ns| ==> ns[i] < 0x10 && ms[i] < 0x10
    ensures BitOr(Pack(ns), Pack(ms), 4 * |ns|) == Pack(OrEach(ns, ms))
    decreases |ns|
  {
    if ns != [] {
      var n := |ns|;
      var ns', ms' := ns[..n - 1], ms[..n - 1];
      var r := OrEach(ns, ms);
      assert r[..n - 1] == OrEach(ns', ms');
      PackLast(ns);
      PackLast(ms);
      PackLast(r);
      OrPack(ns', ms');
      OrNibbleStep(Pack(ns'), ns[n - 1], Pack(ms'), ms[n - 1], Pack(r[..n - 1]), n);
    }
  }

  /** Four nibbles packed in a sequence are the packed word. */
  lemma PackFour(a: nat, b: nat, c: nat, d: nat)
    requires a < 0x10 && b < 0x10 && c < 0x10 && d < 0x10
    ensures Pack([a, b, c, d]) == Nibbles(a, b, c, d)
  {
    assert [a][..0] == [];
    assert Pack([a]) == a;
    assert [a, b][..1] == [a];
    assert Pack([a, b]) == a * 0x10 + b;
    assert [a, b, c][..2] == [a, b];
    assert Pack([a, b, c]) == (a * 0x10 + b) * 0x10 + c;
    assert [a, b, c, d][..3] == [a, b, c];
  }

  /** `|` on packed words is `|` nibble by nibble: this is how opcode fields are combined. */
  lemma OrNibbles(a1: nat, a2: nat, a3: nat, a4: nat, b1: nat, b2: nat, b3: nat, b4: nat)
    requires a1 < 0x10 && a2 < 0x10 && a3 < 0x10 && a4 < 0x10
    requires b1 < 0x10 && b2 < 0x10 && b3 < 0x10 && b4 < 0x10
    ensures Or16(Nibbles(a1, a2, a3, a4), Nibbles(b1, b2, b3, b4))
            == Nibbles(Or4(a1, b1), Or4(a2, b2), Or4(a3, b3), Or4(a4, b4))
  {
    var ns, ms := [a1, a2, a3, a4], [b1, b2, b3, b4];
    PackFour(a1, a2, a3, a4);
    PackFour(b1, b2, b3, b4);
    OrPack(ns, ms);
    var r := OrEach(ns, ms);
    assert r == [Or4(a1, b1), Or4(a2, b2), Or4(a3, b3), Or4(a4, b4)];
    PackFour(Or4(a1, b1), Or4(a2, b2), Or4(a3, b3), Or4(a4, b4));
    Or16Words(Nibbles(a1, a2, a3, a4), Nibbles(b1, b2, b3, b4));
  }
}
