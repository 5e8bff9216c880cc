/** The address decode of the memory system: which controller, rank, bank and row an address belongs
    to, and the generator of addresses for a given place.  Addresses are non-negative integers; a
    left shift by n multiplies by Pow2(n) and a right shift divides. */
module AddressMap {
  import opened Arithmetic

  function Pow2(n: nat): (r: nat)
    ensures r > 0
  {
    if n == 0 then 1 else 2 * Pow2(n - 1)
  }

  function Quotient(a: nat, b: nat): (r: nat)
    requires b > 0
  {
    a / b
  }

  function Remainder(a: nat, b: nat): (r: nat)
    requires b > 0
    ensures r < b
  {
    a % b
  }

  function Shr(a: nat, k: nat): nat {
    Quotient(a, Pow2(k))
  }

  function Shl(a: nat, k: nat): nat {
    a * Pow2(k)
  }

  /** The k low bits of a. */
  function Low(a: nat, k: nat): (r: nat)
    ensures r < Pow2(k)
  {
    Remainder(a, Pow2(k))
  }

  /** Bitwise exclusive or. */
  function Xor(a: nat, b: nat): nat {
    if a == 0 && b == 0 then 0
    else 2 * Xor(a / 2, b / 2) + (a + b) % 2
  }

  function Log2(n: nat): (r: nat)
    ensures n > 0 ==> Pow2(r) <= n < 2 * Pow2(r)
  {
    if n <= 1 then 0 else 1 + Log2(n / 2)
  }

  /** The loop that computes the logarithm. */
  method ComputeLog2(n: nat) returns (r: nat)
    ensures r == Log2(n)
  {
    var num := n;
    r := 0;
    while num > 1
      invariant r + Log2(num) == Log2(n)
    {
      r, num := r + 1, num / 2;
    }
  }

  /** A group of interleaved units selected by address bits from `base` upwards. */
  datatype Field = Field(base: nat, width: nat)

  datatype Config = Config(rank: Field, bank: Field, mc: Field, pageBit: nat, xorBit: nat)

  /** The unit of field f that an address selects, hashed with its upper bits. */
  function Unit(f: Field, xorBit: nat, addr: nat): nat
    requires f.width > 0
  {
    Remainder(Xor(Shr(addr, f.base), Shr(addr, xorBit)), f.width)
  }

  /** Squeeze the bits of field f out of p. */
  function Remove(f: Field, p: nat): nat
    requires f.width > 0
  {
    Shl(Quotient(Shr(p, f.base), f.width), f.base) + Low(p, f.base)
  }

  /** The order in which a sorted map with insertion-ordered ties holds three entries. */
  function Sort3(x: Field, y: Field, z: Field): (Field, Field, Field) {
    if y.base < x.base then
      if z.base < y.base then (z, y, x) else if z.base < x.base then (y, z, x) else (y, x, z)
    else
      if z.base < x.base then (z, x, y) else if z.base < y.base then (x, z, y) else (x, y, z)
  }

  predicate ValidConfig(c: Config) {
    c.rank.width > 0 && c.bank.width > 0 && c.mc.width > 0
  }

  /** The row number: the address without its interleaving fields and without the page offset. */
  function PageNum(c: Config, addr: nat): nat
    requires ValidConfig(c)
  {
    var (f2, f1, f0) := Sort3(c.rank, c.bank, c.mc);
    Shr(Remove(f2, Remove(f1, Remove(f0, addr))), c.pageBit)
  }

  function RankNum(c: Config, addr: nat): nat
    requires ValidConfig(c)
  {
    Unit(c.rank, c.xorBit, addr)
  }

  function BankNum(c: Config, addr: nat): nat
    requires ValidConfig(c)
  {
    Unit(c.bank, c.xorBit, addr)
  }

  function WhichMc(c: Config, addr: nat): nat
    requires ValidConfig(c)
  {
    Unit(c.mc, c.xorBit, addr)
  }

  // ---------------------------------------------------------------- powers, quotients and remainders

  lemma {:induction false} Pow2Add(a: nat, b: nat)
    ensures Pow2(a + b) == Pow2(a) * Pow2(b)
  {
    if a > 0 {
      Pow2Add(a - 1, b);
      assert Pow2(a + b) == 2 * Pow2(a + b - 1);
      assert 2 * (Pow2(a - 1) * Pow2(b)) == (2 * Pow2(a - 1)) * Pow2(b);
    }
  }

  lemma MulBound(q: nat, r: nat, w: nat, b: nat)
    requires q < w && r < b
    ensures q * b + r < w * b
  {
    MulLess(q, w, b);
    MulAtLeast(w - q, b);
    MulSub(w, q, b);
  }

  lemma DivDiv(p: nat, x: nat, y: nat)
    requires x > 0 && y > 0
    ensures x * y > 0 && p / x / y == p / (x * y)
  {
    MulAtLeast(y, x);
    Digits(p, x, y);
    DivModUnique(p, x * y, p / x / y, (p / x) % y * x + p % x);
  }

  /** A remainder determines the remainder by any divisor of the modulus. */
  lemma ModMod(p: nat, x: nat, y: nat)
    requires x > 0 && y > 0
    ensures x * y > 0 && p % (x * y) % x == p % x
  {
    DivDiv(p, x, y);
    var h, r := p / (x * y), p % (x * y);
    assert p == h * (x * y) + r;
    assert h * (x * y) == (h * y) * x;
    assert r == (r / x) * x + r % x;
    assert p == (h * y + r / x) * x + r % x by { assert (h * y + r / x) * x == (h * y) * x + (r / x) * x; }
    DivModUnique(p, x, h * y + r / x, r % x);
  }

  /** The decomposition of p around the digit (p / x) % y. */
  lemma Digits(p: nat, x: nat, y: nat)
    requires x > 0 && y > 0
    ensures p == (p / x / y) * (x * y) + ((p / x) % y * x + p % x)
    ensures 0 <= (p / x) % y * x + p % x < x * y
  {
    var h, f, low := p / x / y, (p / x) % y, p % x;
    assert p / x == h * y + f;
    assert p == (h * y + f) * x + low;
    assert (h * y + f) * x == h * (x * y) + f * x;
    MulBound(f, low, y, x);
  }

  /** A field of p lies in the low bits of p. */
  lemma FieldOfLow(p: nat, x: nat, y: nat)
    requires x > 0 && y > 0
    ensures x * y > 0 && (p / x) % y == p % (x * y) / x
  {
    MulAtLeast(y, x);
    Digits(p, x, y);
    var f, low := (p / x) % y, p % x;
    DivModUnique(p, x * y, p / x / y, f * x + low);
    DivModUnique(f * x + low, x, f, low);
  }

  // ---------------------------------------------------------------- exclusive or

  lemma {:induction false} XorInvolutive(a: nat, b: nat)
    ensures Xor(Xor(a, b), b) == a
    decreases a + b
  {
    if a != 0 || b != 0 {
      XorInvolutive(a / 2, b / 2);
      XorHalf(a, b);
      hide Xor;
      ParityCancels(Xor(a, b), a, b);
      XorUnfold(Xor(a, b), b);
    }
  }

  lemma XorHalf(a: nat, b: nat)
    ensures Xor(a, b) / 2 == Xor(a / 2, b / 2) && Xor(a, b) % 2 == (a + b) % 2
  {
  }

  lemma ParityCancels(x: nat, a: nat, b: nat)
    requires x % 2 == (a + b) % 2
    ensures (x + b) % 2 == a % 2
  {
  }

  lemma XorUnfold(a: nat, b: nat)
    ensures Xor(a, b) == 2 * Xor(a / 2, b / 2) + (a + b) % 2
  {
  }

  lemma DoubleMod(q: nat, r: nat, m: nat)
    requires m > 0 && r < 2
    ensures (2 * q + r) % (2 * m) == 2 * (q % m) + r
  {
    var h := q / m;
    assert q == h * m + q % m;
    assert 2 * q + r == h * (2 * m) + (2 * (q % m) + r);
    DivModUnique(2 * q + r, 2 * m, h, 2 * (q % m) + r);
  }

  lemma HalfMod(a: nat, m: nat)
    requires m > 0
    ensures a % (2 * m) / 2 == (a / 2) % m && a % (2 * m) % 2 == a % 2
  {
    DoubleMod(a / 2, a % 2, m);
  }

  lemma ParityOfSum(a: nat, b: nat)
    ensures (a % 2 + b % 2) % 2 == (a + b) % 2
  {
  }

  lemma LowHalf(a: nat, k: nat)
    ensures Low(a, k + 1) / 2 == Low(a / 2, k) && Low(a, k + 1) % 2 == a % 2
  {
    HalfMod(a, Pow2(k));
  }

  lemma LowDouble(q: nat, r: nat, k: nat)
    requires r < 2
    ensures Low(2 * q + r, k + 1) == 2 * Low(q, k) + r
  {
    DoubleMod(q, r, Pow2(k));
  }

  /** One more bit. */
  lemma XorLowStep(a: nat, b: nat, k: nat)
    requires Low(Xor(a / 2, b / 2), k) == Xor(Low(a / 2, k), Low(b / 2, k))
    ensures Low(Xor(a, b), k + 1) == Xor(Low(a, k + 1), Low(b, k + 1))
  {
    hide Xor, Low;
    LowHalf(a, k);
    LowHalf(b, k);
    XorHalves(Low(a, k + 1), Low(b, k + 1), Low(a / 2, k), Low(b / 2, k), a, b);
    XorUnfold(a, b);
    LowDouble(Xor(a / 2, b / 2), (a + b) % 2, k);
  }

  lemma XorHalves(x: nat, y: nat, hx: nat, hy: nat, a: nat, b: nat)
    requires x / 2 == hx && y / 2 == hy && x % 2 == a % 2 && y % 2 == b % 2
    ensures Xor(x, y) == 2 * Xor(hx, hy) + (a + b) % 2
  {
    ParityOfSum(a, b);
    ParityOfSum(x, y);
    XorUnfold(x, y);
  }

  /** The low bits of an exclusive or come from the low bits of its operands. */
  lemma {:induction false} XorLow(a: nat, b: nat, k: nat)
    ensures Low(Xor(a, b), k) == Xor(Low(a, k), Low(b, k))
  {
    if k == 0 {
      assert Low(a, 0) == 0 && Low(b, 0) == 0 && Low(Xor(a, b), 0) == 0;
    } else {
      XorLow(a / 2, b / 2, k - 1);
      XorLowStep(a, b, k - 1);
    }
  }

  /** Undo the hash: the hashed unit and the upper bits give back the raw bits of the field. */
  lemma UnhashField(a: nat, u: nat, k: nat)
    ensures Xor(Low(Xor(a, u), k), Low(u, k)) == Low(a, k)
  {
    XorLow(a, u, k);
    XorInvolutive(Low(a, k), Low(u, k));
  }

  // ---------------------------------------------------------------- removing a field

  predicate HasBits(f: Field, l: nat) {
    f.width == Pow2(l)
  }

  lemma SplitParts(p: nat, x: nat, y: nat)
    requires x > 0 && y > 0
    ensures x * y > 0 && p / x / y == p / (x * y)
    ensures p == (p / (x * y) * y + (p / x) % y) * x + p % x
    ensures (p / x / y * x + p % x) / x == p / (x * y) && (p / x / y * x + p % x) % x == p % x
  {
    DivDiv(p, x, y);
    DivModUnique(p / x / y * x + p % x, x, p / x / y, p % x);
  }

  /** The three parts of a number around the field f of l bits. */
  lemma Split(f: Field, p: nat, l: nat)
    requires HasBits(f, l)
    ensures p == Shl(Shl(Shr(p, f.base + l), l) + Low(Shr(p, f.base), l), f.base) + Low(p, f.base)
    ensures Remove(f, p) == Shl(Shr(p, f.base + l), f.base) + Low(p, f.base)
    ensures Shr(Remove(f, p), f.base) == Shr(p, f.base + l)
    ensures Low(Remove(f, p), f.base) == Low(p, f.base)
  {
    Pow2Add(f.base, l);
    SplitParts(p, Pow2(f.base), Pow2(l));
    hide Pow2;
  }

  /** A number is determined by what is left after removing a field and by that field. */
  lemma RemoveInjective(f: Field, p: nat, q: nat, l: nat)
    requires HasBits(f, l) && Remove(f, p) == Remove(f, q)
    requires Low(Shr(p, f.base), l) == Low(Shr(q, f.base), l)
    ensures p == q
  {
    Split(f, p, l);
    Split(f, q, l);
  }

  lemma NoField(f: Field, p: nat)
    requires f.width == 1
    ensures Remove(f, p) == p
  {
    assert Pow2(0) == 1;
    Split(f, p, 0);
  }

  lemma LowOfLow(p: nat, q: nat, k: nat, n: nat)
    requires k <= n && Low(p, n) == Low(q, n)
    ensures Low(p, k) == Low(q, k)
  {
    Pow2Add(k, n - k);
    ModMod(p, Pow2(k), Pow2(n - k));
    ModMod(q, Pow2(k), Pow2(n - k));
  }

  lemma FieldLow(p: nat, b: nat, l: nat)
    ensures Low(Shr(p, b), l) == Shr(Low(p, b + l), b)
  {
    Pow2Add(b, l);
    FieldOfLow(p, Pow2(b), Pow2(l));
  }

  /** A field below the removed one is where it was. */
  lemma LowerFieldKept(f: Field, p: nat, l: nat, b: nat, k: nat)
    requires HasBits(f, l) && (l == 0 || k == 0 || b + k <= f.base)
    ensures Low(Shr(Remove(f, p), b), k) == Low(Shr(p, b), k)
  {
    if l == 0 {
      NoField(f, p);
    } else if k != 0 {
      Split(f, p, l);
      LowOfLow(Remove(f, p), p, b + k, f.base);
      FieldLow(p, b, k);
      FieldLow(Remove(f, p), b, k);
    }
  }

  lemma LowBitsKept(f: Field, p: nat, l: nat, k: nat)
    requires HasBits(f, l) && (l == 0 || k <= f.base)
    ensures Low(Remove(f, p), k) == Low(p, k)
  {
    if l == 0 { NoField(f, p); } else { Split(f, p, l); LowOfLow(Remove(f, p), p, k, f.base); }
  }

  lemma ShrShr(p: nat, a: nat, b: nat)
    ensures Shr(Shr(p, a), b) == Shr(p, a + b)
  {
    Pow2Add(a, b);
    DivDiv(p, Pow2(a), Pow2(b));
  }

  /** The bits above a removed field move down by its length. */
  lemma UpperBitsShift(f: Field, p: nat, l: nat, x: nat)
    requires HasBits(f, l) && l <= x && (l == 0 || f.base + l <= x)
    ensures Shr(Remove(f, p), x - l) == Shr(p, x)
  {
    if l == 0 {
      NoField(f, p);
    } else {
      Split(f, p, l);
      ShrShr(Remove(f, p), f.base, x - l - f.base);
      ShrShr(p, f.base + l, x - l - f.base);
    }
  }

  // ---------------------------------------------------------------- the decode is injective

  /** Two fields occupy different bits (a unit count of one occupies none). */
  predicate Apart(x: Field, lx: nat, y: Field, ly: nat) {
    lx == 0 || ly == 0 || x.base + lx <= y.base || y.base + ly <= x.base
  }

  predicate Between(x: Field, lx: nat, lo: nat, hi: nat) {
    lx == 0 || (lo <= x.base && x.base + lx <= hi)
  }

  /** Unit counts are powers of two, and the fields lie apart between the page offset and the bits
      that are used as hash. */
  ghost predicate WellSeparated(c: Config, lr: nat, lb: nat, lm: nat) {
    && HasBits(c.rank, lr) && HasBits(c.bank, lb) && HasBits(c.mc, lm)
    && Apart(c.rank, lr, c.bank, lb) && Apart(c.rank, lr, c.mc, lm) && Apart(c.bank, lb, c.mc, lm)
    && Between(c.rank, lr, c.pageBit, c.xorBit) && Between(c.bank, lb, c.pageBit, c.xorBit)
    && Between(c.mc, lm, c.pageBit, c.xorBit)
  }

  /** A field below another one ends before it begins, unless one of them has no bits. */
  predicate Below(x: Field, lx: nat, y: Field, ly: nat) {
    lx == 0 || ly == 0 || x.base + lx <= y.base
  }

  /** The core of injectivity, for fields in ascending order. */
  lemma SortedInjective(f2: Field, l2: nat, f1: Field, l1: nat, f0: Field, l0: nat, lo: nat, hi: nat, a: nat, b: nat)
    requires HasBits(f2, l2) && HasBits(f1, l1) && HasBits(f0, l0)
    requires Below(f2, l2, f1, l1) && Below(f2, l2, f0, l0) && Below(f1, l1, f0, l0)
    requires Between(f2, l2, lo, hi) && Between(f1, l1, lo, hi) && Between(f0, l0, lo, hi)
    requires Shr(Remove(f2, Remove(f1, Remove(f0, a))), lo) == Shr(Remove(f2, Remove(f1, Remove(f0, b))), lo)
    requires Low(a, lo) == Low(b, lo)
    requires Unit(f2, hi, a) == Unit(f2, hi, b) && Unit(f1, hi, a) == Unit(f1, hi, b) && Unit(f0, hi, a) == Unit(f0, hi, b)
    ensures a == b
  {
    var a1, b1 := Remove(f0, a), Remove(f0, b);
    var a2, b2 := Remove(f1, a1), Remove(f1, b1);
    var a3, b3 := Remove(f2, a2), Remove(f2, b2);
    LowBitsKept(f0, a, l0, lo); LowBitsKept(f1, a1, l1, lo); LowBitsKept(f2, a2, l2, lo);
    LowBitsKept(f0, b, l0, lo); LowBitsKept(f1, b1, l1, lo); LowBitsKept(f2, b2, l2, lo);
    SamePage(a3, b3, lo);
    UpperThrough(f2, l2, f1, l1, f0, l0, lo, hi, a);
    UpperThrough(f2, l2, f1, l1, f0, l0, lo, hi, b);
    SameRawField(f2, hi, l2, a, b);
    SameRawField(f1, hi, l1, a, b);
    SameRawField(f0, hi, l0, a, b);
    LowerFieldKept(f0, a, l0, f1.base, l1); LowerFieldKept(f0, b, l0, f1.base, l1);
    LowerFieldKept(f0, a, l0, f2.base, l2); LowerFieldKept(f0, b, l0, f2.base, l2);
    LowerFieldKept(f1, a1, l1, f2.base, l2); LowerFieldKept(f1, b1, l1, f2.base, l2);
    RemoveInjective(f2, a2, b2, l2);
    RemoveInjective(f1, a1, b1, l1);
    RemoveInjective(f0, a, b, l0);
  }

  lemma SamePage(p: nat, q: nat, k: nat)
    requires Shr(p, k) == Shr(q, k) && Low(p, k) == Low(q, k)
    ensures p == q
  {
  }

  /** The hash bits survive the removal of the fields below them. */
  lemma UpperThrough(f2: Field, l2: nat, f1: Field, l1: nat, f0: Field, l0: nat, lo: nat, hi: nat, a: nat)
    requires HasBits(f2, l2) && HasBits(f1, l1) && HasBits(f0, l0)
    requires Below(f2, l2, f1, l1) && Below(f2, l2, f0, l0) && Below(f1, l1, f0, l0)
    requires Between(f2, l2, lo, hi) && Between(f1, l1, lo, hi) && Between(f0, l0, lo, hi)
    ensures l2 + l1 + l0 <= hi
    ensures Shr(Remove(f2, Remove(f1, Remove(f0, a))), hi - l0 - l1 - l2) == Shr(a, hi)
  {
    UpperBitsShift(f0, a, l0, hi);
    UpperBitsShift(f1, Remove(f0, a), l1, hi - l0);
    UpperBitsShift(f2, Remove(f1, Remove(f0, a)), l2, hi - l0 - l1);
  }

  lemma SameRawField(f: Field, x: nat, l: nat, a: nat, b: nat)
    requires HasBits(f, l) && Unit(f, x, a) == Unit(f, x, b) && Shr(a, x) == Shr(b, x)
    ensures Low(Shr(a, f.base), l) == Low(Shr(b, f.base), l)
  {
    UnhashField(Shr(a, f.base), Shr(a, x), l);
    UnhashField(Shr(b, f.base), Shr(b, x), l);
  }

  predicate SameUnits(f: Field, xorBit: nat, a: nat, b: nat) {
    f.width > 0 && Unit(f, xorBit, a) == Unit(f, xorBit, b)
  }

  /** Controller, rank, bank, row and page offset determine the address. */
  lemma DecodeInjective(c: Config, lr: nat, lb: nat, lm: nat, a: nat, b: nat)
    requires ValidConfig(c) && WellSeparated(c, lr, lb, lm)
    requires WhichMc(c, a) == WhichMc(c, b) && RankNum(c, a) == RankNum(c, b) && BankNum(c, a) == BankNum(c, b)
    requires PageNum(c, a) == PageNum(c, b) && Low(a, c.pageBit) == Low(b, c.pageBit)
    ensures a == b
  {
    var x, y, z := c.rank, c.bank, c.mc;
    var lo, hi := c.pageBit, c.xorBit;
    assert SameUnits(x, hi, a, b) && SameUnits(y, hi, a, b) && SameUnits(z, hi, a, b);
    hide Unit, Remove, Shr, Low;
    if y.base < x.base {
      if z.base < y.base { SortedInjective(z, lm, y, lb, x, lr, lo, hi, a, b); }
      else if z.base < x.base { SortedInjective(y, lb, z, lm, x, lr, lo, hi, a, b); }
      else { SortedInjective(y, lb, x, lr, z, lm, lo, hi, a, b); }
    } else {
      if z.base < x.base { SortedInjective(z, lm, x, lr, y, lb, lo, hi, a, b); }
      else if z.base < y.base { SortedInjective(x, lr, z, lm, y, lb, lo, hi, a, b); }
      else { SortedInjective(x, lr, y, lb, z, lm, lo, hi, a, b); }
    }
  }

  // ---------------------------------------------------------------- the address generator

  /** The value a 32-bit unsigned variable keeps of x. */
  function Wrap(x: nat): nat {
    x % 0x1_0000_0000
  }

  /** What the generator needs of the configuration: the page offset ends where the controller bit is,
      the bank field lies above it and below the hash bits. */
  predicate Generates(c: Config) {
    && ValidConfig(c)
    && c.mc.base + 1 <= c.bank.base && c.bank.base + Log2(c.bank.width) <= c.xorBit
  }

  /** An address in row `page` of `bank` of controller `mc`. */
  function Generate(c: Config, mc: nat, bank: nat, page: nat): nat
    requires Generates(c)
  {
    var sliceBit := c.bank.base - 1 - c.mc.base;
    var slice := Low(page, sliceBit);
    var interleave := Shr(page, c.xorBit - 1 - c.mc.base - Log2(c.bank.width));
    var mcBit := Remainder(Xor(mc, interleave), c.mc.width);
    var bankBit := Remainder(Xor(bank, interleave), c.bank.width);
    var low := mcBit + Wrap(Shl(slice, 1));
    var middle := Wrap(Shl(bankBit, sliceBit + Log2(c.mc.width)));
    var high := Wrap(Shl(Shr(page, sliceBit), Log2(c.bank.width) + Log2(c.mc.width) + sliceBit));
    Shl(low + middle + high, c.pageBit)
  }

  /** The two-controller, one-rank systems the generator is for. */
  predicate TwoControllers(c: Config, lb: nat) {
    && Generates(c) && c.rank.width == 1 && c.mc.width == 2 && HasBits(c.bank, lb)
    && c.pageBit == c.mc.base && c.bank.base + lb <= c.xorBit
  }

  /** No 32-bit intermediate value overflows. */
  predicate Fits(c: Config, lb: nat, page: nat) {
    c.mc.base < c.bank.base && lb + c.bank.base - c.mc.base <= 32 && Shl(page, lb + 1) < 0x1_0000_0000
  }

  lemma {:induction false} Log2Pow2(n: nat)
    ensures Log2(Pow2(n)) == n
  {
    if n > 0 { Log2Pow2(n - 1); }
  }

  lemma PushBits(h: nat, k: nat, low: nat)
    requires low < Pow2(k)
    ensures Shr(Shl(h, k) + low, k) == h && Low(Shl(h, k) + low, k) == low
  {
    DivModUnique(h * Pow2(k) + low, Pow2(k), h, low);
  }

  lemma ShlAdd(h: nat, x: nat, y: nat)
    ensures Shl(Shl(h, x), y) == Shl(h, x + y)
  {
    Pow2Add(x, y);
    MulAssoc(h, Pow2(x), Pow2(y));
  }

  lemma MulAssoc(a: nat, b: nat, c: nat)
    ensures (a * b) * c == a * (b * c)
  {
  }

  lemma ShlSum(a: nat, b: nat, k: nat)
    ensures Shl(a + b, k) == Shl(a, k) + Shl(b, k)
  {
  }

  lemma {:induction false} Pow2Monotone(a: nat, b: nat)
    requires a <= b
    ensures Pow2(a) <= Pow2(b)
  {
    if a < b { Pow2Monotone(a, b - 1); }
  }

  /** The bits of a generated address above the page offset, from the top down. */
  function Layout(upper: nat, lb: nat, bankBit: nat, s: nat, slice: nat, mcBit: nat): nat {
    Shl(Shl(Shl(upper, lb) + bankBit, s) + slice, 1) + mcBit
  }

  lemma LayoutSum(upper: nat, lb: nat, bankBit: nat, s: nat, slice: nat, mcBit: nat)
    ensures Layout(upper, lb, bankBit, s, slice, mcBit)
         == mcBit + Shl(slice, 1) + Shl(bankBit, s + 1) + Shl(upper, lb + 1 + s)
  {
    ShlSum(Shl(upper, lb), bankBit, s);
    ShlAdd(upper, lb, s);
    ShlSum(Shl(upper, lb + s) + Shl(bankBit, s), slice, 1);
    ShlSum(Shl(upper, lb + s), Shl(bankBit, s), 1);
    ShlAdd(upper, lb + s, 1);
    ShlAdd(bankBit, s, 1);
  }

  lemma SmallShl(a: nat, l: nat, k: nat, n: nat)
    requires a < Pow2(l) && l + k <= n
    ensures Shl(a, k) < Pow2(n)
  {
    Pow2Add(l, k);
    MulLess(a, Pow2(l), Pow2(k));
    Pow2Monotone(l + k, n);
  }

  lemma Unwrapped(a: nat, l: nat, k: nat)
    requires a < Pow2(l) && l + k <= 32
    ensures Wrap(Shl(a, k)) == Shl(a, k)
  {
    Word32();
    SmallShl(a, l, k, 32);
  }

  lemma UpperFits(page: nat, s: nat, k: nat)
    ensures Shl(Shr(page, s), k + s) <= Shl(page, k)
  {
    var q := Shr(page, s);
    ShlAdd(q, s, k);
    assert Shl(q, s) <= page by { DivMulBelow(page, Pow2(s)); }
    MulLess(page, Shl(q, s), Pow2(k));
  }

  lemma UpperUnwrapped(page: nat, s: nat, k: nat)
    requires Shl(page, k) < 0x1_0000_0000
    ensures Wrap(Shl(Shr(page, s), k + s)) == Shl(Shr(page, s), k + s)
  {
    UpperFits(page, s, k);
  }

  lemma DivMulBelow(a: nat, b: nat)
    requires b > 0
    ensures a / b * b <= a
  {
    assert a == a / b * b + a % b;
  }

  lemma Word32()
    ensures Pow2(32) == 0x1_0000_0000
  {
    assert Pow2(8) == 256;
    hide Pow2;
    Pow2Add(8, 8);
    Pow2Add(16, 16);
  }

  function SliceBits(c: Config): nat
    requires Generates(c)
  {
    c.bank.base - 1 - c.mc.base
  }

  function Hash(c: Config, lb: nat, page: nat): nat
    requires TwoControllers(c, lb)
  {
    Shr(page, c.xorBit - 1 - c.mc.base - lb)
  }

  function McBit(c: Config, lb: nat, mc: nat, page: nat): nat
    requires TwoControllers(c, lb)
  {
    Low(Xor(mc, Hash(c, lb, page)), 1)
  }

  function BankBits(c: Config, lb: nat, bank: nat, page: nat): nat
    requires TwoControllers(c, lb)
  {
    Low(Xor(bank, Hash(c, lb, page)), lb)
  }

  /** Without overflow the generated address is its fields side by side. */
  lemma GenerateLayout(c: Config, lb: nat, mc: nat, bank: nat, page: nat)
    requires TwoControllers(c, lb) && Fits(c, lb, page)
    ensures var s := SliceBits(c);
      Generate(c, mc, bank, page)
      == Shl(Layout(Shr(page, s), lb, BankBits(c, lb, bank, page), s, Low(page, s), McBit(c, lb, mc, page)), c.pageBit)
  {
    var s, bits := SliceBits(c), BankBits(c, lb, bank, page);
    GenerateSum(c, lb, mc, bank, page);
    Unwrapped(Low(page, s), s, 1);
    Unwrapped(bits, lb, s + 1);
    UpperUnwrapped(page, s, lb + 1);
    hide *;
    LayoutSum(Shr(page, s), lb, bits, s, Low(page, s), McBit(c, lb, mc, page));
  }

  lemma GenerateSum(c: Config, lb: nat, mc: nat, bank: nat, page: nat)
    requires TwoControllers(c, lb)
    ensures var s := SliceBits(c);
      Generate(c, mc, bank, page)
      == Shl(McBit(c, lb, mc, page) + Wrap(Shl(Low(page, s), 1)) + Wrap(Shl(BankBits(c, lb, bank, page), s + 1))
             + Wrap(Shl(Shr(page, s), lb + 1 + s)), c.pageBit)
  {
    assert Pow2(1) == 2 && Log2(2) == 1 by { Log2Pow2(1); }
    Log2Pow2(lb);
    hide Pow2, Shl, Shr, Log2, Remainder, Xor, Wrap;
  }

  lemma PeelBits(a: nat, k: nat, h: nat, n: nat, low: nat)
    requires Shr(a, k) == Shl(h, n) + low && low < Pow2(n)
    ensures Low(Shr(a, k), n) == low && Shr(a, k + n) == h
  {
    PushBits(h, n, low);
    ShrShr(a, k, n);
  }

  /** Reading the fields back from the layout. */
  lemma LayoutFields(a: nat, base: nat, upper: nat, lb: nat, bankBit: nat, s: nat, slice: nat, mcBit: nat)
    requires a == Shl(Layout(upper, lb, bankBit, s, slice, mcBit), base)
    requires bankBit < Pow2(lb) && slice < Pow2(s) && mcBit < Pow2(1)
    ensures Low(Shr(a, base), 1) == mcBit
    ensures Low(Shr(a, base + 1), s) == slice
    ensures Low(Shr(a, base + 1 + s), lb) == bankBit
    ensures Shr(a, base + 1 + s + lb) == upper
  {
    hide *;
    var x := Shl(upper, lb) + bankBit;
    var y := Shl(x, s) + slice;
    LayoutUnfold(upper, lb, bankBit, s, slice, mcBit);
    PushBits(Layout(upper, lb, bankBit, s, slice, mcBit), base, 0);
    PeelBits(a, base, y, 1, mcBit);
    PeelBits(a, base + 1, x, s, slice);
    PeelBits(a, base + 1 + s, upper, lb, bankBit);
  }

  lemma LayoutUnfold(upper: nat, lb: nat, bankBit: nat, s: nat, slice: nat, mcBit: nat)
    ensures Layout(upper, lb, bankBit, s, slice, mcBit) == Shl(Shl(Shl(upper, lb) + bankBit, s) + slice, 1) + mcBit
  {
  }

  /** Hashing a hashed unit with the same upper bits gives the unit back. */
  lemma Rehash(unit: nat, upper: nat, raw: nat, l: nat)
    requires unit < Pow2(l) && Low(raw, l) == Low(Xor(unit, upper), l)
    ensures Low(Xor(raw, upper), l) == unit
  {
    XorLow(raw, upper, l);
    XorLow(unit, upper, l);
    LowSmall(unit, l);
    XorInvolutive(unit, Low(upper, l));
  }

  lemma LowSmall(a: nat, l: nat)
    requires a < Pow2(l)
    ensures Low(a, l) == a
  {
    DivModUnique(a, Pow2(l), 0, a);
  }

  /** The row left after squeezing out the bank bits and the controller bit. */
  lemma RowOf(c: Config, lb: nat, a: nat, page: nat)
    requires TwoControllers(c, lb)
    requires Low(Shr(a, c.mc.base + 1), SliceBits(c)) == Low(page, SliceBits(c))
    requires Shr(a, c.bank.base + lb) == Shr(page, SliceBits(c))
    ensures PageNum(c, a) == page
  {
    var s, p := SliceBits(c), Remove(c.bank, a);
    var z := Shr(p, c.mc.base + 1);
    Split(c.bank, a, lb);
    assert HasBits(c.mc, 1) by { assert Pow2(1) == 2; }
    Split(c.mc, p, 1);
    LowerFieldKept(c.bank, a, lb, c.mc.base + 1, s);
    ShrShr(p, c.mc.base + 1, s);
    SamePage(z, page, s);
    hide Remove, Shr, Low;
    OneRank(c, a);
  }

  /** One rank takes no bits, so only the bank and controller fields are squeezed out. */
  lemma OneRank(c: Config, a: nat)
    requires Generates(c) && c.rank.width == 1
    ensures PageNum(c, a) == Shr(Remove(c.mc, Remove(c.bank, a)), c.pageBit)
  {
    NoField(c.rank, a);
    NoField(c.rank, Remove(c.bank, a));
    NoField(c.rank, Remove(c.mc, Remove(c.bank, a)));
  }

  /** A generated address decodes to the place it was generated for. */
  lemma DecodeOfGenerate(c: Config, lb: nat, mc: nat, bank: nat, page: nat)
    requires TwoControllers(c, lb) && Fits(c, lb, page) && mc < 2 && bank < c.bank.width
    ensures var a := Generate(c, mc, bank, page);
      && WhichMc(c, a) == mc && RankNum(c, a) == 0 && BankNum(c, a) == bank && PageNum(c, a) == page
      && Low(a, c.pageBit) == 0
  {
    var s, a, h := SliceBits(c), Generate(c, mc, bank, page), Hash(c, lb, page);
    GenerateLayout(c, lb, mc, bank, page);
    LayoutFields(a, c.pageBit, Shr(page, s), lb, BankBits(c, lb, bank, page), s, Low(page, s), McBit(c, lb, mc, page));
    assert Shr(a, c.xorBit) == h by {
      ShrShr(a, c.bank.base + lb, c.xorBit - c.bank.base - lb);
      ShrShr(page, s, c.xorBit - c.bank.base - lb);
    }
    assert Pow2(1) == 2;
    Rehash(mc, h, Shr(a, c.mc.base), 1);
    Rehash(bank, h, Shr(a, c.bank.base), lb);
    RowOf(c, lb, a, page);
    PushBits(Layout(Shr(page, s), lb, BankBits(c, lb, bank, page), s, Low(page, s), McBit(c, lb, mc, page)), c.pageBit, 0);
  }

  /** Conversely, generating from the decoded place gives the first address of the page back. */
  lemma GenerateOfDecode(c: Config, lb: nat, a: nat)
    requires TwoControllers(c, lb) && Fits(c, lb, PageNum(c, a)) && Low(a, c.pageBit) == 0
    ensures Generate(c, WhichMc(c, a), BankNum(c, a), PageNum(c, a)) == a
  {
    var g := Generate(c, WhichMc(c, a), BankNum(c, a), PageNum(c, a));
    DecodeOfGenerate(c, lb, WhichMc(c, a), BankNum(c, a), PageNum(c, a));
    assert Pow2(0) == 1 && Pow2(1) == 2;
    assert WellSeparated(c, 0, lb, 1);
    DecodeInjective(c, 0, lb, 1, g, a);
  }
}
