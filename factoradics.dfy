/**
 * Factorial-number-system helpers shared by the set randomizer: the 64-bit
 * `Bits` register, the factorial products and the constant block table that
 * cuts set positions 0..253 into factoradic blocks of at most 20 entries.
 */
module Factoradics {

  const UInt64Modulus: int := 0x1_0000_0000_0000_0000
  const UInt64Max: int := 0xFFFF_FFFF_FFFF_FFFF

  newtype byte = x: int | 0 <= x < 0x100
  newtype uint32 = x: int | 0 <= x < 0x1_0000_0000
  newtype uint64 = x: int | 0 <= x < 0x1_0000_0000_0000_0000

  /** Number of entries of the block table. */
  const CNumBlock: nat := 28
  /** Number of slots of one permutation block (a 20-byte array). */
  const CPermutationIndexesPerBlock: nat := 20

  /** The 64-bit register that a random draw is unranked from. */
  class Bits {
    var value: int

    ghost predicate Valid()
      reads this
    {
      0 <= value < UInt64Modulus
    }

    constructor (v: int)
      requires 0 <= v < UInt64Modulus
      ensures Valid() && value == v
    {
      value := v;
    }

    /** Keeps the remainder in the register and hands back the quotient. */
    method DivAndSetToRemainder(divisor: int) returns (quotient: int)
      requires Valid() && 0 < divisor
      modifies this
      ensures Valid()
      ensures quotient * divisor + value == old(value)
      ensures 0 <= value < divisor && 0 <= quotient <= old(value)
    {
      DivAtMost(value, divisor);
      quotient := value / divisor;
      value := value % divisor;
    }

    /** The lowest bit of the register. */
    function FinalBit(): (bit: int)
      reads this
      requires Valid()
      ensures bit == value % 2
    {
      ((value as bv64) & 1) as int
    }
  }

  /**
   * Two 32-bit draws combined as `((int64)hi << 32) & INT64_MAX | lo`: the
   * shift wraps modulo 2^64, the mask keeps the low 63 bits, and the low 32
   * bits are zero before `lo` is or-ed in, so the or is an addition.
   */
  function MakeRandomBits(hi: uint32, lo: uint32): (r: int)
    ensures 0 <= r < 0x8000_0000_0000_0000
    ensures r % 0x1_0000_0000 == lo as int
    ensures r / 0x1_0000_0000 == hi as int % 0x8000_0000
  {
    var shifted := (hi as int * 0x1_0000_0000) % UInt64Modulus;
    var masked := shifted % 0x8000_0000_0000_0000;
    MakeRandomBitsLemma(hi as int, lo as int);
    masked + lo as int
  }

  lemma MakeRandomBitsLemma(hi: int, lo: int)
    requires 0 <= hi < 0x1_0000_0000 && 0 <= lo < 0x1_0000_0000
    ensures var m := ((hi * 0x1_0000_0000) % UInt64Modulus) % 0x8000_0000_0000_0000;
            m == (hi % 0x8000_0000) * 0x1_0000_0000
            && (m + lo) % 0x1_0000_0000 == lo && (m + lo) / 0x1_0000_0000 == hi % 0x8000_0000
  {
    var h := hi % 0x8000_0000;
    assert hi == (hi / 0x8000_0000) * 0x8000_0000 + h;
    assert hi / 0x8000_0000 == 0 || hi / 0x8000_0000 == 1;
    assert hi * 0x1_0000_0000 == (hi / 0x8000_0000) * 0x8000_0000_0000_0000 + h * 0x1_0000_0000;
    assert h * 0x1_0000_0000 < 0x8000_0000_0000_0000;
  }

  /** The product of every k with min < k <= max; 1 for an empty range. */
  function Product(min: int, max: int): (p: int)
    decreases max - min
    ensures 0 <= min ==> 1 <= p
  {
    if max <= min then 1 else (min + 1) * Product(min + 1, max)
  }

  /** Peeling the top factor: the product grows by `max` when `max` joins the range. */
  lemma {:induction false} ProductTop(min: int, max: int)
    requires min < max
    ensures Product(min, max) == Product(min, max - 1) * max
    decreases max - min
  {
    if min + 1 < max {
      ProductTop(min + 1, max);
      var x := Product(min + 1, max - 1);
      assert Product(min, max) == (min + 1) * (x * max);
      assert Product(min, max - 1) == (min + 1) * x;
      MulAssoc(min + 1, x, max);
    } else {
      assert Product(min, max) == max * Product(max, max);
    }
  }

  lemma MulAssoc(a: int, x: int, y: int)
    ensures a * (x * y) == (a * x) * y
  {
  }

  /** Dividing a non-negative value by a positive divisor never makes it larger. */
  lemma DivAtMost(v: int, d: int)
    requires 0 <= v && 1 <= d
    ensures 0 <= v / d <= v
  {
    var q := v / d;
    assert q * d + v % d == v;
    if q >= 1 {
      MulAtLeast(q, d);
    }
  }

  lemma MulAtLeast(x: int, y: int)
    requires 1 <= x && 1 <= y
    ensures x <= x * y
  {
    assert x * y == x + x * (y - 1);
  }

  /** A range's product is the product of its two halves. */
  lemma {:induction false} ProductSplit(a: int, b: int, c: int)
    requires a <= b <= c
    ensures Product(a, c) == Product(a, b) * Product(b, c)
    decreases b - a
  {
    if a < b {
      ProductSplit(a + 1, b, c);
      var x := Product(a + 1, b);
      var y := Product(b, c);
      var pc := Product(a + 1, c);
      assert pc == x * y;
      assert Product(a, c) == (a + 1) * pc;
      assert Product(a, b) == (a + 1) * x;
      MulAssoc(a + 1, x, y);
    }
  }

  /** A non-negative range's product never shrinks when the range is extended upwards. */
  lemma ProductMonotone(a: int, b: int, c: int)
    requires 0 <= a <= b <= c
    ensures Product(a, b) <= Product(a, c)
  {
    ProductSplit(a, b, c);
    MulAtLeast(Product(a, b), Product(b, c));
  }

  lemma ModMultipleAdd(t: int, x: int)
    ensures (t * UInt64Modulus + x) % UInt64Modulus == x % UInt64Modulus
  {
  }

  /** Reducing a factor modulo 2^64 before multiplying does not change the product modulo 2^64. */
  lemma MulMod(a: int, b: int)
    ensures (a % UInt64Modulus * b) % UInt64Modulus == (a * b) % UInt64Modulus
  {
    var q := a / UInt64Modulus;
    var r := a % UInt64Modulus;
    assert a == q * UInt64Modulus + r;
    assert a * b == (q * UInt64Modulus + r) * b;
    assert (q * UInt64Modulus + r) * b == (q * b) * UInt64Modulus + r * b;
    ModMultipleAdd(q * b, r * b);
  }

  /** `min(value, tMax)`, the clamp used to stop a factorial range at the block's end. */
  function ConstMax(tMax: int, value: int): (r: int)
    ensures r <= tMax && r <= value
    ensures r == tMax || r == value
  {
    if value > tMax then tMax else value
  }

  /**
   * The accumulating loop `for (; max > min; --max) value *= max` on a 64-bit
   * register: the product of (min, max] taken modulo 2^64.
   */
  method ConstFactorialRange(min: int, max: int) returns (value: int)
    ensures value == Product(min, max) % UInt64Modulus
  {
    value := 1;
    var m := max;
    while m > min
      invariant m <= max && (min <= m || m == max)
      invariant value == Product(m, max) % UInt64Modulus
      decreases m - min
    {
      MulMod(Product(m, max), m);
      assert Product(m - 1, max) == m * Product(m, max);
      value := (value * m) % UInt64Modulus;
      m := m - 1;
    }
  }

  /**
   * The factorial range the unranking divides by when `m` labels remain in a
   * block whose factors run over (minFactorial, maxFactorial]. The offset is
   * unsigned in the source, so any m below minFactorial falls to the default
   * case, as does an offset beyond 20.
   */
  function FactorialRange(minFactorial: int, maxFactorial: int, m: int): (r: int)
    ensures 0 <= r < UInt64Modulus
    ensures !(0 <= m - minFactorial <= 20) ==> r == 1
  {
    var offset := m - minFactorial;
    if 0 <= offset <= 20 then
      Product(minFactorial, ConstMax(maxFactorial, minFactorial + offset)) % UInt64Modulus
    else
      1
  }

  /** One entry of the block table. */
  datatype Block = Block(
    MinFactorial: int,
    MaxFactorial: int,
    MinSetPosition: int,
    MaxNumOfMaxFactoradic: int,
    CoinflipFinalTwo: bool)

  /** The entries each block is given before the builder offsets them. */
  const BlockWidths: seq<nat> :=
    [20, 13, 11, 11,
     10, 10, 9, 9,
     9, 9, 9, 9,
     8, 8, 8, 8,
     8, 8, 8, 8,
     8, 8, 8, 8,
     8, 7, 7, 7]

  /** Width of block i, read off the table by runs of equal widths. */
  function BlockWidth(i: nat): (w: nat)
    requires i < CNumBlock
    ensures 2 <= w <= CPermutationIndexesPerBlock
  {
    if i == 0 then 20
    else if i == 1 then 13
    else if i <= 3 then 11
    else if i <= 5 then 10
    else if i <= 11 then 9
    else if i <= 24 then 8
    else 7
  }

  /** BlockWidth is the table BlockWidths, entry by entry. */
  lemma BlockWidthMatchesTable(i: nat)
    requires i < CNumBlock
    ensures BlockWidths[i] == BlockWidth(i)
  {
  }

  /** The running base of block i: the sum of the widths before it, in closed form. */
  function BlockBase(i: nat): (base: nat)
    requires i <= CNumBlock
  {
    if i == 0 then 0
    else if i == 1 then 20
    else if i <= 4 then 33 + 11 * (i - 2)
    else if i <= 6 then 55 + 10 * (i - 4)
    else if i <= 12 then 75 + 9 * (i - 6)
    else if i <= 25 then 129 + 8 * (i - 12)
    else 233 + 7 * (i - 25)
  }

  /** The closed form is the builder's running sum: each base adds the previous block's width. */
  lemma BlockBaseStep(i: nat)
    requires i < CNumBlock
    ensures BlockBase(0) == 0
    ensures BlockBase(i + 1) == BlockBase(i) + BlockWidths[i]
    ensures BlockBase(CNumBlock) == 254
  {
    BlockWidthMatchesTable(i);
  }

  /** The first table position block i covers. */
  function MinSetPositionOf(i: nat): (p: nat)
    requires i < CNumBlock
  {
    BlockBase(i)
  }

  /** The smallest factor in block i's factorial range. */
  function MinFactorialOf(i: nat): (m: nat)
    requires i < CNumBlock
    ensures m == MinSetPositionOf(i) + 1
  {
    1 + BlockBase(i)
  }

  /** The largest factor in block i's factorial range (one past its last position). */
  function MaxFactorialOf(i: nat): (m: nat)
    requires i < CNumBlock
    ensures MinFactorialOf(i) < m
  {
    BlockWidth(i) + BlockBase(i)
  }

  /** How many numbers below the whole block product fit in a 64-bit value. */
  function MaxNumOf(i: nat): (n: nat)
    requires i < CNumBlock
  {
    BlockRangeFits(i);
    UInt64Max / Product(MinFactorialOf(i), MaxFactorialOf(i))
  }

  /** Entry i of the table the builder loop produces. */
  function BlockAt(i: nat): (b: Block)
    requires i < CNumBlock
  {
    Block(MinFactorialOf(i), MaxFactorialOf(i), MinSetPositionOf(i), MaxNumOf(i), i == 0)
  }

  /** The whole constant table `cBlocks`. */
  function CBlocks(): (blocks: seq<Block>)
    ensures |blocks| == CNumBlock
  {
    seq(CNumBlock, i requires 0 <= i < CNumBlock => BlockAt(i))
  }

  /** Block 0's product is 20!, taken in two halves. */
  lemma Block0ProductFits()
    ensures Product(1, 20) <= UInt64Max
  {
    ProductSplit(1, 10, 20);
    assert Product(1, 10) == 3628800;
    assert Product(10, 20) == 670442572800;
  }

  lemma Block1ProductFits()
    ensures Product(21, 33) <= UInt64Max
  {
  }

  lemma Block2ProductFits()
    ensures Product(34, 44) <= UInt64Max
  {
  }

  lemma Block3ProductFits()
    ensures Product(45, 55) <= UInt64Max
  {
  }

  lemma Block4ProductFits()
    ensures Product(56, 65) <= UInt64Max
  {
  }

  lemma Block5ProductFits()
    ensures Product(66, 75) <= UInt64Max
  {
  }

  lemma Block6ProductFits()
    ensures Product(76, 84) <= UInt64Max
  {
  }

  lemma Block7ProductFits()
    ensures Product(85, 93) <= UInt64Max
  {
  }

  lemma Block8ProductFits()
    ensures Product(94, 102) <= UInt64Max
  {
  }

  lemma Block9ProductFits()
    ensures Product(103, 111) <= UInt64Max
  {
  }

  lemma Block10ProductFits()
    ensures Product(112, 120) <= UInt64Max
  {
  }

  lemma Block11ProductFits()
    ensures Product(121, 129) <= UInt64Max
  {
  }

  lemma Block12ProductFits()
    ensures Product(130, 137) <= UInt64Max
  {
  }

  lemma Block13ProductFits()
    ensures Product(138, 145) <= UInt64Max
  {
  }

  lemma Block14ProductFits()
    ensures Product(146, 153) <= UInt64Max
  {
  }

  lemma Block15ProductFits()
    ensures Product(154, 161) <= UInt64Max
  {
  }

  lemma Block16ProductFits()
    ensures Product(162, 169) <= UInt64Max
  {
  }

  lemma Block17ProductFits()
    ensures Product(170, 177) <= UInt64Max
  {
  }

  lemma Block18ProductFits()
    ensures Product(178, 185) <= UInt64Max
  {
  }

  lemma Block19ProductFits()
    ensures Product(186, 193) <= UInt64Max
  {
  }

  lemma Block20ProductFits()
    ensures Product(194, 201) <= UInt64Max
  {
  }

  lemma Block21ProductFits()
    ensures Product(202, 209) <= UInt64Max
  {
  }

  lemma Block22ProductFits()
    ensures Product(210, 217) <= UInt64Max
  {
  }

  lemma Block23ProductFits()
    ensures Product(218, 225) <= UInt64Max
  {
  }

  lemma Block24ProductFits()
    ensures Product(226, 233) <= UInt64Max
  {
  }

  lemma Block25ProductFits()
    ensures Product(234, 240) <= UInt64Max
  {
  }

  lemma Block26ProductFits()
    ensures Product(241, 247) <= UInt64Max
  {
  }

  lemma Block27ProductFits()
    ensures Product(248, 254) <= UInt64Max
  {
  }

  lemma FirstBlocksFit(i: nat)
    requires i < 7
    ensures 1 <= Product(1 + BlockBase(i), BlockWidth(i) + BlockBase(i)) <= UInt64Max
  {
    if i == 0 {
      assert 1 + BlockBase(i) == 1 && BlockWidth(i) + BlockBase(i) == 20;
      Block0ProductFits();
    } else if i == 1 {
      assert 1 + BlockBase(i) == 21 && BlockWidth(i) + BlockBase(i) == 33;
      Block1ProductFits();
    } else if i == 2 {
      assert 1 + BlockBase(i) == 34 && BlockWidth(i) + BlockBase(i) == 44;
      Block2ProductFits();
    } else if i == 3 {
      assert 1 + BlockBase(i) == 45 && BlockWidth(i) + BlockBase(i) == 55;
      Block3ProductFits();
    } else if i == 4 {
      assert 1 + BlockBase(i) == 56 && BlockWidth(i) + BlockBase(i) == 65;
      Block4ProductFits();
    } else if i == 5 {
      assert 1 + BlockBase(i) == 66 && BlockWidth(i) + BlockBase(i) == 75;
      Block5ProductFits();
    } else {
      assert 1 + BlockBase(i) == 76 && BlockWidth(i) + BlockBase(i) == 84;
      Block6ProductFits();
    }
  }

  lemma MiddleBlocksFit(i: nat)
    requires 7 <= i < 14
    ensures 1 <= Product(1 + BlockBase(i), BlockWidth(i) + BlockBase(i)) <= UInt64Max
  {
    if i == 7 {
      assert 1 + BlockBase(i) == 85 && BlockWidth(i) + BlockBase(i) == 93;
      Block7ProductFits();
    } else if i == 8 {
      assert 1 + BlockBase(i) == 94 && BlockWidth(i) + BlockBase(i) == 102;
      Block8ProductFits();
    } else if i == 9 {
      assert 1 + BlockBase(i) == 103 && BlockWidth(i) + BlockBase(i) == 111;
      Block9ProductFits();
    } else if i == 10 {
      assert 1 + BlockBase(i) == 112 && BlockWidth(i) + BlockBase(i) == 120;
      Block10ProductFits();
    } else if i == 11 {
      assert 1 + BlockBase(i) == 121 && BlockWidth(i) + BlockBase(i) == 129;
      Block11ProductFits();
    } else if i == 12 {
      assert 1 + BlockBase(i) == 130 && BlockWidth(i) + BlockBase(i) == 137;
      Block12ProductFits();
    } else {
      assert 1 + BlockBase(i) == 138 && BlockWidth(i) + BlockBase(i) == 145;
      Block13ProductFits();
    }
  }

  lemma LaterBlocksFit(i: nat)
    requires 14 <= i < 21
    ensures 1 <= Product(1 + BlockBase(i), BlockWidth(i) + BlockBase(i)) <= UInt64Max
  {
    if i == 14 {
      assert 1 + BlockBase(i) == 146 && BlockWidth(i) + BlockBase(i) == 153;
      Block14ProductFits();
    } else if i == 15 {
      assert 1 + BlockBase(i) == 154 && BlockWidth(i) + BlockBase(i) == 161;
      Block15ProductFits();
    } else if i == 16 {
      assert 1 + BlockBase(i) == 162 && BlockWidth(i) + BlockBase(i) == 169;
      Block16ProductFits();
    } else if i == 17 {
      assert 1 + BlockBase(i) == 170 && BlockWidth(i) + BlockBase(i) == 177;
      Block17ProductFits();
    } else if i == 18 {
      assert 1 + BlockBase(i) == 178 && BlockWidth(i) + BlockBase(i) == 185;
      Block18ProductFits();
    } else if i == 19 {
      assert 1 + BlockBase(i) == 186 && BlockWidth(i) + BlockBase(i) == 193;
      Block19ProductFits();
    } else {
      assert 1 + BlockBase(i) == 194 && BlockWidth(i) + BlockBase(i) == 201;
      Block20ProductFits();
    }
  }

  lemma LastBlocksFit(i: nat)
    requires 21 <= i < 28
    ensures 1 <= Product(1 + BlockBase(i), BlockWidth(i) + BlockBase(i)) <= UInt64Max
  {
    if i == 21 {
      assert 1 + BlockBase(i) == 202 && BlockWidth(i) + BlockBase(i) == 209;
      Block21ProductFits();
    } else if i == 22 {
      assert 1 + BlockBase(i) == 210 && BlockWidth(i) + BlockBase(i) == 217;
      Block22ProductFits();
    } else if i == 23 {
      assert 1 + BlockBase(i) == 218 && BlockWidth(i) + BlockBase(i) == 225;
      Block23ProductFits();
    } else if i == 24 {
      assert 1 + BlockBase(i) == 226 && BlockWidth(i) + BlockBase(i) == 233;
      Block24ProductFits();
    } else if i == 25 {
      assert 1 + BlockBase(i) == 234 && BlockWidth(i) + BlockBase(i) == 240;
      Block25ProductFits();
    } else if i == 26 {
      assert 1 + BlockBase(i) == 241 && BlockWidth(i) + BlockBase(i) == 247;
      Block26ProductFits();
    } else {
      assert 1 + BlockBase(i) == 248 && BlockWidth(i) + BlockBase(i) == 254;
      Block27ProductFits();
    }
  }

  /**
   * The product of every block's factorial range fits in the 64-bit register.
   */
  lemma BlockRangeFits(i: nat)
    requires i < CNumBlock
    ensures 1 <= Product(1 + BlockBase(i), BlockWidth(i) + BlockBase(i)) <= UInt64Max
  {
    if i < 7 {
      FirstBlocksFit(i);
    } else if i < 14 {
      MiddleBlocksFit(i);
    } else if i < 21 {
      LaterBlocksFit(i);
    } else {
      LastBlocksFit(i);
    }
  }

  /**
   * The table is contiguous: block 0 starts at set position 0, each block
   * starts where the previous one ends, each covers 2 to 20 positions, and the
   * last block ends at 254.
   */
  lemma BlockTableContiguous(i: nat)
    requires i < CNumBlock
    ensures i == 0 ==> MinSetPositionOf(i) == 0
    ensures i + 1 < CNumBlock ==> MinSetPositionOf(i + 1) == MaxFactorialOf(i)
    ensures i + 1 == CNumBlock ==> MaxFactorialOf(i) == 254
    ensures 2 <= MaxFactorialOf(i) - MinSetPositionOf(i) <= CPermutationIndexesPerBlock
  {
  }

  /** Only block 0 settles its final two entries with a coin flip. */
  lemma CoinflipOnlyInFirstBlock(i: nat)
    requires i < CNumBlock
    ensures BlockAt(i).CoinflipFinalTwo <==> i == 0
  {
  }

  /** Every block can hold at least one maximal factoradic number, and no more than fit in 64 bits. */
  lemma MaxNumOfMaxFactoradicPositive(i: nat)
    requires i < CNumBlock
    ensures 1 <= MaxNumOf(i)
    ensures MaxNumOf(i) * Product(MinFactorialOf(i), MaxFactorialOf(i)) <= UInt64Max
  {
    BlockRangeFits(i);
    var p := Product(MinFactorialOf(i), MaxFactorialOf(i));
    DivFloorBound(UInt64Max, p);
  }

  /** A positive multiple of d is at least d. */
  lemma MulAtLeastOnce(k: int, d: int)
    requires 1 <= k && 0 < d
    ensures d <= k * d
  {
    assert k * d == (k - 1) * d + d;
  }

  /** Euclidean division has one quotient and one remainder. */
  lemma DivModUnique(v: int, d: int, q: int, r: int)
    requires 0 < d && 0 <= r < d && v == q * d + r
    ensures v / d == q && v % d == r
  {
    var q', r' := v / d, v % d;
    if q > q' {
      MulAtLeastOnce(q - q', d);
    } else if q < q' {
      MulAtLeastOnce(q' - q, d);
    }
  }

  /** Below twice the modulus a residue needs at most one subtraction. */
  lemma ModBelowTwice(a: nat, n: nat)
    requires 0 < n && a < 2 * n
    ensures a % n == if a < n then a else a - n
  {
    if a < n {
      DivModUnique(a, n, 0, a);
    } else {
      DivModUnique(a, n, 1, a - n);
    }
  }

  /** Truncating division by a divisor no larger than the dividend gives a positive quotient that undershoots. */
  lemma DivFloorBound(x: int, d: int)
    requires 1 <= d <= x
    ensures 1 <= x / d && (x / d) * d <= x
  {
  }

  /** The table's ends are strictly increasing, so a smaller block index means a smaller MaxFactorial. */
  lemma {:induction false} BlockMaxIncreasing(i: nat, j: nat)
    requires i < j < CNumBlock
    ensures MaxFactorialOf(i) < MaxFactorialOf(j)
    decreases j - i
  {
    BlockTableContiguous(j - 1);
    BlockTableContiguous(j);
    if i < j - 1 {
      BlockMaxIncreasing(i, j - 1);
    }
  }

  /**
   * The compile-time lambda that builds `cBlocks`: starting from the widths,
   * offset every block by the running base and record how many maximal
   * factoradic numbers fit in 64 bits; then mark block 0 for the coin flip.
   */
  method BuildBlocks() returns (blocks: seq<Block>)
    ensures blocks == CBlocks()
  {
    var table := new Block[CNumBlock](i requires 0 <= i < CNumBlock => Block(1, BlockWidths[i], 0, 0, false));
    var baseFactorial := 0;
    var i := 0;
    while i < CNumBlock
      invariant 0 <= i <= CNumBlock
      invariant baseFactorial == BlockBase(i)
      invariant BuiltUpTo(table[..], i)
      invariant forall j :: i <= j < CNumBlock ==> table[j] == Block(1, BlockWidths[j], 0, 0, false)
    {
      ghost var before := table[..];
      var entry, nextBase := OffsetBlock(i, table[i], baseFactorial);
      table[i] := entry;
      BuiltUpToExtend(before, table[..], i);
      baseFactorial := nextBase;
      i := i + 1;
    }
    table[0] := table[0].(CoinflipFinalTwo := true);
    blocks := table[..];
  }

  /** The first n entries of t are the table entries, apart from the coin-flip flag. */
  ghost predicate BuiltUpTo(t: seq<Block>, n: nat)
    requires n <= CNumBlock
  {
    |t| == CNumBlock && forall j :: 0 <= j < n ==> t[j] == BlockAt(j).(CoinflipFinalTwo := false)
  }

  lemma BuiltUpToExtend(t: seq<Block>, t': seq<Block>, i: nat)
    requires i < CNumBlock && BuiltUpTo(t, i) && t' == t[i := BlockAt(i).(CoinflipFinalTwo := false)]
    ensures BuiltUpTo(t', i + 1)
  {
  }

  /**
   * One step of the builder loop: offset the widths entry of block i by the
   * running base, record how many maximal factoradic numbers of the block fit
   * in 64 bits, and advance the base by the block's width.
   */
  method OffsetBlock(i: nat, block: Block, baseFactorial: int) returns (entry: Block, nextBase: int)
    requires i < CNumBlock && block == Block(1, BlockWidths[i], 0, 0, false) && baseFactorial == BlockBase(i)
    ensures entry == BlockAt(i).(CoinflipFinalTwo := false)
    ensures nextBase == BlockBase(i + 1)
  {
    nextBase := baseFactorial + block.MaxFactorial;
    var minFactorial := block.MinFactorial + baseFactorial;
    var maxFactorial := block.MaxFactorial + baseFactorial;
    var minSetPosition := block.MinSetPosition + baseFactorial;
    BlockBaseStep(i);
    BlockWidthMatchesTable(i);
    var unbiasedMaxBase := ConstFactorialRange(minFactorial, maxFactorial);
    BuiltEntry(i, unbiasedMaxBase);
    entry := Block(minFactorial, maxFactorial, minSetPosition, UInt64Max / unbiasedMaxBase, false);
  }

  /** One step of the builder loop produces table entry i, apart from the coin-flip flag. */
  lemma BuiltEntry(i: nat, unbiasedMaxBase: int)
    requires i < CNumBlock
    requires unbiasedMaxBase == Product(1 + BlockBase(i), BlockWidth(i) + BlockBase(i)) % UInt64Modulus
    ensures unbiasedMaxBase > 0
    ensures Block(1 + BlockBase(i), BlockWidth(i) + BlockBase(i), BlockBase(i), UInt64Max / unbiasedMaxBase, false)
         == BlockAt(i).(CoinflipFinalTwo := false)
  {
    BlockRangeFits(i);
    var p := Product(1 + BlockBase(i), BlockWidth(i) + BlockBase(i));
    ProductSmallMod(p);
    assert unbiasedMaxBase == p;
    assert MinFactorialOf(i) == 1 + BlockBase(i);
    assert MaxFactorialOf(i) == BlockWidth(i) + BlockBase(i);
    assert MaxNumOf(i) == UInt64Max / p;
  }

  /** The factorial range of block b at m remaining labels. */
  function BlockRange(b: nat, m: int): (r: int)
    requires b < CNumBlock
    ensures 0 <= r < UInt64Modulus
  {
    FactorialRange(MinFactorialOf(b), MaxFactorialOf(b), m)
  }

  /**
   * Inside a block, the factorial range grows by exactly m when m joins it,
   * so dividing a value below BlockRange(b, m) by BlockRange(b, m - 1) gives a
   * quotient below m.
   */
  lemma BlockRangeStep(b: nat, m: int)
    requires b < CNumBlock
    requires MinFactorialOf(b) < m <= MaxFactorialOf(b)
    ensures BlockRange(b, m) == BlockRange(b, m - 1) * m
    ensures 1 <= BlockRange(b, m - 1)
  {
    var lo, hi := MinFactorialOf(b), MaxFactorialOf(b);
    BlockRangeFits(b);
    ProductMonotone(lo, m, hi);
    ProductTop(lo, m);
    var p1, p0 := Product(lo, m), Product(lo, m - 1);
    assert p1 == p0 * m;
    assert p1 <= UInt64Max;
    assert 1 <= p0;
    MulAtLeast(p0, m);
    ProductSmallMod(p0);
    ProductSmallMod(p1);
    assert ConstMax(hi, m) == m;
    assert ConstMax(hi, m - 1) == m - 1;
  }

  /** A value already below 2^64 is its own remainder. */
  lemma ProductSmallMod(p: int)
    requires 0 <= p <= UInt64Max
    ensures p % UInt64Modulus == p
  {
  }

  /** At the block's MinFactorial, and one below it, the range is 1. */
  lemma BlockRangeAtMin(b: nat)
    requires b < CNumBlock
    ensures BlockRange(b, MinFactorialOf(b)) == 1
    ensures BlockRange(b, MinFactorialOf(b) - 1) == 1
  {
  }

  /** At the top of block b the range is the whole product of the block. */
  lemma BlockRangeAtMax(b: nat)
    requires b < CNumBlock
    ensures BlockRange(b, MaxFactorialOf(b)) == Product(MinFactorialOf(b), MaxFactorialOf(b))
  {
    var lo, hi := MinFactorialOf(b), MaxFactorialOf(b);
    BlockRangeFits(b);
    assert ConstMax(hi, hi) == hi;
    ProductSmallMod(Product(lo, hi));
  }

  /** Each block after the first starts where the one before it ends. */
  lemma BlockStartsAtPreviousEnd(b: nat)
    requires 0 < b < CNumBlock
    ensures MinSetPositionOf(b) == MaxFactorialOf(b - 1)
  {
    BlockTableContiguous(b - 1);
  }

  /** Blocks are disjoint: a block before b ends no later than b begins. */
  lemma BlockEndsBefore(r: nat, b: nat)
    requires r < b < CNumBlock
    ensures MaxFactorialOf(r) <= MinSetPositionOf(b)
  {
    BlockTableContiguous(b - 1);
    if r < b - 1 {
      BlockMaxIncreasing(r, b - 1);
    }
  }

  /**
   * The first block from k on whose MaxFactorial lies above set position p.
   * Its bounds are stated apart, in FirstBlockFromBounds, so that callers
   * see them only where they ask for them.
   */
  function FirstBlockFrom(p: int, k: nat): (b: nat)
    requires k < CNumBlock && MinSetPositionOf(k) <= p < MaxFactorialOf(CNumBlock - 1)
    ensures k <= b < CNumBlock
    decreases CNumBlock - k
  {
    BlockTableContiguous(k);
    if p < MaxFactorialOf(k) then k else FirstBlockFrom(p, k + 1)
  }

  /** The block FirstBlockFrom finds holds p and is not before k. */
  lemma {:induction false} FirstBlockFromBounds(p: int, k: nat)
    requires k < CNumBlock && MinSetPositionOf(k) <= p < MaxFactorialOf(CNumBlock - 1)
    ensures var b := FirstBlockFrom(p, k);
            k <= b < CNumBlock && MinSetPositionOf(b) <= p < MaxFactorialOf(b)
    decreases CNumBlock - k
  {
    BlockTableContiguous(k);
    if MaxFactorialOf(k) <= p {
      FirstBlockFromBounds(p, k + 1);
    }
  }

  /** The block holding set position p: the one whose positions MinSetPosition .. MaxFactorial - 1 include p. */
  function BlockOfPosition(p: int): (b: nat)
    requires 0 <= p < MaxFactorialOf(CNumBlock - 1)
    ensures b < CNumBlock
  {
    BlockTableContiguous(0);
    FirstBlockFrom(p, 0)
  }

  /** BlockOfPosition names a block, and that block holds p. */
  lemma BlockOfPositionBounds(p: int)
    requires 0 <= p < MaxFactorialOf(CNumBlock - 1)
    ensures var b := BlockOfPosition(p);
            b < CNumBlock && MinSetPositionOf(b) <= p < MaxFactorialOf(b)
  {
    BlockTableContiguous(0);
    FirstBlockFromBounds(p, 0);
  }

  /** Exactly one block holds each set position. */
  lemma BlockOfPositionIs(p: int, b: nat)
    requires b < CNumBlock && MinSetPositionOf(b) <= p < MaxFactorialOf(b)
    ensures p < MaxFactorialOf(CNumBlock - 1) && BlockOfPosition(p) == b
  {
    if b < CNumBlock - 1 {
      BlockMaxIncreasing(b, CNumBlock - 1);
    }
    BlockOfPositionBounds(p);
    var r := BlockOfPosition(p);
    if r < b {
      BlockEndsBefore(r, b);
    } else if r > b {
      BlockEndsBefore(b, r);
    }
  }

  /**
   * Where set position p sits in the blocks laid end to end, 20 slots each:
   * block BlockOfPosition(p), offset p - MinSetPosition inside it.
   */
  function SlotOfPosition(p: int): int
    requires 0 <= p < MaxFactorialOf(CNumBlock - 1)
  {
    var b := BlockOfPosition(p);
    CPermutationIndexesPerBlock * b + p - MinSetPositionOf(b)
  }

  /** A position of block b sits in block b's own slots, at offset p - MinSetPosition. */
  lemma SlotOfPositionIn(p: int, b: nat)
    requires b < CNumBlock && MinSetPositionOf(b) <= p < MaxFactorialOf(b)
    ensures p < MaxFactorialOf(CNumBlock - 1)
    ensures SlotOfPosition(p) == CPermutationIndexesPerBlock * b + p - MinSetPositionOf(b)
    ensures CPermutationIndexesPerBlock * b <= SlotOfPosition(p) < CPermutationIndexesPerBlock * (b + 1)
  {
    BlockOfPositionIs(p, b);
    BlockTableContiguous(b);
  }

  /** A position below block b's MaxFactorial sits in block b or an earlier one. */
  lemma PositionUpToBlock(p: int, b: nat)
    requires b < CNumBlock && 0 <= p < MaxFactorialOf(b)
    ensures p < MaxFactorialOf(CNumBlock - 1) && BlockOfPosition(p) <= b
    ensures 0 <= SlotOfPosition(p) < CPermutationIndexesPerBlock * (b + 1)
  {
    if b < CNumBlock - 1 {
      BlockMaxIncreasing(b, CNumBlock - 1);
    }
    BlockOfPositionBounds(p);
    var r := BlockOfPosition(p);
    if r > b {
      BlockEndsBefore(b, r);
    }
    SlotOfPositionIn(p, r);
  }

  /** The block-count constraint on a set randomizer. */
  predicate WithinPermutationBlockBounds(size: int)
  {
    0 < size <= CNumBlock
  }
}
