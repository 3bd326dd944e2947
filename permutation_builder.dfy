/**
 * The permutation builder of the set randomizer: a pool of still-unused
 * labels and a count of how many are live, from which `FillBlock` unranks one
 * 64-bit draw in the factorial number system into the slots of one block.
 */
module FactoradicBuilder {
  import opened Factoradics
  import opened Sequences

  /** The labels 0, 1, ..., n - 1 in order, as `std::iota` writes them. */
  function Iota(n: nat): (s: seq<byte>)
    requires n <= 0x100
    ensures |s| == n
    ensures forall i :: 0 <= i < n ==> s[i] as int == i
  {
    seq(n, i requires 0 <= i < n => i as byte)
  }

  /**
   * The live counts FillBlock accepts for block b: block 0 needs three labels
   * before its coin flip, every other block at least its first label.
   */
  predicate FillableCount(b: nat, n: int)
    requires b < CNumBlock
  {
    if b == 0 then 3 <= n <= CPermutationIndexesPerBlock
    else MinFactorialOf(b) <= n <= MaxFactorialOf(b)
  }

  /** Where the live count stands once FillBlock has finished block b. */
  function EntryAfterFill(b: nat): (n: nat)
    requires b < CNumBlock
    ensures b == 0 ==> n == 2
    ensures b > 0 ==> n == MinSetPositionOf(b)
  {
    if b == 0 then 2 else MinSetPositionOf(b)
  }

  /** The labels still live in the pool once block b is done; block 0 uses up the pool. */
  function PoolLeftAfterFill(b: nat): (n: nat)
    requires b < CNumBlock
    ensures b == 0 ==> n == 0
    ensures b > 0 ==> n == MinSetPositionOf(b)
  {
    if b == 0 then 0 else MinSetPositionOf(b)
  }

  /** Removing entry q by overwriting it with the last entry and dropping the last entry. */
  function SwapRemove(s: seq<byte>, q: nat): (t: seq<byte>)
    requires q < |s|
    ensures |t| == |s| - 1
    ensures multiset(t) + multiset{s[q]} == multiset(s)
  {
    var last := |s| - 1;
    var u := s[q := s[last]];
    assert s == s[..last] + [s[last]];
    assert u == u[..last] + [u[last]];
    if q == last then
      assert u == s;
      u[..last]
    else
      assert multiset(u) == multiset(s) - multiset{s[q]} + multiset{s[last]};
      u[..last]
  }

  /** A quotient of a value below d * m by d is below m. */
  lemma QuotientBelow(q: int, d: int, rest: int, r: int, m: int)
    requires 1 <= d && 0 <= q && 0 <= rest
    requires q * d + rest == r && r < d * m
    ensures q < m
  {
    if q >= m {
      assert q * d >= m * d by {
        assert q * d == m * d + (q - m) * d;
      }
      assert false;
    }
  }

  /** One step down inside a product that fits in 64 bits. */
  lemma ProductStep(lo: nat, m: int, hi: int)
    requires lo < m <= hi && Product(lo, hi) <= UInt64Max
    ensures Product(lo, m) == Product(lo, m - 1) * m
    ensures 1 <= Product(lo, m - 1) && Product(lo, m) <= UInt64Max
  {
    ProductMonotone(lo, m, hi);
    ProductTop(lo, m);
  }

  /** A block never ends after the block a builder was sized for. */
  lemma BlockMaxIncreasingOrSame(b: nat, k: nat)
    requires b <= k < CNumBlock
    ensures MaxFactorialOf(b) <= MaxFactorialOf(k)
  {
    if b < k {
      BlockMaxIncreasing(b, k);
    }
  }

  /** Inside block b, the factorial range at m is the plain product up to m, at least 1 and below 2^64. */
  lemma BlockRangeInside(b: nat, m: int)
    requires b < CNumBlock
    requires MinFactorialOf(b) <= m <= MaxFactorialOf(b)
    ensures BlockRange(b, m) == Product(MinFactorialOf(b), m)
    ensures 1 <= BlockRange(b, m) <= UInt64Max
  {
    var lo, hi := MinFactorialOf(b), MaxFactorialOf(b);
    BlockRangeFits(b);
    ProductMonotone(lo, m, hi);
    assert ConstMax(hi, m) == m;
    ProductSmallMod(Product(lo, m));
  }

  /** Writing the slot just below the filled region extends the region by that label. */
  lemma PlaceInto(start: seq<byte>, filled: seq<byte>, k: nat, last: nat, v: byte)
    requires 0 < k <= last <= |start| && |filled| == last - k
    ensures (start[..k] + filled + start[last..])[k - 1 := v] == start[..k - 1] + ([v] + filled) + start[last..]
  {
    var before := start[..k] + filled + start[last..];
    var after := start[..k - 1] + ([v] + filled) + start[last..];
    assert |before| == |after|;
    forall i | 0 <= i < |after|
      ensures before[k - 1 := v][i] == after[i]
    {
      if i < k - 1 {
      } else if i == k - 1 {
      } else if i < last {
        assert after[i] == filled[i - k];
      } else {
      }
    }
  }

  /**
   * The coin flip on block 0 writes the last two live labels into slots 0
   * and 1 in the order the bit picks; the region then holds both of them.
   */
  lemma CoinInto(start: seq<byte>, filled: seq<byte>, last: nat, bit: int, poolBefore: seq<byte>)
    returns (pair: seq<byte>)
    requires 2 <= last <= |start| && |filled| == last - 2 && 0 <= bit <= 1 && |poolBefore| == 2
    ensures multiset(pair) == multiset(poolBefore)
    ensures (start[..2] + filled + start[last..])[bit := poolBefore[1]][1 - bit := poolBefore[0]]
            == start[..0] + (pair + filled) + start[last..]
  {
    pair := if bit == 0 then [poolBefore[1], poolBefore[0]] else [poolBefore[0], poolBefore[1]];
    assert poolBefore == [poolBefore[0], poolBefore[1]];
    var before := start[..2] + filled + start[last..];
    var after := start[..0] + (pair + filled) + start[last..];
    assert |before| == |after|;
    forall i | 0 <= i < |after|
      ensures before[bit := poolBefore[1]][1 - bit := poolBefore[0]][i] == after[i]
    {
      if i < 2 {
      } else if i < last {
        assert after[i] == filled[i - 2];
      }
    }
  }

  /** The three parts of a concatenation can be read back by slicing. */
  lemma Decompose(a: seq<byte>, b: seq<byte>, c: seq<byte>)
    ensures (a + b + c)[..|a|] == a
    ensures (a + b + c)[|a|..|a| + |b|] == b
    ensures (a + b + c)[|a| + |b|..] == c
  {
  }

  /** The label the blocks hold for set position p, once blocks b, ..., 0 are filled. */
  function FilledSlot(s: seq<byte>, b: nat, p: int): byte
    requires b < CNumBlock && CPermutationIndexesPerBlock * (b + 1) <= |s|
  {
    if 0 <= p < MaxFactorialOf(b) then
      PositionUpToBlock(p, b);
      s[SlotOfPosition(p)]
    else
      0
  }

  /**
   * The labels the blocks hold for set positions 0 .. n - 1, in order, once
   * blocks b, b - 1, ..., 0 are filled from a live count of n in block b.
   */
  function FilledSlots(s: seq<byte>, b: nat, n: int): (r: seq<byte>)
    requires b < CNumBlock && CPermutationIndexesPerBlock * (b + 1) <= |s|
    requires 0 <= n <= MaxFactorialOf(b)
    ensures |r| == n
  {
    seq(n, p => FilledSlot(s, b, p))
  }


  /** Block 0's positions are its slots. */
  lemma FilledSlotsFirstBlock(s: seq<byte>, n: int)
    requires CPermutationIndexesPerBlock <= |s| && 0 <= n <= MaxFactorialOf(0)
    ensures FilledSlots(s, 0, n) == s[..n]
  {
    BlockTableContiguous(0);
    forall p | 0 <= p < n
      ensures FilledSlots(s, 0, n)[p] == s[p]
    {
      SlotOfPositionIn(p, 0);
    }
  }

  /** Block b's filled slots for a live count of n on entry: its first n - MinSetPosition ones. */
  function OwnSlots(s: seq<byte>, b: nat, n: int): (r: seq<byte>)
    requires b < CNumBlock && CPermutationIndexesPerBlock * (b + 1) <= |s|
    requires MinSetPositionOf(b) <= n <= MaxFactorialOf(b)
    ensures |r| == n - MinSetPositionOf(b)
  {
    BlockTableContiguous(b);
    s[CPermutationIndexesPerBlock * b..CPermutationIndexesPerBlock * b + n - MinSetPositionOf(b)]
  }

  /** A position below block b - 1's MaxFactorial reads the same label up to block b as up to block b - 1. */
  lemma FilledSlotsBelow(s: seq<byte>, b: nat, n: int, p: int)
    requires 0 < b < CNumBlock && CPermutationIndexesPerBlock * (b + 1) <= |s|
    requires 0 <= p < MaxFactorialOf(b - 1) && p < n <= MaxFactorialOf(b)
    ensures FilledSlots(s, b, n)[p] == FilledSlots(s, b - 1, MaxFactorialOf(b - 1))[p]
  {
    BlockMaxIncreasing(b - 1, b);
    assert FilledSlots(s, b, n)[p] == FilledSlot(s, b, p);
  }

  /** A position of block b's own reads block b's slot at offset p - MinSetPosition. */
  lemma FilledSlotsOwn(s: seq<byte>, b: nat, n: int, p: int)
    requires b < CNumBlock && CPermutationIndexesPerBlock * (b + 1) <= |s|
    requires MinSetPositionOf(b) <= p < n <= MaxFactorialOf(b)
    ensures 0 <= CPermutationIndexesPerBlock * b + p - MinSetPositionOf(b) < |s|
    ensures FilledSlots(s, b, n)[p] == s[CPermutationIndexesPerBlock * b + p - MinSetPositionOf(b)]
  {
    SlotOfPositionIn(p, b);
    assert FilledSlots(s, b, n)[p] == FilledSlot(s, b, p);
  }

  /** The positions below block b are those FilledSlots gives up to block b - 1. */
  lemma FilledSlotsPrefix(s: seq<byte>, b: nat, n: int)
    requires 0 < b < CNumBlock && CPermutationIndexesPerBlock * (b + 1) <= |s|
    requires MinSetPositionOf(b) <= n <= MaxFactorialOf(b)
    ensures MaxFactorialOf(b - 1) <= n
    ensures FilledSlots(s, b, n)[..MaxFactorialOf(b - 1)] == FilledSlots(s, b - 1, MaxFactorialOf(b - 1))
  {
    BlockTableContiguous(b - 1);
    var m := MaxFactorialOf(b - 1);
    forall p | 0 <= p < m
      ensures FilledSlots(s, b, n)[..m][p] == FilledSlots(s, b - 1, m)[p]
    {
      FilledSlotsBelow(s, b, n, p);
    }
  }

  /** Block b's own positions are block b's first n - MinSetPosition slots. */
  lemma FilledSlotsSuffix(s: seq<byte>, b: nat, n: int)
    requires b < CNumBlock && CPermutationIndexesPerBlock * (b + 1) <= |s|
    requires MinSetPositionOf(b) <= n <= MaxFactorialOf(b)
    ensures FilledSlots(s, b, n)[MinSetPositionOf(b)..] == OwnSlots(s, b, n)
  {
    var msp := MinSetPositionOf(b);
    var filled := FilledSlots(s, b, n);
    var own := OwnSlots(s, b, n);
    forall p | 0 <= p < n - msp
      ensures filled[msp + p] == own[p]
    {
      FilledSlotsOwn(s, b, n, msp + p);
      OwnSlotAt(s, b, n, p);
    }
    SuffixIs(filled, msp, own);
  }

  /** Block b's own slot p is the block's slot at offset p. */
  lemma OwnSlotAt(s: seq<byte>, b: nat, n: int, p: nat)
    requires b < CNumBlock && CPermutationIndexesPerBlock * (b + 1) <= |s|
    requires MinSetPositionOf(b) <= n <= MaxFactorialOf(b) && p < n - MinSetPositionOf(b)
    ensures CPermutationIndexesPerBlock * b + p < |s|
    ensures OwnSlots(s, b, n)[p] == s[CPermutationIndexesPerBlock * b + p]
  {
    BlockTableContiguous(b);
  }


  /** What a sequence equal to s from `last` on says about each entry there. */
  lemma AgreeFrom(s: seq<byte>, t: seq<byte>, last: int)
    requires 0 <= last <= |s| == |t| && t[last..] == s[last..]
    ensures forall i :: last <= i < |s| ==> t[i] == s[i]
  {
    forall i | last <= i < |s|
      ensures t[i] == s[i]
    {
      assert t[last..][i - last] == s[last..][i - last];
    }
  }

  /**
   * Block b's own fill took some of the live labels into its slots and left
   * the rest in the pool; filling the blocks below took those. While the
   * blocks below were filled, block b's slots kept what block b's fill put there.
   */
  lemma FilledSlotsJoin(mid: seq<byte>, fin: seq<byte>, b: nat, n0: int, m: int,
                        left: seq<byte>, live: multiset<byte>)
    requires 0 < b < CNumBlock && CPermutationIndexesPerBlock * (b + 1) <= |mid| == |fin|
    requires MinSetPositionOf(b) <= n0 <= MaxFactorialOf(b) && m == MaxFactorialOf(b - 1)
    requires multiset(OwnSlots(mid, b, n0)) + multiset(left) == live
    requires multiset(FilledSlots(fin, b - 1, m)) == multiset(left)
    requires forall i :: CPermutationIndexesPerBlock * b <= i < |fin| ==> fin[i] == mid[i]
    ensures multiset(FilledSlots(fin, b, n0)) == live
  {
    FilledSlotsPrefix(fin, b, n0);
    FilledSlotsSuffix(fin, b, n0);
    OwnSlotsAgree(mid, fin, b, n0);
    BlockStartsAtPreviousEnd(b);
    MultisetJoin(FilledSlots(fin, b, n0), MaxFactorialOf(b - 1), MinSetPositionOf(b),
                 FilledSlots(fin, b - 1, MaxFactorialOf(b - 1)), OwnSlots(fin, b, n0), OwnSlots(mid, b, n0), left, live);
  }

  /** A sequence cut in two holds the labels of both parts. */
  lemma MultisetJoin(whole: seq<byte>, m: int, msp: int, below: seq<byte>, own: seq<byte>, ownBefore: seq<byte>,
                     left: seq<byte>, live: multiset<byte>)
    requires 0 <= m <= |whole| && m == msp
    requires whole[..m] == below && whole[msp..] == own && own == ownBefore
    requires multiset(ownBefore) + multiset(left) == live && multiset(below) == multiset(left)
    ensures multiset(whole) == live
  {
    assert whole == whole[..m] + whole[m..];
  }

  /** OwnSlots is the slice from block b's first slot to its last filled one. */
  lemma OwnSlotsAre(s: seq<byte>, b: nat, n: int, first: int, last: int)
    requires b < CNumBlock && CPermutationIndexesPerBlock * (b + 1) <= |s|
    requires MinSetPositionOf(b) <= n <= MaxFactorialOf(b)
    requires first == CPermutationIndexesPerBlock * b && last == first + n - MinSetPositionOf(b)
    ensures 0 <= first <= last <= |s| && OwnSlots(s, b, n) == s[first..last]
  {
    BlockTableContiguous(b);
  }

  /** Sequences that agree from block b's first slot on agree on block b's filled slots. */
  lemma OwnSlotsAgree(mid: seq<byte>, fin: seq<byte>, b: nat, n: int)
    requires b < CNumBlock && CPermutationIndexesPerBlock * (b + 1) <= |mid| == |fin|
    requires MinSetPositionOf(b) <= n <= MaxFactorialOf(b)
    requires forall i :: CPermutationIndexesPerBlock * b <= i < |fin| ==> fin[i] == mid[i]
    ensures OwnSlots(fin, b, n) == OwnSlots(mid, b, n)
  {
    BlockTableContiguous(b);
  }

  /** Block 0's fill takes every live label into its slots. */
  lemma FilledSlotsFirst(mid: seq<byte>, n0: int, left: seq<byte>, live: multiset<byte>)
    requires CPermutationIndexesPerBlock <= |mid| && MinSetPositionOf(0) <= n0 <= MaxFactorialOf(0)
    requires multiset(OwnSlots(mid, 0, n0)) + multiset(left) == live && |left| == 0
    ensures multiset(FilledSlots(mid, 0, n0)) == live
  {
    BlockTableContiguous(0);
    FilledSlotsFirstBlock(mid, n0);
    assert multiset(left) == multiset{};
  }



  /** A live count FillBlock accepts lies inside the block's set positions. */
  lemma FillableInside(b: nat, n: int)
    requires b < CNumBlock && FillableCount(b, n)
    ensures MinSetPositionOf(b) < n <= MaxFactorialOf(b)
  {
    BlockTableContiguous(b);
  }

  /** Block b - 1 can be filled from where block b's fill leaves the live count. */
  lemma FillableAfterFill(b: nat)
    requires 0 < b < CNumBlock
    ensures EntryAfterFill(b) == PoolLeftAfterFill(b) == MaxFactorialOf(b - 1)
    ensures FillableCount(b - 1, EntryAfterFill(b))
    ensures CPermutationIndexesPerBlock * (b - 1) + MaxFactorialOf(b - 1) - MinSetPositionOf(b - 1) <= CPermutationIndexesPerBlock * b
  {
    BlockTableContiguous(b - 1);
  }

  /** Two equal entries at different places count twice. */
  lemma RepeatedEntryCountsTwice(t: seq<byte>, i: nat, j: nat)
    requires i < j < |t| && t[i] == t[j]
    ensures multiset(t)[t[i]] >= 2
  {
    assert t == t[..j] + t[j..];
    assert t[i] in multiset(t[..j]);
    assert t[j] in multiset(t[j..]);
  }

  /** A sequence without repeated entries holds each value at most once. */
  lemma {:induction false} DistinctCountsOnce(t: seq<byte>, v: byte)
    requires forall i, j :: 0 <= i < j < |t| ==> t[i] != t[j]
    ensures multiset(t)[v] <= 1
  {
    if |t| > 0 {
      var init := t[..|t| - 1];
      assert t == init + [t[|t| - 1]];
      DistinctCountsOnce(init, v);
      if v == t[|t| - 1] {
        assert v !in init;
      }
    }
  }

  /**
   * A sequence holding the same labels as 0, 1, ..., n - 1 is a permutation
   * of them: every label is below n and no label appears twice.
   */
  lemma PermutationOfIota(t: seq<byte>, n: nat)
    requires n <= 0x100 && multiset(t) == multiset(Iota(n))
    ensures |t| == n
    ensures forall i :: 0 <= i < |t| ==> t[i] as int < n
    ensures forall i, j :: 0 <= i < j < |t| ==> t[i] != t[j]
  {
    var iota := Iota(n);
    assert |t| == |multiset(t)| == |multiset(iota)| == n;
    forall i | 0 <= i < |t|
      ensures t[i] as int < n
    {
      assert t[i] in multiset(iota);
      var k :| 0 <= k < |iota| && iota[k] == t[i];
    }
    forall i, j | 0 <= i < j < |t|
      ensures t[i] != t[j]
    {
      if t[i] == t[j] {
        RepeatedEntryCountsTwice(t, i, j);
        DistinctCountsOnce(iota, t[i]);
      }
    }
  }

  /**
   * The slots the source's FillBlock writes into block b > 0 entered with n0
   * live labels, as offsets into the block and in the order written: the
   * first placement, the loop's placements down to the block's MinFactorial,
   * and the ending one below wherever the live count then stands.
   */
  function FillBlockSlotsAsWritten(b: nat, n0: int): (slots: seq<int>)
    requires 0 < b < CNumBlock && MinFactorialOf(b) <= n0 <= MaxFactorialOf(b)
    ensures |slots| == 2 + ConstMax(n0 - 1, n0 - 1) - ConstMax(n0 - 1, MinFactorialOf(b))
  {
    var msp := MinSetPositionOf(b);
    var loopMin := MinFactorialOf(b);
    var afterLoop := if n0 - 1 > loopMin then loopMin else n0 - 1;
    [n0 - 1 - msp] + LoopSlots(n0 - 1, loopMin, msp) + [afterLoop - 1 - msp]
  }

  /** `while (mNextEntry > cLoopMin) { --mNextEntry; write slot mNextEntry - msp; }` from a count of n. */
  function LoopSlots(n: int, loopMin: int, msp: int): (slots: seq<int>)
    decreases n - loopMin
    ensures |slots| == if n > loopMin then n - loopMin else 0
    ensures forall i :: 0 <= i < |slots| ==> slots[i] == n - 1 - i - msp
  {
    if n > loopMin then [n - 1 - msp] + LoopSlots(n - 1, loopMin, msp) else []
  }

  /**
   * With one label above its MinFactorial or more, the source writes block
   * b's slots n0 - 1 - msp down to 0 once each: exactly the first
   * n0 - MinSetPosition slots.
   */
  lemma FillBlockSlotsCoverBlock(b: nat, n0: int)
    requires 0 < b < CNumBlock && MinFactorialOf(b) < n0 <= MaxFactorialOf(b)
    ensures var slots := FillBlockSlotsAsWritten(b, n0);
            |slots| == n0 - MinSetPositionOf(b) &&
            forall i :: 0 <= i < |slots| ==> slots[i] == n0 - 1 - MinSetPositionOf(b) - i
  {
    var msp, loopMin := MinSetPositionOf(b), MinFactorialOf(b);
    var slots := FillBlockSlotsAsWritten(b, n0);
    var loop := LoopSlots(n0 - 1, loopMin, msp);
    assert slots == [n0 - 1 - msp] + loop + [loopMin - 1 - msp];
    forall i | 0 <= i < |slots|
      ensures slots[i] == n0 - 1 - msp - i
    {
      if 0 < i < |slots| - 1 {
        assert slots[i] == loop[i - 1];
      }
    }
  }

  /**
   * Entered with only its first label live, block b > 0 gets slot 0 and then
   * slot -1 from the ending: the write lands one byte before the block.
   */
  lemma FillBlockSlotBeforeBlock(b: nat)
    requires 0 < b < CNumBlock
    ensures FillBlockSlotsAsWritten(b, MinFactorialOf(b)) == [0, -1]
  {
  }

  /** `finalBit ^ 0b1` on a single bit. */
  function FlipBit(bit: int): (flipped: int)
    requires 0 <= bit <= 1
    ensures flipped == 1 - bit
  {
    ((bit as bv8) ^ 1) as int
  }

  /**
   * The live count a builder for block maxBlockIndex starts from: the set
   * size, capped at that block's MaxFactorial.
   */
  function InitialEntry(maxBlockIndex: nat, setSize: nat): (n: nat)
    requires maxBlockIndex < CNumBlock
    ensures n <= MaxFactorialOf(maxBlockIndex) && n <= setSize
    ensures n == setSize || n == MaxFactorialOf(maxBlockIndex)
  {
    if setSize > MaxFactorialOf(maxBlockIndex) then MaxFactorialOf(maxBlockIndex) else setSize
  }

  /** A 32-bit unsigned value read as `int32_t`: from 2^31 on it wraps to a negative value. */
  function AsInt32(x: uint32): (r: int)
    ensures -0x8000_0000 <= r < 0x8000_0000
    ensures r % 0x1_0000_0000 == x as int % 0x1_0000_0000
  {
    if x < 0x8000_0000 then x as int else x as int - 0x1_0000_0000
  }

  /**
   * How the constructor's `setSize > tMaxBlock.MaxFactorial` compares its
   * `int32_t` argument with the `SetSize` block field. The alias `SetSize`
   * is defined outside the modelled files, so every outcome of the usual
   * arithmetic conversions is kept: a signed `SetSize`, or an unsigned one
   * narrower than `int`, compares signed; an unsigned 32-bit or 64-bit
   * `SetSize` first converts the argument to that unsigned type.
   */
  datatype SetSizeCompare = SignedCompare | Unsigned32Compare | Unsigned64Compare

  /** The `int32_t` value as the comparison sees it under `cmp`. */
  function ComparedSetSize(signed: int, cmp: SetSizeCompare): (v: int)
    requires -0x8000_0000 <= signed < 0x8000_0000
    ensures 0 <= signed ==> v == signed
    ensures signed < 0 && cmp != SignedCompare ==> v >= 0x8000_0000
    ensures cmp == Unsigned32Compare ==> v % 0x1_0000_0000 == signed % 0x1_0000_0000
    ensures cmp == Unsigned64Compare ==> v % 0x1_0000_0000_0000_0000 == signed % 0x1_0000_0000_0000_0000
  {
    match cmp
    case SignedCompare => signed
    case Unsigned32Compare => if signed < 0 then signed + 0x1_0000_0000 else signed
    case Unsigned64Compare => if signed < 0 then signed + 0x1_0000_0000_0000_0000 else signed
  }

  /**
   * The builder's constructor as written: it takes the `uint32_t` set size
   * as an `int32_t`, so a set size of 2^31 or more arrives negative; the cap
   * then compares as `cmp` says, and the chosen value is stored in the
   * `int64_t` live count.
   */
  function InitialEntryAsWritten(maxBlockIndex: nat, setSize: uint32, cmp: SetSizeCompare): (n: int)
    requires maxBlockIndex < CNumBlock
    ensures n <= MaxFactorialOf(maxBlockIndex)
    ensures n == MaxFactorialOf(maxBlockIndex) || n == AsInt32(setSize) || n == setSize as int
  {
    var signed := AsInt32(setSize);
    var compared := ComparedSetSize(signed, cmp);
    if compared > MaxFactorialOf(maxBlockIndex) then MaxFactorialOf(maxBlockIndex)
    else if cmp == SignedCompare then signed
    else setSize as int
  }

  /** Below 2^31 the conversion is harmless and the capped counts agree, whatever `SetSize` is. */
  lemma InitialEntryAsWrittenBelowHalf(maxBlockIndex: nat, setSize: uint32, cmp: SetSizeCompare)
    requires maxBlockIndex < CNumBlock && setSize < 0x8000_0000
    ensures InitialEntryAsWritten(maxBlockIndex, setSize, cmp) == InitialEntry(maxBlockIndex, setSize as nat)
  {
  }

  /**
   * With an unsigned `SetSize` of 32 or 64 bits, a negative argument turns
   * back into a value above every MaxFactorial, so the cap always matches
   * the intended count.
   */
  lemma InitialEntryAsWrittenUnsigned(maxBlockIndex: nat, setSize: uint32, cmp: SetSizeCompare)
    requires maxBlockIndex < CNumBlock && cmp != SignedCompare
    ensures InitialEntryAsWritten(maxBlockIndex, setSize, cmp) == InitialEntry(maxBlockIndex, setSize as nat)
  {
  }

  /**
   * A set of 2^31 labels reaches the block-mixing path, which builds block 0
   * from the set size: with a signed comparison the live count starts at
   * -2^31, no block can be filled from it, while the capped count is a full
   * block.
   */
  lemma InitialEntryAsWrittenWraps()
    ensures InitialEntryAsWritten(0, 0x8000_0000, SignedCompare) == -0x8000_0000
    ensures !FillableCount(0, InitialEntryAsWritten(0, 0x8000_0000, SignedCompare))
    ensures InitialEntry(0, 0x8000_0000) == CPermutationIndexesPerBlock && FillableCount(0, InitialEntry(0, 0x8000_0000))
  {
    BlockTableContiguous(0);
  }

  class PermutationBuilder {
    /** The block the builder was sized for (`tMaxBlockIndex`). */
    const maxBlock: nat
    /** `mPositionSet`: one entry per label of the set up to the block's MaxFactorial. */
    const pool: array<byte>
    /** `mNextEntry`: the labels pool[..nextEntry] are still live. */
    var nextEntry: int

    ghost predicate Valid()
      reads this
    {
      maxBlock < CNumBlock && pool.Length == MaxFactorialOf(maxBlock) && 0 <= nextEntry <= pool.Length
    }

    /** Sizes the live count to the set, capped at the block's end, and fills the pool with 0, 1, 2, ... */
    constructor (maxBlockIndex: nat, setSize: nat)
      requires maxBlockIndex < CNumBlock
      ensures Valid() && maxBlock == maxBlockIndex && fresh(pool)
      ensures nextEntry == InitialEntry(maxBlockIndex, setSize)
      ensures pool[..] == Iota(MaxFactorialOf(maxBlockIndex))
    {
      var size := MaxFactorialOf(maxBlockIndex);
      BlockTableContiguous(maxBlockIndex);
      maxBlock := maxBlockIndex;
      nextEntry := InitialEntry(maxBlockIndex, setSize);
      var positions := new byte[size];
      var i := 0;
      while i < size
        invariant 0 <= i <= size
        invariant forall j :: 0 <= j < i ==> positions[j] as int == j
      {
        positions[i] := i as byte;
        i := i + 1;
      }
      pool := positions;
      assert positions[..] == Iota(size);
    }

    /** Hands out the label at `position` and moves the label at `nextEntry` into its place. */
    method GetAndRemovePosition(position: int) returns (taken: byte)
      requires Valid() && 0 <= position < pool.Length && nextEntry < pool.Length
      modifies pool
      ensures taken == old(pool[position])
      ensures pool[..] == old(pool[..])[position := old(pool[nextEntry])]
      ensures position <= nextEntry ==> pool[..nextEntry] == SwapRemove(old(pool[..nextEntry + 1]), position)
    {
      taken := pool[position];
      pool[position] := pool[nextEntry];
      if position <= nextEntry {
        ghost var before := old(pool[..nextEntry + 1]);
        assert pool[..nextEntry] == before[position := before[nextEntry]][..nextEntry];
      }
    }

    /**
     * The step FillBlock repeats inside a block whose factorial range at m is
     * Product(lo, m) (BlockRangeInside): drop the live count by one, divide
     * the draw by the range at the new count, and write the label the
     * quotient picks into slot `first + ` the new count.
     */
    method PlaceNext(lo: nat, hi: nat, first: int, blocks: array<byte>, bits: Bits) returns (taken: byte)
      requires Valid() && blocks != pool && hi <= pool.Length && Product(lo, hi) <= UInt64Max
      requires lo < nextEntry <= hi && 0 <= first + lo && first + hi <= blocks.Length
      requires bits.Valid() && bits.value < Product(lo, nextEntry)
      modifies this, pool, blocks, bits
      ensures Valid() && nextEntry == old(nextEntry) - 1
      ensures bits.Valid() && bits.value < Product(lo, nextEntry)
      ensures blocks[..] == old(blocks[..])[first + nextEntry := taken]
      ensures multiset(pool[..nextEntry]) + multiset{taken} == multiset(old(pool[..nextEntry]))
    {
      nextEntry := nextEntry - 1;
      ProductStep(lo, nextEntry + 1, hi);
      ghost var r := bits.value;
      var quotient := bits.DivAndSetToRemainder(Product(lo, nextEntry));
      QuotientBelow(quotient, Product(lo, nextEntry), bits.value, r, nextEntry + 1);
      taken := GetAndRemovePosition(quotient);
      blocks[first + nextEntry] := taken;
    }

    /**
     * PlaceNext seen on the region it grows: the slots from `first + ` the live
     * count up to `first + n0` hold `placed` before and `placed'` after, and
     * together with the live pool they keep the same labels.
     */
    method PlaceNextInto(lo: nat, hi: nat, first: int, blocks: array<byte>, bits: Bits,
                         ghost start: seq<byte>, ghost n0: int, ghost placed: seq<byte>)
      returns (ghost placed': seq<byte>)
      requires Valid() && blocks != pool && hi <= pool.Length && Product(lo, hi) <= UInt64Max
      requires lo < nextEntry <= n0 <= hi && 0 <= first + lo && first + hi <= blocks.Length == |start|
      requires bits.Valid() && bits.value < Product(lo, nextEntry)
      requires |placed| == n0 - nextEntry
      requires blocks[..] == start[..first + nextEntry] + placed + start[first + n0..]
      modifies this, pool, blocks, bits
      ensures Valid() && nextEntry == old(nextEntry) - 1
      ensures bits.Valid() && bits.value < Product(lo, nextEntry)
      ensures |placed'| == n0 - nextEntry
      ensures blocks[..] == start[..first + nextEntry] + placed' + start[first + n0..]
      ensures multiset(placed') + multiset(pool[..nextEntry]) == multiset(placed) + multiset(old(pool[..nextEntry]))
    {
      var taken := PlaceNext(lo, hi, first, blocks, bits);
      PlaceInto(start, placed, first + nextEntry + 1, first + n0, taken);
      placed' := [taken] + placed;
    }

    /**
     * The body of FillBlock before its ending: one placement, then more
     * placements while the live count is above `loopMin`. `placed` is what
     * they write, in slot order, just below the slot of the old live count.
     */
    method PlaceDownTo(lo: nat, hi: nat, first: int, blocks: array<byte>, bits: Bits, loopMin: int)
      returns (ghost placed: seq<byte>)
      requires Valid() && blocks != pool && hi <= pool.Length && Product(lo, hi) <= UInt64Max
      requires lo <= loopMin < nextEntry <= hi && 0 <= first + lo && first + hi <= blocks.Length
      requires bits.Valid() && bits.value < Product(lo, nextEntry)
      modifies this, pool, blocks, bits
      ensures Valid() && nextEntry == loopMin
      ensures bits.Valid() && bits.value < Product(lo, nextEntry)
      ensures |placed| == old(nextEntry) - nextEntry
      ensures blocks[..] == old(blocks[..])[..first + nextEntry] + placed + old(blocks[..])[first + old(nextEntry)..]
      ensures multiset(placed) + multiset(pool[..nextEntry]) == multiset(old(pool[..nextEntry]))
    {
      ghost var start := blocks[..];
      ghost var n0 := nextEntry;
      ghost var whole := multiset(pool[..n0]);
      assert start == start[..first + n0] + [] + start[first + n0..];
      placed := PlaceNextInto(lo, hi, first, blocks, bits, start, n0, []);
      while nextEntry > loopMin
        invariant Valid() && loopMin <= nextEntry < n0
        invariant bits.Valid() && bits.value < Product(lo, nextEntry)
        invariant |placed| == n0 - nextEntry
        invariant blocks[..] == start[..first + nextEntry] + placed + start[first + n0..]
        invariant multiset(placed) + multiset(pool[..nextEntry]) == whole
        decreases nextEntry
      {
        placed := PlaceNextInto(lo, hi, first, blocks, bits, start, n0, placed);
      }
    }

    /** Block 0's ending: the final bit of the draw decides the order of the last two live labels. */
    method SettleFinalTwo(blocks: array<byte>, bits: Bits) returns (finalBit: int)
      requires Valid() && nextEntry == 2 && blocks != pool && CPermutationIndexesPerBlock <= blocks.Length
      requires bits.Valid() && bits.value < 2
      modifies blocks
      ensures finalBit == bits.value
      ensures blocks[..] == old(blocks[..])[finalBit := pool[1]][1 - finalBit := pool[0]]
    {
      finalBit := bits.FinalBit();
      blocks[finalBit] := pool[1];
      blocks[FlipBit(finalBit)] := pool[0];
    }

    /** The ending of every other block: the remaining draw, now 0, takes the label at position 0 into slot `first + ` the new count. */
    method PlaceLast(first: int, blocks: array<byte>, bits: Bits) returns (taken: byte)
      requires Valid() && blocks != pool && 1 <= nextEntry < pool.Length
      requires 0 <= first + nextEntry - 1 < blocks.Length
      requires bits.Valid() && bits.value < 1
      modifies this, pool, blocks
      ensures Valid() && nextEntry == old(nextEntry) - 1
      ensures blocks[..] == old(blocks[..])[first + nextEntry := taken]
      ensures multiset(pool[..nextEntry]) + multiset{taken} == multiset(old(pool[..nextEntry]))
    {
      nextEntry := nextEntry - 1;
      taken := GetAndRemovePosition(bits.value);
      blocks[first + nextEntry] := taken;
    }

    /** SettleFinalTwo seen on the region it completes: slots 0 and 1 join `filled`. */
    method SettleInto(blocks: array<byte>, bits: Bits, ghost start: seq<byte>, ghost filled: seq<byte>, ghost last: int)
      returns (ghost filled': seq<byte>)
      requires Valid() && nextEntry == 2 && blocks != pool && last <= CPermutationIndexesPerBlock <= blocks.Length == |start|
      requires bits.Valid() && bits.value < 2
      requires |filled| == last - 2 && blocks[..] == start[..2] + filled + start[last..]
      modifies blocks
      ensures |filled'| == last
      ensures blocks[..] == start[..0] + filled' + start[last..]
      ensures multiset(filled') == multiset(filled) + multiset(pool[..nextEntry])
    {
      ghost var rest := pool[..2];
      var finalBit := SettleFinalTwo(blocks, bits);
      ghost var pair := CoinInto(start, filled, last, finalBit, rest);
      filled' := pair + filled;
    }

    /** PlaceLast seen on the region it completes: the slot below `filled` joins it. */
    method PlaceLastInto(first: int, blocks: array<byte>, bits: Bits, ghost start: seq<byte>, ghost filled: seq<byte>, ghost last: int)
      returns (ghost filled': seq<byte>)
      requires Valid() && blocks != pool && 1 <= nextEntry < pool.Length
      requires 0 <= first + nextEntry - 1 && first + nextEntry <= last <= blocks.Length == |start|
      requires bits.Valid() && bits.value < 1
      requires |filled| == last - (first + nextEntry) && blocks[..] == start[..first + nextEntry] + filled + start[last..]
      modifies this, pool, blocks
      ensures Valid() && nextEntry == old(nextEntry) - 1
      ensures |filled'| == last - (first + nextEntry)
      ensures blocks[..] == start[..first + nextEntry] + filled' + start[last..]
      ensures multiset(filled') + multiset(pool[..nextEntry]) == multiset(filled) + multiset(old(pool[..nextEntry]))
    {
      var taken := PlaceLast(first, blocks, bits);
      PlaceInto(start, filled, first + nextEntry + 1, last, taken);
      filled' := [taken] + filled;
    }

    /**
     * FillBlock once the draw is reduced, on a block whose factorial range at
     * m is Product(lo, m) and whose slot for live count n is `first + n`:
     * place labels down to the block's ending, then end with the coin flip
     * (`coin`, block 0) or with the label at position 0. The slots from
     * `first + lo - 1` up to `first + ` the old live count are what changes.
     * A block entered with only its first label live (`nextEntry == lo`) is
     * done after the first placement: the draw is then 0, the quotient picks
     * position 0, and no ending follows (see FillBlockSlotsAsWritten).
     */
    method FillRange(lo: nat, hi: nat, first: int, coin: bool, blocks: array<byte>, bits: Bits,
                     ghost head: int, ghost last: int, ghost left: int)
      requires Valid() && blocks != pool && hi <= pool.Length && Product(lo, hi) <= UInt64Max
      requires 1 <= lo <= nextEntry <= hi && lo < hi && 0 <= first + lo - 1 && first + hi <= blocks.Length
      requires coin ==> lo == 1 && first == 0 && 3 <= nextEntry && hi <= CPermutationIndexesPerBlock <= blocks.Length
      requires bits.Valid() && bits.value < Product(lo, nextEntry)
      requires head == first + lo - 1 && last == first + nextEntry && left == if coin then 0 else lo - 1
      modifies this, pool, blocks, bits
      ensures Valid() && nextEntry == if coin then 2 else lo - 1
      ensures blocks[..head] == old(blocks[..head])
      ensures multiset(blocks[head..last]) + multiset(pool[..left]) == multiset(old(pool[..nextEntry]))
      ensures blocks[last..] == old(blocks[last..])
    {
      ghost var start := blocks[..];
      ghost var n0 := nextEntry;
      ghost var whole := multiset(pool[..n0]);
      ghost var filled;
      if !coin && nextEntry == lo {
        assert start == start[..first + nextEntry] + [] + start[last..];
        filled := PlaceLastInto(first, blocks, bits, start, [], last);
      } else {
        var loopMin := if coin then 2 else lo;
        filled := PlaceDownTo(lo, hi, first, blocks, bits, loopMin);
        if coin {
          assert Product(1, 2) == 2;
          filled := SettleInto(blocks, bits, start, filled, last);
        } else {
          filled := PlaceLastInto(first, blocks, bits, start, filled, last);
        }
      }
      assert blocks[..] == start[..head] + filled + start[last..];
      Decompose(start[..head], filled, start[last..]);
      assert blocks[..head] == start[..head];
      assert blocks[head..last] == filled;
      assert blocks[last..] == start[last..];
    }

    /**
     * Unranks `randomBits` into the slots of block b (blocks[20b..20b + 20]):
     * the draw is reduced below the block's factorial range at the live
     * count, and each step divides by the next smaller range, so every
     * quotient picks one of the live labels. Block 0 settles its last two
     * slots with the draw's final bit; every other block takes its last
     * label from position 0 and stops where block b - 1 begins.
     */
    method FillBlock(b: nat, blocks: array<byte>, randomBits: int)
      requires Valid() && b <= maxBlock && blocks != pool
      requires CPermutationIndexesPerBlock * (b + 1) <= blocks.Length
      requires 0 <= randomBits < UInt64Modulus
      requires FillableCount(b, nextEntry)
      modifies this, pool, blocks
      ensures Valid() && nextEntry == EntryAfterFill(b)
      ensures multiset(OwnSlots(blocks[..], b, old(nextEntry))) + multiset(pool[..PoolLeftAfterFill(b)])
              == multiset(old(pool[..nextEntry]))
      ensures var first := CPermutationIndexesPerBlock * b;
              blocks[..first] == old(blocks[..first])
      ensures var last := CPermutationIndexesPerBlock * b + old(nextEntry) - MinSetPositionOf(b);
              blocks[last..] == old(blocks[last..])
    {
      ghost var n0 := nextEntry;
      ghost var live := pool[..n0];
      var first := CPermutationIndexesPerBlock * b;
      var msp := MinSetPositionOf(b);
      ghost var last := first + n0 - msp;
      BlockTableContiguous(b);
      var bits := new Bits(randomBits);
      BlockRangeInside(b, nextEntry);
      var _ := bits.DivAndSetToRemainder(BlockRange(b, nextEntry));

      var lo, hi := MinFactorialOf(b), MaxFactorialOf(b);
      BlockRangeFits(b);
      BlockMaxIncreasingOrSame(b, maxBlock);
      assert lo == msp + 1 && hi - msp <= CPermutationIndexesPerBlock;
      assert pool[..nextEntry] == live;
      assert blocks[..] == old(blocks[..]);
      FillRange(lo, hi, first - msp, b == 0, blocks, bits, first, last, PoolLeftAfterFill(b));
      OwnSlotsAre(blocks[..], b, n0, first, last);
    }

    /**
     * Fills block b from `randomBits[b]`, then blocks b - 1, ..., 0 from
     * theirs, each starting where the block above stopped. The blocks end up
     * holding the n0 labels that were live, each once, and no slot past
     * block b's filled ones changes.
     */
    method FillBlockAndFallThrough(b: nat, blocks: array<byte>, randomBits: seq<int>)
      requires Valid() && b <= maxBlock && blocks != pool
      requires CPermutationIndexesPerBlock * (b + 1) <= blocks.Length
      requires b < |randomBits| && forall i :: 0 <= i < |randomBits| ==> 0 <= randomBits[i] < UInt64Modulus
      requires FillableCount(b, nextEntry)
      modifies this, pool, blocks
      decreases b, 1
      ensures Valid() && nextEntry == 2
      ensures multiset(FilledSlots(blocks[..], b, old(nextEntry))) == multiset(old(pool[..nextEntry]))
      ensures forall i :: CPermutationIndexesPerBlock * b + old(nextEntry) - MinSetPositionOf(b) <= i < blocks.Length ==>
                blocks[i] == old(blocks[i])
    {
      ghost var n0 := nextEntry;
      ghost var live := multiset(pool[..nextEntry]);
      ghost var last := CPermutationIndexesPerBlock * b + n0 - MinSetPositionOf(b);
      FillableInside(b, n0);
      FillBlock(b, blocks, randomBits[b]);
      ghost var mid := blocks[..];
      AgreeFrom(old(blocks[..]), mid, last);
      if b == 0 {
        FilledSlotsFirst(mid, n0, pool[..PoolLeftAfterFill(b)], live);
      } else {
        FillableAfterFill(b);
        assert pool[..PoolLeftAfterFill(b)] == pool[..nextEntry];
        FallThroughBelow(b, blocks, randomBits, n0, live);
        assert forall i :: last <= i < blocks.Length ==> blocks[i] == mid[i];
      }
    }

    /**
     * Fills blocks b - 1, ..., 0 once block b is done, and joins what they
     * hold to what block b took.
     */
    method FallThroughBelow(b: nat, blocks: array<byte>, randomBits: seq<int>, ghost n0: int, ghost live: multiset<byte>)
      requires Valid() && 0 < b <= maxBlock && blocks != pool
      requires CPermutationIndexesPerBlock * (b + 1) <= blocks.Length
      requires b < |randomBits| && forall i :: 0 <= i < |randomBits| ==> 0 <= randomBits[i] < UInt64Modulus
      requires MinSetPositionOf(b) <= n0 <= MaxFactorialOf(b)
      requires nextEntry == MaxFactorialOf(b - 1) && FillableCount(b - 1, nextEntry)
      requires multiset(OwnSlots(blocks[..], b, n0)) + multiset(pool[..nextEntry]) == live
      requires CPermutationIndexesPerBlock * (b - 1) + MaxFactorialOf(b - 1) - MinSetPositionOf(b - 1) <= CPermutationIndexesPerBlock * b
      modifies this, pool, blocks
      decreases b, 0
      ensures Valid() && nextEntry == 2
      ensures multiset(FilledSlots(blocks[..], b, n0)) == live
      ensures forall i :: CPermutationIndexesPerBlock * b <= i < blocks.Length ==> blocks[i] == old(blocks[i])
    {
      ghost var mid := blocks[..];
      ghost var m := nextEntry;
      ghost var left := pool[..nextEntry];
      FillBlockAndFallThrough(b - 1, blocks, randomBits);
      ghost var fin := blocks[..];
      FilledSlotsJoin(mid, fin, b, n0, m, left, live);
    }
  }
}
