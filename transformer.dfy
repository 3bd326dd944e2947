/**
 * The documentation transformer: a row of nodes, one per set index, each a
 * small tree built by `div` (a node becomes the pair quotient/remainder),
 * rearranged by `qmap`/`rmap` (two values of the innermost pair are
 * exchanged) and `shift` (a rotation of the top value), and flattened
 * again by `combine` (quotient * divisor + remainder). The scripted
 * standard transform of 16 nodes is the worked example of the shuffling
 * network.
 */
module TransformerDocs {
  import opened Factoradics

  /**
   * A node's value: a leaf holds its number; a split node holds the divisor
   * it was divided by, its quotient node and its remainder (remainder nodes
   * are never divided further).
   */
  datatype Tree = Leaf(value: uint64) | Split(divisor: uint64, quotient: Tree, remainder: uint64)

  /** What `combine` hands back with the new tree: the divisor it undid, 0 for a leaf. */
  datatype Combined = Combined(tree: Tree, oldDivisor: uint64)

  /** Unsigned 64-bit wrap-around. */
  function Wrap64(x: int): (r: uint64)
    ensures r as int == x % UInt64Modulus
    ensures 0 <= x < UInt64Modulus ==> r as int == x
  {
    (x % UInt64Modulus) as uint64
  }

  /** The number a tree stands for: quotient * divisor + remainder at each split. */
  function Denotation(t: Tree): nat
  {
    match t
    case Leaf(v) => v as nat
    case Split(d, q, r) => Denotation(q) * d as nat + r as nat
  }

  /** How many splits lie on the quotient chain. */
  function Depth(t: Tree): nat
  {
    match t
    case Leaf(_) => 0
    case Split(_, q, _) => 1 + Depth(q)
  }

  /**
   * `Div`: a node whose value is at or above the limit stays as it is; a
   * leaf below it splits into v / d and v % d under the divisor d; a split
   * node passes the division to its quotient.
   */
  function DivTree(t: Tree, divisor: uint64, limit: uint64): (r: Tree)
    requires 0 < divisor
    ensures Denotation(r) == Denotation(t)
    ensures r == t || Depth(r) == Depth(t) + 1
  {
    match t
    case Leaf(v) =>
      if v >= limit then t
      else
        assert (v / divisor) as nat * divisor as nat + (v % divisor) as nat == v as nat;
        Split(divisor, Leaf(v / divisor), v % divisor)
    case Split(d, q, r) => if d >= limit then t else Split(d, DivTree(q, divisor, limit), r)
  }

  /** The innermost split's quotient * divisor + remainder, before wrapping to 64 bits (0 for a leaf). */
  function InnermostCombination(t: Tree): nat
  {
    match t
    case Leaf(_) => 0
    case Split(d, q, r) => if q.Split? then InnermostCombination(q) else q.value as nat * d as nat + r as nat
  }

  /** The divisor of the innermost split (0 for a leaf). */
  function InnermostDivisor(t: Tree): uint64
  {
    match t
    case Leaf(_) => 0
    case Split(d, q, _) => if q.Split? then InnermostDivisor(q) else d
  }

  /**
   * `Combine`: the innermost split becomes the leaf quotient * divisor +
   * remainder (in 64-bit arithmetic) and its divisor is handed back; a
   * leaf stays and hands back 0.
   */
  function CombineTree(t: Tree): (c: Combined)
    ensures c.oldDivisor == InnermostDivisor(t)
    ensures t.Leaf? ==> c.tree == t
    ensures t.Split? ==> Depth(c.tree) + 1 == Depth(t)
    ensures t.Split? && InnermostCombination(t) < UInt64Modulus ==> Denotation(c.tree) == Denotation(t)
  {
    match t
    case Leaf(_) => Combined(t, 0)
    case Split(d, q, r) =>
      if q.Split? then
        var inner := CombineTree(q);
        Combined(Split(d, inner.tree, r), inner.oldDivisor)
      else
        Combined(Leaf(Wrap64(q.value as int * d as int + r as int)), d)
  }

  /** `combine` undoes the division just made: unless `div` left the tree alone, it gives the tree and the divisor back. */
  lemma {:induction false} DivThenCombine(t: Tree, divisor: uint64, limit: uint64)
    requires 0 < divisor
    ensures DivTree(t, divisor, limit) == t || CombineTree(DivTree(t, divisor, limit)) == Combined(t, divisor)
  {
    match t
    case Leaf(v) =>
      if v < limit {
        assert (v / divisor) as int * divisor as int + (v % divisor) as int == v as int;
      }
    case Split(d, q, r) =>
      if d < limit {
        DivThenCombine(q, divisor, limit);
        if DivTree(q, divisor, limit) == q {
          assert DivTree(t, divisor, limit) == t;
        }
      }
  }

  /** The exchange of a and b used by both maps; every other value stays. */
  function Swap<T(==)>(v: T, a: T, b: T): (r: T)
    ensures v == a ==> r == b
    ensures v != a && v == b ==> r == a
    ensures v != a && v != b ==> r == v
  {
    if v == a then b else if v == b then a else v
  }

  /** `MapQuotient`: the innermost split's quotient value exchanges a and b; leaves are left alone. */
  function MapQuotientTree(t: Tree, a: uint64, b: uint64): (r: Tree)
    ensures Depth(r) == Depth(t) && InnermostDivisor(r) == InnermostDivisor(t)
    ensures t.Leaf? ==> r == t
  {
    match t
    case Leaf(_) => t
    case Split(d, q, rem) =>
      if q.Split? then Split(d, MapQuotientTree(q, a, b), rem)
      else Split(d, Leaf(Swap(q.value, a, b)), rem)
  }

  /** `MapRemainder`: the innermost split's remainder exchanges a and b; leaves are left alone. */
  function MapRemainderTree(t: Tree, a: uint64, b: uint64): (r: Tree)
    ensures Depth(r) == Depth(t) && InnermostDivisor(r) == InnermostDivisor(t)
    ensures t.Leaf? ==> r == t
  {
    match t
    case Leaf(_) => t
    case Split(d, q, rem) =>
      if q.Split? then Split(d, MapRemainderTree(q, a, b), rem)
      else Split(d, q, Swap(rem, a, b))
  }

  /** Mapping the same pair twice gives the tree back, for both maps. */
  lemma {:induction false} MapsAreInvolutions(t: Tree, a: uint64, b: uint64)
    ensures MapQuotientTree(MapQuotientTree(t, a, b), a, b) == t
    ensures MapRemainderTree(MapRemainderTree(t, a, b), a, b) == t
  {
    match t
    case Leaf(_) =>
    case Split(_, q, _) =>
      if q.Split? {
        MapsAreInvolutions(q, a, b);
      }
  }

  /** `Shift`: (v + (n - amount)) mod n over n nodes, with the source's 64-bit wrap-around. */
  function ShiftValue(v: uint64, amount: uint64, nodes: uint64): (r: uint64)
    requires 0 < nodes
    ensures r < nodes
  {
    Wrap64(v as int + Wrap64(nodes as int - amount as int) as int) % nodes
  }

  /** `Shift` on a node rewrites its own value (a split node's divisor); the children stay. */
  function ShiftTree(t: Tree, amount: uint64, nodes: uint64): (r: Tree)
    requires 0 < nodes
    ensures Depth(r) == Depth(t)
    ensures t.Leaf? ==> r == Leaf(ShiftValue(t.value, amount, nodes))
  {
    match t
    case Leaf(v) => Leaf(ShiftValue(v, amount, nodes))
    case Split(d, q, rem) => Split(ShiftValue(d, amount, nodes), q, rem)
  }

  /** Nothing wraps for fewer than 2^63 nodes: the shift moves v down by amount, cyclically. */
  lemma ShiftWithoutWrap(v: uint64, amount: uint64, nodes: uint64)
    requires 0 < nodes < 0x8000_0000_0000_0000 && amount <= nodes && v < nodes
    ensures ShiftValue(v, amount, nodes) as int
            == if amount <= v then v as int - amount as int else v as int + nodes as int - amount as int
  {
    var x := v as int + nodes as int - amount as int;
    assert Wrap64(nodes as int - amount as int) as int == nodes as int - amount as int;
    assert Wrap64(x) as int == x;
    ModBelowTwice(x, nodes as int);
  }

  /** For amount <= n, shifting back by n - amount undoes a shift, so a shift permutes 0 .. n - 1. */
  lemma ShiftIsBijective(v: uint64, w: uint64, amount: uint64, nodes: uint64)
    requires 0 < nodes < 0x8000_0000_0000_0000 && amount <= nodes && v < nodes && w < nodes
    ensures ShiftValue(ShiftValue(v, amount, nodes), nodes - amount, nodes) == v
    ensures v != w ==> ShiftValue(v, amount, nodes) != ShiftValue(w, amount, nodes)
  {
    ShiftWithoutWrap(v, amount, nodes);
    ShiftWithoutWrap(ShiftValue(v, amount, nodes), nodes - amount, nodes);
    ShiftWithoutWrap(w, amount, nodes);
    ShiftWithoutWrap(ShiftValue(w, amount, nodes), nodes - amount, nodes);
  }

  /** The documented single shift: "1 shift 4" over 16 nodes gives 13, and 13 shifted by 12 gives 1 back. */
  lemma ShiftExample()
    ensures ShiftValue(1, 4, 16) == 13
    ensures ShiftValue(13, 12, 16) == 1
  {
    assert Wrap64(16 - 4) == 12;
    assert Wrap64(1 + 12) == 13;
    assert Wrap64(16 - 12) == 4;
    assert Wrap64(13 + 4) == 17;
  }

  /** One pass of the script on a node: `div d`, `rmap(a,b)`, `combine`. */
  function RemainderSwapPass(t: Tree, d: uint64, limit: uint64, a: uint64, b: uint64): Tree
    requires 0 < d
  {
    CombineTree(MapRemainderTree(DivTree(t, d, limit), a, b)).tree
  }

  /** One pass of the script on a node: `div d`, `qmap(a,b)`, `combine`. */
  function QuotientSwapPass(t: Tree, d: uint64, limit: uint64, a: uint64, b: uint64): Tree
    requires 0 < d
  {
    CombineTree(MapQuotientTree(DivTree(t, d, limit), a, b)).tree
  }

  /** One pass of the script on a node: `div d1`, `div d2`, `rmap(a,b)`, `combine`, `combine`. */
  function NestedRemainderSwapPass(t: Tree, d1: uint64, d2: uint64, limit: uint64, a: uint64, b: uint64): Tree
    requires 0 < d1 && 0 < d2
  {
    CombineTree(CombineTree(MapRemainderTree(DivTree(DivTree(t, d1, limit), d2, limit), a, b)).tree).tree
  }

  /** The remainder pass on a number: below the limit its last digit base d has a and b exchanged. */
  function RemainderDigitSwap(v: int, d: int, limit: int, a: int, b: int): int
    requires 0 <= v && 0 < d
  {
    if v >= limit then v else (v / d) * d + Swap(v % d, a, b)
  }

  /** The quotient pass on a number: below the limit its quotient by d has a and b exchanged. */
  function QuotientDigitSwap(v: int, d: int, limit: int, a: int, b: int): int
    requires 0 <= v && 0 < d
  {
    if v >= limit then v else Swap(v / d, a, b) * d + v % d
  }

  /** The nested pass on a number: below the limit, the remainder pass with d2 acts on v / d1 and v % d1 is put back. */
  function NestedDigitSwap(v: int, d1: int, d2: int, limit: int, a: int, b: int): int
    requires 0 <= v && 0 < d1 && 0 < d2
  {
    if v >= limit then v else RemainderDigitSwap(v / d1, d2, limit, a, b) * d1 + v % d1
  }

  /** A shift by amount over n nodes: down by amount, cyclically. */
  function RotateDown(v: int, amount: int, nodes: int): int
  {
    if amount <= v then v - amount else v + nodes - amount
  }

  /** On a leaf the remainder pass yields its closed form, in 64-bit arithmetic. */
  lemma RemainderSwapPassOnLeaf(v: uint64, d: uint64, limit: uint64, a: uint64, b: uint64)
    requires 0 < d
    ensures RemainderSwapPass(Leaf(v), d, limit, a, b)
            == Leaf(Wrap64(RemainderDigitSwap(v as int, d as int, limit as int, a as int, b as int)))
  {
    assert Swap(v % d, a, b) as int == Swap((v % d) as int, a as int, b as int);
  }

  /** On a leaf the quotient pass yields its closed form, in 64-bit arithmetic. */
  lemma QuotientSwapPassOnLeaf(v: uint64, d: uint64, limit: uint64, a: uint64, b: uint64)
    requires 0 < d
    ensures QuotientSwapPass(Leaf(v), d, limit, a, b)
            == Leaf(Wrap64(QuotientDigitSwap(v as int, d as int, limit as int, a as int, b as int)))
  {
    assert Swap(v / d, a, b) as int == Swap((v / d) as int, a as int, b as int);
  }

  /**
   * On a leaf the nested pass yields its closed form, provided the first
   * divisor and the first quotient are below the limit whenever the leaf
   * is (otherwise `rmap` reaches the outer remainder) and the inner
   * combination does not wrap.
   */
  lemma NestedRemainderSwapPassOnLeaf(v: uint64, d1: uint64, d2: uint64, limit: uint64, a: uint64, b: uint64)
    requires 0 < d1 && 0 < d2
    requires v < limit ==> d1 < limit && v / d1 < limit
                           && RemainderDigitSwap((v / d1) as int, d2 as int, limit as int, a as int, b as int) < UInt64Modulus
    ensures NestedRemainderSwapPass(Leaf(v), d1, d2, limit, a, b)
            == Leaf(Wrap64(NestedDigitSwap(v as int, d1 as int, d2 as int, limit as int, a as int, b as int)))
  {
    if v < limit {
      var q, r := v / d1, v % d1;
      var t1 := DivTree(Leaf(v), d1, limit);
      assert t1 == Split(d1, Leaf(q), r);
      assert DivTree(Leaf(q), d2, limit) == Split(d2, Leaf(q / d2), q % d2);
      var t2 := DivTree(t1, d2, limit);
      assert t2 == Split(d1, Split(d2, Leaf(q / d2), q % d2), r);
      assert MapRemainderTree(Split(d2, Leaf(q / d2), q % d2), a, b) == Split(d2, Leaf(q / d2), Swap(q % d2, a, b));
      var t3 := MapRemainderTree(t2, a, b);
      assert t3 == Split(d1, Split(d2, Leaf(q / d2), Swap(q % d2, a, b)), r);
      assert Swap(q % d2, a, b) as int == Swap((q % d2) as int, a as int, b as int);
      var inner := RemainderDigitSwap(q as int, d2 as int, limit as int, a as int, b as int);
      assert CombineTree(t3).tree == Split(d1, Leaf(Wrap64(inner)), r);
      assert Wrap64(inner) as int == inner;
    }
  }

  /** Pass k of the standard transform on one node of 16. */
  function StandardStepTree(k: nat, t: Tree): Tree
    requires k < 9
  {
    if k == 0 || k == 6 then RemainderSwapPass(t, 3, 15, 0, 1)
    else if k == 1 || k == 7 then NestedRemainderSwapPass(t, 2, 3, 12, 0, 1)
    else if k == 2 || k == 8 then NestedRemainderSwapPass(t, 4, 3, 12, 0, 1)
    else if k == 4 then QuotientSwapPass(t, 5, 15, 0, 1)
    else ShiftTree(t, 4, 16)
  }

  /** The passes k .. 8 of the standard transform on one node. */
  function StandardTransformFrom(k: nat, t: Tree): Tree
    requires k <= 9
    decreases 9 - k
  {
    if k == 9 then t else StandardTransformFrom(k + 1, StandardStepTree(k, t))
  }

  /** Pass k of the standard transform on one number. */
  function StandardStepValue(k: nat, v: int): int
    requires k < 9 && 0 <= v
  {
    if k == 0 || k == 6 then RemainderDigitSwap(v, 3, 15, 0, 1)
    else if k == 1 || k == 7 then NestedDigitSwap(v, 2, 3, 12, 0, 1)
    else if k == 2 || k == 8 then NestedDigitSwap(v, 4, 3, 12, 0, 1)
    else if k == 4 then QuotientDigitSwap(v, 5, 15, 0, 1)
    else RotateDown(v, 4, 16)
  }

  /** The remainder pass moves a number by less than its divisor. */
  lemma RemainderDigitSwapBelow(v: int, d: int, limit: int, a: int, b: int)
    requires 0 <= v && 0 <= a < d && 0 <= b < d
    ensures 0 <= RemainderDigitSwap(v, d, limit, a, b) < v + d
  {
    if v < limit {
      assert (v / d) * d + v % d == v;
      assert 0 <= Swap(v % d, a, b) < d;
    }
  }

  /** Passes 0 and 6 on a leaf below 16. */
  lemma RemainderStepOnLeaf(v: uint64)
    requires v < 16
    ensures 0 <= RemainderDigitSwap(v as int, 3, 15, 0, 1) < 19
    ensures RemainderSwapPass(Leaf(v), 3, 15, 0, 1) == Leaf(RemainderDigitSwap(v as int, 3, 15, 0, 1) as uint64)
  {
    RemainderSwapPassOnLeaf(v, 3, 15, 0, 1);
    RemainderDigitSwapBelow(v as int, 3, 15, 0, 1);
  }

  /** Passes 1, 2, 7 and 8 on a leaf below 16, for a first divisor of 2 or 4. */
  lemma NestedStepOnLeaf(v: uint64, d1: uint64)
    requires v < 16 && (d1 == 2 || d1 == 4)
    ensures 0 <= NestedDigitSwap(v as int, d1 as int, 3, 12, 0, 1) < 32
    ensures NestedRemainderSwapPass(Leaf(v), d1, 3, 12, 0, 1)
            == Leaf(NestedDigitSwap(v as int, d1 as int, 3, 12, 0, 1) as uint64)
  {
    RemainderDigitSwapBelow((v / d1) as int, 3, 12, 0, 1);
    NestedRemainderSwapPassOnLeaf(v, d1, 3, 12, 0, 1);
  }

  /** Pass 4 on a leaf below 16. */
  lemma QuotientStepOnLeaf(v: uint64)
    requires v < 16
    ensures 0 <= QuotientDigitSwap(v as int, 5, 15, 0, 1) < 20
    ensures QuotientSwapPass(Leaf(v), 5, 15, 0, 1) == Leaf(QuotientDigitSwap(v as int, 5, 15, 0, 1) as uint64)
  {
    QuotientSwapPassOnLeaf(v, 5, 15, 0, 1);
    assert 0 <= Swap((v / 5) as int, 0, 1) <= 3;
  }

  /** Passes 3 and 5 on a leaf below 16. */
  lemma ShiftStepOnLeaf(v: uint64)
    requires v < 16
    ensures 0 <= RotateDown(v as int, 4, 16) < 16
    ensures ShiftTree(Leaf(v), 4, 16) == Leaf(RotateDown(v as int, 4, 16) as uint64)
  {
    ShiftWithoutWrap(v, 4, 16);
  }

  /** On a leaf below 16 each pass of the standard transform is its closed form, and nothing wraps. */
  lemma StandardStepOnLeaf(k: nat, v: uint64)
    requires k < 9 && v < 16
    ensures 0 <= StandardStepValue(k, v as int) < UInt64Modulus
    ensures StandardStepTree(k, Leaf(v)) == Leaf(StandardStepValue(k, v as int) as uint64)
  {
    if k == 0 || k == 6 {
      RemainderStepOnLeaf(v);
    } else if k == 1 || k == 7 {
      NestedStepOnLeaf(v, 2);
    } else if k == 2 || k == 8 {
      NestedStepOnLeaf(v, 4);
    } else if k == 4 {
      QuotientStepOnLeaf(v);
    } else {
      ShiftStepOnLeaf(v);
    }
  }

  /** The documented row after each pass of the standard transform, starting from 0 .. 15. */
  const DocumentedRows: seq<seq<uint64>> := [
      [0, 1, 2, 3, 4, 5, 6, 7, 8, 9, 10, 11, 12, 13, 14, 15],
      [1, 0, 2, 4, 3, 5, 7, 6, 8, 10, 9, 11, 13, 12, 14, 15],
      [3, 2, 0, 4, 1, 5, 9, 8, 6, 10, 7, 11, 13, 12, 14, 15],
      [7, 6, 4, 0, 5, 1, 9, 8, 2, 10, 3, 11, 13, 12, 14, 15],
      [3, 2, 0, 12, 1, 13, 5, 4, 14, 6, 15, 7, 9, 8, 10, 11],
      [8, 7, 5, 12, 6, 13, 0, 9, 14, 1, 15, 2, 4, 3, 10, 11],
      [4, 3, 1, 8, 2, 9, 12, 5, 10, 13, 11, 14, 0, 15, 6, 7],
      [3, 4, 0, 8, 2, 10, 13, 5, 9, 12, 11, 14, 1, 15, 7, 6],
      [1, 4, 2, 6, 0, 10, 13, 5, 7, 12, 11, 14, 3, 15, 9, 8],
      [5, 0, 6, 2, 4, 10, 13, 1, 3, 12, 11, 14, 7, 15, 9, 8]]

  /** Row k + 1 of the documented example is row k after pass k, and row k's entries lie below 16. */
  predicate RowFollows(k: nat)
    requires k < 9
  {
    forall i :: 0 <= i < 16 ==>
      DocumentedRows[k][i] < 16 && DocumentedRows[k + 1][i] as int == StandardStepValue(k, DocumentedRows[k][i] as int)
  }

  /** Pass 0 (div 3, rmap(0,1), combine) turns the documented row 0 into row 1. */
  lemma DocumentedPass0()
    ensures RowFollows(0)
  {
    forall i | 0 <= i < 16
      ensures DocumentedRows[0][i] < 16 && DocumentedRows[1][i] as int == StandardStepValue(0, DocumentedRows[0][i] as int)
    {
      if i == 0 { assert DocumentedRows[0][i] == 0 && DocumentedRows[1][i] == 1; }
      else if i == 1 { assert DocumentedRows[0][i] == 1 && DocumentedRows[1][i] == 0; }
      else if i == 2 { assert DocumentedRows[0][i] == 2 && DocumentedRows[1][i] == 2; }
      else if i == 3 { assert DocumentedRows[0][i] == 3 && DocumentedRows[1][i] == 4; }
      else if i == 4 { assert DocumentedRows[0][i] == 4 && DocumentedRows[1][i] == 3; }
      else if i == 5 { assert DocumentedRows[0][i] == 5 && DocumentedRows[1][i] == 5; }
      else if i == 6 { assert DocumentedRows[0][i] == 6 && DocumentedRows[1][i] == 7; }
      else if i == 7 { assert DocumentedRows[0][i] == 7 && DocumentedRows[1][i] == 6; }
      else if i == 8 { assert DocumentedRows[0][i] == 8 && DocumentedRows[1][i] == 8; }
      else if i == 9 { assert DocumentedRows[0][i] == 9 && DocumentedRows[1][i] == 10; }
      else if i == 10 { assert DocumentedRows[0][i] == 10 && DocumentedRows[1][i] == 9; }
      else if i == 11 { assert DocumentedRows[0][i] == 11 && DocumentedRows[1][i] == 11; }
      else if i == 12 { assert DocumentedRows[0][i] == 12 && DocumentedRows[1][i] == 13; }
      else if i == 13 { assert DocumentedRows[0][i] == 13 && DocumentedRows[1][i] == 12; }
      else if i == 14 { assert DocumentedRows[0][i] == 14 && DocumentedRows[1][i] == 14; }
      else { assert DocumentedRows[0][i] == 15 && DocumentedRows[1][i] == 15; }
    }
  }

  /** Pass 1 (div 2, div 3, rmap(0,1), combine twice) turns the documented row 1 into row 2. */
  lemma DocumentedPass1()
    ensures RowFollows(1)
  {
    forall i | 0 <= i < 16
      ensures DocumentedRows[1][i] < 16 && DocumentedRows[2][i] as int == StandardStepValue(1, DocumentedRows[1][i] as int)
    {
      if i == 0 { assert DocumentedRows[1][i] == 1 && DocumentedRows[2][i] == 3; }
      else if i == 1 { assert DocumentedRows[1][i] == 0 && DocumentedRows[2][i] == 2; }
      else if i == 2 { assert DocumentedRows[1][i] == 2 && DocumentedRows[2][i] == 0; }
      else if i == 3 { assert DocumentedRows[1][i] == 4 && DocumentedRows[2][i] == 4; }
      else if i == 4 { assert DocumentedRows[1][i] == 3 && DocumentedRows[2][i] == 1; }
      else if i == 5 { assert DocumentedRows[1][i] == 5 && DocumentedRows[2][i] == 5; }
      else if i == 6 { assert DocumentedRows[1][i] == 7 && DocumentedRows[2][i] == 9; }
      else if i == 7 { assert DocumentedRows[1][i] == 6 && DocumentedRows[2][i] == 8; }
      else if i == 8 { assert DocumentedRows[1][i] == 8 && DocumentedRows[2][i] == 6; }
      else if i == 9 { assert DocumentedRows[1][i] == 10 && DocumentedRows[2][i] == 10; }
      else if i == 10 { assert DocumentedRows[1][i] == 9 && DocumentedRows[2][i] == 7; }
      else if i == 11 { assert DocumentedRows[1][i] == 11 && DocumentedRows[2][i] == 11; }
      else if i == 12 { assert DocumentedRows[1][i] == 13 && DocumentedRows[2][i] == 13; }
      else if i == 13 { assert DocumentedRows[1][i] == 12 && DocumentedRows[2][i] == 12; }
      else if i == 14 { assert DocumentedRows[1][i] == 14 && DocumentedRows[2][i] == 14; }
      else { assert DocumentedRows[1][i] == 15 && DocumentedRows[2][i] == 15; }
    }
  }

  /** Pass 2 (div 4, div 3, rmap(0,1), combine twice) turns the documented row 2 into row 3. */
  lemma DocumentedPass2()
    ensures RowFollows(2)
  {
    forall i | 0 <= i < 16
      ensures DocumentedRows[2][i] < 16 && DocumentedRows[3][i] as int == StandardStepValue(2, DocumentedRows[2][i] as int)
    {
      if i == 0 { assert DocumentedRows[2][i] == 3 && DocumentedRows[3][i] == 7; }
      else if i == 1 { assert DocumentedRows[2][i] == 2 && DocumentedRows[3][i] == 6; }
      else if i == 2 { assert DocumentedRows[2][i] == 0 && DocumentedRows[3][i] == 4; }
      else if i == 3 { assert DocumentedRows[2][i] == 4 && DocumentedRows[3][i] == 0; }
      else if i == 4 { assert DocumentedRows[2][i] == 1 && DocumentedRows[3][i] == 5; }
      else if i == 5 { assert DocumentedRows[2][i] == 5 && DocumentedRows[3][i] == 1; }
      else if i == 6 { assert DocumentedRows[2][i] == 9 && DocumentedRows[3][i] == 9; }
      else if i == 7 { assert DocumentedRows[2][i] == 8 && DocumentedRows[3][i] == 8; }
      else if i == 8 { assert DocumentedRows[2][i] == 6 && DocumentedRows[3][i] == 2; }
      else if i == 9 { assert DocumentedRows[2][i] == 10 && DocumentedRows[3][i] == 10; }
      else if i == 10 { assert DocumentedRows[2][i] == 7 && DocumentedRows[3][i] == 3; }
      else if i == 11 { assert DocumentedRows[2][i] == 11 && DocumentedRows[3][i] == 11; }
      else if i == 12 { assert DocumentedRows[2][i] == 13 && DocumentedRows[3][i] == 13; }
      else if i == 13 { assert DocumentedRows[2][i] == 12 && DocumentedRows[3][i] == 12; }
      else if i == 14 { assert DocumentedRows[2][i] == 14 && DocumentedRows[3][i] == 14; }
      else { assert DocumentedRows[2][i] == 15 && DocumentedRows[3][i] == 15; }
    }
  }

  /** Pass 3 (shift 4) turns the documented row 3 into row 4. */
  lemma DocumentedPass3()
    ensures RowFollows(3)
  {
    forall i | 0 <= i < 16
      ensures DocumentedRows[3][i] < 16 && DocumentedRows[4][i] as int == StandardStepValue(3, DocumentedRows[3][i] as int)
    {
      if i == 0 { assert DocumentedRows[3][i] == 7 && DocumentedRows[4][i] == 3; }
      else if i == 1 { assert DocumentedRows[3][i] == 6 && DocumentedRows[4][i] == 2; }
      else if i == 2 { assert DocumentedRows[3][i] == 4 && DocumentedRows[4][i] == 0; }
      else if i == 3 { assert DocumentedRows[3][i] == 0 && DocumentedRows[4][i] == 12; }
      else if i == 4 { assert DocumentedRows[3][i] == 5 && DocumentedRows[4][i] == 1; }
      else if i == 5 { assert DocumentedRows[3][i] == 1 && DocumentedRows[4][i] == 13; }
      else if i == 6 { assert DocumentedRows[3][i] == 9 && DocumentedRows[4][i] == 5; }
      else if i == 7 { assert DocumentedRows[3][i] == 8 && DocumentedRows[4][i] == 4; }
      else if i == 8 { assert DocumentedRows[3][i] == 2 && DocumentedRows[4][i] == 14; }
      else if i == 9 { assert DocumentedRows[3][i] == 10 && DocumentedRows[4][i] == 6; }
      else if i == 10 { assert DocumentedRows[3][i] == 3 && DocumentedRows[4][i] == 15; }
      else if i == 11 { assert DocumentedRows[3][i] == 11 && DocumentedRows[4][i] == 7; }
      else if i == 12 { assert DocumentedRows[3][i] == 13 && DocumentedRows[4][i] == 9; }
      else if i == 13 { assert DocumentedRows[3][i] == 12 && DocumentedRows[4][i] == 8; }
      else if i == 14 { assert DocumentedRows[3][i] == 14 && DocumentedRows[4][i] == 10; }
      else { assert DocumentedRows[3][i] == 15 && DocumentedRows[4][i] == 11; }
    }
  }

  /** Pass 4 (div 5, qmap(0,1), combine) turns the documented row 4 into row 5. */
  lemma DocumentedPass4()
    ensures RowFollows(4)
  {
    forall i | 0 <= i < 16
      ensures DocumentedRows[4][i] < 16 && DocumentedRows[5][i] as int == StandardStepValue(4, DocumentedRows[4][i] as int)
    {
      if i == 0 { assert DocumentedRows[4][i] == 3 && DocumentedRows[5][i] == 8; }
      else if i == 1 { assert DocumentedRows[4][i] == 2 && DocumentedRows[5][i] == 7; }
      else if i == 2 { assert DocumentedRows[4][i] == 0 && DocumentedRows[5][i] == 5; }
      else if i == 3 { assert DocumentedRows[4][i] == 12 && DocumentedRows[5][i] == 12; }
      else if i == 4 { assert DocumentedRows[4][i] == 1 && DocumentedRows[5][i] == 6; }
      else if i == 5 { assert DocumentedRows[4][i] == 13 && DocumentedRows[5][i] == 13; }
      else if i == 6 { assert DocumentedRows[4][i] == 5 && DocumentedRows[5][i] == 0; }
      else if i == 7 { assert DocumentedRows[4][i] == 4 && DocumentedRows[5][i] == 9; }
      else if i == 8 { assert DocumentedRows[4][i] == 14 && DocumentedRows[5][i] == 14; }
      else if i == 9 { assert DocumentedRows[4][i] == 6 && DocumentedRows[5][i] == 1; }
      else if i == 10 { assert DocumentedRows[4][i] == 15 && DocumentedRows[5][i] == 15; }
      else if i == 11 { assert DocumentedRows[4][i] == 7 && DocumentedRows[5][i] == 2; }
      else if i == 12 { assert DocumentedRows[4][i] == 9 && DocumentedRows[5][i] == 4; }
      else if i == 13 { assert DocumentedRows[4][i] == 8 && DocumentedRows[5][i] == 3; }
      else if i == 14 { assert DocumentedRows[4][i] == 10 && DocumentedRows[5][i] == 10; }
      else { assert DocumentedRows[4][i] == 11 && DocumentedRows[5][i] == 11; }
    }
  }

  /** Pass 5 (shift 4) turns the documented row 5 into row 6. */
  lemma DocumentedPass5()
    ensures RowFollows(5)
  {
    forall i | 0 <= i < 16
      ensures DocumentedRows[5][i] < 16 && DocumentedRows[6][i] as int == StandardStepValue(5, DocumentedRows[5][i] as int)
    {
      if i == 0 { assert DocumentedRows[5][i] == 8 && DocumentedRows[6][i] == 4; }
      else if i == 1 { assert DocumentedRows[5][i] == 7 && DocumentedRows[6][i] == 3; }
      else if i == 2 { assert DocumentedRows[5][i] == 5 && DocumentedRows[6][i] == 1; }
      else if i == 3 { assert DocumentedRows[5][i] == 12 && DocumentedRows[6][i] == 8; }
      else if i == 4 { assert DocumentedRows[5][i] == 6 && DocumentedRows[6][i] == 2; }
      else if i == 5 { assert DocumentedRows[5][i] == 13 && DocumentedRows[6][i] == 9; }
      else if i == 6 { assert DocumentedRows[5][i] == 0 && DocumentedRows[6][i] == 12; }
      else if i == 7 { assert DocumentedRows[5][i] == 9 && DocumentedRows[6][i] == 5; }
      else if i == 8 { assert DocumentedRows[5][i] == 14 && DocumentedRows[6][i] == 10; }
      else if i == 9 { assert DocumentedRows[5][i] == 1 && DocumentedRows[6][i] == 13; }
      else if i == 10 { assert DocumentedRows[5][i] == 15 && DocumentedRows[6][i] == 11; }
      else if i == 11 { assert DocumentedRows[5][i] == 2 && DocumentedRows[6][i] == 14; }
      else if i == 12 { assert DocumentedRows[5][i] == 4 && DocumentedRows[6][i] == 0; }
      else if i == 13 { assert DocumentedRows[5][i] == 3 && DocumentedRows[6][i] == 15; }
      else if i == 14 { assert DocumentedRows[5][i] == 10 && DocumentedRows[6][i] == 6; }
      else { assert DocumentedRows[5][i] == 11 && DocumentedRows[6][i] == 7; }
    }
  }

  /** Pass 6 (div 3, rmap(0,1), combine) turns the documented row 6 into row 7. */
  lemma DocumentedPass6()
    ensures RowFollows(6)
  {
    forall i | 0 <= i < 16
      ensures DocumentedRows[6][i] < 16 && DocumentedRows[7][i] as int == StandardStepValue(6, DocumentedRows[6][i] as int)
    {
      if i == 0 { assert DocumentedRows[6][i] == 4 && DocumentedRows[7][i] == 3; }
      else if i == 1 { assert DocumentedRows[6][i] == 3 && DocumentedRows[7][i] == 4; }
      else if i == 2 { assert DocumentedRows[6][i] == 1 && DocumentedRows[7][i] == 0; }
      else if i == 3 { assert DocumentedRows[6][i] == 8 && DocumentedRows[7][i] == 8; }
      else if i == 4 { assert DocumentedRows[6][i] == 2 && DocumentedRows[7][i] == 2; }
      else if i == 5 { assert DocumentedRows[6][i] == 9 && DocumentedRows[7][i] == 10; }
      else if i == 6 { assert DocumentedRows[6][i] == 12 && DocumentedRows[7][i] == 13; }
      else if i == 7 { assert DocumentedRows[6][i] == 5 && DocumentedRows[7][i] == 5; }
      else if i == 8 { assert DocumentedRows[6][i] == 10 && DocumentedRows[7][i] == 9; }
      else if i == 9 { assert DocumentedRows[6][i] == 13 && DocumentedRows[7][i] == 12; }
      else if i == 10 { assert DocumentedRows[6][i] == 11 && DocumentedRows[7][i] == 11; }
      else if i == 11 { assert DocumentedRows[6][i] == 14 && DocumentedRows[7][i] == 14; }
      else if i == 12 { assert DocumentedRows[6][i] == 0 && DocumentedRows[7][i] == 1; }
      else if i == 13 { assert DocumentedRows[6][i] == 15 && DocumentedRows[7][i] == 15; }
      else if i == 14 { assert DocumentedRows[6][i] == 6 && DocumentedRows[7][i] == 7; }
      else { assert DocumentedRows[6][i] == 7 && DocumentedRows[7][i] == 6; }
    }
  }

  /** Pass 7 (div 2, div 3, rmap(0,1), combine twice) turns the documented row 7 into row 8. */
  lemma DocumentedPass7()
    ensures RowFollows(7)
  {
    forall i | 0 <= i < 16
      ensures DocumentedRows[7][i] < 16 && DocumentedRows[8][i] as int == StandardStepValue(7, DocumentedRows[7][i] as int)
    {
      if i == 0 { assert DocumentedRows[7][i] == 3 && DocumentedRows[8][i] == 1; }
      else if i == 1 { assert DocumentedRows[7][i] == 4 && DocumentedRows[8][i] == 4; }
      else if i == 2 { assert DocumentedRows[7][i] == 0 && DocumentedRows[8][i] == 2; }
      else if i == 3 { assert DocumentedRows[7][i] == 8 && DocumentedRows[8][i] == 6; }
      else if i == 4 { assert DocumentedRows[7][i] == 2 && DocumentedRows[8][i] == 0; }
      else if i == 5 { assert DocumentedRows[7][i] == 10 && DocumentedRows[8][i] == 10; }
      else if i == 6 { assert DocumentedRows[7][i] == 13 && DocumentedRows[8][i] == 13; }
      else if i == 7 { assert DocumentedRows[7][i] == 5 && DocumentedRows[8][i] == 5; }
      else if i == 8 { assert DocumentedRows[7][i] == 9 && DocumentedRows[8][i] == 7; }
      else if i == 9 { assert DocumentedRows[7][i] == 12 && DocumentedRows[8][i] == 12; }
      else if i == 10 { assert DocumentedRows[7][i] == 11 && DocumentedRows[8][i] == 11; }
      else if i == 11 { assert DocumentedRows[7][i] == 14 && DocumentedRows[8][i] == 14; }
      else if i == 12 { assert DocumentedRows[7][i] == 1 && DocumentedRows[8][i] == 3; }
      else if i == 13 { assert DocumentedRows[7][i] == 15 && DocumentedRows[8][i] == 15; }
      else if i == 14 { assert DocumentedRows[7][i] == 7 && DocumentedRows[8][i] == 9; }
      else { assert DocumentedRows[7][i] == 6 && DocumentedRows[8][i] == 8; }
    }
  }

  /** Pass 8 (div 4, div 3, rmap(0,1), combine twice) turns the documented row 8 into row 9. */
  lemma DocumentedPass8()
    ensures RowFollows(8)
  {
    forall i | 0 <= i < 16
      ensures DocumentedRows[8][i] < 16 && DocumentedRows[9][i] as int == StandardStepValue(8, DocumentedRows[8][i] as int)
    {
      if i == 0 { assert DocumentedRows[8][i] == 1 && DocumentedRows[9][i] == 5; }
      else if i == 1 { assert DocumentedRows[8][i] == 4 && DocumentedRows[9][i] == 0; }
      else if i == 2 { assert DocumentedRows[8][i] == 2 && DocumentedRows[9][i] == 6; }
      else if i == 3 { assert DocumentedRows[8][i] == 6 && DocumentedRows[9][i] == 2; }
      else if i == 4 { assert DocumentedRows[8][i] == 0 && DocumentedRows[9][i] == 4; }
      else if i == 5 { assert DocumentedRows[8][i] == 10 && DocumentedRows[9][i] == 10; }
      else if i == 6 { assert DocumentedRows[8][i] == 13 && DocumentedRows[9][i] == 13; }
      else if i == 7 { assert DocumentedRows[8][i] == 5 && DocumentedRows[9][i] == 1; }
      else if i == 8 { assert DocumentedRows[8][i] == 7 && DocumentedRows[9][i] == 3; }
      else if i == 9 { assert DocumentedRows[8][i] == 12 && DocumentedRows[9][i] == 12; }
      else if i == 10 { assert DocumentedRows[8][i] == 11 && DocumentedRows[9][i] == 11; }
      else if i == 11 { assert DocumentedRows[8][i] == 14 && DocumentedRows[9][i] == 14; }
      else if i == 12 { assert DocumentedRows[8][i] == 3 && DocumentedRows[9][i] == 7; }
      else if i == 13 { assert DocumentedRows[8][i] == 15 && DocumentedRows[9][i] == 15; }
      else if i == 14 { assert DocumentedRows[8][i] == 9 && DocumentedRows[9][i] == 9; }
      else { assert DocumentedRows[8][i] == 8 && DocumentedRows[9][i] == 8; }
    }
  }

  /** Every documented row follows from the one before it. */
  lemma DocumentedRowFollows(k: nat)
    requires k < 9
    ensures RowFollows(k)
  {
    if k == 0 { DocumentedPass0(); }
    else if k == 1 { DocumentedPass1(); }
    else if k == 2 { DocumentedPass2(); }
    else if k == 3 { DocumentedPass3(); }
    else if k == 4 { DocumentedPass4(); }
    else if k == 5 { DocumentedPass5(); }
    else if k == 6 { DocumentedPass6(); }
    else if k == 7 { DocumentedPass7(); }
    else { DocumentedPass8(); }
  }

  /** Passes k .. 8 carry node v's documented row-k value to its documented result. */
  lemma {:induction false} StandardTransformOnLeaf(k: nat, v: nat)
    requires k <= 9 && v < 16
    ensures StandardTransformFrom(k, Leaf(DocumentedRows[k][v])) == Leaf(DocumentedRows[9][v])
    decreases 9 - k
  {
    if k < 9 {
      DocumentedRowFollows(k);
      StandardStepOnLeaf(k, DocumentedRows[k][v]);
      StandardTransformOnLeaf(k + 1, v);
    }
  }

  /**
   * The standard transform on 16 nodes sends 0 .. 15 to
   * 5, 0, 6, 2, 4, 10, 13, 1, 3, 12, 11, 14, 7, 15, 9, 8.
   */
  lemma StandardTransformDocumented()
    ensures forall v: uint64 :: v < 16 ==> StandardTransformFrom(0, Leaf(v)) == Leaf(DocumentedRows[9][v])
  {
    forall v: uint64 | v < 16
      ensures StandardTransformFrom(0, Leaf(v)) == Leaf(DocumentedRows[9][v])
    {
      assert DocumentedRows[0][v] == v;
      StandardTransformOnLeaf(0, v as nat);
    }
  }
}
