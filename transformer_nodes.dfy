/**
 * The transformer on the heap: each node of the row is a `TNode` that owns
 * its quotient and remainder nodes once divided, and the transformer holds
 * the row and the current limit. Every operation is proved to act on each
 * node as the tree functions of `TransformerDocs` say.
 */
module TransformerHeap {
  import opened Factoradics
  import opened TransformerDocs

  /**
   * A node: its value (a split node's value is its divisor) and, once
   * divided, a quotient node and a remainder node. `model` is the tree the
   * node stands for and `repr` the nodes it owns.
   */
  /** One node operation together with what it takes from the transformer (the limit, the row's length). */
  datatype NodeOp =
    | DivOp(divisor: uint64, limit: uint64)
    | CombineOp
    | MapQuotientOp(a: uint64, b: uint64)
    | MapRemainderOp(a: uint64, b: uint64)
    | ShiftOp(amount: uint64, nodeCount: uint64)

  /** Division by zero and a shift over no nodes are excluded. */
  predicate OpDefined(op: NodeOp)
  {
    match op
    case DivOp(divisor, _) => 0 < divisor
    case ShiftOp(_, count) => 0 < count
    case _ => true
  }

  /** What `op` makes of a node's tree. */
  function ApplyOp(op: NodeOp, t: Tree): Tree
    requires OpDefined(op)
  {
    match op
    case DivOp(divisor, limit) => DivTree(t, divisor, limit)
    case CombineOp => CombineTree(t).tree
    case MapQuotientOp(a, b) => MapQuotientTree(t, a, b)
    case MapRemainderOp(a, b) => MapRemainderTree(t, a, b)
    case ShiftOp(amount, count) => ShiftTree(t, amount, count)
  }

  class TNode {
    var value: uint64
    var quotient: TNode?
    var remainder: TNode?
    ghost var model: Tree
    ghost var repr: set<object>

    /** The node owns its children, whose footprints are apart, and `model` describes the linked nodes. */
    ghost predicate Valid()
      reads this, repr
      decreases repr
    {
      this in repr
      && (quotient == null <==> remainder == null)
      && (quotient == null ==> model == Leaf(value))
      && (quotient != null ==>
            quotient in repr && quotient.repr <= repr && this !in quotient.repr
            && remainder in repr && remainder != this && remainder !in quotient.repr
            && quotient.Valid()
            && model == Split(value, quotient.model, remainder.value))
    }

    /** A fresh leaf holding `v`. */
    constructor (v: uint64)
      ensures Valid() && fresh(repr) && model == Leaf(v)
    {
      value := v;
      quotient := null;
      remainder := null;
      model := Leaf(v);
      repr := {this};
    }

    /**
     * `Div` with the transformer's current limit: a node with a value at or
     * above the limit stays; a leaf splits into fresh quotient and
     * remainder nodes; a split node passes the division on to its quotient.
     */
    method Div(divisor: uint64, limit: uint64)
      requires Valid() && 0 < divisor
      modifies repr
      ensures Valid() && fresh(repr - old(repr))
      ensures model == DivTree(old(model), divisor, limit)
      decreases repr
    {
      if value >= limit {
        return;
      }
      if quotient != null {
        quotient.Div(divisor, limit);
        repr := repr + quotient.repr;
        model := Split(value, quotient.model, remainder.value);
      } else {
        var q := new TNode(value / divisor);
        var r := new TNode(value % divisor);
        quotient, remainder := q, r;
        value := divisor;
        repr := repr + q.repr + {r};
        model := Split(divisor, q.model, r.value);
      }
    }

    /**
     * `Combine`: the innermost split node becomes a leaf holding quotient *
     * divisor + remainder (in 64-bit arithmetic) and its divisor is
     * returned; a leaf returns 0.
     */
    method Combine() returns (oldDivisor: uint64)
      requires Valid()
      modifies repr
      ensures Valid() && repr <= old(repr)
      ensures model == CombineTree(old(model)).tree
      ensures oldDivisor == CombineTree(old(model)).oldDivisor
      decreases repr
    {
      if quotient == null {
        return 0;
      }
      if quotient.quotient != null {
        oldDivisor := quotient.Combine();
        model := Split(value, quotient.model, remainder.value);
      } else {
        oldDivisor := value;
        value := Wrap64(quotient.value as int * oldDivisor as int + remainder.value as int);
        quotient, remainder := null, null;
        model := Leaf(value);
      }
    }

    /** `MapQuotient`: the innermost split node's quotient exchanges a and b. */
    method MapQuotient(a: uint64, b: uint64)
      requires Valid()
      modifies repr
      ensures Valid() && repr == old(repr)
      ensures model == MapQuotientTree(old(model), a, b)
      decreases repr
    {
      if quotient != null {
        if quotient.quotient != null {
          quotient.MapQuotient(a, b);
        } else {
          quotient.value := Swap(quotient.value, a, b);
          quotient.model := Leaf(quotient.value);
        }
        model := Split(value, quotient.model, remainder.value);
      }
    }

    /** `MapRemainder`: the innermost split node's remainder exchanges a and b. */
    method MapRemainder(a: uint64, b: uint64)
      requires Valid()
      modifies repr
      ensures Valid() && repr == old(repr)
      ensures model == MapRemainderTree(old(model), a, b)
      decreases repr
    {
      if quotient != null {
        if quotient.quotient != null {
          quotient.MapRemainder(a, b);
        } else {
          remainder.value := Swap(remainder.value, a, b);
        }
        model := Split(value, quotient.model, remainder.value);
      }
    }

    /** `Shift` over the transformer's `nodes` nodes: the node's own value moves; its children stay. */
    method Shift(amount: uint64, nodes: uint64)
      requires Valid() && 0 < nodes
      modifies this
      ensures Valid() && repr == old(repr)
      ensures model == ShiftTree(old(model), amount, nodes)
    {
      value := ShiftValue(value, amount, nodes);
      if quotient == null {
        model := Leaf(value);
      } else {
        model := Split(value, quotient.model, remainder.value);
      }
    }

    /** Dispatches one node operation. */
    method Apply(op: NodeOp) returns (oldDivisor: uint64)
      requires Valid() && OpDefined(op)
      modifies repr
      ensures Valid() && fresh(repr - old(repr))
      ensures model == ApplyOp(op, old(model))
      ensures op.CombineOp? ==> oldDivisor == InnermostDivisor(old(model))
    {
      oldDivisor := 0;
      match op {
        case DivOp(divisor, limit) =>
          Div(divisor, limit);
        case CombineOp =>
          oldDivisor := Combine();
        case MapQuotientOp(a, b) =>
          MapQuotient(a, b);
        case MapRemainderOp(a, b) =>
          MapRemainder(a, b);
        case ShiftOp(amount, count) =>
          Shift(amount, count);
      }
    }
  }

  /**
   * The transformer state of the randomizer menu: the row of nodes and the
   * limit at or above which a node is no longer divided. The nodes own
   * footprints that are pairwise apart.
   */
  class Transformer {
    var nodes: seq<TNode>
    var limit: uint64
    ghost var repr: set<object>

    ghost predicate Valid()
      reads this, repr
    {
      this !in repr
      && |nodes| < UInt64Modulus
      && (forall i :: 0 <= i < |nodes| ==> nodes[i] in repr && nodes[i].repr <= repr && nodes[i].Valid())
      && (forall i, j :: 0 <= i < j < |nodes| ==> nodes[i].repr !! nodes[j].repr)
    }

    /** An empty row with the given limit. */
    constructor (limit: uint64)
      ensures Valid() && nodes == [] && this.limit == limit
    {
      nodes := [];
      this.limit := limit;
      repr := {};
    }

    /** `MakeDocs_Transformer_Clear`: the row is emptied. */
    method Clear()
      modifies this
      ensures Valid() && nodes == [] && repr == {} && limit == old(limit)
    {
      nodes := [];
      repr := {};
    }

    /** `MakeDocs_Transformer_Reset`: the row becomes `setSize` fresh leaves 0 .. setSize - 1. */
    method Reset(setSize: uint64)
      modifies this
      ensures Valid() && fresh(repr) && limit == old(limit)
      ensures |nodes| == setSize as int
      ensures forall i :: 0 <= i < |nodes| ==> nodes[i].model == Leaf(i as uint64)
    {
      Clear();
      var i: uint64 := 0;
      while i < setSize
        invariant i <= setSize && |nodes| == i as int
        invariant Valid() && fresh(repr) && limit == old(limit)
        invariant forall j :: 0 <= j < |nodes| ==> nodes[j].model == Leaf(j as uint64)
      {
        var node := new TNode(i);
        nodes := nodes + [node];
        repr := repr + node.repr;
        i := i + 1;
      }
    }

    /** `MakeDocs_Transformer_Limit`: values at or above `newLimit` are no longer divided. */
    method Limit(newLimit: uint64)
      requires Valid()
      modifies this
      ensures Valid() && nodes == old(nodes) && repr == old(repr) && limit == newLimit
    {
      limit := newLimit;
    }

    /** Applies `op` to node i alone; the other nodes keep their trees. */
    method ApplyToNode(i: nat, op: NodeOp) returns (oldDivisor: uint64)
      requires Valid() && i < |nodes| && OpDefined(op)
      modifies this, nodes[i].repr
      ensures Valid() && nodes == old(nodes) && limit == old(limit) && fresh(repr - old(repr))
      ensures nodes[i].model == ApplyOp(op, old(nodes[i].model))
      ensures op.CombineOp? ==> oldDivisor == InnermostDivisor(old(nodes[i].model))
      ensures forall j :: 0 <= j < |nodes| && j != i ==> nodes[j].model == old(nodes[j].model)
    {
      var node := nodes[i];
      oldDivisor := node.Apply(op);
      repr := repr + node.repr;
    }

    /** `MakeDocs_Transformer_Div`: every node is divided under the current limit. */
    method Div(divisor: uint64)
      requires Valid() && 0 < divisor
      modifies this, repr
      ensures Valid() && nodes == old(nodes) && limit == old(limit) && fresh(repr - old(repr))
      ensures forall i :: 0 <= i < |nodes| ==> nodes[i].model == DivTree(old(nodes[i].model), divisor, limit)
    {
      var i := 0;
      while i < |nodes|
        invariant 0 <= i <= |nodes| && nodes == old(nodes) && limit == old(limit)
        invariant Valid() && fresh(repr - old(repr))
        invariant forall j :: 0 <= j < i ==> nodes[j].model == DivTree(old(nodes[j].model), divisor, limit)
        invariant forall j :: i <= j < |nodes| ==> nodes[j].model == old(nodes[j].model)
      {
        var _ := ApplyToNode(i, DivOp(divisor, limit));
        i := i + 1;
      }
    }

    /** `MakeDocs_Transformer_MapQuotient`: every node's innermost quotient exchanges a and b. */
    method MapQuotient(a: uint64, b: uint64)
      requires Valid()
      modifies this, repr
      ensures Valid() && nodes == old(nodes) && limit == old(limit) && fresh(repr - old(repr))
      ensures forall i :: 0 <= i < |nodes| ==> nodes[i].model == MapQuotientTree(old(nodes[i].model), a, b)
    {
      var i := 0;
      while i < |nodes|
        invariant 0 <= i <= |nodes| && nodes == old(nodes) && limit == old(limit)
        invariant Valid() && fresh(repr - old(repr))
        invariant forall j :: 0 <= j < i ==> nodes[j].model == MapQuotientTree(old(nodes[j].model), a, b)
        invariant forall j :: i <= j < |nodes| ==> nodes[j].model == old(nodes[j].model)
      {
        var _ := ApplyToNode(i, MapQuotientOp(a, b));
        i := i + 1;
      }
    }

    /** `MakeDocs_Transformer_MapRemainder`: every node's innermost remainder exchanges a and b. */
    method MapRemainder(a: uint64, b: uint64)
      requires Valid()
      modifies this, repr
      ensures Valid() && nodes == old(nodes) && limit == old(limit) && fresh(repr - old(repr))
      ensures forall i :: 0 <= i < |nodes| ==> nodes[i].model == MapRemainderTree(old(nodes[i].model), a, b)
    {
      var i := 0;
      while i < |nodes|
        invariant 0 <= i <= |nodes| && nodes == old(nodes) && limit == old(limit)
        invariant Valid() && fresh(repr - old(repr))
        invariant forall j :: 0 <= j < i ==> nodes[j].model == MapRemainderTree(old(nodes[j].model), a, b)
        invariant forall j :: i <= j < |nodes| ==> nodes[j].model == old(nodes[j].model)
      {
        var _ := ApplyToNode(i, MapRemainderOp(a, b));
        i := i + 1;
      }
    }

    /** `MakeDocs_Transformer_Shift`: every node shifts by `amount` over the row's length. */
    method Shift(amount: uint64)
      requires Valid()
      modifies this, repr
      ensures Valid() && nodes == old(nodes) && limit == old(limit) && fresh(repr - old(repr))
      ensures forall i :: 0 <= i < |nodes| ==> nodes[i].model == ShiftTree(old(nodes[i].model), amount, |nodes| as uint64)
    {
      var i := 0;
      while i < |nodes|
        invariant 0 <= i <= |nodes| && nodes == old(nodes) && limit == old(limit)
        invariant Valid() && fresh(repr - old(repr))
        invariant forall j :: 0 <= j < i ==> nodes[j].model == ShiftTree(old(nodes[j].model), amount, |nodes| as uint64)
        invariant forall j :: i <= j < |nodes| ==> nodes[j].model == old(nodes[j].model)
      {
        var _ := ApplyToNode(i, ShiftOp(amount, |nodes| as uint64));
        i := i + 1;
      }
    }

    /** `MakeDocs_Transformer_Combine`: every node combines, and the largest divisor undone is returned (0 for none). */
    method Combine() returns (oldDivisor: uint64)
      requires Valid()
      modifies this, repr
      ensures Valid() && nodes == old(nodes) && limit == old(limit) && fresh(repr - old(repr))
      ensures forall i :: 0 <= i < |nodes| ==> nodes[i].model == CombineTree(old(nodes[i].model)).tree
      ensures forall i :: 0 <= i < |nodes| ==> InnermostDivisor(old(nodes[i].model)) <= oldDivisor
      ensures oldDivisor == 0 || exists i :: 0 <= i < |nodes| && InnermostDivisor(old(nodes[i].model)) == oldDivisor
    {
      oldDivisor := 0;
      var i := 0;
      while i < |nodes|
        invariant 0 <= i <= |nodes| && nodes == old(nodes) && limit == old(limit)
        invariant Valid() && fresh(repr - old(repr))
        invariant forall j :: 0 <= j < i ==> nodes[j].model == CombineTree(old(nodes[j].model)).tree
        invariant forall j :: i <= j < |nodes| ==> nodes[j].model == old(nodes[j].model)
        invariant forall j :: 0 <= j < i ==> InnermostDivisor(old(nodes[j].model)) <= oldDivisor
        invariant oldDivisor == 0 || exists j :: 0 <= j < i && InnermostDivisor(old(nodes[j].model)) == oldDivisor
      {
        var d := ApplyToNode(i, CombineOp);
        if d > oldDivisor {
          oldDivisor := d;
        }
        i := i + 1;
      }
    }

    /** The value each node holds; a leaf's is the number its tree stands for. */
    method RowValues() returns (values: seq<uint64>)
      requires Valid()
      ensures |values| == |nodes|
      ensures forall i :: 0 <= i < |nodes| && nodes[i].model.Leaf? ==> values[i] == nodes[i].model.value
    {
      values := [];
      var i := 0;
      while i < |nodes|
        invariant 0 <= i <= |nodes| && |values| == i
        invariant forall j :: 0 <= j < i && nodes[j].model.Leaf? ==> values[j] == nodes[j].model.value
      {
        values := values + [nodes[i].value];
        i := i + 1;
      }
    }

    /** The limit pass k of the standard transform sets; the shifts keep the limit they find. */
    static function PassLimit(k: nat, previous: uint64): uint64
    {
      if k == 0 || k == 4 || k == 6 then 15 else if k == 3 || k == 5 then previous else 12
    }

    /** Pass k of the standard transform script over 16 nodes: a limit, divisions, one map and the combines, or a shift. */
    method StandardPass(k: nat)
      requires Valid() && k < 9 && |nodes| == 16
      modifies this, repr
      ensures Valid() && nodes == old(nodes) && fresh(repr - old(repr))
      ensures limit == PassLimit(k, old(limit))
      ensures forall i :: 0 <= i < 16 ==> nodes[i].model == StandardStepTree(k, old(nodes[i].model))
    {
      if k == 0 || k == 6 {
        Limit(15);
        Div(3);
        MapRemainder(0, 1);
        var _ := Combine();
      } else if k == 1 || k == 7 {
        Limit(12);
        Div(2);
        Div(3);
        MapRemainder(0, 1);
        var _ := Combine();
        var _ := Combine();
      } else if k == 2 || k == 8 {
        Limit(12);
        Div(4);
        Div(3);
        MapRemainder(0, 1);
        var _ := Combine();
        var _ := Combine();
      } else if k == 4 {
        Limit(15);
        Div(5);
        MapQuotient(0, 1);
        var _ := Combine();
      } else {
        Shift(4);
      }
    }

    /** Every node holds its entry of documented row k. */
    ghost predicate AtRow(k: nat)
      requires k <= 9
      reads this, repr
    {
      Valid() && |nodes| == 16
      && forall i :: 0 <= i < 16 ==> nodes[i].model == Leaf(DocumentedRows[k][i])
    }

    /** Pass k takes the documented row k to row k + 1. */
    method StandardPassOnRow(k: nat)
      requires k < 9 && AtRow(k)
      modifies this, repr
      ensures AtRow(k + 1) && fresh(repr - old(repr))
      ensures limit == PassLimit(k, old(limit))
    {
      StandardPass(k);
      DocumentedRowFollows(k);
      forall i | 0 <= i < 16
        ensures nodes[i].model == Leaf(DocumentedRows[k + 1][i])
      {
        StandardStepOnLeaf(k, DocumentedRows[k][i]);
      }
    }

    /** The nine passes of the script take the documented row 0 to row 9. */
    method StandardScript()
      requires AtRow(0)
      modifies this, repr
      ensures AtRow(9) && limit == 12 && fresh(repr - old(repr))
    {
      StandardPassOnRow(0);
      StandardPassOnRow(1);
      StandardPassOnRow(2);
      StandardPassOnRow(3);
      StandardPassOnRow(4);
      StandardPassOnRow(5);
      StandardPassOnRow(6);
      StandardPassOnRow(7);
      StandardPassOnRow(8);
    }

    /**
     * `Cmd_MakeDocs_StandardTransform`: the scripted transform of 16 nodes.
     * `result` is the row shown at the end, before the row is reset and
     * cleared: the documented 5, 0, 6, 2, 4, 10, 13, 1, 3, 12, 11, 14, 7, 15, 9, 8.
     */
    method StandardTransform() returns (result: seq<uint64>)
      requires Valid()
      modifies this, repr
      ensures Valid() && nodes == [] && limit == 12
      ensures result == DocumentedRows[9]
    {
      Reset(16);
      assert DocumentedRows[0] == seq(16, i requires 0 <= i < 16 => i as uint64);
      StandardScript();
      result := RowValues();
      Reset(16);
      Clear();
    }
  }
}
