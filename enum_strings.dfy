/**
 * The enum helpers every module leans on: the name table behind
 * `ToString`/`ToEnum`, and the increment, decrement and comparison
 * operators that act on an enum's underlying 8-bit value.
 *
 * An enum value is its underlying `uint8`; a name table is the
 * `std::string` array the conversion macro is given, whose size the
 * macro's static assertion ties to the enum's count member.
 */
module EnumStrings {
  import opened FixedWidth

  /**
   * `ToString(value)`: the table's entry for values inside it and the
   * empty string for any value at or beyond its end.
   */
  function ToString(names: seq<string>, value: uint8): (s: string)
    ensures value < |names| ==> s == names[value]
    ensures |names| <= value ==> s == ""
  {
    if value < |names| then names[value] else ""
  }

  /**
   * The linear search of `ToEnum`, from entry `from` onwards: the first
   * matching index, or the table size when no later entry matches.
   */
  function FindName(names: seq<string>, s: string, from: nat): (i: nat)
    requires from <= |names|
    ensures from <= i <= |names|
    ensures i < |names| ==> names[i] == s
    ensures forall j :: from <= j < i ==> names[j] != s
    decreases |names| - from
  {
    if from == |names| then |names|
    else if names[from] == s then from
    else FindName(names, s, from + 1)
  }

  /**
   * `ToEnum(s)`: the first index whose name is `s`, or the count member
   * (the table size) when no name matches.
   */
  function ToEnum(names: seq<string>, s: string): (e: nat)
    ensures e <= |names|
    ensures e < |names| <==> s in names
    ensures e < |names| ==> names[e] == s && forall j :: 0 <= j < e ==> names[j] != s
  {
    FindName(names, s, 0)
  }

  predicate DistinctNames(names: seq<string>)
  {
    forall i, j :: 0 <= i < j < |names| ==> names[i] != names[j]
  }

  /** With distinct names, converting a value to its name and back returns the value. */
  lemma ToEnumOfToString(names: seq<string>, value: uint8)
    requires DistinctNames(names) && value < |names|
    ensures ToEnum(names, ToString(names, value)) == value as nat
  {
  }

  /** A name in the table converts to a value whose name is that name again. */
  lemma ToStringOfToEnum(names: seq<string>, s: string)
    requires s in names && |names| < 0x100
    ensures ToString(names, ToEnum(names, s) as uint8) == s
  {
  }

  /** The operators convert back from `int` through the 8-bit underlying type, so they wrap. */
  function ToUnderlying(x: int): (v: uint8)
    ensures (v - x) % 0x100 == 0
  {
    x % 0x100
  }

  /** Prefix `++`: the argument becomes, and the operator returns, the next underlying value. */
  function PreIncrement(value: uint8): (next: uint8)
    ensures value < 0xFF ==> next == value + 1
    ensures value == 0xFF ==> next == 0
  {
    ToUnderlying(value + 1)
  }

  /** Prefix `--`: the previous underlying value. */
  function PreDecrement(value: uint8): (previous: uint8)
    ensures 0 < value ==> previous == value - 1
    ensures value == 0 ==> previous == 0xFF
  {
    ToUnderlying(value - 1)
  }

  /** Postfix `++`: the new value of the argument and the old value as the result. */
  function PostIncrement(value: uint8): (r: (uint8, uint8))
    ensures r.0 == PreIncrement(value) && r.1 == value
  {
    (ToUnderlying(value + 1), value)
  }

  /** Postfix `--`: the new value of the argument and the old value as the result. */
  function PostDecrement(value: uint8): (r: (uint8, uint8))
    ensures r.0 == PreDecrement(value) && r.1 == value
  {
    (ToUnderlying(value - 1), value)
  }

  /** `<` on two enum values compares their underlying values. */
  function Less(a: uint8, b: uint8): (below: bool)
    ensures below <==> a as int < b as int
  {
    a < b
  }

  /** Incrementing and decrementing undo each other, including across the wrap. */
  lemma IncrementDecrementInverse(value: uint8)
    ensures PreDecrement(PreIncrement(value)) == value
    ensures PreIncrement(PreDecrement(value)) == value
  {
  }

  /**
   * The loops that walk an enum (`for (e = First; e < Count; ++e)`) visit
   * each value below the count once, in order: below the count an
   * increment never wraps and moves strictly upwards.
   */
  lemma EnumLoopStep(value: uint8, count: uint8)
    requires Less(value, count)
    ensures PreIncrement(value) == value + 1 && PreIncrement(value) <= count
    ensures !Less(PreIncrement(value), value)
  {
  }
}
