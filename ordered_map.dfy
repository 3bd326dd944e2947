/**
 * `std::map<std::string, V>` as the data loader uses it: a sequence of
 * entries kept in increasing key order, the order both iteration and
 * `emplace` follow. Keys compare as `std::string` does, character by
 * character with a proper prefix first.
 */
module OrderedMaps {
  import opened Options

  /**
   * `a < b` for `std::string`: lexicographic, a proper prefix before its
   * extensions. `char_traits<char>::lt` compares characters as unsigned
   * bytes while this compares code points; the two agree on ASCII keys, as
   * in the data files, and byte order of UTF-8 text is code-point order.
   */
  predicate StrLess(a: string, b: string)
    decreases |a|
  {
    if |a| == 0 then |b| > 0
    else if |b| == 0 then false
    else if a[0] != b[0] then a[0] < b[0]
    else StrLess(a[1..], b[1..])
  }

  lemma {:induction false} StrLessIrreflexive(a: string)
    ensures !StrLess(a, a)
    decreases |a|
  {
    if |a| > 0 {
      StrLessIrreflexive(a[1..]);
    }
  }

  lemma {:induction false} StrLessTransitive(a: string, b: string, c: string)
    requires StrLess(a, b) && StrLess(b, c)
    ensures StrLess(a, c)
    decreases |a|
  {
    if |a| > 0 && |b| > 0 && |c| > 0 && a[0] == b[0] && b[0] == c[0] {
      StrLessTransitive(a[1..], b[1..], c[1..]);
    }
  }

  /** Two different strings are ordered one way or the other. */
  lemma {:induction false} StrLessTotal(a: string, b: string)
    requires a != b
    ensures StrLess(a, b) || StrLess(b, a)
    decreases |a|
  {
    if |a| > 0 && |b| > 0 && a[0] == b[0] {
      assert a == [a[0]] + a[1..] && b == [b[0]] + b[1..];
      StrLessTotal(a[1..], b[1..]);
    }
  }

  /** The entries are in strictly increasing key order, so no key appears twice. */
  predicate Ordered<V>(entries: seq<(string, V)>)
  {
    forall i, j :: 0 <= i < j < |entries| ==> StrLess(entries[i].0, entries[j].0)
  }

  /** The index of the entry with key `key` at or after `from`, or `|entries|`. */
  function IndexOf<V>(entries: seq<(string, V)>, key: string, from: nat): (i: nat)
    requires from <= |entries|
    ensures from <= i <= |entries|
    ensures i < |entries| ==> entries[i].0 == key
    ensures forall j :: from <= j < i ==> entries[j].0 != key
    decreases |entries| - from
  {
    if from == |entries| then from
    else if entries[from].0 == key then from
    else IndexOf(entries, key, from + 1)
  }

  /** `map.find(key)`: the value stored under `key`. */
  function Find<V>(entries: seq<(string, V)>, key: string): (r: Option<V>)
    ensures r.Some? <==> exists i :: 0 <= i < |entries| && entries[i].0 == key
    ensures r.Some? ==> (key, r.value) in entries
  {
    var i := IndexOf(entries, key, 0);
    if i < |entries| then Some(entries[i].1) else None
  }

  /** In key order a key occurs at one index only. */
  lemma OrderedKeyUnique<V>(entries: seq<(string, V)>, i: nat, j: nat)
    requires Ordered(entries) && i < |entries| && j < |entries| && entries[i].0 == entries[j].0
    ensures i == j
  {
    if i < j {
      StrLessIrreflexive(entries[i].0);
    } else if j < i {
      StrLessIrreflexive(entries[i].0);
    }
  }

  /** The first index whose key is above `key`, or `|entries|`: where `emplace` inserts. */
  function InsertionPoint<V>(entries: seq<(string, V)>, key: string, from: nat): (p: nat)
    requires from <= |entries|
    ensures from <= p <= |entries|
    ensures p < |entries| ==> StrLess(key, entries[p].0)
    ensures forall j :: from <= j < p ==> !StrLess(key, entries[j].0)
    decreases |entries| - from
  {
    if from == |entries| then from
    else if StrLess(key, entries[from].0) then from
    else InsertionPoint(entries, key, from + 1)
  }

  /**
   * `emplace(key, value)`: the index of the entry now holding `key`, and
   * the entries, to which `(key, value)` was added only if `key` was absent.
   */
  function Emplace<V>(entries: seq<(string, V)>, key: string, value: V): (r: (seq<(string, V)>, nat))
    ensures r.1 < |r.0| && r.0[r.1].0 == key
  {
    var i := IndexOf(entries, key, 0);
    if i < |entries| then (entries, i)
    else
      var p := InsertionPoint(entries, key, 0);
      (entries[..p] + [(key, value)] + entries[p..], p)
  }

  /** An existing key leaves the entries as they are; a new key is inserted with its value. */
  lemma EmplaceContents<V>(entries: seq<(string, V)>, key: string, value: V)
    ensures var (after, i) := Emplace(entries, key, value);
            (Find(entries, key).Some? ==> after == entries && after[i] == (key, Find(entries, key).value))
            && (Find(entries, key).None? ==>
                  after[i] == (key, value) && after[..i] == entries[..i] && after[i + 1..] == entries[i..])
  {
    var i := IndexOf(entries, key, 0);
    if i == |entries| {
      var p := InsertionPoint(entries, key, 0);
      var after := entries[..p] + [(key, value)] + entries[p..];
      assert after[..p] == entries[..p];
      assert after[p + 1..] == entries[p..];
    }
  }

  /** `emplace` keeps the entries in key order. */
  lemma EmplaceOrdered<V>(entries: seq<(string, V)>, key: string, value: V)
    requires Ordered(entries)
    ensures Ordered(Emplace(entries, key, value).0)
  {
    var i := IndexOf(entries, key, 0);
    if i == |entries| {
      var p := InsertionPoint(entries, key, 0);
      var after := entries[..p] + [(key, value)] + entries[p..];
      forall a, b | 0 <= a < b < |after| ensures StrLess(after[a].0, after[b].0) {
        if b < p {
          assert after[a] == entries[a] && after[b] == entries[b];
        } else if a < p && b == p {
          KeyBelow(entries, key, a, p);
        } else if a < p {
          assert after[a] == entries[a] && after[b] == entries[b - 1];
        } else if a == p {
          KeyAbove(entries, key, p, b - 1);
        } else {
          assert after[a] == entries[a - 1] && after[b] == entries[b - 1];
        }
      }
    }
  }

  /** An absent key is above every key before its insertion point. */
  lemma KeyBelow<V>(entries: seq<(string, V)>, key: string, a: nat, p: nat)
    requires IndexOf(entries, key, 0) == |entries| && p == InsertionPoint(entries, key, 0) && a < p
    ensures StrLess(entries[a].0, key)
  {
    assert !StrLess(key, entries[a].0) && entries[a].0 != key;
    StrLessTotal(entries[a].0, key);
  }

  /** An absent key is below every key from its insertion point on. */
  lemma KeyAbove<V>(entries: seq<(string, V)>, key: string, p: nat, b: nat)
    requires Ordered(entries) && p == InsertionPoint(entries, key, 0) && p <= b < |entries|
    ensures StrLess(key, entries[b].0)
  {
    if p < b {
      StrLessTransitive(key, entries[p].0, entries[b].0);
    }
  }

  /** The entry at `i` given a new value, its key and its place unchanged. */
  function SetValue<V>(entries: seq<(string, V)>, i: nat, value: V): (r: seq<(string, V)>)
    requires i < |entries|
    ensures |r| == |entries| && r[i] == (entries[i].0, value)
    ensures forall j :: 0 <= j < |entries| && j != i ==> r[j] == entries[j]
  {
    entries[i := (entries[i].0, value)]
  }

  lemma SetValueOrdered<V>(entries: seq<(string, V)>, i: nat, value: V)
    requires Ordered(entries) && i < |entries|
    ensures Ordered(SetValue(entries, i, value))
  {
    var r := SetValue(entries, i, value);
    assert forall j :: 0 <= j < |entries| ==> r[j].0 == entries[j].0;
  }

  /** With keys in order, the value found for a key is the value of its entry. */
  lemma FindIsEntry<V>(entries: seq<(string, V)>, key: string, value: V)
    requires Ordered(entries)
    ensures Find(entries, key) == Some(value) <==> (key, value) in entries
  {
    if (key, value) in entries {
      var j :| 0 <= j < |entries| && entries[j] == (key, value);
      var i := IndexOf(entries, key, 0);
      OrderedKeyUnique(entries, i, j);
    }
  }

  /** Two lookups agree when the same entries with that key are present. */
  lemma FindAgrees<V>(a: seq<(string, V)>, b: seq<(string, V)>, key: string)
    requires Ordered(a) && Ordered(b)
    requires forall w :: (key, w) in a <==> (key, w) in b
    ensures Find(a, key) == Find(b, key)
  {
    if Find(a, key).Some? {
      FindIsEntry(a, key, Find(a, key).value);
      FindIsEntry(b, key, Find(a, key).value);
    } else if Find(b, key).Some? {
      FindIsEntry(b, key, Find(b, key).value);
      FindIsEntry(a, key, Find(b, key).value);
    }
  }

  /** `emplace` adds no entry with another key and removes none. */
  lemma EmplaceOtherEntries<V>(entries: seq<(string, V)>, key: string, value: V, other: string, w: V)
    requires other != key
    ensures (other, w) in Emplace(entries, key, value).0 <==> (other, w) in entries
  {
    var i := IndexOf(entries, key, 0);
    if i == |entries| {
      var p := InsertionPoint(entries, key, 0);
      assert entries == entries[..p] + entries[p..];
    }
  }

  /** Looking a key up after `emplace`: the emplaced key finds the old value if it had one, else the new one; other keys are unaffected. */
  lemma FindAfterEmplace<V>(entries: seq<(string, V)>, key: string, value: V, k: string)
    requires Ordered(entries)
    ensures var after := Emplace(entries, key, value).0;
            Find(after, k) == if k != key then Find(entries, k)
                              else Some(if Find(entries, key).Some? then Find(entries, key).value else value)
  {
    var (after, i) := Emplace(entries, key, value);
    EmplaceOrdered(entries, key, value);
    if k != key {
      forall w ensures (k, w) in after <==> (k, w) in entries {
        EmplaceOtherEntries(entries, key, value, k, w);
      }
      FindAgrees(after, entries, k);
    } else {
      EmplaceContents(entries, key, value);
      FindIsEntry(after, key, after[i].1);
    }
  }

  /** Looking a key up after the entry at `i` changed its value. */
  lemma FindAfterSetValue<V>(entries: seq<(string, V)>, i: nat, value: V, k: string)
    requires Ordered(entries) && i < |entries|
    ensures Find(SetValue(entries, i, value), k) == if k == entries[i].0 then Some(value) else Find(entries, k)
  {
    var after := SetValue(entries, i, value);
    SetValueOrdered(entries, i, value);
    if k == entries[i].0 {
      FindIsEntry(after, k, value);
    } else {
      forall w ensures (k, w) in after <==> (k, w) in entries {
        if (k, w) in after {
          var j :| 0 <= j < |after| && after[j] == (k, w);
          assert j != i && entries[j] == (k, w);
        }
        if (k, w) in entries {
          var j :| 0 <= j < |entries| && entries[j] == (k, w);
          assert after[j] == (k, w);
        }
      }
      FindAgrees(after, entries, k);
    }
  }

  /** The entry `Emplace` reports is the one a lookup of its key finds. */
  lemma FindEmplaced<V>(entries: seq<(string, V)>, key: string, value: V)
    requires Ordered(entries)
    ensures var (after, i) := Emplace(entries, key, value);
            Find(after, key) == Some(after[i].1)
  {
    var (after, i) := Emplace(entries, key, value);
    EmplaceOrdered(entries, key, value);
    FindIsEntry(after, key, after[i].1);
  }
}
