/**
 * The square-containment tool's `GlobalData`: the settings, setted points,
 * assertions and predefined sets read from the data file line by line,
 * the active point list the menu edits, and the pass that gives every
 * horizontal-perimeter point its vertical twin.
 *
 * `std::map<std::string, SettedPoint>` is an `OrderedMaps` entry sequence;
 * a `std::vector` is a `seq` the methods reassign.
 */
module SquareContainmentGlobal {
  import opened Options
  import opened FixedWidth
  import opened StringSearch
  import opened IntStreams
  import opened OrderedMaps
  import opened SquareContainmentData

  // ---------------------------------------------------------------------
  // What the loaders keep true of their data
  // ---------------------------------------------------------------------

  /** Every set type is a real one, below the count member. */
  predicate KnownSets(sets: seq<uint8>)
  {
    forall j :: 0 <= j < |sets| ==> sets[j] < SetTypeCount
  }

  /** The setted points in key order, each named by its key, each in known sets only. */
  predicate WellFormedPoints(entries: seq<(string, SettedPoint)>)
  {
    && Ordered(entries)
    && (forall i :: 0 <= i < |entries| ==> entries[i].1.point.name == entries[i].0)
    && (forall i :: 0 <= i < |entries| ==> KnownSets(entries[i].1.sets))
  }

  /** Every assertion checks known set types only. */
  predicate KnownSetTypes(assertions: seq<AssertionData>)
  {
    forall i :: 0 <= i < |assertions| ==> KnownSets(assertions[i].setTypes)
  }

  /** In well-formed points, the point found under a key carries that key as its name and known sets. */
  lemma FoundInWellFormed(entries: seq<(string, SettedPoint)>, key: string)
    requires WellFormedPoints(entries) && Find(entries, key).Some?
    ensures Find(entries, key).value.point.name == key && KnownSets(Find(entries, key).value.sets)
  {
    var i := IndexOf(entries, key, 0);
    assert entries[i].1 == Find(entries, key).value;
  }

  /**
   * `emplace` into well-formed points: the entries stay in key order, every
   * entry but the reported one is as well formed as before, and the reported
   * one holds the old value under the key, if any, else the new one.
   */
  lemma EmplaceWellFormed(entries: seq<(string, SettedPoint)>, key: string, value: SettedPoint)
    requires WellFormedPoints(entries)
    ensures var (after, i) := Emplace(entries, key, value);
            && Ordered(after)
            && (forall j :: 0 <= j < |after| && j != i ==> after[j].1.point.name == after[j].0 && KnownSets(after[j].1.sets))
            && after[i].1 == (if Find(entries, key).Some? then Find(entries, key).value else value)
  {
    EmplaceOrdered(entries, key, value);
    EmplaceContents(entries, key, value);
    var (after, i) := Emplace(entries, key, value);
    if Find(entries, key).None? {
      assert forall j :: 0 <= j < i ==> after[j] == entries[j];
      assert forall j :: i < j < |after| ==> after[j] == entries[j - 1];
    }
  }

  /** Giving the entry at `i` a value named by its key, in known sets, makes the points well formed. */
  lemma SetValueWellFormed(after: seq<(string, SettedPoint)>, i: nat, value: SettedPoint)
    requires Ordered(after) && i < |after|
    requires forall j :: 0 <= j < |after| && j != i ==> after[j].1.point.name == after[j].0 && KnownSets(after[j].1.sets)
    requires value.point.name == after[i].0 && KnownSets(value.sets)
    ensures WellFormedPoints(SetValue(after, i, value))
  {
    SetValueOrdered(after, i, value);
  }

  // ---------------------------------------------------------------------
  // Config lines
  // ---------------------------------------------------------------------

  /** `ReadConfigLine`'s split: the key before the first `:` and the value after it, or nothing. */
  function ConfigEntry(line: string): (r: Option<(string, string)>)
  {
    var colon := FindFrom(line, ':', 0);
    if colon < 0 then None else Some((line[..colon], line[colon + 1..]))
  }

  /** A line without `:` is ignored; otherwise key, `:` and value make the line again, and the key holds no `:`. */
  lemma ConfigEntrySplits(line: string)
    ensures ConfigEntry(line).None? <==> ':' !in line
    ensures ConfigEntry(line).Some? ==> ConfigEntry(line).value.0 + ":" + ConfigEntry(line).value.1 == line
                                        && ':' !in ConfigEntry(line).value.0
  {
    FindFromFirst(line, ':', 0);
    var colon := FindFrom(line, ':', 0);
    if colon >= 0 {
      assert line == line[..colon] + ":" + line[colon + 1..];
      assert forall j :: 0 <= j < |line[..colon]| ==> line[..colon][j] == line[j];
    } else {
      assert forall j :: 0 <= j < |line| ==> line[j] != ':';
    }
  }

  /** A key without `:` and any value, joined by `:`, split back into the two. */
  lemma ConfigEntryOfJoined(key: string, value: string)
    requires ':' !in key
    ensures ConfigEntry(key + ":" + value) == Some((key, value))
  {
    var line := key + ":" + value;
    FindFromIs(line, ':', 0, |key|);
    assert line[..|key|] == key && line[|key| + 1..] == value;
  }

  // ---------------------------------------------------------------------
  // Setted point lines: `sets:x,y`
  // ---------------------------------------------------------------------

  /** The point's name: the set names up to the first `+`, or all of them. */
  function NameBeforePlus(sets: string): (name: string)
  {
    var plus := FindFrom(sets, '+', 0);
    if plus < 0 then sets else sets[..plus]
  }

  /** The name is a prefix of the set names without `+`, and is all of them exactly when they hold no `+`. */
  lemma NameBeforePlusIs(sets: string)
    ensures var name := NameBeforePlus(sets);
            name <= sets && '+' !in name && (name == sets <==> '+' !in sets)
  {
    FindFromFirst(sets, '+', 0);
    var plus := FindFrom(sets, '+', 0);
    if plus >= 0 {
      assert forall j :: 0 <= j < |sets[..plus]| ==> sets[..plus][j] == sets[j];
    } else {
      assert forall j :: 0 <= j < |sets| ==> sets[j] != '+';
    }
  }

  /** What a setted point line names: the point name, the set names and the two coordinates read. */
  function SettedPointLine(line: string): (r: Option<(string, string, int32, int32)>)
  {
    var colon := FindFrom(line, ':', 0);
    if colon < 0 then None
    else match ExtractPair(line[colon + 1..])
      case None => None
      case Some((x, y)) =>
        var sets := line[..colon];
        Some((NameBeforePlus(sets), sets, x, y))
  }

  /** The point a setted point line defines, named. */
  function LinePoint(sets: string, x: int32, y: int32, name: string): SettedPoint
  {
    var p := SettedPointOf(SettedCoordinate(x), SettedCoordinate(y), sets);
    p.(point := p.point.(name := name))
  }

  /**
   * `ReadSettedPointLine`: `emplace` the unnamed point under its name,
   * then name the entry `emplace` reports.
   */
  function AddSettedPoint(entries: seq<(string, SettedPoint)>, line: string): seq<(string, SettedPoint)>
  {
    match SettedPointLine(line)
    case None => entries
    case Some((name, sets, x, y)) =>
      var (after, i) := Emplace(entries, name, SettedPointOf(SettedCoordinate(x), SettedCoordinate(y), sets));
      SetValue(after, i, after[i].1.(point := after[i].1.point.(name := name)))
  }

  /** Reading a setted point line keeps the points well formed. */
  lemma AddSettedPointWellFormed(entries: seq<(string, SettedPoint)>, line: string)
    requires WellFormedPoints(entries)
    ensures WellFormedPoints(AddSettedPoint(entries, line))
  {
    match SettedPointLine(line)
    case None =>
    case Some((name, sets, x, y)) =>
      var p := SettedPointOf(SettedCoordinate(x), SettedCoordinate(y), sets);
      assert KnownSets(p.sets) by {
        NamedSetsAre(sets, |SetTypeNames|);
      }
      EmplaceWellFormed(entries, name, p);
      var (after, i) := Emplace(entries, name, p);
      assert KnownSets(after[i].1.sets) by {
        if Find(entries, name).Some? {
          FoundInWellFormed(entries, name);
        }
      }
      SetValueWellFormed(after, i, after[i].1.(point := after[i].1.point.(name := name)));
  }

  /**
   * Looking a name up after a setted point line: the line's name finds the
   * point already loaded under it, if any, and else the line's point under
   * that name; every other name finds what it found before.
   */
  lemma FindAfterSettedPointLine(entries: seq<(string, SettedPoint)>, line: string, k: string)
    requires WellFormedPoints(entries)
    ensures Find(AddSettedPoint(entries, line), k)
            == match SettedPointLine(line)
               case None => Find(entries, k)
               case Some((name, sets, x, y)) =>
                 if k != name || Find(entries, k).Some? then Find(entries, k) else Some(LinePoint(sets, x, y, name))
  {
    match SettedPointLine(line)
    case None =>
    case Some((name, sets, x, y)) =>
      var p := SettedPointOf(SettedCoordinate(x), SettedCoordinate(y), sets);
      var (after, i) := Emplace(entries, name, p);
      var named := after[i].1.(point := after[i].1.point.(name := name));
      EmplaceOrdered(entries, name, p);
      FindAfterEmplace(entries, name, p, k);
      FindAfterSetValue(after, i, named, k);
      if k == name && Find(entries, k).Some? {
        FindEmplaced(entries, name, p);
        FoundInWellFormed(entries, k);
        assert named == after[i].1;
      }
  }

  /** A loaded name keeps its first point: a later line for the same name changes nothing. */
  lemma SettedPointLineKeepsFirst(entries: seq<(string, SettedPoint)>, line: string)
    requires WellFormedPoints(entries)
    requires SettedPointLine(line).Some? && Find(entries, SettedPointLine(line).value.0).Some?
    ensures AddSettedPoint(entries, line) == entries
  {
    var (name, sets, x, y) := SettedPointLine(line).value;
    var p := SettedPointOf(SettedCoordinate(x), SettedCoordinate(y), sets);
    EmplaceContents(entries, name, p);
    var (after, i) := Emplace(entries, name, p);
    FindEmplaced(entries, name, p);
    FoundInWellFormed(entries, name);
    assert after[i].1.(point := after[i].1.point.(name := name)) == after[i].1;
  }

  /** A line written as `sets:x,y`, with no `:` in the set names, names the point before `+` at `(x, y)`. */
  lemma SettedPointLineOfWritten(sets: string, x: int32, y: int32)
    requires ':' !in sets
    ensures SettedPointLine(sets + ":" + SignedDecimal(x) + "," + SignedDecimal(y))
            == Some((NameBeforePlus(sets), sets, x, y))
  {
    var number := SignedDecimal(x) + "," + SignedDecimal(y);
    var line := sets + ":" + number;
    assert line == sets + ":" + SignedDecimal(x) + "," + SignedDecimal(y);
    FindFromIs(line, ':', 0, |sets|);
    assert line[..|sets|] == sets;
    assert line[|sets| + 1..] == number + "";
    ExtractPairOfWritten(x, y, "");
  }

  // ---------------------------------------------------------------------
  // Predefined set lines
  // ---------------------------------------------------------------------

  /** A line `[name]` opens a new predefined set. */
  predicate OpensSet(line: string)
  {
    |line| > 0 && line[0] == '[' && line[|line| - 1] == ']'
  }

  /** An opening line has both brackets, so the name between them is well defined. */
  lemma OpensSetHasName(line: string)
    requires OpensSet(line)
    ensures |line| >= 2
  {
  }

  /** `[name]` opens the set `name`. */
  lemma BracketedNameOpensSet(name: string)
    ensures OpensSet("[" + name + "]") && ("[" + name + "]")[1..|name| + 1] == name
  {
  }

  /** The set `index` with one more point. */
  function WithPoint(sets: seq<NamedSet>, index: nat, p: Point): (r: seq<NamedSet>)
    requires index < |sets|
    ensures |r| == |sets| && r[index].name == sets[index].name && r[index].points == sets[index].points + [p]
    ensures forall j :: 0 <= j < |sets| && j != index ==> r[j] == sets[j]
  {
    sets[index := NamedSet(sets[index].name, sets[index].points + [p])]
  }

  // ---------------------------------------------------------------------
  // Names to points
  // ---------------------------------------------------------------------

  /** The point the fill adds for one name: the setted point's position under that name, or nothing. */
  function FoundPoint(entries: seq<(string, SettedPoint)>, name: string): seq<Point>
  {
    match Find(entries, name)
    case None => []
    case Some(p) => [Point(p.point.x, p.point.y, name)]
  }

  /** `FillListWithSettedPoints(names, ...)`'s additions: one point per loaded name, in the order of the names. */
  function FoundPoints(entries: seq<(string, SettedPoint)>, names: seq<string>): (points: seq<Point>)
    ensures |points| <= |names|
    decreases |names|
  {
    if |names| == 0 then [] else FoundPoints(entries, names[..|names| - 1]) + FoundPoint(entries, names[|names| - 1])
  }

  /** The fill of two lists is the fill of the first, then of the second. */
  lemma {:induction false} FoundPointsAppend(entries: seq<(string, SettedPoint)>, a: seq<string>, b: seq<string>)
    ensures FoundPoints(entries, a + b) == FoundPoints(entries, a) + FoundPoints(entries, b)
    decreases |b|
  {
    if |b| == 0 {
      assert a + b == a;
    } else {
      assert (a + b)[..|a + b| - 1] == a + b[..|b| - 1];
      assert (a + b)[|a + b| - 1] == b[|b| - 1];
      FoundPointsAppend(entries, a, b[..|b| - 1]);
    }
  }

  /** A name that is not loaded is silently skipped. */
  lemma FoundPointsSkipsAbsent(entries: seq<(string, SettedPoint)>, a: seq<string>, name: string, b: seq<string>)
    requires Find(entries, name).None?
    ensures FoundPoints(entries, a + [name] + b) == FoundPoints(entries, a + b)
  {
    assert FoundPoints(entries, a + [name]) == FoundPoints(entries, a) by {
      var an := a + [name];
      assert an[..|an| - 1] == a && an[|an| - 1] == name;
    }
    FoundPointsAppend(entries, a + [name], b);
    FoundPointsAppend(entries, a, b);
  }

  /** When every name is loaded, the fill adds one point per name, each at its setted point and named as asked. */
  lemma {:induction false} FoundPointsAllLoaded(entries: seq<(string, SettedPoint)>, names: seq<string>)
    requires forall i :: 0 <= i < |names| ==> Find(entries, names[i]).Some?
    ensures |FoundPoints(entries, names)| == |names|
    ensures forall i :: 0 <= i < |names| ==>
              FoundPoints(entries, names)[i]
              == Point(Find(entries, names[i]).value.point.x, Find(entries, names[i]).value.point.y, names[i])
    decreases |names|
  {
    if |names| > 0 {
      var init := names[..|names| - 1];
      assert forall i :: 0 <= i < |init| ==> init[i] == names[i];
      FoundPointsAllLoaded(entries, init);
    }
  }

  /** Every added point is named by a listed, loaded name and stands where that setted point does. */
  lemma {:induction false} FoundPointsSound(entries: seq<(string, SettedPoint)>, names: seq<string>)
    ensures forall j :: 0 <= j < |FoundPoints(entries, names)| ==>
              var p := FoundPoints(entries, names)[j];
              p.name in names && Find(entries, p.name).Some?
              && p.x == Find(entries, p.name).value.point.x && p.y == Find(entries, p.name).value.point.y
    decreases |names|
  {
    if |names| > 0 {
      var init := names[..|names| - 1];
      FoundPointsSound(entries, init);
      forall n | n in init ensures n in names {
        var i :| 0 <= i < |init| && init[i] == n;
        assert names[i] == n;
      }
    }
  }

  /** With well-formed points, each added point is the setted point itself. */
  lemma FoundPointIsSettedPoint(entries: seq<(string, SettedPoint)>, name: string)
    requires WellFormedPoints(entries) && Find(entries, name).Some?
    ensures FoundPoint(entries, name) == [Find(entries, name).value.point]
  {
    FoundInWellFormed(entries, name);
  }

  // ---------------------------------------------------------------------
  // The horizontal-to-vertical pass
  // ---------------------------------------------------------------------

  /** The vertical twin's name: every `H` of the name turned into `V`. */
  function VerticalName(name: string): (v: string)
    ensures |v| == |name|
    ensures forall i :: 0 <= i < |name| ==> v[i] == if name[i] == 'H' then 'V' else name[i]
  {
    if |name| == 0 then [] else VerticalName(name[..|name| - 1]) + [if name[|name| - 1] == 'H' then 'V' else name[|name| - 1]]
  }

  /** A vertical name holds no `H`; a name without `H` is its own vertical name, so the pass is idempotent on names. */
  lemma VerticalNameShape(name: string)
    ensures 'H' !in VerticalName(name)
    ensures 'H' !in name ==> VerticalName(name) == name
    ensures VerticalName(VerticalName(name)) == VerticalName(name)
  {
    var v := VerticalName(name);
    assert forall i :: 0 <= i < |v| ==> v[i] != 'H';
    if 'H' !in name {
      assert forall i :: 0 <= i < |name| ==> name[i] != 'H';
    }
    assert forall i :: 0 <= i < |v| ==> v[i] != 'H';
  }

  /** `std::replace(sets, from, to)`. */
  function ReplaceSetType(sets: seq<uint8>, from: uint8, to: uint8): (r: seq<uint8>)
    ensures |r| == |sets|
  {
    seq(|sets|, i requires 0 <= i < |sets| => if sets[i] == from then to else sets[i])
  }

  /** Replacing H by V keeps the sets known, leaves no H behind, puts V in when H was there, and touches no other set. */
  lemma ReplaceHorizontal(sets: seq<uint8>, t: uint8)
    requires KnownSets(sets)
    ensures KnownSets(ReplaceSetType(sets, SetH, SetV))
    ensures SetH !in ReplaceSetType(sets, SetH, SetV)
    ensures SetH in sets ==> SetV in ReplaceSetType(sets, SetH, SetV)
    ensures t != SetH && t != SetV ==> (t in ReplaceSetType(sets, SetH, SetV) <==> t in sets)
  {
    var r := ReplaceSetType(sets, SetH, SetV);
    if SetH in sets {
      var i :| 0 <= i < |sets| && sets[i] == SetH;
      assert r[i] == SetV;
    }
    if t != SetH && t != SetV {
      if t in sets {
        var i :| 0 <= i < |sets| && sets[i] == t;
        assert r[i] == t;
      }
      if t in r {
        var i :| 0 <= i < |r| && r[i] == t;
        assert sets[i] == t;
      }
    }
  }

  /**
   * What the pass makes of the entry it emplaced: sets with H replaced by
   * V, the vertical name, and x and y swapped.
   */
  function VerticalCopy(q: SettedPoint, name: string): SettedPoint
  {
    SettedPoint(Point(q.point.y, q.point.x, name), ReplaceSetType(q.sets, SetH, SetV), q.index, q.section)
  }

  /**
   * One pass of the loop over the copy of the setted points: a point of
   * set H emplaces its section-1 copy under the vertical name, and the
   * entry under that name, new or old, becomes its vertical copy.
   */
  function VerticalStep(entries: seq<(string, SettedPoint)>, key: string, p: SettedPoint): seq<(string, SettedPoint)>
  {
    if !IsPartOfSet(p, SetH) then entries
    else
      var name := VerticalName(key);
      var (after, i) := Emplace(entries, name, Resectioned(p, 1));
      SetValue(after, i, VerticalCopy(after[i].1, name))
  }

  /** The pass over the copy from index `k` on. */
  function VerticalFrom(entries: seq<(string, SettedPoint)>, copy: seq<(string, SettedPoint)>, k: nat): seq<(string, SettedPoint)>
    requires k <= |copy|
    decreases |copy| - k
  {
    if k == |copy| then entries else VerticalFrom(VerticalStep(entries, copy[k].0, copy[k].1), copy, k + 1)
  }

  /**
   * Looking a name up after one pass: a point outside H changes nothing;
   * otherwise only its vertical name finds something new, the vertical copy
   * of the point loaded under that name, or of the point's section-1 copy
   * when none was.
   */
  lemma FindAfterVerticalStep(entries: seq<(string, SettedPoint)>, key: string, p: SettedPoint, k: string)
    requires Ordered(entries)
    ensures Ordered(VerticalStep(entries, key, p))
    ensures Find(VerticalStep(entries, key, p), k)
            == if !IsPartOfSet(p, SetH) || k != VerticalName(key) then Find(entries, k)
               else Some(VerticalCopy(if Find(entries, k).Some? then Find(entries, k).value else Resectioned(p, 1), k))
  {
    if IsPartOfSet(p, SetH) {
      var name := VerticalName(key);
      var q := Resectioned(p, 1);
      var (after, i) := Emplace(entries, name, q);
      EmplaceOrdered(entries, name, q);
      SetValueOrdered(after, i, VerticalCopy(after[i].1, name));
      FindAfterEmplace(entries, name, q, k);
      FindAfterSetValue(after, i, VerticalCopy(after[i].1, name), k);
      FindEmplaced(entries, name, q);
    }
  }

  /** One pass keeps the points well formed. */
  lemma VerticalStepWellFormed(entries: seq<(string, SettedPoint)>, key: string, p: SettedPoint)
    requires WellFormedPoints(entries) && KnownSets(p.sets)
    ensures WellFormedPoints(VerticalStep(entries, key, p))
  {
    if IsPartOfSet(p, SetH) {
      var name := VerticalName(key);
      var q := Resectioned(p, 1);
      EmplaceWellFormed(entries, name, q);
      var (after, i) := Emplace(entries, name, q);
      assert KnownSets(after[i].1.sets) by {
        if Find(entries, name).Some? {
          FoundInWellFormed(entries, name);
        }
      }
      ReplaceHorizontal(after[i].1.sets, SetC);
      SetValueWellFormed(after, i, VerticalCopy(after[i].1, name));
    }
  }

  /** The whole pass keeps the points well formed. */
  lemma {:induction false} VerticalFromWellFormed(entries: seq<(string, SettedPoint)>, copy: seq<(string, SettedPoint)>, k: nat)
    requires k <= |copy| && WellFormedPoints(entries) && WellFormedPoints(copy)
    ensures WellFormedPoints(VerticalFrom(entries, copy, k))
    decreases |copy| - k
  {
    if k < |copy| {
      VerticalStepWellFormed(entries, copy[k].0, copy[k].1);
      VerticalFromWellFormed(VerticalStep(entries, copy[k].0, copy[k].1), copy, k + 1);
    }
  }

  /** A name loaded before the pass is still loaded after it. */
  lemma {:induction false} VerticalFromKeepsNames(entries: seq<(string, SettedPoint)>, copy: seq<(string, SettedPoint)>, k: nat, name: string)
    requires k <= |copy| && Ordered(entries) && Find(entries, name).Some?
    ensures Ordered(VerticalFrom(entries, copy, k)) && Find(VerticalFrom(entries, copy, k), name).Some?
    decreases |copy| - k
  {
    if k < |copy| {
      FindAfterVerticalStep(entries, copy[k].0, copy[k].1, name);
      VerticalFromKeepsNames(VerticalStep(entries, copy[k].0, copy[k].1), copy, k + 1, name);
    }
  }

  /** Some point of H at index `k` or later in the copy has `name` as its vertical name. */
  predicate AddsVertical(copy: seq<(string, SettedPoint)>, k: nat, name: string)
  {
    exists j :: k <= j < |copy| && IsPartOfSet(copy[j].1, SetH) && VerticalName(copy[j].0) == name
  }

  /**
   * After the pass a name is loaded exactly when it was loaded before or is
   * the vertical name of a point of H: every H point has its twin, and
   * nothing else is added.
   */
  lemma {:induction false} VerticalFromNames(entries: seq<(string, SettedPoint)>, copy: seq<(string, SettedPoint)>, k: nat, name: string)
    requires k <= |copy| && Ordered(entries)
    ensures Find(VerticalFrom(entries, copy, k), name).Some? <==> Find(entries, name).Some? || AddsVertical(copy, k, name)
    decreases |copy| - k
  {
    if k < |copy| {
      var step := VerticalStep(entries, copy[k].0, copy[k].1);
      FindAfterVerticalStep(entries, copy[k].0, copy[k].1, name);
      VerticalFromNames(step, copy, k + 1, name);
      if AddsVertical(copy, k, name) && !AddsVertical(copy, k + 1, name) {
        var j :| k <= j < |copy| && IsPartOfSet(copy[j].1, SetH) && VerticalName(copy[j].0) == name;
        assert j == k;
      }
      if AddsVertical(copy, k + 1, name) {
        var j :| k + 1 <= j < |copy| && IsPartOfSet(copy[j].1, SetH) && VerticalName(copy[j].0) == name;
        assert k <= j;
      }
    }
  }

  /**
   * The twin of a point of H whose vertical name was not loaded: the point
   * with x and y swapped, under the vertical name, with V for H in its
   * sets, its index, and section 1 unless it was in section 0.
   */
  lemma VerticalTwin(entries: seq<(string, SettedPoint)>, key: string, p: SettedPoint)
    requires Ordered(entries) && IsPartOfSet(p, SetH) && Find(entries, VerticalName(key)).None?
    ensures Find(VerticalStep(entries, key, p), VerticalName(key))
            == Some(SettedPoint(Point(p.point.y, p.point.x, VerticalName(key)), ReplaceSetType(p.sets, SetH, SetV),
                                p.index, if p.section > 0 then 1 else 0))
  {
    FindAfterVerticalStep(entries, key, p, VerticalName(key));
  }

  /**
   * A point of H whose name has no `H` is its own twin's name: the pass
   * rewrites that very point, swapping its coordinates and moving it from
   * set H to set V.
   */
  lemma VerticalStepOnOwnName(entries: seq<(string, SettedPoint)>, key: string, p: SettedPoint)
    requires WellFormedPoints(entries) && Find(entries, key) == Some(p) && IsPartOfSet(p, SetH) && 'H' !in key
    ensures Find(VerticalStep(entries, key, p), key)
            == Some(SettedPoint(Point(p.point.y, p.point.x, key), ReplaceSetType(p.sets, SetH, SetV), p.index, p.section))
    ensures !IsPartOfSet(Find(VerticalStep(entries, key, p), key).value, SetH)
  {
    VerticalNameShape(key);
    FindAfterVerticalStep(entries, key, p, key);
    FoundInWellFormed(entries, key);
    ReplaceHorizontal(p.sets, SetC);
  }

  // ---------------------------------------------------------------------
  // The global data
  // ---------------------------------------------------------------------

  class GlobalData {
    var settings: seq<(string, string)>
    var activePoints: seq<Point>
    var activePointsName: string
    var predefinedSets: seq<NamedSet>
    var settedPoints: seq<(string, SettedPoint)>
    var assertions: seq<AssertionData>

    /** The setted points are well formed and the assertions check known set types only. */
    ghost predicate Valid()
      reads this
    {
      WellFormedPoints(settedPoints) && KnownSetTypes(assertions)
    }

    constructor()
      ensures Valid()
      ensures settings == [] && activePoints == [] && activePointsName == []
      ensures predefinedSets == [] && settedPoints == [] && assertions == []
    {
      settings := [];
      activePoints := [];
      activePointsName := [];
      predefinedSets := [];
      settedPoints := [];
      assertions := [];
    }

    /** `ReadConfigLine`: a line with a `:` adds its key and value to the settings. */
    method ReadConfigLine(line: string)
      modifies this
      ensures settings == old(settings) + match ConfigEntry(line) case None => [] case Some(entry) => [entry]
      ensures activePoints == old(activePoints) && activePointsName == old(activePointsName)
      ensures predefinedSets == old(predefinedSets) && settedPoints == old(settedPoints) && assertions == old(assertions)
    {
      var colonPos := FindFrom(line, ':', 0);
      if colonPos >= 0 {
        settings := settings + [(line[..colonPos], line[colonPos + 1..])];
      }
    }

    /** `ReadSettedPointLine`: a `sets:x,y` line emplaces its point under the name before `+`. */
    method ReadSettedPointLine(line: string)
      requires Valid()
      modifies this
      ensures Valid()
      ensures settedPoints == AddSettedPoint(old(settedPoints), line)
      ensures settings == old(settings) && activePoints == old(activePoints) && activePointsName == old(activePointsName)
      ensures predefinedSets == old(predefinedSets) && assertions == old(assertions)
    {
      AddSettedPointWellFormed(settedPoints, line);
      var colonPos := FindFrom(line, ':', 0);
      if colonPos < 0 {
        return;
      }
      var sets := line[..colonPos];
      var number := line[colonPos + 1..];
      var pair := ExtractPair(number);
      if pair.None? {
        return;
      }
      var (x, y) := pair.value;
      var name: string;
      var plusPos := FindFrom(sets, '+', 0);
      if plusPos >= 0 {
        name := sets[..plusPos];
      } else {
        name := sets;
      }
      var newPoint := NewSettedPoint(SettedCoordinate(x), SettedCoordinate(y), sets);
      var (after, i) := Emplace(settedPoints, name, newPoint);
      settedPoints := SetValue(after, i, after[i].1.(point := after[i].1.point.(name := name)));
    }

    /**
     * `ReadAssertionLine`: the assertion parsed from the line is kept when
     * its function is known. When parsing throws, the exception leaves the
     * partly filled assertion in the list.
     */
    method ReadAssertionLine(line: string) returns (threw: bool)
      requires Valid()
      modifies this
      ensures Valid()
      ensures threw == ParseAssertion(line).threw
      ensures var r := ParseAssertion(line);
              assertions == old(assertions) + (if r.threw || r.data.func != AssertionFunctionCount then [r.data] else [])
      ensures !threw ==> (|assertions| == |old(assertions)| + 1
                          <==> FindFrom(line, ':', 0) >= 0 && line[..FindFrom(line, ':', 0)] in AssertionFunctionNames)
      ensures settings == old(settings) && activePoints == old(activePoints) && activePointsName == old(activePointsName)
      ensures predefinedSets == old(predefinedSets) && settedPoints == old(settedPoints)
    {
      ParseAssertionShape(line);
      var data;
      data, threw := SetFromLine(line);
      assertions := assertions + [data];
      if threw {
        return;
      }
      if data.func == AssertionFunctionCount {
        assertions := assertions[..|assertions| - 1];
      }
    }

    /**
     * `ReadPredefinedSetsLine`: `[name]` opens a new, empty set and makes
     * it the active one; any other line adds the pair it holds to the
     * active set. `activeSet` is the index of the active set, and an empty
     * line throws from `line.at(0)`.
     */
    method ReadPredefinedSetsLine(line: string, activeSet: Option<nat>) returns (newActiveSet: Option<nat>, threw: bool)
      requires activeSet.Some? ==> activeSet.value < |predefinedSets|
      modifies this
      ensures threw <==> |line| == 0
      ensures threw ==> predefinedSets == old(predefinedSets) && newActiveSet == activeSet
      ensures !threw && OpensSet(line) ==>
                |line| >= 2 && predefinedSets == old(predefinedSets) + [NamedSet(line[1..|line| - 1], [])]
                && newActiveSet == Some(|old(predefinedSets)|)
      ensures !threw && !OpensSet(line) ==>
                newActiveSet == activeSet
                && predefinedSets == if activeSet.Some? && ExtractPair(line).Some?
                                     then WithPoint(old(predefinedSets), activeSet.value,
                                                    Point(ExtractPair(line).value.0 as int, ExtractPair(line).value.1 as int, []))
                                     else old(predefinedSets)
      ensures newActiveSet.Some? ==> newActiveSet.value < |predefinedSets|
      ensures settings == old(settings) && activePoints == old(activePoints) && activePointsName == old(activePointsName)
      ensures settedPoints == old(settedPoints) && assertions == old(assertions)
    {
      newActiveSet := activeSet;
      threw := false;
      if |line| == 0 {
        // `line.at(0)` throws `std::out_of_range`.
        threw := true;
        return;
      }
      if line[0] == '[' && line[|line| - 1] == ']' {
        OpensSetHasName(line);
        predefinedSets := predefinedSets + [NamedSet(line[1..|line| - 1], [])];
        newActiveSet := Some(|predefinedSets| - 1);
      } else if activeSet.Some? {
        var pair := ExtractPair(line);
        if pair.Some? {
          var (x, y) := pair.value;
          predefinedSets := WithPoint(predefinedSets, activeSet.value, Point(x as int, y as int, []));
        }
      }
    }

    /** `AddActivePoint`: an unnamed point at the end; the list no longer has a set's name. */
    method AddActivePoint(x: int, y: int)
      modifies this
      ensures activePoints == old(activePoints) + [Point(x, y, [])] && activePointsName == []
      ensures settings == old(settings) && predefinedSets == old(predefinedSets)
      ensures settedPoints == old(settedPoints) && assertions == old(assertions)
    {
      activePointsName := [];
      activePoints := activePoints + [Point(x, y, [])];
    }

    /** `AddNamedActivePoint`: a named point at the end. */
    method AddNamedActivePoint(name: string, x: int, y: int)
      modifies this
      ensures activePoints == old(activePoints) + [Point(x, y, name)] && activePointsName == []
      ensures settings == old(settings) && predefinedSets == old(predefinedSets)
      ensures settedPoints == old(settedPoints) && assertions == old(assertions)
    {
      activePointsName := [];
      activePoints := activePoints + [Point(x, y, name)];
    }

    /** `FillListWithSettedPoints(names, inOutPoints)`: the points of the loaded names, appended in the order of the names. */
    method FillListWithSettedPoints(names: seq<string>, inOutPoints: seq<Point>) returns (outPoints: seq<Point>)
      ensures outPoints == inOutPoints + FoundPoints(settedPoints, names)
    {
      outPoints := inOutPoints;
      var i := 0;
      while i < |names|
        invariant i <= |names|
        invariant outPoints == inOutPoints + FoundPoints(settedPoints, names[..i])
      {
        var name := names[i];
        var found := Find(settedPoints, name);
        if found.Some? {
          outPoints := outPoints + [Point(found.value.point.x, found.value.point.y, name)];
        }
        assert names[..i + 1][..i] == names[..i];
        i := i + 1;
      }
      assert names[..|names|] == names;
    }

    /**
     * `FillListWithSettedPoints(tokenizedNameStr, inOutPoints)`: the names
     * between the commas, without spaces and in upper case, filled in turn.
     */
    method FillListWithTokenizedNames(tokenizedNameStr: string, inOutPoints: seq<Point>) returns (outPoints: seq<Point>)
      ensures outPoints == inOutPoints + FoundPoints(settedPoints, TokenNames(NamePieces(tokenizedNameStr)))
    {
      var names := TokenizeNames(tokenizedNameStr);
      outPoints := FillListWithSettedPoints(names, inOutPoints);
    }

    /** `AddActivePointsByNamedSettedPoints(names)`. */
    method AddActivePointsByNames(names: seq<string>)
      modifies this
      ensures activePoints == old(activePoints) + FoundPoints(settedPoints, names) && activePointsName == []
      ensures settings == old(settings) && predefinedSets == old(predefinedSets)
      ensures settedPoints == old(settedPoints) && assertions == old(assertions)
    {
      activePointsName := [];
      activePoints := FillListWithSettedPoints(names, activePoints);
    }

    /** `AddActivePointsByNamedSettedPoints(tokenizedNameStr)`. */
    method AddActivePointsByTokenizedNames(tokenizedNameStr: string)
      modifies this
      ensures activePoints == old(activePoints) + FoundPoints(settedPoints, TokenNames(NamePieces(tokenizedNameStr)))
      ensures activePointsName == []
      ensures settings == old(settings) && predefinedSets == old(predefinedSets)
      ensures settedPoints == old(settedPoints) && assertions == old(assertions)
    {
      activePointsName := [];
      activePoints := FillListWithTokenizedNames(tokenizedNameStr, activePoints);
    }

    /** `RemovePointByIndex`: an index in range removes exactly that point; any other changes nothing. */
    method RemovePointByIndex(index: nat)
      modifies this
      ensures index < |old(activePoints)| ==>
                activePoints == old(activePoints)[..index] + old(activePoints)[index + 1..] && activePointsName == []
                && multiset(activePoints) + multiset{old(activePoints)[index]} == multiset(old(activePoints))
      ensures index >= |old(activePoints)| ==> activePoints == old(activePoints) && activePointsName == old(activePointsName)
      ensures settings == old(settings) && predefinedSets == old(predefinedSets)
      ensures settedPoints == old(settedPoints) && assertions == old(assertions)
    {
      if index < |activePoints| {
        assert activePoints == activePoints[..index] + [activePoints[index]] + activePoints[index + 1..];
        activePointsName := [];
        activePoints := activePoints[..index] + activePoints[index + 1..];
      }
    }

    /** `ClearAllPoints`: no active points and no set name. */
    method ClearAllPoints()
      modifies this
      ensures activePoints == [] && activePointsName == []
      ensures settings == old(settings) && predefinedSets == old(predefinedSets)
      ensures settedPoints == old(settedPoints) && assertions == old(assertions)
    {
      activePointsName := [];
      activePoints := [];
    }

    /** `SetActivePointsToPredefinedSet`: a set index in range copies that set's points and name; any other changes nothing. */
    method SetActivePointsToPredefinedSet(setIndex: nat)
      modifies this
      ensures setIndex < |predefinedSets| ==>
                activePoints == predefinedSets[setIndex].points && activePointsName == predefinedSets[setIndex].name
      ensures setIndex >= |predefinedSets| ==> activePoints == old(activePoints) && activePointsName == old(activePointsName)
      ensures settings == old(settings) && predefinedSets == old(predefinedSets)
      ensures settedPoints == old(settedPoints) && assertions == old(assertions)
    {
      if setIndex < |predefinedSets| {
        activePoints := predefinedSets[setIndex].points;
        activePointsName := predefinedSets[setIndex].name;
      }
    }

    /** The `for (char c : name)` loop that builds the vertical name. */
    static method VerticalNameOf(name: string) returns (pointName: string)
      ensures pointName == VerticalName(name)
    {
      pointName := [];
      for i := 0 to |name|
        invariant pointName == VerticalName(name[..i])
      {
        var c := name[i];
        if c == 'H' {
          pointName := pointName + ['V'];
        } else {
          pointName := pointName + [c];
        }
        assert name[..i + 1][..i] == name[..i];
      }
      assert name[..|name|] == name;
    }

    /**
     * The first loop of `PostProcessPredefinedSets`: over a copy of the
     * setted points, in key order, each point of H gets its vertical twin.
     */
    method AddVerticalPoints()
      requires Valid()
      modifies this
      ensures Valid()
      ensures settedPoints == VerticalFrom(old(settedPoints), old(settedPoints), 0)
      ensures settings == old(settings) && activePoints == old(activePoints) && activePointsName == old(activePointsName)
      ensures predefinedSets == old(predefinedSets) && assertions == old(assertions)
    {
      var copyOfSettedPoints := settedPoints;
      ghost var goal := VerticalFrom(copyOfSettedPoints, copyOfSettedPoints, 0);
      var k := 0;
      while k < |copyOfSettedPoints|
        invariant k <= |copyOfSettedPoints|
        invariant WellFormedPoints(settedPoints)
        invariant VerticalFrom(settedPoints, copyOfSettedPoints, k) == goal
        invariant settings == old(settings) && activePoints == old(activePoints) && activePointsName == old(activePointsName)
        invariant predefinedSets == old(predefinedSets) && assertions == old(assertions)
      {
        var (key, oldPoint) := copyOfSettedPoints[k];
        VerticalStepWellFormed(settedPoints, key, oldPoint);
        ghost var next := VerticalStep(settedPoints, key, oldPoint);
        if IsPartOfSet(oldPoint, SetH) {
          var pointName := VerticalNameOf(key);
          var (after, i) := Emplace(settedPoints, pointName, Resectioned(oldPoint, 1));
          var newPoint := after[i].1;
          newPoint := newPoint.(sets := ReplaceSetType(newPoint.sets, SetH, SetV));
          newPoint := newPoint.(point := newPoint.point.(name := pointName));
          var oldX := newPoint.point.x;
          var oldY := newPoint.point.y;
          newPoint := newPoint.(point := Point(oldY, oldX, newPoint.point.name));
          settedPoints := SetValue(after, i, newPoint);
        }
        assert settedPoints == next;
        k := k + 1;
      }
      VerticalFromWellFormed(copyOfSettedPoints, copyOfSettedPoints, 0);
    }
  }
}
