/**
 * The square-containment menu's point commands: gathering the points of a
 * set from the setted points, reading a typed line of `{x,y}` points with
 * optional `Name:` labels into the active points, and the clearing
 * commands. The menu's `gGlobalData` is the `GlobalData` each command is
 * given.
 */
module SquareContainmentMenus {
  import opened Options
  import opened Sequences
  import opened FixedWidth
  import opened OrderedMaps
  import opened StringSearch
  import opened IntStreams
  import opened SquareContainmentData
  import opened SquareContainmentGlobal

  // ---------------------------------------------------------------------
  // The points of a set
  // ---------------------------------------------------------------------

  /** A setted point `AddPointsFromSettedPoints` takes: of the set, in a section up to `numSections`. */
  predicate Selected(p: SettedPoint, setType: uint8, numSections: int32)
  {
    p.section <= numSections as int && IsPartOfSet(p, setType)
  }

  /** The points of the selected entries, in key order. */
  function SetMembers(entries: seq<(string, SettedPoint)>, setType: uint8, numSections: int32): (points: seq<Point>)
    ensures |points| <= |entries|
    decreases |entries|
  {
    if |entries| == 0 then []
    else
      var last := entries[|entries| - 1].1;
      SetMembers(entries[..|entries| - 1], setType, numSections) + (if Selected(last, setType, numSections) then [last.point] else [])
  }

  /** A point is added exactly when some selected entry holds it. */
  lemma {:induction false} SetMembersAre(entries: seq<(string, SettedPoint)>, setType: uint8, numSections: int32)
    ensures forall q :: q in SetMembers(entries, setType, numSections) <==>
              exists i :: 0 <= i < |entries| && Selected(entries[i].1, setType, numSections) && entries[i].1.point == q
    decreases |entries|
  {
    if |entries| > 0 {
      var init := entries[..|entries| - 1];
      SetMembersAre(init, setType, numSections);
      assert forall i :: 0 <= i < |init| ==> init[i] == entries[i];
    }
  }

  /** The names of the points strictly increase, as `std::string` compares them. */
  predicate NamesIncreasing(points: seq<Point>)
  {
    forall a, b :: 0 <= a < b < |points| ==> StrLess(points[a].name, points[b].name)
  }

  /** With well-formed setted points the added points come in strictly increasing name order. */
  lemma {:induction false} SetMembersInKeyOrder(entries: seq<(string, SettedPoint)>, setType: uint8, numSections: int32)
    requires WellFormedPoints(entries)
    ensures NamesIncreasing(SetMembers(entries, setType, numSections))
    decreases |entries|
  {
    if |entries| > 0 {
      var n := |entries|;
      var init := entries[..n - 1];
      assert forall i :: 0 <= i < |init| ==> init[i] == entries[i];
      assert WellFormedPoints(init);
      SetMembersInKeyOrder(init, setType, numSections);
      var r0 := SetMembers(init, setType, numSections);
      var last := entries[n - 1].1;
      if Selected(last, setType, numSections) {
        var r := r0 + [last.point];
        assert r == SetMembers(entries, setType, numSections);
        SetMembersAre(init, setType, numSections);
        assert last.point.name == entries[n - 1].0;
        forall a, b | 0 <= a < b < |r| ensures StrLess(r[a].name, r[b].name) {
          if b < |r0| {
            assert r[a] == r0[a] && r[b] == r0[b];
            assert StrLess(r0[a].name, r0[b].name);
          } else {
            assert r0[a] in r0;
            var i :| 0 <= i < |init| && Selected(init[i].1, setType, numSections) && init[i].1.point == r0[a];
            assert init[i] == entries[i] && i < n - 1;
            assert r[a].name == entries[i].0;
            assert r[b].name == entries[n - 1].0;
            assert StrLess(entries[i].0, entries[n - 1].0);
            assert StrLess(r[a].name, r[b].name);
          }
        }
      }
    }
  }

  /** `AddPointsFromSettedPoints`: the points of the set, up to the section, appended in key order. */
  method AddPointsFromSettedPoints(g: GlobalData, setType: uint8, numSections: int32, inOutPoints: seq<Point>)
    returns (outPoints: seq<Point>)
    ensures outPoints == inOutPoints + SetMembers(g.settedPoints, setType, numSections)
  {
    outPoints := inOutPoints;
    var entries := g.settedPoints;
    for i := 0 to |entries|
      invariant outPoints == inOutPoints + SetMembers(entries[..i], setType, numSections)
    {
      assert entries[..i + 1][..i] == entries[..i];
      var p := entries[i].1;
      if p.section > numSections as int {
        continue;
      }
      if IsPartOfSet(p, setType) {
        outPoints := outPoints + [p.point];
      }
    }
    assert entries[..|entries|] == entries;
  }

  /** `AddPointsFromSettedPointsByName`: the points of the loaded names, in the order of the names. */
  method AddPointsFromSettedPointsByName(g: GlobalData, names: seq<string>, inOutPoints: seq<Point>) returns (outPoints: seq<Point>)
    ensures outPoints == inOutPoints + FoundPoints(g.settedPoints, names)
  {
    outPoints := g.FillListWithSettedPoints(names, inOutPoints);
  }

  // ---------------------------------------------------------------------
  // A typed line of points
  // ---------------------------------------------------------------------

  /** The scan back from a `{` towards a label's `:`, stopping at a `}`, a `:` or the start. */
  function LabelColon(s: string, pos: nat): (c: nat)
    requires pos < |s|
    ensures c <= pos
    ensures c > 0 ==> s[c] == '}' || s[c] == ':'
    ensures forall j :: c < j <= pos ==> s[j] != '}' && s[j] != ':'
    decreases pos
  {
    if pos == 0 || s[pos] == '}' || s[pos] == ':' then pos else LabelColon(s, pos - 1)
  }

  /** A character that ends a label on its left. */
  predicate LabelBoundary(c: char)
  {
    c == ' ' || c == '}' || c == ','
  }

  /** The scan back from the character before the `:` to the start of the label. */
  function LabelStart(s: string, pos: nat): (start: nat)
    requires pos < |s|
    ensures start <= pos
    ensures start > 0 ==> LabelBoundary(s[start - 1])
    ensures forall j :: start <= j < pos ==> !LabelBoundary(s[j])
    decreases pos
  {
    if pos == 0 || LabelBoundary(s[pos - 1]) then pos else LabelStart(s, pos - 1)
  }

  /** A letter a–z in upper case; anything else as it is. */
  function UpperChar(c: char): char
  {
    if 'a' <= c <= 'z' then (c as int - 0x20) as char else c
  }

  /** A label in upper case, spaces and all. */
  function UpperName(t: string): (u: string)
    ensures |u| == |t|
    ensures forall i :: 0 <= i < |t| ==> u[i] == UpperChar(t[i])
  {
    if |t| == 0 then [] else UpperName(t[..|t| - 1]) + [UpperChar(t[|t| - 1])]
  }

  /** An upper-cased label holds no a–z, and upper-casing it again changes nothing. */
  lemma UpperNameShape(t: string)
    ensures forall i :: 0 <= i < |UpperName(t)| ==> !('a' <= UpperName(t)[i] <= 'z')
    ensures UpperName(UpperName(t)) == UpperName(t)
  {
  }

  /** Without spaces, a label reads as the name tokeniser reads the same text. */
  lemma {:induction false} UpperNameIsTokenName(t: string)
    requires ' ' !in t
    ensures UpperName(t) == TokenName(t)
  {
    if |t| > 0 {
      var init := t[..|t| - 1];
      assert ' ' !in init by {
        assert forall i :: 0 <= i < |init| ==> init[i] == t[i];
      }
      UpperNameIsTokenName(init);
      assert t[|t| - 1] in t;
    }
  }

  /** The label of the point whose `{` is at `brace`: upper-cased, or empty when no `:` precedes it. */
  function PointLabel(s: string, brace: nat): string
    requires brace < |s|
  {
    var colon := LabelColon(s, brace);
    if colon > 0 && s[colon] == ':' then
      var start := LabelStart(s, colon - 1);
      UpperName(s[start..colon])
    else []
  }

  /** The point read after the `{` at `brace`, if the pair is there. */
  function BracePoint(s: string, brace: nat): (points: seq<Point>)
    requires brace < |s|
    ensures |points| <= 1
  {
    PairPoint(ExtractPair(s[brace + 1..]), PointLabel(s, brace))
  }

  /** The point a read pair makes under a label, or none when the read failed. */
  function PairPoint(pair: Option<(int32, int32)>, name: string): (points: seq<Point>)
    ensures |points| == if pair.Some? then 1 else 0
    ensures pair.Some? ==> points[0] == Point(pair.value.0 as int, pair.value.1 as int, name)
  {
    if pair.Some? then [Point(pair.value.0 as int, pair.value.1 as int, name)] else []
  }

  /** `AddLineOfPoints`' additions from `from` on: one point per `{` followed by a pair. */
  function LinePointsFrom(s: string, from: nat): (points: seq<Point>)
    requires from <= |s|
    decreases |s| - from + 1, 0
  {
    LinePointsAt(s, FindFrom(s, '{', from))
  }

  /** The additions from the `{` at `brace` on, or none when `find` answered `npos` (-1). */
  function LinePointsAt(s: string, brace: int): (points: seq<Point>)
    requires -1 <= brace < |s|
    decreases if brace < 0 then 0 else |s| - brace, 1
  {
    if brace < 0 then [] else BracePoint(s, brace) + LinePointsFrom(s, brace + 1)
  }

  /** No point of the list has a–z in its name. */
  predicate UpperLabels(points: seq<Point>)
  {
    forall k, i :: 0 <= k < |points| && 0 <= i < |points[k].name| ==> !('a' <= points[k].name[i] <= 'z')
  }

  /** A label holds no a–z. */
  lemma PointLabelUpper(s: string, brace: nat)
    requires brace < |s|
    ensures forall i :: 0 <= i < |PointLabel(s, brace)| ==> !('a' <= PointLabel(s, brace)[i] <= 'z')
  {
    var colon := LabelColon(s, brace);
    if colon > 0 && s[colon] == ':' {
      var t := s[LabelStart(s, colon - 1)..colon];
      assert PointLabel(s, brace) == UpperName(t);
    }
  }

  /** The point after one `{` has no a–z in its name. */
  lemma BracePointUpper(s: string, brace: nat)
    requires brace < |s|
    ensures UpperLabels(BracePoint(s, brace))
  {
    PointLabelUpper(s, brace);
  }

  /** Two lists without a–z in their names make one. */
  lemma UpperLabelsAppend(a: seq<Point>, b: seq<Point>)
    requires UpperLabels(a) && UpperLabels(b)
    ensures UpperLabels(a + b)
  {
    forall k, i | 0 <= k < |a + b| && 0 <= i < |(a + b)[k].name| ensures !('a' <= (a + b)[k].name[i] <= 'z') {
      if k < |a| {
        assert (a + b)[k] == a[k];
      } else {
        assert (a + b)[k] == b[k - |a|];
      }
    }
  }

  /** No point read from a line has a–z in its name. */
  lemma {:induction false} LinePointsUpper(s: string, from: nat)
    requires from <= |s|
    ensures UpperLabels(LinePointsFrom(s, from))
    decreases |s| - from
  {
    var brace := FindFrom(s, '{', from);
    if brace >= 0 {
      LinePointsUpper(s, brace + 1);
      BracePointUpper(s, brace);
      UpperLabelsAppend(BracePoint(s, brace), LinePointsFrom(s, brace + 1));
    }
  }

  /** `LabelStart` stops at the first boundary on the left. */
  lemma {:induction false} LabelStartIs(s: string, pos: nat, start: nat)
    requires start <= pos < |s|
    requires forall j :: start <= j < pos ==> !LabelBoundary(s[j])
    requires start == 0 || LabelBoundary(s[start - 1])
    ensures LabelStart(s, pos) == start
    decreases pos
  {
    if start < pos {
      LabelStartIs(s, pos - 1, start);
    }
  }

  /** A label the reader accepts: no `{` and no character that ends a label. */
  predicate PlainLabel(name: string)
  {
    forall i :: 0 <= i < |name| ==> name[i] != '{' && !LabelBoundary(name[i])
  }

  /** The text of one labelled point, `NAME: {x,y}`. */
  function LabelledPointText(name: string, x: int32, y: int32): string
  {
    name + ": {" + SignedDecimal(x) + "," + SignedDecimal(y) + "}"
  }

  /** Where the `{` of a labelled point is, and that the label is read before it. */
  lemma LabelledPointLabel(name: string, x: int32, y: int32)
    requires PlainLabel(name)
    ensures var s := LabelledPointText(name, x, y);
            |name| + 2 < |s| && FindFrom(s, '{', 0) == |name| + 2 && PointLabel(s, |name| + 2) == UpperName(name)
  {
    var rest := SignedDecimal(x) + "," + SignedDecimal(y) + "}";
    assert LabelledPointText(name, x, y) == name + ": {" + rest;
    LabelBeforeBrace(name, rest);
  }

  /** In `NAME: {` followed by anything, the first `{` follows the label, which is read as `NAME`. */
  lemma LabelBeforeBrace(name: string, rest: string)
    requires PlainLabel(name)
    ensures var s := name + ": {" + rest;
            FindFrom(s, '{', 0) == |name| + 2 && PointLabel(s, |name| + 2) == UpperName(name)
  {
    var s := name + ": {" + rest;
    var brace := |name| + 2;
    LabelHead(name, rest);
    FindFromIs(s, '{', 0, brace);
    assert LabelColon(s, brace) == |name|;
    if |name| > 0 {
      LabelStartIs(s, |name| - 1, 0);
    }
  }

  /** The characters of `NAME: {` at the head of a line. */
  lemma LabelHead(name: string, rest: string)
    ensures var s := name + ": {" + rest;
            && s[..|name|] == name && (forall j :: 0 <= j < |name| ==> s[j] == name[j])
            && s[|name|] == ':' && s[|name| + 1] == ' ' && s[|name| + 2] == '{'
  {
    var s := name + ": {" + rest;
    assert s == name + (": {" + rest);
  }

  /** After the `{` of a labelled point come the pair and `}`, and no further `{`. */
  lemma LabelledPointPair(name: string, x: int32, y: int32)
    ensures var s := LabelledPointText(name, x, y);
            |name| + 2 < |s| && ExtractPair(s[|name| + 3..]) == Some((x, y)) && FindFrom(s, '{', |name| + 3) < 0
  {
    var s := LabelledPointText(name, x, y);
    var sx := SignedDecimal(x);
    var sy := SignedDecimal(y);
    var after := sx + "," + sy + "}";
    assert s == (name + ": {") + after;
    assert s[|name| + 3..] == after;
    assert ExtractPair(after) == Some((x, y)) by {
      ExtractPairOfWritten(x, y, "}");
    }
    assert NoBrace(after) by {
      SignedDecimalChars(x);
      SignedDecimalChars(y);
      NoBraceAppend(sx, ",");
      NoBraceAppend(sx + ",", sy);
      NoBraceAppend(sx + "," + sy, "}");
    }
    NoBraceAfter(name + ": {", after);
  }

  /** The text holds no `{`. */
  predicate NoBrace(t: string)
  {
    forall j :: 0 <= j < |t| ==> t[j] != '{'
  }

  lemma NoBraceAppend(a: string, b: string)
    requires NoBrace(a) && NoBrace(b)
    ensures NoBrace(a + b)
  {
    forall j | 0 <= j < |a + b| ensures (a + b)[j] != '{' {
      if j >= |a| {
        assert (a + b)[j] == b[j - |a|];
      }
    }
  }

  /** No `{` after the text before it when the rest holds none. */
  lemma NoBraceAfter(pre: string, after: string)
    requires NoBrace(after)
    ensures FindFrom(pre + after, '{', |pre|) < 0
  {
    var s := pre + after;
    FindFromFirst(s, '{', |pre|);
    assert forall j :: |pre| <= j < |s| ==> s[j] == after[j - |pre|];
  }

  /** A line holding one labelled point adds exactly that point, its label in upper case. */
  lemma LineOfLabelledPoint(name: string, x: int32, y: int32)
    requires PlainLabel(name)
    ensures LinePointsFrom(LabelledPointText(name, x, y), 0) == [Point(x as int, y as int, UpperName(name))]
  {
    var s := LabelledPointText(name, x, y);
    LabelledPointLabel(name, x, y);
    LabelledPointPair(name, x, y);
    var brace := |name| + 2;
    assert BracePoint(s, brace) == [Point(x as int, y as int, UpperName(name))];
    assert LinePointsFrom(s, brace + 1) == [];
  }

  /** The `while` loop scanning back for the label's `:`. */
  method FindLabelColon(s: string, pos: nat) returns (colonPos: nat)
    requires pos < |s|
    ensures colonPos == LabelColon(s, pos)
  {
    colonPos := pos;
    while colonPos > 0 && s[colonPos] != '}' && s[colonPos] != ':'
      invariant colonPos <= pos
      invariant LabelColon(s, colonPos) == LabelColon(s, pos)
    {
      colonPos := colonPos - 1;
    }
  }

  /** The `while` loop scanning back for the label's first character. */
  method FindLabelStart(s: string, pos: nat) returns (nameStartPos: nat)
    requires pos < |s|
    ensures nameStartPos == LabelStart(s, pos)
  {
    nameStartPos := pos;
    while nameStartPos > 0 && s[nameStartPos - 1] != ' ' && s[nameStartPos - 1] != '}' && s[nameStartPos - 1] != ','
      invariant nameStartPos <= pos
      invariant LabelStart(s, nameStartPos) == LabelStart(s, pos)
    {
      nameStartPos := nameStartPos - 1;
    }
  }

  /** The `for (char c : extractedName)` loop upper-casing the label. */
  method UppercaseName(extractedName: string) returns (name: string)
    ensures name == UpperName(extractedName)
  {
    name := [];
    for i := 0 to |extractedName|
      invariant name == UpperName(extractedName[..i])
    {
      var c := extractedName[i];
      if c >= 'a' && c <= 'z' {
        name := name + [(c as int - 0x20) as char];
      } else {
        name := name + [c];
      }
      assert extractedName[..i + 1][..i] == extractedName[..i];
    }
    assert extractedName[..|extractedName|] == extractedName;
  }

  /**
   * One pass of `AddLineOfPoints`' loop: the pair after the `{` at
   * `brace`, added named when a label precedes it and unnamed otherwise.
   */
  method AddBracePoint(g: GlobalData, points: string, brace: nat)
    requires brace < |points|
    modifies g
    ensures g.activePoints == old(g.activePoints) + BracePoint(points, brace)
    ensures g.activePointsName == if |BracePoint(points, brace)| == 0 then old(g.activePointsName) else []
    ensures g.settings == old(g.settings) && g.predefinedSets == old(g.predefinedSets)
    ensures g.settedPoints == old(g.settedPoints) && g.assertions == old(g.assertions)
  {
    var pair := ExtractPair(points[brace + 1..]);
    if pair.Some? {
      var (x, y) := pair.value;
      var colonPos := FindLabelColon(points, brace);
      if colonPos > 0 && points[colonPos] == ':' {
        var nameStartPos := FindLabelStart(points, colonPos - 1);
        var name := UppercaseName(points[nameStartPos..colonPos]);
        g.AddNamedActivePoint(name, x as int, y as int);
      } else {
        g.AddActivePoint(x as int, y as int);
      }
    }
  }

  /**
   * `AddLineOfPoints`: every `{x,y}` of the line, in order, is added to the
   * active points, under the label before it when there is one. The list
   * loses its set name only when a point is added.
   */
  method AddLineOfPoints(g: GlobalData, points: string)
    modifies g
    ensures g.activePoints == old(g.activePoints) + LinePointsFrom(points, 0)
    ensures g.activePointsName == if |LinePointsFrom(points, 0)| == 0 then old(g.activePointsName) else []
    ensures g.settings == old(g.settings) && g.predefinedSets == old(g.predefinedSets)
    ensures g.settedPoints == old(g.settedPoints) && g.assertions == old(g.assertions)
  {
    ghost var goal := old(g.activePoints) + LinePointsFrom(points, 0);
    var leftCurlyPos := FindFrom(points, '{', 0);
    while leftCurlyPos >= 0
      invariant -1 <= leftCurlyPos < |points|
      invariant g.activePoints + LinePointsAt(points, leftCurlyPos) == goal
      invariant |g.activePoints| >= |old(g.activePoints)|
      invariant g.activePointsName == if |g.activePoints| == |old(g.activePoints)| then old(g.activePointsName) else []
      invariant g.settings == old(g.settings) && g.predefinedSets == old(g.predefinedSets)
      invariant g.settedPoints == old(g.settedPoints) && g.assertions == old(g.assertions)
      decreases if leftCurlyPos < 0 then 0 else |points| - leftCurlyPos
    {
      ghost var before := g.activePoints;
      ghost var added := BracePoint(points, leftCurlyPos);
      ghost var rest := LinePointsFrom(points, leftCurlyPos + 1);
      AddBracePoint(g, points, leftCurlyPos);
      AppendAssociative(before, added, rest);
      leftCurlyPos := FindFrom(points, '{', leftCurlyPos + 1);
    }
    assert |goal| == |old(g.activePoints)| + |LinePointsFrom(points, 0)|;
  }

  /** `ClearAllPoints`: only the confirmation 101 clears the active points. */
  method ClearAllPoints(g: GlobalData, confirmation: nat)
    modifies g
    ensures confirmation == 101 ==> g.activePoints == [] && g.activePointsName == []
    ensures confirmation != 101 ==> g.activePoints == old(g.activePoints) && g.activePointsName == old(g.activePointsName)
    ensures g.settings == old(g.settings) && g.predefinedSets == old(g.predefinedSets)
    ensures g.settedPoints == old(g.settedPoints) && g.assertions == old(g.assertions)
  {
    if confirmation == 101 {
      g.ClearAllPoints();
    }
  }

  /** `ClearAndAddLineOfPoints`: the active points become exactly the points of the line. */
  method ClearAndAddLineOfPoints(g: GlobalData, points: string)
    modifies g
    ensures g.activePoints == LinePointsFrom(points, 0) && g.activePointsName == []
    ensures g.settings == old(g.settings) && g.predefinedSets == old(g.predefinedSets)
    ensures g.settedPoints == old(g.settedPoints) && g.assertions == old(g.assertions)
  {
    g.ClearAllPoints();
    AddLineOfPoints(g, points);
  }

  /** `ClearAndAddNamedLineOfPoints`: the active points become exactly the loaded points the typed names name. */
  method ClearAndAddNamedLineOfPoints(g: GlobalData, points: string)
    modifies g
    ensures g.activePoints == FoundPoints(g.settedPoints, TokenNames(NamePieces(points))) && g.activePointsName == []
    ensures g.settings == old(g.settings) && g.predefinedSets == old(g.predefinedSets)
    ensures g.settedPoints == old(g.settedPoints) && g.assertions == old(g.assertions)
  {
    g.ClearAllPoints();
    g.AddActivePointsByTokenizedNames(points);
  }
}
