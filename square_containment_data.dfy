/**
 * The records of the square-containment tool's data file: the point sets
 * a setted point belongs to, the re-sectioning copy of a point, the
 * assertion lines (`Function:names;@Set;count`), and the comma-separated
 * name lists typed at the console.
 *
 * A `NamedVector2` holds two doubles and a name; every value the loaders
 * and the point-line command store in one is a whole number, so a point
 * here keeps its coordinates as integers.
 */
module SquareContainmentData {
  import opened FixedWidth
  import opened EnumStrings
  import opened StringSearch
  import opened IntStreams
  import opened Sequences

  /** The one-letter names of `SetType`, in enum order; the count member is 12. */
  const SetTypeNames: seq<string> := ["C", "K", "P", "H", "V", "T", "O", "D", "I", "Z", "U", "S"]
  const SetTypeCount: uint8 := 12
  const SetC: uint8 := 0
  const SetP: uint8 := 2
  const SetH: uint8 := 3
  const SetV: uint8 := 4

  /** The names of `AssertionFunction`; the count member is 2. */
  const AssertionFunctionNames: seq<string> := ["Fail", "MaxCountOfSet"]
  const AssertionFunctionCount: uint8 := 2
  const MaxCountOfSet: uint8 := 1

  /** A `NamedVector2` with whole-number coordinates. */
  datatype Point = Point(x: int, y: int, name: string)

  /** A point of the data file, the sets it belongs to, its index within them and its section. */
  datatype SettedPoint = SettedPoint(point: Point, sets: seq<uint8>, index: int, section: int)

  /** A predefined set: a name and its points. */
  datatype NamedSet = NamedSet(name: string, points: seq<Point>)

  // ---------------------------------------------------------------------
  // Coordinates of setted points
  // ---------------------------------------------------------------------

  const TwoTo63: int := 0x8000_0000_0000_0000
  const TwoTo64: int := 0x1_0000_0000_0000_0000

  /**
   * `static_cast<double>` of a `uint64_t` in `[2^63, 2^64)`, where doubles
   * are 2048 apart: round to the nearest multiple of 2048, a tie to the
   * even multiple.
   */
  function RoundToDouble(v: int): (d: int)
    requires TwoTo63 <= v < TwoTo64
    ensures d % 2048 == 0 && -1024 <= d - v <= 1024
    ensures TwoTo63 <= d <= TwoTo64
  {
    var q := v / 2048;
    var r := v % 2048;
    if r < 1024 || (r == 1024 && q % 2 == 0) then q * 2048 else (q + 1) * 2048
  }

  /**
   * The coordinate a setted point stores for an `int32_t` read from the
   * file: the loader casts it to `uint64_t`, so a negative value wraps to
   * `2^64 + x` before the point's double rounds it.
   */
  function SettedCoordinate(x: int32): (c: int)
    ensures x >= 0 ==> c == x
    ensures x < 0 ==> c % 2048 == 0 && -1024 <= c - (TwoTo64 + x) <= 1024
  {
    if x >= 0 then x else RoundToDouble(TwoTo64 + x)
  }

  /** Every negative coordinate in the file lands above 2^64 - 2^32, far outside any square. */
  lemma NegativeCoordinateIsHuge(x: int32)
    requires x < 0
    ensures SettedCoordinate(x) > TwoTo64 - 0x1_0000_0000
  {
  }

  // ---------------------------------------------------------------------
  // The setted point constructors
  // ---------------------------------------------------------------------

  /** `hay.find(needle, from)`: the first index at or after `from` where `needle` starts, or -1. */
  function FindText(hay: string, needle: string, from: nat): (k: int)
    requires from <= |hay|
    ensures k >= 0 ==> from <= k && k + |needle| <= |hay| && hay[k..k + |needle|] == needle
    decreases |hay| - from
  {
    if from + |needle| > |hay| then -1
    else if hay[from..from + |needle|] == needle then from
    else FindText(hay, needle, from + 1)
  }

  /** `hay.find(needle) != npos`. */
  predicate Occurs(needle: string, hay: string)
  {
    FindText(hay, needle, 0) >= 0
  }

  /** A one-letter needle is found exactly when its letter is in the text. */
  lemma {:induction false} FindLetter(hay: string, c: char, from: nat)
    requires from <= |hay|
    ensures FindText(hay, [c], from) >= 0 <==> exists k :: from <= k < |hay| && hay[k] == c
    decreases |hay| - from
  {
    if from < |hay| {
      assert hay[from..from + 1] == [hay[from]];
      FindLetter(hay, c, from + 1);
    }
  }

  /** A one-letter set name occurs exactly when its letter does. */
  lemma OccursLetter(t: nat, hay: string)
    requires t < |SetTypeNames|
    ensures Occurs(SetTypeNames[t], hay) <==> SetTypeNames[t][0] in hay
  {
    assert SetTypeNames[t] == [SetTypeNames[t][0]];
    FindLetter(hay, SetTypeNames[t][0], 0);
  }

  /** The sets below `t`, in enum order, whose name occurs in `setNames`. */
  function NamedSets(setNames: string, t: nat): (sets: seq<uint8>)
    requires t <= |SetTypeNames|
    decreases t
  {
    if t == 0 then []
    else NamedSets(setNames, t - 1) + (if Occurs(SetTypeNames[t - 1], setNames) then [(t - 1) as uint8] else [])
  }

  /** The sets of a point: each set whose name occurs, once, in increasing enum order. */
  lemma {:induction false} NamedSetsAre(setNames: string, t: nat)
    requires t <= |SetTypeNames|
    ensures forall u: uint8 :: u in NamedSets(setNames, t) <==> u < t && Occurs(SetTypeNames[u], setNames)
    ensures forall i, j :: 0 <= i < j < |NamedSets(setNames, t)| ==> NamedSets(setNames, t)[i] < NamedSets(setNames, t)[j]
    ensures forall i :: 0 <= i < |NamedSets(setNames, t)| ==> NamedSets(setNames, t)[i] < t
    decreases t
  {
    if t > 0 {
      NamedSetsAre(setNames, t - 1);
    }
  }

  /** The digits of `s`, in order. */
  function DigitsOf(s: string): (ds: string)
    ensures AllDigits(ds)
  {
    if |s| == 0 then []
    else if IsDigit(s[|s| - 1]) then DigitsOf(s[..|s| - 1]) + [s[|s| - 1]]
    else DigitsOf(s[..|s| - 1])
  }

  /** The index the constructor's digit loop accumulates: ten times the index so far plus each digit. */
  function DigitIndex(s: string): nat
  {
    if |s| == 0 then 0
    else if IsDigit(s[|s| - 1]) then 10 * DigitIndex(s[..|s| - 1]) + (s[|s| - 1] as int - '0' as int)
    else DigitIndex(s[..|s| - 1])
  }

  /** The index is the decimal number all the digits of the set names form. */
  lemma {:induction false} DigitIndexIsDecimal(s: string)
    ensures DigitIndex(s) == DecimalValue(DigitsOf(s))
  {
    if |s| > 0 {
      DigitIndexIsDecimal(s[..|s| - 1]);
      if IsDigit(s[|s| - 1]) {
        var ds := DigitsOf(s);
        assert ds[..|ds| - 1] == DigitsOf(s[..|s| - 1]);
      }
    }
  }

  /** The setted point `SettedPoint(x, y, setNames)` makes, before the loader names it. */
  function SettedPointOf(x: int, y: int, setNames: string): SettedPoint
  {
    SettedPoint(Point(x, y, ""), NamedSets(setNames, |SetTypeNames|), DigitIndex(setNames),
                if Occurs(SetTypeNames[SetC], setNames) then 0 else 1)
  }

  /** `IsPartOfSet`: the set is among the point's sets. */
  predicate IsPartOfSet(p: SettedPoint, setType: uint8)
  {
    setType in p.sets
  }

  /**
   * A point made from set names is part of exactly the sets whose letter
   * occurs in them, and lies in section 0 exactly when it is part of C.
   */
  lemma SettedPointSets(x: int, y: int, setNames: string, setType: uint8)
    ensures IsPartOfSet(SettedPointOf(x, y, setNames), setType)
            <==> setType < SetTypeCount && SetTypeNames[setType][0] in setNames
    ensures SettedPointOf(x, y, setNames).section == 0 <==> IsPartOfSet(SettedPointOf(x, y, setNames), SetC)
  {
    NamedSetsAre(setNames, |SetTypeNames|);
    if setType < SetTypeCount {
      OccursLetter(setType as nat, setNames);
    }
  }

  /** The constructor's digit loop reads "PV1_4" as index 14. */
  lemma DigitIndexExample()
    ensures DigitIndex("PV1_4") == 14
  {
    assert "PV1_4"[..4] == "PV1_";
    assert "PV1_"[..3] == "PV1";
    assert "PV1"[..2] == "PV";
    assert "PV"[..1] == "P";
    assert "P"[..0] == "";
  }

  /**
   * The set-type loop of `SettedPoint(x, y, setNames)`: section 1, then
   * each set type in enum order whose name occurs, C moving the point to
   * section 0.
   */
  method ReadSets(setNames: string) returns (sets: seq<uint8>, section: int)
    ensures sets == NamedSets(setNames, |SetTypeNames|)
    ensures section == if Occurs(SetTypeNames[SetC], setNames) then 0 else 1
  {
    section := 1;
    sets := [];
    var setType: uint8 := SetC;
    while Less(setType, SetTypeCount)
      invariant setType <= SetTypeCount
      invariant sets == NamedSets(setNames, setType as nat)
      invariant section == if setType > 0 && Occurs(SetTypeNames[SetC], setNames) then 0 else 1
      decreases SetTypeCount - setType
    {
      var setTypeString := ToString(SetTypeNames, setType);
      if FindText(setNames, setTypeString, 0) >= 0 {
        sets := sets + [setType];
        if setType == SetC {
          section := 0;
        }
      }
      EnumLoopStep(setType, SetTypeCount);
      setType := PreIncrement(setType);
    }
  }

  /** The digit loop of `SettedPoint(x, y, setNames)`. */
  method ReadIndex(setNames: string) returns (index: int)
    ensures index == DigitIndex(setNames)
  {
    index := 0;
    var i := 0;
    while i < |setNames|
      invariant i <= |setNames|
      invariant index == DigitIndex(setNames[..i])
    {
      var c := setNames[i];
      if (c >= '0') == (c <= '9') {
        index := index * 10;
        index := index + (c as int - '0' as int);
      }
      assert setNames[..i + 1][..i] == setNames[..i];
      i := i + 1;
    }
    assert setNames[..|setNames|] == setNames;
  }

  /** `SettedPoint(x, y, setNames)`: an unnamed point with the sets, section and index the names give. */
  method NewSettedPoint(x: int, y: int, setNames: string) returns (p: SettedPoint)
    ensures p == SettedPointOf(x, y, setNames)
  {
    var sets, section := ReadSets(setNames);
    var index := ReadIndex(setNames);
    p := SettedPoint(Point(x, y, ""), sets, index, section);
  }

  /** The re-sectioning copy: the same point, sets and index, in `newSection` unless it was in section 0. */
  function Resectioned(p: SettedPoint, newSection: int): (q: SettedPoint)
  {
    SettedPoint(p.point, p.sets, p.index, if p.section > 0 then newSection else 0)
  }

  /** A copy belongs to the sets its original does, and a center point stays in section 0. */
  lemma ResectionedKeepsSets(p: SettedPoint, newSection: int, setType: uint8)
    ensures IsPartOfSet(Resectioned(p, newSection), setType) <==> IsPartOfSet(p, setType)
    ensures Resectioned(p, newSection).section == 0 <==> p.section <= 0 || newSection == 0
    ensures Resectioned(p, newSection).point == p.point && Resectioned(p, newSection).index == p.index
  {
  }

  // ---------------------------------------------------------------------
  // Assertion lines
  // ---------------------------------------------------------------------

  /** An assertion: its function, then the point names, set types and counts it checks. */
  datatype AssertionData = AssertionData(func: uint8, pointNames: seq<string>, setTypes: seq<uint8>, counts: seq<int>)

  /** A freshly made assertion, whose function is the count member. */
  const DefaultAssertion: AssertionData := AssertionData(AssertionFunctionCount, [], [], [])

  /** What `SetFromLine` leaves in the assertion, and whether `at(0)` threw before it finished. */
  datatype ParsedAssertion = ParsedAssertion(data: AssertionData, threw: bool)

  /**
   * One parameter: the first is a comma-separated list of point names; a
   * later one that is empty throws, one starting with `@` adds a known set
   * type, and any other adds its `atoi` value as a count.
   */
  function ParamStep(acc: AssertionData, param: string, isFirst: bool): (r: ParsedAssertion)
  {
    if isFirst then ParsedAssertion(acc.(pointNames := acc.pointNames + SplitOn(param, ',')), false)
    else if |param| == 0 then ParsedAssertion(acc, true)
    else if param[0] == '@' then
      var setType := ToEnum(SetTypeNames, param[1..]);
      ParsedAssertion(if setType < |SetTypeNames| then acc.(setTypes := acc.setTypes + [setType as uint8]) else acc, false)
    else ParsedAssertion(acc.(counts := acc.counts + [Atoi(param)]), false)
  }

  /** The parameters in order, stopping at the first that throws. */
  function ParamsFrom(acc: AssertionData, params: seq<string>, isFirst: bool): (r: ParsedAssertion)
    decreases |params|
  {
    if |params| == 0 then ParsedAssertion(acc, false)
    else
      var step := ParamStep(acc, params[0], isFirst);
      if step.threw then step else ParamsFrom(step.data, params[1..], false)
  }

  /**
   * `SetFromLine` on a fresh assertion: the function named before the
   * first `:`, and when it is known, the `;`-separated parameters after it.
   */
  function ParseAssertion(line: string): (r: ParsedAssertion)
  {
    var colon := FindFrom(line, ':', 0);
    if colon < 0 then ParsedAssertion(DefaultAssertion, false)
    else
      var func := ToEnum(AssertionFunctionNames, line[..colon]);
      if func == |AssertionFunctionNames| then ParsedAssertion(DefaultAssertion, false)
      else ParamsFrom(DefaultAssertion.(func := func as uint8), SplitOn(line[colon + 1..], ';'), true)
  }

  /** The parameters keep the function. */
  lemma {:induction false} ParamsKeepFunc(acc: AssertionData, params: seq<string>, isFirst: bool)
    ensures ParamsFrom(acc, params, isFirst).data.func == acc.func
    decreases |params|
  {
    if |params| > 0 {
      ParamsKeepFunc(ParamStep(acc, params[0], isFirst).data, params[1..], false);
    }
  }

  /** Every set type is known. */
  predicate SetTypesKnown(acc: AssertionData)
  {
    forall i :: 0 <= i < |acc.setTypes| ==> acc.setTypes[i] < SetTypeCount
  }

  /** The parameters add only known set types. */
  lemma {:induction false} ParamsKeepSetsKnown(acc: AssertionData, params: seq<string>, isFirst: bool)
    requires SetTypesKnown(acc)
    ensures SetTypesKnown(ParamsFrom(acc, params, isFirst).data)
    decreases |params|
  {
    if |params| > 0 {
      var step := ParamStep(acc, params[0], isFirst);
      assert SetTypesKnown(step.data);
      ParamsKeepSetsKnown(step.data, params[1..], false);
    }
  }

  /** The parameters throw exactly on an empty parameter after the first. */
  lemma {:induction false} ParamsThrowOnEmpty(acc: AssertionData, params: seq<string>, isFirst: bool)
    ensures ParamsFrom(acc, params, isFirst).threw
            <==> exists i :: (if isFirst then 1 else 0) <= i < |params| && |params[i]| == 0
    decreases |params|
  {
    if |params| > 0 {
      var step := ParamStep(acc, params[0], isFirst);
      ParamsThrowOnEmpty(step.data, params[1..], false);
      var later := params[1..];
      assert forall i :: 1 <= i < |params| ==> params[i] == later[i - 1];
      if !step.threw && exists i :: (if isFirst then 1 else 0) <= i < |params| && |params[i]| == 0 {
        var i :| (if isFirst then 1 else 0) <= i < |params| && |params[i]| == 0;
        assert i >= 1 && |later[i - 1]| == 0;
      }
    }
  }

  /** A line without `:` or with an unknown function name parses nothing and keeps the count member. */
  lemma UnknownFunctionParsesNothing(line: string)
    requires FindFrom(line, ':', 0) < 0 || line[..FindFrom(line, ':', 0)] !in AssertionFunctionNames
    ensures ParseAssertion(line) == ParsedAssertion(DefaultAssertion, false)
  {
  }

  /** Some parameter after the first is empty. */
  predicate EmptyLaterParam(params: seq<string>)
  {
    exists i :: 1 <= i < |params| && |params[i]| == 0
  }

  /**
   * Parsing throws exactly when the function is known and some parameter
   * after the first is empty; otherwise the names of the first parameter
   * are all the point names and every set type is known.
   */
  lemma ParseAssertionShape(line: string)
    ensures var r := ParseAssertion(line);
            var colon := FindFrom(line, ':', 0);
            && (r.data.func == AssertionFunctionCount <==> colon < 0 || line[..colon] !in AssertionFunctionNames)
            && (r.threw <==> colon >= 0 && line[..colon] in AssertionFunctionNames
                             && EmptyLaterParam(SplitOn(line[colon + 1..], ';')))
            && (colon >= 0 && line[..colon] in AssertionFunctionNames && !r.threw
                ==> r.data.pointNames == SplitOn(SplitOn(line[colon + 1..], ';')[0], ','))
            && forall i :: 0 <= i < |r.data.setTypes| ==> r.data.setTypes[i] < SetTypeCount
  {
    var colon := FindFrom(line, ':', 0);
    if colon >= 0 && line[..colon] in AssertionFunctionNames {
      var func := ToEnum(AssertionFunctionNames, line[..colon]);
      var params := SplitOn(line[colon + 1..], ';');
      var acc := DefaultAssertion.(func := func as uint8);
      ParamsKeepFunc(acc, params, true);
      ParamsKeepSetsKnown(acc, params, true);
      ParamsThrowOnEmpty(acc, params, true);
      var first := ParamStep(acc, params[0], true);
      assert first.data.pointNames == SplitOn(params[0], ',');
      ParamsKeepNames(first.data, params[1..]);
    }
  }

  /** Later parameters add no point names. */
  lemma {:induction false} ParamsKeepNames(acc: AssertionData, params: seq<string>)
    ensures ParamsFrom(acc, params, false).data.pointNames == acc.pointNames
    decreases |params|
  {
    if |params| > 0 {
      ParamsKeepNames(ParamStep(acc, params[0], false).data, params[1..]);
    }
  }

  /** The last two parameters of the data file's example assertion. */
  lemma ExampleLaterParams()
    ensures SplitOn("@P;0", ';') == ["@P", "0"]
  {
    SplitNone("0", ';');
    var s := "@P;0";
    assert s[..2] == "@P" && s[3..] == "0";
    SplitFirst(s, ';', 2, ["0"]);
  }

  /** The three parameters of the data file's example assertion. */
  lemma ExampleParams()
    ensures SplitOn("C,O,O_2;@P;0", ';') == ["C,O,O_2", "@P", "0"]
  {
    ExampleLaterParams();
    var s := "C,O,O_2;@P;0";
    assert s[..7] == "C,O,O_2" && s[8..] == "@P;0";
    SplitFirst(s, ';', 7, ["@P", "0"]);
  }

  /** The last two point names of the data file's example assertion. */
  lemma ExampleLaterNames()
    ensures SplitOn("O,O_2", ',') == ["O", "O_2"]
  {
    SplitNone("O_2", ',');
    var s := "O,O_2";
    assert s[..1] == "O" && s[2..] == "O_2";
    SplitFirst(s, ',', 1, ["O_2"]);
  }

  /** The point names of the data file's example assertion. */
  lemma ExampleNames()
    ensures SplitOn("C,O,O_2", ',') == ["C", "O", "O_2"]
  {
    ExampleLaterNames();
    var s := "C,O,O_2";
    assert s[..1] == "C" && s[2..] == "O,O_2";
    SplitFirst(s, ',', 1, ["O", "O_2"]);
  }

  /** The example line names the count member and leaves its three parameters to the loop. */
  lemma ExampleLine()
    ensures ParseAssertion("MaxCountOfSet:C,O,O_2;@P;0")
            == ParamsFrom(AssertionData(MaxCountOfSet, [], [], []), ["C,O,O_2", "@P", "0"], true)
  {
    var name, rest := "MaxCountOfSet", "C,O,O_2;@P;0";
    var line := name + [':'] + rest;
    assert line == "MaxCountOfSet:C,O,O_2;@P;0";
    FindFromIs(line, ':', 0, 13);
    assert line[..13] == name;
    assert ToEnum(AssertionFunctionNames, name) == 1;
    assert line[14..] == rest;
    ExampleParams();
  }

  /** The example's first parameter names C, O and O_2. */
  lemma ExampleFirstParam()
    ensures ParamStep(AssertionData(MaxCountOfSet, [], [], []), "C,O,O_2", true)
            == ParsedAssertion(AssertionData(MaxCountOfSet, ["C", "O", "O_2"], [], []), false)
  {
    ExampleNames();
  }

  /** The example's second parameter adds set P. */
  lemma ExampleSetParam(names: seq<string>)
    ensures ParamStep(AssertionData(MaxCountOfSet, names, [], []), "@P", false)
            == ParsedAssertion(AssertionData(MaxCountOfSet, names, [SetP], []), false)
  {
    assert "@P"[1..] == "P";
    assert ToEnum(SetTypeNames, "P") == 2;
  }

  /** The example's third parameter adds count 0. */
  lemma ExampleCountParam(names: seq<string>, setTypes: seq<uint8>)
    ensures ParamStep(AssertionData(MaxCountOfSet, names, setTypes, []), "0", false)
            == ParsedAssertion(AssertionData(MaxCountOfSet, names, setTypes, [0]), false)
  {
    AtoiOfDecimal(0);
    assert SignedDecimal(0) == "0";
  }

  /** The example's three parameters: names C, O and O_2, set P and count 0. */
  lemma ExampleParamSteps()
    ensures ParamsFrom(AssertionData(MaxCountOfSet, [], [], []), ["C,O,O_2", "@P", "0"], true)
            == ParsedAssertion(AssertionData(MaxCountOfSet, ["C", "O", "O_2"], [SetP], [0]), false)
  {
    var names := ["C", "O", "O_2"];
    var a0 := AssertionData(MaxCountOfSet, [], [], []);
    var a1 := AssertionData(MaxCountOfSet, names, [], []);
    var a2 := AssertionData(MaxCountOfSet, names, [SetP], []);
    var params := ["C,O,O_2", "@P", "0"];
    ExampleFirstParam();
    ExampleSetParam(names);
    ExampleCountParam(names, [SetP]);
    assert params[1..] == ["@P", "0"] && params[1..][1..] == ["0"] && params[1..][1..][1..] == [];
    ParamsFromStep(a0, params, true);
    ParamsFromStep(a1, ["@P", "0"], false);
    ParamsFromStep(a2, ["0"], false);
  }

  /** The data file's example assertion gives names C, O and O_2, set P and count 0. */
  lemma ParseAssertionExample()
    ensures ParseAssertion("MaxCountOfSet:C,O,O_2;@P;0")
            == ParsedAssertion(AssertionData(MaxCountOfSet, ["C", "O", "O_2"], [SetP], [0]), false)
  {
    ExampleLine();
    ExampleParamSteps();
  }

  /** An empty parameter after the first, as in "Fail:A;;", throws. */
  lemma ParseAssertionThrowsOnEmptyParam()
    ensures ParseAssertion("Fail:A;;").threw
  {
    var line := "Fail:A;;";
    FindFromIs(line, ':', 0, 4);
    assert line[..4] == "Fail";
    var rest := line[5..];
    assert rest == "A;;";
    FindFromIs(rest, ';', 0, 1);
    assert rest[..1] == "A" && rest[2..] == ";";
    FindFromIs(";", ';', 0, 0);
    assert ";"[..0] == "";
    assert SplitOn(rest, ';')[1] == "";
    ParseAssertionShape(line);
  }

  /** The inner do-while loop: the point names between the commas of the first parameter. */
  method SplitPointNames(param: string) returns (names: seq<string>)
    ensures names == SplitOn(param, ',')
  {
    names := [];
    var pointNameStartPos := 0;
    PiecesFromSplits(param, ',', 0);
    assert param[0..] == param;
    while true
      invariant pointNameStartPos <= |param|
      invariant names + PiecesFrom(param, ',', pointNameStartPos) == SplitOn(param, ',')
      decreases |param| - pointNameStartPos
    {
      var pointNameEndPos := FindFrom(param, ',', pointNameStartPos);
      if pointNameEndPos < 0 {
        names := names + [param[pointNameStartPos..]];
        return;
      }
      var pointName := param[pointNameStartPos..pointNameEndPos];
      ghost var rest := PiecesFrom(param, ',', pointNameEndPos + 1);
      assert PiecesFrom(param, ',', pointNameStartPos) == [pointName] + rest;
      AppendAssociative(names, [pointName], rest);
      names := names + [pointName];
      pointNameStartPos := pointNameEndPos + 1;
    }
  }

  /** One parameter read into the assertion, or the throw of `param.at(0)`. */
  method ReadParam(data: AssertionData, param: string, isFirstParam: bool) returns (next: AssertionData, threw: bool)
    ensures ParsedAssertion(next, threw) == ParamStep(data, param, isFirstParam)
  {
    next := data;
    threw := false;
    if isFirstParam {
      var names := SplitPointNames(param);
      next := data.(pointNames := data.pointNames + names);
    } else if |param| == 0 {
      // `param.at(0)` throws `std::out_of_range`.
      threw := true;
    } else if param[0] == '@' {
      var setType := ToEnum(SetTypeNames, param[1..]);
      if setType != |SetTypeNames| {
        next := data.(setTypes := data.setTypes + [setType as uint8]);
      }
    } else {
      next := data.(counts := data.counts + [Atoi(param)]);
    }
  }

  /** One step of the parameter loop. */
  lemma ParamsFromStep(acc: AssertionData, params: seq<string>, isFirst: bool)
    requires |params| > 0
    ensures ParamStep(acc, params[0], isFirst).threw ==> ParamsFrom(acc, params, isFirst) == ParamStep(acc, params[0], isFirst)
    ensures !ParamStep(acc, params[0], isFirst).threw
            ==> ParamsFrom(acc, params, isFirst) == ParamsFrom(ParamStep(acc, params[0], isFirst).data, params[1..], false)
  {
  }

  /** The piece the loop reads at `start`, and the pieces after it. */
  lemma PiecesFromStep(s: string, sep: char, start: nat)
    requires start <= |s|
    ensures var end := FindFrom(s, sep, start);
            && PiecesFrom(s, sep, start)[0] == (if end < 0 then s[start..] else s[start..end])
            && PiecesFrom(s, sep, start)[1..] == (if end < 0 then [] else PiecesFrom(s, sep, end + 1))
  {
  }

  /** The parameter the loop reads at `start`: up to the next `;`, or the rest of the line. */
  function ParamAt(line: string, start: nat): (param: string)
    requires start <= |line|
    ensures |param| <= |line| - start
  {
    var end := FindFrom(line, ';', start);
    if end < 0 then line[start..] else line[start..end]
  }

  /** The parameters from `start` on: the one read there, then, unless it threw or was the last, those after the next `;`. */
  lemma ParamsFromAt(acc: AssertionData, line: string, start: nat, isFirst: bool)
    requires start <= |line|
    ensures var end := FindFrom(line, ';', start);
            var step := ParamStep(acc, ParamAt(line, start), isFirst);
            ParamsFrom(acc, PiecesFrom(line, ';', start), isFirst)
            == if step.threw then step
               else if end < 0 then ParsedAssertion(step.data, false)
               else ParamsFrom(step.data, PiecesFrom(line, ';', end + 1), false)
  {
    PiecesFromStep(line, ';', start);
    ParamsFromStep(acc, PiecesFrom(line, ';', start), isFirst);
  }

  /**
   * One pass of the parameter loop: the parameter from `start` up to the
   * next `;` (at `end`, or -1 for none) read into the assertion. Unless it
   * threw or was the last, the parameters after `end` finish the parse.
   */
  method ReadParamAt(data: AssertionData, line: string, start: nat, isFirst: bool)
      returns (next: AssertionData, threw: bool, end: int)
    requires start <= |line|
    ensures end == FindFrom(line, ';', start)
    ensures threw || end < 0 ==> ParsedAssertion(next, threw) == ParamsFrom(data, PiecesFrom(line, ';', start), isFirst)
    ensures !threw && end >= 0 ==> ParamsFrom(next, PiecesFrom(line, ';', end + 1), false) == ParamsFrom(data, PiecesFrom(line, ';', start), isFirst)
  {
    end := FindFrom(line, ';', start);
    var param := ParamAt(line, start);
    ParamsFromAt(data, line, start, isFirst);
    next, threw := ReadParam(data, param, isFirst);
  }

  /**
   * `AssertionData::SetFromLine` on a fresh assertion: the do-while loop
   * over the `;`-separated parameters, proved to produce `ParseAssertion`.
   * `threw` reports the `std::out_of_range` of `param.at(0)`; `data` is
   * what the assertion holds at that point.
   */
  method SetFromLine(line: string) returns (data: AssertionData, threw: bool)
    ensures ParsedAssertion(data, threw) == ParseAssertion(line)
  {
    data := DefaultAssertion;
    threw := false;
    var colonPos := FindFrom(line, ':', 0);
    if colonPos < 0 {
      return;
    }
    var func := ToEnum(AssertionFunctionNames, line[..colonPos]);
    data := data.(func := func as uint8);
    if func == |AssertionFunctionNames| {
      return;
    }
    PiecesFromSplits(line, ';', colonPos + 1);
    data, threw := ReadParams(data, line, colonPos + 1);
  }

  /** The do-while loop over the parameters from `start` on, the first of them being the point names. */
  method ReadParams(acc: AssertionData, line: string, start: nat) returns (data: AssertionData, threw: bool)
    requires start <= |line|
    ensures ParsedAssertion(data, threw) == ParamsFrom(acc, PiecesFrom(line, ';', start), true)
  {
    data := acc;
    threw := false;
    var paramStartPos := start;
    var isFirstParam := true;
    ghost var goal := ParamsFrom(acc, PiecesFrom(line, ';', start), true);
    while true
      invariant paramStartPos <= |line|
      invariant ParamsFrom(data, PiecesFrom(line, ';', paramStartPos), isFirstParam) == goal
      decreases |line| - paramStartPos
    {
      var paramEndPos;
      data, threw, paramEndPos := ReadParamAt(data, line, paramStartPos, isFirstParam);
      if threw {
        return;
      }
      isFirstParam := false;
      if paramEndPos < 0 {
        return;
      }
      paramStartPos := paramEndPos + 1;
    }
  }

  // ---------------------------------------------------------------------
  // Comma-separated name lists
  // ---------------------------------------------------------------------

  /** What the tokeniser keeps of a character: nothing of a space, a–z in upper case, anything else as it is. */
  function NameChar(c: char): (kept: string)
  {
    if c == ' ' then [] else if 'a' <= c <= 'z' then [(c as int - 0x20) as char] else [c]
  }

  /** A typed name as the tokeniser keeps it. */
  function TokenName(s: string): (name: string)
  {
    if |s| == 0 then [] else TokenName(s[..|s| - 1]) + NameChar(s[|s| - 1])
  }

  /** A character the tokeniser leaves as it is. */
  predicate KeptAsIs(c: char)
  {
    c != ' ' && !('a' <= c <= 'z')
  }

  /** A kept name holds no space and no lower-case letter, and is no longer than the text. */
  lemma {:induction false} TokenNameShape(s: string)
    ensures |TokenName(s)| <= |s|
    ensures forall i :: 0 <= i < |TokenName(s)| ==> KeptAsIs(TokenName(s)[i])
  {
    if |s| > 0 {
      var init := s[..|s| - 1];
      TokenNameShape(init);
      var kept := TokenName(init);
      var last := NameChar(s[|s| - 1]);
      assert TokenName(s) == kept + last;
      assert forall i :: 0 <= i < |last| ==> KeptAsIs(last[i]);
    }
  }

  /** Text made only of characters kept as they are is its own name. */
  lemma {:induction false} TokenNameOfKept(s: string)
    requires forall i :: 0 <= i < |s| ==> KeptAsIs(s[i])
    ensures TokenName(s) == s
  {
    if |s| > 0 {
      var init := s[..|s| - 1];
      TokenNameOfKept(init);
      assert TokenName(s) == init + [s[|s| - 1]];
      assert s == init + [s[|s| - 1]];
    }
  }

  /** Keeping a kept name again changes nothing. */
  lemma TokenNameIdempotent(s: string)
    ensures TokenName(TokenName(s)) == TokenName(s)
  {
    TokenNameShape(s);
    TokenNameOfKept(TokenName(s));
  }

  /** The pieces between commas, without the empty piece after a final comma. */
  function NamePieces(s: string): (parts: seq<string>)
    ensures |parts| >= 1
  {
    var parts := SplitOn(s, ',');
    if |s| > 0 && s[|s| - 1] == ',' && |parts| > 1 then parts[..|parts| - 1] else parts
  }

  /** Each piece kept as a name. */
  function TokenNames(pieces: seq<string>): (names: seq<string>)
    ensures |names| == |pieces|
    ensures forall i :: 0 <= i < |pieces| ==> names[i] == TokenName(pieces[i])
  {
    if |pieces| == 0 then [] else [TokenName(pieces[0])] + TokenNames(pieces[1..])
  }

  /**
   * The names the tokeniser's do-while loop reads from `pos` on: the name
   * up to the next comma, then, when something follows that comma, the
   * names after it.
   */
  function TokensFrom(s: string, pos: nat): (names: seq<string>)
    requires pos <= |s|
    decreases |s| - pos + 1, 1
  {
    TokensAt(s, pos, FindFrom(s, ',', pos))
  }

  /** The names from `pos` on, when the next comma is at `comma` (-1 for none). */
  function TokensAt(s: string, pos: nat, comma: int): (names: seq<string>)
    requires pos <= |s| && (comma == -1 || pos <= comma < |s|)
    decreases |s| - pos + 1, 0
  {
    var stop := if comma < 0 then |s| else comma;
    [TokenName(s[pos..stop])] + (if stop + 1 < |s| then TokensFrom(s, stop + 1) else [])
  }

  /** A string ending in its separator splits into a last empty piece after the others. */
  lemma SplitEndingInSeparator(s: string, sep: char)
    requires |s| > 0 && s[|s| - 1] == sep
    ensures |SplitOn(s, sep)| > 1 && |LastPiece(SplitOn(s, sep))| == 0
  {
    LastPieceEmpty(s, sep);
    FindFromFirst(s, sep, 0);
    var k := FindFrom(s, sep, 0);
    assert k >= 0;
    assert SplitOn(s, sep) == [s[..k]] + SplitOn(s[k + 1..], sep);
  }

  lemma TokenNamesCons(piece: string, pieces: seq<string>)
    ensures TokenNames([piece] + pieces) == [TokenName(piece)] + TokenNames(pieces)
  {
    assert ([piece] + pieces)[1..] == pieces;
  }

  /** The last name, when no comma follows. */
  lemma TokensAtEnd(s: string, pos: nat)
    requires pos < |s| || pos == 0
    requires FindFrom(s, ',', pos) < 0
    ensures TokensFrom(s, pos) == TokenNames(NamePieces(s[pos..]))
  {
    PiecesFromSplits(s, ',', pos);
    FindFromFirst(s, ',', pos);
    var t := s[pos..];
    assert SplitOn(t, ',') == [t];
    assert |t| > 0 ==> t[|t| - 1] == s[|s| - 1] && s[|s| - 1] != ',';
    assert s[pos..|s|] == t;
  }

  /** The last name, when a comma ends the string. */
  lemma TokensAtFinalComma(s: string, pos: nat, comma: nat)
    requires pos <= comma && comma + 1 == |s| && FindFrom(s, ',', pos) == comma
    ensures TokensFrom(s, pos) == TokenNames(NamePieces(s[pos..]))
  {
    PiecesFromSplits(s, ',', pos);
    PiecesFromSplits(s, ',', comma + 1);
    var t := s[pos..];
    assert s[comma + 1..] == [];
    assert SplitOn([], ',') == [[]];
    assert SplitOn(t, ',') == [s[pos..comma], []];
    assert t[|t| - 1] == ',';
    assert NamePieces(t) == [s[pos..comma]];
  }

  /** The kept pieces of a string that splits into a first piece and the pieces of a non-empty rest ending as it does. */
  lemma NamePiecesCons(t: string, piece: string, u: string)
    requires |u| > 0 && |t| > 0 && t[|t| - 1] == u[|u| - 1]
    requires SplitOn(t, ',') == [piece] + SplitOn(u, ',')
    ensures NamePieces(t) == [piece] + NamePieces(u)
  {
    if u[|u| - 1] == ',' {
      SplitEndingInSeparator(u, ',');
      var later := SplitOn(u, ',');
      assert ([piece] + later)[..|later|] == [piece] + later[..|later| - 1];
    }
  }

  /** The loop's pass at a comma with more text after it. */
  lemma TokensAtComma(s: string, pos: nat, comma: nat)
    requires pos <= comma && comma + 1 < |s| && FindFrom(s, ',', pos) == comma
    ensures TokensFrom(s, pos) == [TokenName(s[pos..comma])] + TokensFrom(s, comma + 1)
  {
    assert TokensFrom(s, pos) == TokensAt(s, pos, comma);
  }

  /** The pieces after the first comma are the pieces of the rest. */
  lemma PiecesAtComma(s: string, pos: nat, comma: nat)
    requires pos <= comma && comma + 1 < |s|
    requires SplitOn(s[pos..], ',') == [s[pos..comma]] + SplitOn(s[comma + 1..], ',')
    ensures NamePieces(s[pos..]) == [s[pos..comma]] + NamePieces(s[comma + 1..])
  {
    var t := s[pos..];
    var u := s[comma + 1..];
    assert t[|t| - 1] == s[|s| - 1] == u[|u| - 1];
    NamePiecesCons(t, s[pos..comma], u);
  }

  /** Splitting the text from `pos` at its first comma. */
  lemma SplitAtComma(s: string, pos: nat, comma: nat)
    requires pos <= comma < |s| && FindFrom(s, ',', pos) == comma
    ensures SplitOn(s[pos..], ',') == [s[pos..comma]] + SplitOn(s[comma + 1..], ',')
  {
    var t := s[pos..];
    var k := comma - pos;
    FindFromFirst(s, ',', pos);
    assert t[..k] == s[pos..comma] && t[k + 1..] == s[comma + 1..];
    SplitFirst(t, ',', k, SplitOn(s[comma + 1..], ','));
  }

  /** A name followed by a comma and more text. */
  lemma {:induction false} TokensBeforeComma(s: string, pos: nat, comma: nat)
    requires pos <= comma && comma + 1 < |s| && FindFrom(s, ',', pos) == comma
    ensures TokensFrom(s, pos) == TokenNames(NamePieces(s[pos..]))
    decreases |s| - pos, 0
  {
    TokensFromPieces(s, comma + 1);
    TokensAtComma(s, pos, comma);
    SplitAtComma(s, pos, comma);
    PiecesAtComma(s, pos, comma);
    TokenNamesCons(s[pos..comma], NamePieces(s[comma + 1..]));
  }

  /** The last name: no comma follows it, or only a final one. */
  lemma TokensFromLast(s: string, pos: nat)
    requires pos < |s| || pos == 0
    requires FindFrom(s, ',', pos) < 0 || FindFrom(s, ',', pos) + 1 == |s|
    ensures TokensFrom(s, pos) == TokenNames(NamePieces(s[pos..]))
  {
    var comma := FindFrom(s, ',', pos);
    if comma < 0 {
      TokensAtEnd(s, pos);
    } else {
      TokensAtFinalComma(s, pos, comma);
    }
  }

  /** The loop reads one name per piece between commas, and none after a final comma. */
  lemma {:induction false} TokensFromPieces(s: string, pos: nat)
    requires pos < |s| || pos == 0
    ensures TokensFrom(s, pos) == TokenNames(NamePieces(s[pos..]))
    decreases |s| - pos, 1
  {
    var comma := FindFrom(s, ',', pos);
    if comma >= 0 && comma + 1 < |s| {
      TokensBeforeComma(s, pos, comma);
    } else {
      TokensFromLast(s, pos);
    }
  }

  /**
   * `FillListWithSettedPoints(tokenizedNameStr, ...)`'s name list: the
   * comma-separated pieces, each with spaces dropped and a–z uppercased;
   * an empty string gives one empty name.
   */
  lemma TokenizedNames(s: string)
    ensures TokensFrom(s, 0) == TokenNames(NamePieces(s))
    ensures |s| == 0 ==> TokensFrom(s, 0) == [""]
  {
    TokensFromPieces(s, 0);
    assert s[0..] == s;
    if |s| == 0 {
      assert SplitOn(s, ',') == [s];
    }
  }

  /** "a, b,c," names A, B and C. */
  lemma TokenizedNamesExample()
    ensures TokensFrom("a, b,c,", 0) == ["A", "B", "C"]
  {
    var s := "a, b,c,";
    FindFromIs(s, ',', 0, 1);
    FindFromIs(s, ',', 2, 4);
    FindFromIs(s, ',', 5, 6);
    assert s[0..1] == "a" && s[2..4] == " b" && s[5..6] == "c";
    assert TokenName("a") == "A";
    assert " b"[..1] == " ";
    assert TokenName(" b") == "B";
    assert TokenName("c") == "C";
  }

  /** The names from `pos` on: the one ending at `stop`, then those after it. */
  lemma TokensFromStep(s: string, pos: nat, stop: nat)
    requires pos <= |s| && stop == if FindFrom(s, ',', pos) < 0 then |s| else FindFrom(s, ',', pos)
    ensures pos <= stop <= |s|
    ensures TokensFrom(s, pos) == [TokenName(s[pos..stop])] + (if stop + 1 < |s| then TokensFrom(s, stop + 1) else [])
  {
  }

  /** One pass of the outer loop: the name ending at `stop` joins those already read. */
  lemma TokensAppendStep(s: string, names: seq<string>, pos: nat, stop: nat)
    requires pos <= |s| && stop == if FindFrom(s, ',', pos) < 0 then |s| else FindFrom(s, ',', pos)
    requires names + TokensFrom(s, pos) == TokensFrom(s, 0)
    ensures pos <= stop <= |s|
    ensures stop + 1 < |s| ==> (names + [TokenName(s[pos..stop])]) + TokensFrom(s, stop + 1) == TokensFrom(s, 0)
    ensures stop + 1 >= |s| ==> names + [TokenName(s[pos..stop])] == TokensFrom(s, 0)
  {
    var rest := if stop + 1 < |s| then TokensFrom(s, stop + 1) else [];
    TokensFromStep(s, pos, stop);
    AppendAssociative(names, [TokenName(s[pos..stop])], rest);
  }

  /** Reading one more character extends the kept name by what the tokeniser keeps of it. */
  lemma TokenNameExtend(s: string, pos: nat, stop: nat)
    requires pos <= stop < |s|
    ensures TokenName(s[pos..stop + 1]) == TokenName(s[pos..stop]) + NameChar(s[stop])
  {
    assert s[pos..stop + 1][..stop - pos] == s[pos..stop];
  }

  /** Where the character scan ends is where `find` puts the next comma, or the end. */
  lemma ScanEndIsFind(s: string, pos: nat, stop: nat)
    requires pos <= stop <= |s|
    requires forall k :: pos <= k < stop ==> s[k] != ','
    requires stop == |s| || s[stop] == ','
    ensures stop == if FindFrom(s, ',', pos) < 0 then |s| else FindFrom(s, ',', pos)
  {
    FindFromFirst(s, ',', pos);
    if stop < |s| {
      FindFromIs(s, ',', pos, stop);
    }
  }

  /** The loop body's character test: a space is dropped, a–z is uppercased, anything else is appended as it is. */
  method KeepChar(name: string, c: char) returns (longer: string)
    ensures longer == name + NameChar(c)
  {
    if c == ' ' {
      longer := name;
    } else if c >= 'a' && c <= 'z' {
      longer := name + [(c as int - 0x20) as char];
    } else {
      longer := name + [c];
    }
  }

  /**
   * The inner `for` loop: the name from `pos` up to the next comma or the
   * end, and the position it stops at.
   */
  method ReadName(s: string, pos: nat) returns (name: string, stop: nat)
    requires pos <= |s|
    ensures stop == if FindFrom(s, ',', pos) < 0 then |s| else FindFrom(s, ',', pos)
    ensures name == TokenName(s[pos..stop])
  {
    name := [];
    stop := pos;
    while stop < |s| && s[stop] != ','
      invariant pos <= stop <= |s|
      invariant forall k :: pos <= k < stop ==> s[k] != ','
      invariant name == TokenName(s[pos..stop])
      decreases |s| - stop
    {
      TokenNameExtend(s, pos, stop);
      name := KeepChar(name, s[stop]);
      stop := stop + 1;
    }
    ScanEndIsFind(s, pos, stop);
  }

  /** The tokeniser's outer do-while loop, proved to read the names `TokensFrom` describes. */
  method TokenizeNames(tokenizedNameStr: string) returns (names: seq<string>)
    ensures names == TokensFrom(tokenizedNameStr, 0)
    ensures names == TokenNames(NamePieces(tokenizedNameStr))
  {
    names := [];
    var namePos := 0;
    while true
      invariant namePos <= |tokenizedNameStr|
      invariant names + TokensFrom(tokenizedNameStr, namePos) == TokensFrom(tokenizedNameStr, 0)
      decreases |tokenizedNameStr| - namePos
    {
      var name, stop := ReadName(tokenizedNameStr, namePos);
      TokensAppendStep(tokenizedNameStr, names, namePos, stop);
      names := names + [name];
      namePos := stop + 1;
      if namePos >= |tokenizedNameStr| {
        TokenizedNames(tokenizedNameStr);
        return;
      }
    }
  }
}
