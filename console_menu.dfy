/**
 * The keyboard-driven console menu: commands are matched against the typed
 * text, a command's description is split into one prompt per parameter, and
 * a character-at-a-time state machine collects each numeric or text
 * parameter in a fixed buffer of 513 characters before the command runs.
 *
 * The menu's state is captured by `MenuState`; every step of the machine is
 * a pure function on it, and the `ConsoleMenu` class performs the same steps
 * on its fields and its `array<char>` buffer, each method proved to move its
 * state exactly as the matching function does.
 */
module ConsoleMenus {
  import opened FixedWidth
  import opened StringSearch
  import opened Options

  datatype InputMode = Command | Decimal | Binary | Hex | Text | SubMenu | ForceExit | Invalid

  datatype ValidateResponse = Ok | TryAgain | ExitMenu

  /** `GetInputModeFromChar`: the three letters that name a number base. */
  function InputModeFromChar(c: char): (m: InputMode)
    ensures m == Hex <==> c == 'x'
    ensures m == Decimal <==> c == 'd'
    ensures m == Binary <==> c == 'b'
    ensures m == Invalid <==> c != 'x' && c != 'd' && c != 'b'
  {
    match c
    case 'x' => Hex
    case 'd' => Decimal
    case 'b' => Binary
    case _ => Invalid
  }

  /** `GetBaseFromInputMode`: 16, 10 or 2 for the number modes, 10 for every other mode. */
  function BaseOfMode(m: InputMode): (base: nat)
    ensures base == 16 <==> m == Hex
    ensures base == 2 <==> m == Binary
    ensures m != Hex && m != Binary ==> base == 10
  {
    match m
    case Hex => 16
    case Decimal => 10
    case Binary => 2
    case _ => 10
  }

  predicate IsNumberMode(m: InputMode)
  {
    m == Decimal || m == Binary || m == Hex
  }

  /** The modes in which a parameter of the current command is being typed. */
  predicate IsParamMode(m: InputMode)
  {
    IsNumberMode(m) || m == Text
  }

  /** The letter `ConvertModeTo` leaves in the buffer on entering a number mode. */
  function ModeLetter(m: InputMode): (letter: char)
    requires IsNumberMode(m)
  {
    match m
    case Binary => 'b'
    case Decimal => 'd'
    case Hex => 'x'
  }

  /** The letter a number mode leaves in the buffer is the letter that selects that mode again. */
  lemma ModeLetterRoundTrip(m: InputMode)
    requires IsNumberMode(m)
    ensures InputModeFromChar(ModeLetter(m)) == m
  {
  }

  /** A character selects a number mode exactly when it is that mode's letter. */
  lemma ModeFromCharIsLetter(c: char)
    ensures InputModeFromChar(c) != Invalid ==> IsNumberMode(InputModeFromChar(c)) && ModeLetter(InputModeFromChar(c)) == c
  {
  }

  // ---------------------------------------------------------------------
  // Commands and their per-parameter prompts
  // ---------------------------------------------------------------------

  /** `ConsoleMenuCommandInput`: how one parameter is typed, and its prompt. */
  datatype CommandInput = CommandInput(inputMode: InputMode, description: string)

  /** The shared input `GetInput` answers with past the last parameter. */
  const InvalidInput: CommandInput := CommandInput(Invalid, "")

  /**
   * The command classes: no parameters, `count` numeric or `count` text
   * parameters (1 to 6 and 1 to 4 in the source), or a sub-menu.
   */
  datatype CommandKind = NoArgs | NumberArgs(count: nat) | TextArgs(count: nat) | SubMenuCommand

  datatype MenuCommand = MenuCommand(command: string, description: string, inputs: seq<CommandInput>, kind: CommandKind)

  /** `GetNumArgs`. */
  function NumArgs(kind: CommandKind): (n: nat)
    ensures (kind.NumberArgs? || kind.TextArgs?) ==> n == kind.count
    ensures (kind.NoArgs? || kind.SubMenuCommand?) ==> n == 0
  {
    match kind
    case NumberArgs(count) => count
    case TextArgs(count) => count
    case _ => 0
  }

  /** `GetInput`: the parameter's input, or the invalid input past the end. */
  function GetInput(cmd: MenuCommand, pos: nat): (input: CommandInput)
    ensures pos < |cmd.inputs| ==> input == cmd.inputs[pos]
    ensures pos >= |cmd.inputs| ==> input == InvalidInput
  {
    if pos < |cmd.inputs| then cmd.inputs[pos] else InvalidInput
  }

  /**
   * The input one piece of the description gives: its first character names
   * the mode unless a mode is forced (text and sub-menu commands force
   * text), and a number mode's letter is not part of the prompt. An empty
   * piece reads the next `;` as its mode character, which names no mode.
   */
  function PieceInput(piece: string, forcedText: bool): (input: CommandInput)
    ensures forcedText ==> input == CommandInput(Text, piece)
    ensures !forcedText && |piece| > 0 && IsNumberMode(InputModeFromChar(piece[0]))
            ==> input == CommandInput(InputModeFromChar(piece[0]), piece[1..])
    ensures !forcedText && (|piece| == 0 || InputModeFromChar(piece[0]) == Invalid)
            ==> input == CommandInput(Invalid, piece)
  {
    var mode := if forcedText then Text else if |piece| > 0 then InputModeFromChar(piece[0]) else Invalid;
    CommandInput(mode, if mode == Invalid || mode == Text then piece else piece[1..])
  }

  /** Every piece after the first `;`, turned into its input. */
  function PieceInputs(pieces: seq<string>, forcedText: bool): (inputs: seq<CommandInput>)
    ensures |inputs| == |pieces|
    ensures forall i :: 0 <= i < |pieces| ==> inputs[i] == PieceInput(pieces[i], forcedText)
  {
    seq(|pieces|, i requires 0 <= i < |pieces| => PieceInput(pieces[i], forcedText))
  }

  /**
   * What `SplitDescriptionAmongInputs` makes of a description: the text
   * before the first `;` and one input per piece after it. A description
   * ending in `;` makes `std::string::at` throw while reading the mode
   * character past the end, so no command is made (`None`).
   */
  function SplitDescription(description: string, forcedText: bool): (r: Option<(string, seq<CommandInput>)>)
  {
    var first := FindFrom(description, ';', 0);
    if first < 0 then Some((description, []))
    else if SplitThrows(description) then None
    else Some((description[..first], PieceInputs(SplitOn(description[first + 1..], ';'), forcedText)))
  }

  /** The last piece after the first `;` is empty: `at` is asked for the character past the end. */
  predicate SplitThrows(description: string)
  {
    var first := FindFrom(description, ';', 0);
    first >= 0 && |LastPiece(SplitOn(description[first + 1..], ';'))| == 0
  }

  /** The split fails exactly when the description has a `;` and ends with one. */
  lemma SplitDescriptionFails(description: string, forcedText: bool)
    ensures SplitDescription(description, forcedText).None? <==> ';' in description && description[|description| - 1] == ';'
  {
    assert SplitDescription(description, forcedText).None? <==> SplitThrows(description);
    SplitThrowsAtEnd(description);
  }

  /** `at` throws exactly when the description has a `;` and ends with one. */
  lemma SplitThrowsAtEnd(description: string)
    ensures SplitThrows(description) <==> ';' in description && description[|description| - 1] == ';'
  {
    var first := FindFrom(description, ';', 0);
    FindFromFirst(description, ';', 0);
    if first >= 0 {
      assert ';' in description by {
        assert description[first] == ';';
      }
      LastPieceAtEnd(description, first);
    } else {
      assert ';' !in description;
    }
  }

  /** After a `;` at `first`, the last piece is empty exactly when the text ends with `;`. */
  lemma LastPieceAtEnd(description: string, first: nat)
    requires first < |description| && description[first] == ';'
    ensures |LastPiece(SplitOn(description[first + 1..], ';'))| == 0 <==> description[|description| - 1] == ';'
  {
    var t := description[first + 1..];
    LastPieceEmpty(t, ';');
    if |t| > 0 {
      assert t[|t| - 1] == description[|description| - 1];
    }
  }

  /** A name followed by two decimal inputs `x` and `y`. */
  lemma SplitDescriptionOfTwoDecimals(name: string)
    requires ';' !in name
    ensures SplitDescription(name + ";dx;dy", false)
            == Some((name, [CommandInput(Decimal, "x"), CommandInput(Decimal, "y")]))
  {
    var d := name + ";dx;dy";
    assert forall j :: 0 <= j < |name| ==> d[j] == name[j];
    FindFromIs(d, ';', 0, |name|);
    assert d[..|name|] == name;
    assert d[|name| + 1..] == "dx;dy";
    TwoDecimalInputs();
  }

  /** The pieces `dx` and `dy` are decimal inputs named `x` and `y`. */
  lemma TwoDecimalInputs()
    ensures SplitOn("dx;dy", ';') == ["dx", "dy"]
    ensures PieceInputs(["dx", "dy"], false) == [CommandInput(Decimal, "x"), CommandInput(Decimal, "y")]
  {
    var t := "dx;dy";
    FindFromIs(t, ';', 0, 2);
    assert t[..2] == "dx" && t[3..] == "dy";
    assert FindFrom("dy", ';', 0) == -1;
    var tail := SplitOn("dy", ';');
    assert tail == ["dy"];
    assert SplitOn(t, ';') == [t[..2]] + tail;
  }

  /** The geometry tool's menu describes its first command this way. */
  lemma SplitDescriptionExample()
    ensures SplitDescription("Add Single Point;dx;dy", false)
            == Some(("Add Single Point", [CommandInput(Decimal, "x"), CommandInput(Decimal, "y")]))
  {
    SplitDescriptionOfTwoDecimals("Add Single Point");
    assert "Add Single Point" + ";dx;dy" == "Add Single Point;dx;dy";
  }

  /** The mode an input gets from the character after its `;`. */
  function ModeForPiece(c: char, forcedText: bool): (m: InputMode)
  {
    if forcedText then Text else InputModeFromChar(c)
  }

  /** How far past the `;` the prompt starts: a number mode's letter is skipped. */
  function PromptOffset(m: InputMode): nat
  {
    if m == Invalid || m == Text then 1 else 2
  }

  /** The piece after the `;` at `semi` ends at the next `;` or at the end of the description. */
  function PieceAfter(description: string, semi: nat): string
    requires semi < |description|
  {
    var next := FindFrom(description, ';', semi + 1);
    if next < 0 then description[semi + 1..] else description[semi + 1..next]
  }

  /** One step of the loop: the split of what follows a `;` starts with the piece after it. */
  lemma SplitStepPieces(description: string, semi: nat)
    requires semi < |description| && description[semi] == ';'
    ensures var next := FindFrom(description, ';', semi + 1);
            SplitOn(description[semi + 1..], ';')
            == [PieceAfter(description, semi)] + (if next < 0 then [] else SplitOn(description[next + 1..], ';'))
  {
    var next := FindFrom(description, ';', semi + 1);
    if next >= 0 {
      SplitStepMiddle(description, semi, next);
    } else {
      SplitStepLast(description, semi);
    }
  }

  /** A piece followed by another `;`. */
  lemma SplitStepMiddle(description: string, semi: nat, next: nat)
    requires semi < next < |description|
    requires FindFrom(description, ';', semi + 1) == next
    ensures SplitOn(description[semi + 1..], ';') == [description[semi + 1..next]] + SplitOn(description[next + 1..], ';')
  {
    var rest := description[semi + 1..];
    var k := next - semi - 1;
    FindFromShift(description, ';', semi + 1, 0);
    SplitAtFound(rest, ';', k);
    assert rest[..k] == description[semi + 1..next];
    assert rest[k + 1..] == description[next + 1..];
  }

  /** The last piece, with no `;` after it. */
  lemma SplitStepLast(description: string, semi: nat)
    requires semi < |description|
    requires FindFrom(description, ';', semi + 1) < 0
    ensures SplitOn(description[semi + 1..], ';') == [description[semi + 1..]]
  {
    FindFromShift(description, ';', semi + 1, 0);
    assert FindFrom(description[semi + 1..], ';', 0) == -1;
  }

  /** The piece after a `;` gives the input the loop builds from the indices. */
  lemma SplitStepInput(description: string, semi: nat, forcedText: bool)
    requires semi + 1 < |description| && description[semi] == ';'
    ensures var next := FindFrom(description, ';', semi + 1);
            var mode := ModeForPiece(description[semi + 1], forcedText);
            var start := semi + PromptOffset(mode);
            && (next >= 0 ==> start <= next)
            && PieceInput(PieceAfter(description, semi), forcedText)
               == CommandInput(mode, if next < 0 then description[start..] else description[start..next])
  {
    var next := FindFrom(description, ';', semi + 1);
    var whole := PieceAfter(description, semi);
    if next >= 0 {
      assert whole == description[semi + 1..next];
      if next > semi + 1 {
        assert whole[0] == description[semi + 1];
        assert whole[1..] == description[semi + 2..next];
      }
    } else {
      assert whole == description[semi + 1..];
      assert whole[0] == description[semi + 1];
      assert whole[1..] == description[semi + 2..];
    }
  }

  /** The inputs the loop reads from the `;` at `semi` on, or `None` when `at` throws. */
  function InputsFrom(description: string, semi: nat, forcedText: bool): (r: Option<seq<CommandInput>>)
    requires semi < |description| && description[semi] == ';'
    decreases |description| - semi
  {
    if semi + 1 >= |description| then None
    else
      var input := PieceInput(PieceAfter(description, semi), forcedText);
      var next := FindFrom(description, ';', semi + 1);
      if next < 0 then Some([input])
      else match InputsFrom(description, next, forcedText)
        case None => None
        case Some(rest) => Some([input] + rest)
  }

  lemma PieceInputsCons(piece: string, pieces: seq<string>, forcedText: bool)
    ensures PieceInputs([piece] + pieces, forcedText) == [PieceInput(piece, forcedText)] + PieceInputs(pieces, forcedText)
  {
  }

  /** What the split promises after a `;`: `None` for an empty last piece, else one input per piece. */
  function InputsOfPieces(pieces: seq<string>, forcedText: bool): Option<seq<CommandInput>>
    requires |pieces| >= 1
  {
    if |LastPiece(pieces)| == 0 then None else Some(PieceInputs(pieces, forcedText))
  }

  /** A piece in front of the others puts its input in front of theirs. */
  lemma InputsOfPiecesCons(piece: string, later: seq<string>, forcedText: bool)
    requires |later| >= 1
    ensures InputsOfPieces([piece] + later, forcedText) == Prepend([PieceInput(piece, forcedText)], InputsOfPieces(later, forcedText))
  {
    assert LastPiece([piece] + later) == LastPiece(later);
    PieceInputsCons(piece, later, forcedText);
  }

  /** One level of `InputsFrom` when another `;` follows. */
  lemma InputsFromStep(description: string, semi: nat, forcedText: bool)
    requires semi + 1 < |description| && description[semi] == ';'
    requires FindFrom(description, ';', semi + 1) >= 0
    ensures InputsFrom(description, semi, forcedText)
            == Prepend([PieceInput(PieceAfter(description, semi), forcedText)],
                       InputsFrom(description, FindFrom(description, ';', semi + 1), forcedText))
  {
  }

  /** The loop reads one input per piece after the `;` and throws when the last piece is empty. */
  lemma {:induction false} InputsFromSplits(description: string, semi: nat, forcedText: bool)
    requires semi < |description| && description[semi] == ';'
    ensures InputsFrom(description, semi, forcedText) == InputsOfPieces(SplitOn(description[semi + 1..], ';'), forcedText)
    decreases |description| - semi
  {
    SplitStepPieces(description, semi);
    var next := FindFrom(description, ';', semi + 1);
    if semi + 1 >= |description| {
      assert description[semi + 1..] == [];
    } else if next < 0 {
      var piece := PieceAfter(description, semi);
      assert SplitOn(description[semi + 1..], ';') == [piece];
      assert |piece| > 0;
      assert PieceInputs([piece], forcedText) == [PieceInput(piece, forcedText)];
    } else {
      InputsFromSplits(description, next, forcedText);
      InputsFromStep(description, semi, forcedText);
      InputsOfPiecesCons(PieceAfter(description, semi), SplitOn(description[next + 1..], ';'), forcedText);
    }
  }

  /** `inputs` in front of what is still to be read. */
  function Prepend(inputs: seq<CommandInput>, rest: Option<seq<CommandInput>>): Option<seq<CommandInput>>
  {
    match rest
    case None => None
    case Some(more) => Some(inputs + more)
  }

  /** `SplitDescription` in the loop's terms. */
  lemma SplitDescriptionByInputsFrom(description: string, forcedText: bool)
    requires FindFrom(description, ';', 0) >= 0
    ensures var first := FindFrom(description, ';', 0);
            SplitDescription(description, forcedText)
            == match InputsFrom(description, first, forcedText)
               case None => None
               case Some(inputs) => Some((description[..first], inputs))
  {
    InputsFromSplits(description, FindFrom(description, ';', 0), forcedText);
  }

  lemma PrependTwice(inputs: seq<CommandInput>, input: CommandInput, rest: Option<seq<CommandInput>>)
    ensures Prepend(inputs, Prepend([input], rest)) == Prepend(inputs + [input], rest)
  {
    if rest.Some? {
      assert inputs + ([input] + rest.value) == (inputs + [input]) + rest.value;
    }
  }

  /**
   * One pass of the do-while loop of `SplitDescriptionAmongInputs`: the
   * mode character after the `;`, the start of the prompt, and the input up
   * to the next `;`, whose position is returned.
   */
  method ReadInputAfter(description: string, semiColonLoc: nat, forcedText: bool) returns (input: CommandInput, next: int)
    requires semiColonLoc + 1 < |description| && description[semiColonLoc] == ';'
    ensures next == FindFrom(description, ';', semiColonLoc + 1)
    ensures input == PieceInput(PieceAfter(description, semiColonLoc), forcedText)
  {
    var inputModeCharacter := description[semiColonLoc + 1];
    var newMode := ModeForPiece(inputModeCharacter, forcedText);
    var inputDescriptionStart := semiColonLoc + PromptOffset(newMode);
    SplitStepInput(description, semiColonLoc, forcedText);
    next := FindFrom(description, ';', semiColonLoc + 1);
    if next < 0 {
      input := CommandInput(newMode, description[inputDescriptionStart..]);
    } else {
      input := CommandInput(newMode, description[inputDescriptionStart..next]);
    }
  }

  /**
   * `SplitDescriptionAmongInputs`: the text before the first `;`, then the
   * inputs its do-while loop reads; proved to produce `SplitDescription`.
   */
  method SplitDescriptionAmongInputs(description: string, forcedText: bool) returns (r: Option<(string, seq<CommandInput>)>)
    ensures r == SplitDescription(description, forcedText)
  {
    var firstColonLoc := FindFrom(description, ';', 0);
    if firstColonLoc < 0 {
      return Some((description, []));
    }
    var inputs := ReadInputsFrom(description, firstColonLoc, forcedText);
    SplitDescriptionByInputsFrom(description, forcedText);
    if inputs.None? {
      return None;
    }
    r := Some((description[..firstColonLoc], inputs.value));
  }

  /** The do-while loop over the `;` positions from the first one on: one input per pass. */
  method ReadInputsFrom(description: string, firstColonLoc: nat, forcedText: bool) returns (r: Option<seq<CommandInput>>)
    requires firstColonLoc < |description| && description[firstColonLoc] == ';'
    ensures r == InputsFrom(description, firstColonLoc, forcedText)
  {
    ghost var goal := InputsFrom(description, firstColonLoc, forcedText);
    var semiColonLoc := firstColonLoc;
    var inputs: seq<CommandInput> := [];
    assert goal == Prepend([], goal) by {
      if goal.Some? { assert [] + goal.value == goal.value; }
    }
    while true
      invariant firstColonLoc <= semiColonLoc < |description| && description[semiColonLoc] == ';'
      invariant goal == Prepend(inputs, InputsFrom(description, semiColonLoc, forcedText))
      decreases |description| - semiColonLoc
    {
      if semiColonLoc + 1 >= |description| {
        // `at(semiColonLoc + 1)` throws.
        return None;
      }
      var input, next := ReadInputAfter(description, semiColonLoc, forcedText);
      if next < 0 {
        return Some(inputs + [input]);
      }
      InputsFromStep(description, semiColonLoc, forcedText);
      PrependTwice(inputs, input, InputsFrom(description, next, forcedText));
      inputs := inputs + [input];
      semiColonLoc := next;
    }
  }

  /** The modes a command's inputs can have: three bases, text, or none named. */
  predicate CommandOk(cmd: MenuCommand)
  {
    |cmd.command| <= Int32Max
    && forall i :: 0 <= i < |cmd.inputs| ==> cmd.inputs[i].inputMode in {Hex, Decimal, Binary, Text, Invalid}
  }

  /**
   * The `ConsoleMenuCommandI` constructors: the description is split among
   * the inputs, or the split throws and no command exists. Text and
   * sub-menu commands force text inputs.
   */
  method NewCommand(command: string, description: string, kind: CommandKind) returns (r: Option<MenuCommand>)
    ensures SplitDescription(description, kind.TextArgs? || kind.SubMenuCommand?).None? <==> r.None?
    ensures r.Some? ==> r.value.command == command && r.value.kind == kind
    ensures r.Some? ==> (r.value.description, r.value.inputs) == SplitDescription(description, kind.TextArgs? || kind.SubMenuCommand?).value
    ensures r.Some? && |command| <= Int32Max ==> CommandOk(r.value)
  {
    var split := SplitDescriptionAmongInputs(description, kind.TextArgs? || kind.SubMenuCommand?);
    if split.None? {
      return None;
    }
    r := Some(MenuCommand(command, split.value.0, split.value.1, kind));
    SplitInputsOk(description, kind.TextArgs? || kind.SubMenuCommand?);
  }

  lemma SplitInputsOk(description: string, forcedText: bool)
    requires SplitDescription(description, forcedText).Some?
    ensures var inputs := SplitDescription(description, forcedText).value.1;
            forall i :: 0 <= i < |inputs| ==> inputs[i].inputMode in {Hex, Decimal, Binary, Text, Invalid}
  {
  }

  /**
   * `ConsoleMenuCommandI::Matches`: -1 unless the typed text is a prefix of
   * the command, otherwise how many characters are still missing.
   */
  function MatchValue(command: string, typed: string): int
  {
    if |typed| <= |command| && command[..|typed|] == typed then |command| - |typed| else -1
  }

  /** The three answers of `Matches`: no match, a proper prefix, the whole command. */
  lemma MatchValueMeaning(command: string, typed: string)
    ensures MatchValue(command, typed) == 0 <==> typed == command
    ensures MatchValue(command, typed) > 0 <==> |typed| < |command| && command[..|typed|] == typed
    ensures MatchValue(command, typed) == -1 <==> !(|typed| <= |command| && command[..|typed|] == typed)
    ensures MatchValue(command, typed) >= 0 ==> MatchValue(command, typed) + |typed| == |command|
  {
  }

  /**
   * `Matches` as written: it walks the NUL-terminated typed text, comparing
   * with the command, whose terminating NUL mismatches any typed character.
   */
  method Matches(command: string, input: array<char>, ghost len: nat) returns (r: int32)
    requires |command| <= Int32Max
    requires len < input.Length && input[len] == '\0'
    requires forall i :: 0 <= i < len ==> input[i] != '\0'
    ensures r == MatchValue(command, input[..len])
  {
    var pos := 0;
    var c := input[pos];
    while c != '\0'
      invariant 0 <= pos <= len && c == input[pos]
      invariant pos <= |command| && command[..pos] == input[..pos]
      decreases len - pos
    {
      var expected := if pos < |command| then command[pos] else '\0';
      if c != expected {
        assert input[..len][pos] != (if pos < |command| then command[pos] else '\0');
        return -1;
      }
      assert command[..pos + 1] == command[..pos] + [c];
      assert input[..pos + 1] == input[..pos] + [c];
      pos := pos + 1;
      c := input[pos];
    }
    assert pos == len;
    assert input[..len] == input[..pos];
    r := |command| - pos;
  }

  // ---------------------------------------------------------------------
  // The input buffer and the state machine
  // ---------------------------------------------------------------------

  /** `sizeof(mInputBuffer)`: 512 characters and the terminating NUL. */
  const BufferSize: nat := 513

  const EscapeKey: char := 27 as char
  const BackspaceKey: char := 8 as char

  /** The characters `PutInput` accepts: `'!'` to `'~'`. */
  predicate Printable(c: char)
  {
    '!' <= c <= '~'
  }

  /** A parameter as the command object stores it (`mArgs[pos]`). */
  datatype Arg = NumberArg(value: nat) | TextArg(text: string)

  /**
   * The menu's fields: the mode, the exit-after-command flag, the whole
   * buffer with the cursor, the parameter being typed, the index of the
   * current command, and the parameters stored in the commands, keyed by
   * command index and parameter position.
   */
  datatype MenuState = MenuState(
    mode: InputMode,
    exitAfter: bool,
    buffer: seq<char>,
    pos: nat,
    param: nat,
    current: Option<nat>,
    args: map<(nat, nat), Arg>)

  /** The buffer holds the typed text up to `pos` and a NUL there. */
  predicate BufferOk(s: MenuState)
  {
    |s.buffer| == BufferSize && s.pos < BufferSize && s.buffer[s.pos] == '\0'
    && forall i :: 0 <= i < s.pos ==> Printable(s.buffer[i])
  }

  /** The NUL-terminated text the buffer holds. */
  function Typed(s: MenuState): (typed: string)
    requires BufferOk(s)
    ensures |typed| == s.pos && forall i :: 0 <= i < |typed| ==> Printable(typed[i])
  {
    s.buffer[..s.pos]
  }

  function CommandsOk(cmds: seq<MenuCommand>): bool
  {
    forall i :: 0 <= i < |cmds| ==> CommandOk(cmds[i])
  }

  /**
   * What the menu keeps true between keys: the buffer is well formed, the
   * mode is never `kInvalid`, a current command exists when one is needed,
   * and the parameter being typed is one of the command's, so `mArgs[mCurrentParam - 1]`
   * is in bounds.
   */
  predicate MenuOk(s: MenuState, cmds: seq<MenuCommand>)
  {
    BufferOk(s) && s.mode != Invalid && CommandsOk(cmds)
    && (s.current.Some? ==> s.current.value < |cmds|)
    && ((IsParamMode(s.mode) || s.mode == SubMenu) ==> s.current.Some?)
    && (IsParamMode(s.mode) ==> s.current.Some? && s.current.value < |cmds| && 1 <= s.param <= NumArgs(cmds[s.current.value].kind))
  }

  /** `PutInput`, with the guard corrected to leave room for the terminator. */
  function Put(s: MenuState, c: char): (r: MenuState)
    requires BufferOk(s)
    ensures BufferOk(r)
    ensures Typed(r) == if s.pos < BufferSize - 1 && Printable(c) then Typed(s) + [c] else Typed(s)
  {
    if s.pos < BufferSize - 1 && Printable(c) then
      var r := s.(buffer := s.buffer[s.pos := c][s.pos + 1 := '\0'], pos := s.pos + 1);
      assert r.buffer[..r.pos] == s.buffer[..s.pos] + [c];
      r
    else s
  }

  /**
   * `PutInput` as written guards with `mCurrentPos < sizeof(mInputBuffer)`:
   * at position 512 it stores the character in the last slot and then
   * writes the terminator one past the end of the array (`None`).
   */
  function PutAsWritten(s: MenuState, c: char): (r: Option<MenuState>)
    requires BufferOk(s)
  {
    if s.pos < BufferSize && Printable(c) then
      if s.pos + 1 < |s.buffer| then Some(s.(buffer := s.buffer[s.pos := c][s.pos + 1 := '\0'], pos := s.pos + 1))
      else None
    else Some(s)
  }

  /** Below the last slot the two guards agree. */
  lemma PutAsWrittenAgreesBelowLastSlot(s: MenuState, c: char)
    requires BufferOk(s) && s.pos < BufferSize - 1
    ensures PutAsWritten(s, c) == Some(Put(s, c))
  {
  }

  /** With 512 characters typed, one more printable character makes the written code overrun the buffer. */
  lemma PutAsWrittenOverrunsAtLastSlot(s: MenuState)
    requires BufferOk(s) && s.pos == BufferSize - 1
    ensures PutAsWritten(s, 'a').None?
    ensures Put(s, 'a') == s
  {
  }

  /** `BackspaceLastInput`. */
  function Backspace(s: MenuState): (r: MenuState)
    requires BufferOk(s)
    ensures BufferOk(r)
    ensures Typed(r) == if s.pos > 0 then Typed(s)[..s.pos - 1] else Typed(s)
  {
    if s.pos > 0 then s.(buffer := s.buffer[s.pos - 1 := '\0'], pos := s.pos - 1) else s
  }

  /**
   * `ClearInput` and `StartNewInputOnNewLine`: the cursor goes back to 0 and
   * only the first slot is cleared; the rest of the buffer keeps stale text.
   */
  function Clear(s: MenuState): (r: MenuState)
    requires BufferOk(s)
    ensures BufferOk(r) && Typed(r) == []
    ensures r.buffer[1..] == s.buffer[1..]
  {
    var r := s.(buffer := s.buffer[0 := '\0'], pos := 0);
    assert r.buffer[1..] == s.buffer[1..];
    r
  }

  /** `ConvertModeTo`: a cleared buffer holding only the new number mode's letter, hence numbers are read from index 1. */
  function ConvertMode(s: MenuState, m: InputMode): (r: MenuState)
    requires BufferOk(s)
    ensures BufferOk(r) && r.mode == m
    ensures Typed(r) == if IsNumberMode(m) then [ModeLetter(m)] else []
  {
    var c := Clear(s).(mode := m);
    if IsNumberMode(m) then Put(c, ModeLetter(m)) else c
  }

  /** `StartParamInput`: the next parameter's mode, decimal when the description names none. */
  function StartParam(s: MenuState, cmds: seq<MenuCommand>): (r: MenuState)
    requires BufferOk(s) && s.current.Some? && s.current.value < |cmds|
  {
    var input := GetInput(cmds[s.current.value], s.param);
    ConvertMode(s.(param := s.param + 1), if input.inputMode == Invalid then Decimal else input.inputMode)
  }

  /** `ResetMenu` without its printing: back to command mode, the exit flag cleared. */
  function Reset(s: MenuState): (r: MenuState)
    requires BufferOk(s)
  {
    Clear(s).(mode := Command, exitAfter := false)
  }

  /** `ExecuteCurrentCommand` after the command's own function has run. */
  function ExecuteCurrent(s: MenuState): (r: MenuState)
    requires BufferOk(s)
  {
    if s.exitAfter then s.(mode := ForceExit) else Reset(s)
  }

  /**
   * `CommitCurrentCommandParam`: prompt for the next parameter, or act on
   * the command's validation of the completed set (`validation` is what the
   * command's validate function answers).
   */
  function Commit(s: MenuState, cmds: seq<MenuCommand>, validation: ValidateResponse): (r: MenuState)
    requires BufferOk(s) && s.current.Some? && s.current.value < |cmds|
  {
    var s1 := Clear(s);
    if NumArgs(cmds[s.current.value].kind) > s1.param then StartParam(s1, cmds)
    else Finish(s1, cmds, validation)
  }

  /** All parameters are in: run the command, prompt for them again, or leave the menu. */
  function Finish(s: MenuState, cmds: seq<MenuCommand>, validation: ValidateResponse): (r: MenuState)
    requires BufferOk(s) && s.current.Some? && s.current.value < |cmds|
  {
    match validation
    case Ok => ExecuteCurrent(s)
    case TryAgain => StartParam(s.(param := 0), cmds)
    case ExitMenu => s.(mode := ForceExit)
  }

  /** `SetArg(mCurrentParam - 1, …)`: stored only by a command of the matching kind; the base class ignores it. */
  function WithArg(s: MenuState, cmds: seq<MenuCommand>, arg: Arg): (r: MenuState)
    requires s.current.Some? && s.current.value < |cmds| && s.param >= 1
  {
    var k := s.current.value;
    if (cmds[k].kind.NumberArgs? && arg.NumberArg?) || (cmds[k].kind.TextArgs? && arg.TextArg?)
    then s.(args := s.args[(k, s.param - 1) := arg])
    else s
  }

  /** The characters `ReceiveNumberInput` accepts in each number mode. */
  predicate IsDigitOf(c: char, m: InputMode)
  {
    match m
    case Binary => c == '0' || c == '1'
    case Decimal => '0' <= c <= '9'
    case Hex => '0' <= c <= '9' || 'a' <= c <= 'f'
    case _ => false
  }

  function DigitValue(c: char): (v: nat)
    requires '0' <= c <= '9' || 'a' <= c <= 'f'
  {
    if c <= '9' then c as int - '0' as int else c as int - 'a' as int + 10
  }

  /** A digit of a mode is below that mode's base. */
  lemma DigitBelowBase(c: char, m: InputMode)
    requires IsDigitOf(c, m)
    ensures DigitValue(c) < BaseOfMode(m)
  {
  }

  /** The length of the run of `m`-digits starting at index `i`. */
  function DigitRun(s: seq<char>, i: nat, m: InputMode): (n: nat)
    requires i <= |s|
    ensures i + n <= |s|
    ensures forall j :: i <= j < i + n ==> IsDigitOf(s[j], m)
    ensures i + n == |s| || !IsDigitOf(s[i + n], m)
    decreases |s| - i
  {
    if i < |s| && IsDigitOf(s[i], m) then 1 + DigitRun(s, i + 1, m) else 0
  }

  predicate AllDigits(s: seq<char>, m: InputMode)
  {
    forall j :: 0 <= j < |s| ==> IsDigitOf(s[j], m)
  }

  /** The value of the digits, most significant first, in the base of `m`. */
  function DigitsValue(s: seq<char>, m: InputMode): nat
    requires AllDigits(s, m)
  {
    if |s| == 0 then 0 else DigitsValue(s[..|s| - 1], m) * BaseOfMode(m) + DigitValue(s[|s| - 1])
  }

  function Power(b: nat, e: nat): nat
  {
    if e == 0 then 1 else b * Power(b, e - 1)
  }

  /** `k` digits in base `b` stay below `b^k`. */
  lemma {:induction false} DigitsValueBound(s: seq<char>, m: InputMode)
    requires AllDigits(s, m)
    ensures DigitsValue(s, m) < Power(BaseOfMode(m), |s|)
    decreases |s|
  {
    if |s| > 0 {
      var b := BaseOfMode(m);
      var init := s[..|s| - 1];
      DigitsValueBound(init, m);
      DigitBelowBase(s[|s| - 1], m);
      var v := DigitsValue(init, m);
      assert v + 1 <= Power(b, |init|);
      assert DigitsValue(s, m) == v * b + DigitValue(s[|s| - 1]);
      assert v * b + DigitValue(s[|s| - 1]) < v * b + b == (v + 1) * b;
      assert (v + 1) * b <= Power(b, |init|) * b;
    }
  }

  const UInt64Max: nat := 0xFFFF_FFFF_FFFF_FFFF

  /**
   * `strtoull(mInputBuffer + 1, nullptr, base)`: the run of the mode's
   * digits starting after the mode letter, saturating at `ULLONG_MAX`. The
   * casts through `int64_t` back to `uint64_t` keep the value.
   */
  function ParsedNumber(buffer: seq<char>, m: InputMode): (v: nat)
    requires 1 <= |buffer|
    ensures v <= UInt64Max
  {
    var digits := buffer[1..1 + DigitRun(buffer, 1, m)];
    assert AllDigits(digits, m) by {
      forall j | 0 <= j < |digits| ensures IsDigitOf(digits[j], m) {
        assert digits[j] == buffer[1 + j];
      }
    }
    var d := DigitsValue(digits, m);
    if d > UInt64Max then UInt64Max else d
  }

  /** `ReceiveNumberInput`: a space or a line end submits the number, a digit of the mode is typed, anything else is ignored. */
  function NumberInput(s: MenuState, c: char, cmds: seq<MenuCommand>, validation: ValidateResponse): (r: MenuState)
    requires MenuOk(s, cmds) && IsNumberMode(s.mode)
  {
    if c == ' ' || c == '\n' || c == '\r' then
      Commit(WithArg(s, cmds, NumberArg(ParsedNumber(s.buffer, s.mode))), cmds, validation)
    else if IsDigitOf(c, s.mode) then Put(s, c)
    else s
  }

  /** `ReceiveTextInput`: a line end submits the typed text, anything else is typed. */
  function TextInput(s: MenuState, c: char, cmds: seq<MenuCommand>, validation: ValidateResponse): (r: MenuState)
    requires MenuOk(s, cmds) && s.mode == Text
  {
    if c == '\n' || c == '\r' then Commit(WithArg(s, cmds, TextArg(Typed(s))), cmds, validation)
    else Put(s, c)
  }

  /** The first command the typed text names in full, or `|cmds|`. */
  function FirstExact(cmds: seq<MenuCommand>, typed: string, from: nat): (k: nat)
    requires from <= |cmds|
    ensures from <= k <= |cmds|
    ensures k < |cmds| ==> MatchValue(cmds[k].command, typed) == 0
    ensures forall j :: from <= j < k ==> MatchValue(cmds[j].command, typed) != 0
    decreases |cmds| - from
  {
    if from == |cmds| then from
    else if MatchValue(cmds[from].command, typed) == 0 then from
    else FirstExact(cmds, typed, from + 1)
  }

  /** Some command still extends the typed text. */
  predicate AnyPartial(cmds: seq<MenuCommand>, typed: string)
  {
    exists i :: 0 <= i < |cmds| && MatchValue(cmds[i].command, typed) > 0
  }

  /** What `EvaluateCommandInput` does once command `k` is named in full. */
  function Selected(s: MenuState, cmds: seq<MenuCommand>, k: nat): (r: MenuState)
    requires BufferOk(s) && k < |cmds|
  {
    var s1 := Clear(s.(current := Some(k)));
    if cmds[k].kind.SubMenuCommand? then Clear(s1.(mode := SubMenu))
    else if NumArgs(cmds[k].kind) > 0 then StartParam(s1.(param := 0), cmds)
    else ExecuteCurrent(s1)
  }

  /** `EvaluateCommandInput`: run the first fully typed command; with no command left to complete, clear the text. */
  function Evaluate(s: MenuState, cmds: seq<MenuCommand>): (r: MenuState)
    requires BufferOk(s)
  {
    var k := FirstExact(cmds, Typed(s), 0);
    if k < |cmds| then Selected(s, cmds, k)
    else if AnyPartial(cmds, Typed(s)) then s
    else Clear(s)
  }

  /** The lowercasing `ReceiveInput` applies first (`c > 64 && c < 91`). */
  function Lowercase(c: char): (l: char)
    ensures 'A' <= c <= 'Z' ==> l as int == c as int + 32 && 'a' <= l <= 'z'
    ensures !('A' <= c <= 'Z') ==> l == c
  {
    if 'A' <= c <= 'Z' then (c as int + 32) as char else c
  }

  /**
   * Escape in decimal mode with text typed, as written: the buffer is
   * cleared and a `d` is only echoed to the screen, so the buffer no longer
   * starts with the mode letter that parsing skips.
   */
  function EscapeDecimalAsWritten(s: MenuState): (r: MenuState)
    requires BufferOk(s)
  {
    Clear(s)
  }

  /** The same escape with the letter put back into the buffer, as the echoed `d` shows. */
  function EscapeDecimal(s: MenuState): (r: MenuState)
    requires BufferOk(s)
  {
    ConvertMode(s, Decimal)
  }

  /** The state after a key and whether the menu keeps running. */
  function Continue(s: MenuState): (r: (MenuState, bool))
  {
    (s, s.mode != ForceExit)
  }

  /**
   * Escape first clears, then backs out: leave a hex or binary prompt for
   * decimal, clear typed text, or leave the command (or the menu). With the
   * decimal escape corrected, a decimal prompt holding only its letter
   * counts as cleared and backs out, as the empty line does as written.
   */
  function Escape(s: MenuState): (r: (MenuState, bool))
    requires BufferOk(s)
  {
    if s.mode == Hex || s.mode == Binary then Continue(ConvertMode(s, Decimal))
    else if s.mode == Decimal && s.pos == 1 then Continue(Reset(s))
    else if s.pos > 0 then
      if s.mode == Decimal then Continue(EscapeDecimal(s))
      else if s.mode == Text then Continue(Clear(s))
      else Continue(s)
    else if s.mode != Command then Continue(Reset(s))
    else (s, false)
  }

  /** A key typed while choosing a command: `x` on an empty line leaves, anything else is matched. */
  function CommandKey(s: MenuState, c: char, cmds: seq<MenuCommand>): (r: (MenuState, bool))
    requires BufferOk(s)
  {
    if s.pos == 0 && c == 'x' then (s, false)
    else Continue(Evaluate(Put(s, c), cmds))
  }

  /** A key typed while entering a parameter: a mode letter at a decimal prompt switches the base. */
  function ParamKey(s: MenuState, c: char, cmds: seq<MenuCommand>, validation: ValidateResponse): (r: MenuState)
    requires MenuOk(s, cmds) && IsParamMode(s.mode)
  {
    if s.mode == Text then TextInput(s, c, cmds, validation)
    else if s.mode == Decimal && InputModeFromChar(c) != Invalid then ConvertMode(s, InputModeFromChar(c))
    else NumberInput(s, c, cmds, validation)
  }

  /**
   * `ReceiveInput` for every mode but `kForceExit` (after which the menu has
   * stopped). In a sub-menu the key goes to the sub-menu, whose answer is
   * `subMenuKeeps`: when it stops, this menu resets; either way it runs on.
   */
  function Receive(s: MenuState, key: char, cmds: seq<MenuCommand>, validation: ValidateResponse, subMenuKeeps: bool): (r: (MenuState, bool))
    requires MenuOk(s, cmds) && s.mode != ForceExit
  {
    var c := Lowercase(key);
    if s.mode == SubMenu then (if subMenuKeeps then s else Reset(s), true)
    else if c == BackspaceKey then Continue(Backspace(s))
    else if c == EscapeKey then Escape(s)
    else if s.mode == Command then CommandKey(s, c, cmds)
    else Continue(ParamKey(s, c, cmds, validation))
  }

  // ---------------------------------------------------------------------
  // What the state machine keeps true
  // ---------------------------------------------------------------------

  lemma StartParamOk(s: MenuState, cmds: seq<MenuCommand>)
    requires BufferOk(s) && CommandsOk(cmds) && s.current.Some? && s.current.value < |cmds|
    requires s.param < NumArgs(cmds[s.current.value].kind)
    ensures MenuOk(StartParam(s, cmds), cmds)
  {
    var input := GetInput(cmds[s.current.value], s.param);
    assert CommandOk(cmds[s.current.value]);
    assert input.inputMode in {Hex, Decimal, Binary, Text, Invalid};
  }

  lemma CommitOk(s: MenuState, cmds: seq<MenuCommand>, validation: ValidateResponse)
    requires BufferOk(s) && CommandsOk(cmds) && s.current.Some? && s.current.value < |cmds|
    requires 1 <= s.param <= NumArgs(cmds[s.current.value].kind)
    ensures MenuOk(Commit(s, cmds, validation), cmds)
  {
    var s1 := Clear(s);
    if NumArgs(cmds[s.current.value].kind) > s1.param {
      StartParamOk(s1, cmds);
    } else if validation == TryAgain {
      StartParamOk(s1.(param := 0), cmds);
    }
  }

  lemma EvaluateOk(s: MenuState, cmds: seq<MenuCommand>)
    requires MenuOk(s, cmds) && s.mode == Command
    ensures MenuOk(Evaluate(s, cmds), cmds)
  {
    var k := FirstExact(cmds, Typed(s), 0);
    if k < |cmds| {
      var s1 := Clear(s.(current := Some(k)));
      if !cmds[k].kind.SubMenuCommand? && NumArgs(cmds[k].kind) > 0 {
        StartParamOk(s1.(param := 0), cmds);
      }
    }
  }

  lemma EscapeOk(s: MenuState, cmds: seq<MenuCommand>)
    requires MenuOk(s, cmds)
    ensures MenuOk(Escape(s).0, cmds)
  {
  }

  lemma CommandKeyOk(s: MenuState, c: char, cmds: seq<MenuCommand>)
    requires MenuOk(s, cmds) && s.mode == Command
    ensures MenuOk(CommandKey(s, c, cmds).0, cmds)
  {
    if !(s.pos == 0 && c == 'x') {
      EvaluateOk(Put(s, c), cmds);
    }
  }

  lemma ParamKeyOk(s: MenuState, c: char, cmds: seq<MenuCommand>, validation: ValidateResponse)
    requires MenuOk(s, cmds) && IsParamMode(s.mode)
    ensures MenuOk(ParamKey(s, c, cmds, validation), cmds)
  {
    if s.mode == Text {
      if c == '\n' || c == '\r' {
        CommitOk(WithArg(s, cmds, TextArg(Typed(s))), cmds, validation);
      }
    } else if s.mode == Decimal && InputModeFromChar(c) != Invalid {
    } else if c == ' ' || c == '\n' || c == '\r' {
      CommitOk(WithArg(s, cmds, NumberArg(ParsedNumber(s.buffer, s.mode))), cmds, validation);
    }
  }

  /** Every key keeps the menu's invariant. */
  lemma ReceiveKeepsMenuOk(s: MenuState, key: char, cmds: seq<MenuCommand>, validation: ValidateResponse, subMenuKeeps: bool)
    requires MenuOk(s, cmds) && s.mode != ForceExit
    ensures MenuOk(Receive(s, key, cmds, validation, subMenuKeeps).0, cmds)
  {
    var c := Lowercase(key);
    if s.mode == SubMenu {
    } else if c == BackspaceKey {
    } else if c == EscapeKey {
      EscapeOk(s, cmds);
    } else if s.mode == Command {
      CommandKeyOk(s, c, cmds);
    } else {
      ParamKeyOk(s, c, cmds, validation);
    }
  }

  /**
   * In a number mode the text after index 0 holds only the mode's digits,
   * and when nothing is typed the slot after index 0 is free: what
   * `strtoull(mInputBuffer + 1, …)` reads is then exactly what was typed
   * after the mode letter.
   */
  predicate NumberBufferOk(s: MenuState)
    requires BufferOk(s)
  {
    IsNumberMode(s.mode) ==>
      (forall i :: 1 <= i < s.pos ==> IsDigitOf(s.buffer[i], s.mode))
      && (s.pos == 0 ==> s.buffer[1] == '\0')
  }

  /** With the number buffer in shape, the submitted number is the typed text after its first character. */
  lemma ParsedIsTypedNumber(s: MenuState)
    requires BufferOk(s) && NumberBufferOk(s) && IsNumberMode(s.mode)
    ensures var digits := if s.pos <= 1 then [] else Typed(s)[1..];
            AllDigits(digits, s.mode)
            && ParsedNumber(s.buffer, s.mode) == (if DigitsValue(digits, s.mode) > UInt64Max then UInt64Max else DigitsValue(digits, s.mode))
  {
    var n := DigitRun(s.buffer, 1, s.mode);
    var end := if s.pos <= 1 then 1 else s.pos;
    assert !IsDigitOf(s.buffer[end], s.mode);
    assert 1 + n == end;
    var digits := if s.pos <= 1 then [] else Typed(s)[1..];
    assert s.buffer[1..1 + n] == digits;
  }

  lemma ConvertModeKeepsNumberBuffer(s: MenuState, m: InputMode)
    requires BufferOk(s)
    ensures NumberBufferOk(ConvertMode(s, m))
  {
  }

  lemma StartParamKeepsNumberBuffer(s: MenuState, cmds: seq<MenuCommand>)
    requires BufferOk(s) && s.current.Some? && s.current.value < |cmds|
    ensures NumberBufferOk(StartParam(s, cmds))
  {
    var input := GetInput(cmds[s.current.value], s.param);
    ConvertModeKeepsNumberBuffer(s.(param := s.param + 1), if input.inputMode == Invalid then Decimal else input.inputMode);
  }

  lemma CommitKeepsNumberBuffer(s: MenuState, cmds: seq<MenuCommand>, validation: ValidateResponse)
    requires BufferOk(s) && s.current.Some? && s.current.value < |cmds|
    ensures NumberBufferOk(Commit(s, cmds, validation))
  {
    var s1 := Clear(s);
    if NumArgs(cmds[s.current.value].kind) > s1.param {
      StartParamKeepsNumberBuffer(s1, cmds);
    } else if validation == TryAgain {
      StartParamKeepsNumberBuffer(s1.(param := 0), cmds);
    }
  }

  lemma EvaluateKeepsNumberBuffer(s: MenuState, cmds: seq<MenuCommand>)
    requires BufferOk(s) && s.mode == Command
    ensures NumberBufferOk(Evaluate(s, cmds))
  {
    var k := FirstExact(cmds, Typed(s), 0);
    if k < |cmds| {
      var s1 := Clear(s.(current := Some(k)));
      if !cmds[k].kind.SubMenuCommand? && NumArgs(cmds[k].kind) > 0 {
        StartParamKeepsNumberBuffer(s1.(param := 0), cmds);
      }
    }
  }

  lemma NumberKeyKeepsNumberBuffer(s: MenuState, c: char)
    requires BufferOk(s) && NumberBufferOk(s) && IsNumberMode(s.mode) && IsDigitOf(c, s.mode)
    ensures NumberBufferOk(Put(s, c))
  {
    var r := Put(s, c);
    if s.pos < BufferSize - 1 {
      assert r.buffer == s.buffer[s.pos := c][s.pos + 1 := '\0'];
      forall i | 1 <= i < r.pos ensures IsDigitOf(r.buffer[i], r.mode) {
        if i < s.pos {
          assert r.buffer[i] == s.buffer[i];
        }
      }
    }
  }

  lemma BackspaceKeepsNumberBuffer(s: MenuState)
    requires BufferOk(s) && NumberBufferOk(s)
    ensures NumberBufferOk(Backspace(s))
  {
  }

  lemma EscapeKeepsNumberBuffer(s: MenuState)
    requires BufferOk(s) && NumberBufferOk(s)
    ensures NumberBufferOk(Escape(s).0)
  {
    if s.mode == Hex || s.mode == Binary || (s.pos > 1 && s.mode == Decimal) {
      ConvertModeKeepsNumberBuffer(s, Decimal);
    }
  }

  /**
   * Escape backs out of every parameter prompt: at most two escapes bring
   * the menu back to choosing a command, and it keeps running meanwhile.
   */
  lemma EscapeBacksOut(s: MenuState)
    requires BufferOk(s) && IsParamMode(s.mode)
    ensures var (e, running) := Escape(s);
            running && BufferOk(e)
            && (e.mode == Command || (Escape(e).1 && Escape(e).0.mode == Command))
  {
    var (e, running) := Escape(s);
    if s.mode == Hex || s.mode == Binary || (s.mode == Decimal && s.pos > 1) {
      assert e == ConvertMode(s, Decimal) && e.pos == |Typed(e)| == 1;
    } else if s.mode == Text && s.pos > 0 {
      assert e == Clear(s) && e.pos == |Typed(e)| == 0;
    }
  }

  lemma CommandKeyKeepsNumberBuffer(s: MenuState, c: char, cmds: seq<MenuCommand>)
    requires BufferOk(s) && NumberBufferOk(s) && s.mode == Command
    ensures NumberBufferOk(CommandKey(s, c, cmds).0)
  {
    if !(s.pos == 0 && c == 'x') {
      EvaluateKeepsNumberBuffer(Put(s, c), cmds);
    }
  }

  lemma ParamKeyKeepsNumberBuffer(s: MenuState, c: char, cmds: seq<MenuCommand>, validation: ValidateResponse)
    requires MenuOk(s, cmds) && NumberBufferOk(s) && IsParamMode(s.mode)
    ensures NumberBufferOk(ParamKey(s, c, cmds, validation))
  {
    ParamKeyOk(s, c, cmds, validation);
    if s.mode == Text {
      if c == '\n' || c == '\r' {
        CommitKeepsNumberBuffer(WithArg(s, cmds, TextArg(Typed(s))), cmds, validation);
      }
    } else if s.mode == Decimal && InputModeFromChar(c) != Invalid {
      ConvertModeKeepsNumberBuffer(s, InputModeFromChar(c));
    } else if c == ' ' || c == '\n' || c == '\r' {
      CommitKeepsNumberBuffer(WithArg(s, cmds, NumberArg(ParsedNumber(s.buffer, s.mode))), cmds, validation);
    } else if IsDigitOf(c, s.mode) {
      NumberKeyKeepsNumberBuffer(s, c);
    }
  }

  /** Every key keeps the number buffer in shape, so every submitted number is what was typed. */
  lemma ReceiveKeepsNumberBuffer(s: MenuState, key: char, cmds: seq<MenuCommand>, validation: ValidateResponse, subMenuKeeps: bool)
    requires MenuOk(s, cmds) && NumberBufferOk(s) && s.mode != ForceExit
    ensures MenuOk(Receive(s, key, cmds, validation, subMenuKeeps).0, cmds)
    ensures NumberBufferOk(Receive(s, key, cmds, validation, subMenuKeeps).0)
  {
    ReceiveKeepsMenuOk(s, key, cmds, validation, subMenuKeeps);
    var c := Lowercase(key);
    if s.mode == SubMenu {
    } else if c == BackspaceKey {
      BackspaceKeepsNumberBuffer(s);
    } else if c == EscapeKey {
      EscapeKeepsNumberBuffer(s);
    } else if s.mode == Command {
      CommandKeyKeepsNumberBuffer(s, c, cmds);
    } else {
      ParamKeyKeepsNumberBuffer(s, c, cmds, validation);
    }
  }

  /** A decimal prompt with `5` typed after its letter. */
  function DecimalFiveTyped(): (s: MenuState)
    ensures BufferOk(s) && s.mode == Decimal && Typed(s) == "d5"
  {
    var s := MenuState(Decimal, false, "d5" + seq(BufferSize - 2, i => '\0'), 2, 1, Some(0), map[]);
    assert s.buffer[..2] == "d5";
    s
  }

  /** As written, Escape then `7` submits 0: the `7` sits in slot 0, which parsing skips. */
  lemma EscapeAsWrittenDropsFirstDigit()
    ensures var r := Put(EscapeDecimalAsWritten(DecimalFiveTyped()), '7');
            Typed(r) == "7" && ParsedNumber(r.buffer, Decimal) == 0
    ensures !NumberBufferOk(EscapeDecimalAsWritten(DecimalFiveTyped()))
  {
    var s := DecimalFiveTyped();
    var e := EscapeDecimalAsWritten(s);
    assert e.buffer[1] == '5';
    var r := Put(e, '7');
    assert r.buffer[1] == '\0';
    assert DigitRun(r.buffer, 1, Decimal) == 0;
    assert r.buffer[1..1] == [];
  }

  /** Corrected, Escape then `7` submits 7. */
  lemma EscapeDecimalKeepsFirstDigit()
    ensures var r := Put(EscapeDecimal(DecimalFiveTyped()), '7');
            Typed(r) == "d7" && ParsedNumber(r.buffer, Decimal) == 7
  {
    var s := DecimalFiveTyped();
    var r := Put(EscapeDecimal(s), '7');
    assert r.buffer[1] == '7' && r.buffer[2] == '\0';
    assert DigitRun(r.buffer, 3, Decimal) == 0 by {
      assert r.buffer[3] == '\0';
    }
    assert DigitRun(r.buffer, 2, Decimal) == 0;
    assert DigitRun(r.buffer, 1, Decimal) == 1;
    assert r.buffer[1..2] == "7";
    assert DigitsValue("7", Decimal) == 7 by {
      assert "7"[..0] == [];
    }
  }

  // ---------------------------------------------------------------------
  // The menu object
  // ---------------------------------------------------------------------

  class ConsoleMenu {
    var inputMode: InputMode
    var exitAfterCommandExecution: bool
    var commands: seq<MenuCommand>
    var description: string
    const inputBuffer: array<char>
    var currentPos: nat
    var currentParam: nat
    var currentCommand: Option<nat>
    /** The parameters the command objects hold, by command index and position. */
    var args: map<(nat, nat), Arg>

    ghost function State(): MenuState
      reads this, inputBuffer
    {
      MenuState(inputMode, exitAfterCommandExecution, inputBuffer[..], currentPos, currentParam, currentCommand, args)
    }

    /** The buffer is well formed: what the buffer operations need and keep. */
    ghost predicate Ready()
      reads this, inputBuffer
    {
      inputBuffer.Length == BufferSize && BufferOk(State())
    }

    /** The menu's invariant between keys. */
    ghost predicate Valid()
      reads this, inputBuffer
    {
      inputBuffer.Length == BufferSize && MenuOk(State(), commands)
    }

    /** The constructor: command mode, an empty buffer, no commands. The slots after the first are zero here. */
    constructor (description: string)
      ensures Valid() && fresh(inputBuffer)
      ensures this.description == description && commands == []
      ensures inputMode == Command && !exitAfterCommandExecution
      ensures currentPos == 0 && currentParam == 0 && currentCommand == None && args == map[]
    {
      this.description := description;
      inputMode := Command;
      exitAfterCommandExecution := false;
      commands := [];
      inputBuffer := new char[BufferSize](_ => '\0');
      currentPos := 0;
      currentParam := 0;
      currentCommand := None;
      args := map[];
    }

    /** `AddCommand` and `AddSubmenu`: the command joins the end of the list. */
    method AddCommand(cmd: MenuCommand)
      requires Valid() && CommandOk(cmd)
      modifies `commands
      ensures Valid() && commands == old(commands) + [cmd]
    {
      commands := commands + [cmd];
    }

    method PutInput(c: char)
      requires Ready()
      modifies `currentPos, inputBuffer
      ensures Ready() && State() == Put(old(State()), c)
    {
      if currentPos < BufferSize - 1 && Printable(c) {
        inputBuffer[currentPos] := c;
        currentPos := currentPos + 1;
        inputBuffer[currentPos] := '\0';
      }
    }

    method BackspaceLastInput()
      requires Ready()
      modifies `currentPos, inputBuffer
      ensures Ready() && State() == Backspace(old(State()))
    {
      if currentPos > 0 {
        currentPos := currentPos - 1;
        inputBuffer[currentPos] := '\0';
      }
    }

    method ClearInput()
      requires Ready()
      modifies `currentPos, inputBuffer
      ensures Ready() && State() == Clear(old(State()))
    {
      while currentPos > 0
        invariant currentPos <= old(currentPos)
        invariant inputBuffer[..] == old(inputBuffer[..])
      {
        currentPos := currentPos - 1;
      }
      inputBuffer[0] := '\0';
    }

    method StartNewInputOnNewLine()
      requires Ready()
      modifies `currentPos, inputBuffer
      ensures Ready() && State() == Clear(old(State()))
    {
      inputBuffer[0] := '\0';
      currentPos := 0;
    }

    method ConvertModeTo(mode: InputMode)
      requires Ready()
      modifies `currentPos, `inputMode, inputBuffer
      ensures Ready() && State() == ConvertMode(old(State()), mode)
    {
      ClearInput();
      inputMode := mode;
      if IsNumberMode(mode) {
        PutInput(ModeLetter(mode));
      }
    }

    method StartParamInput()
      requires Ready() && currentCommand.Some? && currentCommand.value < |commands|
      modifies `currentPos, `inputMode, `currentParam, inputBuffer
      ensures Ready() && State() == StartParam(old(State()), commands)
    {
      ghost var before := State();
      var input := GetInput(commands[currentCommand.value], currentParam);
      var mode := if input.inputMode == Invalid then Decimal else input.inputMode;
      ghost var counted := before.(param := before.param + 1);
      ghost var after := ConvertMode(counted, mode);
      assert StartParam(before, commands) == after;
      currentParam := currentParam + 1;
      assert State() == counted;
      ConvertModeTo(mode);
      assert State() == after;
    }

    method ResetMenu()
      requires Ready()
      modifies `currentPos, `inputMode, `exitAfterCommandExecution, inputBuffer
      ensures Ready() && State() == Reset(old(State()))
    {
      ClearInput();
      inputMode := Command;
      exitAfterCommandExecution := false;
    }

    method ExecuteCurrentCommand()
      requires Ready()
      modifies `currentPos, `inputMode, `exitAfterCommandExecution, inputBuffer
      ensures Ready() && State() == ExecuteCurrent(old(State()))
    {
      if exitAfterCommandExecution {
        inputMode := ForceExit;
      } else {
        ResetMenu();
      }
    }

    method CommitCurrentCommandParam(validation: ValidateResponse)
      requires Valid() && currentCommand.Some?
      requires 1 <= currentParam <= NumArgs(commands[currentCommand.value].kind)
      modifies `currentPos, `inputMode, `exitAfterCommandExecution, `currentParam, inputBuffer
      ensures Valid() && State() == Commit(old(State()), commands, validation)
    {
      CommitOk(State(), commands, validation);
      StartNewInputOnNewLine();
      if NumArgs(commands[currentCommand.value].kind) > currentParam {
        StartParamInput();
      } else {
        FinishCommand(validation);
      }
    }

    /** The branch of `CommitCurrentCommandParam` taken after the last parameter. */
    method FinishCommand(validation: ValidateResponse)
      requires Ready() && currentCommand.Some? && currentCommand.value < |commands|
      modifies `currentPos, `inputMode, `exitAfterCommandExecution, `currentParam, inputBuffer
      ensures Ready() && State() == Finish(old(State()), commands, validation)
    {
      match validation
      case Ok =>
        ExecuteCurrentCommand();
      case TryAgain =>
        currentParam := 0;
        StartParamInput();
      case ExitMenu =>
        inputMode := ForceExit;
    }

    /** `SetArg(mCurrentParam - 1, …)` on the current command. */
    method SetArg(arg: Arg)
      requires Valid() && currentCommand.Some? && currentParam >= 1
      modifies `args
      ensures Valid() && State() == WithArg(old(State()), commands, arg)
    {
      var k := currentCommand.value;
      if (commands[k].kind.NumberArgs? && arg.NumberArg?) || (commands[k].kind.TextArgs? && arg.TextArg?) {
        args := args[(k, currentParam - 1) := arg];
      }
    }

    method ReceiveNumberInput(c: char, validation: ValidateResponse)
      requires Valid() && IsNumberMode(inputMode)
      modifies `currentPos, `inputMode, `exitAfterCommandExecution, `currentParam, `args, inputBuffer
      ensures Valid() && State() == NumberInput(old(State()), c, commands, validation)
    {
      if c == ' ' || c == '\n' || c == '\r' {
        var val := ParsedNumber(inputBuffer[..], inputMode);
        SetArg(NumberArg(val));
        CommitCurrentCommandParam(validation);
      } else if IsDigitOf(c, inputMode) {
        PutInput(c);
      }
    }

    method ReceiveTextInput(c: char, validation: ValidateResponse)
      requires Valid() && inputMode == Text
      modifies `currentPos, `inputMode, `exitAfterCommandExecution, `currentParam, `args, inputBuffer
      ensures Valid() && State() == TextInput(old(State()), c, commands, validation)
    {
      if c == '\n' || c == '\r' {
        SetArg(TextArg(inputBuffer[..currentPos]));
        CommitCurrentCommandParam(validation);
      } else {
        PutInput(c);
      }
    }

    /** The steps `EvaluateCommandInput` takes for the command at index `k` it found typed in full. */
    method SelectCommand(k: nat)
      requires Ready() && k < |commands|
      modifies `currentPos, `inputMode, `exitAfterCommandExecution, `currentParam, `currentCommand, inputBuffer
      ensures Ready() && State() == Selected(old(State()), commands, k)
    {
      currentCommand := Some(k);
      StartNewInputOnNewLine();
      if commands[k].kind.SubMenuCommand? {
        inputMode := SubMenu;
        ClearInput();
      } else if NumArgs(commands[k].kind) > 0 {
        currentParam := 0;
        StartParamInput();
      } else {
        ExecuteCurrentCommand();
      }
    }

    method EvaluateCommandInput()
      requires Valid() && inputMode == Command
      modifies `currentPos, `inputMode, `exitAfterCommandExecution, `currentParam, `currentCommand, inputBuffer
      ensures Valid() && State() == Evaluate(old(State()), commands)
    {
      EvaluateOk(State(), commands);
      var i, partialMatches := MatchCommands();
      if i < |commands| {
        SelectCommand(i);
      } else if partialMatches == 0 {
        ClearInput();
      }
    }

    /**
     * The loop of `EvaluateCommandInput`: the first command typed in full,
     * or `|commands|` with the number of commands that extend the typed text.
     */
    method MatchCommands() returns (i: nat, partialMatches: nat)
      requires Ready() && CommandsOk(commands)
      ensures i == FirstExact(commands, Typed(State()), 0)
      ensures i == |commands| ==> (partialMatches > 0 <==> AnyPartial(commands, Typed(State())))
    {
      ghost var typed := Typed(State());
      partialMatches := 0;
      i := 0;
      while i < |commands|
        invariant 0 <= i <= |commands|
        invariant forall j :: 0 <= j < i ==> MatchValue(commands[j].command, typed) != 0
        invariant partialMatches > 0 <==> exists j :: 0 <= j < i && MatchValue(commands[j].command, typed) > 0
      {
        assert CommandOk(commands[i]);
        var matchResults := Matches(commands[i].command, inputBuffer, currentPos);
        assert inputBuffer[..currentPos] == typed;
        if matchResults == 0 {
          assert FirstExact(commands, typed, 0) == i;
          return;
        } else if matchResults > 0 {
          partialMatches := partialMatches + 1;
        }
        i := i + 1;
      }
      assert FirstExact(commands, typed, 0) == |commands|;
    }

    method ReceiveCommandInput(c: char)
      requires Valid() && inputMode == Command
      modifies `currentPos, `inputMode, `exitAfterCommandExecution, `currentParam, `currentCommand, inputBuffer
      ensures Valid() && State() == Evaluate(Put(old(State()), c), commands)
    {
      PutInput(c);
      EvaluateCommandInput();
    }

    /**
     * `ReceiveInput` for one key, with the decimal-mode escape corrected;
     * `validation` is what the current command's validate function answers
     * should the key complete its parameters, and `subMenuKeeps` what the
     * current sub-menu's `ReceiveInput` answers when the key goes to it.
     */
    method ReceiveInput(key: char, validation: ValidateResponse, subMenuKeeps: bool) returns (keepRunning: bool)
      requires Valid() && inputMode != ForceExit
      modifies `currentPos, `inputMode, `exitAfterCommandExecution, `currentParam, `currentCommand, `args, inputBuffer
      ensures Valid()
      ensures (State(), keepRunning) == Receive(old(State()), key, commands, validation, subMenuKeeps)
    {
      ReceiveKeepsMenuOk(State(), key, commands, validation, subMenuKeeps);
      if inputMode == SubMenu {
        if !subMenuKeeps {
          ResetMenu();
        }
        return true;
      }
      var c := Lowercase(key);
      if c == BackspaceKey {
        BackspaceLastInput();
      } else if c == EscapeKey {
        keepRunning := ReceiveEscape();
        return;
      } else if inputMode == Command {
        keepRunning := ReceiveCommandKey(c);
        return;
      } else {
        ReceiveParamInput(c, validation);
      }
      keepRunning := inputMode != ForceExit;
    }

    /** The command-mode branch of `ReceiveInput`. */
    method ReceiveCommandKey(c: char) returns (keepRunning: bool)
      requires Valid() && inputMode == Command
      modifies `currentPos, `inputMode, `exitAfterCommandExecution, `currentParam, `currentCommand, inputBuffer
      ensures Valid() && (State(), keepRunning) == CommandKey(old(State()), c, commands)
    {
      if currentPos == 0 && c == 'x' {
        return false;
      }
      ReceiveCommandInput(c);
      keepRunning := inputMode != ForceExit;
    }

    /** The escape branch of `ReceiveInput`. */
    method ReceiveEscape() returns (keepRunning: bool)
      requires Ready()
      modifies `currentPos, `inputMode, `exitAfterCommandExecution, inputBuffer
      ensures Ready() && (State(), keepRunning) == Escape(old(State()))
    {
      if inputMode == Hex || inputMode == Binary {
        ConvertModeTo(Decimal);
      } else if inputMode == Decimal && currentPos == 1 {
        ResetMenu();
      } else if currentPos > 0 {
        if inputMode == Decimal {
          ConvertModeTo(Decimal);
        } else if inputMode == Text {
          ClearInput();
        }
      } else if inputMode != Command {
        ResetMenu();
      } else {
        return false;
      }
      keepRunning := inputMode != ForceExit;
    }

    /** A key at a parameter prompt. */
    method ReceiveParamInput(c: char, validation: ValidateResponse)
      requires Valid() && IsParamMode(inputMode)
      modifies `currentPos, `inputMode, `exitAfterCommandExecution, `currentParam, `args, inputBuffer
      ensures Valid() && State() == ParamKey(old(State()), c, commands, validation)
    {
      if inputMode == Text {
        ReceiveTextInput(c, validation);
      } else if inputMode == Decimal && InputModeFromChar(c) != Invalid {
        ParamKeyOk(State(), c, commands, validation);
        ConvertModeTo(InputModeFromChar(c));
      } else {
        ReceiveNumberInput(c, validation);
      }
    }
  }
}
