/** The table configuration and the parser that reads it from "name:value" lines: the
    eight known properties are validated and assigned one by one, unknown names are
    accepted and ignored, and every known name must appear at least once. */
module Configuration {
  import opened Wrappers
  import opened Text

  datatype Alignment = Left | Center | Right

  datatype TableConfiguration = TableConfiguration(
    initialTableRows: int,
    initialTableCols: int,
    maxTableRows: int,
    maxTableCols: int,
    autoFit: bool,
    visibleCellSymbols: int,
    initialAlignment: Alignment,
    clearConsoleAfterCommand: bool)

  /** The required property names in the order a std::map keyed by them is visited
      (byte-wise lexicographic), which decides which missing name is reported. */
  const RequiredNames: seq<string> := [
    "autoFit", "clearConsoleAfterCommand", "initialAlignment", "initialTableCols",
    "initialTableRows", "maxTableCols", "maxTableRows", "visibleCellSymbols"]

  predicate IsCountName(name: string)
  {
    name == "initialTableRows" || name == "initialTableCols" || name == "maxTableRows"
    || name == "maxTableCols" || name == "visibleCellSymbols"
  }

  predicate IsFlagName(name: string)
  {
    name == "autoFit" || name == "clearConsoleAfterCommand"
  }

  predicate IsKnownName(name: string)
  {
    IsCountName(name) || IsFlagName(name) || name == "initialAlignment"
  }

  lemma KnownNamesAreRequired(name: string)
    ensures IsKnownName(name) <==> name in RequiredNames
  {
  }

  // ---------------------------------------------------------------------------------
  // Error messages (the text of the std::runtime_error each failure throws).

  /** The what() text of the std::out_of_range that std::stoi throws. */
  const StoiOutOfRange: string := "stoi"

  function InvalidValue(name: string, value: string): string
  {
    "ABORTING! " + name + ":" + value + " - Invalid value!"
  }

  function InvalidFormat(line: string): string
  {
    "ABORTING! " + line + ": - Invalid format!"
  }

  function MissingProperty(name: string): string
  {
    "ABORTING! " + name + ": - Missing property!"
  }

  // ---------------------------------------------------------------------------------
  // Value validators.

  /** isPositiveInteger: true for a non-empty run of digits whose value is at least 1,
      false otherwise; None where std::stoi throws because the value exceeds an int. */
  function PositiveInteger(value: string): (r: Option<bool>)
    ensures r == Some(true) <==> |value| >= 1 && AllDigits(value) && 1 <= DecimalValue(value) <= IntMax
    ensures r.None? <==> |value| >= 1 && AllDigits(value) && DecimalValue(value) > IntMax
  {
    if |value| == 0 || !AllDigits(value) then Some(false)
    else match Stoi(value)
      case None => None
      case Some(n) => Some(n > 0)
  }

  /** The loop of isPositiveInteger: each character must be a digit, then std::stoi. */
  method IsPositiveInteger(value: string) returns (r: Option<bool>)
    ensures r == PositiveInteger(value)
  {
    if |value| == 0 {
      return Some(false);
    }
    var i := 0;
    while i < |value|
      invariant 0 <= i <= |value|
      invariant AllDigits(value[..i])
    {
      if !IsDigit(value[i]) {
        return Some(false);
      }
      assert value[..i + 1] == value[..i] + [value[i]];
      i := i + 1;
    }
    assert value[..i] == value;
    var n := Stoi(value);
    if n.None? {
      return None;
    }
    r := Some(n.value > 0);
  }

  predicate IsBoolean(value: string)
  {
    value == "true" || value == "false"
  }

  function AlignmentName(a: Alignment): string
  {
    match a
    case Left => "left"
    case Center => "center"
    case Right => "right"
  }

  /** parseAlignment: exactly the three lower-case names, anything else is an error. */
  function ParseAlignment(value: string): (r: Result<Alignment, string>)
    ensures r.Ok? ==> AlignmentName(r.value) == value
    ensures r.Err? ==> r.error == InvalidValue("initialAlignment", value)
  {
    if value == "left" then Ok(Left)
    else if value == "center" then Ok(Center)
    else if value == "right" then Ok(Right)
    else Err(InvalidValue("initialAlignment", value))
  }

  /** Every alignment's name parses back to it, and only those names parse. */
  lemma AlignmentRoundTrip(a: Alignment, value: string)
    ensures ParseAlignment(AlignmentName(a)) == Ok(a)
    ensures ParseAlignment(value).Ok? <==> value == "left" || value == "center" || value == "right"
  {
  }

  // ---------------------------------------------------------------------------------
  // The configuration as eight named settings.

  datatype Setting = Count(n: int) | Flag(b: bool) | Align(alignment: Alignment)

  /** The setting a known name denotes in a configuration (None for other names). */
  function Property(config: TableConfiguration, name: string): Option<Setting>
  {
    if name == "initialTableRows" then Some(Count(config.initialTableRows))
    else if name == "initialTableCols" then Some(Count(config.initialTableCols))
    else if name == "maxTableRows" then Some(Count(config.maxTableRows))
    else if name == "maxTableCols" then Some(Count(config.maxTableCols))
    else if name == "visibleCellSymbols" then Some(Count(config.visibleCellSymbols))
    else if name == "autoFit" then Some(Flag(config.autoFit))
    else if name == "clearConsoleAfterCommand" then Some(Flag(config.clearConsoleAfterCommand))
    else if name == "initialAlignment" then Some(Align(config.initialAlignment))
    else None
  }

  /** Two configurations that agree on the eight settings are the same. */
  lemma PropertiesDetermine(c1: TableConfiguration, c2: TableConfiguration)
    requires forall name :: name in RequiredNames ==> Property(c1, name) == Property(c2, name)
    ensures c1 == c2
  {
    assert Property(c1, "initialTableRows") == Property(c2, "initialTableRows");
    assert Property(c1, "initialTableCols") == Property(c2, "initialTableCols");
    assert Property(c1, "maxTableRows") == Property(c2, "maxTableRows");
    assert Property(c1, "maxTableCols") == Property(c2, "maxTableCols");
    assert Property(c1, "visibleCellSymbols") == Property(c2, "visibleCellSymbols");
    assert Property(c1, "autoFit") == Property(c2, "autoFit");
    assert Property(c1, "clearConsoleAfterCommand") == Property(c2, "clearConsoleAfterCommand");
    assert Property(c1, "initialAlignment") == Property(c2, "initialAlignment");
  }

  /** The kind of setting a known name holds. */
  predicate Fits(name: string, s: Setting)
  {
    (IsCountName(name) && s.Count?) || (IsFlagName(name) && s.Flag?)
    || (name == "initialAlignment" && s.Align?)
  }

  /** The validated setting a value gives a known name, or the error it throws. */
  function SettingOf(name: string, value: string): (r: Result<Setting, string>)
    requires IsKnownName(name)
    ensures r.Ok? ==> Fits(name, r.value)
  {
    if IsCountName(name) then
      match PositiveInteger(value)
      case None => Err(StoiOutOfRange)
      case Some(false) => Err(InvalidValue(name, value))
      case Some(true) => Ok(Count(DecimalValue(value)))
    else if IsFlagName(name) then
      if IsBoolean(value) then Ok(Flag(value == "true")) else Err(InvalidValue(name, value))
    else
      match ParseAlignment(value)
      case Err(e) => Err(e)
      case Ok(a) => Ok(Align(a))
  }

  /** A count property accepts exactly the positive decimal integers that fit an int. */
  lemma CountSetting(name: string, value: string)
    requires IsCountName(name)
    ensures SettingOf(name, value).Ok? <==> |value| >= 1 && AllDigits(value) && 1 <= DecimalValue(value) <= IntMax
    ensures SettingOf(name, value).Ok? ==> SettingOf(name, value).value == Count(DecimalValue(value))
    ensures SettingOf(name, value).Err? && |value| >= 1 && AllDigits(value) && DecimalValue(value) > IntMax ==>
      SettingOf(name, value).error == StoiOutOfRange
  {
  }

  /** A flag property accepts exactly "true" and "false". */
  lemma FlagSetting(name: string, value: string)
    requires IsFlagName(name)
    ensures SettingOf(name, value).Ok? <==> value == "true" || value == "false"
    ensures SettingOf(name, value).Ok? ==> SettingOf(name, value).value == Flag(value == "true")
  {
  }

  /** The alignment property accepts exactly the three alignment names. */
  lemma AlignmentSetting(value: string)
    ensures SettingOf("initialAlignment", value).Ok? <==> value == "left" || value == "center" || value == "right"
    ensures SettingOf("initialAlignment", value).Ok? ==>
      AlignmentName(SettingOf("initialAlignment", value).value.alignment) == value
  {
  }

  /** The configuration with one known setting replaced. */
  function WithSetting(config: TableConfiguration, name: string, s: Setting): TableConfiguration
    requires IsKnownName(name) && Fits(name, s)
  {
    match s
    case Count(n) =>
      if name == "initialTableRows" then config.(initialTableRows := n)
      else if name == "initialTableCols" then config.(initialTableCols := n)
      else if name == "maxTableRows" then config.(maxTableRows := n)
      else if name == "maxTableCols" then config.(maxTableCols := n)
      else config.(visibleCellSymbols := n)
    case Flag(b) =>
      if name == "autoFit" then config.(autoFit := b) else config.(clearConsoleAfterCommand := b)
    case Align(a) => config.(initialAlignment := a)
  }

  /** validateAndSet: a known name with a valid value sets that one field, a known name
      with an invalid value is an error, an unknown name changes nothing. */
  function SetProperty(config: TableConfiguration, name: string, value: string): Result<TableConfiguration, string>
  {
    if !IsKnownName(name) then Ok(config)
    else match SettingOf(name, value)
      case Err(e) => Err(e)
      case Ok(s) => Ok(WithSetting(config, name, s))
  }

  /** A valid value sets exactly the named field: its setting becomes the validated value
      and every other setting is as before. */
  lemma SetPropertyFrame(config: TableConfiguration, name: string, value: string)
    ensures !IsKnownName(name) ==> SetProperty(config, name, value) == Ok(config)
    ensures IsKnownName(name) ==>
      (SetProperty(config, name, value).Ok? <==> SettingOf(name, value).Ok?)
    ensures IsKnownName(name) && SettingOf(name, value).Err? ==>
      SetProperty(config, name, value) == Err(SettingOf(name, value).error)
    ensures IsKnownName(name) && SetProperty(config, name, value).Ok? ==>
      && Property(SetProperty(config, name, value).value, name) == Some(SettingOf(name, value).value)
      && forall other :: other != name ==>
           Property(SetProperty(config, name, value).value, other) == Property(config, other)
  {
    if IsKnownName(name) && SettingOf(name, value).Ok? {
      WithSettingFrame(config, name, SettingOf(name, value).value);
    }
  }

  /** Replacing one setting changes that setting and no other. */
  lemma WithSettingFrame(config: TableConfiguration, name: string, s: Setting)
    requires IsKnownName(name) && Fits(name, s)
    ensures Property(WithSetting(config, name, s), name) == Some(s)
    ensures forall other :: other != name ==>
      Property(WithSetting(config, name, s), other) == Property(config, other)
  {
    var c := WithSetting(config, name, s);
    WithSettingFields(config, name, s);
    forall other | other != name
      ensures Property(c, other) == Property(config, other)
    {
    }
  }

  /** Each field keeps its value unless the name is its own. */
  lemma WithSettingFields(config: TableConfiguration, name: string, s: Setting)
    requires IsKnownName(name) && Fits(name, s)
    ensures var c := WithSetting(config, name, s);
      && Property(c, name) == Some(s)
      && (name != "initialTableRows" ==> c.initialTableRows == config.initialTableRows)
      && (name != "initialTableCols" ==> c.initialTableCols == config.initialTableCols)
      && (name != "maxTableRows" ==> c.maxTableRows == config.maxTableRows)
      && (name != "maxTableCols" ==> c.maxTableCols == config.maxTableCols)
      && (name != "visibleCellSymbols" ==> c.visibleCellSymbols == config.visibleCellSymbols)
      && (name != "autoFit" ==> c.autoFit == config.autoFit)
      && (name != "clearConsoleAfterCommand" ==> c.clearConsoleAfterCommand == config.clearConsoleAfterCommand)
      && (name != "initialAlignment" ==> c.initialAlignment == config.initialAlignment)
  {
  }


  // ---------------------------------------------------------------------------------
  // The per-line loop of parseFile, as a fold over the lines read.

  /** A line cut at its first ':' into name and value. */
  function SplitLine(line: string): (r: Option<(string, string)>)
    ensures r.None? <==> ':' !in line
    ensures r.Some? ==> line == r.value.0 + ":" + r.value.1 && ':' !in r.value.0
  {
    match IndexOf(line, ':')
    case None => None
    case Some(p) =>
      assert line == line[..p] + ":" + line[p + 1..];
      Some((line[..p], line[p + 1..]))
  }

  /** One line: empty lines are skipped, a line without ':' is an error, any other line
      is handed to validateAndSet. */
  function LineStep(config: TableConfiguration, line: string): Result<TableConfiguration, string>
  {
    if line == "" then Ok(config)
    else match SplitLine(line)
      case None => Err(InvalidFormat(line))
      case Some((name, value)) => SetProperty(config, name, value)
  }

  /** The lines in order, stopping at the first error. */
  function LinesFold(config: TableConfiguration, lines: seq<string>): Result<TableConfiguration, string>
  {
    if |lines| == 0 then Ok(config)
    else match LinesFold(config, lines[..|lines| - 1])
      case Err(e) => Err(e)
      case Ok(c) => LineStep(c, lines[|lines| - 1])
  }

  /** The property names of the lines that reach validateAndSet. */
  function Names(lines: seq<string>): set<string>
  {
    if |lines| == 0 then {}
    else
      var last := lines[|lines| - 1];
      Names(lines[..|lines| - 1]) +
        (if last != "" && SplitLine(last).Some? then {SplitLine(last).value.0} else {})
  }

  /** The first of names that was never seen. */
  function FirstMissing(names: seq<string>, seen: set<string>): (r: Option<string>)
    ensures r.None? <==> forall i :: 0 <= i < |names| ==> names[i] in seen
    ensures r.Some? ==> exists i :: 0 <= i < |names| && names[i] == r.value && r.value !in seen
                                   && forall j :: 0 <= j < i ==> names[j] in seen
  {
    if |names| == 0 then None
    else if names[0] !in seen then Some(names[0])
    else
      var r := FirstMissing(names[1..], seen);
      if r.Some? then
        var i :| 0 <= i < |names[1..]| && names[1..][i] == r.value && r.value !in seen
                 && forall j :: 0 <= j < i ==> names[1..][j] in seen;
        assert names[i + 1] == r.value;
        r
      else r
  }

  /** parseFile after the file is read: the lines, then the missing-property check. */
  function Parse(config: TableConfiguration, lines: seq<string>): Result<TableConfiguration, string>
  {
    match LinesFold(config, lines)
    case Err(e) => Err(e)
    case Ok(c) =>
      match FirstMissing(RequiredNames, Names(lines))
      case Some(name) => Err(MissingProperty(name))
      case None => Ok(c)
  }

  /** One more line: the fold takes its step and the names gain the line's name. */
  lemma LineAt(config: TableConfiguration, lines: seq<string>, i: nat, c: TableConfiguration)
    requires i < |lines| && LinesFold(config, lines[..i]) == Ok(c)
    ensures LinesFold(config, lines[..i + 1]) == LineStep(c, lines[i])
    ensures Names(lines[..i + 1]) == Names(lines[..i]) +
      (if lines[i] != "" && SplitLine(lines[i]).Some? then {SplitLine(lines[i]).value.0} else {})
  {
    assert lines[..i + 1][..i] == lines[..i];
  }

  lemma {:induction false} LinesFoldErrPrefix(config: TableConfiguration, lines: seq<string>, n: nat)
    requires n <= |lines| && LinesFold(config, lines[..n]).Err?
    ensures LinesFold(config, lines) == LinesFold(config, lines[..n])
    decreases |lines| - n
  {
    if n < |lines| {
      assert lines[..n + 1][..n] == lines[..n];
      LinesFoldErrPrefix(config, lines, n + 1);
    } else {
      assert lines[..n] == lines;
    }
  }

  /** A successful parse has seen every required name; a line fold that succeeds and
      sees every required name is a successful parse. */
  lemma ParseComplete(config: TableConfiguration, lines: seq<string>)
    ensures Parse(config, lines).Ok? <==>
      LinesFold(config, lines).Ok? && forall name :: name in RequiredNames ==> name in Names(lines)
  {
    if LinesFold(config, lines).Ok? && forall name :: name in RequiredNames ==> name in Names(lines) {
      assert FirstMissing(RequiredNames, Names(lines)).None?;
    }
  }

  /** Empty lines change nothing. */
  lemma ParseSkipsEmpty(config: TableConfiguration, lines: seq<string>)
    ensures Parse(config, lines + [""]) == Parse(config, lines)
  {
    assert (lines + [""])[..|lines|] == lines;
  }

  /** A non-empty line without ':' stops the parse with a format error. */
  lemma ParseBadLine(config: TableConfiguration, lines: seq<string>, line: string)
    requires LinesFold(config, lines).Ok? && line != "" && ':' !in line
    ensures Parse(config, lines + [line]) == Err(InvalidFormat(line))
  {
    assert (lines + [line])[..|lines|] == lines;
  }

  lemma {:induction false} FirstMissingIgnores(names: seq<string>, seen: set<string>, extra: string)
    requires extra !in names
    ensures FirstMissing(names, seen + {extra}) == FirstMissing(names, seen)
  {
    if |names| > 0 {
      assert extra !in names[1..];
      FirstMissingIgnores(names[1..], seen, extra);
    }
  }

  /** A line naming an unknown property is accepted and changes nothing. */
  lemma ParseUnknown(config: TableConfiguration, lines: seq<string>, name: string, value: string)
    requires !IsKnownName(name) && ':' !in name
    ensures Parse(config, lines + [name + ":" + value]) == Parse(config, lines)
  {
    var line := name + ":" + value;
    assert (lines + [line])[..|lines|] == lines;
    assert line[|name|] == ':';
    var p := SplitLine(line).value;
    assert p.0 == name by {
      assert line == p.0 + ":" + p.1;
      assert line[..|name|] == name;
      assert line[..|p.0|] == p.0;
    }
    assert Names(lines + [line]) == Names(lines) + {name};
    KnownNamesAreRequired(name);
    FirstMissingIgnores(RequiredNames, Names(lines), name);
  }

  /** The value of the last line that names the property, if any. */
  function LastValue(lines: seq<string>, name: string): Option<string>
  {
    if |lines| == 0 then None
    else
      var last := lines[|lines| - 1];
      if last != "" && SplitLine(last).Some? && SplitLine(last).value.0 == name
      then Some(SplitLine(last).value.1)
      else LastValue(lines[..|lines| - 1], name)
  }

  /** After a successful fold every known setting is the one its last line gave, and a
      setting no line names keeps its initial value. */
  lemma {:induction false} LastLineWins(config: TableConfiguration, lines: seq<string>, name: string)
    requires LinesFold(config, lines).Ok? && IsKnownName(name)
    ensures LastValue(lines, name).None? ==>
      Property(LinesFold(config, lines).value, name) == Property(config, name)
    ensures LastValue(lines, name).Some? ==>
      && SettingOf(name, LastValue(lines, name).value).Ok?
      && Property(LinesFold(config, lines).value, name) == Some(SettingOf(name, LastValue(lines, name).value).value)
  {
    if |lines| > 0 {
      var prefix := lines[..|lines| - 1];
      var last := lines[|lines| - 1];
      LastLineWins(config, prefix, name);
      var c := LinesFold(config, prefix).value;
      if last != "" {
        var p := SplitLine(last).value;
        SetPropertyFrame(c, p.0, p.1);
      }
    }
  }

  // ---------------------------------------------------------------------------------
  // The parser object.

  class TableConfigurationParser {
    var config: TableConfiguration

    /** The configuration member starts out holding whatever values it is given (the
        source leaves it uninitialised). */
    constructor(initial: TableConfiguration)
      ensures config == initial
    {
      config := initial;
    }

    function GetConfig(): TableConfiguration
      reads this
    {
      config
    }

    /** validateAndSet: on success config is SetProperty's result; on failure the thrown
        message is returned and config is unchanged. */
    method ValidateAndSet(name: string, value: string) returns (failure: Option<string>)
      modifies this
      ensures SetProperty(old(config), name, value).Ok? ==>
        failure.None? && config == SetProperty(old(config), name, value).value
      ensures SetProperty(old(config), name, value).Err? ==>
        failure == Some(SetProperty(old(config), name, value).error) && config == old(config)
    {
      if IsCountName(name) {
        var valid := IsPositiveInteger(value);
        if valid.None? {
          return Some(StoiOutOfRange);
        }
        if !valid.value {
          return Some(InvalidValue(name, value));
        }
        var n := Stoi(value).value;
        if name == "initialTableRows" {
          config := config.(initialTableRows := n);
        } else if name == "initialTableCols" {
          config := config.(initialTableCols := n);
        } else if name == "maxTableRows" {
          config := config.(maxTableRows := n);
        } else if name == "maxTableCols" {
          config := config.(maxTableCols := n);
        } else {
          config := config.(visibleCellSymbols := n);
        }
      } else if name == "autoFit" || name == "clearConsoleAfterCommand" {
        if !IsBoolean(value) {
          return Some(InvalidValue(name, value));
        }
        if name == "autoFit" {
          config := config.(autoFit := value == "true");
        } else {
          config := config.(clearConsoleAfterCommand := value == "true");
        }
      } else if name == "initialAlignment" {
        var a := ParseAlignment(value);
        if a.Err? {
          return Some(a.error);
        }
        config := config.(initialAlignment := a.value);
      }
      failure := None;
    }

    /** The per-line loop of parseFile and its final check, over the lines of the file:
        the outcome (and, on success, the configuration) is Parse of the lines. */
    method ParseLines(lines: seq<string>) returns (failure: Option<string>)
      modifies this
      ensures failure.None? <==> Parse(old(config), lines).Ok?
      ensures failure.Some? ==> failure.value == Parse(old(config), lines).error
      ensures failure.None? ==> config == Parse(old(config), lines).value
    {
      var required;
      failure, required := ApplyLines(lines);
      if failure.Some? {
        return failure;
      }
      var missing := FirstUnset(required, Names(lines));
      if missing.Some? {
        return Some(MissingProperty(missing.value));
      }
    }

    /** The loop over the lines: each non-empty line is cut at its first ':' and handed to
        validateAndSet, and the required names it meets are marked. */
    method ApplyLines(lines: seq<string>) returns (failure: Option<string>, required: map<string, bool>)
      modifies this
      ensures failure.None? <==> LinesFold(old(config), lines).Ok?
      ensures failure.Some? ==> failure.value == LinesFold(old(config), lines).error
      ensures failure.None? ==> config == LinesFold(old(config), lines).value
      ensures failure.None? ==> Marks(required, Names(lines))
    {
      required := map name | name in RequiredNames :: false;
      assert Marks(required, Names(lines[..0]));
      var i := 0;
      while i < |lines|
        invariant 0 <= i <= |lines|
        invariant LinesFold(old(config), lines[..i]) == Ok(config)
        invariant Marks(required, Names(lines[..i]))
      {
        var line := lines[i];
        LineAt(old(config), lines, i, config);
        if line == "" {
          i := i + 1;
          continue;
        }
        var colonPos := IndexOf(line, ':');
        if colonPos.None? {
          LinesFoldErrPrefix(old(config), lines, i + 1);
          return Some(InvalidFormat(line)), required;
        }
        var name := line[..colonPos.value];
        var value := line[colonPos.value + 1..];
        assert SplitLine(line) == Some((name, value));
        MarkStep(required, Names(lines[..i]), name);
        if name in required {
          required := required[name := true];
        }
        failure := ValidateAndSet(name, value);
        if failure.Some? {
          LinesFoldErrPrefix(old(config), lines, i + 1);
          return failure, required;
        }
        i := i + 1;
      }
      assert lines[..i] == lines;
      failure := None;
    }
  }

  /** The required-properties map: one entry per required name, marked exactly when the
      name has been seen. */
  ghost predicate Marks(required: map<string, bool>, seen: set<string>)
  {
    && (forall name :: name in required <==> name in RequiredNames)
    && (forall name :: name in required ==> (required[name] <==> name in seen))
  }

  /** Marking a name that has been seen keeps the map in step with the names seen. */
  lemma MarkStep(required: map<string, bool>, seen: set<string>, name: string)
    requires Marks(required, seen)
    ensures Marks(if name in required then required[name := true] else required, seen + {name})
  {
  }

  /** The check after the loop: the first required name, in the map's order, that was
      never marked. */
  method FirstUnset(required: map<string, bool>, ghost seen: set<string>) returns (missing: Option<string>)
    requires Marks(required, seen)
    ensures missing == FirstMissing(RequiredNames, seen)
  {
    var j := 0;
    while j < |RequiredNames|
      invariant 0 <= j <= |RequiredNames|
      invariant forall k :: 0 <= k < j ==> RequiredNames[k] in seen
    {
      if !required[RequiredNames[j]] {
        FirstMissingAt(RequiredNames, seen, j);
        return Some(RequiredNames[j]);
      }
      j := j + 1;
    }
    missing := None;
  }

  lemma {:induction false} FirstMissingAt(names: seq<string>, seen: set<string>, j: nat)
    requires j < |names| && names[j] !in seen
    requires forall k :: 0 <= k < j ==> names[k] in seen
    ensures FirstMissing(names, seen) == Some(names[j])
  {
    if j > 0 {
      FirstMissingAt(names[1..], seen, j - 1);
    }
  }
}
