/** EventParser: the classification of an edit command typed by the user into one of the
    four events. Each regular expression of the source is written out as a matcher that
    returns its capture groups; each exception the source throws is a Failure. */
module EventParser {
  import opened Wrappers
  import opened Text
  import opened Addresses
  import opened Formulas
  import opened FormulaLibrary
  import opened TableParser

  /** What the source throws: fromString's invalid_argument (and its out_of_range for a
      column past an int), the out_of_range of std::stoi on a number, the unknown
      formula name, and the final "Could not parse input". */
  datatype Failure =
    | InvalidAddress(text: string)
    | OutOfRange(text: string)
    | UnknownFormulaType(name: string)
    | CouldNotParse(input: string)

  // ---------------------------------------------------------------------------------
  // The pieces of the patterns.

  /** [A-Z][0-9]+: the only address form the commands accept. */
  predicate IsCommandAddress(s: string)
  {
    |s| >= 2 && IsUpper(s[0]) && AllDigits(s[1..])
  }

  /** How many digits s starts with. */
  function DigitRun(s: string): (n: nat)
    ensures n <= |s| && AllDigits(s[..n]) && (n < |s| ==> !IsDigit(s[n]))
  {
    if |s| > 0 && IsDigit(s[0]) then
      var n := 1 + DigitRun(s[1..]);
      assert s[..n] == [s[0]] + s[1..][..n - 1];
      n
    else 0
  }

  /** The length of the longest [A-Z][0-9]* at the start of s (0 when s does not start
      with a capital letter). */
  function AddressPrefixLength(s: string): (n: nat)
    ensures n <= |s|
  {
    if |s| >= 1 && IsUpper(s[0]) then 1 + DigitRun(s[1..]) else 0
  }

  /** '.' of the source's patterns: anything but a line break. */
  predicate NoLineBreak(s: string)
  {
    forall i :: 0 <= i < |s| ==> s[i] != '\n' && s[i] != '\r'
  }

  /** \w */
  predicate IsWordChar(c: char)
  {
    IsAlpha(c) || IsDigit(c) || c == '_'
  }

  predicate AllWordChars(s: string)
  {
    forall i :: 0 <= i < |s| ==> IsWordChar(s[i])
  }

  // ---------------------------------------------------------------------------------
  // The four command patterns, each returning its capture groups.

  /** ([A-Z][0-9]+) delete */
  function MatchDelete(input: string): Option<string>
  {
    if |input| >= 7 && input[|input| - 7..] == " delete" && IsCommandAddress(input[..|input| - 7])
    then Some(input[..|input| - 7])
    else None
  }

  /** ([A-Z][0-9]+)=([A-Z][0-9]+): an address holds no '=', so the groups lie on either
      side of the first '='. */
  function MatchReference(input: string): Option<(string, string)>
  {
    match IndexOf(input, '=')
    case None => None
    case Some(p) =>
      if IsCommandAddress(input[..p]) && IsCommandAddress(input[p + 1..])
      then Some((input[..p], input[p + 1..]))
      else None
  }

  /** ([A-Z][0-9]+) insert (.+): the address is the longest [A-Z][0-9]+ prefix, since a
      space has to follow it. */
  function MatchInsert(input: string): Option<(string, string)>
  {
    var k := AddressPrefixLength(input);
    if k >= 2 && StartsWith(input[k..], " insert ") && |input| > k + 8 && NoLineBreak(input[k + 8..])
    then Some((input[..k], input[k + 8..]))
    else None
  }

  /** ([A-Z][0-9]+)=(\w+)\((.*)\): the name runs to the first '(' and the parameter text
      to the closing ')' that ends the input. */
  function MatchFormula(input: string): Option<(string, string, string)>
  {
    match IndexOf(input, '=')
    case None => None
    case Some(p) =>
      var target, rest := input[..p], input[p + 1..];
      if !IsCommandAddress(target) then None
      else match IndexOf(rest, '(')
        case None => None
        case Some(q) =>
          if q >= 1 && AllWordChars(rest[..q]) && |rest| >= q + 2 && rest[|rest| - 1] == ')'
             && NoLineBreak(rest[q + 1..|rest| - 1])
          then Some((target, rest[..q], rest[q + 1..|rest| - 1]))
          else None
  }

  // ---------------------------------------------------------------------------------
  // Values inside the commands.

  /** CellAddress::fromString of a captured address. */
  function CommandAddress(text: string): (r: Result<CellAddress, Failure>)
    ensures r.Ok? <==> ParseAddress(text).Some?
    ensures r.Ok? ==> r.value == ParseAddress(text).value
  {
    match ParseAddress(text)
    case None => Err(InvalidAddress(text))
    case Some(a) => Ok(a)
  }

  /** std::stoi of a run of digits. */
  function Number(text: string): (r: Result<int, Failure>)
    requires |text| >= 1 && AllDigits(text)
  {
    match Stoi(text)
    case None => Err(OutOfRange(text))
    case Some(n) => Ok(n)
  }

  /** The insert payload: "TRUE" and "FALSE" are bools, a run of digits an int, anything
      else text. */
  function ClassifyPayload(raw: string): (r: Result<Literal, Failure>)
    ensures raw == "TRUE" ==> r == Ok(Bool(true))
    ensures raw == "FALSE" ==> r == Ok(Bool(false))
    ensures |raw| >= 1 && AllDigits(raw) ==>
      (r.Ok? <==> DecimalValue(raw) <= IntMax) && (r.Ok? ==> r.value == Int(DecimalValue(raw)))
    ensures raw != "TRUE" && raw != "FALSE" && !(|raw| >= 1 && AllDigits(raw)) ==> r == Ok(Str(raw))
  {
    if raw == "TRUE" || raw == "FALSE" then Ok(Bool(raw == "TRUE"))
    else if |raw| >= 1 && AllDigits(raw) then
      match Number(raw)
      case Err(e) => Err(e)
      case Ok(n) => Ok(Int(n))
    else Ok(Str(raw))
  }

  /** [A-Z][0-9]+:[A-Z][0-9]+, split at its ':'. */
  function MatchRangeToken(token: string): Option<(string, string)>
  {
    match IndexOf(token, ':')
    case None => None
    case Some(p) =>
      if IsCommandAddress(token[..p]) && IsCommandAddress(token[p + 1..])
      then Some((token[..p], token[p + 1..]))
      else None
  }

  /** One trimmed formula token, tried in the source's order: a run of digits, a bool, a
      range, an address, and otherwise text. */
  function ClassifyToken(token: string): (r: Result<FormulaParam, Failure>)
    ensures |token| >= 1 && AllDigits(token) ==>
      (r.Ok? <==> DecimalValue(token) <= IntMax) && (r.Ok? ==> r.value == LitParam(Int(DecimalValue(token))))
    ensures token == "TRUE" || token == "FALSE" ==> r == Ok(LitParam(Bool(token == "TRUE")))
    ensures r.Ok? && r.value.RangeParam? ==> MatchRangeToken(token).Some?
    ensures r.Ok? && r.value.CellParam? ==> IsCommandAddress(token)
    ensures r.Ok? && r.value.LitParam? && r.value.literal.Str? ==> r.value.literal.text == token
  {
    if |token| >= 1 && AllDigits(token) then TokenNumber(token)
    else if token == "TRUE" || token == "FALSE" then Ok(LitParam(Bool(token == "TRUE")))
    else if MatchRangeToken(token).Some? then TokenRange(token)
    else if IsCommandAddress(token) then TokenCell(token)
    else Ok(LitParam(Str(token)))
  }

  /** A token of digits: std::stoi. */
  function TokenNumber(token: string): (r: Result<FormulaParam, Failure>)
    requires |token| >= 1 && AllDigits(token)
    ensures (r.Ok? <==> DecimalValue(token) <= IntMax) && (r.Ok? ==> r.value == LitParam(Int(DecimalValue(token))))
  {
    match Number(token)
    case Err(e) => Err(e)
    case Ok(n) => Ok(LitParam(Int(n)))
  }

  /** A range token: the addresses on either side of its ':'. */
  function TokenRange(token: string): (r: Result<FormulaParam, Failure>)
    requires MatchRangeToken(token).Some?
    ensures r.Ok? ==> r.value.RangeParam?
  {
    var (first, second) := MatchRangeToken(token).value;
    match (CommandAddress(first), CommandAddress(second))
    case (Err(e), _) => Err(e)
    case (_, Err(e)) => Err(e)
    case (Ok(start), Ok(end)) => Ok(RangeParam(AddressRange(start, end)))
  }

  /** An address token. */
  function TokenCell(token: string): (r: Result<FormulaParam, Failure>)
    requires IsCommandAddress(token)
    ensures r.Ok? ==> r.value.CellParam?
  {
    match CommandAddress(token)
    case Err(e) => Err(e)
    case Ok(a) => Ok(CellParam(a))
  }

  /** The tokens read with getline at every ',', each trimmed and classified; the first
      failure stops the loop. */
  function TokenParams(tokens: seq<string>): (r: Result<seq<FormulaParam>, Failure>)
    ensures r.Ok? ==> |r.value| == |tokens|
  {
    if |tokens| == 0 then Ok([])
    else match TokenParams(tokens[..|tokens| - 1])
      case Err(e) => Err(e)
      case Ok(ps) =>
        match ClassifyToken(Trim(tokens[|tokens| - 1]))
        case Err(e) => Err(e)
        case Ok(p) => Ok(ps + [p])
  }

  /** The parameters of a formula command. */
  function FormulaParams(params: string): Result<seq<FormulaParam>, Failure>
  {
    TokenParams(GetlineTokens(params, ','))
  }

  /** The formula branch up to its end: the target, the function, the parameters. */
  function FormulaCommand(target: string, name: string, params: string): Result<Event, Failure>
  {
    match CommandAddress(target)
    case Err(e) => Err(e)
    case Ok(address) =>
      match ParseFormulaType(name)
      case None => Err(UnknownFormulaType(name))
      case Some(t) =>
        match FormulaParams(params)
        case Err(e) => Err(e)
        case Ok(ps) => Ok(FormulaEvent(address, t, ps))
  }

  // ---------------------------------------------------------------------------------
  // parse

  /** parse as intended: the four patterns in order, each building its event. */
  function ParseEvent(input: string): Result<Event, Failure>
  {
    if MatchDelete(input).Some? then
      match CommandAddress(MatchDelete(input).value)
      case Err(e) => Err(e)
      case Ok(a) => Ok(DeleteEvent(a))
    else if MatchReference(input).Some? then
      var (first, second) := MatchReference(input).value;
      match (CommandAddress(first), CommandAddress(second))
      case (Err(e), _) => Err(e)
      case (_, Err(e)) => Err(e)
      case (Ok(target), Ok(source)) => Ok(ReferenceEvent(target, source))
    else if MatchInsert(input).Some? then
      var (target, raw) := MatchInsert(input).value;
      match ClassifyPayload(raw)
      case Err(e) => Err(e)
      case Ok(l) =>
        match CommandAddress(target)
        case Err(e) => Err(e)
        case Ok(a) => Ok(InsertEvent(a, l))
    else if MatchFormula(input).Some? then
      var (target, name, params) := MatchFormula(input).value;
      FormulaCommand(target, name, params)
    else Err(CouldNotParse(input))
  }

  /** parse as written: the formula branch does all its work but never returns the
      event, so control reaches the final throw. */
  function ParseAsWritten(input: string): Result<Event, Failure>
  {
    if MatchDelete(input).None? && MatchReference(input).None? && MatchInsert(input).None?
       && MatchFormula(input).Some? then
      var (target, name, params) := MatchFormula(input).value;
      match FormulaCommand(target, name, params)
      case Err(e) => Err(e)
      case Ok(_) => Err(CouldNotParse(input))
    else ParseEvent(input)
  }

  /** The getline loop of the formula branch over the parameter text. */
  method ParseFormulaParams(params: string) returns (r: Result<seq<FormulaParam>, Failure>)
    ensures r == FormulaParams(params)
  {
    var tokens := GetlineTokens(params, ',');
    var parsedParams: seq<FormulaParam> := [];
    var i := 0;
    while i < |tokens|
      invariant 0 <= i <= |tokens|
      invariant TokenParams(tokens[..i]) == Ok(parsedParams)
    {
      assert tokens[..i + 1][..i] == tokens[..i];
      var token := Trim(tokens[i]);
      var param := ClassifyToken(token);
      if param.Err? {
        TokenParamsPrefixErr(tokens, i + 1);
        return Err(param.error);
      }
      parsedParams := parsedParams + [param.value];
      i := i + 1;
    }
    assert tokens[..i] == tokens;
    r := Ok(parsedParams);
  }

  lemma {:induction false} TokenParamsPrefixErr(tokens: seq<string>, n: nat)
    requires n <= |tokens| && TokenParams(tokens[..n]).Err?
    ensures TokenParams(tokens) == TokenParams(tokens[..n])
    decreases |tokens| - n
  {
    if n < |tokens| {
      assert tokens[..n + 1][..n] == tokens[..n];
      TokenParamsPrefixErr(tokens, n + 1);
    } else {
      assert tokens[..n] == tokens;
    }
  }

  /** parse, as written: the patterns in order; the formula branch falls through. */
  method Parse(input: string) returns (r: Result<Event, Failure>)
    ensures r == ParseAsWritten(input)
  {
    var deleteMatch := MatchDelete(input);
    if deleteMatch.Some? {
      var a := CommandAddress(deleteMatch.value);
      if a.Err? {
        return Err(a.error);
      }
      return Ok(DeleteEvent(a.value));
    }
    var referenceMatch := MatchReference(input);
    if referenceMatch.Some? {
      var target := CommandAddress(referenceMatch.value.0);
      if target.Err? {
        return Err(target.error);
      }
      var source := CommandAddress(referenceMatch.value.1);
      if source.Err? {
        return Err(source.error);
      }
      return Ok(ReferenceEvent(target.value, source.value));
    }
    var insertMatch := MatchInsert(input);
    if insertMatch.Some? {
      var literal := ClassifyPayload(insertMatch.value.1);
      if literal.Err? {
        return Err(literal.error);
      }
      var a := CommandAddress(insertMatch.value.0);
      if a.Err? {
        return Err(a.error);
      }
      return Ok(InsertEvent(a.value, literal.value));
    }
    var formulaMatch := MatchFormula(input);
    if formulaMatch.Some? {
      var (target, funcName, params) := formulaMatch.value;
      var address := CommandAddress(target);
      if address.Err? {
        return Err(address.error);
      }
      var formulaType := ParseFormulaType(funcName);
      if formulaType.None? {
        return Err(UnknownFormulaType(funcName));
      }
      var parsedParams := ParseFormulaParams(params);
      if parsedParams.Err? {
        return Err(parsedParams.error);
      }
    }
    r := Err(CouldNotParse(input));
  }

  // ---------------------------------------------------------------------------------
  // Properties.

  /** A row below 26 is written as one letter, so its address is a command address. */
  lemma CommandAddressText(a: CellAddress)
    requires a.row < 26
    ensures ToString(a) == [LetterChar(a.row)] + NatToDecimal(a.column + 1)
    ensures IsCommandAddress(ToString(a))
  {
    assert Letters(a.row + 1) == Letters(0) + [LetterChar(a.row)];
    assert ToString(a)[1..] == NatToDecimal(a.column + 1);
  }

  /** The characters of a command address. */
  lemma CommandAddressChars(s: string)
    requires IsCommandAddress(s)
    ensures forall c :: c in s ==> IsUpper(c) || IsDigit(c)
    ensures AddressPrefixLength(s) == |s|
  {
    forall c | c in s
      ensures IsUpper(c) || IsDigit(c)
    {
      var k :| 0 <= k < |s| && s[k] == c;
      if k > 0 {
        assert s[1..][k - 1] == c;
      }
    }
    DigitRunAll(s[1..]);
  }

  lemma {:induction false} DigitRunAll(s: string)
    requires AllDigits(s)
    ensures DigitRun(s) == |s|
  {
    if |s| > 0 {
      DigitRunAll(s[1..]);
    }
  }

  /** A command address followed by a character that is not a digit is the whole
      address prefix. */
  lemma AddressPrefixOf(t: string, rest: string)
    requires IsCommandAddress(t) && |rest| >= 1 && !IsDigit(rest[0])
    ensures AddressPrefixLength(t + rest) == |t|
    ensures (t + rest)[..|t|] == t && (t + rest)[|t|..] == rest
  {
    var s := t + rest;
    assert s[1..] == t[1..] + rest;
    DigitRunAll(t[1..]);
    DigitRunPrefix(t[1..], rest);
  }

  lemma {:induction false} DigitRunPrefix(d: string, rest: string)
    requires AllDigits(d) && |rest| >= 1 && !IsDigit(rest[0])
    ensures DigitRun(d + rest) == |d|
  {
    if |d| > 0 {
      assert (d + rest)[1..] == d[1..] + rest;
      DigitRunPrefix(d[1..], rest);
    } else {
      assert d + rest == rest;
    }
  }

  /** Only text holding a space ends in " delete". */
  lemma NoDeleteWithoutSpace(input: string)
    requires ' ' !in input
    ensures MatchDelete(input).None?
  {
    if |input| >= 7 {
      assert input[|input| - 7..][0] == input[|input| - 7];
    }
  }

  /** "<address> delete" is the delete event of that address. */
  lemma DeleteCommand(a: CellAddress)
    requires a.row < 26 && a.column + 1 <= IntMax
    ensures ParseEvent(ToString(a) + " delete") == Ok(DeleteEvent(a))
    ensures ParseAsWritten(ToString(a) + " delete") == Ok(DeleteEvent(a))
  {
    var t := ToString(a);
    var input := t + " delete";
    CommandAddressText(a);
    assert input[..|input| - 7] == t && input[|input| - 7..] == " delete";
    ParseToString(a);
  }

  /** "<target>=<source>" is the reference event, and it is matched before the formula
      pattern is tried. */
  lemma ReferenceCommand(target: CellAddress, source: CellAddress)
    requires target.row < 26 && target.column + 1 <= IntMax
    requires source.row < 26 && source.column + 1 <= IntMax
    ensures ParseEvent(ToString(target) + "=" + ToString(source)) == Ok(ReferenceEvent(target, source))
    ensures ParseAsWritten(ToString(target) + "=" + ToString(source)) == Ok(ReferenceEvent(target, source))
  {
    var t, s := ToString(target), ToString(source);
    var input := t + "=" + s;
    CommandAddressText(target);
    CommandAddressText(source);
    CommandAddressChars(t);
    CommandAddressChars(s);
    assert ' ' !in input;
    NoDeleteWithoutSpace(input);
    assert input[|t|] == '=' && input[..|t|] == t && input[|t| + 1..] == s;
    IndexOfAt(input, '=', |t|);
    ParseToString(target);
    ParseToString(source);
  }

  /** A character missing from the first d places occurs first at d or later. */
  lemma NotBefore(s: string, c: char, d: nat)
    requires d <= |s| && c !in s[..d]
    ensures IndexOf(s, c).Some? ==> IndexOf(s, c).value >= d
  {
    forall k | 0 <= k < d
      ensures s[k] != c
    {
      assert s[k] == s[..d][k];
    }
  }

  /** The first occurrence of c is where c first appears. */
  lemma IndexOfAt(s: string, c: char, d: nat)
    requires d < |s| && s[d] == c && c !in s[..d]
    ensures IndexOf(s, c) == Some(d)
  {
    assert c in s;
  }

  /** "<address> insert <raw>" is the insert event of the classified payload, whatever
      the payload holds. */
  lemma InsertCommand(a: CellAddress, raw: string)
    requires a.row < 26 && a.column + 1 <= IntMax
    requires |raw| >= 1 && NoLineBreak(raw)
    ensures ParseEvent(ToString(a) + " insert " + raw) ==
      match ClassifyPayload(raw)
      case Err(e) => Err(e)
      case Ok(l) => Ok(InsertEvent(a, l))
    ensures ParseAsWritten(ToString(a) + " insert " + raw) == ParseEvent(ToString(a) + " insert " + raw)
  {
    var t := ToString(a);
    CommandAddressText(a);
    ParseToString(a);
    InsertNotDelete(t, raw);
    InsertNotReference(t, raw);
    InsertGroups(t, raw);
  }

  /** "<address> insert <raw>" does not match the delete pattern: what precedes its last
      seven characters holds the space after the address. */
  lemma InsertNotDelete(t: string, raw: string)
    requires IsCommandAddress(t) && |raw| >= 1
    ensures MatchDelete(t + " insert " + raw).None?
  {
    var input := t + " insert " + raw;
    var prefix := input[..|input| - 7];
    assert prefix[|t|] == ' ';
    NotCommandAddress(prefix, |t|);
  }

  /** "<address> insert <raw>" does not match the reference pattern: before any '=' lies
      the space after the address. */
  lemma InsertNotReference(t: string, raw: string)
    requires IsCommandAddress(t)
    ensures MatchReference(t + " insert " + raw).None?
  {
    var input := t + " insert " + raw;
    CommandAddressChars(t);
    assert input[..|t| + 1] == t + " ";
    NotBefore(input, '=', |t| + 1);
    if IndexOf(input, '=').Some? {
      var p := IndexOf(input, '=').value;
      assert input[..p][|t|] == ' ';
      NotCommandAddress(input[..p], |t|);
    }
  }

  /** The groups of the insert pattern in "<address> insert <raw>". */
  lemma InsertGroups(t: string, raw: string)
    requires IsCommandAddress(t) && |raw| >= 1 && NoLineBreak(raw)
    ensures MatchInsert(t + " insert " + raw) == Some((t, raw))
  {
    var input := t + " insert " + raw;
    assert input == t + (" insert " + raw);
    AddressPrefixOf(t, " insert " + raw);
    assert input[|t|..] == " insert " + raw;
    assert StartsWith(input[|t|..], " insert ");
    assert input[|t| + 8..] == raw;
  }

  /** A displayed literal typed back as a payload is that literal again: bools, numbers
      that fit an int, and text that is not a bool name or a run of digits. */
  lemma PayloadOfDisplay(l: Literal)
    requires l.Int? ==> 0 <= l.n <= IntMax
    requires l.Str? ==> l.text != "TRUE" && l.text != "FALSE" && !(|l.text| >= 1 && AllDigits(l.text))
    ensures ClassifyPayload(LiteralToString(l)) == Ok(l)
  {
    if l.Int? {
      DecimalOfNatToDecimal(l.n);
    }
  }

  /** A formula command naming a known function: as intended it is the formula event of
      the parsed parameters; as written it never produces one. */
  lemma FormulaCommandParses(a: CellAddress, t: FormulaType, params: string)
    requires a.row < 26 && a.column + 1 <= IntMax && NoLineBreak(params)
    ensures ParseEvent(ToString(a) + "=" + FormulaTypeName(t) + "(" + params + ")") ==
      match FormulaParams(params)
      case Err(e) => Err(e)
      case Ok(ps) => Ok(FormulaEvent(a, t, ps))
    ensures ParseAsWritten(ToString(a) + "=" + FormulaTypeName(t) + "(" + params + ")") ==
      match FormulaParams(params)
      case Err(e) => Err(e)
      case Ok(_) => Err(CouldNotParse(ToString(a) + "=" + FormulaTypeName(t) + "(" + params + ")"))
  {
    var name := FormulaTypeName(t);
    FormulaTypeRoundTrip(t, name);
    FormulaShape(a, name, params);
  }

  /** A formula command naming no known function fails with that name, as intended and
      as written. */
  lemma UnknownFunctionCommand(a: CellAddress, name: string, params: string)
    requires a.row < 26 && a.column + 1 <= IntMax && NoLineBreak(params)
    requires |name| >= 1 && AllWordChars(name) && ParseFormulaType(name).None?
    ensures ParseEvent(ToString(a) + "=" + name + "(" + params + ")") == Err(UnknownFormulaType(name))
    ensures ParseAsWritten(ToString(a) + "=" + name + "(" + params + ")") == Err(UnknownFormulaType(name))
  {
    FormulaShape(a, name, params);
  }

  /** A text of the formula shape matches only the formula pattern, with these groups. */
  lemma FormulaShape(a: CellAddress, name: string, params: string)
    requires a.row < 26 && a.column + 1 <= IntMax && NoLineBreak(params)
    requires |name| >= 1 && AllWordChars(name)
    ensures var input := ToString(a) + "=" + name + "(" + params + ")";
      && MatchDelete(input).None? && MatchReference(input).None? && MatchInsert(input).None?
      && MatchFormula(input) == Some((ToString(a), name, params))
      && CommandAddress(ToString(a)) == Ok(a)
  {
    var t := ToString(a);
    var rest := name + "(" + params + ")";
    assert t + "=" + name + "(" + params + ")" == t + "=" + rest;
    CommandAddressText(a);
    ParseToString(a);
    assert rest[|name|] == '(';
    ClosedNotDelete(t + "=" + rest);
    EqualsNotReference(t, rest);
    EqualsNotInsert(t, rest);
    FormulaGroups(t, name, params);
  }

  /** Text ending in ')' does not end in " delete". */
  lemma ClosedNotDelete(input: string)
    requires |input| >= 1 && input[|input| - 1] == ')'
    ensures MatchDelete(input).None?
  {
    if |input| >= 7 {
      assert input[|input| - 7..][6] == ')';
    }
  }

  /** Text holding a character that is neither a capital nor a digit is no address. */
  lemma NotCommandAddress(s: string, k: nat)
    requires k < |s| && !IsUpper(s[k]) && !IsDigit(s[k])
    ensures !IsCommandAddress(s)
  {
    if k > 0 {
      assert s[1..][k - 1] == s[k];
    }
  }

  /** An address, '=' and then text holding a '(' is no reference command. */
  lemma EqualsNotReference(t: string, rest: string)
    requires IsCommandAddress(t) && '(' in rest
    ensures MatchReference(t + "=" + rest).None?
  {
    var input := t + "=" + rest;
    CommandAddressChars(t);
    assert input[|t|] == '=' && input[..|t|] == t && input[|t| + 1..] == rest;
    IndexOfAt(input, '=', |t|);
    var k :| 0 <= k < |rest| && rest[k] == '(';
    NotCommandAddress(rest, k);
  }

  /** An address followed by '=' is no insert command. */
  lemma EqualsNotInsert(t: string, rest: string)
    requires IsCommandAddress(t)
    ensures MatchInsert(t + "=" + rest).None?
  {
    var input := t + "=" + rest;
    assert input == t + ("=" + rest);
    AddressPrefixOf(t, "=" + rest);
    assert input[|t|..][0] == '=';
  }

  /** The groups of the formula pattern in "<address>=<name>(<params>)". */
  lemma FormulaGroups(t: string, name: string, params: string)
    requires IsCommandAddress(t) && NoLineBreak(params)
    requires |name| >= 1 && AllWordChars(name)
    ensures MatchFormula(t + "=" + name + "(" + params + ")") == Some((t, name, params))
  {
    var rest := name + "(" + params + ")";
    assert t + "=" + name + "(" + params + ")" == t + "=" + rest;
    SplitAtEquals(t, rest);
    OpenParen(name, params);
  }

  /** The first '=' after an address is the one that follows it. */
  lemma SplitAtEquals(t: string, rest: string)
    requires IsCommandAddress(t)
    ensures var input := t + "=" + rest;
      IndexOf(input, '=') == Some(|t|) && input[..|t|] == t && input[|t| + 1..] == rest
  {
    var input := t + "=" + rest;
    CommandAddressChars(t);
    assert input[|t|] == '=' && input[..|t|] == t && input[|t| + 1..] == rest;
    IndexOfAt(input, '=', |t|);
  }

  /** In "<name>(<params>)" the first '(' ends the name and the parameters run to the
      closing ')'. */
  lemma OpenParen(name: string, params: string)
    requires |name| >= 1 && AllWordChars(name)
    ensures var rest := name + "(" + params + ")";
      IndexOf(rest, '(') == Some(|name|) && rest[..|name|] == name
      && |rest| >= |name| + 2 && rest[|rest| - 1] == ')' && rest[|name| + 1..|rest| - 1] == params
  {
    var rest := name + "(" + params + ")";
    forall k | 0 <= k < |name|
      ensures name[k] != '('
    {
      assert IsWordChar(name[k]);
    }
    assert rest[|name|] == '(' && rest[..|name|] == name;
    IndexOfAt(rest, '(', |name|);
    assert rest[|name| + 1..|rest| - 1] == params;
  }

  /** A parse that succeeds as written is never a formula event. */
  lemma AsWrittenNoFormula(input: string)
    ensures ParseAsWritten(input).Ok? ==> !ParseAsWritten(input).value.FormulaEvent?
  {
  }

  /** Input that fits no pattern is refused with the input itself. */
  lemma UnmatchedInput(input: string)
    requires MatchDelete(input).None? && MatchReference(input).None?
    requires MatchInsert(input).None? && MatchFormula(input).None?
    ensures ParseEvent(input) == Err(CouldNotParse(input))
    ensures ParseAsWritten(input) == Err(CouldNotParse(input))
  {
  }

  /** A number token that fits an int reads back as that number. */
  lemma NumberToken(n: nat)
    requires n <= IntMax
    ensures ClassifyToken(NatToDecimal(n)) == Ok(LitParam(Int(n)))
  {
    DecimalOfNatToDecimal(n);
  }

  /** An address token with a one-letter row reads back as that address. */
  lemma CellToken(a: CellAddress)
    requires a.row < 26 && a.column + 1 <= IntMax
    ensures ClassifyToken(ToString(a)) == Ok(CellParam(a))
  {
    var t := ToString(a);
    CommandAddressText(a);
    CommandAddressChars(t);
    ParseToString(a);
    assert !AllDigits(t) by { assert !IsDigit(t[0]); }
    assert t != "TRUE" && t != "FALSE" by { assert IsDigit(t[|t| - 1]); }
    assert ':' !in t;
  }

  /** A token "<start>:<end>" of one-letter-row addresses reads back as that range. */
  lemma RangeToken(a: CellAddress, b: CellAddress)
    requires a.row < 26 && a.column + 1 <= IntMax && b.row < 26 && b.column + 1 <= IntMax
    ensures ClassifyToken(ToString(a) + ":" + ToString(b)) == Ok(RangeParam(AddressRange(a, b)))
  {
    var t, u := ToString(a), ToString(b);
    CommandAddressText(a);
    CommandAddressText(b);
    ParseToString(a);
    ParseToString(b);
    RangeTokenGroups(t, u);
  }

  /** "<start>:<end>" is neither a number nor a bool and splits at its ':'. */
  lemma RangeTokenGroups(t: string, u: string)
    requires IsCommandAddress(t) && IsCommandAddress(u)
    ensures var r := t + ":" + u;
      !AllDigits(r) && r != "TRUE" && r != "FALSE" && MatchRangeToken(r) == Some((t, u))
  {
    var r := t + ":" + u;
    CommandAddressChars(t);
    assert !IsDigit(r[0]);
    assert r[|t|] == ':' && r[..|t|] == t && r[|t| + 1..] == u;
    IndexOfAt(r, ':', |t|);
  }

  /** The formula that parse cannot return: "B2=SUM(A1:A3, 5)" (the second token is
      trimmed of its space). */
  lemma FormulaExample(input: string)
    requires input == "B2=SUM(A1:A3, 5)"
    ensures ParseEvent(input) ==
      Ok(FormulaEvent(CellAddress(1, 1), SUM,
                      [RangeParam(AddressRange(CellAddress(0, 0), CellAddress(0, 2))), LitParam(Int(5))]))
    ensures ParseAsWritten(input) == Err(CouldNotParse(input))
  {
    var a := CellAddress(1, 1);
    var params := "A1:A3, 5";
    ExampleCommand(input, a, params);
    FormulaCommandParses(a, SUM, params);
    ExampleTokens();
  }

  lemma ExampleCommand(input: string, a: CellAddress, params: string)
    requires input == "B2=SUM(A1:A3, 5)" && a == CellAddress(1, 1) && params == "A1:A3, 5"
    ensures input == ToString(a) + "=" + FormulaTypeName(SUM) + "(" + params + ")"
    ensures NoLineBreak(params)
  {
    ExampleAddress(1, 1);
  }

  /** The text of the one-letter, one-digit addresses the example uses. */
  lemma ExampleAddress(row: nat, column: nat)
    requires row < 26 && column < 9
    ensures ToString(CellAddress(row, column)) == [LetterChar(row), DigitChar(column + 1)]
  {
    CommandAddressText(CellAddress(row, column));
  }

  lemma ExampleSplit()
    ensures GetlineTokens("A1:A3, 5", ',') == ["A1:A3", " 5"]
  {
    GetlineJoin(["A1:A3", " 5"], ',');
    assert JoinWith(["A1:A3", " 5"], ',') == "A1:A3" + [','] + " 5";
    assert "A1:A3" + [','] + " 5" == "A1:A3, 5";
  }

  lemma ExampleTokens()
    ensures FormulaParams("A1:A3, 5") ==
      Ok([RangeParam(AddressRange(CellAddress(0, 0), CellAddress(0, 2))), LitParam(Int(5))])
  {
    var tokens := GetlineTokens("A1:A3, 5", ',');
    ExampleSplit();
    var first := RangeParam(AddressRange(CellAddress(0, 0), CellAddress(0, 2)));
    var second := LitParam(Int(5));
    ExampleClasses();
    TwoTokens("A1:A3", " 5", first, second);
    assert tokens == ["A1:A3", " 5"];
  }

  /** Two tokens that classify read as their two parameters. */
  lemma TwoTokens(x: string, y: string, p: FormulaParam, q: FormulaParam)
    requires ClassifyToken(Trim(x)) == Ok(p) && ClassifyToken(Trim(y)) == Ok(q)
    ensures TokenParams([x, y]) == Ok([p, q])
  {
    OneToken(x, p);
    TokenParamsSnoc([x], y, [p], q);
    assert [x] + [y] == [x, y] && [p] + [q] == [p, q];
  }

  lemma OneToken(x: string, p: FormulaParam)
    requires ClassifyToken(Trim(x)) == Ok(p)
    ensures TokenParams([x]) == Ok([p])
  {
    var none: seq<string> := [];
    var nothing: seq<FormulaParam> := [];
    TokenParamsSnoc(none, x, nothing, p);
    assert none + [x] == [x] && nothing + [p] == [p];
  }

  /** One more token that classifies adds its parameter. */
  lemma TokenParamsSnoc(tokens: seq<string>, t: string, ps: seq<FormulaParam>, p: FormulaParam)
    requires TokenParams(tokens) == Ok(ps) && ClassifyToken(Trim(t)) == Ok(p)
    ensures TokenParams(tokens + [t]) == Ok(ps + [p])
  {
    assert (tokens + [t])[..|tokens|] == tokens;
  }

  lemma ExampleClasses()
    ensures ClassifyToken(Trim("A1:A3")) == Ok(RangeParam(AddressRange(CellAddress(0, 0), CellAddress(0, 2))))
    ensures ClassifyToken(Trim(" 5")) == Ok(LitParam(Int(5)))
  {
    var a1, a3 := CellAddress(0, 0), CellAddress(0, 2);
    ExampleAddress(0, 0);
    ExampleAddress(0, 2);
    assert ToString(a1) + ":" + ToString(a3) == "A1:A3";
    RangeToken(a1, a3);
    ExampleTrim();
    assert NatToDecimal(5) == "5";
    NumberToken(5);
  }

  lemma ExampleTrim()
    ensures Trim("A1:A3") == "A1:A3" && Trim(" 5") == "5"
  {
    assert " 5"[1..] == "5";
  }
}
