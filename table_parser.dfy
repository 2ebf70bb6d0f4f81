/** TableParser: the text form of literals, formula parameters, formulas and stored cell
    values written to and read from a saved table, each reader returning None wherever
    the source returns std::nullopt. */
module TableParser {
  import opened Wrappers
  import opened Text
  import opened Addresses
  import opened Formulas
  import opened FormulaLibrary

  /** A text made of a prefix and the rest starts with the prefix and leaves the rest. */
  lemma Prefixed(prefix: string, rest: string)
    ensures StartsWith(prefix + rest, prefix) && (prefix + rest)[|prefix|..] == rest
  {
    assert (prefix + rest)[..|prefix|] == prefix;
  }

  /** Texts whose first characters differ do not start alike. */
  lemma NotPrefixed(s: string, prefix: string)
    requires |s| > 0 && |prefix| > 0 && s[0] != prefix[0]
    ensures !StartsWith(s, prefix)
  {
    if |prefix| <= |s| {
      assert s[..|prefix|][0] == s[0];
    }
  }

  // ---------------------------------------------------------------------------------
  // Literal values

  /** serializeLiteralValue: a kind prefix and the payload; numbers are written as their
      integer text. */
  function SerializeLiteral(l: Literal): string
  {
    match l
    case Int(n) => "number:" + IntToDecimal(n)
    case Bool(b) => "bool:" + (if b then "true" else "false")
    case Str(t) => "string:" + t
  }

  /** deserializeLiteralValue. */
  function DeserializeLiteral(s: string): Option<Literal>
  {
    if StartsWith(s, "number:") then
      if IsIntegerText(s[7..]) then Some(Int(IntegerTextValue(s[7..]))) else None
    else if StartsWith(s, "bool:") then
      if s[5..] == "true" then Some(Bool(true))
      else if s[5..] == "false" then Some(Bool(false))
      else None
    else if StartsWith(s, "string:") then Some(Str(s[7..]))
    else None
  }

  /** Every literal reads back as itself. */
  lemma LiteralRoundTrip(l: Literal)
    ensures DeserializeLiteral(SerializeLiteral(l)) == Some(l)
  {
    var t := SerializeLiteral(l);
    match l
    case Int(n) =>
      Prefixed("number:", IntToDecimal(n));
      IntegerTextOfDecimal(n);
    case Bool(b) =>
      Prefixed("bool:", if b then "true" else "false");
      NotPrefixed(t, "number:");
    case Str(x) =>
      Prefixed("string:", x);
      NotPrefixed(t, "number:");
      NotPrefixed(t, "bool:");
  }

  /** A bool payload other than "true" and "false" reads as nothing, and so does a text
      with none of the three prefixes. */
  lemma LiteralRejects(s: string)
    ensures StartsWith(s, "bool:") && s[5..] != "true" && s[5..] != "false" ==>
      DeserializeLiteral(s) == None
    ensures !StartsWith(s, "number:") && !StartsWith(s, "bool:") && !StartsWith(s, "string:") ==>
      DeserializeLiteral(s) == None
  {
    if StartsWith(s, "bool:") {
      NotPrefixed(s, "number:");
    }
  }

  // ---------------------------------------------------------------------------------
  // Formula parameters

  /** An address's text holds only capital letters and digits. */
  lemma AddressText(a: CellAddress)
    ensures forall c :: c in ToString(a) ==> IsUpper(c) || IsDigit(c)
    ensures '-' !in ToString(a) && ',' !in ToString(a) && ')' !in ToString(a) && '(' !in ToString(a)
  {
    var s := ToString(a);
    var n := |RowLabel(a.row)|;
    forall c | c in s
      ensures IsUpper(c) || IsDigit(c)
    {
      var k :| 0 <= k < |s| && s[k] == c;
      if k < n {
        assert s[k] == RowLabel(a.row)[k];
      } else {
        assert s[k] == NatToDecimal(a.column + 1)[k - n];
      }
    }
  }

  /** serializeFormulaParam. */
  function SerializeParam(p: FormulaParam): string
  {
    match p
    case LitParam(l) => "literal:" + SerializeLiteral(l)
    case CellParam(a) => "cell:" + ToString(a)
    case RangeParam(r) => "range:" + ToString(r.start) + "-" + ToString(r.end)
  }

  /** "range:" holds no '-', so the first '-' of a range text comes after it. */
  lemma RangeDash(s: string)
    requires StartsWith(s, "range:") && '-' in s
    ensures IndexOf(s, '-').value >= 6
  {
    var d := IndexOf(s, '-').value;
    assert s[..6] == "range:";
    assert forall k :: 0 <= k < 6 ==> s[k] == s[..6][k];
  }

  /** deserializeFormulaParam, one function per accepted prefix. */
  function DeserializeParam(s: string): Option<FormulaParam>
  {
    if StartsWith(s, "literal:") then LiteralParamOf(s[8..])
    else if StartsWith(s, "cell:") then CellParamOf(s[5..])
    else if StartsWith(s, "range:") then RangeParamOf(s)
    else None
  }

  function LiteralParamOf(t: string): Option<FormulaParam>
  {
    match DeserializeLiteral(t)
    case None => None
    case Some(l) => Some(LitParam(l))
  }

  function CellParamOf(t: string): Option<FormulaParam>
  {
    match ParseAddress(t)
    case None => None
    case Some(a) => Some(CellParam(a))
  }

  /** The corners of a range text are split at its first '-'. */
  function RangeParamOf(s: string): Option<FormulaParam>
    requires StartsWith(s, "range:")
  {
    match IndexOf(s, '-')
    case None => None
    case Some(dashPos) =>
      RangeDash(s);
      RangeOfCorners(s[6..dashPos], s[dashPos + 1..])
  }

  /** The range between two corner texts, when both read as addresses. */
  function RangeOfCorners(first: string, second: string): Option<FormulaParam>
  {
    match (ParseAddress(first), ParseAddress(second))
    case (Some(start), Some(end)) => Some(RangeParam(AddressRange(start, end)))
    case _ => None
  }

  /** The addresses a parameter names have a column whose text fromString reads back. */
  predicate ParamFits(p: FormulaParam)
  {
    match p
    case LitParam(_) => true
    case CellParam(a) => a.column + 1 <= IntMax
    case RangeParam(r) => r.start.column + 1 <= IntMax && r.end.column + 1 <= IntMax
  }

  /** Every parameter whose addresses fit reads back as itself; for a range the first '-'
      is the one between the corners, because an address text holds no '-'. */
  lemma ParamRoundTrip(p: FormulaParam)
    requires ParamFits(p)
    ensures DeserializeParam(SerializeParam(p)) == Some(p)
  {
    match p
    case LitParam(l) => LiteralParamRoundTrip(l);
    case CellParam(a) => CellParamRoundTrip(a);
    case RangeParam(r) => RangeParamRoundTrip(r);
  }

  lemma LiteralParamRoundTrip(l: Literal)
    ensures DeserializeParam(SerializeParam(LitParam(l))) == Some(LitParam(l))
  {
    Prefixed("literal:", SerializeLiteral(l));
    LiteralRoundTrip(l);
  }

  lemma CellParamRoundTrip(a: CellAddress)
    requires a.column + 1 <= IntMax
    ensures DeserializeParam(SerializeParam(CellParam(a))) == Some(CellParam(a))
  {
    var s := SerializeParam(CellParam(a));
    Prefixed("cell:", ToString(a));
    NotPrefixed(s, "literal:");
    ParseToString(a);
  }

  lemma RangeParamRoundTrip(r: AddressRange)
    requires r.start.column + 1 <= IntMax && r.end.column + 1 <= IntMax
    ensures DeserializeParam(SerializeParam(RangeParam(r))) == Some(RangeParam(r))
  {
    var a, b := ToString(r.start), ToString(r.end);
    var s := SerializeParam(RangeParam(r));
    var d := 6 + |a|;
    RangeText(a, b);
    AddressText(r.start);
    DeserializeRange(s, d);
    CornersRoundTrip(r);
  }

  /** The two corners' texts read back as the range. */
  lemma CornersRoundTrip(r: AddressRange)
    requires r.start.column + 1 <= IntMax && r.end.column + 1 <= IntMax
    ensures RangeOfCorners(ToString(r.start), ToString(r.end)) == Some(RangeParam(r))
  {
    ParseToString(r.start);
    ParseToString(r.end);
  }

  /** Where a range text is cut. */
  lemma RangeText(a: string, b: string)
    requires '-' !in a
    ensures var s := "range:" + a + "-" + b;
      && StartsWith(s, "range:") && !StartsWith(s, "literal:") && !StartsWith(s, "cell:")
      && IndexOf(s, '-') == Some(6 + |a|)
      && s[6..6 + |a|] == a && s[6 + |a| + 1..] == b
  {
    var s := "range:" + a + "-" + b;
    var d := 6 + |a|;
    assert s == ("range:" + a) + ("-" + b);
    Prefixed("range:", a + "-" + b);
    NotPrefixed(s, "literal:");
    NotPrefixed(s, "cell:");
    assert s[d] == '-';
    assert s[..d] == "range:" + a;
    assert '-' !in "range:" + a;
    IndexOfFirst(s, '-', d);
  }

  /** A range text is read as the two addresses around its first '-'. */
  lemma DeserializeRange(s: string, d: nat)
    requires StartsWith(s, "range:") && !StartsWith(s, "literal:") && !StartsWith(s, "cell:")
    requires IndexOf(s, '-') == Some(d)
    ensures d >= 6
    ensures DeserializeParam(s) == RangeOfCorners(s[6..d], s[d + 1..])
  {
    assert '-' in s;
    RangeDash(s);
    assert DeserializeParam(s) == RangeParamOf(s);
    assert RangeParamOf(s) == RangeOfCorners(s[6..d], s[d + 1..]);
  }

  /** The first occurrence of c is where c first appears. */
  lemma IndexOfFirst(s: string, c: char, d: nat)
    requires d < |s| && s[d] == c && c !in s[..d]
    ensures IndexOf(s, c) == Some(d)
  {
    assert c in s;
  }

  /** Text with none of the three prefixes is no parameter. */
  lemma UnknownParamPrefix(s: string)
    requires !StartsWith(s, "literal:") && !StartsWith(s, "cell:") && !StartsWith(s, "range:")
    ensures DeserializeParam(s) == None
  {
  }

  // ---------------------------------------------------------------------------------
  // Formulas

  function FormulaTypeName(t: FormulaType): string
  {
    match t
    case SUM => "SUM"
    case AVERAGE => "AVERAGE"
    case MIN => "MIN"
    case MAX => "MAX"
    case CONCAT => "CONCAT"
    case SUBSTR => "SUBSTR"
    case LEN => "LEN"
    case COUNT => "COUNT"
  }

  /** The function-name chain of deserializeFormulaValue. */
  function ParseFormulaType(name: string): (r: Option<FormulaType>)
    ensures r.Some? ==> FormulaTypeName(r.value) == name
  {
    if name == "SUM" then Some(SUM)
    else if name == "AVERAGE" then Some(AVERAGE)
    else if name == "MIN" then Some(MIN)
    else if name == "MAX" then Some(MAX)
    else if name == "CONCAT" then Some(CONCAT)
    else if name == "SUBSTR" then Some(SUBSTR)
    else if name == "LEN" then Some(LEN)
    else if name == "COUNT" then Some(COUNT)
    else None
  }

  /** Every function's name reads back as that function, and the names are the only
      accepted ones. */
  lemma FormulaTypeRoundTrip(t: FormulaType, name: string)
    ensures ParseFormulaType(FormulaTypeName(t)) == Some(t)
    ensures ParseFormulaType(name).None? <==> forall u: FormulaType :: FormulaTypeName(u) != name
  {
    if ParseFormulaType(name).None? {
      forall u: FormulaType
        ensures FormulaTypeName(u) != name
      {
        assert ParseFormulaType(FormulaTypeName(u)) == Some(u);
      }
    }
  }

  function SerializedParams(params: seq<FormulaParam>): (texts: seq<string>)
    ensures |texts| == |params|
    ensures forall k :: 0 <= k < |params| ==> texts[k] == SerializeParam(params[k])
  {
    if |params| == 0 then [] else SerializedParams(params[..|params| - 1]) + [SerializeParam(params[|params| - 1])]
  }

  /** serializeFormulaValue: the name, then the parameters' texts between parentheses
      with ',' between neighbours. */
  function FormulaText(fv: FormulaValue): string
  {
    "formula:" + FormulaTypeName(fv.ftype) + "(" + JoinWith(SerializedParams(fv.parameters), ',') + ")"
  }

  /** Each token read with `parse`, None as soon as one reads as nothing. */
  function ParsedEach<T>(tokens: seq<string>, parse: string -> Option<T>): (r: Option<seq<T>>)
    ensures r.Some? ==> |r.value| == |tokens|
  {
    if |tokens| == 0 then Some([])
    else match ParsedEach(tokens[..|tokens| - 1], parse)
      case None => None
      case Some(xs) =>
        match parse(tokens[|tokens| - 1])
        case None => None
        case Some(x) => Some(xs + [x])
  }

  /** Each token read as a parameter, None as soon as one is not. */
  function DeserializeParams(tokens: seq<string>): (r: Option<seq<FormulaParam>>)
    ensures r.Some? ==> |r.value| == |tokens|
  {
    ParsedEach(tokens, DeserializeParam)
  }

  /** deserializeFormulaValue: the name before the first '(', the parameter text up to the
      first ')', read with getline at every ','. */
  function ParseFormula(s: string): Option<FormulaValue>
  {
    if !StartsWith(s, "formula:") then None else ParseFormulaContent(s[8..])
  }

  /** What follows "formula:", cut at its first '(' and its first ')'. */
  function ParseFormulaContent(content: string): Option<FormulaValue>
  {
    match (IndexOf(content, '('), IndexOf(content, ')'))
    case (Some(openParen), Some(closeParen)) =>
      if openParen < closeParen then ParseCall(content[..openParen], content[openParen + 1..closeParen])
      else None
    case _ => None
  }

  /** A function name and its parameter text. */
  function ParseCall(name: string, paramsText: string): Option<FormulaValue>
  {
    match ParseFormulaType(name)
    case None => None
    case Some(t) =>
      match DeserializeParams(GetlineTokens(paramsText, ','))
      case None => None
      case Some(ps) => Some(FormulaValue(t, ps))
  }

  /** Tokens fail to read exactly when one of them reads as nothing; otherwise each reads
      as the value at its position. */
  lemma {:induction false} ParsedEachIff<T>(tokens: seq<string>, parse: string -> Option<T>)
    ensures ParsedEach(tokens, parse).None? <==>
      exists k :: 0 <= k < |tokens| && parse(tokens[k]).None?
    ensures ParsedEach(tokens, parse).Some? ==>
      forall k :: 0 <= k < |tokens| ==> parse(tokens[k]) == Some(ParsedEach(tokens, parse).value[k])
  {
    if |tokens| > 0 {
      var prefix := tokens[..|tokens| - 1];
      ParsedEachIff(prefix, parse);
      assert forall k :: 0 <= k < |prefix| ==> prefix[k] == tokens[k];
      if ParsedEach(prefix, parse).None? {
        var k :| 0 <= k < |prefix| && parse(prefix[k]).None?;
        assert parse(tokens[k]).None?;
      }
    }
  }

  /** Tokens fail to read exactly when one of them is no parameter; otherwise each reads
      as its own parameter. */
  lemma DeserializeParamsIff(tokens: seq<string>)
    ensures DeserializeParams(tokens).None? <==>
      exists k :: 0 <= k < |tokens| && DeserializeParam(tokens[k]).None?
    ensures DeserializeParams(tokens).Some? ==>
      forall k :: 0 <= k < |tokens| ==> DeserializeParam(tokens[k]) == Some(DeserializeParams(tokens).value[k])
  {
    ParsedEachIff(tokens, DeserializeParam);
  }

  /** A parameter that fits and whose text holds no ',' and no ')' survives a formula. */
  predicate Transportable(p: FormulaParam)
  {
    ParamFits(p) && ',' !in SerializeParam(p) && ')' !in SerializeParam(p)
  }

  /** The only parameters that are not transportable are literals whose text holds
      ',' or ')'. */
  lemma TransportableParams(p: FormulaParam)
    requires ParamFits(p)
    ensures !p.LitParam? ==> Transportable(p)
    ensures p.LitParam? && !p.literal.Str? ==> Transportable(p)
    ensures p.LitParam? && p.literal.Str? ==>
      (Transportable(p) <==> ',' !in p.literal.text && ')' !in p.literal.text)
  {
    match p
    case LitParam(l) => LiteralTransportable(l);
    case CellParam(a) => CellTransportable(a);
    case RangeParam(r) => RangeTransportable(r);
  }

  lemma LiteralTransportable(l: Literal)
    ensures !l.Str? ==> ',' !in SerializeParam(LitParam(l)) && ')' !in SerializeParam(LitParam(l))
    ensures l.Str? ==>
      (',' !in SerializeParam(LitParam(l)) && ')' !in SerializeParam(LitParam(l)) <==>
       ',' !in l.text && ')' !in l.text)
  {
    var prefix := "literal:";
    assert ',' !in prefix && ')' !in prefix;
    match l
    case Int(n) =>
      var kind := "number:";
      assert ',' !in kind && ')' !in kind;
      NumberText(n);
      assert SerializeParam(LitParam(l)) == prefix + (kind + IntToDecimal(n));
    case Bool(b) =>
      var kind := "bool:";
      var word := if b then "true" else "false";
      assert ',' !in kind + word && ')' !in kind + word;
      assert SerializeParam(LitParam(l)) == prefix + (kind + word);
    case Str(x) =>
      var kind := "string:";
      assert ',' !in kind && ')' !in kind;
      assert SerializeParam(LitParam(l)) == prefix + (kind + x);
  }

  lemma CellTransportable(a: CellAddress)
    ensures ',' !in SerializeParam(CellParam(a)) && ')' !in SerializeParam(CellParam(a))
  {
    var prefix := "cell:";
    assert ',' !in prefix && ')' !in prefix;
    AddressText(a);
    assert SerializeParam(CellParam(a)) == prefix + ToString(a);
  }

  lemma RangeTransportable(r: AddressRange)
    ensures ',' !in SerializeParam(RangeParam(r)) && ')' !in SerializeParam(RangeParam(r))
  {
    var prefix, dash := "range:", "-";
    assert ',' !in prefix && ')' !in prefix && ',' !in dash && ')' !in dash;
    AddressText(r.start);
    AddressText(r.end);
    assert SerializeParam(RangeParam(r)) == prefix + ToString(r.start) + dash + ToString(r.end);
  }

  /** A number's text holds digits and possibly a leading '-'. */
  lemma NumberText(n: int)
    ensures ',' !in IntToDecimal(n) && ')' !in IntToDecimal(n)
  {
    var m: nat := if n < 0 then -n else n;
    var digits := NatToDecimal(m);
    assert ',' !in digits && ')' !in digits;
    assert IntToDecimal(n) == if n < 0 then "-" + digits else digits;
  }

  lemma DeserializeSerialized(params: seq<FormulaParam>)
    requires forall k :: 0 <= k < |params| ==> ParamFits(params[k])
    ensures DeserializeParams(SerializedParams(params)) == Some(params)
  {
    var texts := SerializedParams(params);
    forall k | 0 <= k < |texts|
      ensures DeserializeParam(texts[k]) == Some(params[k])
    {
      ParamRoundTrip(params[k]);
    }
    ParsedEachAll(texts, DeserializeParam, params);
  }

  /** Tokens that each read as the value at their position read as those values. */
  lemma {:induction false} ParsedEachAll<T>(tokens: seq<string>, parse: string -> Option<T>, xs: seq<T>)
    requires |xs| == |tokens| && forall k :: 0 <= k < |tokens| ==> parse(tokens[k]) == Some(xs[k])
    ensures ParsedEach(tokens, parse) == Some(xs)
  {
    if |tokens| > 0 {
      var n := |tokens|;
      var prefix, xprefix := tokens[..n - 1], xs[..n - 1];
      assert forall k :: 0 <= k < n - 1 ==> prefix[k] == tokens[k] && xprefix[k] == xs[k];
      ParsedEachAll(prefix, parse, xprefix);
      assert xs == xprefix + [xs[n - 1]];
    }
  }

  /** A formula reads back as itself when its parameters are transportable; in
      particular "NAME()" reads back as the function with no parameters. */
  lemma FormulaRoundTrip(fv: FormulaValue)
    requires forall k :: 0 <= k < |fv.parameters| ==> Transportable(fv.parameters[k])
    ensures ParseFormula(FormulaText(fv)) == Some(fv)
  {
    var name := FormulaTypeName(fv.ftype);
    var texts := SerializedParams(fv.parameters);
    assert forall k :: 0 <= k < |texts| ==> ')' !in texts[k] && ',' !in texts[k] && texts[k] != "";
    JoinWithAvoids(texts, ',', ')');
    NameAvoidsParens(fv.ftype);
    FormulaCut(name, JoinWith(texts, ','));
    GetlineJoin(texts, ',');
    DeserializeSerialized(fv.parameters);
    FormulaTypeRoundTrip(fv.ftype, name);
    CallOf(name, JoinWith(texts, ','), fv.ftype, fv.parameters);
  }

  lemma NameAvoidsParens(t: FormulaType)
    ensures '(' !in FormulaTypeName(t) && ')' !in FormulaTypeName(t)
  {
  }

  /** A call whose name and tokens read back reads back as the formula. */
  lemma CallOf(name: string, paramsText: string, t: FormulaType, ps: seq<FormulaParam>)
    requires ParseFormulaType(name) == Some(t)
    requires DeserializeParams(GetlineTokens(paramsText, ',')) == Some(ps)
    ensures ParseCall(name, paramsText) == Some(FormulaValue(t, ps))
  {
  }

  /** A formula text is cut at the first '(' and the first ')'. */
  lemma FormulaCut(name: string, paramsText: string)
    requires '(' !in name && ')' !in name && ')' !in paramsText
    ensures ParseFormula("formula:" + name + "(" + paramsText + ")") == ParseCall(name, paramsText)
  {
    var content := name + "(" + paramsText + ")";
    assert "formula:" + name + "(" + paramsText + ")" == "formula:" + content;
    FormulaPrefix(content);
    ContentCut(name, paramsText);
  }

  /** "formula:" is dropped before the content is read. */
  lemma FormulaPrefix(content: string)
    ensures ParseFormula("formula:" + content) == ParseFormulaContent(content)
  {
    Prefixed("formula:", content);
  }

  lemma ContentCut(name: string, paramsText: string)
    requires '(' !in name && ')' !in name && ')' !in paramsText
    ensures ParseFormulaContent(name + "(" + paramsText + ")") == ParseCall(name, paramsText)
  {
    var content := name + "(" + paramsText + ")";
    assert content[|name|] == '(' && content[..|name|] == name;
    IndexOfFirst(content, '(', |name|);
    var close := |name| + 1 + |paramsText|;
    assert content[close] == ')' && content[..close] == name + "(" + paramsText;
    IndexOfFirst(content, ')', close);
    assert content[|name| + 1..close] == paramsText;
  }

  lemma {:induction false} JoinWithAvoids(pieces: seq<string>, d: char, c: char)
    requires c != d && forall k :: 0 <= k < |pieces| ==> c !in pieces[k]
    ensures c !in JoinWith(pieces, d)
  {
    if |pieces| > 1 {
      JoinWithAvoids(pieces[1..], d, c);
    }
  }

  /** An unknown function name, or any token that is no parameter, reads as nothing. */
  lemma ParseFormulaRejects(name: string, paramsText: string)
    requires '(' !in name && ')' !in name && ')' !in paramsText
    ensures ParseFormulaType(name).None? ==> ParseFormula("formula:" + name + "(" + paramsText + ")") == None
    ensures (exists k :: 0 <= k < |GetlineTokens(paramsText, ',')| &&
               DeserializeParam(GetlineTokens(paramsText, ',')[k]).None?) ==>
      ParseFormula("formula:" + name + "(" + paramsText + ")") == None
  {
    FormulaCut(name, paramsText);
    DeserializeParamsIff(GetlineTokens(paramsText, ','));
  }

  // The two loops of the formula codec.

  /** serializeFormulaValue: the parameter text, then the function's name in front. */
  method SerializeFormulaValue(fv: FormulaValue) returns (s: string)
    ensures s == FormulaText(fv)
  {
    var paramsStr := SerializeParamsText(fv.parameters);
    var typeStr: string;
    match fv.ftype {
      case SUM => typeStr := "SUM";
      case AVERAGE => typeStr := "AVERAGE";
      case MIN => typeStr := "MIN";
      case MAX => typeStr := "MAX";
      case CONCAT => typeStr := "CONCAT";
      case SUBSTR => typeStr := "SUBSTR";
      case LEN => typeStr := "LEN";
      case COUNT => typeStr := "COUNT";
    }
    s := "formula:" + typeStr + "(" + paramsStr + ")";
  }

  /** The loop of serializeFormulaValue: each parameter's text, a ',' after all but the
      last. */
  method SerializeParamsText(params: seq<FormulaParam>) returns (paramsStr: string)
    ensures paramsStr == JoinWith(SerializedParams(params), ',')
  {
    ghost var texts := SerializedParams(params);
    ghost var joined := "";
    paramsStr := "";
    var i := 0;
    while i < |params|
      invariant 0 <= i <= |params|
      invariant joined == JoinWith(texts[..i], ',')
      invariant paramsStr == joined + (if 0 < i < |params| then "," else "")
    {
      var text := SerializeParam(params[i]);
      assert text == texts[i];
      JoinStep(texts, i, ',');
      ghost var next := if i == 0 then text else joined + "," + text;
      assert next == JoinWith(texts[..i + 1], ',');
      paramsStr := paramsStr + text;
      assert paramsStr == next;
      joined := next;
      if i < |params| - 1 {
        paramsStr := paramsStr + ",";
      }
      i := i + 1;
    }
    assert texts[..i] == texts;
  }

  /** Joining one more piece adds the delimiter, unless it is the first piece. */
  lemma JoinStep(pieces: seq<string>, i: nat, d: char)
    requires i < |pieces|
    ensures JoinWith(pieces[..i + 1], d) ==
      if i == 0 then pieces[0] else JoinWith(pieces[..i], d) + [d] + pieces[i]
  {
    if i > 0 {
      assert pieces[..i + 1] == pieces[..i] + [pieces[i]];
      JoinWithSnoc(pieces[..i], pieces[i], d);
    }
  }

  lemma {:induction false} JoinWithSnoc(pieces: seq<string>, p: string, d: char)
    requires |pieces| >= 1
    ensures JoinWith(pieces + [p], d) == JoinWith(pieces, d) + [d] + p
  {
    if |pieces| > 1 {
      assert (pieces + [p])[1..] == pieces[1..] + [p];
      JoinWithSnoc(pieces[1..], p, d);
    }
  }

  /** deserializeFormulaValue: the checks on "formula:", the parentheses and the name,
      then the getline loop over the parameter text. */
  method DeserializeFormulaValue(s: string) returns (r: Option<FormulaValue>)
    ensures r == ParseFormula(s)
  {
    if !StartsWith(s, "formula:") {
      return None;
    }
    var content := s[8..];
    var openParen := IndexOf(content, '(');
    var closeParen := IndexOf(content, ')');
    if openParen.None? || closeParen.None? || openParen.value >= closeParen.value {
      return None;
    }
    assert ParseFormula(s) == ParseCall(content[..openParen.value], content[openParen.value + 1..closeParen.value]);
    var formulaType := ParseFormulaType(content[..openParen.value]);
    if formulaType.None? {
      return None;
    }
    var tokens := GetlineTokens(content[openParen.value + 1..closeParen.value], ',');
    var params := DeserializeTokens(tokens);
    if params.None? {
      return None;
    }
    r := Some(FormulaValue(formulaType.value, params.value));
  }

  /** The getline loop of deserializeFormulaValue, over the tokens it reads: None at the
      first token that is no parameter. */
  method DeserializeTokens(tokens: seq<string>) returns (r: Option<seq<FormulaParam>>)
    ensures r == DeserializeParams(tokens)
  {
    var params: seq<FormulaParam> := [];
    var i := 0;
    while i < |tokens|
      invariant 0 <= i <= |tokens|
      invariant DeserializeParams(tokens[..i]) == Some(params)
    {
      assert tokens[..i + 1][..i] == tokens[..i];
      var param := DeserializeParam(tokens[i]);
      if param.None? {
        ParsedEachPrefixNone(tokens, i + 1, DeserializeParam);
        return None;
      }
      params := params + [param.value];
      i := i + 1;
    }
    assert tokens[..i] == tokens;
    r := Some(params);
  }

  /** A prefix that reads as nothing makes the whole sequence read as nothing. */
  lemma ParsedEachPrefixNone<T>(tokens: seq<string>, n: nat, parse: string -> Option<T>)
    requires n <= |tokens| && ParsedEach(tokens[..n], parse).None?
    ensures ParsedEach(tokens, parse).None?
  {
    ParsedEachIff(tokens[..n], parse);
    var k :| 0 <= k < n && parse(tokens[..n][k]).None?;
    assert tokens[..n][k] == tokens[k];
    ParsedEachIff(tokens, parse);
  }

  // ---------------------------------------------------------------------------------
  // Cell values

  /** serializeCellValue. */
  function SerializeCell(cv: CellValue): string
  {
    match cv
    case Lit(l) => SerializeLiteral(l)
    case Ref(a) => "reference:" + ToString(a)
    case Formula(fv) => FormulaText(fv)
  }

  /** deserializeCellValue. */
  function DeserializeCell(s: string): Option<CellValue>
  {
    if StartsWith(s, "number:") || StartsWith(s, "bool:") || StartsWith(s, "string:") then
      match DeserializeLiteral(s)
      case None => None
      case Some(l) => Some(Lit(l))
    else if StartsWith(s, "reference:") then
      match ParseAddress(s[10..])
      case None => None
      case Some(a) => Some(Ref(a))
    else if StartsWith(s, "formula:") then
      match ParseFormula(s)
      case None => None
      case Some(fv) => Some(Formula(fv))
    else None
  }

  /** What a cell value needs to read back as itself. */
  predicate CellFits(cv: CellValue)
  {
    match cv
    case Lit(_) => true
    case Ref(a) => a.column + 1 <= IntMax
    case Formula(fv) => forall k :: 0 <= k < |fv.parameters| ==> Transportable(fv.parameters[k])
  }

  /** Every cell value that fits reads back as itself; text with no known prefix reads
      as nothing. */
  lemma CellRoundTrip(cv: CellValue, s: string)
    requires CellFits(cv)
    ensures DeserializeCell(SerializeCell(cv)) == Some(cv)
    ensures (!StartsWith(s, "number:") && !StartsWith(s, "bool:") && !StartsWith(s, "string:")
             && !StartsWith(s, "reference:") && !StartsWith(s, "formula:")) ==> DeserializeCell(s) == None
  {
    var t := SerializeCell(cv);
    match cv
    case Lit(l) =>
      LiteralRoundTrip(l);
      match l {
        case Int(n) => assert t[..7] == "number:";
        case Bool(b) => assert t[..5] == "bool:";
        case Str(x) => assert t[..7] == "string:";
      }
    case Ref(a) =>
      assert t[..10] == "reference:" && t[10..] == ToString(a);
      assert !StartsWith(t, "number:") by { assert t[0] != "number:"[0]; }
      assert !StartsWith(t, "bool:") by { assert t[0] != "bool:"[0]; }
      assert !StartsWith(t, "string:") by { assert t[0] != "string:"[0]; }
      ParseToString(a);
    case Formula(fv) =>
      assert t[..8] == "formula:";
      assert !StartsWith(t, "number:") by { assert t[0] != "number:"[0]; }
      assert !StartsWith(t, "bool:") by { assert t[0] != "bool:"[0]; }
      assert !StartsWith(t, "string:") by { assert t[0] != "string:"[0]; }
      assert !StartsWith(t, "reference:") by { assert t[0] != "reference:"[0]; }
      FormulaRoundTrip(fv);
  }
}
