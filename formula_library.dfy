/** The value-level half of CellEvaluator.cpp: the conversions of a resolved literal
    (literalValueToString, getNumericValue, getStringValue), the poisoning rule
    (containsErrorLiteral), and what each of the eight formula functions computes from its
    already resolved argument values. */
module FormulaLibrary {
  import opened Wrappers
  import opened Text
  import opened Formulas

  const ValueError: string := "#VALUE!"
  const RefError: string := "#REF!"

  /** literalValueToString. */
  function LiteralToString(l: Literal): string
  {
    match l
    case Int(n) => IntToDecimal(n)
    case Bool(b) => if b then "TRUE" else "FALSE"
    case Str(t) => t
  }

  /** getStringValue: the text of a string, literalValueToString of anything else; the
      two conversions agree on every literal. */
  function StringValue(l: Literal): (s: string)
    ensures s == LiteralToString(l)
  {
    match l
    case Str(t) => t
    case _ => LiteralToString(l)
  }

  /** Text that the model counts as a number: an optional sign and one or more decimal
      digits (the integer part of what std::stod accepts in full). */
  predicate IsIntegerText(t: string)
  {
    || (|t| >= 1 && AllDigits(t))
    || (|t| >= 2 && (t[0] == '-' || t[0] == '+') && AllDigits(t[1..]))
  }

  function IntegerTextValue(t: string): int
    requires IsIntegerText(t)
  {
    if AllDigits(t) then DecimalValue(t) as int
    else if t[0] == '-' then -(DecimalValue(t[1..]) as int)
    else DecimalValue(t[1..])
  }

  /** getNumericValue over integers: None stands for the NaN the source returns for text
      that is not a number. */
  function NumericValue(l: Literal): Option<int>
  {
    match l
    case Int(n) => Some(n)
    case Bool(b) => Some(if b then 1 else 0)
    case Str(t) => if IsIntegerText(t) then Some(IntegerTextValue(t)) else None
  }

  /** The five error texts of containsErrorLiteral; "#ERROR!" is matched as a prefix. */
  predicate IsErrorText(t: string)
  {
    t == "#VALUE!" || t == "#REF!" || StartsWith(t, "#ERROR!") || t == "#DIV/0!" || t == "#NAME?"
  }

  predicate IsErrorLiteral(l: Literal)
  {
    l.Str? && IsErrorText(l.text)
  }

  /** containsErrorLiteral: some value is an error string. */
  function ContainsErrorLiteral(vals: seq<Literal>): (b: bool)
    ensures b <==> exists i :: 0 <= i < |vals| && IsErrorLiteral(vals[i])
  {
    if vals == [] then false
    else
      var init := vals[..|vals| - 1];
      assert forall i :: 0 <= i < |init| ==> init[i] == vals[i];
      ContainsErrorLiteral(init) || IsErrorLiteral(vals[|vals| - 1])
  }

  // ---------------------------------------------------------------------------------
  // Folds over the argument values, each read front to back as the source's loops do.

  /** The numeric entries of the values, in order; non-numeric ones are skipped. */
  function Numerics(vals: seq<Literal>): (ns: seq<int>)
    ensures |ns| <= |vals|
  {
    if vals == [] then []
    else
      var init := Numerics(vals[..|vals| - 1]);
      match NumericValue(vals[|vals| - 1])
      case Some(x) => init + [x]
      case None => init
  }

  function Sum(xs: seq<int>): int
  {
    if xs == [] then 0 else Sum(xs[..|xs| - 1]) + xs[|xs| - 1]
  }

  function Minimum(xs: seq<int>): (m: int)
    requires xs != []
    ensures m in xs && forall i :: 0 <= i < |xs| ==> m <= xs[i]
  {
    if |xs| == 1 then xs[0]
    else
      var m := Minimum(xs[..|xs| - 1]);
      assert forall i :: 0 <= i < |xs| - 1 ==> xs[..|xs| - 1][i] == xs[i];
      if xs[|xs| - 1] < m then xs[|xs| - 1] else m
  }

  function Maximum(xs: seq<int>): (m: int)
    requires xs != []
    ensures m in xs && forall i :: 0 <= i < |xs| ==> xs[i] <= m
  {
    if |xs| == 1 then xs[0]
    else
      var m := Maximum(xs[..|xs| - 1]);
      assert forall i :: 0 <= i < |xs| - 1 ==> xs[..|xs| - 1][i] == xs[i];
      if m < xs[|xs| - 1] then xs[|xs| - 1] else m
  }

  /** The string forms that CONCAT keeps: the non-empty ones, in order. */
  function NonEmptyStrings(vals: seq<Literal>): (ss: seq<string>)
    ensures |ss| <= |vals|
    ensures forall k :: 0 <= k < |ss| ==> ss[k] != ""
  {
    if vals == [] then []
    else
      var init := NonEmptyStrings(vals[..|vals| - 1]);
      var s := StringValue(vals[|vals| - 1]);
      if s == "" then init else init + [s]
  }

  /** The pieces with the delimiter between neighbours. */
  function JoinStrings(pieces: seq<string>, delimiter: string): string
  {
    if pieces == [] then ""
    else if |pieces| == 1 then pieces[0]
    else JoinStrings(pieces[..|pieces| - 1], delimiter) + delimiter + pieces[|pieces| - 1]
  }

  /** evalCOUNT's test: neither the empty string nor a string that is not a number. */
  predicate Counted(l: Literal)
  {
    var isEmptyString := l.Str? && l.text == "";
    var isNaN := l.Str? && NumericValue(l).None?;
    !isEmptyString && !isNaN
  }

  function CountCounted(vals: seq<Literal>): (c: nat)
    ensures c <= |vals|
  {
    if vals == [] then 0
    else CountCounted(vals[..|vals| - 1]) + (if Counted(vals[|vals| - 1]) then 1 else 0)
  }

  // ---------------------------------------------------------------------------------
  // AVERAGE's text: std::to_string(sum / count) is printf's "%f", six decimals.

  /** num * 10^6 / den rounded to the nearest integer, ties to even. */
  function ScaledRounded(num: nat, den: nat): nat
    requires den > 0
  {
    var q := num * 1000000 / den;
    var rem := num * 1000000 % den;
    if 2 * rem > den || (2 * rem == den && q % 2 == 1) then q + 1 else q
  }

  /** The lowest k decimal digits of x, zero-padded. */
  function FixedDigits(x: nat, k: nat): (s: string)
    ensures |s| == k && AllDigits(s)
    ensures DecimalValue(s) == x % Pow10(k)
  {
    if k == 0 then ""
    else
      var init := FixedDigits(x / 10, k - 1);
      var s := init + [DigitChar(x % 10)];
      assert s[..|s| - 1] == init;
      ModPow10Step(x, k);
      s
  }

  /** The quotient sum / count in "%f" form. */
  function AverageText(sum: int, count: nat): string
    requires count > 0
  {
    var n := ScaledRounded(if sum < 0 then -sum else sum, count);
    (if sum < 0 then "-" else "") + NatToDecimal(n / 1000000) + "." + FixedDigits(n % 1000000, 6)
  }

  // ---------------------------------------------------------------------------------
  // The eight functions over resolved argument values (shape checks on the unresolved
  // parameters are in the resolver).

  /** evalSUM after flattenArgs. */
  function SumOf(vals: seq<Literal>): Literal
  {
    if ContainsErrorLiteral(vals) || vals == [] then Str(ValueError)
    else
      var ns := Numerics(vals);
      if ns == [] then Str(ValueError) else Int(Sum(ns))
  }

  /** evalAVERAGE after flattenArgs. */
  function AverageOf(vals: seq<Literal>): Literal
  {
    if ContainsErrorLiteral(vals) || vals == [] then Str(ValueError)
    else
      var ns := Numerics(vals);
      if ns == [] then Str(ValueError) else Str(AverageText(Sum(ns), |ns|))
  }

  /** evalMIN after expandRange. */
  function MinOf(vals: seq<Literal>): Literal
  {
    if ContainsErrorLiteral(vals) then Str(ValueError)
    else
      var ns := Numerics(vals);
      if ns == [] then Str(ValueError) else Int(Minimum(ns))
  }

  /** evalMAX after expandRange. */
  function MaxOf(vals: seq<Literal>): Literal
  {
    if ContainsErrorLiteral(vals) then Str(ValueError)
    else
      var ns := Numerics(vals);
      if ns == [] then Str(ValueError) else Int(Maximum(ns))
  }

  /** evalCONCAT after expandRange. */
  function ConcatOf(vals: seq<Literal>, delimiter: string): Literal
  {
    if ContainsErrorLiteral(vals) then Str(ValueError)
    else
      var joined := JoinStrings(NonEmptyStrings(vals), delimiter);
      if joined == "" && vals != [] then Str(ValueError) else Str(joined)
  }

  /** evalSUBSTR after flattenArgs: text, 1-based start and length are the first three
      values. */
  function SubstrOf(vals: seq<Literal>): Literal
    requires |vals| >= 3
  {
    if ContainsErrorLiteral(vals) then Str(ValueError)
    else
      var text := StringValue(vals[0]);
      match (NumericValue(vals[1]), NumericValue(vals[2]))
      case (Some(start), Some(length)) =>
        if start < 1 || length <= 0 then Str(ValueError)
        else if start - 1 >= |text| then Str(ValueError)
        else if start - 1 + length > |text| then Str(ValueError)
        else Str(text[start - 1..start - 1 + length])
      case _ => Str(ValueError)
  }

  /** evalLEN after flattenArgs. */
  function LenOf(vals: seq<Literal>): Literal
    requires |vals| >= 1
  {
    if ContainsErrorLiteral(vals) then Str(ValueError) else Int(|StringValue(vals[0])|)
  }

  /** evalCOUNT after expandRange. */
  function CountOf(vals: seq<Literal>): Literal
  {
    if ContainsErrorLiteral(vals) then Str(ValueError) else Int(CountCounted(vals))
  }

  // ---------------------------------------------------------------------------------
  // Properties of the folds.

  lemma {:induction false} NumericsMembers(vals: seq<Literal>)
    ensures forall x :: x in Numerics(vals) <==>
      exists i :: 0 <= i < |vals| && NumericValue(vals[i]) == Some(x)
  {
    if vals != [] {
      var init := vals[..|vals| - 1];
      NumericsMembers(init);
      assert forall i :: 0 <= i < |init| ==> init[i] == vals[i];
    }
  }

  /** There is no numeric entry exactly when no value is a number. */
  lemma NumericsEmpty(vals: seq<Literal>)
    ensures Numerics(vals) == [] <==> forall i :: 0 <= i < |vals| ==> NumericValue(vals[i]).None?
  {
    NumericsMembers(vals);
    if Numerics(vals) != [] {
      assert Numerics(vals)[0] in Numerics(vals);
    }
  }

  lemma {:induction false} NumericsAppend(a: seq<Literal>, b: seq<Literal>)
    ensures Numerics(a + b) == Numerics(a) + Numerics(b)
  {
    if b == [] {
      assert a + b == a;
    } else {
      NumericsAppend(a, b[..|b| - 1]);
      assert (a + b)[..|a + b| - 1] == a + b[..|b| - 1];
    }
  }

  lemma {:induction false} SumAppend(xs: seq<int>, ys: seq<int>)
    ensures Sum(xs + ys) == Sum(xs) + Sum(ys)
  {
    if ys == [] {
      assert xs + ys == xs;
    } else {
      SumAppend(xs, ys[..|ys| - 1]);
      assert (xs + ys)[..|xs + ys| - 1] == xs + ys[..|ys| - 1];
    }
  }

  lemma ErrorAppend(a: seq<Literal>, b: seq<Literal>)
    ensures ContainsErrorLiteral(a + b) <==> ContainsErrorLiteral(a) || ContainsErrorLiteral(b)
  {
    if ContainsErrorLiteral(a + b) {
      var i :| 0 <= i < |a + b| && IsErrorLiteral((a + b)[i]);
      if i < |a| {
        assert a[i] == (a + b)[i];
      } else {
        assert b[i - |a|] == (a + b)[i];
      }
    }
    if ContainsErrorLiteral(a) {
      var i :| 0 <= i < |a| && IsErrorLiteral(a[i]);
      assert (a + b)[i] == a[i];
    }
    if ContainsErrorLiteral(b) {
      var i :| 0 <= i < |b| && IsErrorLiteral(b[i]);
      assert (a + b)[|a| + i] == b[i];
    }
  }

  /** The poisoning rule: an error string among the values makes every function
      "#VALUE!". */
  lemma PoisonedArguments(vals: seq<Literal>, delimiter: string)
    requires ContainsErrorLiteral(vals)
    ensures SumOf(vals) == AverageOf(vals) == Str(ValueError)
    ensures MinOf(vals) == MaxOf(vals) == CountOf(vals) == Str(ValueError)
    ensures ConcatOf(vals, delimiter) == LenOf(vals) == Str(ValueError)
    ensures |vals| >= 3 ==> SubstrOf(vals) == Str(ValueError)
  {
  }

  /** SUM fails exactly when the values are poisoned, empty or hold no number. */
  lemma SumOfError(vals: seq<Literal>)
    ensures SumOf(vals) == Str(ValueError) <==>
      || ContainsErrorLiteral(vals)
      || vals == []
      || forall i :: 0 <= i < |vals| ==> NumericValue(vals[i]).None?
    ensures SumOf(vals).Str? ==> SumOf(vals) == Str(ValueError)
  {
    NumericsEmpty(vals);
  }

  /** SUM over spliced argument lists is the sum of the parts. */
  lemma SumOfAppend(a: seq<Literal>, b: seq<Literal>)
    requires SumOf(a).Int? && SumOf(b).Int?
    ensures SumOf(a + b) == Int(SumOf(a).n + SumOf(b).n)
  {
    NumericsAppend(a, b);
    SumAppend(Numerics(a), Numerics(b));
    ErrorAppend(a, b);
  }

  /** SUM skips text that is not a number. */
  lemma SumSkipsText(vals: seq<Literal>, t: string)
    requires vals != [] && !IsIntegerText(t) && !IsErrorText(t)
    ensures SumOf(vals + [Str(t)]) == SumOf(vals)
  {
    NumericsAppend(vals, [Str(t)]);
    assert Numerics([Str(t)]) == [];
    assert vals + [Str(t)] + [] == vals + [Str(t)];
    ErrorAppend(vals, [Str(t)]);
  }

  /** The AVERAGE text is "%f" of a number: a '-' exactly for a negative sum, the integer
      part in to_string form, a '.', and six fraction digits; read as a number of
      millionths, the digits are the rounded mean's magnitude. */
  lemma AverageTextIsNumber(sum: int, count: nat)
    requires count > 0
    ensures |AverageText(sum, count)| > 0
    ensures AverageText(sum, count)[0] == '-' || IsDigit(AverageText(sum, count)[0])
    ensures var t := AverageText(sum, count);
      var s := if sum < 0 then 1 else 0;
      |t| >= s + 8 && (t[0] == '-' <==> sum < 0) && t[|t| - 7] == '.' &&
      Canonical(t[s..|t| - 7]) && AllDigits(t[|t| - 6..]) &&
      DecimalValue(t[s..|t| - 7]) * 1000000 + DecimalValue(t[|t| - 6..]) ==
        ScaledRounded(if sum < 0 then -sum else sum, count)
  {
    var n := ScaledRounded(if sum < 0 then -sum else sum, count);
    var sign: string := if sum < 0 then "-" else "";
    var ip, fp := NatToDecimal(n / 1000000), FixedDigits(n % 1000000, 6);
    assert AverageText(sum, count) == sign + ip + "." + fp;
    FixedTextParts(sign, ip, fp);
    DecimalOfNatToDecimal(n / 1000000);
    MillionthsParts(n, ip, fp);
  }

  /** Where the parts of sign + ip + "." + fp sit. */
  lemma FixedTextParts(sign: string, ip: string, fp: string)
    requires |sign| <= 1 && |ip| >= 1 && |fp| == 6
    ensures var t := sign + ip + "." + fp;
      |t| == |sign| + |ip| + 7 && t[|sign|..|t| - 7] == ip && t[|t| - 6..] == fp &&
      t[|t| - 7] == '.' && t[0] == (if |sign| == 1 then sign[0] else ip[0])
  {
  }

  /** The integer part and the six fraction digits of n millionths. */
  lemma MillionthsParts(n: nat, ip: string, fp: string)
    requires ip == NatToDecimal(n / 1000000) && fp == FixedDigits(n % 1000000, 6)
    requires DecimalValue(ip) == n / 1000000
    ensures Canonical(ip) && AllDigits(fp)
    ensures DecimalValue(ip) * 1000000 + DecimalValue(fp) == n
  {
    CanonicalDecimal(n / 1000000);
    SixDigits(n % 1000000);
    assert DecimalValue(fp) == n % 1000000;
  }

  lemma CanonicalDecimal(m: nat)
    ensures Canonical(NatToDecimal(m))
  {
    if m < 10 {
      assert |NatToDecimal(m)| == 1;
    }
  }

  lemma SixDigits(r: nat)
    requires r < 1000000
    ensures DecimalValue(FixedDigits(r, 6)) == r
  {
    Pow10Six();
    SmallFixedDigits(r, 6);
  }

  lemma SmallFixedDigits(r: nat, k: nat)
    requires r < Pow10(k)
    ensures DecimalValue(FixedDigits(r, k)) == r
  {
  }

  lemma Pow10Six()
    ensures Pow10(6) == 1000000
  {
    assert Pow10(3) == 1000;
  }

  /** ScaledRounded is the nearest number of millionths: at most half a unit away. */
  lemma ScaledRoundedNearest(num: nat, den: nat)
    requires den > 0
    ensures var n := ScaledRounded(num, den);
      2 * (num * 1000000 - n * den) <= den && 2 * (n * den - num * 1000000) <= den
  {
    var q := num * 1000000 / den;
    var rem := num * 1000000 % den;
    assert num * 1000000 == q * den + rem;
    assert (q + 1) * den == q * den + den;
  }

  /** AVERAGE fails in exactly the cases SUM fails. */
  lemma AverageOfError(vals: seq<Literal>)
    ensures AverageOf(vals) == Str(ValueError) <==> SumOf(vals) == Str(ValueError)
  {
    var ns := Numerics(vals);
    if !ContainsErrorLiteral(vals) && vals != [] && ns != [] {
      AverageTextIsNumber(Sum(ns), |ns|);
      assert ValueError[0] == '#';
    }
  }

  lemma ScaledExact(mag: nat, mm: nat, count: nat)
    requires count > 0 && mag == mm * count
    ensures ScaledRounded(mag, count) == mm * 1000000
  {
    assert mag * 1000000 == (mm * 1000000) * count;
    DivModUnique(mag * 1000000, mm * 1000000, count);
  }

  lemma WholeText(mm: nat)
    ensures mm * 1000000 / 1000000 == mm && mm * 1000000 % 1000000 == 0
    ensures FixedDigits(0, 6) == "000000"
  {
    DivModUnique(mm * 1000000, mm, 1000000);
  }

  lemma ExactQuotient(sum: int, count: nat)
    requires count > 0 && sum % count == 0
    ensures sum == (sum / count) * count
    ensures sum < 0 <==> sum / count < 0
    ensures sum < 0 ==> -sum == -(sum / count) * count
  {
    var m := sum / count;
    SignProduct(m, count);
    assert -(m * count) == (-m) * count;
  }

  lemma AverageTextOfScaled(sum: int, count: nat, mm: nat)
    requires count > 0
    requires ScaledRounded(if sum < 0 then -sum else sum, count) == mm * 1000000
    ensures AverageText(sum, count) == (if sum < 0 then "-" else "") + NatToDecimal(mm) + ".000000"
  {
    WholeText(mm);
  }

  /** When the mean is whole, AVERAGE's text is that integer with six zero decimals. */
  lemma AverageTextWhole(sum: int, count: nat)
    requires count > 0 && sum % count == 0
    ensures AverageText(sum, count) == IntToDecimal(sum / count) + ".000000"
  {
    var m: int := sum / count;
    ExactQuotient(sum, count);
    if sum < 0 {
      ScaledExact(-sum, -m, count);
      AverageTextOfScaled(sum, count, -m);
    } else {
      ScaledExact(sum, m, count);
      AverageTextOfScaled(sum, count, m);
    }
  }

  /** MIN fails exactly when the values are poisoned or hold no number; otherwise it is a
      numeric entry no larger than any other. */
  lemma MinOfSpec(vals: seq<Literal>)
    ensures MinOf(vals).Str? <==>
      ContainsErrorLiteral(vals) || forall i :: 0 <= i < |vals| ==> NumericValue(vals[i]).None?
    ensures MinOf(vals).Str? ==> MinOf(vals) == Str(ValueError)
    ensures MinOf(vals).Int? ==>
      && (exists i :: 0 <= i < |vals| && NumericValue(vals[i]) == Some(MinOf(vals).n))
      && forall i :: 0 <= i < |vals| && NumericValue(vals[i]).Some? ==>
           MinOf(vals).n <= NumericValue(vals[i]).value
  {
    NumericsEmpty(vals);
    NumericsMembers(vals);
    if MinOf(vals).Int? {
      var ns := Numerics(vals);
      forall i | 0 <= i < |vals| && NumericValue(vals[i]).Some?
        ensures MinOf(vals).n <= NumericValue(vals[i]).value
      {
        var x := NumericValue(vals[i]).value;
        assert x in ns;
        var j :| 0 <= j < |ns| && ns[j] == x;
      }
    }
  }

  /** MAX fails exactly when the values are poisoned or hold no number; otherwise it is a
      numeric entry no smaller than any other. */
  lemma MaxOfSpec(vals: seq<Literal>)
    ensures MaxOf(vals).Str? <==>
      ContainsErrorLiteral(vals) || forall i :: 0 <= i < |vals| ==> NumericValue(vals[i]).None?
    ensures MaxOf(vals).Str? ==> MaxOf(vals) == Str(ValueError)
    ensures MaxOf(vals).Int? ==>
      && (exists i :: 0 <= i < |vals| && NumericValue(vals[i]) == Some(MaxOf(vals).n))
      && forall i :: 0 <= i < |vals| && NumericValue(vals[i]).Some? ==>
           NumericValue(vals[i]).value <= MaxOf(vals).n
  {
    NumericsEmpty(vals);
    NumericsMembers(vals);
    if MaxOf(vals).Int? {
      var ns := Numerics(vals);
      forall i | 0 <= i < |vals| && NumericValue(vals[i]).Some?
        ensures NumericValue(vals[i]).value <= MaxOf(vals).n
      {
        var x := NumericValue(vals[i]).value;
        assert x in ns;
        var j :| 0 <= j < |ns| && ns[j] == x;
      }
    }
  }

  lemma {:induction false} NonEmptyStringsNone(vals: seq<Literal>)
    ensures NonEmptyStrings(vals) == [] <==> forall i :: 0 <= i < |vals| ==> StringValue(vals[i]) == ""
  {
    if vals != [] {
      var init := vals[..|vals| - 1];
      NonEmptyStringsNone(init);
      assert forall i :: 0 <= i < |init| ==> init[i] == vals[i];
    }
  }

  /** One more value: its string joins the kept ones, after a delimiter unless it is the
      first. */
  lemma ConcatStep(vals: seq<Literal>, i: nat, delimiter: string)
    requires i < |vals|
    ensures var kept := NonEmptyStrings(vals[..i]);
      var s := StringValue(vals[i]);
      && NonEmptyStrings(vals[..i + 1]) == (if s == "" then kept else kept + [s])
      && (s != "" ==>
            (JoinStrings(kept + [s], delimiter) ==
             if kept == [] then s else JoinStrings(kept, delimiter) + delimiter + s))
  {
    assert vals[..i + 1][..i] == vals[..i];
    var kept := NonEmptyStrings(vals[..i]);
    var s := StringValue(vals[i]);
    assert (kept + [s])[..|kept|] == kept;
  }

  lemma {:induction false} JoinStringsEmpty(pieces: seq<string>, delimiter: string)
    requires forall k :: 0 <= k < |pieces| ==> pieces[k] != ""
    ensures JoinStrings(pieces, delimiter) == "" <==> pieces == []
  {
    if |pieces| > 1 {
      var last := pieces[|pieces| - 1];
      assert |JoinStrings(pieces, delimiter)| >= |last| > 0;
    }
  }

  /** The concatenation of the values' string forms, in order. */
  function Concatenation(vals: seq<Literal>): string
  {
    if vals == [] then "" else Concatenation(vals[..|vals| - 1]) + StringValue(vals[|vals| - 1])
  }

  lemma {:induction false} JoinWithoutDelimiter(vals: seq<Literal>)
    ensures JoinStrings(NonEmptyStrings(vals), "") == Concatenation(vals)
  {
    if vals != [] {
      var init := vals[..|vals| - 1];
      JoinWithoutDelimiter(init);
      var ss := NonEmptyStrings(init);
      var s := StringValue(vals[|vals| - 1]);
      if s != "" && ss != [] {
        assert (ss + [s])[..|ss + [s]| - 1] == ss;
      }
    }
  }

  /** CONCAT: "#VALUE!" when the values are poisoned or every string form is empty, and
      otherwise the non-empty string forms joined by the delimiter. */
  lemma ConcatOfSpec(vals: seq<Literal>, delimiter: string)
    requires vals != []
    ensures ConcatOf(vals, delimiter) ==
      if ContainsErrorLiteral(vals) || forall i :: 0 <= i < |vals| ==> StringValue(vals[i]) == ""
      then Str(ValueError)
      else Str(JoinStrings(NonEmptyStrings(vals), delimiter))
  {
    NonEmptyStringsNone(vals);
    JoinStringsEmpty(NonEmptyStrings(vals), delimiter);
  }

  /** CONCAT with an empty delimiter is the plain concatenation of the string forms. */
  lemma ConcatWithoutDelimiter(vals: seq<Literal>)
    requires !ContainsErrorLiteral(vals) && Concatenation(vals) != ""
    ensures ConcatOf(vals, "") == Str(Concatenation(vals))
  {
    JoinWithoutDelimiter(vals);
  }

  /** SUBSTR succeeds exactly when start and length are numbers with start >= 1,
      length >= 1 and start - 1 + length <= |text| (so the separate "start too large"
      test is implied), and then yields the length characters from position start. */
  lemma SubstrOfSpec(vals: seq<Literal>)
    requires |vals| >= 3 && !ContainsErrorLiteral(vals)
    ensures var text, start, length := StringValue(vals[0]), NumericValue(vals[1]), NumericValue(vals[2]);
      if start.Some? && length.Some? && 1 <= start.value && 1 <= length.value
         && start.value - 1 + length.value <= |text|
      then SubstrOf(vals) == Str(text[start.value - 1..start.value - 1 + length.value])
           && |SubstrOf(vals).text| == length.value
           && text[start.value - 1..][..length.value] == SubstrOf(vals).text
      else SubstrOf(vals) == Str(ValueError)
  {
  }

  /** LEN is the length of the string form of its one value. */
  lemma LenOfSpec(vals: seq<Literal>)
    requires |vals| >= 1 && !ContainsErrorLiteral(vals)
    ensures LenOf(vals) == Int(|LiteralToString(vals[0])|)
  {
  }

  lemma {:induction false} IntegerTextOfDecimal(n: int)
    ensures IsIntegerText(IntToDecimal(n)) && IntegerTextValue(IntToDecimal(n)) == n
  {
    var m: nat := if n < 0 then -n else n;
    DecimalOfNatToDecimal(m);
    if n < 0 {
      var t := IntToDecimal(n);
      assert t[1..] == NatToDecimal(m);
      assert !AllDigits(t) by {
        assert !IsDigit(t[0]);
      }
    }
  }

  /** A number's text form reads back as that number. */
  lemma NumericValueOfText(l: Literal)
    requires l.Int?
    ensures NumericValue(Str(LiteralToString(l))) == NumericValue(l)
  {
    IntegerTextOfDecimal(l.n);
  }

  /** COUNT counts ints, bools and text that is a number, and nothing else. */
  lemma CountedIff(l: Literal)
    ensures Counted(l) <==> l.Int? || l.Bool? || (l.Str? && IsIntegerText(l.text))
  {
  }

  /** The positions among the first n values whose value COUNT counts. */
  function CountedSet(vals: seq<Literal>, n: nat): set<int>
    requires n <= |vals|
  {
    set i | 0 <= i < n && Counted(vals[i])
  }

  /** The number of positions among the first n values whose value COUNT counts. */
  function CountedPositions(vals: seq<Literal>, n: nat): nat
    requires n <= |vals|
  {
    |CountedSet(vals, n)|
  }

  lemma CountedSetStep(vals: seq<Literal>, n: nat)
    requires 0 < n <= |vals|
    ensures CountedSet(vals, n) ==
      CountedSet(vals[..n - 1], n - 1) + (if Counted(vals[n - 1]) then {n - 1} else {})
  {
    var init := vals[..n - 1];
    assert forall i :: 0 <= i < n - 1 ==> init[i] == vals[i];
  }

  lemma {:induction false} CountCountedPositions(vals: seq<Literal>)
    ensures CountCounted(vals) == CountedPositions(vals, |vals|)
  {
    if vals != [] {
      var n := |vals|;
      CountCountedPositions(vals[..n - 1]);
      CountedSetStep(vals, n);
      assert n - 1 !in CountedSet(vals[..n - 1], n - 1);
    }
  }

  /** COUNT is the number of counted positions, never more than the number of values. */
  lemma CountOfSpec(vals: seq<Literal>)
    requires !ContainsErrorLiteral(vals)
    ensures CountOf(vals) == Int(CountedPositions(vals, |vals|))
    ensures CountOf(vals).n <= |vals|
  {
    CountCountedPositions(vals);
  }
}
