/** The cell address codec of CellAddress.cpp: a zero-based (row, column) pair whose text
    form is the row in bijective base-26 letters (A = 0, Z = 25, AA = 26) followed by the
    decimal form of column + 1. */
module Addresses {
  import opened Wrappers
  import opened Text

  datatype CellAddress = CellAddress(row: nat, column: nat)

  /** The constructor CellAddress(int row, int col): refuses a negative index. */
  function Make(row: int, column: int): (r: Option<CellAddress>)
    ensures r.Some? <==> row >= 0 && column >= 0
    ensures r.Some? ==> r.value.row == row && r.value.column == column
  {
    if column < 0 || row < 0 then None else Some(CellAddress(row, column))
  }

  function LetterChar(k: nat): (c: char)
    requires k < 26
    ensures IsUpper(c)
  {
    ('A' as int + k) as char
  }

  function LetterValue(c: char): (k: nat)
    requires IsUpper(c)
    ensures 1 <= k <= 26
  {
    c as int - 'A' as int + 1
  }

  /** The numeral of n in bijective base 26 with digits A (one) .. Z (twenty-six). */
  function Letters(n: nat): (s: string)
    ensures AllUpper(s)
    ensures |s| == 0 <==> n == 0
  {
    if n == 0 then "" else Letters((n - 1) / 26) + [LetterChar((n - 1) % 26)]
  }

  /** The value of a bijective base-26 numeral: parseRow's result before its final - 1. */
  function LettersValue(s: string): nat
    requires AllUpper(s)
  {
    if s == [] then 0 else LettersValue(s[..|s| - 1]) * 26 + LetterValue(s[|s| - 1])
  }

  /** rowToString: the letters of a zero-based row. */
  function RowLabel(row: nat): (s: string)
    ensures AllUpper(s) && |s| >= 1
  {
    Letters(row + 1)
  }

  /** parseRow: the zero-based row that a string of letters names, or None where the
      source throws because a character is not an upper-case letter. */
  function RowIndex(s: string): (r: Option<int>)
    ensures r.Some? <==> AllUpper(s)
    ensures r.Some? && s != "" ==> r.value >= 0
  {
    if AllUpper(s) then Some(LettersValue(s) - 1) else None
  }

  /** toString: the letters of the row, then column + 1 in decimal. */
  function ToString(a: CellAddress): string
  {
    RowLabel(a.row) + NatToDecimal(a.column + 1)
  }

  /** How many characters the first loop of fromString skips: the leading letters. */
  function AlphaPrefix(s: string): (i: nat)
    ensures i <= |s|
    ensures forall k :: 0 <= k < i ==> IsAlpha(s[k])
    ensures i < |s| ==> !IsAlpha(s[i])
  {
    if |s| > 0 && IsAlpha(s[0]) then 1 + AlphaPrefix(s[1..]) else 0
  }

  /** fromString: None wherever the source throws. */
  function ParseAddress(s: string): (r: Option<CellAddress>)
    ensures AlphaPrefix(s) == 0 || AlphaPrefix(s) == |s| ==> r.None?
    ensures 0 < AlphaPrefix(s) < |s| && !AllDigits(s[AlphaPrefix(s)..]) ==> r.None?
    ensures !AllUpper(s[..AlphaPrefix(s)]) ==> r.None?
  {
    var i := AlphaPrefix(s);
    if i == 0 || i == |s| then None
    else if !AllDigits(s[i..]) then None
    else
      match (RowIndex(s[..i]), Stoi(s[i..]))
      case (Some(row), Some(col)) => Make(row, col - 1)
      case _ => None
  }

  // ---------------------------------------------------------------------------------
  // The loops of CellAddress.cpp, each proved to compute the function above.

  /** rowToString: prepend one letter per bijective digit while dividing the counter. */
  method RowToString(row: nat) returns (result: string)
    ensures result == RowLabel(row)
  {
    result := "";
    var n: nat := row + 1;
    while n > 0
      invariant Letters(n) + result == RowLabel(row)
    {
      n := n - 1;
      result := [LetterChar(n % 26)] + result;
      n := n / 26;
    }
  }

  /** parseRow: accumulate result * 26 + (letter value) over the string. */
  method ParseRow(rowStr: string) returns (r: Option<int>)
    ensures r == RowIndex(rowStr)
  {
    var result := 0;
    var i := 0;
    while i < |rowStr|
      invariant 0 <= i <= |rowStr|
      invariant AllUpper(rowStr[..i]) && result == LettersValue(rowStr[..i])
    {
      var c := rowStr[i];
      if !IsUpper(c) {
        return None;
      }
      assert rowStr[..i + 1][..i] == rowStr[..i];
      result := result * 26 + LetterValue(c);
      i := i + 1;
    }
    assert rowStr[..i] == rowStr;
    return Some(result - 1);
  }

  /** fromString: skip the letters, check that what follows is all digits, then decode. */
  method FromString(str: string) returns (r: Option<CellAddress>)
    ensures r == ParseAddress(str)
  {
    var i := 0;
    while i < |str| && IsAlpha(str[i])
      invariant 0 <= i <= AlphaPrefix(str)
    {
      i := i + 1;
    }
    if i == 0 || i == |str| {
      return None;
    }
    var rowStr, colStr := str[..i], str[i..];
    for j := 0 to |colStr|
      invariant AllDigits(colStr[..j])
    {
      if !IsDigit(colStr[j]) {
        return None;
      }
      assert colStr[..j + 1] == colStr[..j] + [colStr[j]];
    }
    assert colStr[..|colStr|] == colStr;
    var row := ParseRow(rowStr);
    var col := Stoi(colStr);
    if row.None? || col.None? {
      return None;
    }
    r := Make(row.value, col.value - 1);
  }

  // ---------------------------------------------------------------------------------
  // Properties of the codec.

  lemma {:induction false} LettersValueOfLetters(n: nat)
    ensures LettersValue(Letters(n)) == n
  {
    if n > 0 {
      var s := Letters(n);
      LettersValueOfLetters((n - 1) / 26);
      assert s[..|s| - 1] == Letters((n - 1) / 26);
    }
  }

  lemma {:induction false} LettersOfLettersValue(s: string)
    requires AllUpper(s)
    ensures Letters(LettersValue(s)) == s
  {
    if s != [] {
      var p, c := s[..|s| - 1], s[|s| - 1];
      LettersOfLettersValue(p);
      var n := LettersValue(s);
      assert (n - 1) / 26 == LettersValue(p) && (n - 1) % 26 == LetterValue(c) - 1;
      assert s == p + [c];
    }
  }

  /** parseRow inverts rowToString. */
  lemma RowIndexOfRowLabel(row: nat)
    ensures RowIndex(RowLabel(row)) == Some(row)
  {
    LettersValueOfLetters(row + 1);
  }

  /** rowToString inverts parseRow: every non-empty upper-case string is a row label. */
  lemma RowLabelOfRowIndex(s: string)
    requires AllUpper(s) && s != ""
    ensures RowIndex(s).Some? && RowIndex(s).value >= 0
    ensures RowLabel(RowIndex(s).value) == s
  {
    LettersOfLettersValue(s);
  }

  lemma RowLabelExamples()
    ensures RowLabel(0) == "A" && RowLabel(25) == "Z" && RowLabel(26) == "AA"
    ensures RowLabel(27) == "AB" && RowLabel(701) == "ZZ" && RowLabel(702) == "AAA"
  {
    assert Letters(1) == "A";
    assert Letters(2) == "B";
    assert Letters(26) == "Z";
    assert Letters(27) == "AA";
    assert Letters(28) == "AB";
    assert Letters(702) == "ZZ";
    assert Letters(703) == "AAA";
  }

  lemma {:induction false} AlphaPrefixOfLabel(letters: string, digits: string)
    requires AllUpper(letters) && AllDigits(digits) && digits != ""
    ensures AlphaPrefix(letters + digits) == |letters|
  {
    if letters != [] {
      AlphaPrefixOfLabel(letters[1..], digits);
      assert (letters + digits)[1..] == letters[1..] + digits;
    } else {
      assert letters + digits == digits;
    }
  }

  /** Exactly which strings fromString accepts, and what it returns: the label of the row,
      immediately followed by digits whose value is column + 1 and fits an int. */
  lemma ParseAddressIff(s: string, a: CellAddress)
    ensures ParseAddress(s) == Some(a) <==>
      var n := |RowLabel(a.row)|;
      && n < |s|
      && s[..n] == RowLabel(a.row)
      && AllDigits(s[n..])
      && DecimalValue(s[n..]) == a.column + 1 <= IntMax
  {
    var n := |RowLabel(a.row)|;
    if ParseAddress(s) == Some(a) {
      var i := AlphaPrefix(s);
      RowLabelOfRowIndex(s[..i]);
      assert RowLabel(a.row) == s[..i];
    }
    if n < |s| && s[..n] == RowLabel(a.row) && AllDigits(s[n..])
      && DecimalValue(s[n..]) == a.column + 1 <= IntMax {
      assert s == s[..n] + s[n..];
      AlphaPrefixOfLabel(s[..n], s[n..]);
      RowIndexOfRowLabel(a.row);
    }
  }

  /** fromString(toString(a)) == a for every address whose column + 1 fits an int. */
  lemma ParseToString(a: CellAddress)
    requires a.column + 1 <= IntMax
    ensures ParseAddress(ToString(a)) == Some(a)
  {
    var s, n := ToString(a), |RowLabel(a.row)|;
    assert s[..n] == RowLabel(a.row) && s[n..] == NatToDecimal(a.column + 1);
    DecimalOfNatToDecimal(a.column + 1);
    ParseAddressIff(s, a);
  }

  /** toString(fromString(t)) == t for every accepted text whose digits have no
      superfluous leading zero. */
  lemma ToStringParse(s: string)
    requires ParseAddress(s).Some?
    requires Canonical(s[AlphaPrefix(s)..])
    ensures ToString(ParseAddress(s).value) == s
  {
    var a := ParseAddress(s).value;
    ParseAddressIff(s, a);
    var n := |RowLabel(a.row)|;
    AlphaPrefixOfLabel(s[..n], s[n..]);
    assert s == s[..n] + s[n..];
    NatToDecimalOfDecimal(s[n..]);
  }

  /** The digit part of toString is the value column + 1, never "0". */
  lemma ToStringDigits(a: CellAddress)
    ensures var d := ToString(a)[|RowLabel(a.row)|..];
      Canonical(d) && DecimalValue(d) == a.column + 1 >= 1
  {
    assert ToString(a)[|RowLabel(a.row)|..] == NatToDecimal(a.column + 1);
    DecimalOfNatToDecimal(a.column + 1);
  }

  /** A suffix of "0" is column -1, which the constructor's check refuses. */
  lemma ZeroColumnRejected()
    ensures ParseAddress("A0") == None
  {
    assert AlphaPrefix("A0") == 1;
    assert "A0"[1..] == "0";
    assert DecimalValue("0") == 0;
  }

  /** Column letters must be upper case. */
  lemma LowerCaseRejected()
    ensures ParseAddress("a1") == None
  {
    assert AlphaPrefix("a1") == 1;
    assert !IsUpper("a1"[..1][0]);
  }

  /** Nothing may follow the row digits. */
  lemma TrailingTextRejected()
    ensures ParseAddress("A1x") == None
  {
    assert AlphaPrefix("A1x") == 1;
    assert "A1x"[1..] == "1x" && !IsDigit("1x"[1]);
  }

  /** "B12" is row 1 (the second row, letter B) and column 11 (the twelfth column). */
  lemma SecondColumnExample()
    ensures ParseAddress("B12") == Some(CellAddress(1, 11))
  {
    assert AlphaPrefix("B12") == 1;
    assert "B12"[1..] == "12" && "B12"[..1] == "B";
    assert DecimalValue("12") == 12 by {
      assert "12"[..1] == "1";
    }
    assert LettersValue("B") == 2 by {
      assert "B"[..0] == "";
    }
  }
}
