/** Character classes and decimal text shared by the address codec, the parsers and the
    evaluator: the parts of <cctype>, std::to_string, std::stoi and std::getline they use. */
module Text {
  import opened Wrappers

  predicate IsDigit(c: char) { '0' <= c <= '9' }

  predicate IsUpper(c: char) { 'A' <= c <= 'Z' }

  /** std::isalpha in the "C" locale. */
  predicate IsAlpha(c: char) { IsUpper(c) || 'a' <= c <= 'z' }

  predicate AllDigits(s: string) { forall i :: 0 <= i < |s| ==> IsDigit(s[i]) }

  predicate AllUpper(s: string) { forall i :: 0 <= i < |s| ==> IsUpper(s[i]) }

  function DigitValue(c: char): (d: nat)
    requires IsDigit(c)
    ensures d < 10
  {
    c as int - '0' as int
  }

  function DigitChar(d: nat): (c: char)
    requires d < 10
    ensures IsDigit(c) && DigitValue(c) == d
  {
    ('0' as int + d) as char
  }

  /** The value of a string of decimal digits, read most significant digit first. */
  function DecimalValue(s: string): nat
    requires AllDigits(s)
  {
    if s == [] then 0 else DecimalValue(s[..|s| - 1]) * 10 + DigitValue(s[|s| - 1])
  }

  /** 10 to the k-th power. */
  function Pow10(k: nat): (p: nat)
    ensures p >= 1
  {
    if k == 0 then 1 else 10 * Pow10(k - 1)
  }

  /** Peeling the last decimal digit off x modulo 10^k. */
  lemma ModPow10Step(x: nat, k: nat)
    requires k >= 1
    ensures (x / 10 % Pow10(k - 1)) * 10 + x % 10 == x % Pow10(k)
  {
    var p := Pow10(k - 1);
    var q, r := x / 10, x % 10;
    var a, b := q / p, q % p;
    assert q == a * p + b && 0 <= b < p;
    assert x == a * (10 * p) + (b * 10 + r) by {
      assert x == 10 * q + r;
      assert 10 * q == a * (10 * p) + 10 * b;
    }
    assert b * 10 + r < 10 * p;
    DivModUnique(x, a, 10 * p);
  }

  /** std::to_string of a non-negative integer. */
  function NatToDecimal(n: nat): (r: string)
    ensures AllDigits(r) && |r| >= 1
    ensures r[0] != '0' || n == 0
  {
    if n < 10 then [DigitChar(n)] else NatToDecimal(n / 10) + [DigitChar(n % 10)]
  }

  /** std::to_string of an int: a minus sign, then the digits of the magnitude. */
  function IntToDecimal(i: int): string
  {
    if i < 0 then "-" + NatToDecimal(-i) else NatToDecimal(i)
  }

  /** A digit string in the form std::to_string produces: no superfluous leading zero. */
  predicate Canonical(s: string)
  {
    AllDigits(s) && |s| >= 1 && (s[0] == '0' ==> |s| == 1)
  }

  lemma {:induction false} DecimalOfNatToDecimal(n: nat)
    ensures DecimalValue(NatToDecimal(n)) == n
  {
    var r := NatToDecimal(n);
    if n >= 10 {
      DecimalOfNatToDecimal(n / 10);
      assert r[..|r| - 1] == NatToDecimal(n / 10);
    }
  }

  lemma {:induction false} DecimalValueLeadingZero(s: string)
    requires AllDigits(s) && |s| >= 1 && s[0] == '0'
    ensures DecimalValue(s) == DecimalValue(s[1..])
  {
    if |s| > 1 {
      DecimalValueLeadingZero(s[..|s| - 1]);
      assert s[..|s| - 1][1..] == s[1..][..|s[1..]| - 1];
    }
  }

  lemma {:induction false} DecimalValueBound(s: string)
    requires Canonical(s) && |s| >= 2
    ensures DecimalValue(s) >= 10
  {
    if |s| > 2 {
      DecimalValueBound(s[..|s| - 1]);
    } else {
      assert DecimalValue(s[..1]) == DigitValue(s[0]);
    }
  }

  /** The decimal codec is a bijection between naturals and canonical digit strings. */
  lemma {:induction false} NatToDecimalOfDecimal(s: string)
    requires Canonical(s)
    ensures NatToDecimal(DecimalValue(s)) == s
  {
    if |s| == 1 {
      assert DecimalValue(s[..0]) == 0;
    } else {
      var p := s[..|s| - 1];
      assert Canonical(p);
      DecimalValueBound(s);
      NatToDecimalOfDecimal(p);
    }
  }

  /** The largest value of a 32-bit int, where std::stoi stops with std::out_of_range. */
  const IntMax: int := 0x7fff_ffff

  /** std::stoi on a non-empty string of digits: the value, or None where it throws
      std::out_of_range. */
  function Stoi(s: string): (r: Option<int>)
    requires AllDigits(s) && |s| >= 1
    ensures r.Some? <==> DecimalValue(s) <= IntMax
    ensures r.Some? ==> r.value == DecimalValue(s)
  {
    if DecimalValue(s) <= IntMax then Some(DecimalValue(s)) else None
  }

  predicate StartsWith(s: string, prefix: string)
  {
    |prefix| <= |s| && s[..|prefix|] == prefix
  }

  /** std::string::find of one character: the first index holding c. */
  function IndexOf(s: string, c: char): (r: Option<nat>)
    ensures r.None? <==> c !in s
    ensures r.Some? ==> r.value < |s| && s[r.value] == c && c !in s[..r.value]
  {
    if |s| == 0 then None
    else if s[0] == c then Some(0)
    else match IndexOf(s[1..], c)
      case None => None
      case Some(i) => assert s[1..][..i] == s[1..i + 1]; Some(i + 1)
  }

  /** The pieces of s between occurrences of d: one more piece than there are d's. */
  function SplitAll(s: string, d: char): (r: seq<string>)
    ensures |r| >= 1
    ensures forall k :: 0 <= k < |r| ==> d !in r[k]
  {
    if |s| == 0 then [""]
    else if s[0] == d then [""] + SplitAll(s[1..], d)
    else var t := SplitAll(s[1..], d); [[s[0]] + t[0]] + t[1..]
  }

  /** The pieces joined with d between neighbours (the inverse of SplitAll). */
  function JoinWith(pieces: seq<string>, d: char): string
  {
    if |pieces| == 0 then ""
    else if |pieces| == 1 then pieces[0]
    else pieces[0] + [d] + JoinWith(pieces[1..], d)
  }

  /** The tokens a std::getline loop with delimiter d reads from s: the pieces between
      delimiters, except that an empty last piece is never read (so "" gives no token). */
  function GetlineTokens(s: string, d: char): (r: seq<string>)
  {
    var pieces := SplitAll(s, d);
    if pieces[|pieces| - 1] == "" then pieces[..|pieces| - 1] else pieces
  }

  lemma {:induction false} SplitPrepend(c: char, s: string, d: char)
    requires c != d
    ensures SplitAll([c] + s, d) == [[c] + SplitAll(s, d)[0]] + SplitAll(s, d)[1..]
  {
    assert ([c] + s)[1..] == s;
  }

  lemma {:induction false} SplitAppendPiece(p: string, rest: string, d: char)
    requires d !in p
    ensures SplitAll(p + rest, d)[1..] == SplitAll(rest, d)[1..]
    ensures SplitAll(p + rest, d)[0] == p + SplitAll(rest, d)[0]
  {
    if |p| == 0 {
      assert p + rest == rest;
    } else {
      SplitAppendPiece(p[1..], rest, d);
      assert p + rest == [p[0]] + (p[1..] + rest);
      assert p[0] in p;
      SplitPrepend(p[0], p[1..] + rest, d);
      assert p == [p[0]] + p[1..];
    }
  }

  lemma {:induction false} SplitJoin(pieces: seq<string>, d: char)
    requires |pieces| >= 1
    requires forall k :: 0 <= k < |pieces| ==> d !in pieces[k]
    ensures SplitAll(JoinWith(pieces, d), d) == pieces
  {
    if |pieces| == 1 {
      SplitAppendPiece(pieces[0], "", d);
      assert pieces[0] + "" == pieces[0];
    } else {
      var rest := [d] + JoinWith(pieces[1..], d);
      assert JoinWith(pieces, d) == pieces[0] + rest;
      SplitAppendPiece(pieces[0], rest, d);
      SplitJoin(pieces[1..], d);
      assert rest[1..] == JoinWith(pieces[1..], d);
      assert SplitAll(rest, d) == [""] + pieces[1..];
      assert pieces[0] + "" == pieces[0];
    }
  }

  /** Joining non-empty pieces that hold no delimiter and reading them back with getline
      gives the same pieces; an empty list joins to "" and reads back as no tokens. */
  lemma GetlineJoin(pieces: seq<string>, d: char)
    requires forall k :: 0 <= k < |pieces| ==> d !in pieces[k] && pieces[k] != ""
    ensures GetlineTokens(JoinWith(pieces, d), d) == pieces
  {
    if |pieces| > 0 {
      SplitJoin(pieces, d);
    }
  }

  predicate IsBlank(c: char) { c == ' ' || c == '\t' }

  /** The erase(find_first_not_of(" \t")) / erase(find_last_not_of(" \t") + 1) pair:
      spaces and tabs removed from both ends. */
  function Trim(s: string): (r: string)
    ensures |r| == 0 || (!IsBlank(r[0]) && !IsBlank(r[|r| - 1]))
    ensures forall c :: c in r ==> c in s
  {
    if |s| == 0 then s
    else if IsBlank(s[0]) then Trim(s[1..])
    else if IsBlank(s[|s| - 1]) then Trim(s[..|s| - 1])
    else s
  }

  /** Trim keeps a slice of its input and removes only spaces and tabs, all of them at
      the two ends. */
  lemma {:induction false} TrimSlice(s: string)
    ensures exists i, j :: TrimmedAt(s, i, j) && Trim(s) == s[i..j]
    decreases |s|
  {
    if |s| == 0 {
      assert TrimmedAt(s, 0, 0);
    } else if IsBlank(s[0]) {
      TrimSlice(s[1..]);
      var i, j :| TrimmedAt(s[1..], i, j) && Trim(s[1..]) == s[1..][i..j];
      assert s[1..][i..j] == s[i + 1..j + 1];
      assert TrimmedAt(s, i + 1, j + 1);
    } else if IsBlank(s[|s| - 1]) {
      TrimSlice(s[..|s| - 1]);
      var i, j :| TrimmedAt(s[..|s| - 1], i, j) && Trim(s[..|s| - 1]) == s[..|s| - 1][i..j];
      assert s[..|s| - 1][i..j] == s[i..j];
      assert TrimmedAt(s, i, j);
    } else {
      assert TrimmedAt(s, 0, |s|);
    }
  }

  /** s[i..j] is what remains of s after removing only spaces and tabs at its two ends. */
  predicate TrimmedAt(s: string, i: int, j: int)
  {
    0 <= i <= j <= |s| &&
    (forall k :: 0 <= k < i ==> IsBlank(s[k])) &&
    (forall k :: j <= k < |s| ==> IsBlank(s[k]))
  }

  // ---------------------------------------------------------------------------------
  // Integer division facts.

  lemma MulMonotone(x: int, y: int, w: nat)
    requires x <= y
    ensures x * w <= y * w
  {
    var d: nat := y - x;
    assert y * w == x * w + d * w;
  }

  lemma SignProduct(x: int, w: nat)
    ensures x >= 1 ==> x * w >= w
    ensures x <= -1 ==> x * w + w <= 0
  {
    if x >= 1 {
      MulMonotone(1, x, w);
    } else if x <= -1 {
      MulMonotone(x, -1, w);
    }
  }

  /** Euclidean division by a positive divisor is determined by the bracketing multiple. */
  lemma DivModUnique(k: int, q: int, w: int)
    requires w > 0 && q * w <= k < q * w + w
    ensures k / w == q && k % w == k - q * w
  {
    var d, r := k / w, k % w;
    assert k == d * w + r && 0 <= r < w;
    assert (q - d) * w == q * w - d * w;
    SignProduct(q - d, w);
  }

  /** Row-major position (i, j) of an h-by-w grid is index i * w + j. */
  lemma RowMajorIndex(i: nat, j: nat, h: nat, w: nat)
    requires i < h && j < w
    ensures i * w + j < h * w && (i * w + j) / w == i && (i * w + j) % w == j
  {
    MulMonotone(i + 1, h, w);
    assert (i + 1) * w == i * w + w;
    DivModUnique(i * w + j, i, w);
  }

  /** Index k of an h-by-w grid lies in row k / w < h. */
  lemma RowOfIndex(k: nat, h: nat, w: nat)
    requires k < h * w
    ensures w > 0 && k / w < h
  {
    SignProduct(h, w);
    assert w > 0;
    var d := k / w;
    assert k == d * w + k % w;
    assert (d - h) * w == d * w - h * w;
    SignProduct(d - h, w);
  }
}
