/** Strings, lines and decimal numbers, as the text protocols use them. */
module Text {
  import opened Wrappers

  const CR: char := '\r'
  const LF: char := '\n'

  // ---------------------------------------------------------------- trimming

  function TrimStart(sp: char -> bool, s: string): (r: string)
    ensures |r| <= |s|
  {
    if s != [] && sp(s[0]) then TrimStart(sp, s[1..]) else s
  }

  function TrimEnd(sp: char -> bool, s: string): (r: string)
    ensures |r| <= |s|
  {
    if s != [] && sp(s[|s| - 1]) then TrimEnd(sp, s[..|s| - 1]) else s
  }

  lemma {:induction false} TrimStartFacts(sp: char -> bool, s: string)
    ensures var r := TrimStart(sp, s); (r != [] ==> !sp(r[0])) && r == s[|s| - |r|..]
  {
    if s != [] && sp(s[0]) { TrimStartFacts(sp, s[1..]); }
  }

  lemma {:induction false} TrimEndFacts(sp: char -> bool, s: string)
    ensures var r := TrimEnd(sp, s); (r != [] ==> !sp(r[|r| - 1])) && r == s[..|r|]
  {
    if s != [] && sp(s[|s| - 1]) { TrimEndFacts(sp, s[..|s| - 1]); }
  }

  function Trim(sp: char -> bool, s: string): string {
    TrimEnd(sp, TrimStart(sp, s))
  }

  predicate Trimmed(sp: char -> bool, s: string) {
    s != [] ==> !sp(s[0]) && !sp(s[|s| - 1])
  }

  lemma TrimIsTrimmed(sp: char -> bool, s: string)
    ensures Trimmed(sp, Trim(sp, s))
    ensures Trim(sp, s) == s <==> Trimmed(sp, s)
  {
    var t := TrimStart(sp, s);
    TrimStartFacts(sp, s);
    TrimEndFacts(sp, t);
  }

  lemma StretchOfSuffix(s: string, a: nat, b: nat)
    requires a <= b <= |s|
    ensures s[a..][..b - a] == s[a..b]
  {
  }

  /** The trimmed text is a stretch of the original. */
  lemma TrimIsStretch(sp: char -> bool, s: string) returns (a: nat, b: nat)
    ensures a <= b <= |s| && Trim(sp, s) == s[a..b]
  {
    var t := TrimStart(sp, s);
    TrimStartFacts(sp, s);
    TrimEndFacts(sp, t);
    a := |s| - |t|;
    b := a + |Trim(sp, s)|;
    StretchOfSuffix(s, a, b);
  }

  // ---------------------------------------------------------------- searching

  function IndexOf(s: string, c: char): (r: Option<nat>)
    ensures r.Some? ==> r.value < |s| && s[r.value] == c
    ensures r.None? <==> c !in s
  {
    if s == [] then None
    else if s[0] == c then Some(0)
    else match IndexOf(s[1..], c)
      case None => None
      case Some(i) => Some(i + 1)
  }

  lemma {:induction false} IndexOfIsFirst(s: string, c: char)
    requires IndexOf(s, c).Some?
    ensures forall k :: 0 <= k < IndexOf(s, c).value ==> s[k] != c
    ensures c !in s[..IndexOf(s, c).value]
  {
    if s[0] != c { IndexOfIsFirst(s[1..], c); }
  }

  predicate CrLfAt(s: string, i: int) {
    0 <= i && i + 1 < |s| && s[i] == CR && s[i + 1] == LF
  }

  predicate HasCrLf(s: string) {
    exists i :: 0 <= i < |s| && CrLfAt(s, i)
  }

  function FirstCrLf(s: string, from: nat): (r: Option<nat>)
    requires from <= |s|
    ensures r.Some? ==> from <= r.value && CrLfAt(s, r.value) && forall i :: from <= i < r.value ==> !CrLfAt(s, i)
    ensures r.None? ==> forall i :: from <= i ==> !CrLfAt(s, i)
    decreases |s| - from
  {
    if from == |s| then None
    else if CrLfAt(s, from) then Some(from)
    else FirstCrLf(s, from + 1)
  }

  // ---------------------------------------------------------------- lines separated by CRLF

  function SplitCrLf(s: string): (lines: seq<string>)
    ensures lines != []
  {
    match FirstCrLf(s, 0)
    case None => [s]
    case Some(i) => [s[..i]] + SplitCrLf(s[i + 2..])
  }

  function JoinCrLf(lines: seq<string>): string {
    if lines == [] then []
    else if |lines| == 1 then lines[0]
    else lines[0] + [CR, LF] + JoinCrLf(lines[1..])
  }

  predicate CleanLine(l: string) {
    l != [] && !HasCrLf(l) && l[0] != CR && l[|l| - 1] != CR
  }

  predicate AllClean(lines: seq<string>) {
    forall i :: 0 <= i < |lines| ==> CleanLine(lines[i])
  }

  /** The first CRLF after a clean line is the one that ends it. */
  lemma CrLfAfterLine(l: string, rest: string)
    requires CleanLine(l)
    ensures var s := l + [CR, LF] + rest; FirstCrLf(s, 0) == Some(|l|)
  {
    var s := l + [CR, LF] + rest;
    assert CrLfAt(s, |l|);
    forall i | 0 <= i < |l| ensures !CrLfAt(s, i) {
      if i + 1 < |l| {
        assert !CrLfAt(l, i);
        assert s[i] == l[i] && s[i + 1] == l[i + 1];
      } else {
        assert s[i] == l[|l| - 1];
      }
    }
  }

  lemma {:induction false} SplitJoin(lines: seq<string>)
    requires lines != [] && AllClean(lines)
    ensures SplitCrLf(JoinCrLf(lines)) == lines
  {
    if |lines| == 1 {
      assert FirstCrLf(lines[0], 0).None?;
    } else {
      var rest := JoinCrLf(lines[1..]);
      CrLfAfterLine(lines[0], rest);
      SplitJoin(lines[1..]);
      var s := lines[0] + [CR, LF] + rest;
      assert s[..|lines[0]|] == lines[0] && s[|lines[0]| + 2..] == rest;
    }
  }

  /** A line of a split text has no CRLF in it. */
  lemma {:induction false} SplitHasNoCrLf(s: string)
    ensures forall i :: 0 <= i < |SplitCrLf(s)| ==> !HasCrLf(SplitCrLf(s)[i])
  {
    match FirstCrLf(s, 0)
    case None =>
    case Some(i) =>
      SplitHasNoCrLf(s[i + 2..]);
      forall j | 0 <= j < i ensures !CrLfAt(s[..i], j) {
        if 0 <= j && j + 1 < i { assert !CrLfAt(s, j); }
      }
  }

  // ---------------------------------------------------------------- decimal numbers

  function Digit(d: nat): char
    requires d < 10
  {
    ('0' as int + d) as char
  }

  predicate IsDigit(c: char) {
    '0' <= c <= '9'
  }

  function DigitValue(c: char): nat
    requires IsDigit(c)
  {
    c as int - '0' as int
  }

  function Decimal(n: nat): (s: string)
    ensures s != [] && forall i :: 0 <= i < |s| ==> IsDigit(s[i])
  {
    if n < 10 then [Digit(n)] else Decimal(n / 10) + [Digit(n % 10)]
  }

  /** The number that a string of digits denotes; None for anything else. */
  function ParseDigits(s: string): Option<nat> {
    if s == [] || !IsDigit(s[|s| - 1]) then None
    else if |s| == 1 then Some(DigitValue(s[0]))
    else match ParseDigits(s[..|s| - 1])
      case None => None
      case Some(m) => Some(10 * m + DigitValue(s[|s| - 1]))
  }

  lemma {:induction false} ParseDecimal(n: nat)
    ensures ParseDigits(Decimal(n)) == Some(n)
  {
    if n >= 10 {
      ParseDecimal(n / 10);
      assert Decimal(n)[..|Decimal(n)| - 1] == Decimal(n / 10);
    }
  }

  /** A text denotes a number if and only if it is one or more digits. */
  lemma {:induction false} ParseDigitsIff(s: string)
    ensures ParseDigits(s).Some? <==> s != [] && forall i :: 0 <= i < |s| ==> IsDigit(s[i])
  {
    if s != [] {
      var front := s[..|s| - 1];
      assert forall i :: 0 <= i < |front| ==> front[i] == s[i];
      if |s| > 1 { ParseDigitsIff(front); }
    }
  }

  /** Decimal printing is injective. */
  lemma DecimalInjective(m: nat, n: nat)
    requires Decimal(m) == Decimal(n)
    ensures m == n
  {
    ParseDecimal(m);
    ParseDecimal(n);
  }
}
