/**
  The two implementations of the envelope as platforms, and what the round trip comes to on
  each (examples/dotnet/nfrx-sdk/SecureTransfer.cs, examples/python/nfrx_sdk/secure_transfer.py).
  Case folding is a parameter: any function that tells the five base names apart.
*/
module EnvelopePlatforms {
  import opened Wrappers
  import opened Text
  import opened Envelope
  import opened EnvelopeRoundTrip

  /** What String.Trim removes in .NET. */
  predicate CsSpace(c: char) {
    var n := c as int;
    || 0x09 <= n <= 0x0D || n == 0x20 || n == 0x85 || n == 0xA0 || n == 0x1680
    || 0x2000 <= n <= 0x200A || n == 0x2028 || n == 0x2029 || n == 0x202F || n == 0x205F || n == 0x3000
  }

  /** What str.strip removes in Python: four separators more. */
  predicate PySpace(c: char) {
    CsSpace(c) || 0x1C <= c as int <= 0x1F
  }

  predicate Blank(s: string) {
    forall i :: 0 <= i < |s| ==> CsSpace(s[i])
  }

  function Signed(sign: char, n: int): int {
    if sign == '-' then -n else n
  }

  /** An optional sign and decimal digits. */
  function SignedDigits(s: string): Option<int> {
    if s != [] && (s[0] == '+' || s[0] == '-') then
      match ParseDigits(s[1..])
      case None => None
      case Some(n) => Some(Signed(s[0], n))
    else match ParseDigits(s)
      case None => None
      case Some(n) => Some(n)
  }

  /** int.TryParse, which refuses what does not fit in 32 bits; a negative length is refused
      either way. */
  function CsInt(s: string): Option<int> {
    match SignedDigits(s)
    case None => None
    case Some(n) => if -0x8000_0000 <= n < 0x8000_0000 then Some(n) else None
  }

  function CSharp(fold: string -> string, malformed: bytes -> Option<string>): Platform {
    Platform(CsSpace, Blank, fold, fold, n => n, CsInt, malformed)
  }

  /** Headers are collected in a case-sensitive dict and parsed into one keyed in lower case. */
  function Python(lower: string -> string): Platform {
    Platform(PySpace, s => s == "", n => n, lower, lower, SignedDigits, _ => None)
  }

  lemma DecimalIsUnsigned(n: nat)
    ensures SignedDigits(Decimal(n)) == Some(n)
  {
    ParseDecimal(n);
    assert IsDigit(Decimal(n)[0]);
  }

  /** A number may carry one sign, which counts. */
  lemma {:induction false} SignedNumbers(n: int)
    requires 0 <= n
    ensures SignedDigits("+" + Decimal(n)) == Some(n) && SignedDigits("-" + Decimal(n)) == Some(-n)
  {
    ParseDecimal(n);
    assert ("+" + Decimal(n))[1..] == Decimal(n) && ("-" + Decimal(n))[1..] == Decimal(n);
  }

  lemma CSharpLaws(fold: string -> string, malformed: bytes -> Option<string>, n: nat)
    requires n < 0x8000_0000
    ensures var p := CSharp(fold, malformed); TrimsBreaks(p) && ShowsFaithfully(p) && ReadsDecimal(p, n)
  {
    DecimalIsUnsigned(n);
  }

  /** The Python platform has what the round trip needs: a dict that is keyed by the exact name
      keeps the base names apart. */
  lemma {:induction false} PythonLaws(lower: string -> string, contentType: string, n: nat, role: string)
    ensures var p := Python(lower); TrimsBreaks(p) && ReadsDecimal(p, n)
    ensures Distinct(Python(lower).buildKey, BaseHeaders(contentType, n, role))
  {
    DecimalIsUnsigned(n);
    BaseNamesDiffer();
  }

  lemma BaseNamesDiffer()
    ensures "X-Nfrx-Envelope-Version" !in ["Content-Type", "Content-Length", "X-Example-Protocol", "X-Example-Role"]
    ensures "Content-Type" !in ["Content-Length", "X-Example-Protocol", "X-Example-Role"]
    ensures "Content-Length" !in ["X-Example-Protocol", "X-Example-Role"] && "X-Example-Protocol" != "X-Example-Role"
  {
    assert |"X-Nfrx-Envelope-Version"| == 23 && |"Content-Type"| == 12 && |"Content-Length"| == 14;
    assert |"X-Example-Protocol"| == 18 && |"X-Example-Role"| == 14;
    assert "Content-Length"[0] != "X-Example-Role"[0];
  }

  /** In C#, an envelope that the builder accepts, with Content-Length left alone, parses back
      to its headers and body if and only if its names and values are clean.  The builder
      itself checks only for CR and LF, and only in the extra headers. */
  lemma {:induction false} CSharpRoundTripIff(fold: string -> string, malformed: bytes -> Option<string>,
                           contentType: string, body: bytes, role: string, extras: seq<Header>)
    requires |body| < 0x8000_0000
    requires Distinct(fold, BaseHeaders(contentType, |body|, role))
    requires Effective(CSharp(fold, malformed), contentType, |body|, role, extras).Success?
    requires !Overrides(fold, extras, "Content-Length")
    ensures var p := CSharp(fold, malformed);
            var hs := Effective(p, contentType, |body|, role, extras).value;
            Parse(p, Print(hs, body)) == Success(Parsed(hs, body)) <==> AllCleanHeaders(p, hs)
  {
    var p := CSharp(fold, malformed);
    var hs := Effective(p, contentType, |body|, role, extras).value;
    CSharpLaws(fold, malformed, |body|);
    AddHeadersFacts(p, BaseHeaders(contentType, |body|, role), extras);
    assert Shown(p, hs) == hs;
    RoundTrip(p, p, contentType, body, role, extras);
    if Parse(p, Print(hs, body)) == Success(Parsed(hs, body)) {
      ParseUndoesPrintIff(p, hs, body);
    }
  }

  lemma OneExtra(p: Platform, contentType: string, length: nat, role: string, e: Header)
    requires !p.isBlank(e.name) && !HasBreak(e.name) && !HasBreak(e.value)
    requires !Known(p.buildKey, BaseHeaders(contentType, length, role), e.name)
    ensures Effective(p, contentType, length, role, [e]) == Success(BaseHeaders(contentType, length, role) + [e])
  {
    var base := BaseHeaders(contentType, length, role);
    SetNewHeader(p.buildKey, base, e.name, e.value);
    assert [e][1..] == [];
    assert AddHeaders(p, base, [e]) == AddHeaders(p, SetHeader(p.buildKey, base, e.name, e.value), []);
  }

  /** The C# builder accepts a new extra header whose name has a colon in it, "a:b" say, and the
      envelope never comes back. */
  lemma {:induction false} CSharpColonIsLost(
      fold: string -> string, malformed: bytes -> Option<string>, contentType: string, body: bytes, role: string,
      e: Header)
    requires |body| < 0x8000_0000 && Distinct(fold, BaseHeaders(contentType, |body|, role))
    requires ':' in e.name && !Blank(e.name) && !HasBreak(e.name) && !HasBreak(e.value)
    requires !Known(fold, BaseHeaders(contentType, |body|, role), e.name)
    ensures var p := CSharp(fold, malformed);
            var built := Effective(p, contentType, |body|, role, [e]);
      built.Success? && Parse(p, Print(built.value, body)) != Success(Parsed(built.value, body))
  {
    var p, base := CSharp(fold, malformed), BaseHeaders(contentType, |body|, role);
    OneExtra(p, contentType, |body|, role, e);
    assert base[2].name == "Content-Length";
    assert !Overrides(fold, [e], "Content-Length");
    CSharpRoundTripIff(fold, malformed, contentType, body, role, [e]);
    assert !AllCleanHeaders(p, base + [e]) by {
      assert (base + [e])[5] == e && !Clean(p, e);
    }
  }

  /** In Python, what the builder accepts, with Content-Length left alone, parses back to its
      headers, in lower case, and its body if and only if the names and values are clean and no
      two names are equal up to case: the builder's dict tells those apart. */
  lemma {:induction false} PythonRoundTripIff(
      lower: string -> string, contentType: string, body: bytes, role: string, extras: seq<Header>)
    requires ShowsFaithfully(Python(lower))
    requires Effective(Python(lower), contentType, |body|, role, extras).Success?
    requires !Overrides(Python(lower).buildKey, extras, "Content-Length")
    ensures var p := Python(lower);
            var hs := Effective(p, contentType, |body|, role, extras).value;
            Parse(p, Print(hs, body)) == Success(Parsed(Shown(p, hs), body))
            <==> AllCleanHeaders(p, hs) && Distinct(lower, hs)
  {
    var p := Python(lower);
    var hs := Effective(p, contentType, |body|, role, extras).value;
    PythonLaws(lower, contentType, |body|, role);
    AddHeadersFacts(p, BaseHeaders(contentType, |body|, role), extras);
    RoundTrip(p, p, contentType, body, role, extras);
    if Parse(p, Print(hs, body)) == Success(Parsed(Shown(p, hs), body)) {
      ParseUndoesPrintIff(p, hs, body);
    }
  }

  /** In Python, an extra header that differs from base header b in case alone is printed beside
      it, and the parser refuses the envelope. */
  lemma {:induction false} PythonCaseCollision(
      lower: string -> string, contentType: string, body: bytes, role: string, extras: seq<Header>, i: nat, b: nat)
    requires Effective(Python(lower), contentType, |body|, role, extras).Success?
    requires AllCleanHeaders(Python(lower), Effective(Python(lower), contentType, |body|, role, extras).value)
    requires i < |extras| && b < 5
    requires var name := BaseHeaders(contentType, |body|, role)[b].name;
      extras[i].name != name && lower(extras[i].name) == lower(name)
    ensures Parse(Python(lower), Print(Effective(Python(lower), contentType, |body|, role, extras).value, body))
         == Failure(DuplicateHeader)
  {
    var p, base := Python(lower), BaseHeaders(contentType, |body|, role);
    var hs := Effective(p, contentType, |body|, role, extras).value;
    PythonLaws(lower, contentType, |body|, role);
    AddHeadersFacts(p, base, extras);
    AddedIsKnown(p, base, extras, i);
    var n :| 0 <= n < |hs| && hs[n].name == extras[i].name;
    assert hs[b].name == base[b].name;
    TwoCollide(lower, hs, n, b);
    CollisionIsRefused(p, hs, body);
  }

  lemma TwoCollide(key: string -> string, hs: seq<Header>, m: nat, n: nat)
    requires m < |hs| && n < |hs| && m != n && key(hs[m].name) == key(hs[n].name)
    ensures !Distinct(key, hs)
  {
    if m < n { assert !(key(hs[m].name) != key(hs[n].name)); }
  }

  /** Clean headers of which two collide are refused as duplicates. */
  lemma {:induction false} CollisionIsRefused(p: Platform, hs: seq<Header>, body: bytes)
    requires hs != [] && TrimsBreaks(p) && AllCleanHeaders(p, hs) && !Distinct(p.parseKey, hs)
    ensures Parse(p, Print(hs, body)) == Failure(DuplicateHeader)
  {
    var none: seq<Header> := [];
    assert none + hs == hs;
    CollidingLines(p, hs, none);
    BlockOf(p, hs, body);
  }

  lemma DistinctSnoc(key: string -> string, done: seq<Header>, h: Header)
    requires Distinct(key, done) && !Known(key, done, h.name)
    ensures Distinct(key, done + [h])
  {
  }

  lemma {:induction false} CollidingLines(p: Platform, hs: seq<Header>, done: seq<Header>)
    requires TrimsBreaks(p) && AllCleanHeaders(p, hs)
    requires Distinct(p.parseKey, done) && !Distinct(p.parseKey, done + hs)
    ensures ParseLines(p, Lines(hs), done) == Failure(DuplicateHeader)
    decreases |hs|
  {
    assert hs == [] ==> done + hs == done;
    if hs != [] {
      ParseFirstLine(p, hs, done);
      if !Known(p.parseKey, done, hs[0].name) {
        DistinctSnoc(p.parseKey, done, hs[0]);
        MoveFirst(hs, done);
        CollidingLines(p, hs[1..], done + [hs[0]]);
      }
    }
  }
}
