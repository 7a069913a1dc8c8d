/**
  What an envelope tells its receiver, and what is wrong with one that is refused
  (examples/dotnet/nfrx-sdk/SecureTransfer.cs, examples/python/nfrx_sdk/secure_transfer.py).
*/
module EnvelopeContents {
  import opened Wrappers
  import opened Text
  import opened Envelope
  import opened EnvelopeRoundTrip

  // ---------------------------------------------------------------- from the arguments to the headers

  /** The last value that the extra headers give to a name, up to its key, or what there was. */
  function LastGiven(key: string -> string, extras: seq<Header>, name: string, before: string): string {
    if extras == [] then before
    else LastGiven(key, extras[1..], name, if key(extras[0].name) == key(name) then extras[0].value else before)
  }

  lemma {:induction false} LastGivenByKey(
      key: string -> string, extras: seq<Header>, name: string, name': string, before: string)
    requires key(name) == key(name')
    ensures LastGiven(key, extras, name, before) == LastGiven(key, extras, name', before)
  {
    if extras != [] {
      var first := if key(extras[0].name) == key(name) then extras[0].value else before;
      LastGivenByKey(key, extras[1..], name, name', first);
    }
  }

  lemma {:induction false} LastGivenIfAny(
      key: string -> string, extras: seq<Header>, name: string, before: string, before': string)
    requires Overrides(key, extras, name)
    ensures LastGiven(key, extras, name, before) == LastGiven(key, extras, name, before')
  {
    if key(extras[0].name) != key(name) {
      var i :| 0 <= i < |extras| && key(extras[i].name) == key(name);
      assert extras[1..][i - 1] == extras[i];
      LastGivenIfAny(key, extras[1..], name, before, before');
    }
  }

  lemma SetValue(key: string -> string, hs: seq<Header>, e: Header, n: nat)
    requires Distinct(key, hs) && n < |hs|
    ensures var r := SetHeader(key, hs, e.name, e.value);
      && n < |r| && r[n].name == hs[n].name
      && r[n].value == if key(e.name) == key(hs[n].name) then e.value else hs[n].value
  {
    SetHeaderFacts(key, hs, e.name, e.value);
    if key(e.name) == key(hs[n].name) {
      SetKnownHeader(key, hs, n, e.name, e.value);
    }
  }

  /** A header that is there ends with the last value given to its name. */
  lemma {:induction false} AddedValue(p: Platform, hs: seq<Header>, extras: seq<Header>, n: nat)
    requires Distinct(p.buildKey, hs) && AddHeaders(p, hs, extras).Success? && n < |hs|
    ensures var r := AddHeaders(p, hs, extras).value;
      && n < |r| && r[n].name == hs[n].name
      && r[n].value == LastGiven(p.buildKey, extras, hs[n].name, hs[n].value)
    decreases |extras|
  {
    if extras != [] {
      SetHeaderFacts(p.buildKey, hs, extras[0].name, extras[0].value);
      SetValue(p.buildKey, hs, extras[0], n);
      AddedValue(p, SetHeader(p.buildKey, hs, extras[0].name, extras[0].value), extras[1..], n);
    }
  }

  lemma SetPlace(key: string -> string, hs: seq<Header>, e: Header) returns (m: nat)
    requires Distinct(key, hs)
    ensures var r := SetHeader(key, hs, e.name, e.value);
      m < |r| && key(r[m].name) == key(e.name) && r[m].value == e.value
  {
    if Known(key, hs, e.name) {
      m :| 0 <= m < |hs| && key(hs[m].name) == key(e.name);
      SetKnownHeader(key, hs, m, e.name, e.value);
    } else {
      m := |hs|;
      SetNewHeader(key, hs, e.name, e.value);
    }
  }

  /** So does a header that the extra ones bring. */
  lemma {:induction false} BroughtValue(p: Platform, hs: seq<Header>, extras: seq<Header>, name: string)
      returns (m: nat)
    requires Distinct(p.buildKey, hs) && AddHeaders(p, hs, extras).Success? && Overrides(p.buildKey, extras, name)
    ensures var r := AddHeaders(p, hs, extras).value;
      && m < |r| && p.buildKey(r[m].name) == p.buildKey(name)
      && r[m].value == LastGiven(p.buildKey, extras, name, "")
    decreases |extras|
  {
    var key, e, rest := p.buildKey, extras[0], extras[1..];
    var hs' := SetHeader(key, hs, e.name, e.value);
    SetHeaderFacts(key, hs, e.name, e.value);
    if key(e.name) == key(name) {
      m := SetPlace(key, hs, e);
      AddedValue(p, hs', rest, m);
      LastGivenByKey(key, rest, hs'[m].name, name, e.value);
    } else {
      var i :| 0 <= i < |extras| && key(extras[i].name) == key(name);
      assert rest[i - 1] == extras[i];
      m := BroughtValue(p, hs', rest, name);
    }
  }

  // ---------------------------------------------------------------- from the headers to the receiver

  /** Names that the builder takes for one are one for the parser. */
  ghost predicate Coarser(builder: Platform, parser: Platform) {
    forall x, y :: builder.buildKey(x) == builder.buildKey(y) ==> parser.parseKey(x) == parser.parseKey(y)
  }

  /** What the receiver finds under a name. */
  function Told(p: Platform, r: Parsed, name: string): string {
    ValueOf(p.parseKey, r.headers, name)
  }

  lemma {:induction false} ValueUnder(key: string -> string, hs: seq<Header>, m: nat, name: string)
    requires Distinct(key, hs) && m < |hs| && key(hs[m].name) == key(name)
    ensures ValueOf(key, hs, name) == hs[m].value
  {
    if m > 0 {
      assert key(hs[0].name) != key(hs[m].name);
      assert forall i :: 0 <= i < |hs[1..]| ==> hs[1..][i] == hs[i + 1];
      ValueUnder(key, hs[1..], m - 1, name);
    }
  }

  lemma ToldValue(p: Platform, hs: seq<Header>, body: bytes, m: nat, name: string)
    requires Distinct(p.parseKey, hs) && ShowsFaithfully(p) && m < |hs| && p.parseKey(hs[m].name) == p.parseKey(name)
    ensures Told(p, Parsed(Shown(p, hs), body), name) == hs[m].value
  {
    ValueUnder(p.parseKey, Shown(p, hs), m, name);
  }

  /** The builder accepts the arguments, and the parser its headers: the receiver can read them,
      and no two are one for it. */
  ghost predicate Delivers(
      builder: Platform, parser: Platform, contentType: string, body: bytes, role: string, extras: seq<Header>)
  {
    && TrimsBreaks(parser) && ReadsDecimal(parser, |body|) && ShowsFaithfully(parser) && Coarser(builder, parser)
    && Distinct(builder.buildKey, BaseHeaders(contentType, |body|, role))
    && !Overrides(builder.buildKey, extras, "Content-Length")
    && Effective(builder, contentType, |body|, role, extras).Success?
    && var hs := Effective(builder, contentType, |body|, role, extras).value;
       AllCleanHeaders(parser, hs) && Distinct(parser.parseKey, hs)
  }

  /** The value of base header n reaches the receiver unless an extra header overrides it. */
  lemma BaseIsTold(
      builder: Platform, parser: Platform, contentType: string, body: bytes, role: string, extras: seq<Header>, n: nat)
    requires Delivers(builder, parser, contentType, body, role, extras) && n < 5
    ensures var hs := Effective(builder, contentType, |body|, role, extras).value;
            var b := BaseHeaders(contentType, |body|, role)[n];
      Told(parser, Parsed(Shown(parser, hs), body), b.name) == LastGiven(builder.buildKey, extras, b.name, b.value)
  {
    var hs := Effective(builder, contentType, |body|, role, extras).value;
    AddedValue(builder, BaseHeaders(contentType, |body|, role), extras, n);
    ToldValue(parser, hs, body, n, hs[n].name);
  }

  lemma ExtraIsTold(
      builder: Platform, parser: Platform, contentType: string, body: bytes, role: string, extras: seq<Header>, i: nat)
    requires Delivers(builder, parser, contentType, body, role, extras) && i < |extras|
    ensures var hs := Effective(builder, contentType, |body|, role, extras).value;
      Told(parser, Parsed(Shown(parser, hs), body), extras[i].name)
      == LastGiven(builder.buildKey, extras, extras[i].name, "")
  {
    var hs := Effective(builder, contentType, |body|, role, extras).value;
    var name := extras[i].name;
    assert Overrides(builder.buildKey, extras, name);
    var m := BroughtValue(builder, BaseHeaders(contentType, |body|, role), extras, name);
    ToldValue(parser, hs, body, m, name);
  }

  lemma {:induction false} LastGivenIfNone(key: string -> string, extras: seq<Header>, name: string, before: string)
    requires !Overrides(key, extras, name)
    ensures LastGiven(key, extras, name, before) == before
  {
    if extras != [] {
      assert key(extras[0].name) != key(name);
      assert forall i :: 0 <= i < |extras[1..]| ==> extras[1..][i] == extras[i + 1];
      LastGivenIfNone(key, extras[1..], name, before);
    }
  }

  /** From the builder's arguments to what the receiver finds: the version, the content type, the
      length of the body, the scheme and the role, each as given or as the last extra header
      overrides it; and under each extra header's name the last value given to it. */
  lemma {:induction false} ReceiverIsTold(
      builder: Platform, parser: Platform, contentType: string, body: bytes, role: string, extras: seq<Header>)
    requires Delivers(builder, parser, contentType, body, role, extras)
    ensures var key := builder.buildKey;
            var r := Parse(parser, Print(Effective(builder, contentType, |body|, role, extras).value, body));
      && r.Success? && r.value.body == body
      && Told(parser, r.value, "X-Nfrx-Envelope-Version") == LastGiven(key, extras, "X-Nfrx-Envelope-Version", "1")
      && Told(parser, r.value, "Content-Type") == LastGiven(key, extras, "Content-Type", contentType)
      && Told(parser, r.value, "Content-Length") == Decimal(|body|)
      && Told(parser, r.value, "X-Example-Protocol")
         == LastGiven(key, extras, "X-Example-Protocol", "cms-x509-selfsigned-v1")
      && Told(parser, r.value, "X-Example-Role") == LastGiven(key, extras, "X-Example-Role", role)
      && forall i :: 0 <= i < |extras| ==>
           Told(parser, r.value, extras[i].name) == LastGiven(key, extras, extras[i].name, "")
  {
    RoundTrip(builder, parser, contentType, body, role, extras);
    BaseIsTold(builder, parser, contentType, body, role, extras, 0);
    BaseIsTold(builder, parser, contentType, body, role, extras, 1);
    BaseIsTold(builder, parser, contentType, body, role, extras, 2);
    BaseIsTold(builder, parser, contentType, body, role, extras, 3);
    BaseIsTold(builder, parser, contentType, body, role, extras, 4);
    LastGivenIfNone(builder.buildKey, extras, "Content-Length", Decimal(|body|));
    forall i | 0 <= i < |extras|
      ensures var r := Parse(parser, Print(Effective(builder, contentType, |body|, role, extras).value, body));
        Told(parser, r.value, extras[i].name) == LastGiven(builder.buildKey, extras, extras[i].name, "")
    {
      ExtraIsTold(builder, parser, contentType, body, role, extras, i);
    }
  }

  // ---------------------------------------------------------------- what the builder refuses

  predicate BadExtraName(p: Platform, h: Header) {
    p.isBlank(h.name) || CR in h.name || LF in h.name
  }

  predicate BadExtra(p: Platform, h: Header) {
    BadExtraName(p, h) || CR in h.value || LF in h.value
  }

  predicate FirstBad(p: Platform, extras: seq<Header>, n: int) {
    0 <= n < |extras| && BadExtra(p, extras[n]) && forall i :: 0 <= i < n ==> !BadExtra(p, extras[i])
  }

  /** The builder refuses if and only if some extra header is bad, and says what is wrong with
      the first that is. */
  lemma {:induction false} RefusedIffBad(p: Platform, hs: seq<Header>, extras: seq<Header>)
    ensures AddHeaders(p, hs, extras).Success? <==> forall i :: 0 <= i < |extras| ==> !BadExtra(p, extras[i])
    ensures forall n :: FirstBad(p, extras, n) ==>
      AddHeaders(p, hs, extras) == Failure(if BadExtraName(p, extras[n]) then BadName else BadValue)
    decreases |extras|
  {
    if extras != [] {
      var rest := extras[1..];
      assert forall i :: 0 <= i < |rest| ==> rest[i] == extras[i + 1];
      assert forall i :: 0 < i < |extras| ==> extras[i] == rest[i - 1];
      if !BadExtra(p, extras[0]) {
        RefusedIffBad(p, SetHeader(p.buildKey, hs, extras[0].name, extras[0].value), rest);
        assert forall n :: FirstBad(p, extras, n) ==> FirstBad(p, rest, n - 1);
      }
    }
  }

  // ---------------------------------------------------------------- what the parser refuses

  /** What is wrong with one line: nothing if it has a name, which may be anything before the
      first colon that is not all white space. */
  lemma {:induction false} LineErrors(p: Platform, line: string)
    ensures ParseLine(p, line) == Failure(EmptyLine) <==> line == ""
    ensures ParseLine(p, line) == Failure(FoldedLine) <==> line != "" && (line[0] == ' ' || line[0] == '\t')
    ensures ParseLine(p, line) == Failure(MalformedLine) <==>
      && line != "" && line[0] != ' ' && line[0] != '\t'
      && (':' !in line || exists i :: 0 <= i < |line| && FirstColonIs(line, i) && Trim(p.isSpace, line[..i]) == "")
    ensures ParseLine(p, line).Success? ==>
      exists i :: 0 <= i < |line| && FirstColonIs(line, i)
                  && ParseLine(p, line).value == Header(Trim(p.isSpace, line[..i]), Trim(p.isSpace, line[i + 1..]))
  {
    var at := IndexOf(line, ':');
    if at.Some? {
      IndexOfIsFirst(line, ':');
      assert FirstColonIs(line, at.value);
      assert forall i :: 0 <= i < |line| && FirstColonIs(line, i) ==> i == at.value;
    }
  }

  predicate FirstColonIs(line: string, i: int) {
    0 <= i < |line| && line[i] == ':' && forall k :: 0 <= k < i ==> line[k] != ':'
  }

  /** Clean lines come first; the one after them decides, if it cannot be read or repeats a name. */
  lemma {:induction false} FirstBadLineDecides(
      p: Platform, hs: seq<Header>, bad: string, rest: seq<string>, done: seq<Header>)
    requires TrimsBreaks(p) && AllCleanHeaders(p, hs) && Distinct(p.parseKey, done + hs)
    ensures var r := ParseLines(p, Lines(hs) + ([bad] + rest), done);
      && (ParseLine(p, bad).Failure? ==> r == Failure(ParseLine(p, bad).error))
      && (ParseLine(p, bad).Success? && Known(p.parseKey, done + hs, ParseLine(p, bad).value.name) ==>
            r == Failure(DuplicateHeader))
    decreases |hs|
  {
    if hs == [] {
      assert done + hs == done;
      assert Lines(hs) + ([bad] + rest) == [bad] + rest;
    } else {
      var lines := Lines(hs) + ([bad] + rest);
      ParseCleanLine(p, hs[0]);
      UnknownInDistinct(p.parseKey, done, hs);
      MoveFirst(hs, done);
      assert lines[0] == Line(hs[0]) && lines[1..] == Lines(hs[1..]) + ([bad] + rest);
      FirstBadLineDecides(p, hs[1..], bad, rest, done + [hs[0]]);
    }
  }

  /** The version, the content type and the length are there. */
  predicate HasRequired(p: Platform, hs: seq<Header>) {
    && Known(p.parseKey, hs, "X-Nfrx-Envelope-Version")
    && Known(p.parseKey, hs, "Content-Type")
    && Known(p.parseKey, hs, "Content-Length")
  }

  predicate TellsLength(p: Platform, hs: seq<Header>, length: nat) {
    p.parseInt(ValueOf(p.parseKey, hs, "Content-Length")) == Some(length)
  }

  lemma CheckErrors(p: Platform, hs: seq<Header>, body: bytes)
    ensures var r := Check(p, hs, body);
      && (r == Failure(MissingHeader) <==> !HasRequired(p, hs))
      && (r == Failure(BadLength) <==> HasRequired(p, hs) && !TellsLength(p, hs, |body|))
      && (r.Success? <==> HasRequired(p, hs) && TellsLength(p, hs, |body|))
  {
  }

  /** Of clean headers that do not collide: which error stands for what. */
  lemma {:induction false} HeaderErrors(p: Platform, hs: seq<Header>, body: bytes)
    requires hs != [] && TrimsBreaks(p) && AllCleanHeaders(p, hs) && Distinct(p.parseKey, hs)
    ensures var r := Parse(p, Print(hs, body));
      && (r == Failure(MissingHeader) <==> !HasRequired(p, hs))
      && (r == Failure(BadLength) <==> HasRequired(p, hs) && !TellsLength(p, hs, |body|))
      && (r.Success? <==> HasRequired(p, hs) && TellsLength(p, hs, |body|))
  {
    PrintedBlock(p, hs, body);
    CheckErrors(p, hs, body);
  }

  predicate IsFirstSep(bs: bytes, i: nat) {
    SepAt(bs, i) && i <= |bs| && forall j :: 0 <= j < i ==> !SepAt(bs, j)
  }

  /** Of any bytes: no separator, or a part before the first one that is not text. */
  lemma {:induction false} FrameErrors(p: Platform, bs: bytes)
    ensures Parse(p, bs) == Failure(MissingSeparator) <==> forall i :: !SepAt(bs, i)
    ensures Parse(p, bs) == Failure(BadEncoding) <==>
      exists i: nat :: IsFirstSep(bs, i) && DecodeText(p, bs[..i]).None?
  {
    if i :| IsFirstSep(bs, i) {
      FirstSepIs(bs, i);
      FramedErrors(p, bs, i);
    } else {
      NoFirstSep(bs);
    }
  }

  lemma FirstSepIs(bs: bytes, i: nat)
    requires IsFirstSep(bs, i)
    ensures FirstSep(bs, 0) == Some(i) && forall j :: IsFirstSep(bs, j) ==> j == i
  {
    var at := FirstSep(bs, 0);
    assert at.Some?;
    assert at.value == i;
  }

  lemma NoFirstSep(bs: bytes)
    requires forall i :: !IsFirstSep(bs, i)
    ensures FirstSep(bs, 0) == None && forall i :: !SepAt(bs, i)
  {
    var at := FirstSep(bs, 0);
    if at.Some? {
      assert IsFirstSep(bs, at.value);
    }
  }

  lemma FramedErrors(p: Platform, bs: bytes, i: nat)
    requires FirstSep(bs, 0) == Some(i)
    ensures Parse(p, bs) != Failure(MissingSeparator)
    ensures Parse(p, bs) == Failure(BadEncoding) <==> DecodeText(p, bs[..i]).None?
  {
    var text := DecodeText(p, bs[..i]);
    if text.Some? {
      LinesNeverMissFrame(p, SplitCrLf(text.value), []);
    }
  }

  lemma {:induction false} LinesNeverMissFrame(p: Platform, lines: seq<string>, done: seq<Header>)
    ensures ParseLines(p, lines, done) != Failure(MissingSeparator)
    ensures ParseLines(p, lines, done) != Failure(BadEncoding)
    decreases |lines|
  {
    if lines != [] && ParseLine(p, lines[0]).Success? {
      LinesNeverMissFrame(p, lines[1..], done + [ParseLine(p, lines[0]).value]);
    }
  }
}
