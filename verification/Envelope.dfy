/**
  The header-body envelope: header lines that end in CRLF, an empty line, and the body as it
  is.  It is implemented twice, in C# (examples/dotnet/nfrx-sdk/SecureTransfer.cs) and in
  Python (examples/python/nfrx_sdk/secure_transfer.py); what differs between the two is a
  Platform.
*/
module Envelope {
  import opened Wrappers
  import opened Text
  import opened Utf8

  type bytes = seq<byte>

  datatype Header = Header(name: string, value: string)

  datatype Error =
    | MissingSeparator | BadEncoding | EmptyLine | FoldedLine | MalformedLine
    | DuplicateHeader | MissingHeader | BadLength | BadName | BadValue

  datatype Parsed = Parsed(headers: seq<Header>, body: bytes)

  /** isSpace: what trimming removes.  buildKey: names with the same key overwrite each other
      when an envelope is built.  parseKey: names with the same key are duplicates when it is
      parsed, and shown is the name that the parser reports.  malformed: the text that the
      platform makes of bytes that are not UTF-8, if any. */
  datatype Platform = Platform(
    isSpace: char -> bool, isBlank: string -> bool,
    buildKey: string -> string, parseKey: string -> string, shown: string -> string,
    parseInt: string -> Option<int>, malformed: bytes -> Option<string>)

  // ---------------------------------------------------------------- printing

  const SCHEME: string := "cms-x509-selfsigned-v1"

  function BaseHeaders(contentType: string, length: nat, role: string): seq<Header> {
    [Header("X-Nfrx-Envelope-Version", "1"), Header("Content-Type", contentType),
     Header("Content-Length", Decimal(length)), Header("X-Example-Protocol", SCHEME), Header("X-Example-Role", role)]
  }

  /** A dictionary keeps the place and the spelling of a key that is overwritten. */
  function SetHeader(key: string -> string, hs: seq<Header>, name: string, value: string): seq<Header> {
    if hs == [] then [Header(name, value)]
    else if key(hs[0].name) == key(name) then [Header(hs[0].name, value)] + hs[1..]
    else [hs[0]] + SetHeader(key, hs[1..], name, value)
  }

  predicate HasBreak(s: string) {
    CR in s || LF in s
  }

  function AddHeaders(p: Platform, hs: seq<Header>, extras: seq<Header>): Result<seq<Header>, Error>
    decreases |extras|
  {
    if extras == [] then Success(hs)
    else if p.isBlank(extras[0].name) || HasBreak(extras[0].name) then Failure(BadName)
    else if HasBreak(extras[0].value) then Failure(BadValue)
    else AddHeaders(p, SetHeader(p.buildKey, hs, extras[0].name, extras[0].value), extras[1..])
  }

  /** The headers an envelope carries, in order. */
  function Effective(
      p: Platform, contentType: string, length: nat, role: string, extras: seq<Header>): Result<seq<Header>, Error> {
    AddHeaders(p, BaseHeaders(contentType, length, role), extras)
  }

  function Line(h: Header): string {
    h.name + ": " + h.value
  }

  function HeaderText(hs: seq<Header>): string {
    if hs == [] then [] else HeaderText(hs[..|hs| - 1]) + (Line(hs[|hs| - 1]) + [CR, LF])
  }

  function Print(hs: seq<Header>, body: bytes): bytes {
    Encode(HeaderText(hs) + [CR, LF]) + body
  }

  method BuildEnvelope(p: Platform, contentType: string, body: array<byte>, role: string, extras: seq<Header>)
    returns (r: Result<array<byte>, Error>)
    ensures match Effective(p, contentType, body.Length, role, extras)
            case Failure(e) => r == Failure(e)
            case Success(hs) => r.Success? && r.value[..] == Print(hs, body[..])
  {
    var headers := BaseHeaders(contentType, body.Length, role);
    var i := 0;
    while i < |extras|
      invariant i <= |extras|
      invariant Effective(p, contentType, body.Length, role, extras) == AddHeaders(p, headers, extras[i..])
    {
      assert extras[i..][0] == extras[i] && extras[i..][1..] == extras[i + 1..];
      var pair := extras[i];
      if p.isBlank(pair.name) || CR in pair.name || LF in pair.name {
        return Failure(BadName);
      }
      if CR in pair.value || LF in pair.value {
        return Failure(BadValue);
      }
      headers := SetHeader(p.buildKey, headers, pair.name, pair.value);
      i := i + 1;
    }

    var builder: string := [];
    for n := 0 to |headers|
      invariant builder == HeaderText(headers[..n])
    {
      builder := builder + headers[n].name + ": " + headers[n].value + [CR, LF];
      assert headers[..n + 1][..n] == headers[..n];
      assert builder == HeaderText(headers[..n]) + (Line(headers[n]) + [CR, LF]);
    }
    assert headers[..|headers|] == headers;
    builder := builder + [CR, LF];

    var envelope := Assemble(Encode(builder), body);
    r := Success(envelope);
  }

  /** The two block copies at the end. */
  method Assemble(headerBytes: bytes, body: array<byte>) returns (envelope: array<byte>)
    ensures envelope[..] == headerBytes + body[..]
  {
    envelope := new byte[|headerBytes| + body.Length];
    forall j | 0 <= j < |headerBytes| { envelope[j] := headerBytes[j]; }
    forall j | 0 <= j < body.Length { envelope[|headerBytes| + j] := body[j]; }
    assert envelope[..] == headerBytes + body[..];
  }

  // ---------------------------------------------------------------- parsing

  predicate SepAt(bs: bytes, i: int) {
    0 <= i && i + 3 < |bs| && bs[i] == 13 && bs[i + 1] == 10 && bs[i + 2] == 13 && bs[i + 3] == 10
  }

  function FirstSep(bs: bytes, from: nat): (r: Option<nat>)
    requires from <= |bs|
    ensures r.Some? ==> from <= r.value && SepAt(bs, r.value) && forall i :: from <= i < r.value ==> !SepAt(bs, i)
    ensures r.None? ==> forall i :: from <= i ==> !SepAt(bs, i)
    decreases |bs| - from
  {
    if from == |bs| then None
    else if SepAt(bs, from) then Some(from)
    else FirstSep(bs, from + 1)
  }

  /** The index loop of the source; -1 when there is no separator. */
  method FindSeparator(envelope: array<byte>) returns (index: int)
    ensures index == match FirstSep(envelope[..], 0) case None => -1 case Some(i) => i
    ensures index >= 0 ==> SepAt(envelope[..], index) && forall i :: 0 <= i < index ==> !SepAt(envelope[..], i)
    ensures index < 0 ==> forall i :: !SepAt(envelope[..], i)
  {
    var i := 0;
    while i <= envelope.Length - 4
      invariant 0 <= i
      invariant forall j :: 0 <= j < i ==> !SepAt(envelope[..], j)
    {
      if envelope[i] == 13 && envelope[i + 1] == 10 && envelope[i + 2] == 13 && envelope[i + 3] == 10 {
        assert SepAt(envelope[..], i);
        return i;
      }
      i := i + 1;
    }
    index := -1;
  }

  function DecodeText(p: Platform, bs: bytes): Option<string> {
    match Decode(bs)
    case Some(s) => Some(s)
    case None => p.malformed(bs)
  }

  function ParseLine(p: Platform, line: string): Result<Header, Error> {
    if line == [] then Failure(EmptyLine)
    else if line[0] == ' ' || line[0] == '\t' then Failure(FoldedLine)
    else match IndexOf(line, ':')
      case None => Failure(MalformedLine)
      case Some(i) =>
        var name := Trim(p.isSpace, line[..i]);
        if name == [] then Failure(MalformedLine)
        else Success(Header(name, Trim(p.isSpace, line[i + 1..])))
  }

  predicate Known(key: string -> string, hs: seq<Header>, name: string) {
    exists i :: 0 <= i < |hs| && key(hs[i].name) == key(name)
  }

  function ParseLines(p: Platform, lines: seq<string>, hs: seq<Header>): Result<seq<Header>, Error> {
    if lines == [] then Success(hs)
    else match ParseLine(p, lines[0])
      case Failure(e) => Failure(e)
      case Success(h) =>
        if Known(p.parseKey, hs, h.name) then Failure(DuplicateHeader)
        else ParseLines(p, lines[1..], hs + [h])
  }

  /** The value under a name; only called for a name that is present. */
  function ValueOf(key: string -> string, hs: seq<Header>, name: string): string {
    if hs == [] then [] else if key(hs[0].name) == key(name) then hs[0].value else ValueOf(key, hs[1..], name)
  }

  function Shown(p: Platform, hs: seq<Header>): (r: seq<Header>)
    ensures |r| == |hs|
    ensures forall i :: 0 <= i < |hs| ==> r[i] == Header(p.shown(hs[i].name), hs[i].value)
  {
    seq(|hs|, i requires 0 <= i < |hs| => Header(p.shown(hs[i].name), hs[i].value))
  }

  function Check(p: Platform, hs: seq<Header>, body: bytes): Result<Parsed, Error> {
    if !Known(p.parseKey, hs, "X-Nfrx-Envelope-Version") || !Known(p.parseKey, hs, "Content-Type")
       || !Known(p.parseKey, hs, "Content-Length") then Failure(MissingHeader)
    else if p.parseInt(ValueOf(p.parseKey, hs, "Content-Length")) != Some(|body|) then Failure(BadLength)
    else Success(Parsed(Shown(p, hs), body))
  }

  function Finish(p: Platform, hs: Result<seq<Header>, Error>, body: bytes): Result<Parsed, Error> {
    match hs
    case Failure(e) => Failure(e)
    case Success(headers) => Check(p, headers, body)
  }

  function Parse(p: Platform, bs: bytes): Result<Parsed, Error> {
    match FirstSep(bs, 0)
    case None => Failure(MissingSeparator)
    case Some(i) =>
      match DecodeText(p, bs[..i])
      case None => Failure(BadEncoding)
      case Some(text) =>
        Finish(p, ParseLines(p, SplitCrLf(text), []), bs[i + 4..])
  }

  method ParseEnvelope(p: Platform, envelope: array<byte>) returns (r: Result<Parsed, Error>)
    ensures r == Parse(p, envelope[..])
  {
    var separator := FindSeparator(envelope);
    if separator < 0 {
      return Failure(MissingSeparator);
    }
    var text := DecodeText(p, envelope[..separator]);
    assert envelope[..][..separator] == envelope[..separator];
    if text.None? {
      return Failure(BadEncoding);
    }
    var body := envelope[separator + 4..];
    assert envelope[..][separator + 4..] == body;
    var lines := SplitCrLf(text.value);
    var headers: seq<Header> := [];
    var i := 0;
    while i < |lines|
      invariant i <= |lines|
      invariant ParseLines(p, lines, []) == ParseLines(p, lines[i..], headers)
    {
      assert lines[i..][0] == lines[i] && lines[i..][1..] == lines[i + 1..];
      var h := ParseLine(p, lines[i]);
      if h.Failure? {
        return Failure(h.error);
      }
      if Known(p.parseKey, headers, h.value.name) {
        return Failure(DuplicateHeader);
      }
      headers := headers + [h.value];
      i := i + 1;
    }
    r := Check(p, headers, body);
  }
}
