/**
  Parsing undoes printing for header-body envelopes, on either platform and across the two
  (examples/dotnet/nfrx-sdk/SecureTransfer.cs, examples/python/nfrx_sdk/secure_transfer.py).
*/
module EnvelopeRoundTrip {
  import opened Wrappers
  import opened Text
  import opened Utf8
  import opened Envelope

  predicate CleanName(p: Platform, name: string) {
    name != [] && ':' !in name && !HasCrLf(name) && Trimmed(p.isSpace, name)
  }

  predicate CleanValue(p: Platform, value: string) {
    !HasCrLf(value) && Trimmed(p.isSpace, value)
  }

  predicate Clean(p: Platform, h: Header) {
    CleanName(p, h.name) && CleanValue(p, h.value)
  }

  predicate AllCleanHeaders(p: Platform, hs: seq<Header>) {
    forall i :: 0 <= i < |hs| ==> Clean(p, hs[i])
  }

  predicate Distinct(key: string -> string, hs: seq<Header>) {
    forall i, j :: 0 <= i < j < |hs| ==> key(hs[i].name) != key(hs[j].name)
  }

  /** The characters that structure an envelope are white space on every platform. */
  predicate TrimsBreaks(p: Platform) {
    p.isSpace(' ') && p.isSpace('\t') && p.isSpace(CR) && p.isSpace(LF)
  }

  // ---------------------------------------------------------------- one line

  lemma CleanHeaderLine(p: Platform, h: Header)
    requires TrimsBreaks(p) && Clean(p, h)
    ensures CleanLine(Line(h)) && Line(h)[0] != ' ' && Line(h)[0] != '\t'
  {
    var l, n := Line(h), |h.name|;
    assert l == h.name + [':', ' '] + h.value;
    assert l[0] == h.name[0] && l[n] == ':' && l[n + 1] == ' ';
    forall i | 0 <= i < |l| ensures !CrLfAt(l, i) {
      if i + 1 < n {
        assert !CrLfAt(h.name, i);
      } else if i >= n + 2 && i + 1 < |l| {
        assert l[i] == h.value[i - n - 2] && l[i + 1] == h.value[i - n - 1];
        assert !CrLfAt(h.value, i - n - 2);
      }
    }
    if h.value != [] { assert l[|l| - 1] == h.value[|h.value| - 1]; }
  }

  lemma FirstColon(name: string, rest: string)
    requires ':' !in name
    ensures IndexOf(name + [':'] + rest, ':') == Some(|name|)
  {
    var l := name + [':'] + rest;
    assert l[|name|] == ':';
    forall k | 0 <= k < |name| ensures l[k] != ':' {
      assert l[k] == name[k] && name[k] in name;
    }
    FirstColonAt(l, |name|);
  }

  lemma {:induction false} FirstColonAt(l: string, n: nat)
    requires n < |l| && l[n] == ':' && forall k :: 0 <= k < n ==> l[k] != ':'
    ensures IndexOf(l, ':') == Some(n)
  {
    if n > 0 { FirstColonAt(l[1..], n - 1); }
  }

  lemma TrimmedStays(p: Platform, name: string)
    requires Trimmed(p.isSpace, name)
    ensures Trim(p.isSpace, name) == name
  {
    TrimIsTrimmed(p.isSpace, name);
  }

  lemma TrimAfterSpace(p: Platform, value: string)
    requires p.isSpace(' ') && Trimmed(p.isSpace, value)
    ensures Trim(p.isSpace, [' '] + value) == value
  {
    var s := [' '] + value;
    assert s[1..] == value;
    assert TrimStart(p.isSpace, s) == TrimStart(p.isSpace, value);
    TrimIsTrimmed(p.isSpace, value);
  }

  lemma ParseCleanLine(p: Platform, h: Header)
    requires TrimsBreaks(p) && Clean(p, h)
    ensures ParseLine(p, Line(h)) == Success(h)
  {
    CleanHeaderLine(p, h);
    var l, n := Line(h), |h.name|;
    FirstColon(h.name, [' '] + h.value);
    assert l == h.name + [':'] + ([' '] + h.value);
    assert l[..n] == h.name && l[n + 1..] == [' '] + h.value;
    TrimmedStays(p, h.name);
    TrimAfterSpace(p, h.value);
  }

  lemma ParsedLineIsClean(p: Platform, line: string)
    requires !HasCrLf(line) && ParseLine(p, line).Success?
    ensures Clean(p, ParseLine(p, line).value)
  {
    var i := IndexOf(line, ':').value;
    var front, back := line[..i], line[i + 1..];
    IndexOfIsFirst(line, ':');
    StretchIsClean(p, line, 0, i);
    assert line[0..i] == front;
    StretchIsClean(p, line, i + 1, |line|);
    assert line[i + 1..|line|] == back;
    TrimHasNoNewChars(p, front);
  }

  lemma TrimHasNoNewChars(p: Platform, s: string)
    requires ':' !in s
    ensures ':' !in Trim(p.isSpace, s)
  {
    var a, b := TrimIsStretch(p.isSpace, s);
    assert forall k :: a <= k < b ==> s[a..b][k - a] == s[k];
  }

  lemma StretchIsClean(p: Platform, line: string, from: nat, to: nat)
    requires !HasCrLf(line) && from <= to <= |line|
    ensures CleanValue(p, Trim(p.isSpace, line[from..to]))
  {
    TrimIsTrimmed(p.isSpace, line[from..to]);
    var a, b := TrimIsStretch(p.isSpace, line[from..to]);
    var t := line[from..to][a..b];
    forall j | 0 <= j < |t| ensures !CrLfAt(t, j) {
      if j + 1 < |t| {
        assert t[j] == line[from + a + j] && t[j + 1] == line[from + a + j + 1];
        assert !CrLfAt(line, from + a + j);
      }
    }
  }

  // ---------------------------------------------------------------- the header block

  function Lines(hs: seq<Header>): (ls: seq<string>)
    ensures |ls| == |hs| && forall i :: 0 <= i < |hs| ==> ls[i] == Line(hs[i])
  {
    seq(|hs|, i requires 0 <= i < |hs| => Line(hs[i]))
  }

  lemma ParseFirstLine(p: Platform, hs: seq<Header>, done: seq<Header>)
    requires hs != [] && TrimsBreaks(p) && Clean(p, hs[0])
    ensures ParseLines(p, Lines(hs), done)
         == if Known(p.parseKey, done, hs[0].name) then Failure(DuplicateHeader)
            else ParseLines(p, Lines(hs[1..]), done + [hs[0]])
  {
    ParseCleanLine(p, hs[0]);
    assert Lines(hs)[0] == Line(hs[0]);
    assert Lines(hs)[1..] == Lines(hs[1..]);
  }

  lemma MoveFirst(hs: seq<Header>, done: seq<Header>)
    requires hs != []
    ensures (done + [hs[0]]) + hs[1..] == done + hs
  {
  }

  lemma UnknownInDistinct(key: string -> string, done: seq<Header>, hs: seq<Header>)
    requires hs != [] && Distinct(key, done + hs)
    ensures !Known(key, done, hs[0].name)
  {
    var all := done + hs;
    assert all[|done|] == hs[0];
    forall i | 0 <= i < |done| ensures key(done[i].name) != key(hs[0].name) {
      assert all[i] == done[i];
    }
  }

  lemma {:induction false} ParseAllLines(p: Platform, hs: seq<Header>, done: seq<Header>)
    requires TrimsBreaks(p) && AllCleanHeaders(p, hs)
    requires Distinct(p.parseKey, done + hs)
    ensures ParseLines(p, Lines(hs), done) == Success(done + hs)
    decreases |hs|
  {
    if hs == [] {
      assert done + hs == done;
    } else {
      ParseFirstLine(p, hs, done);
      UnknownInDistinct(p.parseKey, done, hs);
      MoveFirst(hs, done);
      ParseAllLines(p, hs[1..], done + [hs[0]]);
    }
  }

  /** What the line parser accepts is clean, and no two names have the same key. */
  lemma {:induction false} ParsedLinesAreClean(p: Platform, lines: seq<string>, done: seq<Header>)
    requires forall i :: 0 <= i < |lines| ==> !HasCrLf(lines[i])
    requires AllCleanHeaders(p, done) && Distinct(p.parseKey, done)
    requires ParseLines(p, lines, done).Success?
    ensures var hs := ParseLines(p, lines, done).value; AllCleanHeaders(p, hs) && Distinct(p.parseKey, hs)
    decreases |lines|
  {
    if lines != [] {
      ParsedLineIsClean(p, lines[0]);
      var h := ParseLine(p, lines[0]).value;
      assert forall i :: 0 <= i < |done| ==> p.parseKey(done[i].name) != p.parseKey(h.name);
      ParsedLinesAreClean(p, lines[1..], done + [h]);
    }
  }

  lemma {:induction false} HeaderTextIsJoin(hs: seq<Header>)
    requires hs != []
    ensures HeaderText(hs) == JoinCrLf(Lines(hs)) + [CR, LF]
  {
    var n := |hs| - 1;
    if n == 0 {
      assert HeaderText(hs[..0]) == [];
      assert HeaderText(hs) == [] + (Line(hs[0]) + [CR, LF]);
    } else {
      HeaderTextIsJoin(hs[..n]);
      assert Lines(hs)[..n] == Lines(hs[..n]);
      JoinSnoc(Lines(hs[..n]), Line(hs[n]));
      assert Lines(hs) == Lines(hs[..n]) + [Line(hs[n])];
    }
  }

  lemma {:induction false} JoinSnoc(ls: seq<string>, l: string)
    requires ls != []
    ensures JoinCrLf(ls + [l]) == JoinCrLf(ls) + [CR, LF] + l
  {
    if |ls| == 1 {
      assert (ls + [l])[1..] == [l];
    } else {
      JoinSnoc(ls[1..], l);
      assert (ls + [l])[1..] == ls[1..] + [l];
    }
  }

  // ---------------------------------------------------------------- the separator

  function End(): string {
    [CR, LF, CR, LF]
  }

  predicate TextSepAt(s: string, i: int) {
    CrLfAt(s, i) && CrLfAt(s, i + 2)
  }

  /** In printed headers the first empty line is the one that ends them. */
  lemma {:induction false} NoEarlySep(lines: seq<string>, i: nat)
    requires lines != [] && AllClean(lines) && i < |JoinCrLf(lines)|
    ensures !TextSepAt(JoinCrLf(lines) + End(), i)
  {
    var l := lines[0];
    var rest := if |lines| == 1 then [CR, LF] else JoinCrLf(lines[1..]) + End();
    var s := l + [CR, LF] + rest;
    assert s == JoinCrLf(lines) + End();
    CrLfAfterLine(l, rest);
    if i < |l| {
      assert !CrLfAt(s, i);
    } else if i < |l| + 2 {
      assert |lines| > 1 && lines[1] != [];
      JoinFront(lines[1..]);
      assert s[|l| + 2] == rest[0] == lines[1][0];
      assert s[|l| + 1] == LF;
    } else {
      NoEarlySep(lines[1..], i - |l| - 2);
      assert !TextSepAt(rest, i - |l| - 2);
      assert forall k :: 0 <= k < |rest| ==> s[|l| + 2 + k] == rest[k];
    }
  }

  lemma JoinFront(lines: seq<string>)
    requires lines != [] && lines[0] != []
    ensures JoinCrLf(lines) != [] && JoinCrLf(lines)[0] == lines[0][0]
  {
  }

  lemma EncodeEnd()
    ensures Encode(End()) == [13, 10, 13, 10]
  {
    assert End()[1..] == [LF, CR, LF] && End()[1..][1..] == [CR, LF] && End()[1..][1..][1..] == [LF];
    assert End()[1..][1..][1..][1..] == [];
    assert EncodeChar(CR) == [13] && EncodeChar(LF) == [10];
  }

  /** Four separator bytes at the front of encoded text are four separator characters. */
  lemma SepFromBytes(s: string, rest: bytes)
    requires 4 <= |s| && SepAt(Encode(s) + rest, 0)
    ensures TextSepAt(s, 0)
  {
    var b0 := Encode(s) + rest;
    AsciiFront(s, rest);
    var b1 := Encode(s[1..]) + rest;
    assert b1 == b0[1..] && b1[0] == 10;
    AsciiFront(s[1..], rest);
    var b2 := Encode(s[1..][1..]) + rest;
    assert b2 == b1[1..] && b2[0] == 13;
    AsciiFront(s[1..][1..], rest);
    var b3 := Encode(s[1..][1..][1..]) + rest;
    assert b3 == b2[1..] && b3[0] == 10;
    AsciiFront(s[1..][1..][1..], rest);
    assert s[1..][0] == s[1] && s[1..][1..][0] == s[2] && s[1..][1..][1..][0] == s[3];
  }

  /** No byte of a multi-byte character can be taken for part of the separator. */
  lemma {:induction false} NoEarlySepInBytes(a: string, body: bytes, j: nat)
    requires forall i :: 0 <= i < |a| ==> !TextSepAt(a + End(), i)
    requires j < |Encode(a)|
    ensures !SepAt(Encode(a + End()) + body, j)
  {
    var c, tail := a[0], a[1..] + End();
    assert a + End() == [c] + tail;
    var e, rest := EncodeChar(c), Encode(tail) + body;
    assert Encode(a + End()) + body == e + rest;
    assert Encode(a) == e + Encode(a[1..]);
    if j == 0 {
      assert !TextSepAt(a + End(), 0);
      if SepAt(Encode(a + End()) + body, 0) { SepFromBytes(a + End(), body); }
    } else if j < |e| {
      assert (e + rest)[j] == e[j];
    } else {
      forall i | 0 <= i < |a[1..]| ensures !TextSepAt(tail, i) {
        assert !TextSepAt(a + End(), i + 1);
        assert forall k :: 0 <= k < |tail| ==> (a + End())[k + 1] == tail[k];
      }
      NoEarlySepInBytes(a[1..], body, j - |e|);
      assert forall k :: 0 <= k < |rest| ==> (e + rest)[|e| + k] == rest[k];
    }
  }

  lemma AroundSep(x: bytes, y: bytes)
    ensures var bs := x + ([13, 10, 13, 10] + y);
      SepAt(bs, |x|) && bs[..|x|] == x && bs[|x| + 4..] == y
  {
  }

  lemma EncodedWithEnd(a: string, body: bytes)
    ensures Encode(a + End()) + body == Encode(a) + ([13, 10, 13, 10] + body)
  {
    EncodeConcat(a, End());
    EncodeEnd();
  }

  lemma {:induction false} SeparatorEndsHeaders(a: string, body: bytes)
    requires forall i :: 0 <= i < |a| ==> !TextSepAt(a + End(), i)
    ensures var bs := Encode(a + End()) + body;
            && FirstSep(bs, 0) == Some(|Encode(a)|)
            && bs[..|Encode(a)|] == Encode(a) && bs[|Encode(a)| + 4..] == body
  {
    var bs, n := Encode(a + End()) + body, |Encode(a)|;
    EncodedWithEnd(a, body);
    AroundSep(Encode(a), body);
    forall j | 0 <= j < n ensures !SepAt(bs, j) {
      NoEarlySepInBytes(a, body, j);
    }
  }

  // ---------------------------------------------------------------- the round trip

  /** What a caller can check of the headers before printing them. */
  predicate Printable(p: Platform, hs: seq<Header>, length: nat) {
    && AllCleanHeaders(p, hs) && Distinct(p.parseKey, hs)
    && Known(p.parseKey, hs, "X-Nfrx-Envelope-Version") && Known(p.parseKey, hs, "Content-Type")
    && Known(p.parseKey, hs, "Content-Length")
    && p.parseInt(ValueOf(p.parseKey, hs, "Content-Length")) == Some(length)
  }

  /** Printed headers reach the line parser unchanged, and the body is what follows them. */
  lemma BlockOf(p: Platform, hs: seq<Header>, body: bytes)
    requires hs != [] && TrimsBreaks(p) && AllCleanHeaders(p, hs)
    ensures Parse(p, Print(hs, body)) == Finish(p, ParseLines(p, Lines(hs), []), body)
  {
    var lines := Lines(hs);
    forall i | 0 <= i < |hs| ensures CleanLine(lines[i]) {
      CleanHeaderLine(p, hs[i]);
    }
    var a := JoinCrLf(lines);
    forall i | 0 <= i < |a| ensures !TextSepAt(a + End(), i) {
      NoEarlySep(lines, i);
    }
    HeaderTextIsJoin(hs);
    assert HeaderText(hs) + [CR, LF] == a + End();
    SeparatorEndsHeaders(a, body);
    DecodeEncode(a);
    SplitJoin(lines);
  }

  lemma PrintedBlock(p: Platform, hs: seq<Header>, body: bytes)
    requires hs != [] && TrimsBreaks(p) && AllCleanHeaders(p, hs) && Distinct(p.parseKey, hs)
    ensures Parse(p, Print(hs, body)) == Check(p, hs, body)
  {
    BlockOf(p, hs, body);
    assert [] + hs == hs;
    ParseAllLines(p, hs, []);
  }

  /** Whatever the bytes, what the parser accepts is printable. */
  lemma {:induction false} ParsedIsPrintable(p: Platform, bs: bytes)
    requires Parse(p, bs).Success?
    ensures var r := Parse(p, bs).value;
            exists hs :: Printable(p, hs, |r.body|) && r.headers == Shown(p, hs)
  {
    var text := DecodeText(p, bs[..FirstSep(bs, 0).value]).value;
    SplitHasNoCrLf(text);
    ParsedLinesAreClean(p, SplitCrLf(text), []);
  }

  /** The name the parser shows has the same key and is as clean as the name it stands for. */
  ghost predicate ShowsFaithfully(p: Platform) {
    forall n :: p.parseKey(p.shown(n)) == p.parseKey(n) && (CleanName(p, p.shown(n)) <==> CleanName(p, n))
  }

  /** The exact condition under which parsing undoes printing, for every list of headers and
      every body, bodies that contain CRLFCRLF included. */
  lemma {:induction false} ParseUndoesPrintIff(p: Platform, hs: seq<Header>, body: bytes)
    requires hs != [] && TrimsBreaks(p) && ShowsFaithfully(p)
    ensures Parse(p, Print(hs, body)) == Success(Parsed(Shown(p, hs), body)) <==> Printable(p, hs, |body|)
  {
    if Printable(p, hs, |body|) {
      PrintedBlock(p, hs, body);
    }
    if Parse(p, Print(hs, body)) == Success(Parsed(Shown(p, hs), body)) {
      ParsedIsPrintable(p, Print(hs, body));
      var hs' :| Printable(p, hs', |body|) && Shown(p, hs) == Shown(p, hs');
      ShownTellsAll(p, hs, hs', |body|);
    }
  }

  lemma ShownTellsAll(p: Platform, hs: seq<Header>, hs': seq<Header>, length: nat)
    requires ShowsFaithfully(p) && Shown(p, hs) == Shown(p, hs') && Printable(p, hs', length)
    ensures Printable(p, hs, length)
  {
    assert |hs| == |hs'|;
    forall i | 0 <= i < |hs|
      ensures Clean(p, hs[i]) && p.parseKey(hs[i].name) == p.parseKey(hs'[i].name) && hs[i].value == hs'[i].value
    {
      assert Shown(p, hs)[i] == Shown(p, hs')[i];
      assert Clean(p, hs'[i]);
    }
    SameKeysSameValues(p.parseKey, hs, hs', "Content-Length");
    SameKeysSameValues(p.parseKey, hs, hs', "Content-Type");
    SameKeysSameValues(p.parseKey, hs, hs', "X-Nfrx-Envelope-Version");
  }

  lemma {:induction false} SameKeysSameValues(key: string -> string, hs: seq<Header>, hs': seq<Header>, name: string)
    requires |hs| == |hs'|
    requires forall i :: 0 <= i < |hs| ==> key(hs[i].name) == key(hs'[i].name) && hs[i].value == hs'[i].value
    ensures ValueOf(key, hs, name) == ValueOf(key, hs', name)
    ensures Known(key, hs, name) <==> Known(key, hs', name)
  {
    if hs != [] {
      SameKeysSameValues(key, hs[1..], hs'[1..], name);
      KnownCons(key, hs, name);
      KnownCons(key, hs', name);
    }
  }

  lemma KnownCons(key: string -> string, hs: seq<Header>, name: string)
    requires hs != []
    ensures Known(key, hs, name) <==> key(hs[0].name) == key(name) || Known(key, hs[1..], name)
  {
    assert forall i :: 0 < i < |hs| ==> hs[i] == hs[1..][i - 1];
    if Known(key, hs[1..], name) {
      var i :| 0 <= i < |hs[1..]| && key(hs[1..][i].name) == key(name);
      assert hs[i + 1] == hs[1..][i];
    }
  }

  // ---------------------------------------------------------------- envelopes as they are built

  predicate Overrides(key: string -> string, extras: seq<Header>, name: string) {
    exists i :: 0 <= i < |extras| && key(extras[i].name) == key(name)
  }

  lemma {:induction false} SetKnownHeader(key: string -> string, hs: seq<Header>, n: nat, name: string, value: string)
    requires n < |hs| && key(hs[n].name) == key(name) && forall i :: 0 <= i < n ==> key(hs[i].name) != key(name)
    ensures SetHeader(key, hs, name, value) == hs[n := Header(hs[n].name, value)]
  {
    if n > 0 {
      var tail := hs[1..];
      assert forall i :: 0 <= i < |tail| ==> tail[i] == hs[i + 1];
      SetKnownHeader(key, tail, n - 1, name, value);
      assert hs[n := Header(hs[n].name, value)] == [hs[0]] + tail[n - 1 := Header(tail[n - 1].name, value)];
    }
  }

  lemma {:induction false} SetNewHeader(key: string -> string, hs: seq<Header>, name: string, value: string)
    requires forall i :: 0 <= i < |hs| ==> key(hs[i].name) != key(name)
    ensures SetHeader(key, hs, name, value) == hs + [Header(name, value)]
  {
    if hs != [] {
      assert forall i :: 0 <= i < |hs[1..]| ==> hs[1..][i] == hs[i + 1];
      SetNewHeader(key, hs[1..], name, value);
      assert hs + [Header(name, value)] == [hs[0]] + (hs[1..] + [Header(name, value)]);
    }
  }

  /** Keys of a dictionary stay distinct, and old names keep their places. */
  lemma SetHeaderFacts(key: string -> string, hs: seq<Header>, name: string, value: string)
    requires Distinct(key, hs)
    ensures var r := SetHeader(key, hs, name, value);
      && |hs| <= |r| && Distinct(key, r)
      && forall i :: 0 <= i < |hs| ==> r[i].name == hs[i].name && (key(name) != key(hs[i].name) ==> r[i] == hs[i])
  {
    if Known(key, hs, name) {
      var n :| 0 <= n < |hs| && key(hs[n].name) == key(name);
      SetKnownHeader(key, hs, n, name, value);
    } else {
      SetNewHeader(key, hs, name, value);
    }
  }

  /** Adding headers keeps every name that is there, and every value whose name is left alone. */
  lemma {:induction false} AddHeadersFacts(p: Platform, hs: seq<Header>, extras: seq<Header>)
    requires Distinct(p.buildKey, hs) && AddHeaders(p, hs, extras).Success?
    ensures var r := AddHeaders(p, hs, extras).value;
      && Distinct(p.buildKey, r) && |hs| <= |r|
      && forall n :: 0 <= n < |hs| ==>
           r[n].name == hs[n].name && (!Overrides(p.buildKey, extras, hs[n].name) ==> r[n] == hs[n])
    decreases |extras|
  {
    if extras != [] {
      var e := extras[0];
      SetHeaderFacts(p.buildKey, hs, e.name, e.value);
      var hs' := SetHeader(p.buildKey, hs, e.name, e.value);
      AddHeadersFacts(p, hs', extras[1..]);
      var r := AddHeaders(p, hs, extras).value;
      forall n | 0 <= n < |hs| && !Overrides(p.buildKey, extras, hs[n].name) ensures r[n] == hs[n] {
        assert p.buildKey(extras[0].name) != p.buildKey(hs[n].name);
        assert forall i :: 0 <= i < |extras[1..]| ==> extras[1..][i] == extras[i + 1];
        assert !Overrides(p.buildKey, extras[1..], hs'[n].name);
      }
    }
  }

  lemma SetIsKnown(key: string -> string, hs: seq<Header>, name: string, value: string)
    requires Distinct(key, hs)
    ensures Known(key, SetHeader(key, hs, name, value), name)
  {
    if Known(key, hs, name) {
      var n :| 0 <= n < |hs| && key(hs[n].name) == key(name);
      SetKnownHeader(key, hs, n, name, value);
      assert SetHeader(key, hs, name, value)[n].name == hs[n].name;
    } else {
      SetNewHeader(key, hs, name, value);
      assert (hs + [Header(name, value)])[|hs|].name == name;
    }
  }

  /** Every extra header is among those printed. */
  lemma {:induction false} AddedIsKnown(p: Platform, hs: seq<Header>, extras: seq<Header>, i: nat)
    requires Distinct(p.buildKey, hs) && AddHeaders(p, hs, extras).Success? && i < |extras|
    ensures Known(p.buildKey, AddHeaders(p, hs, extras).value, extras[i].name)
    decreases |extras|
  {
    var e, rest := extras[0], extras[1..];
    var hs' := SetHeader(p.buildKey, hs, e.name, e.value);
    SetHeaderFacts(p.buildKey, hs, e.name, e.value);
    if i == 0 {
      SetIsKnown(p.buildKey, hs, e.name, e.value);
      AddHeadersFacts(p, hs', rest);
      var n :| 0 <= n < |hs'| && p.buildKey(hs'[n].name) == p.buildKey(e.name);
      assert AddHeaders(p, hs, extras).value[n].name == hs'[n].name;
    } else {
      AddedIsKnown(p, hs', rest, i - 1);
      assert rest[i - 1] == extras[i];
    }
  }

  lemma {:induction false} ValueAt(key: string -> string, hs: seq<Header>, n: nat)
    requires Distinct(key, hs) && n < |hs|
    ensures ValueOf(key, hs, hs[n].name) == hs[n].value
  {
    if n > 0 {
      assert hs[0].name == hs[0].name && key(hs[0].name) != key(hs[n].name);
      assert forall i :: 0 <= i < |hs[1..]| ==> hs[1..][i] == hs[i + 1];
      ValueAt(key, hs[1..], n - 1);
    }
  }

  /** The platform reads back the decimal numbers that it prints. */
  predicate ReadsDecimal(p: Platform, n: nat) {
    p.parseInt(Decimal(n)) == Some(n)
  }

  /** The builder prints the three required headers first, with the length of the body. */
  lemma RequiredHeaders(builder: Platform, contentType: string, length: nat, role: string, extras: seq<Header>)
    requires Distinct(builder.buildKey, BaseHeaders(contentType, length, role))
    requires Effective(builder, contentType, length, role, extras).Success?
    requires !Overrides(builder.buildKey, extras, "Content-Length")
    ensures var hs := Effective(builder, contentType, length, role, extras).value;
      && |hs| >= 5 && hs[0].name == "X-Nfrx-Envelope-Version" && hs[1].name == "Content-Type"
      && hs[2] == Header("Content-Length", Decimal(length))
  {
    AddHeadersFacts(builder, BaseHeaders(contentType, length, role), extras);
  }

  lemma CheckPasses(parser: Platform, hs: seq<Header>, body: bytes)
    requires Distinct(parser.parseKey, hs) && ReadsDecimal(parser, |body|)
    requires |hs| >= 3 && hs[0].name == "X-Nfrx-Envelope-Version" && hs[1].name == "Content-Type"
    requires hs[2] == Header("Content-Length", Decimal(|body|))
    ensures Check(parser, hs, body) == Success(Parsed(Shown(parser, hs), body))
  {
    ValueAt(parser.parseKey, hs, 2);
  }

  /** The promise to callers, from either builder to either parser: if the extra headers leave
      the three required ones alone, the envelope parses back to its headers, in order, and its
      body, provided only that the names and values are clean and no two names collide in the
      parser. */
  lemma {:induction false} RoundTrip(
      builder: Platform, parser: Platform, contentType: string, body: bytes, role: string, extras: seq<Header>)
    requires TrimsBreaks(parser) && ReadsDecimal(parser, |body|)
    requires Distinct(builder.buildKey, BaseHeaders(contentType, |body|, role))
    requires Effective(builder, contentType, |body|, role, extras).Success?
    requires !Overrides(builder.buildKey, extras, "Content-Length")
    ensures var hs := Effective(builder, contentType, |body|, role, extras).value;
            AllCleanHeaders(parser, hs) && Distinct(parser.parseKey, hs)
            ==> Parse(parser, Print(hs, body)) == Success(Parsed(Shown(parser, hs), body))
  {
    var hs := Effective(builder, contentType, |body|, role, extras).value;
    RequiredHeaders(builder, contentType, |body|, role, extras);
    if AllCleanHeaders(parser, hs) && Distinct(parser.parseKey, hs) {
      PrintedBlock(parser, hs, body);
      CheckPasses(parser, hs, body);
    }
  }
}
