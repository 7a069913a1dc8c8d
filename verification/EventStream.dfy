/**
  Event streams, section 9.2.6 of the WHATWG HTML Living Standard: the server's printer
  (server/internal/jobs/registry.go) and the client's parser
  (examples/dotnet/nfrx-sdk/NfrxJobsClient.cs).
*/
module EventStream {
  import opened Wrappers
  import opened Text

  /** The payload of an event is its serialised text. */
  datatype Event = Event(kind: string, data: string)

  /** What the server may send. */
  datatype Item = Send(ev: Event) | KeepAlive

  // ---------------------------------------------------------------- the printer

  function PrintItem(it: Item): string {
    match it
    case KeepAlive => ": keep-alive\n\n"
    case Send(ev) => KindPart(ev.kind) + DataPart(ev.data)
  }

  function KindPart(kind: string): string {
    if kind == "" then "" else "event: " + kind + "\n"
  }

  function DataPart(data: string): string {
    "data: " + data + "\n\n"
  }

  function PrintAll(items: seq<Item>): string {
    if items == [] then "" else PrintAll(items[..|items| - 1]) + PrintItem(items[|items| - 1])
  }

  class ResponseWriter {
    var body: string

    constructor ()
      ensures body == PrintAll([])
    {
      body := "";
    }

    method WriteEvent(ev: Event)
      modifies this
      ensures body == old(body) + PrintItem(Send(ev))
    {
      if ev.kind != "" {
        body := body + ("event: " + ev.kind + "\n");
      }
      body := body + "data: ";
      body := body + ev.data;
      body := body + "\n\n";
      assert body == old(body) + (KindPart(ev.kind) + DataPart(ev.data));
    }

    method WriteKeepAlive()
      modifies this
      ensures body == old(body) + PrintItem(KeepAlive)
    {
      body := body + ": keep-alive\n\n";
    }
  }

  // ---------------------------------------------------------------- the parser

  predicate IsBreak(c: char) {
    c == CR || c == LF
  }

  predicate OneLine(s: string) {
    CR !in s && LF !in s
  }

  /** How many characters come before the first line break, or before the end. */
  function LineLength(text: string): (n: nat)
    ensures n <= |text|
    ensures n < |text| ==> IsBreak(text[n])
  {
    if text == [] || IsBreak(text[0]) then 0 else 1 + LineLength(text[1..])
  }

  /** Where the line after the first one starts: a line ends in LF, CR or CRLF. */
  function NextLine(text: string): (n: nat)
    requires text != []
    ensures 0 < n <= |text| && LineLength(text) <= n
  {
    var e := LineLength(text);
    if e == |text| then e
    else if text[e] == CR && e + 1 < |text| && text[e + 1] == LF then e + 2
    else e + 1
  }

  datatype State = State(kind: Option<string>, dataLines: seq<string>, out: seq<Event>)

  function Join(lines: seq<string>): string {
    if lines == [] then ""
    else if |lines| == 1 then lines[0]
    else Join(lines[..|lines| - 1]) + [LF] + lines[|lines| - 1]
  }

  function Upper(c: char): char {
    if 'a' <= c <= 'z' then (c as int - 32) as char else c
  }

  /** Ordinal comparison without case.  No letter outside ASCII has an upper case among the
      letters of the two field names. */
  predicate StartsWith(line: string, name: string) {
    |name| <= |line| && forall i :: 0 <= i < |name| ==> Upper(line[i]) == Upper(name[i])
  }

  datatype Line = Blank | Comment | Kind(kind: string) | Data(data: string) | Other

  function Classify(sp: char -> bool, line: string): Line {
    if line == "" then Blank
    else if line[0] == ':' then Comment
    else if StartsWith(line, "event:") then Kind(Trim(sp, line[6..]))
    else if StartsWith(line, "data:") then Data(TrimStart(sp, line[5..]))
    else Other
  }

  function Apply(s: State, line: Line): State {
    match line
    case Blank => State(None, [], if s.dataLines == [] then s.out else s.out + [Finished(s)])
    case Kind(k) => s.(kind := Some(k))
    case Data(d) => s.(dataLines := s.dataLines + [d])
    case _ => s
  }

  function KindOr(kind: Option<string>): string {
    if kind.None? then "message" else kind.value
  }

  function Finished(s: State): Event {
    Event(KindOr(s.kind), Join(s.dataLines))
  }

  function Parse(sp: char -> bool, s: State, text: string): State
    decreases |text|
  {
    if text == "" then s
    else Parse(sp, Apply(s, Classify(sp, text[..LineLength(text)])), text[NextLine(text)..])
  }

  function Start(): State {
    State(None, [], [])
  }

  /** StreamEventsAsync on everything the connection delivers before it ends. */
  method StreamEvents(sp: char -> bool, text: string) returns (events: seq<Event>)
    ensures events == Parse(sp, Start(), text).out
  {
    var eventType: Option<string>, dataLines: seq<string> := None, [];
    events := [];
    var pos := 0;
    while pos < |text|
      invariant pos <= |text|
      invariant Parse(sp, State(eventType, dataLines, events), text[pos..]) == Parse(sp, Start(), text)
    {
      var rest := text[pos..];
      var line := rest[..LineLength(rest)];
      pos := pos + NextLine(rest);
      assert text[pos..] == rest[NextLine(rest)..];
      if |line| == 0 {
        if |dataLines| > 0 {
          events := events + [Event(KindOr(eventType), Join(dataLines))];
        }
        eventType, dataLines := None, [];
        continue;
      }
      if line[0] == ':' {
        continue;
      }
      if StartsWith(line, "event:") {
        eventType := Some(Trim(sp, line[6..]));
        continue;
      }
      if StartsWith(line, "data:") {
        dataLines := dataLines + [TrimStart(sp, line[5..])];
      }
    }
  }

  // ---------------------------------------------------------------- reading piece by piece

  lemma {:induction false} LineLengthAppend(a: string, b: string)
    requires LineLength(a) < |a|
    ensures LineLength(a + b) == LineLength(a)
  {
    if !IsBreak(a[0]) {
      assert (a + b)[1..] == a[1..] + b;
      LineLengthAppend(a[1..], b);
    }
  }

  lemma {:induction false} LineHasNoBreak(text: string)
    ensures OneLine(text[..LineLength(text)])
  {
    if text != [] && !IsBreak(text[0]) {
      LineHasNoBreak(text[1..]);
      assert text[..LineLength(text)] == [text[0]] + text[1..][..LineLength(text[1..])];
    }
  }

  lemma {:induction false} OneLineLength(l: string, rest: string)
    requires OneLine(l)
    ensures LineLength(l + [LF] + rest) == |l|
  {
    if l == "" {
      assert (l + [LF] + rest)[0] == LF;
    } else {
      OneLineLength(l[1..], rest);
      assert (l + [LF] + rest)[1..] == l[1..] + [LF] + rest;
    }
  }

  /** A text that stops at the end of a line. */
  predicate WholeLines(a: string) {
    a == "" || a[|a| - 1] == LF
  }

  lemma {:induction false} WholeLinesHaveBreak(a: string)
    requires a != "" && WholeLines(a)
    ensures LineLength(a) < |a|
  {
    if !IsBreak(a[0]) {
      WholeLinesHaveBreak(a[1..]);
    }
  }

  lemma NextLineAppend(a: string, b: string)
    requires LineLength(a) < |a|
    requires a[LineLength(a)] == LF || LineLength(a) + 1 < |a|
    ensures a + b != [] && NextLine(a + b) == NextLine(a)
    ensures (a + b)[NextLine(a)..] == a[NextLine(a)..] + b
    ensures LineLength(a + b) == LineLength(a) && (a + b)[..LineLength(a)] == a[..LineLength(a)]
  {
    LineLengthAppend(a, b);
  }

  lemma {:induction false} ParseAppend(sp: char -> bool, s: State, a: string, b: string)
    requires WholeLines(a)
    ensures Parse(sp, s, a + b) == Parse(sp, Parse(sp, s, a), b)
    decreases |a|
  {
    if a == "" {
      assert a + b == b;
    } else {
      WholeLinesHaveBreak(a);
      NextLineAppend(a, b);
      ParseAppend(sp, Apply(s, Classify(sp, a[..LineLength(a)])), a[NextLine(a)..], b);
    }
  }

  lemma {:induction false} OutGrows(sp: char -> bool, s: State, text: string)
    ensures s.out <= Parse(sp, s, text).out
    decreases |text|
  {
    if text != "" {
      OutGrows(sp, Apply(s, Classify(sp, text[..LineLength(text)])), text[NextLine(text)..]);
    }
  }

  lemma LastLineAddsNothing(sp: char -> bool, s: State, a: string)
    requires LineLength(a) == |a|
    ensures Parse(sp, s, a).out == s.out
  {
    if a != "" {
      assert a[..|a|] == a && a[|a|..] == "";
    }
  }

  lemma CrAtTheEnd(sp: char -> bool, s: State, a: string)
    requires LineLength(a) + 1 == |a|
    ensures Parse(sp, s, a) == Apply(s, Classify(sp, a[..LineLength(a)]))
  {
    assert NextLine(a) == |a| && a[|a|..] == "";
  }

  /** A connection cut at any point, even inside a line break, has delivered a prefix of the
      events: none is invented, altered or handed out half read. */
  lemma {:induction false} CutConnection(sp: char -> bool, s: State, a: string, b: string)
    ensures Parse(sp, s, a).out <= Parse(sp, s, a + b).out
    decreases |a|
  {
    var e := LineLength(a);
    if e == |a| {
      LastLineAddsNothing(sp, s, a);
      OutGrows(sp, s, a + b);
    } else {
      var next := Apply(s, Classify(sp, a[..e]));
      if a[e] == LF || e + 1 < |a| {
        NextLineAppend(a, b);
        CutConnection(sp, next, a[NextLine(a)..], b);
      } else {
        CrAtTheEnd(sp, s, a);
        LineLengthAppend(a, b);
        assert (a + b)[..e] == a[..e];
        OutGrows(sp, next, (a + b)[NextLine(a + b)..]);
      }
    }
  }

  // ---------------------------------------------------------------- printing, then parsing

  /** What is taken for granted of the client's notion of white space. */
  predicate Spaces(sp: char -> bool) {
    sp(' ') && !sp('m') && !sp('e')
  }

  /** An event that comes through unchanged, except that no type becomes "message". */
  predicate Printable(sp: char -> bool, ev: Event) {
    && OneLine(ev.kind) && Trimmed(sp, ev.kind)
    && OneLine(ev.data) && (ev.data != "" ==> !sp(ev.data[0]))
  }

  function Received(it: Item): seq<Event> {
    match it
    case KeepAlive => []
    case Send(ev) => [Event(if ev.kind == "" then "message" else ev.kind, ev.data)]
  }

  function ReceivedAll(items: seq<Item>): seq<Event> {
    if items == [] then [] else ReceivedAll(items[..|items| - 1]) + Received(items[|items| - 1])
  }

  lemma ParseLine(sp: char -> bool, s: State, l: string, rest: string)
    requires OneLine(l)
    ensures Parse(sp, s, l + [LF] + rest) == Parse(sp, Apply(s, Classify(sp, l)), rest)
  {
    var text := l + [LF] + rest;
    OneLineLength(l, rest);
    assert text[..|l|] == l && text[|l|] == LF && text[|l| + 1..] == rest;
  }

  lemma ParseOneLine(sp: char -> bool, s: State, l: string)
    requires OneLine(l)
    ensures Parse(sp, s, l + [LF]) == Apply(s, Classify(sp, l))
  {
    ParseLine(sp, s, l, "");
    assert l + [LF] + "" == l + [LF];
  }

  lemma ClassifyKind(sp: char -> bool, kind: string)
    requires Spaces(sp)
    ensures Classify(sp, "event: " + kind) == Kind(Trim(sp, kind))
  {
    var line := "event: " + kind;
    assert line[6..] == " " + kind;
    assert (" " + kind)[1..] == kind;
    assert StartsWith(line, "event:");
  }

  lemma ClassifyData(sp: char -> bool, data: string)
    requires Spaces(sp)
    ensures Classify(sp, "data: " + data) == Data(TrimStart(sp, data))
  {
    var line := "data: " + data;
    assert line[5..] == " " + data;
    assert (" " + data)[1..] == data;
    assert Upper(line[0]) != Upper("event:"[0]);
    assert StartsWith(line, "data:");
  }

  /** Between two items the parser holds nothing. */
  function Idle(out: seq<Event>): State {
    State(None, [], out)
  }

  function AfterKind(sp: char -> bool, out: seq<Event>, kind: string): State {
    State(if kind == "" then None else Some(Trim(sp, kind)), [], out)
  }

  lemma ParseKindPart(sp: char -> bool, out: seq<Event>, kind: string)
    requires Spaces(sp) && OneLine(kind)
    ensures Parse(sp, Idle(out), KindPart(kind)) == AfterKind(sp, out, kind)
  {
    if kind != "" {
      ParseOneLine(sp, Idle(out), "event: " + kind);
      ClassifyKind(sp, kind);
    }
  }

  lemma ParseDataPart(sp: char -> bool, s: State, data: string)
    requires Spaces(sp) && OneLine(data)
    ensures Parse(sp, s, DataPart(data)) == Apply(Apply(s, Data(TrimStart(sp, data))), Blank)
  {
    var line := "data: " + data;
    assert DataPart(data) == line + [LF] + "\n";
    ParseLine(sp, s, line, "\n");
    ClassifyData(sp, data);
    ParseOneLine(sp, Apply(s, Data(TrimStart(sp, data))), "");
    assert "" + [LF] == "\n";
  }

  lemma KindPartIsWhole(kind: string)
    ensures WholeLines(KindPart(kind))
  {
  }

  lemma ParseKeepAlive(sp: char -> bool, out: seq<Event>)
    ensures Parse(sp, Idle(out), PrintItem(KeepAlive)) == Idle(out)
  {
    assert PrintItem(KeepAlive) == ": keep-alive" + [LF] + "\n";
    ParseLine(sp, Idle(out), ": keep-alive", "\n");
    ParseOneLine(sp, Idle(out), "");
    assert "" + [LF] == "\n";
  }

  lemma ParseSend(sp: char -> bool, s: State, ev: Event)
    ensures Parse(sp, s, PrintItem(Send(ev))) == Parse(sp, Parse(sp, s, KindPart(ev.kind)), DataPart(ev.data))
  {
    KindPartIsWhole(ev.kind);
    ParseAppend(sp, s, KindPart(ev.kind), DataPart(ev.data));
  }

  lemma FinishPrintable(sp: char -> bool, out: seq<Event>, ev: Event)
    requires Printable(sp, ev)
    ensures Apply(Apply(AfterKind(sp, out, ev.kind), Data(TrimStart(sp, ev.data))), Blank)
         == Idle(out + Received(Send(ev)))
  {
    TrimIsTrimmed(sp, ev.kind);
  }

  lemma ParsePrintable(sp: char -> bool, out: seq<Event>, ev: Event)
    requires Spaces(sp) && Printable(sp, ev)
    ensures Parse(sp, Idle(out), PrintItem(Send(ev))) == Idle(out + Received(Send(ev)))
  {
    ParseSend(sp, Idle(out), ev);
    ParseKindPart(sp, out, ev.kind);
    ParseDataPart(sp, AfterKind(sp, out, ev.kind), ev.data);
    FinishPrintable(sp, out, ev);
  }

  // ---------------------------------------------------------------- events that do not survive

  predicate CleanEvent(sp: char -> bool, ev: Event) {
    && OneLine(ev.kind) && Trimmed(sp, ev.kind)
    && (OneLine(ev.data) && ev.data != "" ==> !sp(ev.data[0]))
  }

  predicate CleanData(sp: char -> bool, d: string) {
    d != "" ==> !sp(d[0])
  }

  predicate CleanState(sp: char -> bool, s: State) {
    && (s.kind.Some? ==> OneLine(s.kind.value) && Trimmed(sp, s.kind.value))
    && (forall i :: 0 <= i < |s.dataLines| ==> CleanData(sp, s.dataLines[i]))
  }

  lemma CleanLine(sp: char -> bool, s: State, line: string)
    requires CleanState(sp, s) && OneLine(line)
    ensures CleanState(sp, Apply(s, Classify(sp, line)))
  {
    match Classify(sp, line) {
      case Kind(k) =>
        TrimIsTrimmed(sp, line[6..]);
        var a, b := TrimIsStretch(sp, line[6..]);
      case Data(d) =>
        TrimStartFacts(sp, line[5..]);
      case _ =>
    }
  }

  lemma CleanFinish(sp: char -> bool, s: State)
    requires Spaces(sp) && CleanState(sp, s) && s.dataLines != []
    ensures CleanEvent(sp, Finished(s))
  {
    if |s.dataLines| > 1 {
      assert LF in Join(s.dataLines[..|s.dataLines| - 1]) + [LF] + s.dataLines[|s.dataLines| - 1];
    }
  }

  /** Whatever arrives, an event's type is one trimmed line and its data starts with no space. */
  lemma {:induction false} EmittedAreClean(sp: char -> bool, s: State, text: string)
    requires Spaces(sp) && CleanState(sp, s)
    requires forall e :: e in s.out ==> CleanEvent(sp, e)
    ensures forall e :: e in Parse(sp, s, text).out ==> CleanEvent(sp, e)
    decreases |text|
  {
    if text != "" {
      var line := text[..LineLength(text)];
      LineHasNoBreak(text);
      CleanLine(sp, s, line);
      if s.dataLines != [] {
        CleanFinish(sp, s);
      }
      EmittedAreClean(sp, Apply(s, Classify(sp, line)), text[NextLine(text)..]);
    }
  }

  /** A text whose last line is empty. */
  predicate EndsBlank(t: string) {
    t != "" && t[|t| - 1] == LF && (|t| == 1 || t[|t| - 2] == LF)
  }

  lemma NonBlankLeavesBlank(t: string)
    requires EndsBlank(t) && LineLength(t) > 0
    ensures EndsBlank(t[NextLine(t)..])
  {
    LineHasNoBreak(t);
    var e := LineLength(t);
    assert forall i :: 0 <= i < e ==> t[..e][i] == t[i];
  }

  lemma ClassifyBlank(sp: char -> bool, line: string)
    ensures Classify(sp, line) == Blank <==> line == ""
  {
  }

  /** A blank line at the end hands out what was collected. */
  lemma {:induction false} BlankEmits(sp: char -> bool, s: State, t: string)
    requires s.dataLines != [] && EndsBlank(t)
    ensures |Parse(sp, s, t).out| > |s.out|
    decreases |t|
  {
    var line := t[..LineLength(t)];
    var next := Apply(s, Classify(sp, line));
    ClassifyBlank(sp, line);
    if line == "" {
      OutGrows(sp, next, t[NextLine(t)..]);
    } else {
      NonBlankLeavesBlank(t);
      BlankEmits(sp, next, t[NextLine(t)..]);
    }
  }

  lemma WeightOfLine(sp: char -> bool, s: State, line: string)
    requires s.dataLines != [] && line != ""
    ensures var next := Apply(s, Classify(sp, line));
      && next.dataLines != [] && next.out == s.out
      && (next == s.(kind := next.kind) || |Join(next.dataLines)| <= |Join(s.dataLines)| + |line| - 4)
  {
    match Classify(sp, line) {
      case Data(d) => assert (s.dataLines + [d])[..|s.dataLines|] == s.dataLines;
      case _ =>
    }
  }

  /** The next event's data is what was collected, or is shorter than that and the text by
      three characters at least: every further data line pays for its field name. */
  lemma {:induction false} NextEventIsShort(sp: char -> bool, s: State, t: string)
    requires s.dataLines != [] && |Parse(sp, s, t).out| > |s.out|
    ensures var d, w := Parse(sp, s, t).out[|s.out|].data, |Join(s.dataLines)|; |d| == w || |d| + 3 <= w + |t|
    decreases |t|
  {
    var line, rest := t[..LineLength(t)], t[NextLine(t)..];
    var next := Apply(s, Classify(sp, line));
    ClassifyBlank(sp, line);
    if line == "" {
      OutGrows(sp, next, rest);
    } else {
      WeightOfLine(sp, s, line);
      NextEventIsShort(sp, next, rest);
    }
  }

  lemma {:induction false} LineLengthAfter(l: string, x: string)
    requires OneLine(l)
    ensures LineLength(l + x) == |l| + LineLength(x)
  {
    if l == "" {
      assert l + x == x;
    } else {
      LineLengthAfter(l[1..], x);
      assert (l + x)[1..] == l[1..] + x;
    }
  }

  lemma {:induction false} BreakEndsLine(data: string)
    requires !OneLine(data)
    ensures LineLength(data) < |data|
  {
    if !IsBreak(data[0]) {
      BreakEndsLine(data[1..]);
    }
  }

  /** Broken data reaches the parser as a shorter data line and a rest ending in a blank line. */
  lemma BrokenFirstLine(data: string)
    requires !OneLine(data)
    ensures var t, e := DataPart(data), LineLength(data);
      && e < |data| && LineLength(t) == 6 + e && t[..6 + e] == "data: " + data[..e]
      && EndsBlank(t[NextLine(t)..]) && |t[NextLine(t)..]| <= |data| - e + 1
  {
    var t, e := DataPart(data), LineLength(data);
    assert t == "data: " + (data + "\n\n");
    BreakEndsLine(data);
    LineLengthAfter("data: ", data + "\n\n");
    LineLengthAppend(data, "\n\n");
    assert t[|t| - 1] == LF && t[|t| - 2] == LF;
  }

  lemma BrokenData(sp: char -> bool, s: State, data: string)
    requires Spaces(sp) && !OneLine(data) && s.dataLines == []
    ensures var p := Parse(sp, s, DataPart(data)).out; |p| > |s.out| && |p[|s.out|].data| < |data|
  {
    var t, e := DataPart(data), LineLength(data);
    BrokenFirstLine(data);
    ClassifyData(sp, data[..e]);
    var next := Apply(s, Data(TrimStart(sp, data[..e])));
    var rest := t[NextLine(t)..];
    assert Parse(sp, s, t) == Parse(sp, next, rest);
    BlankEmits(sp, next, rest);
    NextEventIsShort(sp, next, rest);
  }

  /** Any data, even broken, is followed by the blank line that hands an event out. */
  lemma DataPartEmits(sp: char -> bool, s: State, data: string)
    requires Spaces(sp)
    ensures |Parse(sp, s, DataPart(data)).out| > |s.out|
  {
    if s.dataLines != [] {
      var t := DataPart(data);
      assert t[|t| - 1] == LF && t[|t| - 2] == LF;
      BlankEmits(sp, s, t);
    } else if OneLine(data) {
      ParseDataPart(sp, s, data);
    } else {
      BrokenData(sp, s, data);
    }
  }

  lemma ItemEmits(sp: char -> bool, s: State, ev: Event)
    requires Spaces(sp)
    ensures Parse(sp, s, PrintItem(Send(ev))) == Parse(sp, Parse(sp, s, KindPart(ev.kind)), DataPart(ev.data))
    ensures |Parse(sp, s, PrintItem(Send(ev))).out| > |s.out|
  {
    ParseSend(sp, s, ev);
    OutGrows(sp, s, KindPart(ev.kind));
    DataPartEmits(sp, Parse(sp, s, KindPart(ev.kind)), ev.data);
  }

  /** An event that is not printable comes out altered. */
  lemma BadEventIsAltered(sp: char -> bool, out: seq<Event>, ev: Event)
    requires Spaces(sp) && !Printable(sp, ev)
    requires forall e :: e in out ==> CleanEvent(sp, e)
    ensures var p := Parse(sp, Idle(out), PrintItem(Send(ev))).out;
      |p| > |out| && p[|out|] != Received(Send(ev))[0]
  {
    var p := Parse(sp, Idle(out), PrintItem(Send(ev))).out;
    ItemEmits(sp, Idle(out), ev);
    EmittedAreClean(sp, Idle(out), PrintItem(Send(ev)));
    assert CleanEvent(sp, p[|out|]);
    if OneLine(ev.kind) && !OneLine(ev.data) {
      ParseKindPart(sp, out, ev.kind);
      BrokenData(sp, AfterKind(sp, out, ev.kind), ev.data);
    }
  }

  // ---------------------------------------------------------------- whole streams

  lemma {:induction false} PrintedIsWhole(items: seq<Item>)
    ensures WholeLines(PrintAll(items))
  {
    if items != [] {
      var it := PrintItem(items[|items| - 1]);
      assert it[|it| - 1] == LF;
    }
  }

  lemma ParseNext(sp: char -> bool, items: seq<Item>)
    requires items != []
    ensures Parse(sp, Start(), PrintAll(items))
         == Parse(sp, Parse(sp, Start(), PrintAll(items[..|items| - 1])), PrintItem(items[|items| - 1]))
  {
    var init := items[..|items| - 1];
    PrintedIsWhole(init);
    ParseAppend(sp, Start(), PrintAll(init), PrintItem(items[|items| - 1]));
  }

  predicate AllPrintable(sp: char -> bool, items: seq<Item>) {
    forall i :: 0 <= i < |items| && items[i].Send? ==> Printable(sp, items[i].ev)
  }

  /** Parsing undoes printing, keep-alives or not. */
  lemma {:induction false} ParseUndoesPrint(sp: char -> bool, items: seq<Item>)
    requires Spaces(sp) && AllPrintable(sp, items)
    ensures Parse(sp, Start(), PrintAll(items)) == Idle(ReceivedAll(items))
  {
    if items != [] {
      var init, last := items[..|items| - 1], items[|items| - 1];
      ParseUndoesPrint(sp, init);
      ParseNext(sp, items);
      match last
      case KeepAlive => ParseKeepAlive(sp, ReceivedAll(init));
      case Send(ev) => ParsePrintable(sp, ReceivedAll(init), ev);
    }
  }

  predicate DiffersAt(x: seq<Event>, y: seq<Event>, k: nat) {
    k < |x| && k < |y| && x[k] != y[k]
  }

  lemma FirstBad(sp: char -> bool, items: seq<Item>)
    requires items != [] && AllPrintable(sp, items[..|items| - 1]) && !AllPrintable(sp, items)
    ensures items[|items| - 1].Send? && !Printable(sp, items[|items| - 1].ev)
  {
    assert forall i :: 0 <= i < |items| - 1 ==> items[..|items| - 1][i] == items[i];
  }

  lemma ReceivedAreClean(sp: char -> bool, items: seq<Item>)
    requires Spaces(sp) && AllPrintable(sp, items)
    ensures forall e :: e in ReceivedAll(items) ==> CleanEvent(sp, e)
  {
    ParseUndoesPrint(sp, items);
    EmittedAreClean(sp, Start(), PrintAll(items));
  }

  lemma ReceivedNext(items: seq<Item>)
    requires items != []
    ensures ReceivedAll(items) == ReceivedAll(items[..|items| - 1]) + Received(items[|items| - 1])
  {
  }

  lemma FirstBadShows(sp: char -> bool, items: seq<Item>)
    requires Spaces(sp) && items != []
    requires AllPrintable(sp, items[..|items| - 1]) && !AllPrintable(sp, items)
    ensures DiffersAt(Parse(sp, Start(), PrintAll(items)).out, ReceivedAll(items), |ReceivedAll(items[..|items| - 1])|)
  {
    var init, last := items[..|items| - 1], items[|items| - 1];
    FirstBad(sp, items);
    ParseUndoesPrint(sp, init);
    ParseNext(sp, items);
    ReceivedAreClean(sp, init);
    BadEventIsAltered(sp, ReceivedAll(init), last.ev);
    ReceivedNext(items);
  }

  lemma DifferenceStays(x: seq<Event>, y: seq<Event>, x': seq<Event>, y': seq<Event>, k: nat)
    requires DiffersAt(x, y, k) && x <= x' && y <= y'
    ensures DiffersAt(x', y', k)
  {
    assert x'[k] == x[k] && y'[k] == y[k];
  }

  lemma {:induction false} UnprintableShows(sp: char -> bool, items: seq<Item>) returns (k: nat)
    requires Spaces(sp) && !AllPrintable(sp, items)
    ensures DiffersAt(Parse(sp, Start(), PrintAll(items)).out, ReceivedAll(items), k)
  {
    var init := items[..|items| - 1];
    if AllPrintable(sp, init) {
      FirstBadShows(sp, items);
      k := |ReceivedAll(init)|;
    } else {
      k := UnprintableShows(sp, init);
      var s := Parse(sp, Start(), PrintAll(init));
      ParseNext(sp, items);
      OutGrows(sp, s, PrintItem(items[|items| - 1]));
      DifferenceStays(s.out, ReceivedAll(init), Parse(sp, Start(), PrintAll(items)).out, ReceivedAll(items), k);
    }
  }

  /** A stream is received exactly as sent if and only if each event has a trimmed one-line type
      and one-line data that starts with no white space. */
  lemma {:induction false} StreamRecoveredIff(sp: char -> bool, items: seq<Item>)
    requires Spaces(sp)
    ensures Parse(sp, Start(), PrintAll(items)).out == ReceivedAll(items) <==> AllPrintable(sp, items)
  {
    if AllPrintable(sp, items) {
      ParseUndoesPrint(sp, items);
    } else {
      var k := UnprintableShows(sp, items);
    }
  }

  /** Wherever the connection breaks, the client has a prefix of what was sent. */
  lemma {:induction false} CutStreamIsPrefix(sp: char -> bool, items: seq<Item>, n: nat)
    requires Spaces(sp) && AllPrintable(sp, items) && n <= |PrintAll(items)|
    ensures Parse(sp, Start(), PrintAll(items)[..n]).out <= ReceivedAll(items)
  {
    var text := PrintAll(items);
    assert text[..n] + text[n..] == text;
    CutConnection(sp, Start(), text[..n], text[n..]);
    ParseUndoesPrint(sp, items);
  }

  // ---------------------------------------------------------------- streams that others write

  /** The letter of a field name, in either case. */
  predicate SameLetter(c: char, small: char) {
    c == small || ('a' <= small <= 'z' && c as int == small as int - 32)
  }

  /** The line is the field name, in any case, and then the rest. */
  predicate HasField(line: string, name: string, rest: string) {
    && |line| == |name| + |rest| && line[|name|..] == rest
    && forall i :: 0 <= i < |name| ==> SameLetter(line[i], name[i])
  }

  lemma StartsWithIff(line: string, name: string)
    requires name == "event:" || name == "data:"
    ensures StartsWith(line, name) <==> |name| <= |line| && HasField(line, name, line[|name|..])
  {
  }

  /** What one line is: a comment, the type, data, or nothing the client knows. */
  lemma {:induction false} LineMeans(sp: char -> bool, line: string)
    requires line != ""
    ensures line[0] == ':' ==> Classify(sp, line) == Comment
    ensures forall rest :: HasField(line, "event:", rest) ==> Classify(sp, line) == Kind(Trim(sp, rest))
    ensures forall rest :: HasField(line, "data:", rest) ==> Classify(sp, line) == Data(TrimStart(sp, rest))
    ensures line[0] != ':' && (forall rest :: !HasField(line, "event:", rest) && !HasField(line, "data:", rest)) ==>
      Classify(sp, line) == Other
  {
    StartsWithIff(line, "event:");
    StartsWithIff(line, "data:");
    forall rest | HasField(line, "event:", rest) ensures Classify(sp, line) == Kind(Trim(sp, rest)) {
      assert SameLetter(line[0], "event:"[0]);
    }
    forall rest | HasField(line, "data:", rest) ensures Classify(sp, line) == Data(TrimStart(sp, rest)) {
      assert SameLetter(line[0], "data:"[0]);
      assert !SameLetter(line[0], "event:"[0]);
    }
  }

  /** A line may end in a line feed, a carriage return, or both. */
  lemma {:induction false} AnyLineEnd(sp: char -> bool, s: State, l: string, rest: string)
    requires OneLine(l)
    ensures Parse(sp, s, l + "\n" + rest) == Parse(sp, Apply(s, Classify(sp, l)), rest)
    ensures Parse(sp, s, l + "\r\n" + rest) == Parse(sp, Apply(s, Classify(sp, l)), rest)
    ensures rest != "" && rest[0] != LF ==>
      Parse(sp, s, l + "\r" + rest) == Parse(sp, Apply(s, Classify(sp, l)), rest)
  {
    ParseBroken(sp, s, l, "\n", rest);
    ParseBroken(sp, s, l, "\r\n", rest);
    if rest != "" && rest[0] != LF {
      ParseBroken(sp, s, l, "\r", rest);
    }
  }

  /** The line break `br` before the text `rest`. */
  predicate BreaksBefore(br: string, rest: string) {
    br == "\n" || br == "\r\n" || (br == "\r" && rest != "" && rest[0] != LF)
  }

  lemma ParseBroken(sp: char -> bool, s: State, l: string, br: string, rest: string)
    requires OneLine(l) && BreaksBefore(br, rest)
    ensures Parse(sp, s, l + br + rest) == Parse(sp, Apply(s, Classify(sp, l)), rest)
  {
    var text := l + (br + rest);
    assert l + br + rest == text;
    LineLengthAfter(l, br + rest);
    BreakApart(l, br, rest);
    assert LineLength(text) == |l| && NextLine(text) == |l| + |br|;
  }

  lemma BreakApart(l: string, br: string, rest: string)
    requires BreaksBefore(br, rest)
    ensures var text := l + (br + rest);
      && text[..|l|] == l && text[|l| + |br|..] == rest && text[|l|] == br[0]
      && (|br| == 2 ==> text[|l| + 1] == br[1])
      && (|br| == 1 && |l| + 1 < |text| ==> text[|l| + 1] == rest[0])
  {
  }

  /** The type that the last type line of a block gives. */
  function KindOf(sp: char -> bool, lines: seq<string>): Option<string> {
    if lines == [] then None
    else
      var last := lines[|lines| - 1];
      if Classify(sp, last).Kind? then Some(Trim(sp, last[6..])) else KindOf(sp, lines[..|lines| - 1])
  }

  /** The data of its data lines, in order. */
  function DataOf(sp: char -> bool, lines: seq<string>): seq<string> {
    if lines == [] then []
    else
      var last := lines[|lines| - 1];
      DataOf(sp, lines[..|lines| - 1]) + if Classify(sp, last).Data? then [TrimStart(sp, last[5..])] else []
  }

  function Lines(lines: seq<string>): string {
    if lines == [] then "" else Lines(lines[..|lines| - 1]) + lines[|lines| - 1] + "\n"
  }

  predicate AreLines(lines: seq<string>) {
    forall i :: 0 <= i < |lines| ==> OneLine(lines[i]) && lines[i] != ""
  }

  lemma {:induction false} LinesAreWhole(lines: seq<string>)
    ensures WholeLines(Lines(lines))
  {
  }

  lemma {:induction false} ParseLines(sp: char -> bool, out: seq<Event>, lines: seq<string>)
    requires AreLines(lines)
    ensures Parse(sp, Idle(out), Lines(lines)) == State(KindOf(sp, lines), DataOf(sp, lines), out)
    decreases |lines|
  {
    if lines != [] {
      var front, last := lines[..|lines| - 1], lines[|lines| - 1];
      ParseLines(sp, out, front);
      ParseOneMore(sp, out, front, last);
      BlockGrows(sp, out, lines);
    }
  }

  lemma ParseOneMore(sp: char -> bool, out: seq<Event>, front: seq<string>, last: string)
    requires OneLine(last)
    ensures Parse(sp, Idle(out), Lines(front) + last + "\n")
         == Apply(Parse(sp, Idle(out), Lines(front)), Classify(sp, last))
  {
    LinesAreWhole(front);
    ParseAppend(sp, Idle(out), Lines(front), last + [LF]);
    assert Lines(front) + last + "\n" == Lines(front) + (last + [LF]);
    ParseOneLine(sp, Parse(sp, Idle(out), Lines(front)), last);
  }

  lemma BlockGrows(sp: char -> bool, out: seq<Event>, lines: seq<string>)
    requires AreLines(lines) && lines != []
    ensures State(KindOf(sp, lines), DataOf(sp, lines), out)
         == (var front, last := lines[..|lines| - 1], lines[|lines| - 1];
             Apply(State(KindOf(sp, front), DataOf(sp, front), out), Classify(sp, last)))
  {
  }

  /** The lines with a line feed between any two. */
  function Joined(lines: seq<string>): string {
    if lines == [] then "" else if |lines| == 1 then lines[0] else lines[0] + "\n" + Joined(lines[1..])
  }

  lemma {:induction false} JoinIsJoined(lines: seq<string>)
    ensures Join(lines) == Joined(lines)
    decreases |lines|
  {
    if |lines| > 1 {
      var front, last := lines[..|lines| - 1], lines[|lines| - 1];
      JoinIsJoined(front);
      JoinedSnoc(front, last);
      assert front + [last] == lines;
      assert [LF] == "\n";
    }
  }

  lemma {:induction false} JoinedSnoc(front: seq<string>, last: string)
    requires front != []
    ensures Joined(front + [last]) == Joined(front) + "\n" + last
    decreases |front|
  {
    if |front| == 1 {
      assert (front + [last])[1..] == [last];
    } else {
      assert (front + [last])[1..] == front[1..] + [last];
      JoinedSnoc(front[1..], last);
    }
  }

  /** Any block of lines, whoever wrote it: the blank line after it hands out one event with the
      last type, or "message", and the data lines joined by line feeds; or none if it had no
      data. */
  lemma {:induction false} BlockIsDispatched(sp: char -> bool, out: seq<Event>, lines: seq<string>)
    requires AreLines(lines)
    ensures var kind, data := KindOf(sp, lines), DataOf(sp, lines);
      Parse(sp, Idle(out), Lines(lines) + "\n")
      == Idle(out + if data == [] then []
                    else [Event(if kind.Some? then kind.value else "message", Joined(data))])
  {
    LinesAreWhole(lines);
    ParseAppend(sp, Idle(out), Lines(lines), "\n");
    ParseLines(sp, out, lines);
    ParseOneLine(sp, Parse(sp, Idle(out), Lines(lines)), "");
    assert "" + [LF] == "\n";
    JoinIsJoined(DataOf(sp, lines));
  }
}
