/**
  The incremental reader of streamed usage figures in the generation proxy
  (modules/llm/ext/openai/generation_proxy.go).  A Go string is a string of bytes; each
  character here is one of them.  Trimming of white space and the reading of token counts
  from JSON are parameters: nothing below depends on them.
*/
module UsageScanner {
  import opened Wrappers
  import opened Text

  datatype Reader = Reader(trimSpace: string -> string, extract: string -> (nat, nat))

  datatype Scan = Scan(sseBuf: string, tokensIn: nat, tokensOut: nat)

  datatype Usage = Usage(tokensIn: nat, tokensOut: nat)

  predicate IsCr(c: char) {
    c == CR
  }

  /** The usage figures one line announces; 0 where it announces none. */
  function Announced(rd: Reader, raw: string): Usage {
    var line := TrimEnd(IsCr, raw);
    if |line| < 5 || line[..5] != "data:" then Usage(0, 0)
    else
      var payload := rd.trimSpace(line[5..]);
      if payload == "" || payload == "[DONE]" then Usage(0, 0)
      else var (i, o) := rd.extract(payload); Usage(i, o)
  }

  function Note(s: Scan, u: Usage): Scan {
    Scan(s.sseBuf, if u.tokensIn > 0 then u.tokensIn else s.tokensIn,
         if u.tokensOut > 0 then u.tokensOut else s.tokensOut)
  }

  /** Take complete lines off the front of the buffer until there is none. */
  function Drain(rd: Reader, s: Scan): Scan
    decreases |s.sseBuf|
  {
    match IndexOf(s.sseBuf, LF)
    case None => s
    case Some(i) => Drain(rd, Step(rd, s, i))
  }

  /** One line taken off. */
  function Step(rd: Reader, s: Scan, i: nat): (r: Scan)
    requires i < |s.sseBuf|
    ensures r.sseBuf == s.sseBuf[i + 1..]
  {
    Note(s, Announced(rd, s.sseBuf[..i])).(sseBuf := s.sseBuf[i + 1..])
  }

  lemma DrainStep(rd: Reader, s: Scan, i: Option<nat>)
    requires i == IndexOf(s.sseBuf, LF)
    ensures Drain(rd, s) == if i.None? then s else Drain(rd, Step(rd, s, i.value))
  {
  }

  function Feed(rd: Reader, s: Scan, chunk: string): Scan {
    Drain(rd, s.(sseBuf := s.sseBuf + chunk))
  }

  function FeedAll(rd: Reader, s: Scan, chunks: seq<string>): Scan
    decreases |chunks|
  {
    if chunks == [] then s else FeedAll(rd, Feed(rd, s, chunks[0]), chunks[1..])
  }

  class UsageCounter {
    const rd: Reader
    var sseBuf: string
    var tokensIn: nat
    var tokensOut: nat

    ghost function View(): Scan
      reads this
    {
      Scan(sseBuf, tokensIn, tokensOut)
    }

    constructor (rd: Reader)
      ensures this.rd == rd && View() == Scan("", 0, 0)
    {
      this.rd := rd;
      sseBuf, tokensIn, tokensOut := "", 0, 0;
    }

    /** What one line does to the counters. */
    method OnLine(raw: string)
      modifies this
      ensures View() == Note(old(View()), Announced(rd, raw))
    {
      var line := TrimEnd(IsCr, raw);
      if |line| < 5 || line[..5] != "data:" {
        return;
      }
      var payload := rd.trimSpace(line[5..]);
      if payload == "" || payload == "[DONE]" {
        return;
      }
      var (i, o) := rd.extract(payload);
      if i > 0 {
        tokensIn := i;
      }
      if o > 0 {
        tokensOut := o;
      }
    }

    /** The body of the response-chunk case for a streamed request. */
    method OnChunk(data: string)
      modifies this
      ensures View() == Feed(rd, old(View()), data)
    {
      sseBuf := sseBuf + data;
      ghost var end := Drain(rd, View());
      while true
        invariant Drain(rd, View()) == end
        decreases |sseBuf|
      {
        ghost var before := View();
        var idx := IndexOf(sseBuf, LF);
        DrainStep(rd, before, idx);
        if idx.None? {
          break;
        }
        var raw := sseBuf[..idx.value];
        sseBuf := sseBuf[idx.value + 1..];
        OnLine(raw);
      }
    }
  }

  // ---------------------------------------------------------------- chunking does not matter

  lemma {:induction false} IndexOfPrefix(x: string, y: string)
    requires LF in x
    ensures IndexOf(x + y, LF) == IndexOf(x, LF)
    decreases |x|
  {
    if x[0] != LF {
      assert (x + y)[1..] == x[1..] + y;
      IndexOfPrefix(x[1..], y);
    }
  }

  /** Draining before or after more bytes arrive comes to the same. */
  lemma {:induction false} DrainThenMore(rd: Reader, s: Scan, y: string)
    ensures Drain(rd, s.(sseBuf := s.sseBuf + y)) == Feed(rd, Drain(rd, s), y)
    decreases |s.sseBuf|
  {
    var i := IndexOf(s.sseBuf, LF);
    if i.Some? {
      IndexOfPrefix(s.sseBuf, y);
      assert (s.sseBuf + y)[..i.value] == s.sseBuf[..i.value];
      assert (s.sseBuf + y)[i.value + 1..] == s.sseBuf[i.value + 1..] + y;
      DrainThenMore(rd, Step(rd, s, i.value), y);
    }
  }

  function Flatten(chunks: seq<string>): string {
    if chunks == [] then "" else chunks[0] + Flatten(chunks[1..])
  }

  lemma {:induction false} DrainLeavesNoLine(rd: Reader, s: Scan)
    ensures LF !in Drain(rd, s).sseBuf
    decreases |s.sseBuf|
  {
    var i := IndexOf(s.sseBuf, LF);
    if i.Some? {
      DrainLeavesNoLine(rd, Step(rd, s, i.value));
    }
  }

  lemma {:induction false} FeedAllIsFeed(rd: Reader, s: Scan, chunks: seq<string>)
    requires LF !in s.sseBuf
    ensures FeedAll(rd, s, chunks) == Feed(rd, s, Flatten(chunks))
    decreases |chunks|
  {
    if chunks == [] {
      assert s.sseBuf + "" == s.sseBuf;
    } else {
      var s1 := s.(sseBuf := s.sseBuf + chunks[0]);
      DrainLeavesNoLine(rd, s1);
      FeedAllIsFeed(rd, Drain(rd, s1), chunks[1..]);
      DrainThenMore(rd, s1, Flatten(chunks[1..]));
      assert s1.sseBuf + Flatten(chunks[1..]) == s.sseBuf + Flatten(chunks);
    }
  }

  /** For any two ways of cutting one stream into chunks the scanner ends in the same state. */
  lemma {:induction false} ChunkingIsIrrelevant(rd: Reader, chunks: seq<string>, chunks': seq<string>)
    requires Flatten(chunks) == Flatten(chunks')
    ensures FeedAll(rd, Scan("", 0, 0), chunks) == FeedAll(rd, Scan("", 0, 0), chunks')
  {
    FeedAllIsFeed(rd, Scan("", 0, 0), chunks);
    FeedAllIsFeed(rd, Scan("", 0, 0), chunks');
  }

  // ---------------------------------------------------------------- what that state is

  /** The lines of a text that a line feed ends, and what is left after the last one. */
  datatype Cut = Cut(complete: seq<string>, rest: string)

  function CutUp(text: string): Cut
    decreases |text|
  {
    match IndexOf(text, LF)
    case None => Cut([], text)
    case Some(i) => Prepend(text[..i], CutUp(text[i + 1..]))
  }

  function Prepend(line: string, c: Cut): Cut {
    Cut([line] + c.complete, c.rest)
  }

  function PutTogether(c: Cut): string {
    Ended(c.complete) + c.rest
  }

  predicate ProperCut(c: Cut) {
    LF !in c.rest && forall i :: 0 <= i < |c.complete| ==> LF !in c.complete[i]
  }

  lemma EndedPrepend(line: string, c: Cut)
    ensures PutTogether(Prepend(line, c)) == line + [LF] + PutTogether(c)
  {
    assert ([line] + c.complete)[1..] == c.complete;
  }

  lemma SplitAround(text: string, i: nat)
    requires i < |text| && text[i] == LF
    ensures text == text[..i] + [LF] + text[i + 1..]
  {
  }

  /** Lines and remainder are the text again. */
  lemma {:induction false} CutKeepsText(text: string)
    ensures PutTogether(CutUp(text)) == text
    decreases |text|
  {
    var i := IndexOf(text, LF);
    if i.Some? {
      CutKeepsText(text[i.value + 1..]);
      EndedPrepend(text[..i.value], CutUp(text[i.value + 1..]));
      SplitAround(text, i.value);
    }
  }

  lemma {:induction false} CutIsProper(text: string)
    ensures ProperCut(CutUp(text))
    decreases |text|
  {
    var i := IndexOf(text, LF);
    if i.Some? {
      IndexOfIsFirst(text, LF);
      CutIsProper(text[i.value + 1..]);
    }
  }

  function Ended(lines: seq<string>): string {
    if lines == [] then "" else lines[0] + [LF] + Ended(lines[1..])
  }

  /** The last positive figure that the lines announce, or what there was before. */
  function LastIn(rd: Reader, lines: seq<string>, before: nat): nat
    decreases |lines|
  {
    if lines == [] then before
    else
      var u := Announced(rd, lines[|lines| - 1]);
      if u.tokensIn > 0 then u.tokensIn else LastIn(rd, lines[..|lines| - 1], before)
  }

  function LastOut(rd: Reader, lines: seq<string>, before: nat): nat
    decreases |lines|
  {
    if lines == [] then before
    else
      var u := Announced(rd, lines[|lines| - 1]);
      if u.tokensOut > 0 then u.tokensOut else LastOut(rd, lines[..|lines| - 1], before)
  }

  lemma {:induction false} LastCons(rd: Reader, line: string, lines: seq<string>, a: nat, b: nat)
    ensures var u := Announced(rd, line);
      && LastIn(rd, [line] + lines, a) == LastIn(rd, lines, if u.tokensIn > 0 then u.tokensIn else a)
      && LastOut(rd, [line] + lines, b) == LastOut(rd, lines, if u.tokensOut > 0 then u.tokensOut else b)
    decreases |lines|
  {
    var all := [line] + lines;
    if lines == [] {
      assert all[..|all| - 1] == [];
    } else {
      assert all[..|all| - 1] == [line] + lines[..|lines| - 1];
      LastCons(rd, line, lines[..|lines| - 1], a, b);
    }
  }

  function Outcome(rd: Reader, s: Scan, c: Cut): Scan {
    Scan(c.rest, LastIn(rd, c.complete, s.tokensIn), LastOut(rd, c.complete, s.tokensOut))
  }

  lemma OutcomeStep(rd: Reader, s: Scan, i: nat, c: Cut)
    requires i < |s.sseBuf|
    ensures Outcome(rd, s, Prepend(s.sseBuf[..i], c)) == Outcome(rd, Step(rd, s, i), c)
  {
    LastCons(rd, s.sseBuf[..i], c.complete, s.tokensIn, s.tokensOut);
  }

  lemma CutStep(text: string, i: nat)
    requires IndexOf(text, LF) == Some(i)
    ensures CutUp(text) == Prepend(text[..i], CutUp(text[i + 1..]))
  {
  }

  lemma OutcomeOfRest(rd: Reader, s: Scan)
    requires IndexOf(s.sseBuf, LF) == None
    ensures Drain(rd, s) == Outcome(rd, s, CutUp(s.sseBuf))
  {
  }

  lemma OutcomeOfLine(rd: Reader, s: Scan, i: nat)
    requires IndexOf(s.sseBuf, LF) == Some(i)
    ensures var next := Step(rd, s, i); Outcome(rd, next, CutUp(next.sseBuf)) == Outcome(rd, s, CutUp(s.sseBuf))
  {
    OutcomeStep(rd, s, i, CutUp(s.sseBuf[i + 1..]));
    CutStep(s.sseBuf, i);
  }

  lemma {:induction false} DrainResult(rd: Reader, s: Scan)
    ensures Drain(rd, s) == Outcome(rd, s, CutUp(s.sseBuf))
    decreases |s.sseBuf|
  {
    var i := IndexOf(s.sseBuf, LF);
    if i.None? {
      OutcomeOfRest(rd, s);
    } else {
      var next := Step(rd, s, i.value);
      DrainStep(rd, s, i);
      DrainResult(rd, next);
      OutcomeOfLine(rd, s, i.value);
    }
  }

  /** However the stream was cut: the buffer is the text after the last line feed, and each
      counter is the last positive figure among the complete lines. */
  lemma {:induction false} ScannerResult(rd: Reader, chunks: seq<string>)
    ensures FeedAll(rd, Scan("", 0, 0), chunks) == Outcome(rd, Scan("", 0, 0), CutUp(Flatten(chunks)))
    ensures PutTogether(CutUp(Flatten(chunks))) == Flatten(chunks) && ProperCut(CutUp(Flatten(chunks)))
  {
    FeedAllIsFeed(rd, Scan("", 0, 0), chunks);
    assert "" + Flatten(chunks) == Flatten(chunks);
    DrainResult(rd, Scan(Flatten(chunks), 0, 0));
    CutKeepsText(Flatten(chunks));
    CutIsProper(Flatten(chunks));
  }

  // ---------------------------------------------------------------- what a line tells

  function Returns(n: nat): string {
    seq(n, _ => CR)
  }

  /** "data:", then p, then any number of carriage returns that are not part of p. */
  predicate IsDataLine(raw: string, p: string, n: nat) {
    raw == "data:" + p + Returns(n) && (p != "" ==> p[|p| - 1] != CR)
  }

  /** The payload p announces i tokens in and o tokens out. */
  predicate Tells(rd: Reader, p: string, i: nat, o: nat) {
    rd.trimSpace(p) != "" && rd.trimSpace(p) != "[DONE]" && rd.extract(rd.trimSpace(p)) == (i, o)
  }

  lemma {:induction false} TrimReturns(q: string, n: nat)
    requires q != "" ==> q[|q| - 1] != CR
    ensures TrimEnd(IsCr, q + Returns(n)) == q
    decreases n
  {
    if n == 0 {
      assert q + Returns(0) == q;
    } else {
      assert (q + Returns(n))[..|q| + n - 1] == q + Returns(n - 1);
      TrimReturns(q, n - 1);
    }
  }

  lemma {:induction false} ReturnsWereTrimmed(raw: string) returns (n: nat)
    ensures raw == TrimEnd(IsCr, raw) + Returns(n)
  {
    var q := TrimEnd(IsCr, raw);
    TrimEndFacts(IsCr, raw);
    n := |raw| - |q|;
    TrimmedAreReturns(raw);
    assert raw == raw[..|q|] + raw[|q|..];
    assert raw[|q|..] == Returns(n);
  }

  lemma {:induction false} TrimmedAreReturns(raw: string)
    ensures forall k :: |TrimEnd(IsCr, raw)| <= k < |raw| ==> raw[k] == CR
  {
    if raw != [] && IsCr(raw[|raw| - 1]) {
      TrimmedAreReturns(raw[..|raw| - 1]);
    }
  }

  lemma DataLineIsTrimmed(raw: string, p: string, n: nat)
    requires IsDataLine(raw, p, n)
    ensures TrimEnd(IsCr, raw) == "data:" + p && ("data:" + p)[5..] == p && ("data:" + p)[..5] == "data:"
  {
    TrimReturns("data:" + p, n);
  }

  /** A data line sets the tokens in to the first figure of its payload and the tokens out to the
      second, each if it is positive. */
  lemma {:induction false} DataLineSets(rd: Reader, s: Scan, raw: string, p: string, n: nat, i: nat, o: nat)
    requires IsDataLine(raw, p, n) && Tells(rd, p, i, o)
    ensures Note(s, Announced(rd, raw))
         == Scan(s.sseBuf, if i > 0 then i else s.tokensIn, if o > 0 then o else s.tokensOut)
  {
    DataLineIsTrimmed(raw, p, n);
  }

  /** Any other line changes nothing. */
  lemma {:induction false} OtherLinesSetNothing(rd: Reader, s: Scan, raw: string)
    requires forall p, n: nat, i, o :: IsDataLine(raw, p, n) ==> !Tells(rd, p, i, o)
    ensures Note(s, Announced(rd, raw)) == s
  {
    var line := TrimEnd(IsCr, raw);
    TrimEndFacts(IsCr, raw);
    if |line| >= 5 && line[..5] == "data:" {
      var p := line[5..];
      var n := ReturnsWereTrimmed(raw);
      assert line == "data:" + p;
      assert IsDataLine(raw, p, n);
      var (i, o) := rd.extract(rd.trimSpace(p));
      assert !Tells(rd, p, i, o);
    }
  }

  // ---- over a stream

  predicate AllOneLine(lines: seq<string>) {
    forall k :: 0 <= k < |lines| ==> LF !in lines[k]
  }

  lemma {:induction false} FirstLineFeed(line: string, rest: string)
    requires LF !in line
    ensures IndexOf(line + [LF] + rest, LF) == Some(|line|)
  {
    if line != "" {
      assert (line + [LF] + rest)[1..] == line[1..] + [LF] + rest;
      FirstLineFeed(line[1..], rest);
    }
  }

  lemma EndedStep(lines: seq<string>, rest: string)
    requires lines != []
    ensures Ended(lines) + rest == lines[0] + [LF] + (Ended(lines[1..]) + rest)
  {
  }

  lemma CutOfLine(line: string, more: string)
    requires LF !in line
    ensures CutUp(line + [LF] + more) == Prepend(line, CutUp(more))
  {
    FirstLineFeed(line, more);
    LineApart(line, more);
    CutStep(line + [LF] + more, |line|);
  }

  lemma LineApart(line: string, more: string)
    ensures (line + [LF] + more)[..|line|] == line && (line + [LF] + more)[|line| + 1..] == more
  {
  }

  lemma {:induction false} CutOfEnded(lines: seq<string>, rest: string)
    requires AllOneLine(lines) && LF !in rest
    ensures CutUp(Ended(lines) + rest) == Cut(lines, rest)
    decreases |lines|
  {
    if lines == [] {
      assert Ended(lines) + rest == rest;
    } else {
      CutOfEnded(lines[1..], rest);
      EndedStep(lines, rest);
      CutOfLine(lines[0], Ended(lines[1..]) + rest);
      assert [lines[0]] + lines[1..] == lines;
    }
  }

  lemma {:induction false} LastInOfLine(
      rd: Reader, before: seq<string>, line: string, after: seq<string>, a: nat)
    requires Announced(rd, line).tokensIn > 0
    requires forall k :: 0 <= k < |after| ==> Announced(rd, after[k]).tokensIn == 0
    ensures LastIn(rd, before + [line] + after, a) == Announced(rd, line).tokensIn
    decreases |after|
  {
    var all := before + [line] + after;
    if after == [] {
      assert all[|all| - 1] == line;
    } else {
      assert all[|all| - 1] == after[|after| - 1];
      assert all[..|all| - 1] == before + [line] + after[..|after| - 1];
      LastInOfLine(rd, before, line, after[..|after| - 1], a);
    }
  }

  lemma {:induction false} LastOutOfLine(
      rd: Reader, before: seq<string>, line: string, after: seq<string>, a: nat)
    requires Announced(rd, line).tokensOut > 0
    requires forall k :: 0 <= k < |after| ==> Announced(rd, after[k]).tokensOut == 0
    ensures LastOut(rd, before + [line] + after, a) == Announced(rd, line).tokensOut
    decreases |after|
  {
    var all := before + [line] + after;
    if after == [] {
      assert all[|all| - 1] == line;
    } else {
      assert all[|all| - 1] == after[|after| - 1];
      assert all[..|all| - 1] == before + [line] + after[..|after| - 1];
      LastOutOfLine(rd, before, line, after[..|after| - 1], a);
    }
  }

  /** The line is no data line with a positive figure of tokens in, or of tokens out. */
  ghost predicate SilentOn(rd: Reader, raw: string, tokensIn: bool) {
    forall p, n: nat, i, o :: IsDataLine(raw, p, n) && Tells(rd, p, i, o) ==> (if tokensIn then i else o) == 0
  }

  lemma SilentAnnouncesNothing(rd: Reader, raw: string, tokensIn: bool)
    requires SilentOn(rd, raw, tokensIn)
    ensures (if tokensIn then Announced(rd, raw).tokensIn else Announced(rd, raw).tokensOut) == 0
  {
    var zero := Scan("", 0, 0);
    if p, n: nat, i, o :| IsDataLine(raw, p, n) && Tells(rd, p, i, o) {
      DataLineSets(rd, zero, raw, p, n, i, o);
    } else {
      OtherLinesSetNothing(rd, zero, raw);
    }
  }

  /** However a stream is cut: when its last data line with a positive figure of tokens in says i,
      the scanner ends with i tokens in. */
  lemma {:induction false} LastLineDecidesIn(
      rd: Reader, chunks: seq<string>, before: seq<string>, raw: string, after: seq<string>, rest: string,
      p: string, n: nat, i: nat, o: nat)
    requires Flatten(chunks) == Ended(before + [raw] + after) + rest
    requires AllOneLine(before + [raw] + after) && LF !in rest
    requires IsDataLine(raw, p, n) && Tells(rd, p, i, o) && i > 0
    requires forall k :: 0 <= k < |after| ==> SilentOn(rd, after[k], true)
    ensures FeedAll(rd, Scan("", 0, 0), chunks).tokensIn == i
  {
    ScannerResult(rd, chunks);
    CutOfEnded(before + [raw] + after, rest);
    DataLineSets(rd, Scan("", 0, 0), raw, p, n, i, o);
    forall k | 0 <= k < |after| ensures Announced(rd, after[k]).tokensIn == 0 {
      SilentAnnouncesNothing(rd, after[k], true);
    }
    LastInOfLine(rd, before, raw, after, 0);
  }

  /** The same for the tokens out. */
  lemma {:induction false} LastLineDecidesOut(
      rd: Reader, chunks: seq<string>, before: seq<string>, raw: string, after: seq<string>, rest: string,
      p: string, n: nat, i: nat, o: nat)
    requires Flatten(chunks) == Ended(before + [raw] + after) + rest
    requires AllOneLine(before + [raw] + after) && LF !in rest
    requires IsDataLine(raw, p, n) && Tells(rd, p, i, o) && o > 0
    requires forall k :: 0 <= k < |after| ==> SilentOn(rd, after[k], false)
    ensures FeedAll(rd, Scan("", 0, 0), chunks).tokensOut == o
  {
    ScannerResult(rd, chunks);
    CutOfEnded(before + [raw] + after, rest);
    DataLineSets(rd, Scan("", 0, 0), raw, p, n, i, o);
    forall k | 0 <= k < |after| ensures Announced(rd, after[k]).tokensOut == 0 {
      SilentAnnouncesNothing(rd, after[k], false);
    }
    LastOutOfLine(rd, before, raw, after, 0);
  }
}
