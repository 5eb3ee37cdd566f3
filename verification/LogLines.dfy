/** The online line splitter of ssh/logs.py against "split the whole text into lines". */
module LogLines {
  import opened Text

  /** What stream.read returns at most. */
  const READ_SIZE: nat := 65536

  const TRUNCATED := " \U{2026}[vpsmcp: line truncated]"

  // ---------- the simple form: lines of a whole text ----------

  function Cap(line: string, max: nat): (r: string)
    ensures |r| <= max + |TRUNCATED|
  {
    if |line| > max then line[..max] + TRUNCATED else line
  }

  /** The lines of a text that a newline ends, each capped. */
  function Lines(text: string, max: nat): seq<string>
    decreases |text|
  {
    var n := IndexOf(text, '\n');
    if n == |text| then [] else [Cap(text[..n], max)] + Lines(text[n + 1..], max)
  }

  /** What follows the last newline. */
  function Remainder(text: string): (r: string)
    ensures Lacks(r, |r|, '\n') && |r| <= |text|
    decreases |text|
  {
    var n := IndexOf(text, '\n');
    if n == |text| then text else Remainder(text[n + 1..])
  }

  /** The capped lines of a whole text; an unterminated last line counts when it is not empty. */
  function CappedLines(text: string, max: nat): seq<string> {
    Lines(text, max) + (if Remainder(text) == "" then [] else [Cap(Remainder(text), max)])
  }

  /** The lines that are settled once text has arrived, whatever follows. */
  function Settled(text: string, max: nat): seq<string> {
    Lines(text, max) + (if |Remainder(text)| > max then [Cap(Remainder(text), max)] else [])
  }

  lemma FirstLine(line: string, rest: string, max: nat)
    requires Lacks(line, |line|, '\n')
    ensures Lines(line + "\n" + rest, max) == [Cap(line, max)] + Lines(rest, max)
    ensures Remainder(line + "\n" + rest) == Remainder(rest)
    ensures Settled(line + "\n" + rest, max) == [Cap(line, max)] + Settled(rest, max)
  {
    var text := line + "\n" + rest;
    IndexOfUnique(text, |line|, '\n');
    assert text[..|line|] == line && text[|line| + 1..] == rest;
  }

  lemma NoLine(text: string, max: nat)
    requires Lacks(text, |text|, '\n')
    ensures Lines(text, max) == [] && Remainder(text) == text
  {}

  lemma CutAt(text: string, n: nat)
    requires n < |text| && text[n] == '\n'
    ensures text == text[..n] + "\n" + text[n + 1..]
  {}

  lemma Regroup(a: string, b: string, c: string)
    ensures a + (b + "\n" + c) == (a + b) + "\n" + c
  {}

  /** Lines can be taken off a text in two parts, joined at the remainder of the first. */
  lemma {:induction false} LinesOfJoin(a: string, b: string, max: nat)
    ensures Lines(a + b, max) == Lines(a, max) + Lines(Remainder(a) + b, max)
    ensures Remainder(a + b) == Remainder(Remainder(a) + b)
    decreases |a|
  {
    var n := IndexOf(a, '\n');
    if n < |a| {
      var line, rest := a[..n], a[n + 1..];
      LinesOfJoin(rest, b, max);
      assert a + b == line + "\n" + (rest + b) by {
        CutAt(a, n);
      }
      FirstLine(line, rest + b, max);
    } else {
      NoLine(a, max);
    }
  }

  lemma SettledOpen(text: string, max: nat)
    requires Lacks(text, |text|, '\n')
    ensures Settled(text, max) == if |text| > max then [Cap(text, max)] else []
  {}

  lemma SettledOfJoin(a: string, b: string, max: nat)
    ensures Settled(a + b, max) == Lines(a, max) + Settled(Remainder(a) + b, max)
  {
    LinesOfJoin(a, b, max);
  }

  /** The cap of a long line does not depend on how the line goes on. */
  lemma LongLineOpen(a: string, b: string, max: nat)
    requires |a| > max
    ensures Cap(a + b, max) == Cap(a, max)
  {}

  lemma LongLineEnds(a: string, tail: string, rest: string, max: nat)
    requires Lacks(a, |a|, '\n') && Lacks(tail, |tail|, '\n') && |a| > max
    ensures Settled(a + (tail + "\n" + rest), max) == [Cap(a, max)] + Settled(rest, max)
  {
    Regroup(a, tail, rest);
    FirstLine(a + tail, rest, max);
    LongLineOpen(a, tail, max);
  }

  lemma LongLineLeads(a: string, b: string, max: nat)
    requires Lacks(a, |a|, '\n') && |a| > max
    ensures [Cap(a, max)] <= Settled(a + b, max)
  {
    var n := IndexOf(b, '\n');
    if n < |b| {
      CutAt(b, n);
      LongLineEnds(a, b[..n], b[n + 1..], max);
    } else {
      SettledOpen(a + b, max);
      LongLineOpen(a, b, max);
    }
  }

  /** What is settled stays: at every point the lines so far are a prefix of the final answer. */
  lemma SettledIsPrefix(a: string, b: string, max: nat)
    ensures Settled(a, max) <= Settled(a + b, max) <= CappedLines(a + b, max)
  {
    SettledOfJoin(a, b, max);
    if |Remainder(a)| > max {
      LongLineLeads(Remainder(a), b, max);
    }
  }

  // ---------- the same, line by line ----------

  /** The text cut at its newlines. */
  function Raw(text: string): (raw: seq<string>)
    ensures raw != [] && forall i :: 0 <= i < |raw| ==> Lacks(raw[i], |raw[i]|, '\n')
    decreases |text|
  {
    var n := IndexOf(text, '\n');
    if n == |text| then [text] else [text[..n]] + Raw(text[n + 1..])
  }

  function Joined(raw: seq<string>): string
    requires raw != []
  {
    if |raw| == 1 then raw[0] else raw[0] + "\n" + Joined(raw[1..])
  }

  /** Joining the raw lines gives the text again, so they are its lines. */
  lemma {:induction false} RawIsText(text: string)
    ensures Joined(Raw(text)) == text
    decreases |text|
  {
    var n := IndexOf(text, '\n');
    if n < |text| {
      RawIsText(text[n + 1..]);
      CutAt(text, n);
    }
  }

  /** The line comes from this raw one: as it is, or cut after max characters and marked. */
  predicate FromRaw(line: string, raw: string, max: nat) {
    line == if |raw| <= max then raw else raw[..max] + " \U{2026}[vpsmcp: line truncated]"
  }

  /** One line for each raw line, but none for an empty last one. */
  predicate FromRaws(lines: seq<string>, raw: seq<string>, max: nat) {
    && raw != [] && |lines| == |raw| - (if raw[|raw| - 1] == "" then 1 else 0)
    && forall i :: 0 <= i < |lines| ==> FromRaw(lines[i], raw[i], max)
  }

  lemma FirstCapped(line: string, rest: string, max: nat)
    requires Lacks(line, |line|, '\n')
    ensures CappedLines(line + "\n" + rest, max) == [Cap(line, max)] + CappedLines(rest, max)
  {
    FirstLine(line, rest, max);
  }

  /** What the capped lines of a text are. */
  lemma {:induction false} CappedLinesAre(text: string, max: nat)
    ensures FromRaws(CappedLines(text, max), Raw(text), max) && Joined(Raw(text)) == text
    decreases |text|
  {
    RawIsText(text);
    var n := IndexOf(text, '\n');
    if n < |text| {
      CutAt(text, n);
      FirstCapped(text[..n], text[n + 1..], max);
      CappedLinesAre(text[n + 1..], max);
    } else {
      NoLine(text, max);
    }
  }

  // ---------- the splitter ----------

  /** The part of a buffer that still counts: none of it while the tail of a long line is skipped. */
  function Counted(buf: string, skipping: bool): Option<string> {
    var n := IndexOf(buf, '\n');
    if !skipping then Some(buf)
    else if n < |buf| then Some(buf[n + 1..])
    else None
  }

  function Coming(rest: Option<string>, max: nat): seq<string> {
    match rest
    case None => []
    case Some(text) => Settled(text, max)
  }

  /** Where processing leaves the splitter: in the tail of a long line, or with this buffer. */
  function EndState(rest: Option<string>, max: nat): Option<string> {
    match rest
    case None => None
    case Some(text) => if |Remainder(text)| > max then None else Some(Remainder(text))
  }

  lemma CountedOpen(buf: string, skipping: bool, max: nat)
    requires IndexOf(buf, '\n') == |buf|
    ensures Coming(Counted(buf, skipping), max) == if !skipping && |buf| > max then [Cap(buf, max)] else []
    ensures EndState(Counted(buf, skipping), max) == if skipping || |buf| > max then None else Some(buf)
  {}

  lemma CountedLine(buf: string, n: nat, skipping: bool, max: nat)
    requires n == IndexOf(buf, '\n') < |buf|
    ensures Coming(Counted(buf, skipping), max) ==
            (if skipping then [] else [Cap(buf[..n], max)]) + Coming(Counted(buf[n + 1..], false), max)
    ensures EndState(Counted(buf, skipping), max) == EndState(Counted(buf[n + 1..], false), max)
  {}

  /** _capped_lines between two reads. */
  class LineSplitter {
    const maxLine: nat
    var buf: string
    var skipping: bool
    ghost var consumed: string
    ghost var peak: nat

    ghost predicate Valid()
      reads this
    {
      && Lacks(buf, |buf|, '\n') && |buf| <= maxLine
      && EndState(Some(consumed), maxLine) == (if skipping then None else Some(buf))
      && peak <= maxLine + READ_SIZE
    }

    constructor (maxLine: nat)
      ensures Valid() && consumed == "" && this.maxLine == maxLine
    {
      this.maxLine := maxLine;
      buf, skipping := "", false;
      consumed, peak := "", 0;
    }

    /** One chunk: returns the lines it settles. peak records the longest buffer ever held. */
    method Feed(chunk: string) returns (lines: seq<string>)
      requires Valid() && |chunk| <= READ_SIZE
      modifies this
      ensures Valid() && consumed == old(consumed) + chunk
      ensures Settled(old(consumed), maxLine) + lines == Settled(consumed, maxLine)
      ensures peak >= old(peak) && peak >= |old(buf)| + |chunk| && peak <= maxLine + 65536
    {
      ChunkJoins(consumed, buf, skipping, chunk, maxLine);
      consumed := consumed + chunk;
      buf := buf + chunk;
      peak := if |buf| > peak then |buf| else peak;
      lines := SplitBuffer();
    }

    /** The inner loop: takes the complete lines off the buffer. */
    method SplitBuffer() returns (lines: seq<string>)
      modifies this`buf, this`skipping
      ensures Lacks(buf, |buf|, '\n') && |buf| <= maxLine
      ensures lines == Coming(Counted(old(buf), old(skipping)), maxLine)
      ensures EndState(Counted(old(buf), old(skipping)), maxLine) == (if skipping then None else Some(buf))
    {
      lines := [];
      ghost var coming, end := Coming(Counted(buf, skipping), maxLine), EndState(Counted(buf, skipping), maxLine);
      var rest, skip := buf, skipping;
      while true
        invariant lines + Coming(Counted(rest, skip), maxLine) == coming
        invariant EndState(Counted(rest, skip), maxLine) == end
        decreases |rest|
      {
        var nl := IndexOf(rest, '\n');
        if nl == |rest| {
          CountedOpen(rest, skip, maxLine);
          if |rest| > maxLine {
            if !skip {
              lines := lines + [Cap(rest, maxLine)];
              skip := true;
            }
            rest := "";
          }
          break;
        }
        CountedLine(rest, nl, skip, maxLine);
        var line := rest[..nl];
        rest := rest[nl + 1..];
        if skip {
          skip := false;
        } else {
          Associative(lines, [Cap(line, maxLine)], Coming(Counted(rest, false), maxLine));
          lines := lines + [Cap(line, maxLine)];
        }
      }
      buf, skipping := rest, skip;
    }

    /** End of the stream. */
    method Finish() returns (lines: seq<string>)
      requires Valid()
      ensures Settled(consumed, maxLine) + lines == CappedLines(consumed, maxLine)
    {
      if buf != "" && !skipping {
        lines := [buf];
      } else {
        lines := [];
      }
    }
  }

  /** Appending a chunk to the buffer stands for appending it to everything read so far. */
  lemma ChunkJoins(consumed: string, buf: string, skipping: bool, chunk: string, max: nat)
    requires Lacks(buf, |buf|, '\n')
    requires EndState(Some(consumed), max) == (if skipping then None else Some(buf))
    ensures Settled(consumed, max) + Coming(Counted(buf + chunk, skipping), max) ==
            Settled(consumed + chunk, max)
    ensures EndState(Counted(buf + chunk, skipping), max) == EndState(Some(consumed + chunk), max)
  {
    var r, front := Remainder(consumed), Lines(consumed, max);
    var coming := Coming(Counted(buf + chunk, skipping), max);
    assert Settled(consumed + chunk, max) == front + Settled(r + chunk, max) by {
      SettledOfJoin(consumed, chunk, max);
    }
    assert Remainder(consumed + chunk) == Remainder(r + chunk) by {
      LinesOfJoin(consumed, chunk, max);
    }
    if skipping {
      ChunkInLongLine(r, buf, chunk, max);
      assert front + [Cap(r, max)] + coming == front + ([Cap(r, max)] + coming);
    } else {
      assert Settled(consumed, max) == front;
    }
  }

  lemma ChunkInLongLine(r: string, buf: string, chunk: string, max: nat)
    requires Lacks(r, |r|, '\n') && |r| > max && Lacks(buf, |buf|, '\n')
    ensures [Cap(r, max)] + Coming(Counted(buf + chunk, true), max) == Settled(r + chunk, max)
    ensures EndState(Counted(buf + chunk, true), max) == EndState(Some(r + chunk), max)
  {
    var n := IndexOf(chunk, '\n');
    if n < |chunk| {
      var tail, rest := chunk[..n], chunk[n + 1..];
      assert chunk == tail + "\n" + rest by { CutAt(chunk, n); }
      CountedInLongLine(buf, tail, rest);
      LongLineEnds(r, tail, rest, max);
      RemainderOfLongLine(r, tail, rest);
    } else {
      IndexOfUnique(buf + chunk, |buf| + n, '\n');
      SettledOpen(r + chunk, max);
      LongLineOpen(r, chunk, max);
      NoLine(r + chunk, max);
    }
  }

  lemma CountedInLongLine(buf: string, tail: string, rest: string)
    requires Lacks(buf, |buf|, '\n') && Lacks(tail, |tail|, '\n')
    ensures Counted(buf + (tail + "\n" + rest), true) == Some(rest)
  {
    var text, n := buf + (tail + "\n" + rest), |buf| + |tail|;
    IndexOfUnique(text, n, '\n');
    assert text[n + 1..] == rest;
  }

  lemma RemainderOfLongLine(r: string, tail: string, rest: string)
    requires Lacks(r, |r|, '\n') && Lacks(tail, |tail|, '\n')
    ensures Remainder(r + (tail + "\n" + rest)) == Remainder(rest)
  {
    Regroup(r, tail, rest);
    FirstLine(r + tail, rest, 0);
  }

  /** The whole generator: however the text is cut into chunks, the same lines come out. */
  method YieldCappedLines(chunks: seq<string>, maxLine: nat) returns (lines: seq<string>)
    requires forall i :: 0 <= i < |chunks| ==> |chunks[i]| <= READ_SIZE
    ensures lines == CappedLines(Arrived(chunks), maxLine)
    ensures FromRaws(lines, Raw(Arrived(chunks)), maxLine) && Joined(Raw(Arrived(chunks))) == Arrived(chunks)
  {
    var splitter := new LineSplitter(maxLine);
    lines := [];
    var i := 0;
    while i < |chunks| && chunks[i] != ""
      invariant i <= |chunks| && splitter.Valid() && splitter.maxLine == maxLine
      invariant forall j :: 0 <= j < i ==> chunks[j] != ""
      invariant splitter.consumed == Arrived(chunks[..i])
      invariant lines == Settled(splitter.consumed, maxLine)
      invariant fresh(splitter)
    {
      ArrivedStep(chunks, i);
      var more := splitter.Feed(chunks[i]);
      lines := lines + more;
      i := i + 1;
    }
    ArrivedAll(chunks, i);
    var last := splitter.Finish();
    lines := lines + last;
    CappedLinesAre(Arrived(chunks), maxLine);
  }
}
