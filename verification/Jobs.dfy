/** Incremental reads of a job's growing output file, over an alphabet of one-byte characters. */
module Jobs {
  import opened Text

  const SIZE_MARK := "__SIZE__"

  datatype Page = Page(content: string, total: nat, nextOffset: nat)

  /** What `tail -c +offset+1 | head -c max_bytes` prints of a file. */
  function Slice(file: string, offset: nat, maxBytes: nat): (s: string)
    ensures |s| <= maxBytes
    ensures offset <= |file| ==> offset + |s| <= |file| && s == file[offset..offset + |s|]
  {
    if offset >= |file| then ""
    else if offset + maxBytes < |file| then file[offset..offset + maxBytes] else file[offset..]
  }

  /** What the remote script prints: the slice, then the size that was read before it. */
  function Printed(slice: string, size: nat): string {
    slice + "\n" + SIZE_MARK + Decimal(size) + "\n"
  }

  /** output() on the text that came back, for tail=False. */
  function Parsed(stdout: string, offset: nat): Page {
    var (body, size) := RPartition(stdout, SIZE_MARK);
    var number := ParseNat(Strip(size));
    var total := if number.Some? then number.value else 0;
    var content := TrimEnd(body, IsNewline);
    Page(content, total, if offset + |content| < total then offset + |content| else total)
  }

  // ---------- the trailer ----------

  lemma MarkText()
    ensures |SIZE_MARK| == 8
    ensures SIZE_MARK[0] == SIZE_MARK[1] == SIZE_MARK[6] == SIZE_MARK[7] == '_'
    ensures SIZE_MARK[2] == 'S' && SIZE_MARK[3] == 'I' && SIZE_MARK[4] == 'Z' && SIZE_MARK[5] == 'E'
  {}

  /** Where each character of the printed text comes from. */
  lemma PrintedAt(slice: string, size: nat)
    ensures var text, n, digits := Printed(slice, size), |slice| + 1, Decimal(size);
            && |text| == n + 8 + |digits| + 1
            && (forall k :: 0 <= k < 8 ==> text[n + k] == SIZE_MARK[k])
            && (forall k :: 0 <= k < |digits| ==> text[n + 8 + k] == digits[k])
            && text[|text| - 1] == '\n'
            && text[..n] == slice + "\n"
            && text[n + 8..] == digits + "\n"
  {}

  /** After a mark that is followed by a digit and then only digits and newlines, no other begins. */
  lemma NoLaterMark(text: string, n: nat, j: nat)
    requires n + 8 < |text| && IsDigit(text[n + 8])
    requires forall k :: 0 <= k < 8 ==> text[n + k] == SIZE_MARK[k]
    requires forall i :: n + 8 <= i < |text| ==> IsDigit(text[i]) || text[i] == '\n'
    requires j > n
    ensures !OccursAt(text, SIZE_MARK, j)
  {
    MarkText();
    var d := j - n;
    var k := if d == 1 || d == 7 then 1 else if d == 6 then 2 else 0;
    if j + 8 <= |text| {
      if d + k < 8 {
        assert text[n + (d + k)] == SIZE_MARK[d + k] != SIZE_MARK[k];
      }
      assert text[j + k] != SIZE_MARK[k];
    }
  }

  lemma AfterMark(slice: string, size: nat)
    ensures var text, n := Printed(slice, size), |slice| + 1;
            && n + 8 < |text| && IsDigit(text[n + 8])
            && forall i :: n + 8 <= i < |text| ==> IsDigit(text[i]) || text[i] == '\n'
  {
    var text, n, digits := Printed(slice, size), |slice| + 1, Decimal(size);
    PrintedAt(slice, size);
    assert text[n + 8 + 0] == digits[0];
    forall i | n + 8 <= i < |text| ensures IsDigit(text[i]) || text[i] == '\n' {
      assert i < |text| - 1 ==> text[n + 8 + (i - n - 8)] == digits[i - n - 8];
    }
  }

  lemma LastMark(slice: string, size: nat, j: nat)
    requires j > |slice| + 1
    ensures !OccursAt(Printed(slice, size), SIZE_MARK, j)
  {
    PrintedAt(slice, size);
    AfterMark(slice, size);
    NoLaterMark(Printed(slice, size), |slice| + 1, j);
  }

  lemma StripDecimal(n: nat)
    ensures Strip(Decimal(n) + "\n") == Decimal(n)
  {
    var digits := Decimal(n);
    assert [] + (digits + "\n") == digits + "\n";
    assert IsDigit(digits[0]) && IsDigit(digits[|digits| - 1]);
    TrimWrapped([], digits, "\n", IsSpace);
  }

  lemma TrimOneMore(s: string)
    ensures TrimEnd(s + "\n", IsNewline) == TrimEnd(s, IsNewline)
  {
    var t := TrimEnd(s, IsNewline);
    assert forall i :: |t| <= i < |s + "\n"| ==> (s + "\n")[i] == if i < |s| then s[i] else '\n';
    assert |t| > 0 ==> (s + "\n")[|t| - 1] == t[|t| - 1];
    TrimEndUnique(s + "\n", |t|, IsNewline);
    assert (s + "\n")[..|t|] == t;
  }

  /** The trailer parses, whatever the body holds, marks included. */
  lemma TrailerParses(slice: string, size: nat, offset: nat)
    ensures var page := Parsed(Printed(slice, size), offset);
            && page.content == TrimEnd(slice, IsNewline)
            && page.total == size
            && page.nextOffset == (if offset + |page.content| < size then offset + |page.content| else size)
  {
    var text, n := Printed(slice, size), |slice| + 1;
    MarkText();
    PrintedAt(slice, size);
    assert OccursAt(text, SIZE_MARK, n);
    forall j: nat | j > n ensures !OccursAt(text, SIZE_MARK, j) {
      LastMark(slice, size, j);
    }
    RPartitionAt(text, SIZE_MARK, n);
    StripDecimal(size);
    ParseOfDecimal(size);
    TrimOneMore(slice);
  }

  /** Without a mark there is no body, and unless the text is a number the next poll begins at the start again. */
  lemma TrailerIsMissing(stdout: string, offset: nat)
    requires !Occurs(stdout, SIZE_MARK)
    ensures Parsed(stdout, offset).content == ""
    ensures Strip(stdout) == "" || !AllIn(Strip(stdout), IsDigit) ==> Parsed(stdout, offset) == Page("", 0, 0)
  {
    ParsesIffDigits(Strip(stdout));
    assert RPartition(stdout, SIZE_MARK) == ("", stdout);
  }

  // ---------- polling a growing file ----------

  /** One poll: the file when its size is read, and when its content is read a moment later. */
  datatype Poll = Poll(atSize: string, atContent: string, maxBytes: nat)

  /** The file only grows, from poll to poll and between the two reads of one poll. */
  predicate Grows(file: string, polls: seq<Poll>)
    decreases |polls|
  {
    polls == [] ||
    (file <= polls[0].atSize <= polls[0].atContent && Grows(polls[0].atContent, polls[1..]))
  }

  function Polled(poll: Poll, offset: nat): Page {
    Parsed(Printed(Slice(poll.atContent, offset, poll.maxBytes), |poll.atSize|), offset)
  }

  /** The part of the content that counts: up to next_offset. */
  function Cut(page: Page, offset: nat): string
    requires offset <= page.nextOffset <= offset + |page.content|
  {
    page.content[..page.nextOffset - offset]
  }

  predicate OnlyNewlines(s: string) {
    AllIn(s, IsNewline)
  }

  /**
   * A poll that starts inside the file moves on by exactly the part that counts, which is the next
   * part of the file; it stands still exactly when the slice is all newlines or the size was read
   * before the file grew past the offset.
   */
  lemma PollMovesOn(poll: Poll, offset: nat)
    requires offset <= |poll.atSize| && poll.atSize <= poll.atContent
    ensures var page := Polled(poll, offset);
            && offset <= page.nextOffset <= |poll.atSize|
            && page.nextOffset <= offset + |page.content|
            && poll.atContent[offset..page.nextOffset] == Cut(page, offset)
            && (page.nextOffset == offset <==>
                  OnlyNewlines(Slice(poll.atContent, offset, poll.maxBytes)) || |poll.atSize| == offset)
  {
    TrailerParses(Slice(poll.atContent, offset, poll.maxBytes), |poll.atSize|, offset);
    PageMovesOn(Polled(poll, offset), poll.atContent, |poll.atSize|, offset, poll.maxBytes);
  }

  lemma PageMovesOn(page: Page, file: string, size: nat, offset: nat, maxBytes: nat)
    requires offset <= size <= |file| && page.content == TrimEnd(Slice(file, offset, maxBytes), IsNewline)
    requires page.nextOffset == if offset + |page.content| < size then offset + |page.content| else size
    ensures offset <= page.nextOffset <= size && page.nextOffset <= offset + |page.content|
    ensures file[offset..page.nextOffset] == Cut(page, offset)
    ensures page.nextOffset == offset <==> OnlyNewlines(Slice(file, offset, maxBytes)) || size == offset
  {
    var content := page.content;
    assert offset + |content| <= |file| && content == file[offset..offset + |content|] by {
      ContentInFile(file, offset, maxBytes);
    }
    assert content == [] <==> OnlyNewlines(Slice(file, offset, maxBytes)) by {
      EmptyIffNewlines(Slice(file, offset, maxBytes));
    }
    var n := page.nextOffset - offset;
    assert file[offset..page.nextOffset] == file[offset..offset + |content|][..n];
  }

  lemma ContentInFile(file: string, offset: nat, maxBytes: nat)
    requires offset <= |file|
    ensures var content := TrimEnd(Slice(file, offset, maxBytes), IsNewline);
            offset + |content| <= |file| && content == file[offset..offset + |content|]
  {}

  lemma EmptyIffNewlines(s: string)
    ensures TrimEnd(s, IsNewline) == [] <==> OnlyNewlines(s)
  {}

  /** The offset after a sequence of polls, each with the next_offset of the one before. */
  function OffsetAfter(polls: seq<Poll>, offset: nat): nat
    decreases |polls|
  {
    if polls == [] then offset else OffsetAfter(polls[1..], Polled(polls[0], offset).nextOffset)
  }

  /** The contents of the polls, each cut at its next_offset, in one text. */
  function Gathered(polls: seq<Poll>, offset: nat): string
    decreases |polls|
  {
    if polls == [] then ""
    else
      var page := Polled(polls[0], offset);
      var part := if offset <= page.nextOffset <= offset + |page.content| then Cut(page, offset) else "";
      part + Gathered(polls[1..], page.nextOffset)
  }

  function LastFile(file: string, polls: seq<Poll>): string
    decreases |polls|
  {
    if polls == [] then file else LastFile(polls[0].atContent, polls[1..])
  }

  /** Polling skips nothing and repeats nothing: what was gathered is the file up to the offset. */
  lemma {:induction false} PollingIsGapFree(file: string, polls: seq<Poll>, offset: nat)
    requires offset <= |file| && Grows(file, polls)
    ensures var last, next := LastFile(file, polls), OffsetAfter(polls, offset);
            && file <= last
            && offset <= next <= |last|
            && file[..offset] + Gathered(polls, offset) == last[..next]
    decreases |polls|
  {
    if polls == [] {
      assert Gathered(polls, offset) == "";
    } else {
      var poll := polls[0];
      var page := Polled(poll, offset);
      var grown := poll.atContent;
      PollMovesOn(poll, offset);
      PollingIsGapFree(grown, polls[1..], page.nextOffset);
      OnePart(file, grown, offset, page.nextOffset, Cut(page, offset), Gathered(polls[1..], page.nextOffset));
    }
  }

  lemma OnePart(file: string, grown: string, a: nat, b: nat, part: string, rest: string)
    requires file <= grown && a <= |file| && a <= b <= |grown| && grown[a..b] == part
    ensures file[..a] + (part + rest) == grown[..b] + rest
  {}

  /** From the beginning of the file: the parts put together are a prefix of what is there at the end. */
  lemma PolledFromStart(polls: seq<Poll>)
    requires Grows("", polls)
    ensures var last, next := LastFile("", polls), OffsetAfter(polls, 0);
            next <= |last| && Gathered(polls, 0) == last[..next]
  {
    PollingIsGapFree("", polls, 0);
    assert ""[..0] + Gathered(polls, 0) == Gathered(polls, 0);
  }

  // ---------- a file that has stopped growing ----------

  /** From x on there stand n newlines in a row. */
  predicate NewlinesAt(file: string, x: nat, n: nat) {
    x + n <= |file| && forall i :: x <= i < x + n ==> file[i] == '\n'
  }

  /** Some max_bytes newlines in a row stand at or after the offset. */
  predicate HasGap(file: string, offset: nat, maxBytes: nat) {
    exists x: nat | offset <= x <= |file| :: NewlinesAt(file, x, maxBytes)
  }

  /** Where a slice ends. */
  function End(file: string, offset: nat, maxBytes: nat): nat {
    if offset + maxBytes < |file| then offset + maxBytes else |file|
  }

  /** The position after the last character of file[from..to] that is no newline. */
  function LastKept(file: string, from: nat, to: nat): (r: nat)
    requires from <= to <= |file|
    ensures from <= r <= to && (r > from ==> file[r - 1] != '\n')
    ensures forall i :: r <= i < to ==> file[i] == '\n'
  {
    if to > from && file[to - 1] == '\n' then LastKept(file, from, to - 1) else to
  }

  lemma ContentEnds(file: string, offset: nat, maxBytes: nat)
    requires offset <= |file|
    ensures offset + |TrimEnd(Slice(file, offset, maxBytes), IsNewline)| ==
            LastKept(file, offset, End(file, offset, maxBytes))
  {
    var slice, to := Slice(file, offset, maxBytes), End(file, offset, maxBytes);
    var n := LastKept(file, offset, to) - offset;
    assert slice == file[offset..to];
    assert forall i :: n <= i < |slice| ==> slice[i] == file[offset + i];
    assert n > 0 ==> slice[n - 1] == file[offset + n - 1];
    TrimEndUnique(slice, n, IsNewline);
  }

  lemma PollEnds(file: string, offset: nat, maxBytes: nat)
    requires offset <= |file|
    ensures Polled(Poll(file, file, maxBytes), offset).nextOffset == LastKept(file, offset, End(file, offset, maxBytes))
  {
    TrailerParses(Slice(file, offset, maxBytes), |file|, offset);
    ContentEnds(file, offset, maxBytes);
  }

  /** The offsets of one poll after another over the file as it is, each the next_offset of the one before. */
  ghost predicate Polling(file: string, maxBytes: nat, offsets: seq<nat>) {
    && offsets != []
    && forall i :: 0 <= i < |offsets| - 1 ==>
         offsets[i + 1] == Polled(Poll(file, file, maxBytes), offsets[i]).nextOffset
  }

  /** The same in the simple form. */
  ghost predicate Walk(file: string, maxBytes: nat, offsets: seq<nat>) {
    && offsets != [] && (forall i :: 0 <= i < |offsets| ==> offsets[i] <= |file|)
    && forall i :: 0 <= i < |offsets| - 1 ==>
         offsets[i + 1] == LastKept(file, offsets[i], End(file, offsets[i], maxBytes))
  }

  lemma {:induction false} PollingStaysInside(file: string, maxBytes: nat, offsets: seq<nat>, i: nat)
    requires Polling(file, maxBytes, offsets) && offsets[0] <= |file| && i < |offsets|
    ensures offsets[i] <= |file|
  {
    if i > 0 {
      PollingStaysInside(file, maxBytes, offsets, i - 1);
      PollEnds(file, offsets[i - 1], maxBytes);
      assert offsets[i - 1 + 1] == Polled(Poll(file, file, maxBytes), offsets[i - 1]).nextOffset;
    }
  }

  lemma PollingIsWalk(file: string, maxBytes: nat, offsets: seq<nat>)
    requires offsets != [] && offsets[0] <= |file|
    ensures Polling(file, maxBytes, offsets) <==> Walk(file, maxBytes, offsets)
  {
    if Polling(file, maxBytes, offsets) {
      forall i | 0 <= i < |offsets| ensures offsets[i] <= |file| {
        PollingStaysInside(file, maxBytes, offsets, i);
      }
      forall i | 0 <= i < |offsets| - 1
        ensures offsets[i + 1] == LastKept(file, offsets[i], End(file, offsets[i], maxBytes))
      {
        PollEnds(file, offsets[i], maxBytes);
      }
    }
    if Walk(file, maxBytes, offsets) {
      forall i | 0 <= i < |offsets| - 1
        ensures offsets[i + 1] == Polled(Poll(file, file, maxBytes), offsets[i]).nextOffset
      {
        PollEnds(file, offsets[i], maxBytes);
      }
    }
  }

  /** Inside a file that has no gap and does not end in a newline every poll moves on, so the end is reached. */
  lemma {:induction false} WalkReaches(file: string, maxBytes: nat, offset: nat) returns (offsets: seq<nat>)
    requires offset < |file| && file[|file| - 1] != '\n' && !HasGap(file, offset, maxBytes)
    ensures Walk(file, maxBytes, offsets) && offsets[0] == offset && offsets[|offsets| - 1] == |file|
    decreases |file| - offset
  {
    var next := LastKept(file, offset, End(file, offset, maxBytes));
    assert next == offset ==> NewlinesAt(file, offset, maxBytes);
    if next == |file| {
      offsets := [offset, next];
    } else {
      var rest := WalkReaches(file, maxBytes, next);
      offsets := [offset] + rest;
      assert forall i :: 1 <= i < |offsets| ==> offsets[i] == rest[i - 1];
    }
  }

  /** A poll that starts before max_bytes newlines in a row does not get past them. */
  lemma {:induction false} WalkStopsAtGap(file: string, maxBytes: nat, offsets: seq<nat>, i: nat, x: nat)
    requires Walk(file, maxBytes, offsets) && i < |offsets|
    requires offsets[0] <= x <= |file| && NewlinesAt(file, x, maxBytes)
    ensures offsets[i] <= x && (maxBytes == 0 ==> offsets[i] == offsets[0])
  {
    if i > 0 {
      WalkStopsAtGap(file, maxBytes, offsets, i - 1, x);
      assert offsets[i - 1 + 1] == LastKept(file, offsets[i - 1], End(file, offsets[i - 1], maxBytes));
    }
  }

  /** A poll never ends behind a newline. */
  lemma {:induction false} WalkStopsBeforeEnd(file: string, maxBytes: nat, offsets: seq<nat>, i: nat)
    requires Walk(file, maxBytes, offsets) && i < |offsets|
    requires offsets[0] < |file| && file[|file| - 1] == '\n'
    ensures offsets[i] < |file|
  {
    if i > 0 {
      WalkStopsBeforeEnd(file, maxBytes, offsets, i - 1);
      assert offsets[i - 1 + 1] == LastKept(file, offsets[i - 1], End(file, offsets[i - 1], maxBytes));
    }
  }

  /** Some number of polls from the offset on reaches the end of the file. */
  ghost predicate ReachesEnd(file: string, maxBytes: nat, offset: nat) {
    exists offsets :: Polling(file, maxBytes, offsets) && offsets[0] == offset && offsets[|offsets| - 1] == |file|
  }

  /**
   * Polling a file that has stopped growing reaches its end exactly when the file does not end in a
   * newline and holds no max_bytes newlines in a row from the offset on.
   */
  lemma PollingReachesEndIff(file: string, offset: nat, maxBytes: nat)
    requires offset < |file|
    ensures ReachesEnd(file, maxBytes, offset) <==> file[|file| - 1] != '\n' && !HasGap(file, offset, maxBytes)
  {
    if file[|file| - 1] != '\n' && !HasGap(file, offset, maxBytes) {
      var offsets := WalkReaches(file, maxBytes, offset);
      PollingIsWalk(file, maxBytes, offsets);
    }
    if offsets :| Polling(file, maxBytes, offsets) && offsets[0] == offset && offsets[|offsets| - 1] == |file| {
      PollingIsWalk(file, maxBytes, offsets);
      WalkEndsClear(file, maxBytes, offsets);
    }
  }

  lemma WalkEndsClear(file: string, maxBytes: nat, offsets: seq<nat>)
    requires Walk(file, maxBytes, offsets) && offsets[0] < |file| == offsets[|offsets| - 1]
    ensures file[|file| - 1] != '\n' && !HasGap(file, offsets[0], maxBytes)
  {
    var n := |offsets| - 1;
    if file[|file| - 1] == '\n' {
      WalkStopsBeforeEnd(file, maxBytes, offsets, n);
    }
    if x: nat :| offsets[0] <= x <= |file| && NewlinesAt(file, x, maxBytes) {
      WalkStopsAtGap(file, maxBytes, offsets, n, x);
    }
  }
}
