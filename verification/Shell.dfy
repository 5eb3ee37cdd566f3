/** The marker search of a persistent shell, over an alphabet of one-byte characters. */
module Shell {
  import opened Text

  /** Found carries what the buffer holds and after how many chunks the search stopped. */
  datatype Search = Found(count: nat, buf: string, truncated: bool) | Exited | TimedOut

  /** A buffer longer than four times max_bytes is cut down to its end, twice max_bytes long. */
  function Trimmed(buf: string, maxBytes: nat): string {
    if |buf| > 4 * maxBytes then buf[|buf| - 2 * maxBytes..] else buf
  }

  /**
   * The loop as it runs on its trimmed buffer. An empty chunk is the end of the shell, and running
   * out of chunks is the deadline.
   */
  function Searched(chunks: seq<string>, i: nat, needle: string, maxBytes: nat, buf: string, truncated: bool): Search
    requires i <= |chunks|
    decreases |chunks| - i
  {
    if i == |chunks| then TimedOut
    else if chunks[i] == "" then Exited
    else
      var longer := buf + chunks[i];
      if Occurs(longer, needle) then Found(i + 1, longer, truncated)
      else Searched(chunks, i + 1, needle, maxBytes, Trimmed(longer, maxBytes),
                    truncated || |longer| > 4 * maxBytes)
  }

  datatype Stop = StopAfter(count: nat, stream: string) | StopExited | StopTimedOut

  /** The loop as it is meant: looking for the marker in everything that has arrived. */
  function Meant(chunks: seq<string>, i: nat, needle: string, stream: string): Stop
    requires i <= |chunks|
    decreases |chunks| - i
  {
    if i == |chunks| then StopTimedOut
    else if chunks[i] == "" then StopExited
    else
      var longer := stream + chunks[i];
      if Occurs(longer, needle) then StopAfter(i + 1, longer)
      else Meant(chunks, i + 1, needle, longer)
  }

  predicate Suffix(part: string, whole: string) {
    |part| <= |whole| && whole[|whole| - |part|..] == part
  }

  /** What the search makes of a stream is what it is meant to make of it. */
  predicate Agrees(search: Search, stop: Stop) {
    match search
    case Found(count, buf, truncated) =>
      && stop.StopAfter? && stop.count == count
      && Suffix(buf, stop.stream) && (!truncated ==> buf == stop.stream)
    case Exited => stop == StopExited
    case TimedOut => stop == StopTimedOut
  }

  /** A trimmed buffer has all it needs of the stream: everything, or as much as a marker less one. */
  predicate Enough(buf: string, stream: string, needle: string) {
    Suffix(buf, stream) && (buf == stream || |buf| + 1 >= |needle|)
  }

  lemma OccurrenceInSuffix(part: string, whole: string, needle: string, i: nat)
    requires Suffix(part, whole) && OccursAt(part, needle, i)
    ensures OccursAt(whole, needle, |whole| - |part| + i)
  {}

  lemma JoinAt(a: string, b: string, n: nat)
    requires n < |a + b|
    ensures (a + b)[n] == if n < |a| then a[n] else b[n - |a|]
  {}

  /** Where the end of a longer text stands in the whole of it. */
  lemma KeptAt(buf: string, stream: string, chunk: string, k: nat)
    requires Suffix(buf, stream) && k < |buf + chunk|
    ensures (buf + chunk)[k] == (stream + chunk)[|stream| - |buf| + k]
  {
    JoinAt(buf, chunk, k);
    JoinAt(stream, chunk, |stream| - |buf| + k);
  }

  /** An occurrence that was not there before ends in the chunk. */
  lemma NewOccurrence(stream: string, chunk: string, needle: string, i: nat)
    requires !OccursAt(stream, needle, i) && OccursAt(stream + chunk, needle, i)
    ensures i + |needle| > |stream|
  {
    assert forall k :: 0 <= k < |stream| ==> (stream + chunk)[k] == stream[k];
  }

  lemma OccurrenceKept(buf: string, stream: string, chunk: string, needle: string, i: nat)
    requires Enough(buf, stream, needle) && !OccursAt(stream, needle, i) && OccursAt(stream + chunk, needle, i)
    ensures |stream| - |buf| <= i && OccursAt(buf + chunk, needle, i - (|stream| - |buf|))
  {
    var shift := |stream| - |buf|;
    NewOccurrence(stream, chunk, needle, i);
    assert shift <= i;
    forall k | 0 <= k < |needle| ensures (buf + chunk)[i - shift + k] == needle[k] {
      KeptAt(buf, stream, chunk, i - shift + k);
      assert (stream + chunk)[i + k] == needle[k];
    }
  }

  /** An occurrence that was not there before the chunk lies in the kept buffer and the chunk. */
  lemma OccursWhereKept(buf: string, stream: string, chunk: string, needle: string)
    requires Enough(buf, stream, needle) && !Occurs(stream, needle)
    ensures Occurs(buf + chunk, needle) <==> Occurs(stream + chunk, needle)
    ensures Suffix(buf + chunk, stream + chunk)
  {
    var part, whole := buf + chunk, stream + chunk;
    if i: nat :| i <= |whole| && OccursAt(whole, needle, i) {
      assert i <= |stream| ==> !OccursAt(stream, needle, i);
      OccurrenceKept(buf, stream, chunk, needle, i);
    }
    if j: nat :| j <= |part| && OccursAt(part, needle, j) {
      OccurrenceInSuffix(part, whole, needle, j);
    }
  }

  lemma TrimmedKeepsEnough(buf: string, stream: string, needle: string, maxBytes: nat)
    requires Enough(buf, stream, needle) && 2 * maxBytes + 1 >= |needle|
    ensures Enough(Trimmed(buf, maxBytes), stream, needle)
  {}

  lemma ChunkKeepsEnough(buf: string, stream: string, chunk: string, needle: string)
    requires Enough(buf, stream, needle) && Suffix(buf + chunk, stream + chunk)
    ensures Enough(buf + chunk, stream + chunk, needle)
  {}

  /** The search stops on exactly the first chunk that completes the marker, although it trims. */
  lemma {:induction false} SearchIsMeant(chunks: seq<string>, i: nat, needle: string, maxBytes: nat, buf: string,
                                         stream: string, truncated: bool)
    requires i <= |chunks| && 2 * maxBytes + 1 >= |needle|
    requires Enough(buf, stream, needle) && !Occurs(stream, needle) && (!truncated ==> buf == stream)
    ensures Agrees(Searched(chunks, i, needle, maxBytes, buf, truncated), Meant(chunks, i, needle, stream))
    decreases |chunks| - i
  {
    if i < |chunks| && chunks[i] != "" {
      var longer, arrived := buf + chunks[i], stream + chunks[i];
      OccursWhereKept(buf, stream, chunks[i], needle);
      if !Occurs(arrived, needle) {
        ChunkKeepsEnough(buf, stream, chunks[i], needle);
        TrimmedKeepsEnough(longer, arrived, needle, maxBytes);
        SearchIsMeant(chunks, i + 1, needle, maxBytes, Trimmed(longer, maxBytes), arrived,
                      truncated || |longer| > 4 * maxBytes);
      }
    }
  }

  /** filler, repeated */
  function Repeat(filler: char, n: nat): (s: string)
    ensures |s| == n && forall i :: 0 <= i < n ==> s[i] == filler
  {
    seq(n, i => filler)
  }

  /** A stream whose marker a shorter buffer misses: the marker's last character comes alone. */
  function Split(needle: string, filler: char, maxBytes: nat): seq<string>
    requires needle != []
  {
    [Repeat(filler, 4 * maxBytes + 1) + needle[..|needle| - 1], [needle[|needle| - 1]]]
  }

  lemma NotYet(needle: string, filler: char, n: nat)
    requires needle != [] && filler !in needle
    ensures !Occurs(Repeat(filler, n) + needle[..|needle| - 1], needle)
  {
    var s := Repeat(filler, n) + needle[..|needle| - 1];
    forall i: nat | i <= |s| ensures !OccursAt(s, needle, i) {
      if i < n {
        assert s[i + 0] == filler != needle[0];
      }
    }
  }

  lemma NowComplete(needle: string, filler: char, n: nat)
    requires needle != []
    ensures Occurs(Repeat(filler, n) + needle[..|needle| - 1] + [needle[|needle| - 1]], needle)
  {
    var s := Repeat(filler, n) + needle[..|needle| - 1] + [needle[|needle| - 1]];
    assert forall k :: 0 <= k < |needle| ==> s[n + k] == needle[k];
    assert OccursAt(s, needle, n);
  }

  lemma TooShort(s: string, needle: string)
    requires |s| < |needle|
    ensures !Occurs(s, needle)
  {}

  lemma ShortBufferMisses(needle: string, filler: char, maxBytes: nat)
    requires filler !in needle && 2 * maxBytes + 1 < |needle|
    ensures var chunks := Split(needle, filler, maxBytes);
            && Searched(chunks, 0, needle, maxBytes, "", false) == TimedOut
            && Meant(chunks, 0, needle, "").StopAfter?
  {
    var chunks, n := Split(needle, filler, maxBytes), 4 * maxBytes + 1;
    var first, last := chunks[0], chunks[1];
    NotYet(needle, filler, n);
    NowComplete(needle, filler, n);
    assert "" + first == first;
    var kept := Trimmed(first, maxBytes);
    TooShort(kept + last, needle);
    assert Searched(chunks, 1, needle, maxBytes, kept, true) == TimedOut;
    assert Meant(chunks, 1, needle, first) == StopAfter(2, first + last);
  }

  /** The search is right on every stream exactly when twice max_bytes holds a marker less one. */
  lemma SearchRightIff(needle: string, filler: char, maxBytes: nat)
    requires needle != [] && filler !in needle
    ensures 2 * maxBytes + 1 >= |needle| <==>
            forall chunks :: Agrees(Searched(chunks, 0, needle, maxBytes, "", false), Meant(chunks, 0, needle, ""))
  {
    if 2 * maxBytes + 1 >= |needle| {
      forall chunks
        ensures Agrees(Searched(chunks, 0, needle, maxBytes, "", false), Meant(chunks, 0, needle, ""))
      {
        SearchIsMeant(chunks, 0, needle, maxBytes, "", "", false);
      }
    } else {
      ShortBufferMisses(needle, filler, maxBytes);
    }
  }

  // ---------- reading the result ----------

  datatype Output = Output(exitCode: int, output: string, cwd: string, truncated: bool)

  /** The end of the text; a limit of 0 leaves all of it. */
  function LastPart(s: string, n: nat): string {
    if n == 0 || |s| <= n then s else s[|s| - n..]
  }

  /** rc and cwd from what follows the marker. */
  function Status(tail: string): (int, string) { StatusOf(Strip(tail)) }

  function StatusOf(text: string): (int, string) {
    var n := IndexOf(text, ':');
    var rc := ParseNat(text[..n]);
    (if rc.Some? then rc.value else -1, if n < |text| then Strip(text[n + 1..]) else "")
  }

  function Read(buf: string, truncated: bool, needle: string, maxBytes: nat): Output {
    var (head, tail) := RPartition(buf, needle);
    var all := TrimEnd(head, IsNewline);
    var (rc, cwd) := Status(tail);
    Output(rc, if |all| > maxBytes then LastPart(all, maxBytes) else all, cwd, truncated || |all| > maxBytes)
  }

  /** The last occurrence in the end of a stream is the one the stream has. */
  lemma OnlyOccurrence(stream: string, p: nat, buf: string, needle: string)
    requires OccursAt(stream, needle, p) && (forall i: nat :: i != p ==> !OccursAt(stream, needle, i))
    requires Suffix(buf, stream) && Occurs(buf, needle)
    ensures var i := p - (|stream| - |buf|);
            && i >= 0 && OccursAt(buf, needle, i)
            && RPartition(buf, needle) == (buf[..i], buf[i + |needle|..])
  {
    var i: nat :| i <= |buf| && OccursAt(buf, needle, i);
    var shift := |stream| - |buf|;
    OccurrenceInSuffix(buf, stream, needle, i);
    forall j: nat | j > i ensures !OccursAt(buf, needle, j) {
      if OccursAt(buf, needle, j) {
        OccurrenceInSuffix(buf, stream, needle, j);
      }
    }
    RPartitionAt(buf, needle, i);
  }

  lemma HeadIsSuffix(stream: string, p: nat, buf: string, i: nat)
    requires Suffix(buf, stream) && i <= |buf| && p <= |stream| && p == i + (|stream| - |buf|)
    ensures Suffix(buf[..i], stream[..p])
  {}

  /** What is left of the end of a text without its trailing newlines. */
  lemma TrimEndOfSuffix(part: string, whole: string, p: char -> bool)
    requires Suffix(part, whole)
    ensures var cut, shift := TrimEnd(whole, p), |whole| - |part|;
            TrimEnd(part, p) == if |cut| > shift then cut[shift..] else ""
  {
    var cut, shift := TrimEnd(whole, p), |whole| - |part|;
    var n := if |cut| > shift then |cut| - shift else 0;
    assert forall i :: 0 <= i < |part| ==> part[i] == whole[shift + i];
    TrimEndUnique(part, n, p);
    assert part[..n] == if |cut| > shift then cut[shift..] else "";
  }

  /** The end of the text, at most max_bytes long; a limit of 0 leaves all of it. */
  predicate IsEnd(output: string, text: string, maxBytes: nat) {
    if maxBytes == 0 || |text| <= maxBytes then output == text
    else |output| == maxBytes && output == text[|text| - maxBytes..]
  }

  /**
   * With a marker that stands in the stream once, at p, and a buffer that starts q characters into the
   * stream, the output is the end of what the buffer has of the text before the marker, without trailing
   * newlines; truncated says that something was cut off, by the trimming or by the limit.
   */
  lemma OutputIsEndOfStream(stream: string, p: nat, buf: string, truncated: bool, needle: string, maxBytes: nat)
    requires OccursAt(stream, needle, p) && (forall i: nat :: i != p ==> !OccursAt(stream, needle, i))
    requires Suffix(buf, stream) && Occurs(buf, needle)
    ensures var r, q := Read(buf, truncated, needle, maxBytes), |stream| - |buf|;
            var before := TrimEnd(stream[..p], IsNewline);
            var kept := if |before| > q then before[q..] else "";
            IsEnd(r.output, kept, maxBytes) && (r.truncated <==> truncated || |kept| > maxBytes)
  {
    HeadTrimmed(stream, p, buf, needle);
    ReadIsEnd(buf, truncated, needle, maxBytes);
  }

  lemma HeadTrimmed(stream: string, p: nat, buf: string, needle: string)
    requires OccursAt(stream, needle, p) && (forall i: nat :: i != p ==> !OccursAt(stream, needle, i))
    requires Suffix(buf, stream) && Occurs(buf, needle)
    ensures var q, before := |stream| - |buf|, TrimEnd(stream[..p], IsNewline);
            TrimEnd(RPartition(buf, needle).0, IsNewline) == if |before| > q then before[q..] else ""
  {
    var i := p - (|stream| - |buf|);
    assert i >= 0 && RPartition(buf, needle).0 == buf[..i] by {
      OnlyOccurrence(stream, p, buf, needle);
    }
    HeadIsSuffix(stream, p, buf, i);
    TrimEndOfSuffix(buf[..i], stream[..p], IsNewline);
  }

  lemma ReadIsEnd(buf: string, truncated: bool, needle: string, maxBytes: nat)
    ensures var r, all := Read(buf, truncated, needle, maxBytes), TrimEnd(RPartition(buf, needle).0, IsNewline);
            IsEnd(r.output, all, maxBytes) && (r.truncated <==> truncated || |all| > maxBytes)
  {}

  lemma StripStatus(rc: nat, cwd: string)
    ensures Strip(Decimal(rc) + ":" + cwd + "\n") == Decimal(rc) + ":" + TrimEnd(cwd, IsSpace)
  {
    var path := TrimEnd(cwd, IsSpace);
    var blanks := cwd[|path|..];
    var core := Decimal(rc) + ":" + path;
    assert AllIn(blanks + "\n", IsSpace);
    StatusText(Decimal(rc), path, blanks);
    assert cwd == path + blanks;
    assert IsDigit(Decimal(rc)[0]) && core[0] == Decimal(rc)[0];
    assert core[|core| - 1] == if path == [] then ':' else path[|path| - 1];
    TrimWrapped([], core, blanks + "\n", IsSpace);
  }

  lemma StatusText(code: string, path: string, blanks: string)
    ensures code + ":" + (path + blanks) + "\n" == [] + ((code + ":" + path) + (blanks + "\n"))
  {}

  lemma StripOfCut(s: string, k: nat, m: nat)
    requires k < m <= |s| && !IsSpace(s[k]) && !IsSpace(s[m - 1])
    requires forall i :: 0 <= i < k || m <= i < |s| ==> IsSpace(s[i])
    ensures Strip(s) == Strip(s[..m]) == s[k..m]
  {
    TrimAt(s, k, m, IsSpace);
    TrimAt(s[..m], k, m, IsSpace);
    assert s[..m][k..m] == s[k..m];
  }

  lemma StripOfTrimEnd(s: string)
    ensures Strip(TrimEnd(s, IsSpace)) == Strip(s)
  {
    var k, m := SkipFrom(s, IsSpace, 0), SkipBack(s, IsSpace, |s|);
    assert TrimEnd(s, IsSpace) == s[..m];
    if k < m {
      StripOfCut(s, k, m);
    } else {
      assert m == 0 && AllIn(s, IsSpace);
      TrimAll(s, IsSpace);
      TrimAll(s[..m], IsSpace);
    }
  }

  lemma StatusOfStripped(code: string, path: string)
    requires code != [] && forall i :: 0 <= i < |code| ==> IsDigit(code[i])
    ensures var text := code + ":" + path;
            IndexOf(text, ':') == |code| && text[..|code|] == code && text[|code| + 1..] == path
  {
    var text := code + ":" + path;
    assert forall i :: 0 <= i < |code| ==> text[i] == code[i];
    IndexOfUnique(text, |code|, ':');
  }

  /** When the rest of the marker line has arrived with it, exit code and directory are read back. */
  lemma StatusIsRead(rc: nat, cwd: string)
    ensures Status(Decimal(rc) + ":" + cwd + "\n") == (rc, Strip(cwd))
  {
    StripStatus(rc, cwd);
    StatusOfStripped(Decimal(rc), TrimEnd(cwd, IsSpace));
    ParseOfDecimal(rc);
    StripOfTrimEnd(cwd);
  }

  // ---------- from the chunks to the result ----------

  lemma {:induction false} FoundHoldsMarker(chunks: seq<string>, i: nat, needle: string, maxBytes: nat,
                                            buf: string, truncated: bool)
    requires i <= |chunks| && Searched(chunks, i, needle, maxBytes, buf, truncated).Found?
    ensures Occurs(Searched(chunks, i, needle, maxBytes, buf, truncated).buf, needle)
    decreases |chunks| - i
  {
    var longer := buf + chunks[i];
    if !Occurs(longer, needle) {
      FoundHoldsMarker(chunks, i + 1, needle, maxBytes, Trimmed(longer, maxBytes),
                       truncated || |longer| > 4 * maxBytes);
    }
  }

  /** The rest of the marker line is the same in the buffer and in the stream. */
  lemma TailIsKept(stream: string, p: nat, buf: string, needle: string)
    requires OccursAt(stream, needle, p) && (forall i: nat :: i != p ==> !OccursAt(stream, needle, i))
    requires Suffix(buf, stream) && Occurs(buf, needle)
    ensures RPartition(buf, needle).1 == stream[p + |needle|..]
  {
    OnlyOccurrence(stream, p, buf, needle);
    var i, shift := p - (|stream| - |buf|), |stream| - |buf|;
    assert buf[i + |needle|..] == stream[shift..][i + |needle|..] == stream[p + |needle|..];
  }

  /** How many characters chunks i to j - 1 hold. */
  function Length(chunks: seq<string>, i: nat, j: nat): nat
    requires i <= j <= |chunks|
    decreases j - i
  {
    if i == j then 0 else |chunks[i]| + Length(chunks, i + 1, j)
  }

  lemma {:induction false} LengthThen(chunks: seq<string>, i: nat, j: nat)
    requires i < j <= |chunks|
    ensures Length(chunks, i, j) == Length(chunks, i, j - 1) + |chunks[j - 1]|
    decreases j - i
  {
    if i + 1 < j {
      LengthThen(chunks, i + 1, j);
    }
  }

  lemma {:induction false} MeantLength(chunks: seq<string>, i: nat, needle: string, stream: string)
    requires i <= |chunks| && Meant(chunks, i, needle, stream).StopAfter?
    ensures var stop := Meant(chunks, i, needle, stream);
            i < stop.count <= |chunks| && |stop.stream| == |stream| + Length(chunks, i, stop.count)
    decreases |chunks| - i
  {
    var longer := stream + chunks[i];
    if Occurs(longer, needle) {
      LengthThen(chunks, i, i + 1);
    } else {
      MeantLength(chunks, i + 1, needle, longer);
    }
  }

  /**
   * The buffer was trimmed exactly when what came before the last chunk is longer than four times max_bytes;
   * it then holds that chunk and between twice and four times max_bytes before it.
   */
  lemma {:induction false} SearchTrims(chunks: seq<string>, i: nat, needle: string, maxBytes: nat, buf: string,
                                       truncated: bool, length: nat)
    requires i <= |chunks| && Searched(chunks, i, needle, maxBytes, buf, truncated).Found?
    requires (truncated <==> length > 4 * maxBytes) && (!truncated ==> |buf| == length)
    requires |buf| <= 4 * maxBytes && (truncated ==> |buf| >= 2 * maxBytes)
    ensures var r := Searched(chunks, i, needle, maxBytes, buf, truncated);
            && i < r.count <= |chunks|
            && (r.truncated <==> length + Length(chunks, i, r.count - 1) > 4 * maxBytes)
            && (r.truncated ==> 2 * maxBytes <= |r.buf| - |chunks[r.count - 1]| <= 4 * maxBytes)
    decreases |chunks| - i
  {
    var longer := buf + chunks[i];
    if !Occurs(longer, needle) {
      SearchTrims(chunks, i + 1, needle, maxBytes, Trimmed(longer, maxBytes),
                  truncated || |longer| > 4 * maxBytes, length + |chunks[i]|);
    }
  }

  /**
   * What run answers, for a stream in which the marker stands once, at p: the end of what came before the
   * marker, as far as the buffer reaches, and exit code and directory from what came after.
   */
  predicate EndOfStream(r: Output, stream: string, p: nat, needle: string, maxBytes: nat, q: nat, trimmed: bool)
    requires p + |needle| <= |stream|
  {
    var before := TrimEnd(stream[..p], IsNewline);
    var kept := if |before| > q then before[q..] else "";
    && IsEnd(r.output, kept, maxBytes) && (r.truncated <==> trimmed || |kept| > maxBytes)
    && (r.exitCode, r.cwd) == Status(stream[p + |needle|..])
  }

  /**
   * The search stopped where it is meant to. Nothing was trimmed exactly when the stream before the last chunk
   * fits four times max_bytes, and then the buffer is all of it; otherwise the buffer still has that chunk and
   * two to four times max_bytes before it.
   */
  predicate StoppedWell(search: Search, stop: Stop, chunks: seq<string>, maxBytes: nat) {
    && stop.StopAfter? && search.Found? && search.count == stop.count && 0 < stop.count <= |chunks|
    && |search.buf| <= |stop.stream|
    && var earlier, last := |stop.stream| - |chunks[stop.count - 1]|, |chunks[stop.count - 1]|;
    && (search.truncated <==> earlier > 4 * maxBytes)
    && (if search.truncated then 2 * maxBytes <= |search.buf| - last <= 4 * maxBytes
        else |search.buf| == |stop.stream|)
  }

  /** The search stops with the end of the stream in hand, and the marker in it. */
  lemma SearchHolds(chunks: seq<string>, needle: string, maxBytes: nat)
    requires needle != "" && 2 * maxBytes + 1 >= |needle| && Meant(chunks, 0, needle, "").StopAfter?
    ensures var search, stop := Searched(chunks, 0, needle, maxBytes, "", false), Meant(chunks, 0, needle, "");
            && search.Found? && search.count == stop.count && (!search.truncated ==> search.buf == stop.stream)
            && Suffix(search.buf, stop.stream) && Occurs(search.buf, needle)
  {
    TooShort("", needle);
    SearchIsMeant(chunks, 0, needle, maxBytes, "", "", false);
    FoundHoldsMarker(chunks, 0, needle, maxBytes, "", false);
  }

  /** When the stream holds the marker, run stops on the chunk that completes it, and this is what it kept. */
  lemma RunStopsAtMarker(chunks: seq<string>, needle: string, maxBytes: nat)
    requires needle != "" && 2 * maxBytes + 1 >= |needle| && Meant(chunks, 0, needle, "").StopAfter?
    ensures StoppedWell(Searched(chunks, 0, needle, maxBytes, "", false), Meant(chunks, 0, needle, ""), chunks, maxBytes)
  {
    var stop := Meant(chunks, 0, needle, "");
    SearchHolds(chunks, needle, maxBytes);
    SearchTrims(chunks, 0, needle, maxBytes, "", false, 0);
    MeantLength(chunks, 0, needle, "");
    LengthThen(chunks, 0, stop.count);
  }

  /** End to end: what run answers, when the marker stands once in what has arrived. */
  lemma RunAnswersEndOfStream(chunks: seq<string>, needle: string, maxBytes: nat, p: nat)
    requires needle != "" && 2 * maxBytes + 1 >= |needle|
    requires var stop := Meant(chunks, 0, needle, "");
             && stop.StopAfter? && OccursAt(stop.stream, needle, p)
             && forall i: nat :: i != p ==> !OccursAt(stop.stream, needle, i)
    ensures var search, stop := Searched(chunks, 0, needle, maxBytes, "", false), Meant(chunks, 0, needle, "");
            && search.Found? && |search.buf| <= |stop.stream|
            && EndOfStream(Read(search.buf, search.truncated, needle, maxBytes), stop.stream, p, needle, maxBytes,
                           |stop.stream| - |search.buf|, search.truncated)
  {
    var search, stop := Searched(chunks, 0, needle, maxBytes, "", false), Meant(chunks, 0, needle, "");
    SearchHolds(chunks, needle, maxBytes);
    AnswerIsEndOfStream(stop.stream, p, search.buf, search.truncated, needle, maxBytes, |stop.stream| - |search.buf|);
  }

  lemma AnswerIsEndOfStream(stream: string, p: nat, buf: string, truncated: bool, needle: string, maxBytes: nat, q: nat)
    requires OccursAt(stream, needle, p) && (forall i: nat :: i != p ==> !OccursAt(stream, needle, i))
    requires Suffix(buf, stream) && Occurs(buf, needle) && q == |stream| - |buf|
    ensures EndOfStream(Read(buf, truncated, needle, maxBytes), stream, p, needle, maxBytes, q, truncated)
  {
    OutputIsEndOfStream(stream, p, buf, truncated, needle, maxBytes);
    TailIsKept(stream, p, buf, needle);
  }

  /** When the status is not what the shell prints, the exit code is -1: what stands before the colon is no number. */
  lemma StatusIsMissing(text: string)
    ensures var n := IndexOf(text, ':');
            && (StatusOf(text).0 == -1 <==> n == 0 || !AllIn(text[..n], IsDigit))
            && (n == |text| ==> StatusOf(text).1 == "")
  {
    ParsesIffDigits(text[..IndexOf(text, ':')]);
  }

  // ---------- the session ----------

  datatype RunError = SessionClosed | ShellExited | CommandExpired

  datatype RunResult = Ran(value: Output) | Failed(error: RunError)

  class ShellSession {
    var closed: bool

    constructor ()
      ensures !closed
    {
      closed := false;
    }

    /** run, from the command being written to its result; chunks is what the reads return. */
    method Run(chunks: seq<string>, needle: string, maxBytes: nat) returns (r: RunResult)
      modifies this
      ensures old(closed) ==> r == Failed(SessionClosed) && closed
      ensures !old(closed) ==>
                match Searched(chunks, 0, needle, maxBytes, "", false)
                case Found(_, buf, truncated) => r == Ran(Read(buf, truncated, needle, maxBytes)) && !closed
                case Exited => r == Failed(ShellExited) && closed
                case TimedOut => r == Failed(CommandExpired) && closed
    {
      if closed {
        return Failed(SessionClosed);
      }
      var search := Await(chunks, needle, maxBytes);
      match search
      case Found(_, buf, truncated) => r := Ran(Read(buf, truncated, needle, maxBytes));
      case Exited => r := Failed(ShellExited);
      case TimedOut => r := Failed(CommandExpired);
    }

    /** The read loop; it closes the session when the shell ends or the deadline passes. */
    method Await(chunks: seq<string>, needle: string, maxBytes: nat) returns (search: Search)
      requires !closed
      modifies this
      ensures search == Searched(chunks, 0, needle, maxBytes, "", false)
      ensures closed == !search.Found?
    {
      var buf, truncated, i := "", false, 0;
      ghost var goal := Searched(chunks, 0, needle, maxBytes, "", false);
      while true
        invariant i <= |chunks| && !closed
        invariant Searched(chunks, i, needle, maxBytes, buf, truncated) == goal
        decreases |chunks| - i
      {
        if i == |chunks| {
          closed := true;
          return TimedOut;
        }
        var chunk := chunks[i];
        if chunk == "" {
          closed := true;
          return Exited;
        }
        SearchStep(chunks, i, needle, maxBytes, buf, truncated);
        buf := buf + chunk;
        i := i + 1;
        if Occurs(buf, needle) {
          return Found(i, buf, truncated);
        }
        if |buf| > maxBytes * 4 {
          truncated := true;
          buf := Trimmed(buf, maxBytes);
        }
      }
    }
  }

  lemma SearchStep(chunks: seq<string>, i: nat, needle: string, maxBytes: nat, buf: string, truncated: bool)
    requires i < |chunks| && chunks[i] != ""
    ensures var longer := buf + chunks[i];
            Searched(chunks, i, needle, maxBytes, buf, truncated) ==
            if Occurs(longer, needle) then Found(i + 1, longer, truncated)
            else if |longer| > 4 * maxBytes then
              Searched(chunks, i + 1, needle, maxBytes, Trimmed(longer, maxBytes), true)
            else Searched(chunks, i + 1, needle, maxBytes, longer, truncated)
  {}
}
