/** The ring buffer of a log subscription, its pump and its cursor reads. */
module LogBuffer {
  import opened Text
  import opened LogLines

  const MAX_LINE_CHARS: nat := 65536

  datatype Row = Row(number: nat, text: string)

  // ---------- the simple form: rows of the whole history ----------

  /** Every line ever appended, numbered from 1. */
  function Numbered(history: seq<string>): (r: seq<Row>)
    ensures |r| == |history|
    ensures forall i :: 0 <= i < |r| ==> r[i] == Row(i + 1, history[i])
  {
    seq(|history|, i requires 0 <= i < |history| => Row(i + 1, history[i]))
  }

  /** How many rows have left a buffer of this capacity. */
  function Evicted(history: seq<string>, capacity: nat): (n: nat)
    ensures n <= |history|
  {
    if |history| <= capacity then 0 else |history| - capacity
  }

  function Window(history: seq<string>, capacity: nat): seq<Row> {
    Numbered(history)[Evicted(history, capacity)..]
  }

  /** The rows whose number is past the cursor. */
  function After(rows: seq<Row>, since: nat): seq<Row> {
    if rows == [] then []
    else (if rows[0].number > since then [rows[0]] else []) + After(rows[1..], since)
  }

  /** At most the first limit rows. */
  function Limited(rows: seq<Row>, limit: nat): seq<Row> {
    if limit < |rows| then rows[..limit] else rows
  }

  /** The number of the last row, or the old cursor when there is none. */
  function NextCursor(rows: seq<Row>, since: nat): nat {
    if rows == [] then since else rows[|rows| - 1].number
  }

  /** A read returns a stretch of the history: from the cursor or the oldest row, at most limit rows. */
  function Stretch(history: seq<string>, capacity: nat, since: nat, limit: nat): seq<Row> {
    var oldest := Evicted(history, capacity);
    var from := if since < oldest then oldest else if since < |history| then since else |history|;
    var to := if from + limit < |history| then from + limit else |history|;
    Numbered(history)[from..to]
  }

  lemma Tail(rows: seq<Row>, from: nat)
    requires from < |rows|
    ensures rows[from..][0] == rows[from] && rows[from..][1..] == rows[from + 1..]
    ensures [rows[from]] + rows[from + 1..] == rows[from..]
  {}

  /** A cursor cuts rows where their numbers pass it. */
  lemma {:induction false} AfterTail(rows: seq<Row>, from: nat, cut: nat, since: nat)
    requires from <= cut <= |rows|
    requires forall i :: from <= i < |rows| ==> (rows[i].number > since <==> i >= cut)
    ensures After(rows[from..], since) == rows[cut..]
    decreases |rows| - from
  {
    if from < |rows| {
      Tail(rows, from);
      AfterTail(rows, from + 1, if from < cut then cut else from + 1, since);
    }
  }

  lemma LimitedTail(rows: seq<Row>, from: nat, limit: nat)
    requires from <= |rows|
    ensures Limited(rows[from..], limit) == rows[from..if from + limit < |rows| then from + limit else |rows|]
  {}

  lemma ReadIsStretch(history: seq<string>, capacity: nat, since: nat, limit: nat)
    ensures Limited(After(Window(history, capacity), since), limit) == Stretch(history, capacity, since, limit)
  {
    var oldest := Evicted(history, capacity);
    var from := if since < oldest then oldest else if since < |history| then since else |history|;
    AfterTail(Numbered(history), oldest, from, since);
    LimitedTail(Numbered(history), from, limit);
  }

  // ---------- the subscription ----------

  class LogSub {
    const capacity: nat
    const splitter: LineSplitter
    var buf: seq<Row>
    var number: nat
    var dropped: nat
    var closed: bool
    ghost var history: seq<string>
    ghost var fault: Option<string>

    ghost predicate Valid()
      reads this, splitter
    {
      && splitter.Valid() && splitter.maxLine == MAX_LINE_CHARS
      && Counted()
      && (!closed ==> fault.None? && history == Settled(splitter.consumed, MAX_LINE_CHARS))
    }

    /** The buffer is the end of the history; only a row appended by a fault goes uncounted. */
    ghost predicate Counted()
      reads this
    {
      && number == |history|
      && buf == Window(history, capacity)
      && dropped == number - |buf| - (if fault.Some? && number > capacity then 1 else 0)
    }

    constructor (capacity: nat)
      ensures Valid() && fresh(splitter) && !closed && splitter.consumed == "" && this.capacity == capacity
    {
      this.capacity := capacity;
      splitter := new LineSplitter(MAX_LINE_CHARS);
      buf, number, dropped, closed := [], 0, 0, false;
      history, fault := [], None;
    }

    /** deque.append with a maximal length. */
    method Push(text: string)
      requires number == |history| && buf == Window(history, capacity)
      modifies this`buf, this`number, this`history
      ensures history == old(history) + [text]
      ensures number == |history| && buf == Window(history, capacity)
    {
      WindowOfPush(history, text, capacity);
      number := number + 1;
      buf := buf + [Row(number, text)];
      if |buf| > capacity {
        buf := buf[1..];
      }
      history := history + [text];
    }

    /** The body of the pump's loop. */
    method Append(line: string)
      requires Counted() && fault.None?
      modifies this`buf, this`number, this`history, this`dropped
      ensures Counted() && history == old(history) + [line]
    {
      if |buf| == capacity {
        dropped := dropped + 1;
      }
      Push(line);
    }

    method AppendAll(lines: seq<string>)
      requires Counted() && fault.None?
      modifies this`buf, this`number, this`history, this`dropped
      ensures Counted() && history == old(history) + lines
    {
      for i := 0 to |lines|
        invariant Counted() && fault.None? && history == old(history) + lines[..i]
      {
        Append(lines[i]);
        assert lines[..i] + [lines[i]] == lines[..i + 1];
      }
      assert lines[..|lines|] == lines;
    }

    /** The pump between two reads of the stream. */
    method OnChunk(chunk: string)
      requires Valid() && !closed && |chunk| <= READ_SIZE
      modifies this, splitter
      ensures Valid() && !closed && splitter.consumed == old(splitter.consumed) + chunk
    {
      var lines := splitter.Feed(chunk);
      AppendAll(lines);
    }

    method OnEof()
      requires Valid() && !closed
      modifies this
      ensures Valid() && closed && fault.None?
      ensures history == CappedLines(splitter.consumed, MAX_LINE_CHARS)
    {
      var lines := splitter.Finish();
      AppendAll(lines);
      closed := true;
    }

    /** The pump's exception branch: a row is appended without counting what it evicts. */
    method OnFault(message: string)
      requires Valid() && !closed
      modifies this
      ensures Valid() && closed && fault == Some(message)
      ensures history == old(history) + ["[vpsmcp] collection stopped: " + message]
    {
      Push("[vpsmcp] collection stopped: " + message);
      closed := true;
      fault := Some(message);
    }

    method Read(since: nat, limit: nat) returns (rows: seq<Row>, next: nat)
      requires Valid()
      ensures rows == Stretch(history, capacity, since, limit)
      ensures next == NextCursor(rows, since)
    {
      ReadIsStretch(history, capacity, since, limit);
      rows := Limited(After(buf, since), limit);
      next := NextCursor(rows, since);
    }
  }

  lemma WindowOfPush(history: seq<string>, text: string, capacity: nat)
    ensures var longer := Window(history, capacity) + [Row(|history| + 1, text)];
            Window(history + [text], capacity) == if |longer| > capacity then longer[1..] else longer
  {}

  // ---------- the pipeline, with one reader feeding its cursor back ----------

  datatype Phase = Open | Ended | Failed(message: string)

  datatype Event = Chunk(text: string) | Eof | Fault(message: string) | Read(limit: nat)

  /** caughtUp says that no read so far found its cursor behind the oldest buffered row. */
  datatype Pipeline = Pipeline(consumed: string, phase: Phase, cursor: nat, got: seq<Row>, caughtUp: bool)

  const START := Pipeline("", Open, 0, [], true)

  /** What the subscription has appended. */
  function History(p: Pipeline): seq<string> {
    match p.phase
    case Open => Settled(p.consumed, MAX_LINE_CHARS)
    case Ended => CappedLines(p.consumed, MAX_LINE_CHARS)
    case Failed(message) => Settled(p.consumed, MAX_LINE_CHARS) + ["[vpsmcp] collection stopped: " + message]
  }

  function Step(p: Pipeline, capacity: nat, e: Event): Pipeline {
    match e
    case Chunk(text) => if p.phase.Open? then p.(consumed := p.consumed + text) else p
    case Eof => if p.phase.Open? then p.(phase := Ended) else p
    case Fault(message) => if p.phase.Open? then p.(phase := Failed(message)) else p
    case Read(limit) =>
      var rows := Stretch(History(p), capacity, p.cursor, limit);
      p.(cursor := NextCursor(rows, p.cursor), got := p.got + rows,
         caughtUp := p.caughtUp && Evicted(History(p), capacity) <= p.cursor)
  }

  function Run(p: Pipeline, capacity: nat, events: seq<Event>): Pipeline
    decreases |events|
  {
    if events == [] then p else Run(Step(p, capacity, events[0]), capacity, events[1..])
  }

  ghost predicate Increasing(rows: seq<Row>) {
    forall i, j :: 0 <= i < j < |rows| ==> rows[i].number < rows[j].number
  }

  ghost predicate Delivered(rows: seq<Row>, number: nat) {
    exists i :: 0 <= i < |rows| && rows[i].number == number
  }

  /** Every row is a line of the history under its own number, up to the cursor. */
  ghost predicate Faithful(rows: seq<Row>, history: seq<string>, cursor: nat) {
    forall i :: 0 <= i < |rows| ==>
      1 <= rows[i].number <= cursor <= |history| && rows[i].text == history[rows[i].number - 1]
  }

  /** Every number up to the cursor was delivered, or its row has left the buffer. */
  ghost predicate OnlyEvictedMissing(rows: seq<Row>, history: seq<string>, capacity: nat, cursor: nat) {
    forall n: nat :: 1 <= n <= cursor ==> Delivered(rows, n) || n <= Evicted(history, capacity)
  }

  /** What a reader with this cursor has in hand, against the history so far. */
  ghost predicate SoundFor(history: seq<string>, capacity: nat, cursor: nat, got: seq<Row>, caughtUp: bool) {
    && cursor <= |history|
    && Increasing(got)
    && Faithful(got, history, cursor)
    && OnlyEvictedMissing(got, history, capacity, cursor)
    && (caughtUp ==> got == Numbered(history)[..cursor])
  }

  ghost predicate Sound(p: Pipeline, capacity: nat) {
    SoundFor(History(p), capacity, p.cursor, p.got, p.caughtUp)
  }

  lemma GrowthKeepsSound(p: Pipeline, q: Pipeline, capacity: nat)
    requires Sound(p, capacity) && History(p) <= History(q)
    requires q.cursor == p.cursor && q.got == p.got && q.caughtUp == p.caughtUp
    ensures Sound(q, capacity)
  {}

  /** Where a read starts. */
  function From(history: seq<string>, capacity: nat, since: nat): (n: nat)
    requires since <= |history|
    ensures since <= n <= |history|
  {
    if since < Evicted(history, capacity) then Evicted(history, capacity) else since
  }

  lemma StretchShape(history: seq<string>, capacity: nat, since: nat, limit: nat)
    requires since <= |history|
    ensures var rows, from := Stretch(history, capacity, since, limit), From(history, capacity, since);
            && Continues(rows, history, from)
            && NextCursor(rows, since) == (if |rows| == 0 then since else from + |rows|)
  {}

  /** rows continue the history from a position. */
  ghost predicate Continues(rows: seq<Row>, history: seq<string>, from: nat) {
    && from + |rows| <= |history|
    && forall k :: 0 <= k < |rows| ==> rows[k] == Row(from + k + 1, history[from + k])
  }

  lemma AppendKeepsFaithful(got: seq<Row>, rows: seq<Row>, history: seq<string>, cursor: nat, from: nat, next: nat)
    requires Increasing(got) && Faithful(got, history, cursor) && Continues(rows, history, from)
    requires cursor <= from && next == if |rows| == 0 then cursor else from + |rows|
    requires next <= |history|
    ensures Increasing(got + rows) && Faithful(got + rows, history, next)
  {}

  lemma DeliveredStays(got: seq<Row>, rows: seq<Row>, n: nat)
    requires Delivered(got, n)
    ensures Delivered(got + rows, n)
  {
    var i :| 0 <= i < |got| && got[i].number == n;
    assert (got + rows)[i].number == n;
  }

  lemma DeliveredNow(got: seq<Row>, rows: seq<Row>, history: seq<string>, from: nat, n: nat)
    requires Continues(rows, history, from) && from < n <= from + |rows|
    ensures Delivered(got + rows, n)
  {
    var k := n - 1 - from;
    assert rows[k].number == n;
    assert (got + rows)[|got| + k] == rows[k];
  }

  lemma AppendKeepsDelivered(history: seq<string>, capacity: nat, cursor: nat, got: seq<Row>, rows: seq<Row>, next: nat)
    requires OnlyEvictedMissing(got, history, capacity, cursor) && cursor <= |history|
    requires Continues(rows, history, From(history, capacity, cursor))
    requires next == if |rows| == 0 then cursor else From(history, capacity, cursor) + |rows|
    ensures OnlyEvictedMissing(got + rows, history, capacity, next)
  {
    var from := From(history, capacity, cursor);
    forall n: nat | 1 <= n <= next ensures Delivered(got + rows, n) || n <= Evicted(history, capacity) {
      if Delivered(got, n) {
        DeliveredStays(got, rows, n);
      } else if from < n {
        DeliveredNow(got, rows, history, from, n);
      }
    }
  }

  lemma ReadKeepsSoundFor(history: seq<string>, capacity: nat, cursor: nat, got: seq<Row>, caughtUp: bool, limit: nat)
    requires SoundFor(history, capacity, cursor, got, caughtUp)
    ensures var rows := Stretch(history, capacity, cursor, limit);
            SoundFor(history, capacity, NextCursor(rows, cursor), got + rows,
                     caughtUp && Evicted(history, capacity) <= cursor)
  {
    var rows := Stretch(history, capacity, cursor, limit);
    var from, next := From(history, capacity, cursor), NextCursor(rows, cursor);
    StretchShape(history, capacity, cursor, limit);
    AppendKeepsFaithful(got, rows, history, cursor, from, next);
    AppendKeepsDelivered(history, capacity, cursor, got, rows, next);
    if caughtUp && Evicted(history, capacity) <= cursor {
      StretchIsNext(history, capacity, cursor, limit);
      JoinedPrefix(Numbered(history), cursor, next);
    }
  }

  lemma JoinedPrefix(rows: seq<Row>, a: nat, b: nat)
    requires a <= b <= |rows|
    ensures rows[..a] + rows[a..b] == rows[..b]
  {}

  lemma StretchIsNext(history: seq<string>, capacity: nat, since: nat, limit: nat)
    requires Evicted(history, capacity) <= since <= |history|
    ensures var rows := Stretch(history, capacity, since, limit);
            var to := if since + limit < |history| then since + limit else |history|;
            rows == Numbered(history)[since..to] && NextCursor(rows, since) == to
  {}

  /** A read whose cursor is not behind the buffer returns exactly the next lines. */
  lemma ReadIsNext(p: Pipeline, capacity: nat, limit: nat)
    requires Sound(p, capacity) && Evicted(History(p), capacity) <= p.cursor
    ensures var q := Step(p, capacity, Read(limit));
            && q.cursor == (if p.cursor + limit < |History(p)| then p.cursor + limit else |History(p)|)
            && q.got == p.got + Numbered(History(p))[p.cursor..q.cursor]
  {
    StretchIsNext(History(p), capacity, p.cursor, limit);
  }

  lemma StepKeepsSound(p: Pipeline, capacity: nat, e: Event)
    requires Sound(p, capacity)
    ensures Sound(Step(p, capacity, e), capacity)
  {
    match e
    case Read(limit) => ReadKeepsSoundFor(History(p), capacity, p.cursor, p.got, p.caughtUp, limit);
    case _ =>
      StepGrowsHistory(p, capacity, e);
      GrowthKeepsSound(p, Step(p, capacity, e), capacity);
  }

  lemma StepGrowsHistory(p: Pipeline, capacity: nat, e: Event)
    ensures History(p) <= History(Step(p, capacity, e))
  {
    match e
    case Chunk(text) =>
      if p.phase.Open? {
        SettledIsPrefix(p.consumed, text, MAX_LINE_CHARS);
      }
    case _ =>
      SettledIsPrefix(p.consumed, "", MAX_LINE_CHARS);
      assert p.consumed + "" == p.consumed;
  }

  /**
   * Under any interleaving of pump steps and reads, the reader gets increasing numbers with the
   * right texts, misses only rows that left the buffer, and misses nothing as long as no read
   * came too late.
   */
  lemma {:induction false} ReaderIsSound(p: Pipeline, capacity: nat, events: seq<Event>)
    requires Sound(p, capacity)
    ensures Sound(Run(p, capacity, events), capacity)
    decreases |events|
  {
    if events != [] {
      StepKeepsSound(p, capacity, events[0]);
      ReaderIsSound(Step(p, capacity, events[0]), capacity, events[1..]);
    }
  }

  lemma StartIsSound(capacity: nat)
    ensures Sound(START, capacity)
  {}

  /** A read returns the rows after the cursor that are still buffered, from the oldest on, up to the limit. */
  lemma ReadReturns(history: seq<string>, capacity: nat, since: nat, limit: nat)
    requires since <= |history|
    ensures var rows := Stretch(history, capacity, since, limit);
            var from := if |history| > capacity && since < |history| - capacity then |history| - capacity else since;
            && |rows| == (if limit < |history| - from then limit else |history| - from)
            && (forall k :: 0 <= k < |rows| ==> rows[k] == Row(from + k + 1, history[from + k]))
            && NextCursor(rows, since) == (if rows == [] then since else from + |rows|)
  {}

  // ---------- what arrives and what is read ----------

  /** The text of the chunks. */
  function Arrived(events: seq<Event>): string
    decreases |events|
  {
    if events == [] then ""
    else (if events[0].Chunk? then events[0].text else "") + Arrived(events[1..])
  }

  /** Chunks and reads only. */
  predicate Unended(events: seq<Event>) {
    forall i :: 0 <= i < |events| ==> events[i].Chunk? || events[i].Read?
  }

  lemma {:induction false} RunOfOpen(p: Pipeline, capacity: nat, events: seq<Event>)
    requires p.phase.Open? && Unended(events)
    ensures var v := Run(p, capacity, events);
            v.phase.Open? && v.consumed == p.consumed + Arrived(events)
    decreases |events|
  {
    if events != [] {
      var now := if events[0].Chunk? then events[0].text else "";
      StepOfOpen(p, capacity, events[0]);
      RunOfOpen(Step(p, capacity, events[0]), capacity, events[1..]);
      Associative(p.consumed, now, Arrived(events[1..]));
    }
  }

  lemma StepOfOpen(p: Pipeline, capacity: nat, e: Event)
    requires p.phase.Open? && (e.Chunk? || e.Read?)
    ensures var v := Step(p, capacity, e);
            v.phase.Open? && v.consumed == p.consumed + (if e.Chunk? then e.text else "")
  {}

  /** After the end only reads count. */
  lemma {:induction false} RunOfEnded(p: Pipeline, capacity: nat, events: seq<Event>)
    requires !p.phase.Open?
    ensures var v := Run(p, capacity, events);
            v.phase == p.phase && v.consumed == p.consumed
    decreases |events|
  {
    if events != [] {
      RunOfEnded(Step(p, capacity, events[0]), capacity, events[1..]);
    }
  }

  lemma {:induction false} RunJoins(p: Pipeline, capacity: nat, events: seq<Event>, more: seq<Event>)
    ensures Run(p, capacity, events + more) == Run(Run(p, capacity, events), capacity, more)
    decreases |events|
  {
    if events == [] {
      assert events + more == more;
    } else {
      assert (events + more)[1..] == events[1..] + more;
      RunJoins(Step(p, capacity, events[0]), capacity, events[1..], more);
    }
  }

  lemma RunArrives(capacity: nat, events: seq<Event>, after: seq<Event>)
    requires Unended(events) && (after == [] || after[0].Eof?)
    ensures var p := Run(START, capacity, events + after);
            p.consumed == Arrived(events) && (if after == [] then p.phase.Open? else p.phase.Ended?)
  {
    RunOfOpen(START, capacity, events);
    assert "" + Arrived(events) == Arrived(events);
    RunJoins(START, capacity, events, after);
    if after != [] {
      RunOfEnded(Step(Run(START, capacity, events), capacity, after[0]), capacity, after[1..]);
    }
  }

  lemma {:induction false} RunGrowsHistory(p: Pipeline, capacity: nat, events: seq<Event>)
    ensures History(p) <= History(Run(p, capacity, events))
    decreases |events|
  {
    if events != [] {
      StepGrowsHistory(p, capacity, events[0]);
      RunGrowsHistory(Step(p, capacity, events[0]), capacity, events[1..]);
    }
  }

  /** No read comes too late as long as all that was appended fits the buffer. */
  lemma {:induction false} RoomyIsCaughtUp(p: Pipeline, capacity: nat, events: seq<Event>)
    requires p.caughtUp && |History(Run(p, capacity, events))| <= capacity
    ensures Run(p, capacity, events).caughtUp
    decreases |events|
  {
    if events != [] {
      RunGrowsHistory(p, capacity, events);
      RoomyIsCaughtUp(Step(p, capacity, events[0]), capacity, events[1..]);
    }
  }

  /**
   * End to end: what a reader that never fell behind has in hand are the first lines of the whole
   * text, however the text was cut into chunks and however it goes on, before its end and after it: each
   * raw line as it is, or its first 65536 characters and the mark.
   */
  lemma PipelineRefinesLines(capacity: nat, events: seq<Event>, after: seq<Event>, rest: string)
    requires Unended(events) && (after == [] || (after[0].Eof? && rest == ""))
    requires Run(START, capacity, events + after).caughtUp
    ensures var p, text := Run(START, capacity, events + after), Arrived(events) + rest;
            && Joined(Raw(text)) == text
            && |p.got| == p.cursor <= |Raw(text)|
            && forall i :: 0 <= i < p.cursor ==> p.got[i].number == i + 1 && FromRaw(p.got[i].text, Raw(text)[i], 65536)
  {
    RunArrives(capacity, events, after);
    StartIsSound(capacity);
    ReaderIsSound(START, capacity, events + after);
    GotIsRaw(Run(START, capacity, events + after), capacity, rest);
  }

  lemma GotIsRaw(p: Pipeline, capacity: nat, rest: string)
    requires Sound(p, capacity) && p.caughtUp && (p.phase.Open? || (p.phase.Ended? && rest == ""))
    ensures var raw := Raw(p.consumed + rest);
            && Joined(raw) == p.consumed + rest
            && |p.got| == p.cursor <= |raw|
            && forall i :: 0 <= i < p.cursor ==> p.got[i].number == i + 1 && FromRaw(p.got[i].text, raw[i], 65536)
  {
    SettledIsPrefix(p.consumed, rest, MAX_LINE_CHARS);
    assert p.consumed + "" == p.consumed;
    CappedLinesAre(p.consumed + rest, MAX_LINE_CHARS);
    assert History(p) <= CappedLines(p.consumed + rest, MAX_LINE_CHARS);
  }
}
