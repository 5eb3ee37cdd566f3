/** The env file: its printer, its line editor and its two parsers. */
module EnvFile {
  import opened Text

  // ---------- lines of a file ----------

  predicate IsPlain(c: char) { !IsLineBreak(c) }

  predicate OneLine(s: string) { AllIn(s, IsPlain) }

  predicate AllOneLine(lines: seq<string>) {
    forall i :: 0 <= i < |lines| ==> OneLine(lines[i])
  }

  /** How many characters the line break at n takes. */
  function BreakWidth(text: string, n: nat): nat
    requires n < |text|
  {
    if text[n] == '\r' && n + 1 < |text| && text[n + 1] == '\n' then 2 else 1
  }

  /** The text cut into lines, at every kind of line break. */
  function SplitLines(text: string): (lines: seq<string>)
    ensures AllOneLine(lines)
    decreases |text|
  {
    if text == "" then []
    else
      var n := SkipFrom(text, IsPlain, 0);
      if n == |text| then [text] else [text[..n]] + SplitLines(text[n + BreakWidth(text, n)..])
  }

  /** The lines, each ended by a newline. */
  function FileText(lines: seq<string>): string {
    if lines == [] then "" else lines[0] + "\n" + FileText(lines[1..])
  }

  lemma SplitFirst(line: string, rest: string)
    requires OneLine(line)
    ensures SplitLines(line + "\n" + rest) == [line] + SplitLines(rest)
  {
    var text, n := line + "\n" + rest, |line|;
    assert text[n] == '\n';
    assert forall i :: 0 <= i < n ==> text[i] == line[i];
    SkipFromUnique(text, IsPlain, 0, n);
    assert text[..n] == line && text[n + 1..] == rest;
  }

  /** Reading the lines of a written file gives the lines that were written. */
  lemma {:induction false} SplitOfFile(lines: seq<string>)
    requires AllOneLine(lines)
    ensures SplitLines(FileText(lines)) == lines
  {
    if lines != [] {
      SplitFirst(lines[0], FileText(lines[1..]));
      SplitOfFile(lines[1..]);
    }
  }

  // ---------- one line ----------

  /** The key and the raw value of a line, as both parsers split it. */
  function Entry(line: string): Option<(string, string)> {
    var t := Strip(line);
    var n := IndexOf(t, '=');
    if t == "" || t[0] == '#' || n == |t| then None
    else Some((Strip(t[..n]), Strip(t[n + 1..])))
  }

  /** read_env takes the single quotes off first, then the double ones. */
  function UnquoteLast(v: string): string { Trim(Trim(v, IsSingleQuote), IsDoubleQuote) }

  /** The start-up loader takes the double quotes off first, then the single ones. */
  function UnquoteFirst(v: string): string { Trim(Trim(v, IsDoubleQuote), IsSingleQuote) }

  /** The test of set_env_line for a line that holds the key. */
  predicate Holds(line: string, key: string) {
    var stripped := TrimStart(line, IsSpace);
    var n := IndexOf(stripped, '=');
    var head := if n < |stripped| then TrimEnd(stripped[..n], IsSpace) else "";
    head == key && !(stripped != "" && stripped[0] == '#')
  }

  /** A key that stands for itself in a line. */
  predicate PlainKey(key: string) {
    && key != "" && OneLine(key) && Lacks(key, |key|, '=') && key[0] != '#'
    && !IsSpace(key[0]) && !IsSpace(key[|key| - 1])
  }

  lemma EqualsSurvivesTrim(s: string)
    ensures var t, n := TrimEnd(s, IsSpace), IndexOf(s, '=');
            if n < |s| then n < |t| && IndexOf(t, '=') == n && t[..n] == s[..n] else IndexOf(t, '=') == |t|
  {}

  lemma StripOfHead(h: string)
    requires h == "" || !IsSpace(h[0])
    ensures Strip(h) == TrimEnd(h, IsSpace)
  {}

  /** The line editor finds a key exactly where the parsers read it. */
  lemma EntryIsHeld(line: string, key: string)
    requires key != ""
    ensures Holds(line, key) <==> Entry(line).Some? && Entry(line).value.0 == key
  {
    var s := TrimStart(line, IsSpace);
    var n := IndexOf(s, '=');
    EqualsSurvivesTrim(s);
    if n < |s| {
      StripOfHead(s[..n]);
      assert TrimEnd(s, IsSpace)[0] == s[0];
    }
  }

  /** The line that set_env_line and write_env make. */
  function Line(key: string, quote: char, value: string): string {
    key + "=" + ([quote] + value + [quote])
  }

  predicate IsQuote(c: char) { c == '\'' || c == '"' }

  lemma LineEntry(key: string, quote: char, value: string)
    requires PlainKey(key) && IsQuote(quote)
    ensures Entry(Line(key, quote, value)) == Some((key, [quote] + value + [quote]))
  {
    EntryOfParts(key, [quote] + value + [quote]);
  }

  /** A line with no blanks at its ends is cut at its first equals sign. */
  lemma EntryCut(line: string, n: nat)
    requires n < |line| && IndexOf(line, '=') == n && line[0] != '#'
    requires !IsSpace(line[0]) && !IsSpace(line[|line| - 1])
    ensures Entry(line) == Some((Strip(line[..n]), Strip(line[n + 1..])))
  {
    TrimKeeps(line, IsSpace);
  }

  lemma EntryOfParts(key: string, quoted: string)
    requires PlainKey(key) && quoted != ""
    requires !IsSpace(quoted[0]) && !IsSpace(quoted[|quoted| - 1])
    ensures Entry(key + "=" + quoted) == Some((key, quoted))
  {
    LineParts(key, quoted);
    EntryCut(key + "=" + quoted, |key|);
    TrimKeeps(key, IsSpace);
    TrimKeeps(quoted, IsSpace);
  }

  lemma LineParts(key: string, quoted: string)
    requires PlainKey(key) && quoted != ""
    ensures var line := key + "=" + quoted;
            && line[0] == key[0] && line[|line| - 1] == quoted[|quoted| - 1]
            && IndexOf(line, '=') == |key| && line[..|key|] == key && line[|key| + 1..] == quoted
  {
    var line := key + "=" + quoted;
    assert forall i :: 0 <= i < |key| ==> line[i] == key[i];
    IndexOfUnique(line, |key|, '=');
  }

  // ---------- which values come back ----------

  predicate EndsFreeOf(v: string, p: char -> bool) {
    v == "" || (!p(v[0]) && !p(v[|v| - 1]))
  }

  lemma TrimInside(v: string, quote: char, p: char -> bool)
    requires p(quote) && EndsFreeOf(v, p)
    ensures Trim([quote] + v + [quote], p) == v
  {
    var quoted := [quote] + v + [quote];
    if v == "" {
      TrimAll(quoted, p);
    } else {
      assert quoted == [quote] + (v + [quote]);
      TrimWrapped([quote], v, [quote], p);
    }
  }

  /** What is stripped away at both ends is at least what stands there. */
  lemma TrimShort(s: string, a: nat, b: nat, p: char -> bool)
    requires a + b <= |s|
    requires forall i :: 0 <= i < a || |s| - b <= i < |s| ==> p(s[i])
    ensures |Trim(s, p)| <= |s| - a - b
  {}

  /** The first-wins parser reads a single-quoted value back exactly when no single quote ends it. */
  lemma UnquoteFirstIff(v: string)
    ensures UnquoteFirst(['\''] + v + ['\'']) == v <==> EndsFreeOf(v, IsSingleQuote)
  {
    var quoted := ['\''] + v + ['\''];
    assert quoted[0] == '\'' && quoted[|quoted| - 1] == '\'';
    TrimKeeps(quoted, IsDoubleQuote);
    if EndsFreeOf(v, IsSingleQuote) {
      TrimInside(v, '\'', IsSingleQuote);
    }
  }

  /** The last-wins parser reads it back exactly when no quote of either kind ends it. */
  lemma UnquoteLastIff(v: string)
    ensures UnquoteLast(['\''] + v + ['\'']) == v <==>
            EndsFreeOf(v, IsSingleQuote) && EndsFreeOf(v, IsDoubleQuote)
  {
    var quoted := ['\''] + v + ['\''];
    if EndsFreeOf(v, IsSingleQuote) {
      TrimInside(v, '\'', IsSingleQuote);
      if EndsFreeOf(v, IsDoubleQuote) {
        TrimKeeps(v, IsDoubleQuote);
      }
    } else {
      assert quoted[1] == v[0] && quoted[|quoted| - 2] == v[|v| - 1];
      TrimShort(quoted, if v[0] == '\'' then 2 else 1, if v[0] == '\'' then 1 else 2, IsSingleQuote);
    }
  }

  // ---------- whole files ----------

  type Parsed = Option<(string, string)>

  function Entries(lines: seq<string>): (es: seq<Parsed>)
    ensures |es| == |lines| && forall i :: 0 <= i < |lines| ==> es[i] == Entry(lines[i])
  {
    seq(|lines|, i requires 0 <= i < |lines| => Entry(lines[i]))
  }

  /** Which lines set_env_line takes for the key. */
  function Held(lines: seq<string>, key: string): (held: seq<bool>)
    ensures |held| == |lines| && forall i :: 0 <= i < |lines| ==> held[i] == Holds(lines[i], key)
  {
    seq(|lines|, i requires 0 <= i < |lines| => Holds(lines[i], key))
  }

  /** One of the first n. */
  predicate Any(held: seq<bool>, n: nat)
    requires n <= |held|
  {
    exists i | 0 <= i < n :: held[i]
  }

  /** The loop of set_env_line: the first holder is replaced, the others go. */
  function Rewritten<T>(lines: seq<T>, held: seq<bool>, line: T, replaced: bool): seq<T>
    requires |held| == |lines|
  {
    if lines == [] then []
    else if held[0] then
      (if replaced then [] else [line]) + Rewritten(lines[1..], held[1..], line, true)
    else [lines[0]] + Rewritten(lines[1..], held[1..], line, replaced)
  }

  /** The lines of the file after set_env_line. */
  function Edited(lines: seq<string>, key: string, line: string): seq<string> {
    var held := Held(lines, key);
    Rewritten(lines, held, line, false) + if Any(held, |held|) then [] else [line]
  }

  /** One line more for the last-wins parser. */
  function PutLast(m: map<string, string>, e: Parsed): map<string, string> {
    match e
    case None => m
    case Some((k, v)) => m[k := UnquoteLast(v)]
  }

  /** One line more for the first-wins parser. */
  function PutFirst(m: map<string, string>, e: Parsed): map<string, string> {
    match e
    case None => m
    case Some((k, v)) => if k == "" || k in m then m else m[k := UnquoteFirst(v)]
  }

  function LastWins(es: seq<Parsed>, m: map<string, string>): map<string, string> {
    if es == [] then m else LastWins(es[1..], PutLast(m, es[0]))
  }

  function FirstWins(es: seq<Parsed>, m: map<string, string>): map<string, string> {
    if es == [] then m else FirstWins(es[1..], PutFirst(m, es[0]))
  }

  /** The quote write_env puts around a value. */
  function QuoteFor(value: string): char {
    if Lacks(value, |value|, '\'') then '\'' else '"'
  }

  const BANNER := "# generated by `vpsmcp setup`"

  const HEADER := [BANNER, ""]

  /** The lines write_env makes of a dictionary, in its order. */
  function Written(values: seq<(string, string)>): seq<string> {
    if values == [] then []
    else [Line(values[0].0, QuoteFor(values[0].1), values[0].1)] + Written(values[1..])
  }

  /** The lines of the file, None standing for no file. */
  function LinesOf(text: Option<string>): seq<string> {
    if text.Some? then SplitLines(text.value) else []
  }

  /** What read_env finds in the file. */
  function ReadBack(text: Option<string>): map<string, string> {
    LastWins(Entries(LinesOf(text)), map[])
  }

  /** The environment after the file is loaded into env. */
  function Loaded(text: Option<string>, env: map<string, string>): map<string, string> {
    FirstWins(Entries(LinesOf(text)), env)
  }

  /** The file after set_env_line. */
  function SetText(text: Option<string>, key: string, value: string): string {
    FileText(Edited(LinesOf(text), key, Line(key, '\'', value)))
  }

  datatype Change = Replaced | Added

  class EnvFile {
    var text: Option<string>

    constructor ()
      ensures text == None
    {
      text := None;
    }

    method SetLine(key: string, value: string) returns (change: Change)
      modifies this
      ensures text == Some(SetText(old(text), key, value))
      ensures change == if Any(Held(LinesOf(old(text)), key), |LinesOf(old(text))|) then Replaced else Added
    {
      var all := LinesOf(text);
      var line := Line(key, '\'', value);
      var lines, replaced := Rewrite(all, Held(all, key), line);
      EditedIs(all, key, line);
      if !replaced {
        lines := lines + [line];
      }
      assert lines == Edited(all, key, line);
      text := Some(FileText(lines));
      change := if replaced then Replaced else Added;
    }

    method WriteEnv(values: seq<(string, string)>)
      modifies this
      ensures text == Some(FileText(HEADER + Written(values)))
    {
      var lines := HEADER;
      for i := 0 to |values|
        invariant lines + Written(values[i..]) == HEADER + Written(values)
      {
        var (k, v) := values[i];
        var line := Line(k, if Lacks(v, |v|, '\'') then '\'' else '"', v);
        assert values[i..][0] == values[i] && values[i..][1..] == values[i + 1..];
        Associative(lines, [line], Written(values[i + 1..]));
        lines := lines + [line];
      }
      assert lines + [] == lines;
      text := Some(FileText(lines));
    }

    /** The loop over the old lines. */
    static method Rewrite(all: seq<string>, held: seq<bool>, line: string) returns (lines: seq<string>, replaced: bool)
      requires |held| == |all|
      ensures lines == Rewritten(all, held, line, false)
      ensures replaced == Any(held, |held|)
    {
      lines, replaced := [], false;
      var i := 0;
      while i < |all|
        invariant i <= |all|
        invariant replaced == Any(held, i)
        invariant lines + Rewritten(all[i..], held[i..], line, replaced) == Rewritten(all, held, line, false)
      {
        RewrittenStep(all, held, i, line, replaced);
        var more := [];
        if held[i] {
          if !replaced {
            more := [line];
            replaced := true;
          }
        } else {
          more := [all[i]];
        }
        i := i + 1;
        Associative(lines, more, Rewritten(all[i..], held[i..], line, replaced));
        lines := lines + more;
      }
    }

    method ReadEnv() returns (out: map<string, string>)
      ensures out == ReadBack(text)
    {
      var es := Entries(LinesOf(text));
      out := map[];
      for i := 0 to |es|
        invariant LastWins(es[i..], out) == LastWins(es, map[])
      {
        assert es[i..][0] == es[i] && es[i..][1..] == es[i + 1..];
        match es[i]
        case None =>
        case Some((k, v)) => out := out[k := UnquoteLast(v)];
      }
    }

    method LoadInto(env: map<string, string>) returns (loaded: map<string, string>, count: nat)
      ensures loaded == Loaded(text, env)
      ensures count == |loaded| - |env|
    {
      var es := Entries(LinesOf(text));
      loaded, count := env, 0;
      for i := 0 to |es|
        invariant FirstWins(es[i..], loaded) == FirstWins(es, env)
        invariant count == |loaded| - |env|
      {
        assert es[i..][0] == es[i] && es[i..][1..] == es[i + 1..];
        match es[i]
        case None =>
        case Some((k, v)) =>
          if k != "" && k !in loaded {
            loaded := loaded[k := UnquoteFirst(v)];
            count := count + 1;
          }
      }
    }
  }

  lemma EditedIs(all: seq<string>, key: string, line: string)
    ensures var held := Held(all, key);
            var kept := Rewritten(all, held, line, false);
            Edited(all, key, line) == if Any(held, |held|) then kept else kept + [line]
  {}

  lemma RewrittenStep(all: seq<string>, held: seq<bool>, i: nat, line: string, replaced: bool)
    requires |held| == |all| && i < |all|
    ensures Rewritten(all[i..], held[i..], line, replaced) ==
            if held[i] then (if replaced then [] else [line]) + Rewritten(all[i + 1..], held[i + 1..], line, true)
            else [all[i]] + Rewritten(all[i + 1..], held[i + 1..], line, replaced)
  {}
}
