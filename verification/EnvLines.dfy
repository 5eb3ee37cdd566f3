/** Lines that are written by hand: what both parsers read from them, and where a file is cut into lines. */
module EnvLines {
  import opened Text
  import opened EnvFile
  import opened EnvLoaders

  // ---------- one line ----------

  /** A text with no blank at its ends. */
  predicate Tight(s: string) {
    s == "" || (!IsSpace(s[0]) && !IsSpace(s[|s| - 1]))
  }

  lemma StripAround(left: string, core: string, right: string)
    requires AllIn(left, IsSpace) && AllIn(right, IsSpace) && Tight(core)
    ensures Strip(left + (core + right)) == core
  {
    if core == "" {
      assert left + (core + right) == left + right;
      assert AllIn(left + right, IsSpace);
      TrimAll(left + right, IsSpace);
    } else {
      TrimWrapped(left, core, right, IsSpace);
    }
  }

  /** A comment line is no entry, whatever stands in it. */
  lemma CommentIsSilent(blanks: string, comment: string)
    requires AllIn(blanks, IsSpace)
    ensures Entry(blanks + ("#" + comment)) == None
  {
    var line := blanks + ("#" + comment);
    var t := TrimEnd("#" + comment, IsSpace);
    assert line[|blanks|] == '#' && forall i :: 0 <= i < |blanks| ==> line[i] == blanks[i];
    SkipFromUnique(line, IsSpace, 0, |blanks|);
    assert line[|blanks|..] == "#" + comment;
    assert |t| > 0 && t[0] == '#';
  }

  /** Nor is a line without an equals sign. */
  lemma NoEqualsIsSilent(line: string)
    requires Lacks(line, |line|, '=')
    ensures Entry(line) == None
  {
    var t := Strip(line);
    assert forall i :: 0 <= i < |t| ==> exists j :: 0 <= j < |line| && line[j] == t[i];
    assert Lacks(t, |t|, '=');
    IndexOfUnique(t, |t|, '=');
  }

  /** Blanks around the key, around the equals sign and at the ends do not count. */
  lemma SpacedLineIsRead(key: string, value: string, a: string, b: string, c: string, d: string)
    requires PlainKey(key) && Tight(value) && value != ""
    requires AllIn(a, IsSpace) && AllIn(b, IsSpace) && AllIn(c, IsSpace) && AllIn(d, IsSpace)
    ensures Entry(a + (((key + b) + "=" + (c + value)) + d)) == Some((key, value))
  {
    BlanksAfter(key, b);
    BlanksLackEquals(key, b);
    BlanksBefore(c, value);
    WrappedParts(key + b, c + value, a, d);
  }

  lemma BlanksAfter(key: string, b: string)
    requires PlainKey(key) && AllIn(b, IsSpace)
    ensures Strip(key + b) == key && key + b != "" && (key + b)[0] == key[0]
  {
    StripAround("", key, b);
    assert "" + (key + b) == key + b;
  }

  lemma BlanksLackEquals(key: string, b: string)
    requires Lacks(key, |key|, '=') && AllIn(b, IsSpace)
    ensures Lacks(key + b, |key + b|, '=')
  {
    forall i | 0 <= i < |b| ensures b[i] != '=' {
      assert IsSpace(b[i]);
    }
  }

  lemma BlanksBefore(c: string, value: string)
    requires Tight(value) && value != "" && AllIn(c, IsSpace)
    ensures Strip(c + value) == value && c + value != "" && (c + value)[|c + value| - 1] == value[|value| - 1]
  {
    StripAround(c, value, "");
    assert value + "" == value;
  }

  lemma WrappedParts(head: string, tail: string, a: string, d: string)
    requires head != "" && tail != "" && Lacks(head, |head|, '=') && head[0] != '#'
    requires !IsSpace(head[0]) && !IsSpace(tail[|tail| - 1]) && AllIn(a, IsSpace) && AllIn(d, IsSpace)
    ensures Entry(a + ((head + "=" + tail) + d)) == Some((Strip(head), Strip(tail)))
  {
    var core := head + "=" + tail;
    assert core[0] == head[0] && core[|core| - 1] == tail[|tail| - 1];
    StripAround(a, core, d);
    LinePartsOf(head, tail);
    EntryOfStripped(a + (core + d), core, |head|);
  }

  lemma EntryOfStripped(line: string, t: string, n: nat)
    requires Strip(line) == t && n < |t| && IndexOf(t, '=') == n && t[0] != '#'
    ensures Entry(line) == Some((Strip(t[..n]), Strip(t[n + 1..])))
  {}

  lemma LinePartsOf(head: string, tail: string)
    requires Lacks(head, |head|, '=')
    ensures var line := head + "=" + tail;
            IndexOf(line, '=') == |head| && line[..|head|] == head && line[|head| + 1..] == tail
  {
    var line := head + "=" + tail;
    assert forall i :: 0 <= i < |head| ==> line[i] == head[i];
    IndexOfUnique(line, |head|, '=');
  }

  /** A value without quotes at its ends is read as it stands, by both parsers. */
  lemma UnquotedIsKept(value: string)
    requires EndsFreeOf(value, IsSingleQuote) && EndsFreeOf(value, IsDoubleQuote)
    ensures UnquoteLast(value) == value && UnquoteFirst(value) == value
  {
    TrimKeeps(value, IsSingleQuote);
    TrimKeeps(value, IsDoubleQuote);
  }

  lemma ParsersOnLines(lines: seq<string>, env: map<string, string>)
    requires AllOneLine(lines)
    ensures ReadBack(Some(FileText(lines))) == LastWins(Entries(lines), map[])
    ensures Loaded(Some(FileText(lines)), env) == FirstWins(Entries(lines), env)
  {
    SplitOfFile(lines);
  }

  /** Both parsers over one more line with an entry. */
  lemma LineAtEnd(lines: seq<string>, line: string, e: Parsed, env: map<string, string>)
    requires Entry(line) == e
    ensures LastWins(Entries(lines + [line]), map[]) == PutLast(LastWins(Entries(lines), map[]), e)
    ensures FirstWins(Entries(lines + [line]), env) == PutFirst(FirstWins(Entries(lines), env), e)
  {
    var es := Entries(lines);
    EntriesOfOneMore(lines, line);
    LastWinsThen(es, e, map[]);
    FirstWinsThen(es, e, env);
  }

  lemma PutUnquoted(m: map<string, string>, key: string, value: string)
    requires key != "" && EndsFreeOf(value, IsSingleQuote) && EndsFreeOf(value, IsDoubleQuote)
    ensures PutLast(m, Some((key, value))) == m[key := value]
    ensures PutFirst(m, Some((key, value))) == if key in m then m else m[key := value]
  {
    UnquotedIsKept(value);
    PutAs(m, key, value, value);
  }

  lemma PutAs(m: map<string, string>, key: string, raw: string, value: string)
    requires key != "" && UnquoteLast(raw) == value && UnquoteFirst(raw) == value
    ensures PutLast(m, Some((key, raw))) == m[key := value]
    ensures PutFirst(m, Some((key, raw))) == if key in m then m else m[key := value]
  {}

  lemma PlainOneLine(key: string, value: string)
    requires OneLine(key) && OneLine(value)
    ensures OneLine(key + "=" + value)
  {}

  lemma OneMoreOneLine(lines: seq<string>, line: string)
    requires AllOneLine(lines) && OneLine(line)
    ensures AllOneLine(lines + [line])
  {}

  lemma UnquotedAtEnd(lines: seq<string>, line: string, key: string, value: string, env: map<string, string>)
    requires AllOneLine(lines) && OneLine(line) && key != "" && Entry(line) == Some((key, value))
    requires EndsFreeOf(value, IsSingleQuote) && EndsFreeOf(value, IsDoubleQuote)
    ensures var before, after := Some(FileText(lines)), Some(FileText(lines + [line]));
            && ReadBack(after) == ReadBack(before)[key := value]
            && Loaded(after, env) == if key in Loaded(before, env) then Loaded(before, env)
                                     else Loaded(before, env)[key := value]
  {
    ParsersOnLines(lines, env);
    OneMoreOneLine(lines, line);
    ParsersOnLines(lines + [line], env);
    UnquotedAdded(lines, line, key, value, env);
  }

  lemma UnquotedAdded(lines: seq<string>, line: string, key: string, value: string, env: map<string, string>)
    requires key != "" && Entry(line) == Some((key, value))
    requires EndsFreeOf(value, IsSingleQuote) && EndsFreeOf(value, IsDoubleQuote)
    ensures LastWins(Entries(lines + [line]), map[]) == LastWins(Entries(lines), map[])[key := value]
    ensures var before := FirstWins(Entries(lines), env);
            FirstWins(Entries(lines + [line]), env) == if key in before then before else before[key := value]
  {
    LineAtEnd(lines, line, Some((key, value)), env);
    PutUnquoted(LastWins(Entries(lines), map[]), key, value);
    PutUnquoted(FirstWins(Entries(lines), env), key, value);
  }

  /** An unquoted line at the end of any file: both parsers read the value as it stands, after the lines before it. */
  lemma UnquotedLineIsRead(lines: seq<string>, key: string, value: string, env: map<string, string>)
    requires AllOneLine(lines) && PlainKey(key) && OneLine(value) && Tight(value) && value != ""
    requires EndsFreeOf(value, IsSingleQuote) && EndsFreeOf(value, IsDoubleQuote)
    ensures var before, after := Some(FileText(lines)), Some(FileText(lines + [key + "=" + value]));
            && ReadBack(after) == ReadBack(before)[key := value]
            && Loaded(after, env) == if key in Loaded(before, env) then Loaded(before, env)
                                     else Loaded(before, env)[key := value]
  {
    EntryOfParts(key, value);
    PlainOneLine(key, value);
    UnquotedAtEnd(lines, key + "=" + value, key, value, env);
  }

  /** Where there is no file nothing is read, and the first edit makes one line. */
  lemma NoFile(key: string, value: string, env: map<string, string>)
    ensures ReadBack(None) == map[] && Loaded(None, env) == env
    ensures SetText(None, key, value) == key + "=" + ("'" + value + "'") + "\n"
  {
    EditOfNothing(key, Line(key, '\'', value));
  }

  lemma EditOfNothing(key: string, line: string)
    ensures FileText(Edited([], key, line)) == line + "\n"
  {
    assert [line][1..] == [];
    assert line + "\n" + "" == line + "\n";
  }

  // ---------- where lines end ----------

  /** A line feed and a carriage return with a line feed end one line; so does every other line break alone. */
  lemma SplitAtBreak(line: string, mark: string, rest: string)
    requires OneLine(line) && mark != "" && IsLineBreak(mark[0])
    requires mark == "\r\n" || (|mark| == 1 && (mark == "\r" ==> rest == "" || rest[0] != '\n'))
    ensures SplitLines(line + (mark + rest)) == [line] + SplitLines(rest)
  {
    var text, n := line + (mark + rest), |line|;
    BreakAfter(line, mark, rest);
    SkipFromUnique(text, IsPlain, 0, n);
    PartsAround(line, mark, rest);
    CutAt(text, n);
  }

  lemma PartsAround(line: string, mark: string, rest: string)
    ensures var text, n := line + (mark + rest), |line|;
            text[..n] == line && text[n + |mark|..] == rest
  {}

  lemma CutAt(text: string, n: nat)
    requires n < |text| && SkipFrom(text, IsPlain, 0) == n
    ensures SplitLines(text) == [text[..n]] + SplitLines(text[n + BreakWidth(text, n)..])
  {}

  lemma BreakAfter(line: string, mark: string, rest: string)
    requires mark != "" && IsLineBreak(mark[0])
    requires mark == "\r\n" || (|mark| == 1 && (mark == "\r" ==> rest == "" || rest[0] != '\n'))
    ensures var text, n := line + (mark + rest), |line|;
            && (forall i :: 0 <= i < n ==> text[i] == line[i])
            && text[n] == mark[0] && BreakWidth(text, n) == |mark|
  {
    var text, n := line + (mark + rest), |line|;
    assert n + 1 < |text| ==> text[n + 1] == (mark + rest)[1];
  }

  /** A last line needs no end. */
  lemma LastLineNeedsNoEnd(line: string)
    requires OneLine(line)
    ensures SplitLines(line) == if line == "" then [] else [line]
  {
    SkipFromUnique(line, IsPlain, 0, |line|);
  }
}
