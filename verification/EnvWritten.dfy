/** read_env and the start-up loader on a file that write_env printed. */
module EnvWritten {
  import opened Text
  import opened EnvFile
  import opened EnvLoaders

  /** A dictionary write_env is given: plain keys, each once, and one-line values. */
  predicate Printable(values: seq<(string, string)>) {
    && (forall i :: 0 <= i < |values| ==> PlainKey(values[i].0) && OneLine(values[i].1))
    && (forall i, j :: 0 <= i < j < |values| ==> values[i].0 != values[j].0)
  }

  predicate HasKey(values: seq<(string, string)>, key: string) {
    exists i :: 0 <= i < |values| && values[i].0 == key
  }

  // ---------- which values come back ----------

  function QuotedFor(value: string): string {
    [QuoteFor(value)] + value + [QuoteFor(value)]
  }

  /** A wrapped value comes back whole exactly when the quote around it does not end it. */
  lemma TrimInsideIff(v: string, quote: char, p: char -> bool)
    requires p(quote)
    ensures Trim([quote] + v + [quote], p) == v <==> EndsFreeOf(v, p)
  {
    var quoted := [quote] + v + [quote];
    if EndsFreeOf(v, p) {
      TrimInside(v, quote, p);
    } else {
      assert quoted[1] == v[0] && quoted[|quoted| - 2] == v[|v| - 1];
      TrimShort(quoted, if p(v[0]) then 2 else 1, if p(v[0]) then 1 else 2, p);
    }
  }

  /** write_env chooses the quote so that read_env gives the value back unless a double quote ends it. */
  lemma WrittenComesBackIff(v: string)
    ensures UnquoteLast(QuotedFor(v)) == v <==> EndsFreeOf(v, IsDoubleQuote)
  {
    if QuoteFor(v) == '\'' {
      assert EndsFreeOf(v, IsSingleQuote) by { assert v == "" || (v[0] != '\'' && v[|v| - 1] != '\''); }
      UnquoteLastIff(v);
    } else {
      var quoted := ['"'] + v + ['"'];
      assert quoted[0] == '"' && quoted[|quoted| - 1] == '"';
      TrimKeeps(quoted, IsSingleQuote);
      TrimInsideIff(v, '"', IsDoubleQuote);
    }
  }

  lemma TrimEndsIff(v: string, p: char -> bool)
    ensures Trim(v, p) == v <==> EndsFreeOf(v, p)
  {
    if EndsFreeOf(v, p) {
      TrimKeeps(v, p);
    }
  }

  /** No single quote is in the value, or no quote of either kind ends it. */
  predicate Loadable(v: string) {
    Lacks(v, |v|, '\'') || (EndsFreeOf(v, IsSingleQuote) && EndsFreeOf(v, IsDoubleQuote))
  }

  /** The start-up loader strips the quotes in the other order: what it gives back of a printed value. */
  lemma WrittenLoadsIff(v: string)
    ensures UnquoteFirst(QuotedFor(v)) == v <==> Loadable(v)
  {
    if QuoteFor(v) == '\'' {
      assert EndsFreeOf(v, IsSingleQuote) by { assert v == "" || (v[0] != '\'' && v[|v| - 1] != '\''); }
      UnquoteFirstIff(v);
    } else {
      TrimInsideIff(v, '"', IsDoubleQuote);
      TrimEndsIff(v, IsSingleQuote);
      if !EndsFreeOf(v, IsDoubleQuote) {
        WrappedShrinks(v, '"', IsDoubleQuote);
      }
    }
  }

  /** Stripping a wrapped value that does not come back whole leaves less than the value. */
  lemma WrappedShrinks(v: string, quote: char, p: char -> bool)
    requires p(quote) && !EndsFreeOf(v, p)
    ensures |Trim([quote] + v + [quote], p)| < |v|
  {
    var quoted := [quote] + v + [quote];
    assert quoted[1] == v[0] && quoted[|quoted| - 2] == v[|v| - 1];
    TrimShort(quoted, if p(v[0]) then 2 else 1, if p(v[0]) then 1 else 2, p);
  }

  // ---------- the printed file ----------

  lemma {:induction false} WrittenOneLine(values: seq<(string, string)>)
    requires Printable(values)
    ensures AllOneLine(Written(values))
  {
    if values != [] {
      LineIsOneLine(values[0].0, QuoteFor(values[0].1), values[0].1);
      WrittenOneLine(values[1..]);
    }
  }

  lemma WrittenFileSplits(values: seq<(string, string)>)
    requires Printable(values)
    ensures SplitLines(FileText(HEADER + Written(values))) == HEADER + Written(values)
  {
    WrittenOneLine(values);
    HeaderOneLine();
    SplitOfFile(HEADER + Written(values));
  }

  lemma HeaderOneLine()
    ensures OneLine(BANNER) && OneLine("")
  {}

  lemma HeaderHoldsNothing()
    ensures Entry(BANNER) == None && Entry("") == None
  {
    var h := BANNER;
    assert h[0] == '#' && h[|h| - 1] == '`';
    TrimKeeps(h, IsSpace);
  }

  lemma {:induction false} WrittenAt(values: seq<(string, string)>, i: nat)
    requires i < |values|
    ensures |Written(values)| == |values|
    ensures Written(values)[i] == Line(values[i].0, QuoteFor(values[i].1), values[i].1)
  {
    WrittenLength(values);
    if i > 0 {
      WrittenAt(values[1..], i - 1);
    }
  }

  lemma {:induction false} WrittenLength(values: seq<(string, string)>)
    ensures |Written(values)| == |values|
  {
    if values != [] {
      WrittenLength(values[1..]);
    }
  }

  lemma SkipSilent(line: string, lines: seq<string>, m: map<string, string>)
    requires Entry(line) == None
    ensures LastWins(Entries([line] + lines), m) == LastWins(Entries(lines), m)
  {
    EntriesHead([line] + lines);
    assert ([line] + lines)[1..] == lines;
  }

  lemma Pair(a: string, b: string, lines: seq<string>)
    ensures [a, b] + lines == [a] + ([b] + lines)
  {}

  lemma SkipTwo(a: string, b: string, lines: seq<string>, m: map<string, string>)
    requires Entry(a) == None && Entry(b) == None
    ensures LastWins(Entries([a, b] + lines), m) == LastWins(Entries(lines), m)
  {
    assert [a, b] + lines == [a] + ([b] + lines) by { Pair(a, b, lines); }
    SkipSilent(b, lines, m);
    SkipSilent(a, [b] + lines, m);
  }

  lemma SkipHeader(lines: seq<string>, m: map<string, string>)
    ensures LastWins(Entries(HEADER + lines), m) == LastWins(Entries(lines), m)
  {
    HeaderHoldsNothing();
    SkipTwo(BANNER, "", lines, m);
  }

  predicate Speaks(e: Parsed, key: string) { e.Some? && e.value.0 == key }

  /** Lines that do not speak of a key leave it alone. */
  lemma {:induction false} LastWinsFrame(es: seq<Parsed>, m: map<string, string>, key: string)
    requires forall i :: 0 <= i < |es| ==> !Speaks(es[i], key)
    ensures var r := LastWins(es, m);
            (key in r <==> key in m) && (key in m ==> r[key] == m[key])
  {
    if es != [] {
      LastWinsFrame(es[1..], PutLast(m, es[0]), key);
    }
  }

  /** The last line that speaks of a key decides. */
  lemma {:induction false} LastWinsAt(es: seq<Parsed>, m: map<string, string>, i: nat)
    requires i < |es| && es[i].Some?
    requires forall j :: i < j < |es| ==> !Speaks(es[j], es[i].value.0)
    ensures var r := LastWins(es, m);
            es[i].value.0 in r && r[es[i].value.0] == UnquoteLast(es[i].value.1)
    decreases |es|
  {
    if i == 0 {
      LastWinsFrame(es[1..], PutLast(m, es[0]), es[0].value.0);
    } else {
      LastWinsAt(es[1..], PutLast(m, es[0]), i - 1);
    }
  }

  /** Lines with distinct keys are all read. */
  lemma ReadDistinct(es: seq<Parsed>, r: map<string, string>)
    requires r == LastWins(es, map[]) && forall i :: 0 <= i < |es| ==> es[i].Some?
    requires forall i, j :: 0 <= i < j < |es| ==> es[i].value.0 != es[j].value.0
    ensures forall k :: k in r <==> exists i :: 0 <= i < |es| && Speaks(es[i], k)
    ensures forall i :: 0 <= i < |es| ==> es[i].value.0 in r && r[es[i].value.0] == UnquoteLast(es[i].value.1)
  {
    forall i | 0 <= i < |es|
      ensures es[i].value.0 in r && r[es[i].value.0] == UnquoteLast(es[i].value.1)
    {
      LastWinsAt(es, map[], i);
    }
    forall k | k in r ensures exists i :: 0 <= i < |es| && Speaks(es[i], k) {
      if forall i :: 0 <= i < |es| ==> !Speaks(es[i], k) {
        LastWinsFrame(es, map[], k);
      }
    }
  }

  /** What the parsers make of a printed dictionary. */
  predicate Parses(es: seq<Parsed>, values: seq<(string, string)>) {
    && |es| == |values|
    && forall i :: 0 <= i < |es| ==>
         es[i].Some? && es[i].value.0 == values[i].0 && es[i].value.1 == QuotedFor(values[i].1)
  }

  /** What the parsers make of one printed line. */
  lemma WrittenEntry(values: seq<(string, string)>, i: nat)
    requires i < |values| && PlainKey(values[i].0)
    ensures |Written(values)| == |values|
    ensures Entry(Written(values)[i]) == Some((values[i].0, QuotedFor(values[i].1)))
  {
    WrittenAt(values, i);
    LineEntry(values[i].0, QuoteFor(values[i].1), values[i].1);
  }

  lemma WrittenParses(values: seq<(string, string)>)
    requires forall i :: 0 <= i < |values| ==> PlainKey(values[i].0)
    ensures Parses(Entries(Written(values)), values)
  {
    WrittenLength(values);
    var es := Entries(Written(values));
    forall i | 0 <= i < |values| ensures es[i] == Some((values[i].0, QuotedFor(values[i].1))) {
      WrittenEntry(values, i);
    }
  }

  /** What came back: the same keys, and every value that no double quote ends, and only those. */
  ghost predicate CameBack(values: seq<(string, string)>, r: map<string, string>) {
    && (forall k :: k in r <==> HasKey(values, k))
    && forall i :: 0 <= i < |values| ==>
         values[i].0 in r && (r[values[i].0] == values[i].1 <==> EndsFreeOf(values[i].1, IsDoubleQuote))
  }

  lemma ParsedComesBack(values: seq<(string, string)>, es: seq<Parsed>)
    requires Printable(values) && Parses(es, values)
    ensures CameBack(values, LastWins(es, map[]))
  {
    var r := LastWins(es, map[]);
    ReadDistinct(es, r);
    forall k ensures k in r <==> HasKey(values, k) {
      if i :| 0 <= i < |es| && Speaks(es[i], k) {
        assert values[i].0 == k;
      }
      if i :| 0 <= i < |values| && values[i].0 == k {
        assert Speaks(es[i], k);
      }
    }
    forall i | 0 <= i < |values|
      ensures values[i].0 in r && (r[values[i].0] == values[i].1 <==> EndsFreeOf(values[i].1, IsDoubleQuote))
    {
      assert es[i].Some?;
      WrittenComesBackIff(values[i].1);
    }
  }

  /** read_env undoes write_env. */
  lemma ReadUndoesWrite(values: seq<(string, string)>)
    requires Printable(values)
    ensures CameBack(values, ReadBack(Some(FileText(HEADER + Written(values)))))
  {
    WrittenFileSplits(values);
    SkipHeader(Written(values), map[]);
    WrittenParses(values);
    ParsedComesBack(values, Entries(Written(values)));
  }

  // ---------- the start-up loader on the printed file ----------

  lemma {:induction false} FirstWinsFrame(es: seq<Parsed>, env: map<string, string>, key: string)
    requires key in env || forall i :: 0 <= i < |es| ==> !Speaks(es[i], key)
    ensures var r := FirstWins(es, env);
            (key in r <==> key in env) && (key in env ==> r[key] == env[key])
  {
    if es != [] {
      FirstWinsFrame(es[1..], PutFirst(env, es[0]), key);
    }
  }

  /** The first line that speaks of a key not yet set decides. */
  lemma {:induction false} FirstWinsAt(es: seq<Parsed>, env: map<string, string>, i: nat)
    requires i < |es| && es[i].Some? && es[i].value.0 != "" && es[i].value.0 !in env
    requires forall j :: 0 <= j < i ==> !Speaks(es[j], es[i].value.0)
    ensures var r := FirstWins(es, env);
            es[i].value.0 in r && r[es[i].value.0] == UnquoteFirst(es[i].value.1)
    decreases |es|
  {
    if i == 0 {
      FirstWinsFrame(es[1..], PutFirst(env, es[0]), es[0].value.0);
    } else {
      FirstWinsAt(es[1..], PutFirst(env, es[0]), i - 1);
    }
  }

  lemma SilentLoadsNothing(line: string, lines: seq<string>, env: map<string, string>)
    requires Entry(line) == None
    ensures FirstWins(Entries([line] + lines), env) == FirstWins(Entries(lines), env)
  {
    EntriesHead([line] + lines);
    assert ([line] + lines)[1..] == lines;
  }

  lemma HeaderLoadsNothing(lines: seq<string>, env: map<string, string>)
    ensures FirstWins(Entries(HEADER + lines), env) == FirstWins(Entries(lines), env)
  {
    HeaderHoldsNothing();
    SilentLoadsNothing("", lines, env);
    SilentLoadsNothing(BANNER, [""] + lines, env);
    Pair(BANNER, "", lines);
  }

  /**
   * The environment after loading: what was set stays, the printed keys are added, and their values
   * arrive exactly when no single quote is in them or no quote of either kind ends them.
   */
  ghost predicate Arrives(values: seq<(string, string)>, env: map<string, string>, r: map<string, string>) {
    && (forall k :: k in r <==> k in env || HasKey(values, k))
    && (forall k :: k in env ==> r[k] == env[k])
    && forall i :: 0 <= i < |values| && values[i].0 !in env ==>
         values[i].0 in r && (r[values[i].0] == values[i].1 <==> Loadable(values[i].1))
  }

  lemma ParsedArrives(values: seq<(string, string)>, es: seq<Parsed>, env: map<string, string>)
    requires Printable(values) && Parses(es, values)
    ensures Arrives(values, env, FirstWins(es, env))
  {
    var r := FirstWins(es, env);
    forall k | k in env ensures k in r && r[k] == env[k] {
      FirstWinsFrame(es, env, k);
    }
    forall i | 0 <= i < |values| && values[i].0 !in env
      ensures values[i].0 in r && (r[values[i].0] == values[i].1 <==> Loadable(values[i].1))
    {
      assert es[i].value.0 == values[i].0 && PlainKey(values[i].0);
      FirstWinsAt(es, env, i);
      WrittenLoadsIff(values[i].1);
    }
    forall k | k in r && k !in env ensures HasKey(values, k) {
      if forall i :: 0 <= i < |es| ==> !Speaks(es[i], k) {
        FirstWinsFrame(es, env, k);
      }
    }
  }

  /** What the start-up loader makes of a printed file. */
  lemma LoadOfWritten(values: seq<(string, string)>, env: map<string, string>)
    requires Printable(values)
    ensures Arrives(values, env, Loaded(Some(FileText(HEADER + Written(values))), env))
  {
    WrittenFileSplits(values);
    HeaderLoadsNothing(Written(values), env);
    WrittenParses(values);
    ParsedArrives(values, Entries(Written(values)), env);
  }
}
