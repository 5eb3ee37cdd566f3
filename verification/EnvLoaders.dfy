/** What the two parsers read from an edited env file and from a written one. */
module EnvLoaders {
  import opened Text
  import opened EnvFile
  import opened EnvGuarantees

  // ---------- the edited file is read back as it was made ----------

  lemma {:induction false} RewrittenOneLine(lines: seq<string>, held: seq<bool>, line: string, replaced: bool)
    requires |held| == |lines| && AllOneLine(lines) && OneLine(line)
    ensures AllOneLine(Rewritten(lines, held, line, replaced))
  {
    if lines != [] {
      RewrittenOneLine(lines[1..], held[1..], line, replaced || held[0]);
    }
  }

  /** The file set_env_line writes splits into exactly the lines it meant, for a one-line key and value. */
  lemma EditedSplits(lines: seq<string>, key: string, value: string)
    requires AllOneLine(lines) && OneLine(key) && OneLine(value)
    ensures var after := Edited(lines, key, Line(key, '\'', value));
            SplitLines(FileText(after)) == after
  {
    var line := Line(key, '\'', value);
    LineIsOneLine(key, '\'', value);
    RewrittenOneLine(lines, Held(lines, key), line, false);
    EditedIs(lines, key, line);
    SplitOfFile(Edited(lines, key, line));
  }

  lemma LineIsOneLine(key: string, quote: char, value: string)
    requires OneLine(key) && OneLine(value) && IsQuote(quote)
    ensures OneLine(Line(key, quote, value))
  {}

  // ---------- parsed lines ----------

  ghost predicate Mapped<S(!new), T(!new)>(lines: seq<S>, f: S -> T, images: seq<T>) {
    |images| == |lines| && forall i :: 0 <= i < |lines| ==> images[i] == f(lines[i])
  }

  lemma MappedHead<S(!new), T(!new)>(lines: seq<S>, f: S -> T, images: seq<T>, rest: seq<T>)
    requires lines != [] && Mapped(lines, f, images) && Mapped(lines[1..], f, rest)
    ensures images == [f(lines[0])] + rest
  {}

  lemma EntriesHead(lines: seq<string>)
    requires lines != []
    ensures Entries(lines) == [Entry(lines[0])] + Entries(lines[1..])
  {
    MappedHead(lines, Entry, Entries(lines), Entries(lines[1..]));
  }

  lemma {:induction false} RewrittenMapped<S(!new), T(!new)>(lines: seq<S>, f: S -> T, images: seq<T>,
                                                           held: seq<bool>, line: S, replaced: bool)
    requires Mapped(lines, f, images) && |held| == |lines|
    ensures Mapped(Rewritten(lines, held, line, replaced), f, Rewritten(images, held, f(line), replaced))
    decreases |lines|
  {
    if lines != [] {
      RewrittenMapped(lines[1..], f, images[1..], held[1..], line, replaced || held[0]);
    }
  }

  /** Parsing commutes with the loop of set_env_line. */
  lemma EntriesOfRewritten(lines: seq<string>, held: seq<bool>, line: string, replaced: bool)
    requires |held| == |lines|
    ensures Entries(Rewritten(lines, held, line, replaced)) ==
            Rewritten(Entries(lines), held, Entry(line), replaced)
  {
    RewrittenMapped(lines, Entry, Entries(lines), held, line, replaced);
  }

  lemma {:induction false} LastWinsThen(es: seq<Parsed>, e: Parsed, m: map<string, string>)
    ensures LastWins(es + [e], m) == PutLast(LastWins(es, m), e)
  {
    if es == [] {
      assert [e][1..] == [];
    } else {
      LastWinsThen(es[1..], e, PutLast(m, es[0]));
      assert (es + [e])[1..] == es[1..] + [e];
    }
  }

  lemma {:induction false} FirstWinsThen(es: seq<Parsed>, e: Parsed, m: map<string, string>)
    ensures FirstWins(es + [e], m) == PutFirst(FirstWins(es, m), e)
  {
    if es == [] {
      assert [e][1..] == [];
    } else {
      FirstWinsThen(es[1..], e, PutFirst(m, es[0]));
      assert (es + [e])[1..] == es[1..] + [e];
    }
  }

  /** held says of every parsed line whether its key is the given one. */
  predicate HeldBy(es: seq<Parsed>, key: string, held: seq<bool>) {
    |held| == |es| && forall i :: 0 <= i < |es| ==> held[i] == (es[i].Some? && es[i].value.0 == key)
  }

  // ---------- the last-wins parser ----------

  lemma PutTwice(m: map<string, string>, key: string, v: string, w: string)
    ensures m[key := v][key := w] == m[key := w]
  {}

  lemma PutApart(m: map<string, string>, key: string, v: string, other: string, w: string)
    requires key != other
    ensures m[key := v][other := w] == m[other := w][key := v]
  {}

  lemma PutLastElsewhere(m: map<string, string>, e: Parsed, key: string, v: string)
    requires e.None? || e.value.0 != key
    ensures PutLast(m, e)[key := v] == PutLast(m[key := v], e)
    ensures key in m ==> key in PutLast(m, e) && PutLast(m, e)[key] == m[key]
  {
    match e
    case None =>
    case Some((k, raw)) => PutApart(m, key, v, k, UnquoteLast(raw));
  }

  lemma PutLastHere(m: map<string, string>, e: Parsed, key: string, v: string)
    requires e.Some? && e.value.0 == key
    ensures PutLast(m, e)[key := v] == m[key := v]
    ensures PutLast(m, e) == m[key := UnquoteLast(e.value.1)]
  {
    PutTwice(m, key, UnquoteLast(e.value.1), v);
  }

  lemma RewrittenParts(es: seq<Parsed>, held: seq<bool>, e: Parsed, replaced: bool)
    requires |held| == |es| && es != []
    ensures var all, rest := Rewritten(es, held, e, replaced), Rewritten(es[1..], held[1..], e, replaced || held[0]);
            if !held[0] then all != [] && all[0] == es[0] && all[1..] == rest
            else if replaced then all == rest
            else all != [] && all[0] == e && all[1..] == rest
  {}

  /** Two runs of the parser, over the old and over the new lines, that differ at most at the key. */
  lemma {:induction false} LastWinsRewritten(es: seq<Parsed>, held: seq<bool>, e: Parsed, v: string,
                                             replaced: bool, m: map<string, string>, n: map<string, string>)
    requires e.Some? && v == UnquoteLast(e.value.1) && HeldBy(es, e.value.0, held)
    requires m[e.value.0 := v] == n[e.value.0 := v]
    requires replaced ==> e.value.0 in n && n[e.value.0] == v
    ensures var key, r := e.value.0, LastWins(Rewritten(es, held, e, replaced), n);
            && r[key := v] == LastWins(es, m)[key := v]
            && (replaced || FirstHeld(held) < |held| ==> key in r && r[key] == v)
    decreases |es|
  {
    var key := e.value.0;
    if es == [] {
    } else if held[0] {
      PutLastHere(m, es[0], key, v);
      PutLastHere(n, e, key, v);
      LastWinsRewritten(es[1..], held[1..], e, v, true, PutLast(m, es[0]), if replaced then n else PutLast(n, e));
      RewrittenParts(es, held, e, replaced);
    } else {
      PutLastElsewhere(m, es[0], key, v);
      PutLastElsewhere(n, es[0], key, v);
      LastWinsRewritten(es[1..], held[1..], e, v, replaced, PutLast(m, es[0]), PutLast(n, es[0]));
      RewrittenParts(es, held, e, replaced);
    }
  }

  /** The parsed lines after set_env_line. */
  function EditedEntries(es: seq<Parsed>, held: seq<bool>, e: Parsed): seq<Parsed>
    requires |held| == |es|
  {
    Rewritten(es, held, e, false) + if FirstHeld(held) < |held| then [] else [e]
  }

  lemma EntriesOfOneMore(lines: seq<string>, line: string)
    ensures Entries(lines + [line]) == Entries(lines) + [Entry(line)]
  {}

  lemma EntriesOfEdited(lines: seq<string>, key: string, line: string)
    ensures Entries(Edited(lines, key, line)) == EditedEntries(Entries(lines), Held(lines, key), Entry(line))
  {
    var held := Held(lines, key);
    var kept := Rewritten(lines, held, line, false);
    EditedIs(lines, key, line);
    AnyIsFirst(held);
    EntriesOfRewritten(lines, held, line, false);
    EntriesOfOneMore(kept, line);
    var es := Rewritten(Entries(lines), held, Entry(line), false);
    assert es + [] == es;
  }

  lemma HeldIsParsed(lines: seq<string>, key: string)
    requires key != ""
    ensures HeldBy(Entries(lines), key, Held(lines, key))
  {
    var held, es := Held(lines, key), Entries(lines);
    forall i | 0 <= i < |lines| ensures held[i] == (es[i].Some? && es[i].value.0 == key) {
      EntryIsHeld(lines[i], key);
    }
  }

  lemma LastWinsEdited(es: seq<Parsed>, held: seq<bool>, e: Parsed, m: map<string, string>)
    requires e.Some? && HeldBy(es, e.value.0, held)
    ensures LastWins(EditedEntries(es, held, e), m) == LastWins(es, m)[e.value.0 := UnquoteLast(e.value.1)]
  {
    var key, v := e.value.0, UnquoteLast(e.value.1);
    var kept := Rewritten(es, held, e, false);
    var r := LastWins(kept, m);
    LastWinsRewritten(es, held, e, v, false, m, m);
    if FirstHeld(held) < |held| {
      assert kept + [] == kept;
      assert r[key := v] == r;
    } else {
      LastWinsThen(kept, e, m);
    }
  }

  // ---------- the first-wins parser ----------

  lemma PutFirstElsewhere(m: map<string, string>, e: Parsed, key: string, v: string)
    requires e.None? || e.value.0 != key
    ensures PutFirst(m, e)[key := v] == PutFirst(m[key := v], e)
    ensures key in PutFirst(m, e) <==> key in m
    ensures key in m ==> PutFirst(m, e)[key] == m[key]
  {
    match e
    case None =>
    case Some((k, raw)) => PutApart(m, key, v, k, UnquoteFirst(raw));
  }

  lemma PutFirstHere(m: map<string, string>, e: Parsed, key: string, v: string)
    requires e.Some? && e.value.0 == key && key != ""
    ensures PutFirst(m, e)[key := v] == m[key := v]
    ensures PutFirst(m, e) == if key in m then m else m[key := UnquoteFirst(e.value.1)]
  {
    PutTwice(m, key, UnquoteFirst(e.value.1), v);
  }

  lemma {:induction false} FirstWinsRewritten(es: seq<Parsed>, held: seq<bool>, e: Parsed, v: string,
                                              replaced: bool, m: map<string, string>, n: map<string, string>)
    requires e.Some? && v == UnquoteFirst(e.value.1) && HeldBy(es, e.value.0, held) && e.value.0 != ""
    requires m[e.value.0 := v] == n[e.value.0 := v]
    requires if replaced then e.value.0 in n && n[e.value.0] == v else e.value.0 !in n
    ensures var key, r := e.value.0, FirstWins(Rewritten(es, held, e, replaced), n);
            && r[key := v] == FirstWins(es, m)[key := v]
            && if replaced || FirstHeld(held) < |held| then key in r && r[key] == v else key !in r
    decreases |es|
  {
    var key := e.value.0;
    if es == [] {
    } else if held[0] {
      PutFirstHere(m, es[0], key, v);
      PutFirstHere(n, e, key, v);
      FirstWinsRewritten(es[1..], held[1..], e, v, true, PutFirst(m, es[0]), if replaced then n else PutFirst(n, e));
      RewrittenParts(es, held, e, replaced);
    } else {
      PutFirstElsewhere(m, es[0], key, v);
      PutFirstElsewhere(n, es[0], key, v);
      FirstWinsRewritten(es[1..], held[1..], e, v, replaced, PutFirst(m, es[0]), PutFirst(n, es[0]));
      RewrittenParts(es, held, e, replaced);
    }
  }

  lemma FirstWinsEdited(es: seq<Parsed>, held: seq<bool>, e: Parsed, env: map<string, string>)
    requires e.Some? && HeldBy(es, e.value.0, held) && e.value.0 != "" && e.value.0 !in env
    ensures FirstWins(EditedEntries(es, held, e), env) == FirstWins(es, env)[e.value.0 := UnquoteFirst(e.value.1)]
  {
    var key, v := e.value.0, UnquoteFirst(e.value.1);
    var kept := Rewritten(es, held, e, false);
    var r := FirstWins(kept, env);
    FirstWinsRewritten(es, held, e, v, false, env, env);
    if FirstHeld(held) < |held| {
      assert kept + [] == kept;
      assert r[key := v] == r;
    } else {
      FirstWinsThen(kept, e, env);
    }
  }

  /** A variable the environment already has is never touched, whatever the lines say of it. */
  lemma {:induction false} FirstWinsIgnores(es: seq<Parsed>, held: seq<bool>, e: Parsed,
                                            replaced: bool, env: map<string, string>)
    requires e.Some? && HeldBy(es, e.value.0, held) && e.value.0 in env
    ensures FirstWins(Rewritten(es, held, e, replaced), env) == FirstWins(es, env)
    ensures e.value.0 in FirstWins(es, env) && FirstWins(es, env)[e.value.0] == env[e.value.0]
    decreases |es|
  {
    if es != [] {
      RewrittenParts(es, held, e, replaced);
      FirstWinsIgnores(es[1..], held[1..], e, replaced || held[0], PutFirst(env, es[0]));
    }
  }

  lemma FirstWinsEditedKnown(es: seq<Parsed>, held: seq<bool>, e: Parsed, env: map<string, string>)
    requires e.Some? && HeldBy(es, e.value.0, held) && e.value.0 in env
    ensures FirstWins(EditedEntries(es, held, e), env) == FirstWins(es, env)
  {
    var kept := Rewritten(es, held, e, false);
    FirstWinsIgnores(es, held, e, false, env);
    assert kept + [] == kept;
    FirstWinsThen(kept, e, env);
  }

  // ---------- both parsers over the edited file ----------

  lemma SetTextEntries(text: Option<string>, key: string, value: string)
    requires PlainKey(key) && OneLine(value)
    ensures var lines := LinesOf(text);
            && HeldBy(Entries(lines), key, Held(lines, key))
            && Entries(SplitLines(SetText(text, key, value))) ==
               EditedEntries(Entries(lines), Held(lines, key), Some((key, ['\''] + value + ['\''])))
  {
    var lines := LinesOf(text);
    EditedSplits(lines, key, value);
    HeldIsParsed(lines, key);
    EntriesOfEdited(lines, key, Line(key, '\'', value));
    LineEntry(key, '\'', value);
  }

  /** The last-wins parser reads the new value, exactly when no quote ends it; every other key reads as before. */
  lemma SetLineThenRead(text: Option<string>, key: string, value: string)
    requires PlainKey(key) && OneLine(value)
    ensures var before, after := ReadBack(text), ReadBack(Some(SetText(text, key, value)));
            && after[key := value] == before[key := value] && key in after
            && (after[key] == value <==> EndsFreeOf(value, IsSingleQuote) && EndsFreeOf(value, IsDoubleQuote))
  {
    var lines := LinesOf(text);
    var quoted := ['\''] + value + ['\''];
    SetTextEntries(text, key, value);
    LastWinsEdited(Entries(lines), Held(lines, key), Some((key, quoted)), map[]);
    PutTwice(ReadBack(text), key, UnquoteLast(quoted), value);
    UnquoteLastIff(value);
  }

  /** The first-wins parser reads the new value, exactly when no single quote ends it, unless env has the key. */
  lemma SetLineThenLoad(text: Option<string>, key: string, value: string, env: map<string, string>)
    requires PlainKey(key) && OneLine(value)
    ensures var before, after := Loaded(text, env), Loaded(Some(SetText(text, key, value)), env);
            if key in env then after == before
            else && after[key := value] == before[key := value] && key in after
                 && (after[key] == value <==> EndsFreeOf(value, IsSingleQuote))
  {
    var lines := LinesOf(text);
    var quoted := ['\''] + value + ['\''];
    SetTextEntries(text, key, value);
    if key in env {
      FirstWinsEditedKnown(Entries(lines), Held(lines, key), Some((key, quoted)), env);
    } else {
      FirstWinsEdited(Entries(lines), Held(lines, key), Some((key, quoted)), env);
      PutTwice(Loaded(text, env), key, UnquoteFirst(quoted), value);
      UnquoteFirstIff(value);
    }
  }
}
