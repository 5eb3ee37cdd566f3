/** What an edited env file says to its two parsers, and what a written one says. */
module EnvGuarantees {
  import opened EnvFile

  // ---------- the edited file ----------

  /** The position of the first holder, or the number of lines. */
  function FirstHeld(held: seq<bool>): (n: nat)
    ensures n <= |held| && (n < |held| ==> held[n])
    ensures forall i :: 0 <= i < n ==> !held[i]
  {
    if held == [] || held[0] then 0 else 1 + FirstHeld(held[1..])
  }

  /** The lines that do not hold the key, in their order. */
  function Others<T>(lines: seq<T>, held: seq<bool>): seq<T>
    requires |held| == |lines|
  {
    if lines == [] then []
    else (if held[0] then [] else [lines[0]]) + Others(lines[1..], held[1..])
  }

  lemma {:induction false} OthersOfNone<T>(lines: seq<T>, held: seq<bool>)
    requires |held| == |lines| && forall i :: 0 <= i < |held| ==> !held[i]
    ensures Others(lines, held) == lines
  {
    if lines != [] {
      OthersOfNone(lines[1..], held[1..]);
    }
  }

  lemma {:induction false} RewrittenLater<T>(lines: seq<T>, held: seq<bool>, line: T)
    requires |held| == |lines|
    ensures Rewritten(lines, held, line, true) == Others(lines, held)
  {
    if lines != [] {
      RewrittenLater(lines[1..], held[1..], line);
    }
  }

  /** The unheld lines after the first holder. */
  function Behind<T>(lines: seq<T>, held: seq<bool>): seq<T>
    requires |held| == |lines|
  {
    var k := FirstHeld(held);
    if k == |lines| then [] else Others(lines[k + 1..], held[k + 1..])
  }

  lemma BehindShifts<T>(lines: seq<T>, held: seq<bool>)
    requires |held| == |lines| && lines != [] && !held[0]
    ensures FirstHeld(held) == 1 + FirstHeld(held[1..])
    ensures Behind(lines, held) == Behind(lines[1..], held[1..])
  {}

  lemma FrontShifts<T>(lines: seq<T>, k: nat, rest: seq<T>)
    requires k < |lines|
    ensures lines[..k + 1] + rest == [lines[0]] + (lines[1..][..k] + rest)
  {}

  /** The loop keeps what stands before the first holder, replaces it, and drops the later ones. */
  lemma {:induction false} RewrittenForm<T>(lines: seq<T>, held: seq<bool>, line: T)
    requires |held| == |lines|
    ensures var k := FirstHeld(held);
            var middle := if k == |lines| then [] else [line];
            Rewritten(lines, held, line, false) == lines[..k] + (middle + Behind(lines, held))
    decreases |lines|
  {
    if lines == [] {
    } else if held[0] {
      RewrittenLater(lines[1..], held[1..], line);
      assert lines[..0] == [];
    } else {
      var k := FirstHeld(held[1..]);
      var middle := if k + 1 == |lines| then [] else [line];
      RewrittenForm(lines[1..], held[1..], line);
      BehindShifts(lines, held);
      FrontShifts(lines, k, middle + Behind(lines, held));
    }
  }

  lemma AnyIsFirst(held: seq<bool>)
    ensures Any(held, |held|) <==> FirstHeld(held) < |held|
  {}

  /** One line for the key, where its first line stood or at the end; every other line stays, in order. */
  function Formed<T>(lines: seq<T>, held: seq<bool>, line: T): seq<T>
    requires |held| == |lines|
  {
    lines[..FirstHeld(held)] + ([line] + Behind(lines, held))
  }

  lemma FormedAtEnd<T>(lines: seq<T>, held: seq<bool>, line: T)
    requires |held| == |lines| && FirstHeld(held) == |lines|
    ensures Formed(lines, held, line) == lines + [line]
    ensures lines[..FirstHeld(held)] + ([] + Behind(lines, held)) == lines
  {}

  lemma EditedForm(lines: seq<string>, key: string, line: string)
    ensures Edited(lines, key, line) == Formed(lines, Held(lines, key), line)
  {
    var held := Held(lines, key);
    AnyIsFirst(held);
    RewrittenForm(lines, held, line);
    EditedIs(lines, key, line);
    if FirstHeld(held) == |lines| {
      FormedAtEnd(lines, held, line);
    }
  }

  // ---------- one line for the key ----------

  /** hold says of every line whether it is one of those the class is about. */
  predicate Marks<T(!new)>(lines: seq<T>, hold: T -> bool, held: seq<bool>) {
    |held| == |lines| && forall i :: 0 <= i < |lines| ==> held[i] == hold(lines[i])
  }

  lemma {:induction false} OthersUnmarked<T(!new)>(lines: seq<T>, hold: T -> bool, held: seq<bool>)
    requires Marks(lines, hold, held)
    ensures forall i :: 0 <= i < |Others(lines, held)| ==> !hold(Others(lines, held)[i])
  {
    if lines != [] {
      OthersUnmarked(lines[1..], hold, held[1..]);
    }
  }

  lemma {:induction false} OthersFrom<T>(lines: seq<T>, held: seq<bool>, k: nat)
    requires |held| == |lines| && k <= |lines| && forall i :: 0 <= i < k ==> !held[i]
    ensures Others(lines, held) == lines[..k] + Others(lines[k..], held[k..])
    decreases |lines|
  {
    if k == 0 {
      assert lines[0..] == lines && held[0..] == held;
    } else {
      OthersFrom(lines[1..], held[1..], k - 1);
      assert lines[1..][k - 1..] == lines[k..] && held[1..][k - 1..] == held[k..];
      FrontShifts(lines, k - 1, Others(lines[k..], held[k..]));
    }
  }

  /** A file of this form has its one marked line at k, and the rest is what it was. */
  lemma FormIsMarked<T(!new)>(front: seq<T>, line: T, back: seq<T>, hold: T -> bool, held: seq<bool>)
    requires Marks(front + ([line] + back), hold, held) && hold(line)
    requires forall i :: 0 <= i < |front| ==> !hold(front[i])
    requires forall i :: 0 <= i < |back| ==> !hold(back[i])
    ensures forall i :: 0 <= i < |held| ==> (held[i] <==> i == |front|)
  {}

  lemma OthersAround<T>(file: seq<T>, held: seq<bool>, k: nat)
    requires |held| == |file| && k < |file|
    requires forall i :: 0 <= i < |held| ==> (held[i] <==> i == k)
    ensures Others(file, held) == file[..k] + file[k + 1..]
  {
    OthersFrom(file, held, k);
    var rest, later := file[k..], held[k..];
    assert rest[1..] == file[k + 1..];
    assert Others(rest, later) == Others(rest[1..], later[1..]);
    OthersOfNone(rest[1..], later[1..]);
  }

  lemma FormKeepsOthers<T>(lines: seq<T>, held: seq<bool>, line: T, after: seq<T>, marked: seq<bool>)
    requires |held| == |lines| && |marked| == |after| && after == Formed(lines, held, line)
    requires forall i :: 0 <= i < |marked| ==> (marked[i] <==> i == FirstHeld(held))
    ensures Others(after, marked) == Others(lines, held)
  {
    var k := FirstHeld(held);
    OthersAround(after, marked, k);
    assert after[..k] == lines[..k] && after[k + 1..] == Behind(lines, held);
    OthersFrom(lines, held, k);
    BehindIs(lines, held);
  }

  lemma BehindIs<T>(lines: seq<T>, held: seq<bool>)
    requires |held| == |lines|
    ensures Others(lines[FirstHeld(held)..], held[FirstHeld(held)..]) == Behind(lines, held)
  {
    var k := FirstHeld(held);
    if k < |lines| {
      assert lines[k..][1..] == lines[k + 1..] && held[k..][1..] == held[k + 1..] && held[k..][0];
    }
  }

  lemma FormIsStable<T>(after: seq<T>, marked: seq<bool>, k: nat)
    requires |marked| == |after| && k < |after|
    requires forall i :: 0 <= i < |marked| ==> (marked[i] <==> i == k)
    ensures Formed(after, marked, after[k]) == after
  {
    assert FirstHeld(marked) == k by { assert marked[k]; }
    OthersOfNone(after[k + 1..], marked[k + 1..]);
    Cut(after, k);
  }

  lemma Cut<T>(lines: seq<T>, k: nat)
    requires k < |lines|
    ensures lines[..k] + ([lines[k]] + lines[k + 1..]) == lines
  {}

  lemma LineIsHeld(key: string, value: string)
    requires PlainKey(key)
    ensures Holds(Line(key, '\'', value), key)
  {
    LineEntry(key, '\'', value);
    EntryIsHeld(Line(key, '\'', value), key);
  }

  /** Exactly one line of the form is held: the new one. */
  lemma FormHoldsOnce(lines: seq<string>, key: string, line: string, after: seq<string>)
    requires Holds(line, key) && after == Formed(lines, Held(lines, key), line)
    ensures var k := FirstHeld(Held(lines, key));
            && k < |after| && after[k] == line
            && forall i :: 0 <= i < |after| ==> (Held(after, key)[i] <==> i == k)
  {
    var held := Held(lines, key);
    var k, hold := FirstHeld(held), (s: string) => Holds(s, key);
    if k < |lines| {
      OthersUnmarked(lines[k + 1..], hold, held[k + 1..]);
    }
    FormIsMarked(lines[..k], line, Behind(lines, held), hold, Held(after, key));
  }

  /** After set_env_line exactly one line holds the key, at the place of its first holder or at the end. */
  lemma EditedHoldsOnce(lines: seq<string>, key: string, value: string)
    requires PlainKey(key)
    ensures var after, k := Edited(lines, key, Line(key, '\'', value)), FirstHeld(Held(lines, key));
            && k < |after| && after[k] == Line(key, '\'', value)
            && forall i :: 0 <= i < |after| ==> (Held(after, key)[i] <==> i == k)
  {
    var line := Line(key, '\'', value);
    LineIsHeld(key, value);
    EditedForm(lines, key, line);
    FormHoldsOnce(lines, key, line, Edited(lines, key, line));
  }

  /** Every other line stays, in its order. */
  lemma EditedKeepsOthers(lines: seq<string>, key: string, value: string)
    requires PlainKey(key)
    ensures var after := Edited(lines, key, Line(key, '\'', value));
            Others(after, Held(after, key)) == Others(lines, Held(lines, key))
  {
    var line := Line(key, '\'', value);
    var after := Edited(lines, key, line);
    EditedHoldsOnce(lines, key, value);
    EditedForm(lines, key, line);
    FormKeepsOthers(lines, Held(lines, key), line, after, Held(after, key));
  }

  /** Repeating it changes nothing. */
  lemma EditingTwiceIsOnce(lines: seq<string>, key: string, value: string)
    requires PlainKey(key)
    ensures var line := Line(key, '\'', value);
            Edited(Edited(lines, key, line), key, line) == Edited(lines, key, line)
  {
    var line := Line(key, '\'', value);
    var after := Edited(lines, key, line);
    EditedHoldsOnce(lines, key, value);
    EditedForm(after, key, line);
    FormIsStable(after, Held(after, key), FirstHeld(Held(lines, key)));
  }
}
