/** Scope texts: blank-separated words, as they travel in requests and are stored in the tables. */
module Scopes {
  import opened Text

  const SCOPES: seq<string> := ["fleet.read", "fleet.exec", "fleet.write", "fleet.admin"]

  const OFFLINE := "offline_access"

  /** The words of ws that are in keep. */
  function Filter(ws: seq<string>, keep: set<string>): (r: seq<string>)
    ensures forall w :: w in r <==> w in ws && w in keep
  {
    if ws == [] then []
    else (if ws[0] in keep then [ws[0]] else []) + Filter(ws[1..], keep)
  }

  /** The words without repeats: the first occurrence of each stays. */
  function Distinct(ws: seq<string>): (r: seq<string>)
    ensures forall w :: w in r <==> w in ws
    ensures NoRepeats(r)
  {
    if ws == [] then []
    else
      var front := Distinct(ws[..|ws| - 1]);
      var last := ws[|ws| - 1];
      assert ws == ws[..|ws| - 1] + [last];
      if last in front then front else front + [last]
  }

  ghost predicate NoRepeats(ws: seq<string>) {
    forall i, j :: 0 <= i < j < |ws| ==> ws[i] != ws[j]
  }

  function WordSet(text: string): set<string> {
    set w | w in Words(text)
  }

  /** The requested words that may stay. */
  function Kept(want: seq<string>, allowed: seq<string>): (r: seq<string>)
    ensures NoRepeats(r)
    ensures forall w :: w in r <==> w in want && (w in allowed || w == OFFLINE)
  {
    Distinct(Filter(want, (set w | w in allowed) + {OFFLINE}))
  }

  /** _norm_scopes */
  function Norm(requested: string, allowed: seq<string>): string {
    var want := Words(requested);
    if want == [] then Spaced(allowed)
    else
      var kept := Spaced(Kept(want, allowed));
      if kept == "" then Spaced(allowed) else kept
  }

  // ---------- what normalising promises ----------

  lemma {:induction false} FilterKeepsAll(ws: seq<string>, keep: set<string>)
    requires forall w :: w in ws ==> w in keep
    ensures Filter(ws, keep) == ws
  {
    if ws != [] {
      FilterKeepsAll(ws[1..], keep);
      assert ws == [ws[0]] + ws[1..];
    }
  }

  lemma {:induction false} DistinctKeepsAll(ws: seq<string>)
    requires NoRepeats(ws)
    ensures Distinct(ws) == ws
  {
    if ws != [] {
      DistinctKeepsAll(ws[..|ws| - 1]);
      assert ws == ws[..|ws| - 1] + [ws[|ws| - 1]];
    }
  }

  lemma NormIsSpaced(requested: string, allowed: seq<string>)
    requires AllWords(allowed)
    ensures var kept := Kept(Words(requested), allowed);
            var result := if kept == [] then allowed else kept;
            && AllWords(result)
            && Norm(requested, allowed) == Spaced(result)
            && Words(Norm(requested, allowed)) == result
  {
    var kept := Kept(Words(requested), allowed);
    assert AllWords(kept) by {
      forall w | w in kept ensures IsWord(w) {
        assert w in Words(requested);
      }
    }
    SpacedEmpty(kept);
    WordsOfSpaced(allowed);
    WordsOfSpaced(kept);
  }

  /**
   * The words of a normalised scope: what was asked for, cut down to the allowed words and
   * offline_access, or everything allowed when that leaves nothing.
   */
  lemma NormWords(requested: string, allowed: seq<string>)
    requires AllWords(allowed)
    ensures var asked := set w | w in Words(requested) && (w in allowed || w == OFFLINE);
            var result := Words(Norm(requested, allowed));
            && (set w | w in result) == (if asked == {} then set w | w in allowed else asked)
            && (NoRepeats(allowed) ==> NoRepeats(result))
  {
    NormIsSpaced(requested, allowed);
    var kept := Kept(Words(requested), allowed);
    var asked := set w | w in Words(requested) && (w in allowed || w == OFFLINE);
    assert asked == set w | w in kept;
    if kept != [] {
      assert kept[0] in asked;
    }
  }

  /** Normalising twice is normalising once. */
  lemma NormIdempotent(requested: string, allowed: seq<string>)
    requires AllWords(allowed) && NoRepeats(allowed)
    ensures Norm(Norm(requested, allowed), allowed) == Norm(requested, allowed)
  {
    NormIsSpaced(requested, allowed);
    var once := Norm(requested, allowed);
    NormIsSpaced(once, allowed);
    FilterKeepsAll(Words(once), (set w | w in allowed) + {OFFLINE});
    DistinctKeepsAll(Words(once));
  }

  lemma ScopesAreWords()
    ensures AllWords(SCOPES) && NoRepeats(SCOPES) && IsWord(OFFLINE)
  {}

  /** With the server's own list the result is never empty and names no unknown scope. */
  lemma NormOfScopes(requested: string)
    ensures var result := Norm(requested, SCOPES);
            && Words(result) != []
            && (forall w :: w in Words(result) ==> w in SCOPES || w == OFFLINE)
            && Norm(result, SCOPES) == result
  {
    ScopesAreWords();
    NormWords(requested, SCOPES);
    NormIdempotent(requested, SCOPES);
    var result := Words(Norm(requested, SCOPES));
    var asked := set w | w in Words(requested) && (w in SCOPES || w == OFFLINE);
    assert SCOPES[0] in set w | w in SCOPES;
    var words := set w | w in result;
    assert words == if asked == {} then set w | w in SCOPES else asked;
    assert result == [] ==> words == {};
    assert forall w :: w in result ==> w in words;
  }

  // ---------- scopes carried along ----------

  /** The approve branch: the words whose box is ticked, and offline_access. */
  function Picked(scope: string, boxes: set<string>): (r: seq<string>)
    ensures forall w :: w in r ==> w in Words(scope) && (w in boxes || w == OFFLINE)
  {
    Filter(Words(scope), boxes + {OFFLINE})
  }

  /** The words of a scope that are also in the bound. */
  function Within(scope: string, bound: string): string {
    Spaced(Filter(Words(scope), WordSet(bound)))
  }

  /** The scope of a refresh: what the request asks for, inside what the token holds. */
  function Refreshed(asked: string, held: string): string {
    var scope := Within(Norm(if asked == "" then held else asked, SCOPES), held);
    if scope == "" then held else scope
  }

  /** The scope claim of an access token. */
  function Claimed(scope: string): string {
    Spaced(Filter(Words(scope), WordSet(scope) - {OFFLINE}))
  }

  lemma FilterIsWords(ws: seq<string>, keep: set<string>)
    requires AllWords(ws)
    ensures AllWords(Filter(ws, keep))
  {}

  /** The words a scope request stands for: the known ones, or all when none is known. */
  function Wanted(text: string): set<string> {
    var known := set w | w in Words(text) && (w in SCOPES || w == OFFLINE);
    if known == {} then set w | w in SCOPES else known
  }

  lemma WantedIsNorm(text: string)
    ensures WordSet(Norm(text, SCOPES)) == Wanted(text)
  {
    ScopesAreWords();
    NormWords(text, SCOPES);
  }

  lemma WithinWords(scope: string, bound: string)
    ensures WordSet(Within(scope, bound)) == WordSet(scope) * WordSet(bound)
    ensures Within(scope, bound) == "" <==> WordSet(scope) * WordSet(bound) == {}
  {
    var kept := Filter(Words(scope), WordSet(bound));
    FilterIsWords(Words(scope), WordSet(bound));
    WordsOfSpaced(kept);
    SpacedEmpty(kept);
    assert WordSet(scope) * WordSet(bound) == set w | w in kept;
    if kept != [] {
      assert kept[0] in WordSet(scope) * WordSet(bound);
    }
  }

  /**
   * The scope of a refresh: the wanted words that are held, and all that is held when that leaves nothing
   * or nothing was asked for.
   */
  lemma RefreshedWords(asked: string, held: string)
    ensures var kept := Wanted(if asked == "" then held else asked) * WordSet(held);
            WordSet(Refreshed(asked, held)) == if kept == {} then WordSet(held) else kept
  {
    var text := if asked == "" then held else asked;
    WantedIsNorm(text);
    WithinWords(Norm(text, SCOPES), held);
  }

  /** So a refresh never widens a scope, and never empties it. */
  lemma RefreshedShrinks(asked: string, held: string)
    ensures WordSet(Refreshed(asked, held)) <= WordSet(held)
    ensures WordSet(held) != {} ==> WordSet(Refreshed(asked, held)) != {}
  {
    RefreshedWords(asked, held);
  }

  lemma ClaimedWords(scope: string)
    ensures WordSet(Claimed(scope)) == WordSet(scope) - {OFFLINE}
  {
    var kept := Filter(Words(scope), WordSet(scope) - {OFFLINE});
    FilterIsWords(Words(scope), WordSet(scope) - {OFFLINE});
    WordsOfSpaced(kept);
  }

  lemma PickedWords(scope: string, boxes: set<string>)
    ensures WordSet(Spaced(Picked(scope, boxes))) == WordSet(scope) * (boxes + {OFFLINE})
  {
    FilterIsWords(Words(scope), boxes + {OFFLINE});
    WordsOfSpaced(Picked(scope, boxes));
  }
}
