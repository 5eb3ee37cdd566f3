/** The text operations of Python that the gateway's parsers and printers rest on. */
module Text {

  datatype Option<+T> = None | Some(value: T)

  lemma Associative<T>(a: seq<T>, b: seq<T>, c: seq<T>)
    ensures (a + b) + c == a + (b + c)
  {}

  // ---------- character classes ----------

  /** str.isspace for one character. */
  predicate IsSpace(c: char) {
    var n := c as int;
    || 0x09 <= n <= 0x0D || 0x1C <= n <= 0x20 || n == 0x85 || n == 0xA0 || n == 0x1680
    || 0x2000 <= n <= 0x200A || n == 0x2028 || n == 0x2029 || n == 0x202F || n == 0x205F || n == 0x3000
  }

  /** The characters at which str.splitlines ends a line. */
  predicate IsLineBreak(c: char) {
    var n := c as int;
    0x0A <= n <= 0x0D || 0x1C <= n <= 0x1E || n == 0x85 || n == 0x2028 || n == 0x2029
  }

  predicate IsNewline(c: char) { c == '\n' }

  predicate IsSingleQuote(c: char) { c == '\'' }

  predicate IsDoubleQuote(c: char) { c == '"' }

  // ---------- strip ----------

  /** The first position from `from` on whose character is not in p. */
  function SkipFrom(s: string, p: char -> bool, from: nat): (n: nat)
    requires from <= |s|
    ensures from <= n <= |s|
    ensures n < |s| ==> !p(s[n])
    ensures forall i :: from <= i < n ==> p(s[i])
    decreases |s| - from
  {
    if from < |s| && p(s[from]) then SkipFrom(s, p, from + 1) else from
  }

  /** The position after the last character before `to` that is not in p. */
  function SkipBack(s: string, p: char -> bool, to: nat): (n: nat)
    requires to <= |s|
    ensures n <= to
    ensures n > 0 ==> !p(s[n - 1])
    ensures forall i :: n <= i < to ==> p(s[i])
  {
    if to > 0 && p(s[to - 1]) then SkipBack(s, p, to - 1) else to
  }

  /** s.lstrip, for the characters in p. */
  function TrimStart(s: string, p: char -> bool): (r: string)
    ensures |r| <= |s| && r == s[|s| - |r|..]
    ensures r == [] || !p(r[0])
    ensures forall i :: 0 <= i < |s| - |r| ==> p(s[i])
  {
    s[SkipFrom(s, p, 0)..]
  }

  /** s.rstrip, for the characters in p. */
  function TrimEnd(s: string, p: char -> bool): (r: string)
    ensures |r| <= |s| && r == s[..|r|]
    ensures r == [] || !p(r[|r| - 1])
    ensures forall i :: |r| <= i < |s| ==> p(s[i])
  {
    s[..SkipBack(s, p, |s|)]
  }

  function Trim(s: string, p: char -> bool): string {
    TrimEnd(TrimStart(s, p), p)
  }

  function Strip(s: string): string { Trim(s, IsSpace) }

  lemma SkipFromUnique(s: string, p: char -> bool, from: nat, n: nat)
    requires from <= n <= |s| && (n < |s| ==> !p(s[n]))
    requires forall i :: from <= i < n ==> p(s[i])
    ensures SkipFrom(s, p, from) == n
    decreases n - from
  {}

  /** The result of stripping at one end is determined by its two properties. */
  lemma TrimEndUnique(s: string, n: nat, p: char -> bool)
    requires n <= |s| && (n > 0 ==> !p(s[n - 1]))
    requires forall i :: n <= i < |s| ==> p(s[i])
    ensures TrimEnd(s, p) == s[..n]
  {}

  /** Stripping takes exactly what stands around the outermost characters not in p. */
  lemma TrimAt(s: string, k: nat, m: nat, p: char -> bool)
    requires k < m <= |s| && !p(s[k]) && !p(s[m - 1])
    requires forall i :: 0 <= i < k || m <= i < |s| ==> p(s[i])
    ensures Trim(s, p) == s[k..m]
  {}

  /** A text with nothing to strip at either end is left alone. */
  lemma TrimKeeps(s: string, p: char -> bool)
    requires s == [] || (!p(s[0]) && !p(s[|s| - 1]))
    ensures Trim(s, p) == s
  {}

  predicate AllIn(s: string, p: char -> bool) {
    forall i :: 0 <= i < |s| ==> p(s[i])
  }

  /** Stripping wraps: characters of the class around a core that has none at its ends disappear. */
  lemma TrimWrapped(left: string, core: string, right: string, p: char -> bool)
    requires AllIn(left, p) && AllIn(right, p)
    requires core != [] && !p(core[0]) && !p(core[|core| - 1])
    ensures Trim(left + (core + right), p) == core
  {
    var s := left + (core + right);
    var k, m := |left|, |left| + |core|;
    assert forall i :: 0 <= i < k ==> s[i] == left[i];
    assert forall i :: k <= i < m ==> s[i] == core[i - k];
    assert forall i :: m <= i < |s| ==> s[i] == right[i - m];
    TrimAt(s, k, m, p);
    assert s[k..m] == core;
  }

  lemma TrimAll(s: string, p: char -> bool)
    requires AllIn(s, p)
    ensures Trim(s, p) == []
  {}

  // ---------- find ----------

  /** Where c first occurs, or the length of the text when it does not. */
  function IndexOf(s: string, c: char): (n: nat)
    ensures n <= |s|
    ensures Lacks(s, n, c)
    ensures n < |s| ==> s[n] == c
  {
    IndexFrom(s, c, 0)
  }

  function IndexFrom(s: string, c: char, from: nat): (n: nat)
    requires from <= |s|
    ensures from <= n <= |s|
    ensures forall i :: from <= i < n ==> s[i] != c
    ensures n < |s| ==> s[n] == c
    decreases |s| - from
  {
    if from == |s| || s[from] == c then from else IndexFrom(s, c, from + 1)
  }

  /** c does not occur among the first n characters. */
  predicate Lacks(s: string, n: nat, c: char)
    requires n <= |s|
  {
    forall i :: 0 <= i < n ==> s[i] != c
  }

  lemma IndexOfUnique(s: string, n: nat, c: char)
    requires n <= |s| && Lacks(s, n, c)
    requires n < |s| ==> s[n] == c
    ensures IndexOf(s, c) == n
  {}

  /** pat stands in s at position i. */
  predicate OccursAt(s: string, pat: string, i: nat) {
    i + |pat| <= |s| && forall k :: 0 <= k < |pat| ==> s[i + k] == pat[k]
  }

  /** `pat in s`. */
  predicate Occurs(s: string, pat: string) {
    exists i: nat | i <= |s| :: OccursAt(s, pat, i)
  }

  /** The last position of pat among 0..n, as rpartition looks it up. */
  function LastBefore(s: string, pat: string, n: nat): (r: Option<nat>)
    requires n <= |s|
    ensures r.None? ==> forall i: nat :: i <= n ==> !OccursAt(s, pat, i)
    ensures r.Some? ==> r.value <= n && OccursAt(s, pat, r.value)
    ensures r.Some? ==> forall i: nat :: r.value < i <= n ==> !OccursAt(s, pat, i)
  {
    if OccursAt(s, pat, n) then Some(n) else if n == 0 then None else LastBefore(s, pat, n - 1)
  }

  function LastIndexOf(s: string, pat: string): (r: Option<nat>)
    ensures r.Some? <==> Occurs(s, pat)
    ensures r.Some? ==> OccursAt(s, pat, r.value)
    ensures r.Some? ==> forall i: nat :: i > r.value ==> !OccursAt(s, pat, i)
  {
    LastBefore(s, pat, |s|)
  }

  /** s.rpartition(pat) without the middle: what precedes the last pat and what follows it. */
  function RPartition(s: string, pat: string): (string, string) {
    match LastIndexOf(s, pat)
    case None => ("", s)
    case Some(i) => (s[..i], s[i + |pat|..])
  }

  lemma RPartitionAt(s: string, pat: string, i: nat)
    requires OccursAt(s, pat, i)
    requires forall j: nat :: j > i ==> !OccursAt(s, pat, j)
    ensures RPartition(s, pat) == (s[..i], s[i + |pat|..])
  {}

  // ---------- split and join on blanks ----------

  /** What str.split() can return as one word. */
  predicate IsWord(w: string) {
    w != [] && forall i :: 0 <= i < |w| ==> !IsSpace(w[i])
  }

  predicate AllWords(ws: seq<string>) {
    forall w :: w in ws ==> IsWord(w)
  }

  function WordEnd(s: string): (n: nat)
    ensures n <= |s|
    ensures forall i :: 0 <= i < n ==> !IsSpace(s[i])
    ensures n < |s| ==> IsSpace(s[n])
  {
    if s == [] || IsSpace(s[0]) then 0 else 1 + WordEnd(s[1..])
  }

  /** The text cut at its blanks. */
  function Words(s: string): (ws: seq<string>)
    ensures AllWords(ws)
    decreases |s|
  {
    if s == [] then []
    else if IsSpace(s[0]) then Words(s[1..])
    else
      var n := WordEnd(s);
      assert IsWord(s[..n]);
      [s[..n]] + Words(s[n..])
  }

  /** The words with one blank between them. */
  function Spaced(ws: seq<string>): string {
    if ws == [] then []
    else if |ws| == 1 then ws[0]
    else ws[0] + " " + Spaced(ws[1..])
  }

  lemma {:induction false} WordEndAt(w: string, rest: string)
    requires IsWord(w)
    requires rest == [] || IsSpace(rest[0])
    ensures WordEnd(w + rest) == |w|
  {
    if |w| == 1 {
      assert (w + rest)[1..] == rest;
    } else {
      assert (w + rest)[1..] == w[1..] + rest;
      WordEndAt(w[1..], rest);
    }
  }

  lemma FirstWord(w: string, rest: string)
    requires IsWord(w)
    requires rest == [] || IsSpace(rest[0])
    ensures Words(w + rest) == [w] + Words(rest)
  {
    WordEndAt(w, rest);
    assert (w + rest)[0] == w[0];
    assert (w + rest)[..|w|] == w && (w + rest)[|w|..] == rest;
  }

  lemma SpacedStep(ws: seq<string>)
    requires |ws| > 1
    ensures Spaced(ws) == ws[0] + (" " + Spaced(ws[1..]))
  {}

  lemma BlankFirst(s: string)
    ensures Words(" " + s) == Words(s)
  {}

  /** Splitting undoes joining. */
  lemma {:induction false} WordsOfSpaced(ws: seq<string>)
    requires AllWords(ws)
    ensures Words(Spaced(ws)) == ws
  {
    if |ws| == 1 {
      assert IsWord(ws[0]);
      FirstWord(ws[0], []);
      assert ws[0] + [] == ws[0];
    } else if |ws| > 1 {
      var more := Spaced(ws[1..]);
      SpacedStep(ws);
      assert IsWord(ws[0]);
      FirstWord(ws[0], " " + more);
      BlankFirst(more);
      WordsOfSpaced(ws[1..]);
    }
  }

  lemma SpacedEmpty(ws: seq<string>)
    requires AllWords(ws)
    ensures Spaced(ws) == [] <==> ws == []
  {
    if ws != [] {
      assert IsWord(ws[0]);
    }
  }

  // ---------- decimal numbers ----------

  predicate IsDigit(c: char) { '0' <= c <= '9' }

  /** printf %s of a byte count. */
  function Decimal(n: nat): (s: string)
    ensures s != [] && forall i :: 0 <= i < |s| ==> IsDigit(s[i])
  {
    var digit := ('0' as int + n % 10) as char;
    if n < 10 then [digit] else Decimal(n / 10) + [digit]
  }

  /** int(s) for a text of plain digits; None stands for ValueError. */
  function ParseNat(s: string): Option<nat> {
    if s == [] || !IsDigit(s[|s| - 1]) then None
    else
      var last := s[|s| - 1] as int - '0' as int;
      if |s| == 1 then Some(last)
      else
        match ParseNat(s[..|s| - 1])
        case None => None
        case Some(high) => Some(10 * high + last)
  }

  /** Exactly the non-empty texts of digits parse. */
  lemma {:induction false} ParsesIffDigits(s: string)
    ensures ParseNat(s).Some? <==> s != [] && AllIn(s, IsDigit)
  {
    if |s| > 1 && IsDigit(s[|s| - 1]) {
      ParsesIffDigits(s[..|s| - 1]);
    }
  }

  lemma {:induction false} ParseOfDecimal(n: nat)
    ensures ParseNat(Decimal(n)) == Some(n)
  {
    var digit := ('0' as int + n % 10) as char;
    assert digit as int - '0' as int == n % 10;
    if n >= 10 {
      ParseOfDecimal(n / 10);
      assert Decimal(n) == Decimal(n / 10) + [digit];
      assert Decimal(n)[..|Decimal(n)| - 1] == Decimal(n / 10);
    }
  }

  // ---------- streams ----------

  /** The text of a stream: its chunks up to the first empty one. */
  function Arrived(chunks: seq<string>): string {
    if chunks == [] || chunks[0] == "" then "" else chunks[0] + Arrived(chunks[1..])
  }

  lemma {:induction false} ArrivedStep(chunks: seq<string>, i: nat)
    requires i < |chunks| && forall j :: 0 <= j < i ==> chunks[j] != ""
    ensures Arrived(chunks[..i + 1]) == Arrived(chunks[..i]) + chunks[i]
    ensures chunks[i] == "" ==> Arrived(chunks) == Arrived(chunks[..i])
  {
    if i == 0 {
      assert chunks[..1] == [chunks[0]] && chunks[..1][1..] == [];
    } else {
      ArrivedStep(chunks[1..], i - 1);
      assert chunks[..i + 1][1..] == chunks[1..][..i];
      assert chunks[..i][1..] == chunks[1..][..i - 1];
    }
  }

  /** Reading stops at the end of the chunks or at the first empty one. */
  lemma ArrivedAll(chunks: seq<string>, i: nat)
    requires i <= |chunks| && forall j :: 0 <= j < i ==> chunks[j] != ""
    requires i == |chunks| || chunks[i] == ""
    ensures Arrived(chunks) == Arrived(chunks[..i])
  {
    if i < |chunks| {
      ArrivedStep(chunks, i);
    } else {
      assert chunks[..i] == chunks;
    }
  }
}
