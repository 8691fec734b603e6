/** The text normalisers of crawler_jus/util.py (copied verbatim into
    crawlers/crawler_tjal.py), applied to every field the crawler extracts.

    `RemoveBlankSpace` is Python's `" ".join(txt.split()).strip()`;
    `RemoveSpecialCharacters` is the fixed chain of five `re.sub` calls.
    Both regular-expression `\s` and `str.split()`/`str.strip()` use Python's
    notion of whitespace, modelled once as `IsSpace`. */
module Util {

  // ---------------------------------------------------------------------------
  // Character classes
  // ---------------------------------------------------------------------------

  /** Python's `str.isspace()`, which is also what `\s`, `split()` and `strip()` match. */
  predicate IsSpace(c: char) {
    var n := c as int;
    (9 <= n <= 13) || (28 <= n <= 32) || n == 0x85 || n == 0xA0 || n == 0x1680
    || (0x2000 <= n <= 0x200A) || n == 0x2028 || n == 0x2029 || n == 0x202F
    || n == 0x205F || n == 0x3000
  }

  /** The characters of the class `[\\\/,;<>\.\?\/\!\*\-\+\_\=\@\#%:\(\)]`. */
  const SPECIAL: string := "\\/,;<>.?!*-+_=@#%:()"

  predicate IsSpecial(c: char) {
    c in SPECIAL
  }

  // ---------------------------------------------------------------------------
  // Predicates describing normalised text
  // ---------------------------------------------------------------------------

  predicate NoEdgeSpace(s: string) {
    s == [] || (!IsSpace(s[0]) && !IsSpace(s[|s| - 1]))
  }

  /** Whitespace at both `i` and `i + 1`. */
  predicate DoubleSpaceAt(s: string, i: int)
    requires 0 <= i < |s| - 1
  {
    IsSpace(s[i]) && IsSpace(s[i + 1])
  }

  predicate NoDoubleSpace(s: string) {
    forall i :: 0 <= i < |s| - 1 ==> !DoubleSpaceAt(s, i)
  }

  predicate OnlyPlainSpace(s: string) {
    forall i :: 0 <= i < |s| ==> IsSpace(s[i]) ==> s[i] == ' '
  }

  predicate NoSpecial(s: string) {
    forall i :: 0 <= i < |s| ==> !IsSpecial(s[i])
  }

  predicate AllSpace(s: string) {
    forall i :: 0 <= i < |s| ==> IsSpace(s[i])
  }

  /** No whitespace at either end and never two whitespace characters in a row. */
  predicate Tidy(s: string) {
    NoEdgeSpace(s) && NoDoubleSpace(s)
  }

  /** Words separated by single ordinary spaces: what `remove_blank_space` produces. */
  predicate Collapsed(s: string) {
    Tidy(s) && OnlyPlainSpace(s)
  }

  /** A word of `str.split()`: non-empty, no whitespace. */
  predicate IsWord(w: string) {
    w != [] && forall i :: 0 <= i < |w| ==> !IsSpace(w[i])
  }

  /** `s` with every whitespace character deleted: the text a normaliser must keep. */
  function DropSpaces(s: string): (r: string)
    ensures |r| <= |s|
  {
    if s == [] then []
    else if IsSpace(s[0]) then DropSpaces(s[1..])
    else [s[0]] + DropSpaces(s[1..])
  }

  // ---------------------------------------------------------------------------
  // remove_blank_space
  // ---------------------------------------------------------------------------

  /** Length of the longest prefix of `s` without whitespace. */
  function WordLength(s: string): (n: nat)
    ensures n <= |s|
    ensures forall i :: 0 <= i < n ==> !IsSpace(s[i])
    ensures n < |s| ==> IsSpace(s[n])
  {
    if s == [] || IsSpace(s[0]) then 0 else 1 + WordLength(s[1..])
  }

  /** Python's `str.split()` with no separator: the maximal runs of non-whitespace. */
  function Split(s: string): (ws: seq<string>)
    ensures forall k :: 0 <= k < |ws| ==> IsWord(ws[k])
    decreases |s|
  {
    if s == [] then []
    else if IsSpace(s[0]) then Split(s[1..])
    else
      var n := WordLength(s);
      [s[..n]] + Split(s[n..])
  }

  /** Python's `" ".join(ws)`. */
  function Join(ws: seq<string>): string {
    if |ws| == 0 then ""
    else if |ws| == 1 then ws[0]
    else ws[0] + " " + Join(ws[1..])
  }

  function Concat(ws: seq<string>): string {
    if ws == [] then "" else ws[0] + Concat(ws[1..])
  }

  /** Leading whitespace removed (`re.sub(r"^\s+", "", s)`, and half of `str.strip()`). */
  function TrimStart(s: string): (r: string)
    ensures |r| <= |s|
  {
    if s != [] && IsSpace(s[0]) then TrimStart(s[1..]) else s
  }

  /** Trailing whitespace removed (`re.sub(r"\s+$", "", s)`, and half of `str.strip()`). */
  function TrimEnd(s: string): (r: string)
    ensures |r| <= |s|
  {
    if s != [] && IsSpace(s[|s| - 1]) then TrimEnd(s[..|s| - 1]) else s
  }

  /** Python's `str.strip()` with no argument. */
  function Strip(s: string): string {
    TrimEnd(TrimStart(s))
  }

  /** crawler_jus/util.py `remove_blank_space`. */
  function RemoveBlankSpace(txt: string): string {
    Strip(Join(Split(txt)))
  }

  // ---------------------------------------------------------------------------
  // remove_special_characters
  // ---------------------------------------------------------------------------

  /** `re.sub(r"[<SPECIAL>]+", "", s)`: every special character deleted. */
  function DropSpecial(s: string): (r: string)
    ensures NoSpecial(r)
  {
    if s == [] then []
    else if IsSpecial(s[0]) then DropSpecial(s[1..])
    else [s[0]] + DropSpecial(s[1..])
  }

  /** `re.sub(r"\(\)", "", s)`: each non-overlapping "()" deleted, scanning left to right. */
  function DropEmptyParens(s: string): string {
    if |s| < 2 then s
    else if s[0] == '(' && s[1] == ')' then DropEmptyParens(s[2..])
    else [s[0]] + DropEmptyParens(s[1..])
  }

  /** Length of the run of whitespace that starts `s`. */
  function SpaceRunLength(s: string): (n: nat)
    ensures n <= |s|
    ensures forall i :: 0 <= i < n ==> IsSpace(s[i])
    ensures n < |s| ==> !IsSpace(s[n])
  {
    if s != [] && IsSpace(s[0]) then 1 + SpaceRunLength(s[1..]) else 0
  }

  /** `re.sub(r"\s{2,}", " ", s)`: each maximal run of two or more whitespace
      characters becomes one space; a lone whitespace character is left as it is. */
  function CollapseRuns(s: string): string
    decreases |s|
  {
    if s == [] then []
    else if !IsSpace(s[0]) then [s[0]] + CollapseRuns(s[1..])
    else
      var n := SpaceRunLength(s);
      (if n >= 2 then " " else [s[0]]) + CollapseRuns(s[n..])
  }

  /** crawler_jus/util.py `remove_special_characters`. */
  function RemoveSpecialCharacters(texto: string): string {
    TrimEnd(TrimStart(CollapseRuns(DropEmptyParens(DropSpecial(texto)))))
  }

  // ---------------------------------------------------------------------------
  // str.replace
  // ---------------------------------------------------------------------------

  /** Python's `s.replace(c, "")` for a single character `c`: every `c` deleted,
      everything else kept in order. */
  function DeleteChar(s: string, c: char): (r: string)
    ensures |r| <= |s|
    ensures forall i :: 0 <= i < |r| ==> r[i] != c
    ensures forall x :: x != c ==> multiset(r)[x] == multiset(s)[x]
    ensures IsSpace(c) ==> DropSpaces(r) == DropSpaces(s)
  {
    if s == [] then []
    else
      assert s == [s[0]] + s[1..];
      if s[0] == c then DeleteChar(s[1..], c)
      else [s[0]] + DeleteChar(s[1..], c)
  }

  // ---------------------------------------------------------------------------
  // Helper lemmas
  // ---------------------------------------------------------------------------

  lemma {:induction false} DropSpacesAppend(a: string, b: string)
    ensures DropSpaces(a + b) == DropSpaces(a) + DropSpaces(b)
  {
    if a == [] {
      assert a + b == b;
    } else {
      assert (a + b)[0] == a[0];
      assert (a + b)[1..] == a[1..] + b;
      DropSpacesAppend(a[1..], b);
    }
  }

  lemma {:induction false} DropSpacesAllSpace(s: string)
    ensures DropSpaces(s) == [] <==> AllSpace(s)
  {
    if s != [] {
      DropSpacesAllSpace(s[1..]);
      if AllSpace(s) {
        assert AllSpace(s[1..]);
      } else if IsSpace(s[0]) {
        assert !AllSpace(s[1..]) by {
          var i :| 0 <= i < |s| && !IsSpace(s[i]);
          assert i > 0 && !IsSpace(s[1..][i - 1]);
        }
      }
    }
  }

  lemma {:induction false} DropSpacesOfWord(w: string)
    requires forall i :: 0 <= i < |w| ==> !IsSpace(w[i])
    ensures DropSpaces(w) == w
  {
    if w != [] {
      DropSpacesOfWord(w[1..]);
    }
  }

  lemma {:induction false} TrimStartFacts(s: string)
    ensures TrimStart(s) == s[|s| - |TrimStart(s)|..]
    ensures TrimStart(s) == [] || !IsSpace(TrimStart(s)[0])
    ensures DropSpaces(TrimStart(s)) == DropSpaces(s)
  {
    if s != [] && IsSpace(s[0]) {
      TrimStartFacts(s[1..]);
    }
  }

  lemma {:induction false} TrimEndFacts(s: string)
    ensures TrimEnd(s) == s[..|TrimEnd(s)|]
    ensures TrimEnd(s) == [] || !IsSpace(TrimEnd(s)[|TrimEnd(s)| - 1])
    ensures DropSpaces(TrimEnd(s)) == DropSpaces(s)
  {
    if s != [] && IsSpace(s[|s| - 1]) {
      var t := s[..|s| - 1];
      TrimEndFacts(t);
      assert s == t + [s[|s| - 1]];
      DropSpacesAppend(t, [s[|s| - 1]]);
    }
  }

  /** Slices keep the absence of doubled whitespace, of non-plain spaces and of special characters. */
  lemma SliceKeepsShape(s: string, i: nat, j: nat)
    requires i <= j <= |s|
    ensures NoDoubleSpace(s) ==> NoDoubleSpace(s[i..j])
    ensures OnlyPlainSpace(s) ==> OnlyPlainSpace(s[i..j])
    ensures NoSpecial(s) ==> NoSpecial(s[i..j])
    ensures j == |s| ==> s[i..j] == s[i..]
  {
    var t := s[i..j];
    if NoDoubleSpace(s) {
      forall k | 0 <= k < |t| - 1 ensures !DoubleSpaceAt(t, k) {
        assert !DoubleSpaceAt(s, i + k);
        assert t[k] == s[i + k] && t[k + 1] == s[i + k + 1];
      }
    }
  }

  /** Trimming both ends of text without doubled whitespace gives tidy text. */
  lemma TrimBothTidy(s: string)
    requires NoDoubleSpace(s)
    ensures Tidy(TrimEnd(TrimStart(s)))
  {
    TrimStartFacts(s);
    var a := TrimStart(s);
    SliceKeepsShape(s, |s| - |a|, |s|);
    TrimEndFacts(a);
    var b := TrimEnd(a);
    SliceKeepsShape(a, 0, |b|);
    if b != [] {
      assert b[0] == a[0];
    }
  }

  lemma TrimOfEdgeless(s: string)
    requires NoEdgeSpace(s)
    ensures TrimStart(s) == s && TrimEnd(s) == s
  {
  }

  // ---------------------------------------------------------------------------
  // Split and Join
  // ---------------------------------------------------------------------------

  lemma {:induction false} SplitKeepsText(s: string)
    ensures Concat(Split(s)) == DropSpaces(s)
    decreases |s|
  {
    if s == [] {
    } else if IsSpace(s[0]) {
      SplitKeepsText(s[1..]);
    } else {
      var n := WordLength(s);
      SplitKeepsText(s[n..]);
      assert s == s[..n] + s[n..];
      DropSpacesAppend(s[..n], s[n..]);
      DropSpacesOfWord(s[..n]);
    }
  }

  lemma {:induction false} SplitOfAllSpace(s: string)
    requires AllSpace(s)
    ensures Split(s) == []
  {
    if s != [] {
      SplitOfAllSpace(s[1..]);
    }
  }

  /** A word, one space, then collapsed non-empty text: still collapsed. */
  lemma CollapsedCons(w: string, t: string)
    requires IsWord(w) && Collapsed(t) && t != []
    ensures Collapsed(w + " " + t)
  {
    var j := w + " " + t;
    assert j[0] == w[0] && j[|j| - 1] == t[|t| - 1];
    forall i | 0 <= i < |j| - 1 ensures !DoubleSpaceAt(j, i) {
      if i < |w| {
        assert !IsSpace(j[i]);
      } else if i == |w| {
        assert j[i + 1] == t[0];
      } else {
        assert !DoubleSpaceAt(t, i - |w| - 1);
        assert j[i] == t[i - |w| - 1] && j[i + 1] == t[i - |w|];
      }
    }
    forall i | 0 <= i < |j| && IsSpace(j[i]) ensures j[i] == ' ' {
      if i > |w| {
        assert j[i] == t[i - |w| - 1];
      }
    }
  }

  lemma {:induction false} JoinCollapsed(ws: seq<string>)
    requires forall k :: 0 <= k < |ws| ==> IsWord(ws[k])
    ensures Collapsed(Join(ws))
    ensures ws != [] ==> Join(ws) != []
  {
    if |ws| == 1 {
      assert IsWord(ws[0]);
    } else if |ws| > 1 {
      JoinCollapsed(ws[1..]);
      CollapsedCons(ws[0], Join(ws[1..]));
    }
  }

  lemma {:induction false} JoinKeepsText(ws: seq<string>)
    requires forall k :: 0 <= k < |ws| ==> IsWord(ws[k])
    ensures DropSpaces(Join(ws)) == Concat(ws)
  {
    if |ws| == 1 {
      DropSpacesOfWord(ws[0]);
      assert ws[1..] == [];
    } else if |ws| > 1 {
      JoinKeepsText(ws[1..]);
      DropSpacesOfWord(ws[0]);
      DropSpacesAppend(ws[0] + " ", Join(ws[1..]));
      DropSpacesAppend(ws[0], " ");
    }
  }

  /** In collapsed text the first word, when it is not all of it, is followed
      by one ordinary space and then a non-space character. */
  lemma SpaceAfterWord(s: string, n: nat)
    requires Collapsed(s) && s != [] && n == WordLength(s) && n < |s|
    ensures s[n] == ' ' && n + 1 < |s| && !IsSpace(s[n + 1])
  {
    assert IsSpace(s[n]);
    assert n + 1 < |s|;
    assert !DoubleSpaceAt(s, n);
  }

  lemma CollapsedSuffix(s: string, k: nat)
    requires Collapsed(s) && k < |s| && !IsSpace(s[k])
    ensures Collapsed(s[k..])
  {
    SliceKeepsShape(s, k, |s|);
    NoEdgeSpaceSuffix(s, k);
  }

  lemma NoEdgeSpaceSuffix(s: string, k: nat)
    requires NoEdgeSpace(s) && k < |s| && !IsSpace(s[k])
    ensures NoEdgeSpace(s[k..])
  {
    assert s[k..][0] == s[k];
  }

  lemma SplitAfterWord(s: string, n: nat)
    requires s != [] && !IsSpace(s[0]) && n == WordLength(s) && n + 1 < |s| && IsSpace(s[n])
    ensures Split(s) == [s[..n]] + Split(s[n + 1..])
  {
    assert s[n..][1..] == s[n + 1..];
  }

  lemma JoinCons(w: string, rest: seq<string>)
    requires rest != []
    ensures Join([w] + rest) == w + " " + Join(rest)
  {
    assert ([w] + rest)[1..] == rest;
  }

  lemma SplitOfWord(s: string)
    requires IsWord(s)
    ensures Split(s) == [s]
  {
    assert WordLength(s) == |s|;
    assert s[..|s|] == s && s[|s|..] == [];
  }

  lemma ReassembleAtSpace(s: string, n: nat)
    requires n < |s| && s[n] == ' '
    ensures s == s[..n] + " " + s[n + 1..]
  {
    assert s[n..n + 1] == " ";
    assert s == s[..n] + s[n..n + 1] + s[n + 1..];
  }

  /** Collapsed text is split and re-joined to itself. */
  lemma {:induction false} JoinSplitOfCollapsed(s: string)
    requires Collapsed(s)
    ensures Join(Split(s)) == s
    ensures s != [] ==> Split(s) != []
    decreases |s|
  {
    if s != [] {
      var n := WordLength(s);
      if n == |s| {
        SplitOfWord(s);
      } else {
        SpaceAfterWord(s, n);
        CollapsedSuffix(s, n + 1);
        var t := s[n + 1..];
        JoinSplitOfCollapsed(t);
        SplitAfterWord(s, n);
        JoinCons(s[..n], Split(t));
        ReassembleAtSpace(s, n);
      }
    }
  }

  // ---------------------------------------------------------------------------
  // Properties of remove_blank_space
  // ---------------------------------------------------------------------------

  /** Joining the words leaves no whitespace at the ends, so the final `strip()` changes nothing. */
  lemma RemoveBlankSpaceIsJoin(txt: string)
    ensures RemoveBlankSpace(txt) == Join(Split(txt))
  {
    JoinCollapsed(Split(txt));
    TrimOfEdgeless(Join(Split(txt)));
    assert TrimStart(Join(Split(txt))) == Join(Split(txt));
  }

  /** The output has no whitespace at either end, and its only whitespace is
      single ordinary spaces between words. */
  lemma RemoveBlankSpaceCollapsed(txt: string)
    ensures Collapsed(RemoveBlankSpace(txt))
  {
    RemoveBlankSpaceIsJoin(txt);
    JoinCollapsed(Split(txt));
  }

  /** The non-whitespace characters survive, in order: deleting the spaces of
      the output gives the input with all its whitespace deleted. */
  lemma RemoveBlankSpaceKeepsText(txt: string)
    ensures DropSpaces(RemoveBlankSpace(txt)) == DropSpaces(txt)
  {
    RemoveBlankSpaceIsJoin(txt);
    JoinKeepsText(Split(txt));
    SplitKeepsText(txt);
  }

  /** Exactly the empty and all-whitespace inputs give "". */
  lemma RemoveBlankSpaceEmpty(txt: string)
    ensures RemoveBlankSpace(txt) == "" <==> AllSpace(txt)
  {
    RemoveBlankSpaceIsJoin(txt);
    if AllSpace(txt) {
      SplitOfAllSpace(txt);
    } else {
      RemoveBlankSpaceKeepsText(txt);
      DropSpacesAllSpace(txt);
    }
  }

  /** The fixed points of `remove_blank_space` are exactly the collapsed strings. */
  lemma RemoveBlankSpaceFixedPoints(txt: string)
    ensures RemoveBlankSpace(txt) == txt <==> Collapsed(txt)
  {
    RemoveBlankSpaceCollapsed(txt);
    if Collapsed(txt) {
      RemoveBlankSpaceIsJoin(txt);
      JoinSplitOfCollapsed(txt);
    }
  }

  lemma RemoveBlankSpaceIdempotent(txt: string)
    ensures RemoveBlankSpace(RemoveBlankSpace(txt)) == RemoveBlankSpace(txt)
  {
    RemoveBlankSpaceCollapsed(txt);
    RemoveBlankSpaceFixedPoints(RemoveBlankSpace(txt));
  }

  // ---------------------------------------------------------------------------
  // Steps of remove_special_characters
  // ---------------------------------------------------------------------------

  lemma {:induction false} DropSpecialOfClean(s: string)
    requires NoSpecial(s)
    ensures DropSpecial(s) == s
  {
    if s != [] {
      SliceKeepsShape(s, 1, |s|);
      DropSpecialOfClean(s[1..]);
    }
  }

  /** With every parenthesis already deleted, the "()" substitution changes nothing. */
  lemma {:induction false} DropEmptyParensOfClean(s: string)
    requires NoSpecial(s)
    ensures DropEmptyParens(s) == s
  {
    if |s| >= 2 {
      assert !IsSpecial(s[0]);
      SliceKeepsShape(s, 1, |s|);
      DropEmptyParensOfClean(s[1..]);
    }
  }

  /** One character in front of text without doubled whitespace keeps it so,
      unless both it and the text's first character are whitespace. */
  lemma ConsNoDoubleSpace(c: char, r: string)
    requires NoDoubleSpace(r)
    requires r == [] || !IsSpace(c) || !IsSpace(r[0])
    ensures NoDoubleSpace([c] + r)
  {
    var t := [c] + r;
    forall i | 0 <= i < |t| - 1 ensures !DoubleSpaceAt(t, i) {
      if i > 0 {
        assert !DoubleSpaceAt(r, i - 1);
        assert t[i] == r[i - 1] && t[i + 1] == r[i];
      }
    }
  }

  lemma ConsNoSpecial(c: char, r: string)
    requires NoSpecial(r) && !IsSpecial(c)
    ensures NoSpecial([c] + r)
  {
    var t := [c] + r;
    forall i | 0 <= i < |t| ensures !IsSpecial(t[i]) {
      if i > 0 {
        assert t[i] == r[i - 1];
      }
    }
  }

  lemma {:induction false} CollapseRunsNoDoubleSpace(s: string)
    ensures NoDoubleSpace(CollapseRuns(s))
    ensures s != [] && !IsSpace(s[0]) ==> CollapseRuns(s) != [] && CollapseRuns(s)[0] == s[0]
    decreases |s|
  {
    if s == [] {
    } else if !IsSpace(s[0]) {
      CollapseRunsNoDoubleSpace(s[1..]);
      ConsNoDoubleSpace(s[0], CollapseRuns(s[1..]));
    } else {
      var n := SpaceRunLength(s);
      CollapseRunsNoDoubleSpace(s[n..]);
      var r := CollapseRuns(s[n..]);
      if n < |s| {
        assert s[n..][0] == s[n];
      }
      ConsNoDoubleSpace(if n >= 2 then ' ' else s[0], r);
      assert (if n >= 2 then " " else [s[0]]) == [if n >= 2 then ' ' else s[0]];
    }
  }

  lemma {:induction false} CollapseRunsNoSpecial(s: string)
    requires NoSpecial(s)
    ensures NoSpecial(CollapseRuns(s))
    decreases |s|
  {
    if s != [] {
      assert !IsSpecial(s[0]);
      var n := if IsSpace(s[0]) then SpaceRunLength(s) else 1;
      SliceKeepsShape(s, n, |s|);
      CollapseRunsNoSpecial(s[n..]);
      ConsNoSpecial(if n >= 2 then ' ' else s[0], CollapseRuns(s[n..]));
      assert (if n >= 2 then " " else [s[0]]) == [if n >= 2 then ' ' else s[0]];
    }
  }

  /** A leading run of whitespace contributes nothing to the kept text. */
  lemma SpaceRunDropped(s: string)
    requires s != [] && IsSpace(s[0])
    ensures DropSpaces(s) == DropSpaces(s[SpaceRunLength(s)..])
  {
    var n := SpaceRunLength(s);
    DropSpacesAllSpace(s[..n]);
    assert s == s[..n] + s[n..];
    DropSpacesAppend(s[..n], s[n..]);
  }

  /** Nor does the space or whitespace character that replaces it. */
  lemma CollapsedRunDropped(s: string)
    requires s != [] && IsSpace(s[0])
    ensures DropSpaces(CollapseRuns(s)) == DropSpaces(CollapseRuns(s[SpaceRunLength(s)..]))
  {
    var n := SpaceRunLength(s);
    var head: string := if n >= 2 then " " else [s[0]];
    assert CollapseRuns(s) == head + CollapseRuns(s[n..]);
    DropSpacesAllSpace(head);
    DropSpacesAppend(head, CollapseRuns(s[n..]));
  }

  lemma {:induction false} CollapseRunsKeepsText(s: string)
    ensures DropSpaces(CollapseRuns(s)) == DropSpaces(s)
    decreases |s|
  {
    if s == [] {
    } else if !IsSpace(s[0]) {
      CollapseRunsKeepsText(s[1..]);
      DropSpacesAppend([s[0]], CollapseRuns(s[1..]));
    } else {
      CollapseRunsKeepsText(s[SpaceRunLength(s)..]);
      SpaceRunDropped(s);
      CollapsedRunDropped(s);
    }
  }

  lemma {:induction false} CollapseRunsOfSingles(s: string)
    requires NoDoubleSpace(s)
    ensures CollapseRuns(s) == s
    decreases |s|
  {
    if s != [] {
      SliceKeepsShape(s, 1, |s|);
      if IsSpace(s[0]) {
        assert SpaceRunLength(s) == 1 by {
          if |s| > 1 {
            assert !DoubleSpaceAt(s, 0);
            assert s[1..][0] == s[1];
          }
        }
      }
      CollapseRunsOfSingles(s[1..]);
    }
  }

  // ---------------------------------------------------------------------------
  // Properties of remove_special_characters
  // ---------------------------------------------------------------------------

  /** The output contains none of `\ / , ; < > . ? ! * - + _ = @ # % : ( )`,
      has no whitespace at either end and never two whitespace characters in a
      row (a lone tab, say, is kept as it is). */
  lemma RemoveSpecialCharactersShape(texto: string)
    ensures NoSpecial(RemoveSpecialCharacters(texto))
    ensures Tidy(RemoveSpecialCharacters(texto))
  {
    var s1 := DropSpecial(texto);
    DropEmptyParensOfClean(s1);
    CollapseRunsNoDoubleSpace(s1);
    CollapseRunsNoSpecial(s1);
    var s3 := CollapseRuns(s1);
    TrimBothTidy(s3);
    TrimStartFacts(s3);
    var s4 := TrimStart(s3);
    SliceKeepsShape(s3, |s3| - |s4|, |s3|);
    TrimEndFacts(s4);
    SliceKeepsShape(s4, 0, |TrimEnd(s4)|);
  }

  /** Every character that is neither whitespace nor special survives, in its
      original order. */
  lemma RemoveSpecialCharactersKeepsText(texto: string)
    ensures DropSpaces(RemoveSpecialCharacters(texto)) == DropSpaces(DropSpecial(texto))
  {
    var s1 := DropSpecial(texto);
    DropEmptyParensOfClean(s1);
    CollapseRunsKeepsText(s1);
    TrimStartFacts(CollapseRuns(s1));
    TrimEndFacts(TrimStart(CollapseRuns(s1)));
  }

  /** The fixed points of `remove_special_characters` are exactly the tidy
      strings free of special characters. */
  lemma RemoveSpecialCharactersFixedPoints(texto: string)
    ensures RemoveSpecialCharacters(texto) == texto <==> NoSpecial(texto) && Tidy(texto)
  {
    RemoveSpecialCharactersShape(texto);
    if NoSpecial(texto) && Tidy(texto) {
      DropSpecialOfClean(texto);
      DropEmptyParensOfClean(texto);
      CollapseRunsOfSingles(texto);
      TrimOfEdgeless(texto);
    }
  }

  lemma RemoveSpecialCharactersIdempotent(texto: string)
    ensures RemoveSpecialCharacters(RemoveSpecialCharacters(texto)) == RemoveSpecialCharacters(texto)
  {
    RemoveSpecialCharactersShape(texto);
    RemoveSpecialCharactersFixedPoints(RemoveSpecialCharacters(texto));
  }

  // ---------------------------------------------------------------------------
  // Two normalised texts joined by a space
  // ---------------------------------------------------------------------------

  /** Two non-empty tidy texts joined by one space: still tidy. */
  lemma TidySpaceJoin(a: string, b: string)
    requires Tidy(a) && Tidy(b) && a != [] && b != []
    ensures Tidy(a + " " + b)
  {
    var j := a + " " + b;
    assert j[0] == a[0] && j[|j| - 1] == b[|b| - 1];
    forall i | 0 <= i < |j| - 1 ensures !DoubleSpaceAt(j, i) {
      if i < |a| - 1 {
        assert !DoubleSpaceAt(a, i);
        assert j[i] == a[i] && j[i + 1] == a[i + 1];
      } else if i == |a| - 1 {
        assert j[i] == a[|a| - 1];
      } else if i == |a| {
        assert j[i + 1] == b[0];
      } else {
        assert !DoubleSpaceAt(b, i - |a| - 1);
        assert j[i] == b[i - |a| - 1] && j[i + 1] == b[i - |a|];
      }
    }
  }

  lemma NoSpecialSpaceJoin(a: string, b: string)
    requires NoSpecial(a) && NoSpecial(b)
    ensures NoSpecial(a + " " + b)
  {
    var j := a + " " + b;
    forall i | 0 <= i < |j| ensures !IsSpecial(j[i]) {
      if i < |a| {
        assert j[i] == a[i];
      } else if i > |a| {
        assert j[i] == b[i - |a| - 1];
      }
    }
  }

  lemma DropSpacesSpaceJoin(a: string, b: string)
    ensures DropSpaces(a + " " + b) == DropSpaces(a) + DropSpaces(b)
  {
    DropSpacesAppend(a + " ", b);
    DropSpacesAppend(a, " ");
    assert DropSpaces(" ") == [];
  }
}
