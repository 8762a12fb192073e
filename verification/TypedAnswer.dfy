/** `normalizeAnswer` of `TypedAnswer.tsx`: lower-case, split, trim, drop empties, sort, join. */
module TypedAnswer {
  import opened Seqs
  import opened Text
  import opened Notes

  /** The class `[,\s]`. */
  predicate IsSeparator(c: char) {
    c == ',' || IsJsSpace(c)
  }

  /** The separators by their code points: the comma and the spaces of a regular expression. */
  lemma SeparatorsListed(c: char)
    ensures var n := c as int;
      IsSeparator(c) <==> n == 44 || 9 <= n <= 13 || 8192 <= n <= 8202
                          || n in {32, 160, 5760, 8232, 8233, 8239, 8287, 12288, 65279}
  {
    SpacesListed(c);
  }

  predicate IsWordChar(c: char) {
    !IsSeparator(c)
  }

  /**
   * Lower-casing as a map on characters. All that is asked of it: doing it twice is doing it
   * once, and it neither makes nor removes separators.
   */
  ghost predicate IsCaseMap(lower: char -> char) {
    && (forall c :: lower(lower(c)) == lower(c))
    && (forall c :: IsSeparator(lower(c)) <==> IsSeparator(c))
    && (forall c :: IsSeparator(c) ==> lower(c) == c)
  }

  function AfterSeparators(s: string): (r: string)
    ensures |r| <= |s| && (s != "" && IsSeparator(s[0]) ==> |r| < |s|)
  {
    s[PrefixLen(s, IsSeparator)..]
  }

  /** `split(/[,\s]+/)`: fields between maximal runs of separators, empty ones at the ends included. */
  function SplitRuns(s: string): seq<string>
    decreases |s|
  {
    var n := PrefixLen(s, IsWordChar);
    if n == |s| then [s] else [s[..n]] + SplitRuns(AfterSeparators(s[n..]))
  }

  function TrimToken(t: string): string {
    Trim(t, IsJsSpace)
  }

  predicate NonEmpty(t: string) { t != "" }

  function Tokens(s: string): seq<string> {
    Filter(NonEmpty, Map(TrimToken, SplitRuns(s)))
  }

  function NormalizeAnswer(lower: char -> char, input: string): string {
    Join(SortStrings(Tokens(Map(lower, input))), ", ")
  }

  // ---- the tokens are the maximal separator-free runs ----------------------------------

  lemma {:induction false} SplitRunsAreFree(s: string)
    ensures forall t | t in SplitRuns(s) :: Free(t, IsSeparator)
    decreases |s|
  {
    var n := PrefixLen(s, IsWordChar);
    if n < |s| {
      SplitRunsAreFree(AfterSeparators(s[n..]));
    }
  }

  lemma FreeTokenNeedsNoTrim(t: string)
    requires Free(t, IsSeparator)
    ensures TrimToken(t) == t
  {
    assert TrimLeft(t, IsJsSpace) == t;
    assert TrimRight(t, IsJsSpace) == t;
  }

  lemma {:induction false} TrimChangesNothing(ts: seq<string>)
    requires forall t | t in ts :: Free(t, IsSeparator)
    ensures Map(TrimToken, ts) == ts
  {
    forall i | 0 <= i < |ts| ensures Map(TrimToken, ts)[i] == ts[i] {
      assert ts[i] in ts;
      FreeTokenNeedsNoTrim(ts[i]);
    }
  }

  lemma {:induction false} WordsSkipSeparators(s: string, m: nat)
    requires m <= |s| && forall i :: 0 <= i < m ==> IsSeparator(s[i])
    ensures Words(s, IsSeparator) == Words(s[m..], IsSeparator)
  {
    if m == 0 {
      assert s[0..] == s;
    } else {
      WordsSkipSeparators(s[1..], m - 1);
      assert s[1..][m - 1..] == s[m..];
    }
  }

  /** The tokens are separator-free, none is empty, and together they hold every other character in order. */
  lemma TokensCoverTheInput(s: string)
    ensures forall t | t in Tokens(s) :: t != "" && Free(t, IsSeparator)
    ensures Concat(Tokens(s)) == Letters(s, IsSeparator)
  {
    TokensAreWords(s);
    WordsAreNonEmptyAndFree(s, IsSeparator);
    WordsKeepEveryLetter(s, IsSeparator);
  }

  /** Split, trim and filter compute the maximal separator-free runs. */
  lemma TokensAreWords(s: string)
    ensures Tokens(s) == Words(s, IsSeparator)
  {
    SplitRunsAreFree(s);
    TrimChangesNothing(SplitRuns(s));
    FilteredSplitIsWords(s);
  }

  lemma {:induction false} FilteredSplitIsWords(s: string)
    ensures Filter(NonEmpty, SplitRuns(s)) == Words(s, IsSeparator)
    decreases |s|
  {
    var n := PrefixLen(s, IsWordChar);
    if n == |s| {
      WholeWord(s);
    } else {
      var rest := AfterSeparators(s[n..]);
      FilteredSplitIsWords(rest);
      FilterCons(s[..n], SplitRuns(rest));
      WordsSkipSeparators(s[n..], PrefixLen(s[n..], IsSeparator));
      FirstField(s, n);
    }
  }

  lemma FilterCons(t: string, ts: seq<string>)
    ensures Filter(NonEmpty, [t] + ts) == (if NonEmpty(t) then [t] else []) + Filter(NonEmpty, ts)
  {
    FilterHead(NonEmpty, [t] + ts);
    assert ([t] + ts)[1..] == ts;
  }

  lemma FirstField(s: string, n: nat)
    requires n < |s| && Free(s[..n], IsSeparator) && IsSeparator(s[n])
    ensures Words(s, IsSeparator) == (if NonEmpty(s[..n]) then [s[..n]] else []) + Words(s[n..], IsSeparator)
  {
    if n > 0 {
      WordsOfWordThen(s[..n], s[n..], IsSeparator);
      assert s[..n] + s[n..] == s;
    } else {
      assert s[0..] == s;
    }
  }

  lemma WholeWord(s: string)
    requires Free(s, IsSeparator)
    ensures Words(s, IsSeparator) == if s == "" then [] else [s]
  {
    if s != "" {
      WordsOfWordThen(s, "", IsSeparator);
      assert s + "" == s;
    }
  }

  // ---- canonical form ------------------------------------------------------------------

  /** The re-read: splitting what the join printed gives back the sorted tokens. */
  lemma TokensOfNormal(lower: char -> char, input: string)
    ensures Tokens(NormalizeAnswer(lower, input)) == SortStrings(Tokens(Map(lower, input)))
  {
    var ts := Tokens(Map(lower, input));
    TokensAreWords(Map(lower, input));
    WordsAreNonEmptyAndFree(Map(lower, input), IsSeparator);
    var sorted := SortStrings(ts);
    forall t | t in sorted ensures t != "" && Free(t, IsSeparator) {
      assert t in multiset(sorted) && t in multiset(ts) && t in ts;
    }
    WordsUndoJoin(sorted, IsSeparator);
    TokensAreWords(Join(sorted, ", "));
  }

  /** They come in alphabetical order. */
  lemma TokensAreAlphabetical(lower: char -> char, input: string)
    ensures var ts := Tokens(NormalizeAnswer(lower, input));
      && multiset(ts) == multiset(Words(Map(lower, input), IsSeparator))
      && forall i, j :: 0 <= i < j < |ts| ==> Alphabetical(ts[i], ts[j])
  {
    TokensOfNormal(lower, input);
    TokensAreWords(Map(lower, input));
    SortedStrings(Tokens(Map(lower, input)));
  }

  /** A comma followed by a blank, or that blank, between two words. */
  predicate WellPlaced(r: string, k: nat)
    requires k < |r|
  {
    if r[k] == ',' then 0 < k && k + 2 < |r| && r[k + 1] == ' ' && !IsSeparator(r[k - 1]) && !IsSeparator(r[k + 2])
    else r[k] == ' ' && 0 < k && r[k - 1] == ','
  }

  ghost predicate CommaBlank(r: string) {
    forall k :: 0 <= k < |r| && IsSeparator(r[k]) ==> WellPlaced(r, k)
  }

  lemma PlacedLater(t: string, r: string, k: nat)
    requires r != "" && !IsSeparator(r[0]) && k < |r| && IsSeparator(r[k]) && WellPlaced(r, k)
    ensures WellPlaced(t + ", " + r, |t| + 2 + k)
  {
    var s := t + ", " + r;
    assert s[|t| + 2 + k] == r[k] && s[|t| + 1 + k] == r[k - 1];
    if r[k] == ',' { assert s[|t| + 3 + k] == r[k + 1] && s[|t| + 4 + k] == r[k + 2]; }
  }

  lemma CommaBlankPrepend(t: string, r: string)
    requires t != "" && Free(t, IsSeparator) && CommaBlank(r) && r != "" && !IsSeparator(r[0])
    ensures CommaBlank(t + ", " + r)
  {
    var s := t + ", " + r;
    assert s[|t| - 1] == t[|t| - 1] && s[|t|] == ',' && s[|t| + 1] == ' ' && s[|t| + 2] == r[0];
    assert forall k | 0 <= k < |t| :: s[k] == t[k];
    forall k | 0 <= k < |s| && IsSeparator(s[k]) ensures WellPlaced(s, k) {
      if k >= |t| + 2 {
        assert s[k] == r[k - |t| - 2];
        PlacedLater(t, r, k - |t| - 2);
      }
    }
  }

  lemma {:induction false} JoinIsCommaBlank(ts: seq<string>)
    requires forall t | t in ts :: t != "" && Free(t, IsSeparator)
    ensures CommaBlank(Join(ts, ", ")) && (ts != [] ==> Join(ts, ", ") != "" && !IsSeparator(Join(ts, ", ")[0]))
  {
    if ts != [] {
      assert ts[0] in ts && forall t | t in ts[1..] :: t in ts;
      JoinIsCommaBlank(ts[1..]);
      if |ts| > 1 { CommaBlankPrepend(ts[0], Join(ts[1..], ", ")); }
    }
  }

  /** The text itself: the words with a comma and a blank between neighbours and nothing else. */
  lemma NormalFormIsCommaBlank(lower: char -> char, input: string)
    ensures CommaBlank(NormalizeAnswer(lower, input))
  {
    var ts := Tokens(Map(lower, input));
    TokensAreWords(Map(lower, input));
    WordsAreNonEmptyAndFree(Map(lower, input), IsSeparator);
    forall t | t in SortStrings(ts) ensures t != "" && Free(t, IsSeparator) {
      assert t in multiset(SortStrings(ts)) && t in multiset(ts) && t in ts;
    }
    JoinIsCommaBlank(SortStrings(ts));
  }

  /** Two inputs normalise alike exactly when their lower-cased tokens are the same bag of words. */
  lemma NormalFormsAgree(lower: char -> char, a: string, b: string)
    ensures NormalizeAnswer(lower, a) == NormalizeAnswer(lower, b)
       <==> multiset(Words(Map(lower, a), IsSeparator)) == multiset(Words(Map(lower, b), IsSeparator))
  {
    TokensOfNormal(lower, a);
    TokensOfNormal(lower, b);
    TokensAreWords(Map(lower, a));
    TokensAreWords(Map(lower, b));
    SortStringsIsCanonical(Tokens(Map(lower, a)), Tokens(Map(lower, b)));
  }

  ghost predicate IsLower(lower: char -> char, s: string) {
    forall i :: 0 <= i < |s| ==> lower(s[i]) == s[i]
  }

  lemma LowerIsIdentity(lower: char -> char, s: string)
    requires IsLower(lower, s)
    ensures Map(lower, s) == s
  {
  }

  lemma {:induction false} WordsStayLower(lower: char -> char, s: string)
    requires IsLower(lower, s)
    ensures forall t | t in Words(s, IsSeparator) :: IsLower(lower, t)
    decreases |s|
  {
    if s != "" {
      if IsSeparator(s[0]) {
        WordsStayLower(lower, s[1..]);
      } else {
        WordsStayLower(lower, s[PrefixLen(s, c => !IsSeparator(c))..]);
      }
    }
  }

  lemma {:induction false} JoinStaysLower(lower: char -> char, ts: seq<string>)
    requires lower(',') == ',' && lower(' ') == ' '
    requires forall t | t in ts :: IsLower(lower, t)
    ensures IsLower(lower, Join(ts, ", "))
  {
    assert forall i | 0 <= i < |ts| :: ts[i] in ts;
    if |ts| > 1 {
      assert forall t | t in ts[1..] :: t in ts;
      JoinStaysLower(lower, ts[1..]);
    }
  }

  /** Normalising twice is normalising once. */
  lemma NormalizeIsIdempotent(lower: char -> char, input: string)
    requires IsCaseMap(lower)
    ensures NormalizeAnswer(lower, NormalizeAnswer(lower, input)) == NormalizeAnswer(lower, input)
  {
    var ts := Tokens(Map(lower, input));
    NormalIsLower(lower, input);
    LowerIsIdentity(lower, NormalizeAnswer(lower, input));
    TokensOfNormal(lower, input);
    SortStringsIsCanonical(SortStrings(ts), ts);
  }

  lemma NormalIsLower(lower: char -> char, input: string)
    requires IsCaseMap(lower)
    ensures IsLower(lower, NormalizeAnswer(lower, input))
  {
    var s := Map(lower, input);
    var ts := Tokens(s);
    assert IsLower(lower, s);
    TokensAreWords(s);
    WordsStayLower(lower, s);
    SortKeepsLower(lower, ts);
    JoinStaysLower(lower, SortStrings(ts));
  }

  lemma SortKeepsLower(lower: char -> char, ts: seq<string>)
    requires forall t | t in ts :: IsLower(lower, t)
    ensures forall t | t in SortStrings(ts) :: IsLower(lower, t)
  {
    SortStringsIsCanonical(SortStrings(ts), ts);
    forall t | t in SortStrings(ts) ensures IsLower(lower, t) { assert t in multiset(SortStrings(ts)) && t in ts; }
  }

  /** Letter case of the input is forgotten. */
  lemma CaseIsForgotten(lower: char -> char, input: string)
    requires IsCaseMap(lower)
    ensures NormalizeAnswer(lower, Map(lower, input)) == NormalizeAnswer(lower, input)
  {
    assert IsLower(lower, Map(lower, input));
    LowerIsIdentity(lower, Map(lower, input));
  }

  // ---- against the answer check --------------------------------------------------------

  /** `checkAnswer` on a typed answer: the stored text of the card's field against the normal form sent. */
  predicate TypedIsRight(lower: char -> char, stored: string, typed: string) {
    stored == NormalizeAnswer(lower, typed)
  }

  /** Exactly which typed answers are right: the stored text is its own normal form and the words agree. */
  lemma TypedIsRightExactly(lower: char -> char, stored: string, typed: string)
    requires IsCaseMap(lower)
    ensures TypedIsRight(lower, stored, typed) <==>
              NormalizeAnswer(lower, stored) == stored
              && multiset(Words(Map(lower, stored), IsSeparator)) == multiset(Words(Map(lower, typed), IsSeparator))
  {
    NormalFormsAgree(lower, stored, typed);
    if TypedIsRight(lower, stored, typed) {
      NormalizeIsIdempotent(lower, typed);
    }
  }

  lemma JoinHasComma(ts: seq<string>)
    requires |ts| >= 2
    ensures ',' in Join(ts, ", ")
  {
    assert Join(ts, ", ")[|ts[0]|] == ',';
  }

  /** A stored text of several words without a comma is not a normal form: no typed answer to it is right. */
  lemma CommalessTextIsNeverMatched(lower: char -> char, stored: string, typed: string)
    requires IsCaseMap(lower) && |Words(Map(lower, stored), IsSeparator)| >= 2 && ',' !in stored
    ensures !TypedIsRight(lower, stored, typed)
  {
    TokensAreWords(Map(lower, stored));
    var ts := SortStrings(Tokens(Map(lower, stored)));
    assert |multiset(ts)| == |ts| && |multiset(Tokens(Map(lower, stored)))| == |Tokens(Map(lower, stored))|;
    JoinHasComma(ts);
    TypedIsRightExactly(lower, stored, typed);
  }

  /** The seeded answer of the C major card is such a text. */
  lemma SeededNotesAreNeverMatched(lower: char -> char, typed: string)
    requires IsCaseMap(lower)
    ensures !TypedIsRight(lower, "C E G", typed)
  {
    TwoLetters(lower('C'), lower('E'), [' ', lower('G')]);
    assert Map(lower, "C E G") == [lower('C'), ' ', lower('E')] + [' ', lower('G')];
    CommalessTextIsNeverMatched(lower, "C E G", typed);
  }

  lemma TwoLetters(c: char, d: char, rest: string)
    requires !IsSeparator(c) && !IsSeparator(d) && rest != "" && IsSeparator(rest[0])
    ensures |Words([c, ' ', d] + rest, IsSeparator)| >= 2
  {
    var tail := [' '] + ([d] + rest);
    WordsOfWordThen([d], rest, IsSeparator);
    SpaceSkipped([d] + rest);
    WordsOfWordThen([c], tail, IsSeparator);
    assert [c, ' ', d] + rest == [c] + tail;
  }

  lemma SpaceSkipped(s: string)
    ensures Words([' '] + s, IsSeparator) == Words(s, IsSeparator)
  {
    assert ([' '] + s)[1..] == s;
  }
}
