/** The returned list: as sets of positions, its order, its truncation, and the open-string rule. */
module VoicingResults {
  import opened Seqs
  import opened Sorting
  import opened Notes
  import opened Enumeration
  import opened Voicings
  import opened VoicingTheorems

  // ---- a voicing as a set of positions -------------------------------------------------

  ghost function SetOf(v: Voicing): set<Position> {
    set p | p in v
  }

  /**
   * The documented definition, with no listing order: a set of positions on distinct strings,
   * one for each chord tone.
   */
  ghost predicate IsVoicingSet(tones: seq<Pitch>, open: seq<Pitch>, o: Options, ps: set<Position>) {
    && |ps| == |tones|
    && (forall p, q | p in ps && q in ps :: p.str == q.str ==> p == q)
    && (forall p, q | p in ps && q in ps :: p.tone == q.tone ==> p == q)
    && (forall p | p in ps :: p.tone in tones && p.str < |open|
                              && NoteAtFret(open[p.str], p.fret) == p.tone && FretAllowed(o, p.fret))
    && (forall p, q | p in ps && q in ps && p.fret > 0 && q.fret > 0 :: p.fret - q.fret <= o.maxSpan)
  }

  ghost predicate StrictlyAscending(v: Voicing) {
    forall i, j :: 0 <= i < j < |v| ==> v[i].str < v[j].str
  }

  lemma HighestString(ps: set<Position>) returns (top: Position)
    requires ps != {}
    ensures top in ps && forall p | p in ps :: p.str <= top.str
  {
    top :| top in ps;
    var rest := ps - {top};
    assert ps == rest + {top};
    if rest != {} {
      var other := HighestString(rest);
      if other.str > top.str { top := other; }
    }
  }

  lemma ListByString(ps: set<Position>) returns (v: Voicing)
    requires forall p, q | p in ps && q in ps :: p.str == q.str ==> p == q
    ensures SetOf(v) == ps && |v| == |ps| && StrictlyAscending(v)
  {
    if ps == {} {
      v := [];
    } else {
      var top := HighestString(ps);
      var below := ListByString(ps - {top});
      v := below + [top];
      AddOnTop(below, top);
      assert ps == SetOf(below) + {top};
    }
  }

  lemma AddOnTop(below: Voicing, top: Position)
    requires StrictlyAscending(below) && forall p | p in SetOf(below) :: p.str < top.str
    ensures SetOf(below + [top]) == SetOf(below) + {top} && StrictlyAscending(below + [top])
  {
    forall i | 0 <= i < |below| ensures below[i].str < top.str {
      assert below[i] in SetOf(below);
    }
  }

  lemma {:induction false} SetOfDistinct(v: Voicing)
    requires NoDup(v)
    ensures |SetOf(v)| == |v|
  {
    if v != [] {
      SetOfDistinct(v[1..]);
      assert SetOf(v) == {v[0]} + SetOf(v[1..]);
      assert v[0] !in SetOf(v[1..]);
    }
  }

  lemma PlayableIsVoicingSet(tones: seq<Pitch>, open: seq<Pitch>, o: Options, v: Voicing)
    requires Playable(tones, open, o, v)
    ensures IsVoicingSet(tones, open, o, SetOf(v)) && StrictlyAscending(v)
  {
    forall i, j | 0 <= i < j < |v| ensures v[i].str < v[j].str && v[i].tone != v[j].tone {
      assert Strings(v)[i] < Strings(v)[j];
      assert Labels(v)[i] != Labels(v)[j];
    }
    SetOfDistinct(v);
    forall i | 0 <= i < |v| ensures v[i].tone in tones { assert Labels(v)[i] in Labels(v); }
  }

  lemma VoicingSetIsPlayable(tones: seq<Pitch>, open: seq<Pitch>, o: Options, v: Voicing)
    requires IsVoicingSet(tones, open, o, SetOf(v)) && StrictlyAscending(v) && |v| == |tones|
    ensures Playable(tones, open, o, v)
  {
    assert forall i | 0 <= i < |v| :: v[i] in SetOf(v);
    forall i, j | 0 <= i < j < |v| ensures Labels(v)[i] != Labels(v)[j] {
      assert v[i] in SetOf(v) && v[j] in SetOf(v) && v[i] != v[j];
    }
    forall x | x in Labels(v) ensures x in tones {
      var i :| 0 <= i < |v| && Labels(v)[i] == x;
      assert v[i] in SetOf(v);
    }
  }

  /** Every playable set of positions is found, and found as one voicing only. */
  lemma SearchFindsEverySetOnce(tones: seq<Pitch>, open: seq<Pitch>, o: Options, ps: set<Position>)
    requires NoDup(tones) && tones != []
    ensures IsVoicingSet(tones, open, o, ps) <==> exists v :: v in Collected(tones, open, o) && SetOf(v) == ps
    ensures forall i, j :: 0 <= i < j < |Collected(tones, open, o)|
              ==> SetOf(Collected(tones, open, o)[i]) != SetOf(Collected(tones, open, o)[j])
  {
    if IsVoicingSet(tones, open, o, ps) {
      var v := ListByString(ps);
      VoicingSetIsPlayable(tones, open, o, v);
      CollectedExact(tones, open, o, v);
    }
    if v :| v in Collected(tones, open, o) && SetOf(v) == ps {
      CollectedExact(tones, open, o, v);
      PlayableIsVoicingSet(tones, open, o, v);
    }
    var vs := Collected(tones, open, o);
    CollectedNoRepeats(tones, open, o);
    forall i, j | 0 <= i < j < |vs| ensures SetOf(vs[i]) != SetOf(vs[j]) {
      CollectedExact(tones, open, o, vs[i]);
      CollectedExact(tones, open, o, vs[j]);
      PlayableIsVoicingSet(tones, open, o, vs[i]);
      PlayableIsVoicingSet(tones, open, o, vs[j]);
      SameSetSameListing(vs[i], vs[j]);
    }
  }

  lemma EmptyListing(v: Voicing)
    ensures v == [] <==> SetOf(v) == {}
  {
    if v != [] {
      assert v[0] in SetOf(v);
    }
  }

  lemma {:induction false} SameSetSameListing(a: Voicing, b: Voicing)
    requires StrictlyAscending(a) && StrictlyAscending(b)
    ensures SetOf(a) == SetOf(b) ==> a == b
  {
    EmptyListing(a);
    EmptyListing(b);
    if SetOf(a) == SetOf(b) {
      if a != [] {
        assert a[0] in SetOf(b) && b[0] in SetOf(a);
        assert a[0] == b[0];
        assert SetOf(a[1..]) == SetOf(a) - {a[0]};
        assert SetOf(b[1..]) == SetOf(b) - {b[0]};
        SameSetSameListing(a[1..], b[1..]);
      }
    }
  }

  // ---- order and truncation ------------------------------------------------------------

  lemma RankingIsTotalPreorder()
    ensures TotalPreorder(RanksBefore)
  {
  }

  ghost predicate IsLowest(v: Voicing, low: nat) {
    (exists i :: 0 <= i < |v| && v[i].fret == low) && forall i :: 0 <= i < |v| ==> low <= v[i].fret
  }

  ghost predicate IsWidth(v: Voicing, width: int) {
    && (exists i, j :: 0 <= i < |v| && 0 <= j < |v| && v[i].fret - v[j].fret == width)
    && (forall i, j :: 0 <= i < |v| && 0 <= j < |v| ==> v[i].fret - v[j].fret <= width)
  }

  lemma LowAndSpan(v: Voicing)
    requires v != []
    ensures IsLowest(v, LowFret(v)) && IsWidth(v, TotalSpan(v))
  {
    var fs := Frets(v);
    assert forall i | 0 <= i < |v| :: fs[i] == v[i].fret && fs[i] in fs;
    var i :| 0 <= i < |fs| && fs[i] == MinOf(fs);
    var j :| 0 <= j < |fs| && fs[j] == MaxOf(fs);
    assert v[i].fret == MinOf(fs) && v[j].fret == MaxOf(fs);
    assert v[j].fret - v[i].fret == TotalSpan(v);
  }

  /** The comparator means: lowest fret first, and among equals the narrower voicing, open strings included. */
  lemma RankIsLowestThenNarrowest(a: Voicing, b: Voicing, lowA: nat, lowB: nat, widthA: int, widthB: int)
    requires a != [] && b != []
    requires IsLowest(a, lowA) && IsLowest(b, lowB) && IsWidth(a, widthA) && IsWidth(b, widthB)
    ensures RanksBefore(a, b) <==> lowA < lowB || (lowA == lowB && widthA <= widthB)
  {
    LowAndSpan(a);
    LowAndSpan(b);
    LowestUnique(a, lowA, LowFret(a));
    LowestUnique(b, lowB, LowFret(b));
    WidthUnique(a, widthA, TotalSpan(a));
    WidthUnique(b, widthB, TotalSpan(b));
  }

  lemma LowestUnique(v: Voicing, m: nat, n: nat)
    requires IsLowest(v, m) && IsLowest(v, n)
    ensures m == n
  {
  }

  lemma WidthUnique(v: Voicing, m: int, n: int)
    requires IsWidth(v, m) && IsWidth(v, n)
    ensures m == n
  {
  }

  lemma SliceIsPrefix<T>(s: seq<T>, limit: int)
    ensures SliceTo(s, limit) <= s
    ensures 0 <= limit ==> |SliceTo(s, limit)| == if limit < |s| then limit else |s|
    ensures limit < 0 ==> |SliceTo(s, limit)| == if |s| + limit < 0 then 0 else |s| + limit
  {
  }

  /**
   * The returned list holds playable voicings only, none twice, lowest fret first and narrow
   * before wide; and no playable voicing left out ranks strictly before one returned.
   */
  lemma RankedExact(tones: seq<Pitch>, open: seq<Pitch>, o: Options)
    requires NoDup(tones) && tones != []
    ensures var r := Ranked(tones, open, o);
      && (forall v | v in r :: Playable(tones, open, o, v))
      && NoDup(r)
      && Sorted(RanksBefore, r)
      && (forall v, w | v in r && Playable(tones, open, o, w) && w !in r :: RanksBefore(v, w))
  {
    var c := Collected(tones, open, o);
    var s := StableSort(RanksBefore, c);
    RankingIsTotalPreorder();
    StableSortIsStable(RanksBefore, c);
    CollectedNoRepeats(tones, open, o);
    NoDupFromMultiset(c, s);
    SliceIsPrefix(s, o.limit);
    PrefixOfSorted(RanksBefore, s, Ranked(tones, open, o));
    forall v ensures v in s <==> Playable(tones, open, o, v) {
      CollectedExact(tones, open, o, v);
      assert v in multiset(s) <==> v in multiset(c);
    }
  }

  /** Ties stay in the order the search met them; and the list is as long as the limit lets it be. */
  lemma RankedIsStablePrefix(tones: seq<Pitch>, open: seq<Pitch>, o: Options) returns (s: seq<Voicing>)
    requires NoDup(tones)
    ensures IsStableSortOf(RanksBefore, Collected(tones, open, o), s) && |s| == |Collected(tones, open, o)|
    ensures Ranked(tones, open, o) <= s
    ensures 0 <= o.limit ==> |Ranked(tones, open, o)| == if o.limit < |s| then o.limit else |s|
  {
    s := StableSort(RanksBefore, Collected(tones, open, o));
    RankingIsTotalPreorder();
    StableSortIsStable(RanksBefore, Collected(tones, open, o));
    assert |multiset(s)| == |s| && |multiset(Collected(tones, open, o))| == |Collected(tones, open, o)|;
    SliceIsPrefix(s, o.limit);
  }

  // ---- the open-string rule ------------------------------------------------------------

  /** The documentation's rule: an open string is allowed whatever the window. */
  ghost predicate DocumentedPlayable(tones: seq<Pitch>, open: seq<Pitch>, o: Options, v: Voicing) {
    && CoversChord(tones, open, v)
    && (forall i :: 0 <= i < |v| ==> v[i].fret == 0 || o.minFret <= v[i].fret <= o.maxFret)
    && InSpan(o.maxSpan, v)
  }

  ghost predicate MeetsDocumentation(o: Options) {
    forall tones: seq<Pitch>, open: seq<Pitch>, v | NoDup(tones) && tones != [] ::
      v in Collected(tones, open, o) <==> DocumentedPlayable(tones, open, o, v)
  }

  /** The code keeps the documented open-string rule exactly when the window is not `[0, negative]`. */
  lemma OpenStringRule(o: Options)
    ensures MeetsDocumentation(o) <==> o.minFret > 0 || o.maxFret >= 0
  {
    if o.minFret > 0 || o.maxFret >= 0 {
      forall tones: seq<Pitch>, open: seq<Pitch>, v | NoDup(tones) && tones != []
        ensures v in Collected(tones, open, o) <==> DocumentedPlayable(tones, open, o, v)
      {
        CollectedExact(tones, open, o, v);
      }
    } else {
      var c: Pitch := 0;
      var v := [Position(0, 0, c)];
      assert Labels(v) == [c] && Strings(v) == [0];
      assert DocumentedPlayable([c], [c], o, v);
      CollectedExact([c], [c], o, v);
      assert !FretAllowed(o, v[0].fret);
    }
  }

  // ---- the whole function --------------------------------------------------------------

  /**
   * `getChordVoicings` fails exactly on an unreadable root, or an unreadable string name
   * when the chord fits the instrument and the fret window is read at all.
   */
  lemma VoicingsOfFails(root: Option<Pitch>, intervals: seq<nat>, tuning: seq<Option<Pitch>>, o: Options)
    ensures VoicingsOf(root, intervals, tuning, o).UnknownNote?
       <==> || root.None?
            || ( && intervals != []
                 && |ChordTones(root.value, intervals)| <= |tuning|
                 && (o.minFret > 0 || o.maxFret >= 0)
                 && None in tuning)
  {
    if root.Some? {
      NoTonesNoIntervals(root.value, intervals);
    }
  }

  lemma NoTonesNoIntervals(root: Pitch, intervals: seq<nat>)
    ensures ChordTones(root, intervals) == [] <==> intervals == []
  {
    ChordTonesExact(root, intervals);
    var tones := ChordTones(root, intervals);
    if intervals != [] {
      assert (root + intervals[0]) % 12 in tones;
    }
  }

  /** With a readable tuning, a limit that drops nothing returns exactly the playable voicings. */
  lemma VoicingsOfExact(root: Pitch, intervals: seq<nat>, tuning: seq<Option<Pitch>>, o: Options, v: Voicing)
    requires intervals != [] && None !in tuning
    requires o.limit >= CollectedCount(root, intervals, Map(OrZero, tuning), o)
    ensures var r := VoicingsOf(Some(root), intervals, tuning, o);
      r.Answer? && (v in r.voicings <==> Playable(ChordTones(root, intervals), Map(OrZero, tuning), o, v))
  {
    var tones, open := ChordTones(root, intervals), Map(OrZero, tuning);
    ChordTonesExact(root, intervals);
    NoTonesNoIntervals(root, intervals);
    if |tones| <= |tuning| {
      RankedKeepsAll(tones, open, o, v);
    } else if Playable(tones, open, o, v) {
      AscendingFits(Strings(v), |open|);
    }
  }

  lemma RankedKeepsAll(tones: seq<Pitch>, open: seq<Pitch>, o: Options, v: Voicing)
    requires NoDup(tones) && tones != [] && o.limit >= |Collected(tones, open, o)|
    ensures v in Ranked(tones, open, o) <==> Playable(tones, open, o, v)
  {
    var c := Collected(tones, open, o);
    var s := StableSort(RanksBefore, c);
    assert |multiset(s)| == |s| && |multiset(c)| == |c|;
    assert Ranked(tones, open, o) == s;
    CollectedExact(tones, open, o, v);
    assert v in multiset(s) <==> v in multiset(c);
  }

  lemma {:induction false} AscendingFits(s: seq<nat>, n: nat)
    requires Ascending(s, 0, n)
    ensures |s| <= n
    decreases n
  {
    if s != [] {
      var front := s[..|s| - 1];
      assert forall i | 0 <= i < |front| :: front[i] < s[|s| - 1];
      AscendingFits(front, s[|s| - 1]);
    }
  }
}
