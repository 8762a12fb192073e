/**
 * The backend's one-answer voicing (`voicing.go`): each string in turn takes the unplaced chord
 * tone with the lowest fret. The greedy choice is proved to be the lexicographic optimum, and its
 * answer is located in the frontend's enumeration.
 */
module GreedyVoicing {
  import opened Seqs
  import opened Text
  import opened Notes
  import opened Voicings
  import opened VoicingTheorems
  import opened VoicingResults

  const OPEN: seq<Pitch> := [7, 2, 9, 4]
  const MAX_FRET: nat := 12

  lemma TuningNames(s: nat)
    requires s < 4
    ensures |DEFAULT_TUNING| == |OPEN| == 4 && DEFAULT_TUNING[s] == CHROMATIC_NOTES[OPEN[s]]
  {
  }

  /** Both sides read the fixed tuning as the same open strings. */
  lemma TuningReadsTheSame(s: nat, name: string)
    requires s < 4 && name == DEFAULT_TUNING[s]
    ensures BackendNoteIndex(name) == OPEN[s] && NoteIndex(name) == Some(OPEN[s])
  {
    TuningNames(s);
    CanonicalNamesRead(OPEN[s]);
  }

  // ---- the optimum ---------------------------------------------------------------------

  /** Frets for the first strings of the tuning, each sounding a chord tone, no tone twice. */
  ghost predicate Assigns(tones: set<Pitch>, frets: seq<nat>) {
    && |frets| <= 4
    && (forall s :: 0 <= s < |frets| ==> frets[s] <= MAX_FRET && NoteAtFret(OPEN[s], frets[s]) in tones)
    && (forall s, t :: 0 <= s < t < |frets| ==> NoteAtFret(OPEN[s], frets[s]) != NoteAtFret(OPEN[t], frets[t]))
  }

  predicate LexLeq(a: seq<nat>, b: seq<nat>) {
    if a == [] then true
    else if b == [] then false
    else a[0] < b[0] || (a[0] == b[0] && LexLeq(a[1..], b[1..]))
  }

  lemma {:induction false} LexAntisymmetric(a: seq<nat>, b: seq<nat>)
    requires LexLeq(a, b) && LexLeq(b, a)
    ensures a == b
  {
    if a != [] {
      LexAntisymmetric(a[1..], b[1..]);
      assert a == [a[0]] + a[1..] && b == [b[0]] + b[1..];
    }
  }

  lemma {:induction false} LexExtend(a: seq<nat>, b: seq<nat>, x: nat)
    requires LexLeq(a, b) && |a| < |b| && (a <= b ==> x <= b[|a|])
    ensures LexLeq(a + [x], b)
  {
    if a != [] {
      assert (a + [x])[1..] == a[1..] + [x];
      if a[0] == b[0] {
        assert a[1..] <= b[1..] ==> a <= b;
        LexExtend(a[1..], b[1..], x);
      }
    }
  }

  lemma {:induction false} LexLowered(a: seq<nat>, s: nat, x: nat)
    requires s < |a| && x < a[s]
    ensures !LexLeq(a, a[s := x])
  {
    if s > 0 {
      assert a[s := x][1..] == a[1..][s - 1 := x];
      LexLowered(a[1..], s - 1, x);
    }
  }

  function StringsUsed(n: nat): nat { if n < 4 then n else 4 }

  /** The smallest assignment, in lexicographic order, over all assignments of tones to the strings used. */
  ghost predicate LeastAssignment(tones: set<Pitch>, frets: seq<nat>) {
    && Assigns(tones, frets)
    && |frets| == StringsUsed(|tones|)
    && forall other :: Assigns(tones, other) && |other| == |frets| ==> LexLeq(frets, other)
  }

  lemma LeastAssignmentUnique(tones: set<Pitch>, a: seq<nat>, b: seq<nat>)
    requires LeastAssignment(tones, a) && LeastAssignment(tones, b)
    ensures a == b
  {
    LexAntisymmetric(a, b);
  }

  /** Fret 12 is never used: the open string would be smaller. */
  lemma LeastBelowOctave(tones: set<Pitch>, frets: seq<nat>, s: nat)
    requires LeastAssignment(tones, frets) && s < |frets|
    ensures frets[s] < 12
  {
    if frets[s] == 12 {
      var lower := frets[s := 0];
      assert NoteAtFret(OPEN[s], 0) == NoteAtFret(OPEN[s], 12);
      assert Assigns(tones, lower);
      LexLowered(frets, s, 0);
    }
  }

  /** The fret the code computes for a tone on a string. */
  function Delta(open: Pitch, p: Pitch): nat {
    (p - open + 12) % 12
  }

  /** Different tones have different lowest frets on one string, so no tie is ever broken. */
  lemma NoTies(open: Pitch, p: Pitch, q: Pitch)
    ensures Delta(open, p) == Delta(open, q) <==> p == q
  {
  }

  lemma LowestFret(open: Pitch, p: Pitch, fret: nat)
    ensures Delta(open, p) < 12 && NoteAtFret(open, Delta(open, p)) == p
    ensures NoteAtFret(open, fret) == p ==> Delta(open, p) <= fret
  {
  }

  // ---- the code ------------------------------------------------------------------------

  /** `notes` is None when the stored answer does not parse, "" when it has no such field. */
  datatype Card = Card(chordType: Option<string>, notes: Option<string>)

  datatype FretboardPosition = FretboardPosition(str: nat, fret: nat, name: string)

  datatype ChordTone = ChordTone(raw: string, idx: Pitch)

  /** The pitches that some token spells; `readings[k]` is -1 for an unknown token. */
  ghost function Spelled(readings: seq<int>): set<Pitch> {
    set p: Pitch | p in readings
  }

  ghost predicate AreReadings(readings: seq<int>) {
    forall k :: 0 <= k < |readings| ==> -1 <= readings[k] < 12
  }

  /** `name` is the first of the tokens that spells `p`. */
  ghost predicate FirstSpelling(tokens: seq<string>, readings: seq<int>, p: Pitch, name: string)
    requires |readings| == |tokens|
  {
    exists k :: 0 <= k < |tokens| && tokens[k] == name && readings[k] == p && p !in readings[..k]
  }

  method ReadTones(tokens: seq<string>, readings: seq<int>) returns (tones: seq<ChordTone>)
    requires |readings| == |tokens| && AreReadings(readings)
    ensures forall i, j :: 0 <= i < j < |tones| ==> tones[i].idx != tones[j].idx
    ensures (set i | 0 <= i < |tones| :: tones[i].idx) == Spelled(readings)
    ensures forall i :: 0 <= i < |tones| ==> FirstSpelling(tokens, readings, tones[i].idx, tones[i].raw)
  {
    tones := [];
    var seen: set<Pitch> := {};
    var k := 0;
    while k < |tokens|
      invariant k <= |tokens|
      invariant forall i, j :: 0 <= i < j < |tones| ==> tones[i].idx != tones[j].idx
      invariant seen == (set i | 0 <= i < |tones| :: tones[i].idx)
      invariant seen == Spelled(readings[..k])
      invariant forall i :: 0 <= i < |tones| ==> FirstSpelling(tokens, readings, tones[i].idx, tones[i].raw)
    {
      var idx := readings[k];
      assert readings[..k + 1] == readings[..k] + [idx];
      if idx >= 0 && idx !in seen {
        ghost var before := tones;
        assert idx !in readings[..k];
        seen := seen + {idx};
        tones := tones + [ChordTone(tokens[k], idx)];
        assert (set i | 0 <= i < |tones| :: tones[i].idx) == (set i | 0 <= i < |before| :: before[i].idx) + {idx} by {
          assert tones[|before|].idx == idx;
          forall i | 0 <= i < |before| ensures before[i].idx in (set i | 0 <= i < |tones| :: tones[i].idx) {
            assert tones[i].idx == before[i].idx;
          }
        }
      }
      k := k + 1;
    }
    assert readings[..k] == readings;
  }

  /** The notes the chosen frets sound. */
  ghost function Sounded(frets: seq<nat>): (r: set<Pitch>)
    requires |frets| <= 4
  {
    set t | 0 <= t < |frets| :: NoteAtFret(OPEN[t], frets[t])
  }

  lemma SoundedLast(frets: seq<nat>, n: nat)
    requires |frets| == n + 1 <= 4
    ensures Sounded(frets) == Sounded(frets[..n]) + {NoteAtFret(OPEN[n], frets[n])}
  {
    SoundedExtend(frets[..n], frets[n]);
    assert frets[..n] + [frets[n]] == frets;
  }

  lemma AssignsFront(tones: set<Pitch>, frets: seq<nat>, n: nat)
    requires Assigns(tones, frets) && n < |frets|
    ensures Assigns(tones, frets[..n]) && NoteAtFret(OPEN[n], frets[n]) in tones - Sounded(frets[..n])
  {
  }

  lemma {:induction false} SoundedCount(tones: set<Pitch>, frets: seq<nat>)
    requires Assigns(tones, frets)
    ensures Sounded(frets) <= tones && |Sounded(frets)| == |frets|
  {
    if frets != [] {
      var n := |frets| - 1;
      var front := frets[..n];
      AssignsFront(tones, frets, n);
      SoundedCount(tones, front);
      SoundedLast(frets, n);
    }
  }

  lemma SoundedExtend(frets: seq<nat>, x: nat)
    requires |frets| < 4
    ensures Sounded(frets + [x]) == Sounded(frets) + {NoteAtFret(OPEN[|frets|], x)}
  {
    var more := frets + [x];
    assert NoteAtFret(OPEN[|frets|], more[|frets|]) in Sounded(more);
    forall t | 0 <= t < |frets| ensures NoteAtFret(OPEN[t], frets[t]) in Sounded(more) {
      assert more[t] == frets[t];
    }
  }

  /** So far so good: an assignment that no complete assignment undercuts. */
  ghost predicate Leading(tones: set<Pitch>, frets: seq<nat>) {
    Assigns(tones, frets) && forall other :: Assigns(tones, other) && |other| == StringsUsed(|tones|) ==>
        LexLeq(frets, other)
  }

  lemma PrefixLeavesTone(tones: set<Pitch>, frets: seq<nat>, other: seq<nat>)
    requires Assigns(tones, other) && |frets| < |other| && frets <= other
    ensures NoteAtFret(OPEN[|frets|], other[|frets|]) in tones - Sounded(frets)
  {
    forall t | 0 <= t < |frets| ensures NoteAtFret(OPEN[t], frets[t]) != NoteAtFret(OPEN[|frets|], other[|frets|]) {
      assert frets[t] == other[t];
    }
  }

  /** The lowest fret among the tones not placed yet keeps the frets lexicographically least. */
  lemma GreedyStep(tones: set<Pitch>, frets: seq<nat>, best: nat, other: seq<nat>)
    requires Assigns(tones, frets) && Assigns(tones, other) && |frets| < |other| && LexLeq(frets, other)
    requires forall p | p in tones - Sounded(frets) :: best <= Delta(OPEN[|frets|], p)
    ensures LexLeq(frets + [best], other)
  {
    var s := |frets|;
    if frets <= other {
      var p := NoteAtFret(OPEN[s], other[s]);
      PrefixLeavesTone(tones, frets, other);
      LowestFret(OPEN[s], p, other[s]);
    }
    LexExtend(frets, other, best);
  }

  lemma GreedyLeads(tones: set<Pitch>, frets: seq<nat>, tone: Pitch)
    requires Leading(tones, frets) && |frets| < StringsUsed(|tones|) && tone in tones - Sounded(frets)
    requires forall p | p in tones - Sounded(frets) :: Delta(OPEN[|frets|], tone) <= Delta(OPEN[|frets|], p)
    ensures Leading(tones, frets + [Delta(OPEN[|frets|], tone)])
    ensures Sounded(frets + [Delta(OPEN[|frets|], tone)]) == Sounded(frets) + {tone}
  {
    var best := Delta(OPEN[|frets|], tone);
    LowestFret(OPEN[|frets|], tone, best);
    SoundedExtend(frets, best);
    AssignsExtend(tones, frets, best, tone);
    forall other | Assigns(tones, other) && |other| == StringsUsed(|tones|) ensures LexLeq(frets + [best], other) {
      GreedyStep(tones, frets, best, other);
    }
  }

  lemma AssignsExtend(tones: set<Pitch>, frets: seq<nat>, x: nat, tone: Pitch)
    requires Assigns(tones, frets) && |frets| < 4 && x <= MAX_FRET
    requires NoteAtFret(OPEN[|frets|], x) == tone && tone in tones - Sounded(frets)
    ensures Assigns(tones, frets + [x])
  {
    assert forall t | 0 <= t < |frets| :: NoteAtFret(OPEN[t], frets[t]) in Sounded(frets);
  }

  // ---- the loops -----------------------------------------------------------------------

  ghost function Pitches(tones: seq<ChordTone>): (r: set<Pitch>)
    ensures forall i :: 0 <= i < |tones| ==> tones[i].idx in r
  {
    set i | 0 <= i < |tones| :: tones[i].idx
  }

  ghost function FretsOf(positions: seq<FretboardPosition>): (r: seq<nat>)
    ensures |r| == |positions| && forall i :: 0 <= i < |r| ==> r[i] == positions[i].fret
  {
    seq(|positions|, i requires 0 <= i < |positions| => positions[i].fret)
  }

  ghost predicate DistinctTones(tones: seq<ChordTone>) {
    forall i, j :: 0 <= i < j < |tones| ==> tones[i].idx != tones[j].idx
  }

  function OpenIndex(s: nat): (r: Pitch)
    requires s < 4
    ensures r == OPEN[s]
  {
    TuningNames(s);
    TuningReadsTheSame(s, DEFAULT_TUNING[s]);
    BackendNoteIndex(DEFAULT_TUNING[s])
  }

  /** The tone with the lowest fret on a string among those not placed, or -1. */
  method BestTone(tones: seq<ChordTone>, done: array<bool>, open: Pitch) returns (bestTone: int, bestFret: nat)
    requires done.Length == |tones|
    ensures -1 <= bestTone < |tones|
    ensures bestTone == -1 <==> forall i :: 0 <= i < |tones| ==> done[i]
    ensures bestTone >= 0 ==> !done[bestTone] && bestFret == Delta(open, tones[bestTone].idx)
    ensures forall i :: 0 <= i < |tones| && !done[i] ==> bestFret <= Delta(open, tones[i].idx)
  {
    bestTone, bestFret := -1, MAX_FRET + 1;
    var i := 0;
    while i < |tones|
      invariant i <= |tones| && -1 <= bestTone < i
      invariant bestTone == -1 ==> bestFret == 13
      invariant bestTone == -1 <==> forall k :: 0 <= k < i ==> done[k]
      invariant bestTone >= 0 ==> !done[bestTone] && bestFret == Delta(open, tones[bestTone].idx)
      invariant forall k :: 0 <= k < i && !done[k] ==> bestFret <= Delta(open, tones[k].idx)
    {
      if !done[i] {
        var delta := Delta(open, tones[i].idx);
        LowestFret(open, tones[i].idx, 0);
        if delta < bestFret {
          bestFret := delta;
          bestTone := i;
        }
      }
      i := i + 1;
    }
  }

  method AllDone(done: array<bool>) returns (r: bool)
    ensures r <==> forall i :: 0 <= i < |done[..]| ==> done[..][i]
  {
    var i := 0;
    while i < done.Length
      invariant i <= done.Length && forall k :: 0 <= k < i ==> done[k]
    {
      if !done[i] { return false; }
      i := i + 1;
    }
    r := true;
  }

  /** `marks` flags exactly the tones whose pitch has been placed. */
  ghost predicate MarksPlaced(tones: seq<ChordTone>, marks: seq<bool>, sounded: set<Pitch>) {
    |marks| == |tones| && forall i :: 0 <= i < |tones| ==> (marks[i] <==> tones[i].idx in sounded)
  }

  lemma MarkOne(tones: seq<ChordTone>, marks: seq<bool>, sounded: set<Pitch>, k: nat)
    requires DistinctTones(tones) && MarksPlaced(tones, marks, sounded) && k < |tones|
    ensures MarksPlaced(tones, marks[k := true], sounded + {tones[k].idx})
  {
  }

  lemma AllMarked(tones: seq<ChordTone>, marks: seq<bool>, sounded: set<Pitch>)
    requires MarksPlaced(tones, marks, sounded) && sounded <= Pitches(tones)
    ensures sounded == Pitches(tones) <==> forall i :: 0 <= i < |marks| ==> marks[i]
  {
  }

  /** Position `s` is on string `s` and is labelled with the spelling of the tone it sounds. */
  ghost predicate Labelled(tones: seq<ChordTone>, positions: seq<FretboardPosition>) {
    && |positions| <= 4
    && (forall s :: 0 <= s < |positions| ==> positions[s].str == s)
    && (forall s :: 0 <= s < |positions| ==>
        ChordTone(positions[s].name, NoteAtFret(OPEN[s], positions[s].fret)) in tones)
  }

  /** The loop's picture: every string so far carries its greedy choice. */
  ghost predicate Placed(tones: seq<ChordTone>, positions: seq<FretboardPosition>) {
    Labelled(tones, positions) && Leading(Pitches(tones), FretsOf(positions))
  }

  lemma PlaceNext(tones: seq<ChordTone>, positions: seq<FretboardPosition>, k: nat, next: FretboardPosition)
    requires Placed(tones, positions) && |positions| < StringsUsed(|Pitches(tones)|) && k < |tones|
    requires tones[k].idx !in Sounded(FretsOf(positions))
    requires forall p | p in Pitches(tones) - Sounded(FretsOf(positions)) ::
               Delta(OPEN[|positions|], tones[k].idx) <= Delta(OPEN[|positions|], p)
    requires next == FretboardPosition(|positions|, Delta(OPEN[|positions|], tones[k].idx), tones[k].raw)
    ensures Placed(tones, positions + [next])
    ensures Sounded(FretsOf(positions + [next])) == Sounded(FretsOf(positions)) + {tones[k].idx}
  {
    var frets := FretsOf(positions);
    assert FretsOf(positions + [next]) == frets + [next.fret];
    GreedyLeads(Pitches(tones), frets, tones[k].idx);
    LowestFret(OPEN[|positions|], tones[k].idx, next.fret);
    assert tones[k] == ChordTone(next.name, NoteAtFret(OPEN[|positions|], next.fret));
  }

  lemma PlacedEnough(tones: seq<ChordTone>, positions: seq<FretboardPosition>)
    requires Placed(tones, positions)
    requires Sounded(FretsOf(positions)) == Pitches(tones) || |positions| == 4
    ensures LeastAssignment(Pitches(tones), FretsOf(positions))
  {
    SoundedCount(Pitches(tones), FretsOf(positions));
    if Sounded(FretsOf(positions)) != Pitches(tones) {
      SmallerSet(Sounded(FretsOf(positions)), Pitches(tones));
    }
  }

  lemma PlacedNotYetFull(tones: seq<ChordTone>, positions: seq<FretboardPosition>)
    requires Placed(tones, positions) && Sounded(FretsOf(positions)) < Pitches(tones) && |positions| < 4
    ensures |positions| < StringsUsed(|Pitches(tones)|)
  {
    SoundedCount(Pitches(tones), FretsOf(positions));
    SmallerSet(Sounded(FretsOf(positions)), Pitches(tones));
  }

  /** Some tones are placed and marked so, and some are left. */
  ghost predicate HalfWay(tones: seq<ChordTone>, positions: seq<FretboardPosition>, marks: seq<bool>) {
    && Placed(tones, positions) && Sounded(FretsOf(positions)) < Pitches(tones)
    && MarksPlaced(tones, marks, Sounded(FretsOf(positions)))
  }

  lemma AllOrSome(tones: seq<ChordTone>, positions: seq<FretboardPosition>, marks: seq<bool>)
    requires Placed(tones, positions) && MarksPlaced(tones, marks, Sounded(FretsOf(positions)))
    ensures if forall i :: 0 <= i < |marks| ==> marks[i] then Sounded(FretsOf(positions)) == Pitches(tones)
            else HalfWay(tones, positions, marks)
  {
    PlacedWithin(tones, positions);
    AllMarked(tones, marks, Sounded(FretsOf(positions)));
  }

  /** Somebody is still to be placed, and there is a string for it. */
  lemma SomeLeft(tones: seq<ChordTone>, positions: seq<FretboardPosition>, marks: seq<bool>)
    requires HalfWay(tones, positions, marks) && |positions| < 4
    ensures |positions| < StringsUsed(|Pitches(tones)|)
    ensures exists i :: 0 <= i < |marks| && !marks[i]
    ensures forall i :: 0 <= i < |tones| ==> (marks[i] <==> tones[i].idx in Sounded(FretsOf(positions)))
  {
    PlacedNotYetFull(tones, positions);
    AllMarked(tones, marks, Sounded(FretsOf(positions)));
  }

  /** The body of the loop over strings. */
  method PlaceBest(tones: seq<ChordTone>, done: array<bool>, before: seq<FretboardPosition>)
    returns (positions: seq<FretboardPosition>, allDone: bool)
    requires DistinctTones(tones) && |before| < 4 && HalfWay(tones, before, done[..])
    modifies done
    ensures |positions| == |before| + 1 && Placed(tones, positions)
    ensures if allDone then Sounded(FretsOf(positions)) == Pitches(tones) else HalfWay(tones, positions, done[..])
  {
    var bestTone, bestFret := BestTone(tones, done, OpenIndex(|before|));
    SomeLeft(tones, before, done[..]);
    assert forall i | 0 <= i < |tones| :: done[..][i] == done[i];
    var next := FretboardPosition(|before|, bestFret, tones[bestTone].raw);
    MarkOne(tones, done[..], Sounded(FretsOf(before)), bestTone);
    PlaceNext(tones, before, bestTone, next);
    positions := before + [next];
    done[bestTone] := true;
    allDone := AllDone(done);
    AllOrSome(tones, positions, done[..]);
  }

  lemma NothingPlaced(tones: seq<ChordTone>, marks: seq<bool>)
    requires tones != [] && |marks| == |tones| && forall i :: 0 <= i < |marks| ==> !marks[i]
    ensures HalfWay(tones, [], marks)
  {
    assert tones[0].idx in Pitches(tones);
    assert FretsOf([]) == [];
  }

  method AssignStrings(tones: seq<ChordTone>) returns (positions: seq<FretboardPosition>)
    requires tones != [] && DistinctTones(tones)
    ensures LeastAssignment(Pitches(tones), FretsOf(positions))
    ensures Labelled(tones, positions)
  {
    var done := new bool[|tones|](_ => false);
    positions := [];
    NothingPlaced(tones, done[..]);
    var s := 0;
    while s < 4
      invariant s == |positions| <= 4 && HalfWay(tones, positions, done[..])
    {
      var allDone;
      positions, allDone := PlaceBest(tones, done, positions);
      if allDone { break; }
      s := s + 1;
    }
    PlacedEnough(tones, positions);
  }

  lemma PlacedWithin(tones: seq<ChordTone>, positions: seq<FretboardPosition>)
    requires Placed(tones, positions)
    ensures Sounded(FretsOf(positions)) <= Pitches(tones)
  {
    SoundedCount(Pitches(tones), FretsOf(positions));
  }

  lemma SmallerSet(a: set<Pitch>, b: set<Pitch>)
    requires a < b
    ensures |a| < |b|
  {
    assert b == a + (b - a);
    assert b - a != {};
  }

  // ---- the whole function --------------------------------------------------------------

  predicate Blank(s: string) {
    Trim(s, IsGoSpace) == ""
  }

  lemma BlankHasNoWords(s: string)
    requires Blank(s)
    ensures Words(s, IsGoSpace) == []
  {
    TrimLeftKeepsAWord(s);
    var t := TrimLeft(s, IsGoSpace);
    if t != "" {
      TrimRightKeepsHead(t);
    }
  }

  lemma {:induction false} TrimLeftKeepsAWord(s: string)
    ensures var t := TrimLeft(s, IsGoSpace); t == "" || !IsGoSpace(t[0])
    ensures TrimLeft(s, IsGoSpace) == "" ==> Words(s, IsGoSpace) == []
  {
    if s != "" && IsGoSpace(s[0]) {
      TrimLeftKeepsAWord(s[1..]);
    }
  }

  lemma {:induction false} TrimRightKeepsHead(s: string)
    requires s != "" && !IsGoSpace(s[0])
    ensures TrimRight(s, IsGoSpace) != ""
  {
    if IsGoSpace(s[|s| - 1]) {
      TrimRightKeepsHead(s[..|s| - 1]);
    }
  }

  /** The tokens of a chord card's notes; none for any other card. */
  function Tokens(card: Option<Card>): seq<string> {
    match card
    case Some(Card(Some(chordType), Some(notes))) => if Blank(chordType) then [] else Words(notes, IsGoSpace)
    case _ => []
  }

  /** The pitches a card's notes spell. */
  ghost function CardTones(card: Option<Card>): set<Pitch> {
    Spelled(Map(BackendNoteIndex, Tokens(card)))
  }

  /** A card with a chord type that is not blank and a notes text. */
  ghost predicate ChordCard(card: Option<Card>) {
    && card.Some? && card.value.chordType.Some? && card.value.notes.Some?
    && exists c :: c in card.value.chordType.value && !IsGoSpace(c)
  }

  /** The space-free run `notes[i..j]` is read as `p`. */
  ghost predicate RunReads(notes: string, i: int, j: int, p: int) {
    MaximalRun(notes, IsGoSpace, i, j) && BackendNoteIndex(notes[i..j]) == p
  }

  /** The chord's pitches are those of the space-free runs of the notes text. */
  ghost predicate CardSpells(card: Option<Card>, p: Pitch) {
    ChordCard(card) && exists i, j :: RunReads(card.value.notes.value, i, j, p)
  }

  /** `name` is the first run that is read as `p`. */
  ghost predicate FirstRun(notes: string, p: Pitch, name: string) {
    exists i, j :: RunReads(notes, i, j, p) && name == notes[i..j]
      && forall a, b :: RunReads(notes, a, b, p) ==> i <= a
  }

  lemma {:induction false} BlankIsAllSpaces(s: string)
    ensures Blank(s) <==> forall c | c in s :: IsGoSpace(c)
  {
    var i, j := TrimIs(s, IsGoSpace);
    if i < j {
      assert s[i] in s;
    } else {
      forall c | c in s ensures IsGoSpace(c) {
        var k :| 0 <= k < |s| && s[k] == c;
      }
    }
  }

  lemma ChordCardHasTokens(card: Option<Card>)
    ensures ChordCard(card) ==> Tokens(card) == Words(card.value.notes.value, IsGoSpace)
    ensures !ChordCard(card) ==> Tokens(card) == []
  {
    if card.Some? && card.value.chordType.Some? {
      BlankIsAllSpaces(card.value.chordType.value);
    }
  }

  lemma WordReads(notes: string, words: seq<string>, starts: seq<nat>, p: int, k: nat)
    requires StartsOf(notes, IsGoSpace, words, starts) && k < |starts|
    ensures RunReads(notes, starts[k], starts[k] + |words[k]|, p) <==> BackendNoteIndex(words[k]) == p
    ensures MaximalRun(notes, IsGoSpace, starts[k], starts[k] + |words[k]|)
    ensures notes[starts[k]..starts[k] + |words[k]|] == words[k]
  {
    StartIs(notes, IsGoSpace, words, starts, k);
  }

  lemma RunIsAWord(notes: string, words: seq<string>, starts: seq<nat>, i: int, j: int) returns (k: nat)
    requires StartsOf(notes, IsGoSpace, words, starts) && MaximalRun(notes, IsGoSpace, i, j)
    ensures k < |starts| && starts[k] == i && notes[i..j] == words[k]
  {
    k :| 0 <= k < |starts| && starts[k] == i;
    StartIs(notes, IsGoSpace, words, starts, k);
    assert j == i + |words[k]|;
  }

  /** The first word read as `p` is the first run read as `p`. */
  lemma FirstWordIsFirstRun(notes: string, words: seq<string>, starts: seq<nat>, p: Pitch, k: nat)
    requires StartsOf(notes, IsGoSpace, words, starts) && k < |words|
    requires BackendNoteIndex(words[k]) == p && forall m :: 0 <= m < k ==> BackendNoteIndex(words[m]) != p
    ensures FirstRun(notes, p, words[k])
  {
    WordReads(notes, words, starts, p, k);
    forall a, b | RunReads(notes, a, b, p) ensures starts[k] <= a {
      var m := RunIsAWord(notes, words, starts, a, b);
      StartsAscend(notes, IsGoSpace, words, starts, k, m);
    }
  }

  /** What the tokens are, without the tokens. */
  lemma CardTonesExact(card: Option<Card>, p: Pitch)
    ensures p in CardTones(card) <==> CardSpells(card, p)
  {
    ChordCardHasTokens(card);
    if ChordCard(card) {
      WordsSpell(card.value.notes.value, p);
    }
  }

  lemma WordsSpell(notes: string, p: Pitch)
    ensures p in Map(BackendNoteIndex, Words(notes, IsGoSpace)) <==> exists i, j :: RunReads(notes, i, j, p)
  {
    var words := Words(notes, IsGoSpace);
    var readings := Map(BackendNoteIndex, words);
    var starts := WordsAreTheRuns(notes, IsGoSpace);
    if p in readings {
      var k :| 0 <= k < |readings| && readings[k] == p;
      WordReads(notes, words, starts, p, k);
    }
    if i, j :| RunReads(notes, i, j, p) {
      var k := RunIsAWord(notes, words, starts, i, j);
      assert readings[k] == p;
    }
  }

  ghost function PitchesOf(card: Option<Card>): set<Pitch> {
    set p: Pitch | p < 12 && CardSpells(card, p)
  }

  lemma PitchesAreTones(card: Option<Card>)
    ensures PitchesOf(card) == CardTones(card)
  {
    forall p: Pitch ensures p in CardTones(card) <==> p in PitchesOf(card) { CardTonesExact(card, p); }
  }

  lemma FirstSpellingIsFirstRun(notes: string, p: Pitch, name: string)
    requires FirstSpelling(Words(notes, IsGoSpace), Map(BackendNoteIndex, Words(notes, IsGoSpace)), p, name)
    ensures FirstRun(notes, p, name)
  {
    var starts := WordsAreTheRuns(notes, IsGoSpace);
    var k := FirstSpelled(Words(notes, IsGoSpace), Map(BackendNoteIndex, Words(notes, IsGoSpace)), p, name);
    FirstWordIsFirstRun(notes, Words(notes, IsGoSpace), starts, p, k);
  }

  lemma FirstSpelled(tokens: seq<string>, readings: seq<int>, p: Pitch, name: string) returns (k: nat)
    requires |readings| == |tokens| && FirstSpelling(tokens, readings, p, name)
    ensures k < |tokens| && tokens[k] == name && readings[k] == p && forall m :: 0 <= m < k ==> readings[m] != p
  {
    k :| 0 <= k < |tokens| && tokens[k] == name && readings[k] == p && p !in readings[..k];
    forall m | 0 <= m < k ensures readings[m] != p {
      assert readings[m] == readings[..k][m] && readings[..k][m] in readings[..k];
    }
  }

  /**
   * No positions exactly when the card is absent, its chord type is absent or blank, its notes are
   * absent, or no space-free run of the notes is a note name. Otherwise the least assignment of the
   * pitches of those runs, on strings 0, 1, .., each labelled with the first run of its pitch.
   */
  method ComputeChordPositions(card: Option<Card>) returns (positions: seq<FretboardPosition>)
    ensures positions == [] <==> forall p :: !CardSpells(card, p)
    ensures positions == [] <==> PitchesOf(card) == {}
    ensures positions != [] ==>
              ChordCard(card) && |positions| <= 4
              && LeastAssignment(PitchesOf(card), FretsOf(positions))
    ensures positions != [] ==>
              forall s :: 0 <= s < |positions| && s < 4 ==>
                positions[s].str == s
                && FirstRun(card.value.notes.value, NoteAtFret(OPEN[s], positions[s].fret), positions[s].name)
  {
    positions := TonesOnStrings(card);
    PitchesAreTones(card);
    ChordCardHasTokens(card);
    assert forall p :: CardSpells(card, p) <==> p in PitchesOf(card);
    if positions != [] {
      forall s | 0 <= s < |positions| && s < 4
        ensures FirstRun(card.value.notes.value, NoteAtFret(OPEN[s], positions[s].fret), positions[s].name)
      {
        FirstSpellingIsFirstRun(card.value.notes.value, NoteAtFret(OPEN[s], positions[s].fret), positions[s].name);
      }
    }
  }

  method TonesOnStrings(card: Option<Card>) returns (positions: seq<FretboardPosition>)
    ensures var readings := Map(BackendNoteIndex, Tokens(card));
      && (positions == [] <==> CardTones(card) == {})
      && (positions != [] ==> LeastAssignment(CardTones(card), FretsOf(positions)))
      && forall s :: 0 <= s < |positions| && s < 4 ==>
           positions[s].str == s
           && FirstSpelling(Tokens(card), readings, NoteAtFret(OPEN[s], positions[s].fret), positions[s].name)
  {
    if card.None? || card.value.chordType.None? || Blank(card.value.chordType.value) || card.value.notes.None? {
      return [];
    }
    if Blank(card.value.notes.value) {
      BlankHasNoWords(card.value.notes.value);
      return [];
    }
    positions := PositionsOfTokens(Words(card.value.notes.value, IsGoSpace),
                                   Map(BackendNoteIndex, Words(card.value.notes.value, IsGoSpace)));
  }

  method PositionsOfTokens(tokens: seq<string>, readings: seq<int>) returns (positions: seq<FretboardPosition>)
    requires |readings| == |tokens| && AreReadings(readings)
    ensures positions == [] <==> Spelled(readings) == {}
    ensures positions != [] ==> LeastAssignment(Spelled(readings), FretsOf(positions))
    ensures forall s :: 0 <= s < |positions| && s < 4 ==>
              positions[s].str == s
              && FirstSpelling(tokens, readings, NoteAtFret(OPEN[s], positions[s].fret), positions[s].name)
  {
    var tones := ReadTones(tokens, readings);
    if tones == [] { return []; }
    assert tones[0].idx in Spelled(readings);
    positions := AssignStrings(tones);
    assert Pitches(tones) == Spelled(readings);
    forall s | 0 <= s < |positions| && s < 4
      ensures FirstSpelling(tokens, readings, NoteAtFret(OPEN[s], positions[s].fret), positions[s].name)
    {
      var i :| 0 <= i < |tones| && tones[i] == ChordTone(positions[s].name, NoteAtFret(OPEN[s], positions[s].fret));
    }
    NonEmptyCount(Spelled(readings));
  }

  lemma NonEmptyCount(ps: set<Pitch>)
    ensures ps != {} ==> |ps| > 0
  {
  }

  // ---- against the frontend ------------------------------------------------------------

  /** The frontend's shape for frets on strings 0, 1, .. of the fixed tuning. */
  function Shape(frets: seq<nat>): (v: Voicing)
    requires |frets| <= 4
    ensures |v| == |frets|
    ensures forall s :: 0 <= s < |v| ==> v[s] == Position(s, frets[s], NoteAtFret(OPEN[s], frets[s]))
  {
    seq(|frets|, s requires 0 <= s < |frets| => Position(s, frets[s], NoteAtFret(OPEN[s], frets[s])))
  }

  lemma {:induction false} DistinctCount(ps: seq<Pitch>, all: set<Pitch>)
    requires NoDup(ps) && forall p :: p in ps <==> p in all
    ensures |ps| == |all|
  {
    if ps == [] {
      assert all == {};
    } else {
      assert ps == [ps[0]] + ps[1..];
      DistinctCount(ps[1..], all - {ps[0]});
    }
  }

  /**
   * The greedy answer is one of the frontend's playable voicings on the same tuning and frets
   * exactly when the chord has at most four tones and the answer fits the span.
   */
  lemma GreedyInEnumeration(tones: set<Pitch>, frets: seq<nat>, chord: seq<Pitch>, o: Options)
    requires LeastAssignment(tones, frets) && tones != {}
    requires NoDup(chord) && chord != [] && forall p :: p in chord <==> p in tones
    requires o.minFret == 0 && o.maxFret == MAX_FRET
    ensures Shape(frets) in Collected(chord, OPEN, o) <==> |tones| <= 4 && InSpan(o.maxSpan, Shape(frets))
    ensures o.maxSpan >= 10 ==> InSpan(o.maxSpan, Shape(frets))
  {
    CollectedExact(chord, OPEN, o, Shape(frets));
    DistinctCount(chord, tones);
    if |tones| <= 4 {
      ShapeCovers(tones, frets, chord);
      ShapeAllowed(tones, frets, o);
    } else {
      assert |Shape(frets)| == 4 < |chord|;
    }
    GreedyFitsTenFrets(tones, frets, o.maxSpan);
  }

  lemma ShapeAllowed(tones: set<Pitch>, frets: seq<nat>, o: Options)
    requires Assigns(tones, frets) && o.minFret == 0 && o.maxFret == MAX_FRET
    ensures forall i :: 0 <= i < |Shape(frets)| ==> FretAllowed(o, Shape(frets)[i].fret)
  {
  }

  lemma GreedyFitsTenFrets(tones: set<Pitch>, frets: seq<nat>, maxSpan: int)
    requires LeastAssignment(tones, frets)
    ensures maxSpan >= 10 ==> InSpan(maxSpan, Shape(frets))
  {
    forall s | 0 <= s < |frets| ensures frets[s] < 12 { LeastBelowOctave(tones, frets, s); }
  }

  lemma ShapeCovers(tones: set<Pitch>, frets: seq<nat>, chord: seq<Pitch>)
    requires Assigns(tones, frets) && |frets| == |chord| && forall p :: p in chord <==> p in tones
    ensures CoversChord(chord, OPEN, Shape(frets))
  {
    var v := Shape(frets);
    assert forall s | 0 <= s < |v| :: Labels(v)[s] == NoteAtFret(OPEN[s], frets[s]);
    assert forall s | 0 <= s < |v| :: Strings(v)[s] == s;
  }

  /** The frontend's reading of the fixed tuning. */
  ghost predicate ReadsAsOpen(tuning: seq<Option<Pitch>>) {
    |tuning| == 4 && forall s :: 0 <= s < 4 ==> tuning[s] == Some(OPEN[s])
  }

  lemma OpenStrings(tuning: seq<Option<Pitch>>)
    requires ReadsAsOpen(tuning)
    ensures Map(OrZero, tuning) == OPEN && None !in tuning
  {
  }

  lemma FrontendReadsDefaultTuning()
    ensures ReadsAsOpen(Map(NoteIndex, DEFAULT_TUNING))
  {
    forall s | 0 <= s < 4 ensures NoteIndex(DEFAULT_TUNING[s]) == Some(OPEN[s]) {
      TuningNames(s);
      TuningReadsTheSame(s, DEFAULT_TUNING[s]);
    }
    assert |DEFAULT_TUNING| == 4;
  }

  /**
   * End to end: when a chord card spells the one to four tones of a chord, the positions that
   * `ComputeChordPositions` returns for the card have the shape of a voicing that
   * `getChordVoicings` returns for the chord's root and intervals on the default tuning.
   */
  lemma BackendAnswerIsAFrontendVoicing(
      card: Option<Card>, positions: seq<FretboardPosition>, root: string, intervals: seq<nat>, o: Options)
    requires positions != [] && LeastAssignment(PitchesOf(card), FretsOf(positions)) && |PitchesOf(card)| <= 4
    requires NoteIndex(root).Some?
    requires forall p :: p in ChordTones(NoteIndex(root).value, intervals) <==> p in PitchesOf(card)
    requires o.minFret == 0 && o.maxFret == MAX_FRET && o.maxSpan >= 10
    requires o.limit >= CollectedCount(NoteIndex(root).value, intervals, OPEN, o)
    ensures var r := ChordVoicings(root, intervals, DEFAULT_TUNING, o);
            r.Answer? && Shape(FretsOf(positions)) in r.voicings
  {
    FrontendReadsDefaultTuning();
    ShapeIsReturned(PitchesOf(card), FretsOf(positions), NoteIndex(root).value, intervals,
                    Map(NoteIndex, DEFAULT_TUNING), o);
  }

  /** The same once the names are read. */
  lemma ShapeIsReturned(tones: set<Pitch>, frets: seq<nat>, root: Pitch, intervals: seq<nat>,
                        tuning: seq<Option<Pitch>>, o: Options)
    requires frets != [] && |tones| <= 4 && LeastAssignment(tones, frets) && ReadsAsOpen(tuning)
    requires forall p :: p in ChordTones(root, intervals) <==> p in tones
    requires o.minFret == 0 && o.maxFret == MAX_FRET && o.maxSpan >= 10
    requires o.limit >= CollectedCount(root, intervals, OPEN, o)
    ensures var r := VoicingsOf(Some(root), intervals, tuning, o); r.Answer? && Shape(frets) in r.voicings
  {
    var chord := ChordTones(root, intervals);
    ChordTonesExact(root, intervals);
    NoTonesNoIntervals(root, intervals);
    OpenStrings(tuning);
    assert NoteAtFret(OPEN[0], frets[0]) in chord;
    GreedyInEnumeration(tones, frets, chord, o);
    CollectedExact(chord, OPEN, o, Shape(frets));
    VoicingsOfExact(root, intervals, tuning, o, Shape(frets));
  }
}
