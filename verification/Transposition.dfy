/**
 * The search only sees distances between notes: raising the root and every open string by the
 * same number of semitones returns the same shapes in the same order, with the labels raised.
 */
module Transposition {
  import opened Seqs
  import opened Sorting
  import opened Notes
  import opened Enumeration
  import opened Voicings
  import opened VoicingTheorems

  /** A relabelling of notes that keeps notes apart and keeps fret distances. */
  ghost predicate Transposes(f: Pitch -> Pitch) {
    && (forall p, q :: f(p) == f(q) ==> p == q)
    && (forall p: Pitch, n: nat :: NoteAtFret(f(p), n) == f(NoteAtFret(p, n)))
  }

  /** `g` rewrites the labels of a voicing by `f` and touches nothing else. */
  ghost predicate Relabels(f: Pitch -> Pitch, g: Voicing -> Voicing) {
    forall v: Voicing :: |g(v)| == |v| && forall i :: 0 <= i < |v| ==> g(v)[i] == v[i].(tone := f(v[i].tone))
  }

  lemma {:induction false} AddAllMap(f: Pitch -> Pitch, acc: seq<Pitch>, ps: seq<Pitch>)
    requires Transposes(f)
    ensures AddAll(Map(f, acc), Map(f, ps)) == Map(f, AddAll(acc, ps))
    decreases ps
  {
    if ps != [] {
      var p := ps[0];
      assert Map(f, ps)[1..] == Map(f, ps[1..]);
      InMap(f, acc, p);
      MapAppend(f, acc, [p]);
      assert Map(f, [p]) == [f(p)];
      AddAllMap(f, if p in acc then acc else acc + [p], ps[1..]);
    }
  }

  lemma InMap(f: Pitch -> Pitch, ps: seq<Pitch>, p: Pitch)
    requires Transposes(f)
    ensures f(p) in Map(f, ps) <==> p in ps
  {
    if f(p) in Map(f, ps) {
      var i :| 0 <= i < |ps| && Map(f, ps)[i] == f(p);
      assert ps[i] == p;
    }
    if p in ps {
      var i :| 0 <= i < |ps| && ps[i] == p;
      assert Map(f, ps)[i] == f(p);
    }
  }

  lemma ChordTonesMap(f: Pitch -> Pitch, root: Pitch, intervals: seq<nat>)
    requires Transposes(f)
    ensures ChordTones(f(root), intervals) == Map(f, ChordTones(root, intervals))
  {
    forall i | 0 <= i < |intervals|
      ensures IntervalTones(f(root), intervals)[i] == Map(f, IntervalTones(root, intervals))[i]
    {
      assert NoteAtFret(f(root), intervals[i]) == f(NoteAtFret(root, intervals[i]));
    }
    assert IntervalTones(f(root), intervals) == Map(f, IntervalTones(root, intervals));
    AddAllMap(f, [], IntervalTones(root, intervals));
  }

  lemma {:induction false} WindowFretsMap(f: Pitch -> Pitch, open: Pitch, tone: Pitch, lo: nat, hi: int)
    requires Transposes(f)
    ensures WindowFrets(f(open), f(tone), lo, hi) == WindowFrets(open, tone, lo, hi)
    decreases hi - lo
  {
    if lo <= hi {
      assert NoteAtFret(f(open), lo) == f(NoteAtFret(open, lo));
      WindowFretsMap(f, open, tone, lo + 1, hi);
    }
  }

  lemma ChoicesMap(f: Pitch -> Pitch, open: seq<Pitch>, o: Options, strings: seq<nat>, perm: seq<Pitch>)
    requires Transposes(f) && StringsFit(open, |perm|, strings)
    ensures Choices(Map(f, open), o, strings, Map(f, perm)) == Choices(open, o, strings, perm)
  {
    forall i | 0 <= i < |perm|
      ensures FretsFor(f(open[strings[i]]), f(perm[i]), o) == FretsFor(open[strings[i]], perm[i], o)
    {
      WindowFretsMap(f, open[strings[i]], perm[i], o.minFret, o.maxFret);
    }
  }

  lemma LeavesMap(f: Pitch -> Pitch, g: Voicing -> Voicing, open: seq<Pitch>, o: Options, strings: seq<nat>,
                  perm: seq<Pitch>)
    requires Transposes(f) && Relabels(f, g) && StringsFit(open, |perm|, strings)
    ensures Leaves(Map(f, open), o, strings, Map(f, perm)) == Map(g, Leaves(open, o, strings, perm))
  {
    ChoicesMap(f, open, o, strings, perm);
    ProductLengths(Choices(open, o, strings, perm), []);
    PlaceAllMap(f, g, strings, perm, Product(Choices(open, o, strings, perm), []));
  }

  lemma PlaceMap(f: Pitch -> Pitch, g: Voicing -> Voicing, strings: seq<nat>, perm: seq<Pitch>, frets: seq<nat>)
    requires Relabels(f, g) && |strings| == |perm| == |frets|
    ensures Place(strings, Map(f, perm), frets) == g(Place(strings, perm, frets))
  {
    var v, w := Place(strings, perm, frets), Place(strings, Map(f, perm), frets);
    forall i | 0 <= i < |v| ensures w[i] == g(v)[i] {
      assert g(v)[i] == v[i].(tone := f(v[i].tone));
    }
  }

  lemma SameAsMapped(g: Voicing -> Voicing, vs: seq<Voicing>, ws: seq<Voicing>)
    requires |vs| == |ws| && forall i :: 0 <= i < |vs| ==> ws[i] == g(vs[i])
    ensures ws == Map(g, vs)
  {
  }

  lemma PlaceAllMap(f: Pitch -> Pitch, g: Voicing -> Voicing, strings: seq<nat>, perm: seq<Pitch>, fss: seq<seq<nat>>)
    requires Relabels(f, g) && |strings| == |perm| && forall fs | fs in fss :: |fs| == |perm|
    ensures PlaceAll(strings, Map(f, perm), fss) == Map(g, PlaceAll(strings, perm, fss))
  {
    var placed, mapped := PlaceAll(strings, perm, fss), PlaceAll(strings, Map(f, perm), fss);
    forall i | 0 <= i < |fss| ensures mapped[i] == g(placed[i]) {
      assert fss[i] in fss;
      PlaceMap(f, g, strings, perm, fss[i]);
    }
    SameAsMapped(g, placed, mapped);
  }

  lemma {:induction false} LeavesForPermsMap(
      f: Pitch -> Pitch, g: Voicing -> Voicing, open: seq<Pitch>, o: Options, strings: seq<nat>, perms: seq<seq<Pitch>>)
    requires Transposes(f) && Relabels(f, g)
    requires forall p | p in perms :: StringsFit(open, |p|, strings)
    ensures forall p | p in MapEach(f, perms) :: StringsFit(Map(f, open), |p|, strings)
    ensures LeavesForPerms(Map(f, open), o, strings, MapEach(f, perms)) ==
            Map(g, LeavesForPerms(open, o, strings, perms))
  {
    var perms' := MapEach(f, perms);
    forall p | p in perms' ensures StringsFit(Map(f, open), |p|, strings) {
      var i :| 0 <= i < |perms| && perms'[i] == p;
      assert perms[i] in perms;
    }
    if perms != [] {
      assert perms[0] in perms && forall p | p in perms[1..] :: p in perms;
      LeavesMap(f, g, open, o, strings, perms[0]);
      LeavesForPermsMap(f, g, open, o, strings, perms[1..]);
      assert perms'[1..] == MapEach(f, perms[1..]);
      MapAppend(g, Leaves(open, o, strings, perms[0]), LeavesForPerms(open, o, strings, perms[1..]));
    }
  }

  lemma AllFitMap(f: Pitch -> Pitch, open: seq<Pitch>, combos: seq<seq<nat>>, perms: seq<seq<Pitch>>)
    requires AllFit(open, combos, perms)
    ensures AllFit(Map(f, open), combos, MapEach(f, perms))
  {
    forall c, p | c in combos && p in MapEach(f, perms) ensures StringsFit(Map(f, open), |p|, c) {
      var i :| 0 <= i < |perms| && MapEach(f, perms)[i] == p;
      assert perms[i] in perms && |p| == |perms[i]| && StringsFit(open, |perms[i]|, c);
    }
  }

  lemma {:induction false} LeavesForCombosMap(
      f: Pitch -> Pitch, g: Voicing -> Voicing, open: seq<Pitch>, o: Options, combos: seq<seq<nat>>,
      perms: seq<seq<Pitch>>)
    requires Transposes(f) && Relabels(f, g)
    requires AllFit(open, combos, perms) && AllFit(Map(f, open), combos, MapEach(f, perms))
    ensures LeavesForCombos(Map(f, open), o, combos, MapEach(f, perms)) ==
            Map(g, LeavesForCombos(open, o, combos, perms))
  {
    if combos != [] {
      assert combos[0] in combos && forall c | c in combos[1..] :: c in combos;
      LeavesForPermsMap(f, g, open, o, combos[0], perms);
      LeavesForCombosMap(f, g, open, o, combos[1..], perms);
      MapAppend(g, LeavesForPerms(open, o, combos[0], perms), LeavesForCombos(open, o, combos[1..], perms));
    }
  }

  lemma MapNoDup(f: Pitch -> Pitch, tones: seq<Pitch>)
    requires Transposes(f) && NoDup(tones)
    ensures NoDup(Map(f, tones))
  {
  }

  lemma AllLeavesMap(f: Pitch -> Pitch, g: Voicing -> Voicing, tones: seq<Pitch>, open: seq<Pitch>, o: Options)
    requires Transposes(f) && Relabels(f, g) && NoDup(tones) && NoDup(Map(f, tones))
    ensures AllLeaves(Map(f, tones), Map(f, open), o) == Map(g, AllLeaves(tones, open, o))
  {
    EnumerationsFit(tones, open);
    AllFitMap(f, open, AllCombos(tones, open), AllPerms(tones));
    PermsMap(f, tones, NoneUsed(|tones|), []);
    assert AllPerms(Map(f, tones)) == MapEach(f, AllPerms(tones));
    LeavesForCombosMap(f, g, open, o, AllCombos(tones, open), AllPerms(tones));
  }

  /** Frets decide everything the search checks or sorts by; labels decide nothing. */
  lemma RelabelKeepsFrets(f: Pitch -> Pitch, g: Voicing -> Voicing, v: Voicing)
    requires Relabels(f, g)
    ensures Frets(g(v)) == Frets(v) && |g(v)| == |v|
    ensures forall i :: 0 <= i < |v| ==> g(v)[i].fret == v[i].fret
  {
  }

  lemma RelabelKeepsKept(f: Pitch -> Pitch, g: Voicing -> Voicing, o: Options, v: Voicing)
    requires Relabels(f, g)
    ensures Kept(o, g(v)) == Kept(o, v)
  {
    RelabelKeepsFrets(f, g, v);
  }

  lemma CollectedMap(f: Pitch -> Pitch, g: Voicing -> Voicing, tones: seq<Pitch>, open: seq<Pitch>, o: Options)
    requires Transposes(f) && Relabels(f, g) && NoDup(tones) && NoDup(Map(f, tones)) && tones != []
    ensures Collected(Map(f, tones), Map(f, open), o) == Map(g, Collected(tones, open, o))
  {
    AllLeavesMap(f, g, tones, open, o);
    SeenNeverRejects(tones, open, o);
    SeenNeverRejects(Map(f, tones), Map(f, open), o);
    forall v ensures KeptTest(o)(g(v)) == KeptTest(o)(v) { RelabelKeepsKept(f, g, o, v); }
    FilterMap(KeptTest(o), g, AllLeaves(tones, open, o));
  }

  lemma RelabelKeepsRank(f: Pitch -> Pitch, g: Voicing -> Voicing, v: Voicing, w: Voicing)
    requires Relabels(f, g)
    ensures RanksBefore(g(v), g(w)) == RanksBefore(v, w)
  {
    RelabelKeepsFrets(f, g, v);
    RelabelKeepsFrets(f, g, w);
  }

  lemma SliceMap(g: Voicing -> Voicing, s: seq<Voicing>, limit: int)
    ensures SliceTo(Map(g, s), limit) == Map(g, SliceTo(s, limit))
  {
  }

  lemma RankedMap(f: Pitch -> Pitch, g: Voicing -> Voicing, tones: seq<Pitch>, open: seq<Pitch>, o: Options)
    requires Transposes(f) && Relabels(f, g) && NoDup(tones) && NoDup(Map(f, tones)) && tones != []
    ensures Ranked(Map(f, tones), Map(f, open), o) == Map(g, Ranked(tones, open, o))
  {
    CollectedMap(f, g, tones, open, o);
    var c := Collected(tones, open, o);
    forall v, w ensures RanksBefore(g(v), g(w)) == RanksBefore(v, w) { RelabelKeepsRank(f, g, v, w); }
    SortMap(RanksBefore, g, c);
    SliceMap(g, StableSort(RanksBefore, c), o.limit);
  }

  // ---- the theorem on readings ---------------------------------------------------------

  function RaiseReading(f: Pitch -> Pitch, r: Option<Pitch>): Option<Pitch> {
    match r case Some(p) => Some(f(p)) case None => None
  }

  function RaiseTuning(f: Pitch -> Pitch, tuning: seq<Option<Pitch>>): (r: seq<Option<Pitch>>)
    ensures |r| == |tuning| && forall i :: 0 <= i < |r| ==> r[i] == RaiseReading(f, tuning[i])
  {
    seq(|tuning|, i requires 0 <= i < |tuning| => RaiseReading(f, tuning[i]))
  }

  function RaiseAnswer(g: Voicing -> Voicing, a: Answer): Answer {
    match a
    case UnknownNote => UnknownNote
    case Answer(vs) => Answer(Map(g, vs))
  }

  lemma UnreadableStays(f: Pitch -> Pitch, tuning: seq<Option<Pitch>>)
    ensures None in RaiseTuning(f, tuning) <==> None in tuning
  {
    if None in tuning {
      var i :| 0 <= i < |tuning| && tuning[i] == None;
      assert RaiseTuning(f, tuning)[i] == None;
    }
  }

  lemma ClosedWindowFindsNothing(tones: seq<Pitch>, open: seq<Pitch>, o: Options)
    requires NoDup(tones) && tones != [] && !WindowReads(o)
    ensures Ranked(tones, open, o) == []
  {
    var c := Collected(tones, open, o);
    if c != [] {
      CollectedExact(tones, open, o, c[0]);
      ClosedWindowPlaysNothing(tones, open, o, c[0]);
    }
  }

  lemma ClosedWindowPlaysNothing(tones: seq<Pitch>, open: seq<Pitch>, o: Options, v: Voicing)
    requires tones != [] && !WindowReads(o)
    ensures !Playable(tones, open, o, v)
  {
    if v != [] {
      assert !FretAllowed(o, v[0].fret);
    }
  }

  lemma OpenMap(f: Pitch -> Pitch, tuning: seq<Option<Pitch>>)
    requires None !in tuning
    ensures Map(OrZero, RaiseTuning(f, tuning)) == Map(f, Map(OrZero, tuning))
  {
    forall i | 0 <= i < |tuning| ensures Map(OrZero, RaiseTuning(f, tuning))[i] == Map(f, Map(OrZero, tuning))[i] {
      assert tuning[i] in tuning;
    }
  }

  /** The lists returned, for a chord that fits the instrument and readable or unread string names. */
  lemma RankedRaise(f: Pitch -> Pitch, g: Voicing -> Voicing, tones: seq<Pitch>, tuning: seq<Option<Pitch>>, o: Options)
    requires Transposes(f) && Relabels(f, g) && NoDup(tones) && NoDup(Map(f, tones)) && tones != []
    requires None !in tuning || !WindowReads(o)
    ensures Ranked(Map(f, tones), Map(OrZero, RaiseTuning(f, tuning)), o) ==
            Map(g, Ranked(tones, Map(OrZero, tuning), o))
  {
    if None !in tuning {
      OpenMap(f, tuning);
      RankedMap(f, g, tones, Map(OrZero, tuning), o);
    } else {
      ClosedWindowFindsNothing(tones, Map(OrZero, tuning), o);
      ClosedWindowFindsNothing(Map(f, tones), Map(OrZero, RaiseTuning(f, tuning)), o);
    }
  }

  lemma VoicingsForTonesMap(f: Pitch -> Pitch, g: Voicing -> Voicing, tones: seq<Pitch>, tuning: seq<Option<Pitch>>,
                            o: Options)
    requires Transposes(f) && Relabels(f, g) && NoDup(tones) && NoDup(Map(f, tones))
    ensures VoicingsForTones(Map(f, tones), RaiseTuning(f, tuning), o) ==
            RaiseAnswer(g, VoicingsForTones(tones, tuning, o))
  {
    UnreadableStays(f, tuning);
    if tones != [] && (None !in tuning || !WindowReads(o)) {
      RankedRaise(f, g, tones, tuning, o);
    }
  }

  lemma VoicingsMap(f: Pitch -> Pitch, g: Voicing -> Voicing, root: Pitch, intervals: seq<nat>,
                    tuning: seq<Option<Pitch>>, o: Options)
    requires Transposes(f) && Relabels(f, g)
    ensures VoicingsOf(Some(f(root)), intervals, RaiseTuning(f, tuning), o)
         == RaiseAnswer(g, VoicingsOf(Some(root), intervals, tuning, o))
  {
    ChordTonesExact(root, intervals);
    ChordTonesMap(f, root, intervals);
    MapNoDup(f, ChordTones(root, intervals));
    VoicingsForTonesMap(f, g, ChordTones(root, intervals), tuning, o);
  }

  // ---- semitones -----------------------------------------------------------------------

  function Raise(k: nat): Pitch -> Pitch {
    p => (p + k) % 12
  }

  function RaiseLabels(k: nat): Voicing -> Voicing {
    (v: Voicing) => seq(|v|, i requires 0 <= i < |v| => v[i].(tone := Raise(k)(v[i].tone)))
  }

  lemma ModAddInjective(p: Pitch, q: Pitch, k: nat)
    ensures (p + k) % 12 == (q + k) % 12 ==> p == q
  {
  }

  lemma ModAddAssociates(a: nat, b: nat, k: nat)
    ensures ((a + k) % 12 + b) % 12 == ((a + b) % 12 + k) % 12
  {
  }

  lemma RaiseTransposes(k: nat)
    ensures Transposes(Raise(k)) && Relabels(Raise(k), RaiseLabels(k))
  {
    forall p, q ensures Raise(k)(p) == Raise(k)(q) ==> p == q { ModAddInjective(p, q, k); }
    forall p: Pitch, n: nat ensures NoteAtFret(Raise(k)(p), n) == Raise(k)(NoteAtFret(p, n)) {
      ModAddAssociates(p, n, k);
    }
  }

  /** Transposing the question by `k` semitones transposes the answer, failures and truncation included. */
  lemma VoicingsTranspose(root: Option<Pitch>, intervals: seq<nat>, tuning: seq<Option<Pitch>>, o: Options, k: nat)
    ensures VoicingsOf(RaiseReading(Raise(k), root), intervals, RaiseTuning(Raise(k), tuning), o)
         == RaiseAnswer(RaiseLabels(k), VoicingsOf(root, intervals, tuning, o))
  {
    if root.Some? {
      RaiseTransposes(k);
      VoicingsMap(Raise(k), RaiseLabels(k), root.value, intervals, tuning, o);
    }
  }

  /** The same on note names: any spellings of the raised notes will do. */
  lemma ChordVoicingsTranspose(root: string, root': string, intervals: seq<nat>, tuning: seq<string>,
                               tuning': seq<string>, o: Options, k: nat)
    requires NoteIndex(root') == RaiseReading(Raise(k), NoteIndex(root))
    requires Map(NoteIndex, tuning') == RaiseTuning(Raise(k), Map(NoteIndex, tuning))
    ensures ChordVoicings(root', intervals, tuning', o) ==
            RaiseAnswer(RaiseLabels(k), ChordVoicings(root, intervals, tuning, o))
  {
    VoicingsTranspose(NoteIndex(root), intervals, Map(NoteIndex, tuning), o, k);
  }
}
