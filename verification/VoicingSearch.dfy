/**
 * `getChordVoicings` as it runs: recursive helpers that push to and pop from shared buffers,
 * a `used` array flipped on and off, a growing `seen` set and a final in-place sort.
 * Every method is tied to the function of `Voicings` that says what it does.
 */
module VoicingSearch {
  import opened Seqs
  import opened Sorting
  import opened Notes
  import opened Enumeration
  import opened Voicings

  /** What one entry of `stringFretsForTone` holds: a non-empty fret list for each tone the string can play. */
  ghost predicate IsFretTable(m: map<Pitch, seq<nat>>, tones: seq<Pitch>, open: Pitch, o: Options) {
    && (forall t: Pitch :: t in m <==> t in tones && FretsFor(open, t, o) != [])
    && (forall t: Pitch | t in m :: m[t] == FretsFor(open, t, o))
  }

  lemma {:induction false} WindowFretsLast(open: Pitch, tone: Pitch, lo: nat, f: nat)
    requires lo <= f
    ensures WindowFrets(open, tone, lo, f)
         == WindowFrets(open, tone, lo, f - 1) + if NoteAtFret(open, f) == tone then [f] else []
    decreases f - lo
  {
    if lo < f {
      WindowFretsLast(open, tone, lo + 1, f);
      var last := if NoteAtFret(open, f) == tone then [f] else [];
      AppendAssociates(if NoteAtFret(open, lo) == tone then [lo] else [],
                       WindowFrets(open, tone, lo + 1, f - 1), last);
    }
  }

  /** What the table holds once the frets before `f` have been tried. */
  ghost predicate TriedBelow(m: map<Pitch, seq<nat>>, tones: seq<Pitch>, open: Pitch, o: Options, f: nat) {
    && (forall t: Pitch :: t in m <==> t in tones && WindowFrets(open, t, o.minFret, f - 1) != [])
    && (forall t: Pitch | t in m :: m[t] == WindowFrets(open, t, o.minFret, f - 1))
  }

  lemma TryFret(m: map<Pitch, seq<nat>>, tones: seq<Pitch>, open: Pitch, o: Options, f: nat)
    requires o.minFret <= f && TriedBelow(m, tones, open, o, f)
    ensures var note := NoteAtFret(open, f);
            var more := if note in tones then m[note := if note in m then m[note] + [f] else [f]] else m;
            TriedBelow(more, tones, open, o, f + 1)
  {
    forall t: Pitch ensures WindowFrets(open, t, o.minFret, f)
                         == WindowFrets(open, t, o.minFret, f - 1) + if NoteAtFret(open, f) == t then [f] else [] {
      WindowFretsLast(open, t, o.minFret, f);
    }
  }

  lemma TriedAll(m: map<Pitch, seq<nat>>, tones: seq<Pitch>, open: Pitch, o: Options, f: nat)
    requires TriedBelow(m, tones, open, o, f) && f > o.maxFret && (f == o.minFret || f == o.maxFret + 1)
    ensures forall t: Pitch :: t in m <==> t in tones && WindowFrets(open, t, o.minFret, o.maxFret) != []
    ensures forall t: Pitch | t in m :: m[t] == WindowFrets(open, t, o.minFret, o.maxFret)
  {
    forall t: Pitch ensures WindowFrets(open, t, o.minFret, f - 1) == WindowFrets(open, t, o.minFret, o.maxFret) {
      EmptyWindow(open, t, o, f);
    }
  }

  lemma EmptyWindow(open: Pitch, t: Pitch, o: Options, f: nat)
    requires f > o.maxFret && (f == o.minFret || f == o.maxFret + 1)
    ensures WindowFrets(open, t, o.minFret, f - 1) == WindowFrets(open, t, o.minFret, o.maxFret)
  {
  }

  lemma NothingTried(tones: seq<Pitch>, open: Pitch, o: Options)
    ensures TriedBelow(map[], tones, open, o, o.minFret)
  {
  }

  /** The loop over the fret window. */
  method WindowTable(open: Pitch, tones: seq<Pitch>, o: Options) returns (m: map<Pitch, seq<nat>>)
    ensures forall t: Pitch :: t in m <==> t in tones && WindowFrets(open, t, o.minFret, o.maxFret) != []
    ensures forall t: Pitch | t in m :: m[t] == WindowFrets(open, t, o.minFret, o.maxFret)
  {
    m := map[];
    var f := o.minFret;
    NothingTried(tones, open, o);
    while f <= o.maxFret
      invariant o.minFret <= f && (f == o.minFret || f <= o.maxFret + 1)
      invariant TriedBelow(m, tones, open, o, f)
      decreases o.maxFret - f
    {
      var note := NoteAtFret(open, f);
      TryFret(m, tones, open, o, f);
      if note in tones {
        m := m[note := if note in m then m[note] + [f] else [f]];
      }
      f := f + 1;
    }
    TriedAll(m, tones, open, o, f);
  }

  /** None stands for the error thrown on the first use of an unreadable string name. */
  method FretTable(reading: Option<Pitch>, tones: seq<Pitch>, o: Options) returns (r: Option<map<Pitch, seq<nat>>>)
    ensures r.None? <==> WindowReads(o) && reading.None?
    ensures r.Some? ==> IsFretTable(r.value, tones, OrZero(reading), o)
  {
    if reading.None? {
      if o.minFret <= o.maxFret || o.minFret > 0 { return None; }
      return Some(map[]);
    }
    var m := WindowTable(reading.value, tones, o);
    if o.minFret > 0 {
      var note := NoteAtFret(reading.value, 0);
      if note in tones {
        if note in m {
          WindowFretsExact(reading.value, note, o.minFret, o.maxFret);
          if 0 !in m[note] { m := m[note := [0] + m[note]]; }
        } else {
          m := m[note := [0]];
        }
      }
    }
    r := Some(m);
  }

  /** The loop over the frets of a finished voicing. */
  method StaysInWindow(v: Voicing, o: Options) returns (ok: bool)
    ensures ok <==> WindowOk(o, v)
  {
    var i := 0;
    while i < |v|
      invariant i <= |v|
      invariant forall k :: 0 <= k < i ==> v[k].fret == 0 || o.minFret <= v[k].fret <= o.maxFret
    {
      if v[i].fret != 0 && (v[i].fret < o.minFret || v[i].fret > o.maxFret) { return false; }
      i := i + 1;
    }
    ok := true;
  }

  class Search {
    const tones: seq<Pitch>
    ghost const open: seq<Pitch>
    const o: Options
    const table: seq<map<Pitch, seq<nat>>>
    var picked: seq<nat>
    var stringCombos: seq<seq<nat>>
    var used: seq<bool>
    var cur: seq<Pitch>
    var tonePerms: seq<seq<Pitch>>
    var accum: seq<nat>
    var seen: set<string>
    var voicings: seq<Voicing>

    constructor (tones: seq<Pitch>, ghost open: seq<Pitch>, o: Options, table: seq<map<Pitch, seq<nat>>>)
      ensures this.tones == tones && this.open == open && this.o == o && this.table == table
      ensures picked == [] && stringCombos == [] && used == NoneUsed(|tones|) && cur == [] && tonePerms == []
      ensures accum == [] && Records() == Found([], {})
    {
      this.tones, this.open, this.o, this.table := tones, open, o, table;
      picked, stringCombos, used, cur, tonePerms := [], [], NoneUsed(|tones|), [], [];
      accum, seen, voicings := [], {}, [];
    }

    function Records(): Found
      reads this`voicings, this`seen
    {
      Found(voicings, seen)
    }

    ghost predicate TableIsRight() {
      |table| == |open| && forall s :: 0 <= s < |open| ==> IsFretTable(table[s], tones, open[s], o)
    }

    method PickStrings(start: nat)
      requires start <= |table|
      modifies this`picked, this`stringCombos
      ensures picked == old(picked)
      ensures stringCombos == old(stringCombos) + Combos(picked, start, |table|, |tones|)
      decreases |table| - start
    {
      if |picked| == |tones| {
        stringCombos := stringCombos + [picked];
        return;
      }
      var s := start;
      while s < |table|
        invariant start <= s <= |table| && picked == old(picked)
        invariant stringCombos + Combos(picked, s, |table|, |tones|)
               == old(stringCombos) + Combos(picked, start, |table|, |tones|)
      {
        AppendAssociates(stringCombos, Combos(picked + [s], s + 1, |table|, |tones|),
            Combos(picked, s + 1, |table|, |tones|));
        picked := picked + [s];
        PickStrings(s + 1);
        picked := picked[..|picked| - 1];
        s := s + 1;
      }
    }

    method Permute()
      requires |used| == |tones| && |cur| <= |tones|
      modifies this`used, this`cur, this`tonePerms
      ensures used == old(used) && cur == old(cur)
      ensures tonePerms == old(tonePerms) + Perms(tones, used, cur)
      decreases |tones| - |cur|
    {
      if |cur| == |tones| {
        tonePerms := tonePerms + [cur];
        return;
      }
      var i := 0;
      while i < |tones|
        invariant i <= |tones| && used == old(used) && cur == old(cur)
        invariant tonePerms + PermsFrom(tones, used, cur, i) == old(tonePerms) + PermsFrom(tones, used, cur, 0)
      {
        if !used[i] {
          AppendAssociates(tonePerms, Perms(tones, used[i := true], cur + [tones[i]]),
              PermsFrom(tones, used, cur, i + 1));
          used := used[i := true];
          cur := cur + [tones[i]];
          Permute();
          cur := cur[..|cur| - 1];
          used := used[i := false];
        }
        i := i + 1;
      }
    }

    method RecordIfValid(v: Voicing)
      modifies this`seen, this`voicings
      ensures Records() == Record(old(Records()), o, v)
    {
      var nonOpen := NonOpenFrets(v);
      if nonOpen != [] && MaxOf(nonOpen) - MinOf(nonOpen) > o.maxSpan { return; }
      var inWindow := StaysInWindow(v, o);
      if !inWindow { return; }
      var key := Key(v);
      if key in seen { return; }
      seen := seen + {key};
      voicings := voicings + [v];
    }

    method Expand(strings: seq<nat>, perm: seq<Pitch>, choices: seq<seq<nat>>)
      requires |strings| == |perm| == |choices| && |accum| <= |choices|
      modifies this`accum, this`seen, this`voicings
      ensures accum == old(accum)
      ensures (forall fs | fs in Product(choices, accum) :: |fs| == |perm|)
           && Records() == RecordAll(old(Records()), o, PlaceAll(strings, perm, Product(choices, accum)))
      decreases |choices| - |accum|
    {
      ProductLengths(choices, accum);
      if |accum| == |choices| {
        RecordIfValid(Place(strings, perm, accum));
        assert PlaceAll(strings, perm, [accum]) == [Place(strings, perm, accum)];
        return;
      }
      var frets := choices[|accum|];
      var k := 0;
      assert frets[0..] == frets;
      while k < |frets|
        invariant k <= |frets| && accum == old(accum)
        invariant forall fs | fs in ProductFrom(choices, accum, frets[k..]) :: |fs| == |perm|
        invariant RecordAll(Records(), o, PlaceAll(strings, perm, ProductFrom(choices, accum, frets[k..])))
               == RecordAll(old(Records()), o, PlaceAll(strings, perm, Product(choices, accum)))
      {
        ExpandStep(Records(), o, strings, perm, choices, accum, frets, k);
        accum := accum + [frets[k]];
        Expand(strings, perm, choices);
        accum := accum[..|accum| - 1];
        k := k + 1;
      }
      assert frets[k..] == [];
    }

    /** The candidate frets for one assignment of tones to strings, or None at the first string that has none. */
    method GatherChoices(strings: seq<nat>, perm: seq<Pitch>) returns (r: Option<seq<seq<nat>>>)
      requires TableIsRight() && StringsFit(open, |perm|, strings) && forall p | p in perm :: p in tones
      ensures r.Some? ==> r.value == Choices(open, o, strings, perm)
      ensures r.None? ==> exists i :: 0 <= i < |perm| && Choices(open, o, strings, perm)[i] == []
    {
      var choices := [];
      var i := 0;
      while i < |perm|
        invariant i <= |perm| && choices == Choices(open, o, strings, perm)[..i]
      {
        assert perm[i] in tones;
        if perm[i] !in table[strings[i]] || table[strings[i]][perm[i]] == [] {
          return None;
        }
        choices := choices + [table[strings[i]][perm[i]]];
        i := i + 1;
      }
      r := Some(choices);
    }

    /** The two nested loops over string subsets and tone orderings. */
    method SearchAll()
      requires TableIsRight() && accum == [] && NoDup(tones)
      requires tonePerms == AllPerms(tones) && AllFit(open, stringCombos, tonePerms)
      modifies this`accum, this`seen, this`voicings
      ensures accum == []
      ensures Records() == RecordAll(old(Records()), o, LeavesForCombos(open, o, stringCombos, tonePerms))
    {
      ghost var target := RecordAll(Records(), o, LeavesForCombos(open, o, stringCombos, tonePerms));
      var i := 0;
      assert stringCombos[0..] == stringCombos;
      while i < |stringCombos|
        invariant i <= |stringCombos| && accum == []
        invariant AllFit(open, stringCombos[i..], tonePerms)
        invariant RecordAll(Records(), o, LeavesForCombos(open, o, stringCombos[i..], tonePerms)) == target
      {
        CombosStep(Records(), open, o, stringCombos, i, tonePerms);
        SearchCombo(stringCombos[i]);
        i := i + 1;
      }
      assert stringCombos[i..] == [];
    }

    method SearchCombo(strings: seq<nat>)
      requires TableIsRight() && accum == [] && NoDup(tones) && tonePerms == AllPerms(tones)
      requires forall p | p in tonePerms :: StringsFit(open, |p|, strings)
      modifies this`accum, this`seen, this`voicings
      ensures accum == []
      ensures Records() == RecordAll(old(Records()), o, LeavesForPerms(open, o, strings, tonePerms))
    {
      AllPermsOrder(tones);
      ghost var stages := Stages(Records(), tones, open, o, strings, tonePerms);
      SearchPerms(strings, stages);
    }

    /** One string subset and one tone ordering: skip it if some string has no fret, else expand it. */
    method SearchOne(strings: seq<nat>, perm: seq<Pitch>)
      requires TableIsRight() && accum == [] && StringsFit(open, |perm|, strings) && Orders(tones, perm)
      modifies this`accum, this`seen, this`voicings
      ensures accum == []
      ensures Records() == RecordAll(old(Records()), o, Leaves(open, o, strings, perm))
    {
      var choices := GatherChoices(strings, perm);
      if choices.None? {
        InfeasibleHasNoLeaves(open, o, strings, perm);
        return;
      }
      Expand(strings, perm, choices.value);
    }

    /** One string subset against every tone ordering. */
    method SearchPerms(strings: seq<nat>, ghost stages: seq<Found>)
      requires TableIsRight() && accum == [] && AreStages(tones, open, o, strings, tonePerms, stages)
      requires Records() == stages[0]
      modifies this`accum, this`seen, this`voicings
      ensures accum == [] && Records() == stages[|tonePerms|]
    {
      var j := 0;
      while j < |tonePerms|
        invariant j <= |tonePerms| && accum == [] && Records() == stages[j]
      {
        var perm := tonePerms[j];
        StageFollows(tones, open, o, strings, tonePerms, stages, j);
        SearchOne(strings, perm);
        j := j + 1;
      }
    }

    /** No buffer is in use. */
    ghost predicate BuffersIdle()
      reads this`picked, this`cur, this`used, this`accum
    {
      picked == [] && cur == [] && used == NoneUsed(|tones|) && accum == []
    }

    /** `pickStrings(0, [])` and `permute(chordTones, tonePerms)`. */
    method Enumerate()
      requires |table| == |open| && BuffersIdle() && stringCombos == [] && tonePerms == []
      modifies this`picked, this`stringCombos, this`used, this`cur, this`tonePerms
      ensures BuffersIdle() && stringCombos == AllCombos(tones, open) && tonePerms == AllPerms(tones)
    {
      PickStrings(0);
      Permute();
    }

    method Collect()
      requires TableIsRight() && NoDup(tones) && BuffersIdle() && stringCombos == [] && tonePerms == []
      requires Records() == Found([], {})
      modifies this
      ensures BuffersIdle() && voicings == Collected(tones, open, o)
    {
      Enumerate();
      EnumerationsFit(tones, open);
      SearchAll();
    }

    /** Enumerate, search, sort in place, and cut to the limit; every buffer is back where it was. */
    method Run() returns (r: seq<Voicing>)
      requires TableIsRight() && NoDup(tones) && BuffersIdle() && stringCombos == [] && tonePerms == []
      requires Records() == Found([], {})
      modifies this
      ensures r == Ranked(tones, open, o) && BuffersIdle()
      ensures voicings == StableSort(RanksBefore, Collected(tones, open, o))
    {
      Collect();
      voicings := StableSort(RanksBefore, voicings);
      r := SliceTo(voicings, o.limit);
    }
  }

  /** `perm` lists chord tones only. */
  ghost predicate Orders(tones: seq<Pitch>, perm: seq<Pitch>) {
    forall p | p in perm :: p in tones
  }

  lemma AllPermsOrder(tones: seq<Pitch>)
    requires NoDup(tones)
    ensures forall p | p in AllPerms(tones) :: Orders(tones, p)
  {
    forall p | p in AllPerms(tones) ensures Orders(tones, p) {
      PermsExact(tones, NoneUsed(|tones|), [], p);
    }
  }

  lemma CombosStep(st: Found, open: seq<Pitch>, o: Options, combos: seq<seq<nat>>, i: nat, perms: seq<seq<Pitch>>)
    requires i < |combos| && AllFit(open, combos[i..], perms)
    ensures combos[i] in combos && (forall p | p in perms :: StringsFit(open, |p|, combos[i]))
    ensures AllFit(open, combos[i + 1..], perms)
    ensures RecordAll(st, o, LeavesForCombos(open, o, combos[i..], perms))
         == RecordAll(RecordAll(st, o, LeavesForPerms(open, o, combos[i], perms)), o,
             LeavesForCombos(open, o, combos[i + 1..], perms))
  {
    assert combos[i] == combos[i..][0] && combos[i..][1..] == combos[i + 1..];
    assert combos[i] in combos[i..];
    assert forall c | c in combos[i..][1..] :: c in combos[i..];
    assert AllFit(open, combos[i + 1..], perms);
    RecordAllAppend(st, o, LeavesForPerms(open, o, combos[i], perms), LeavesForCombos(open, o, combos[i + 1..], perms));
  }

  /** `stages[j]` is what has been found before the ordering `perms[j]` of chord tones is tried. */
  ghost predicate AreStages(tones: seq<Pitch>, open: seq<Pitch>, o: Options, strings: seq<nat>,
                            perms: seq<seq<Pitch>>, stages: seq<Found>) {
    && |stages| == |perms| + 1
    && forall j :: 0 <= j < |perms| ==>
         Orders(tones, perms[j]) && StringsFit(open, |perms[j]|, strings)
         && stages[j + 1] == RecordAll(stages[j], o, Leaves(open, o, strings, perms[j]))
  }

  lemma StageFollows(tones: seq<Pitch>, open: seq<Pitch>, o: Options, strings: seq<nat>,
                     perms: seq<seq<Pitch>>, stages: seq<Found>, j: nat)
    requires AreStages(tones, open, o, strings, perms, stages) && j < |perms|
    ensures Orders(tones, perms[j]) && StringsFit(open, |perms[j]|, strings)
    ensures stages[j + 1] == RecordAll(stages[j], o, Leaves(open, o, strings, perms[j]))
  {
  }

  lemma {:induction false} Stages(st: Found, tones: seq<Pitch>, open: seq<Pitch>, o: Options, strings: seq<nat>,
                                  perms: seq<seq<Pitch>>)
    returns (stages: seq<Found>)
    requires forall p | p in perms :: StringsFit(open, |p|, strings)
    requires forall p | p in perms :: Orders(tones, p)
    ensures AreStages(tones, open, o, strings, perms, stages) && stages[0] == st
    ensures stages[|perms|] == RecordAll(st, o, LeavesForPerms(open, o, strings, perms))
    decreases perms
  {
    if perms == [] {
      stages := [st];
    } else {
      FirstPerm(st, open, o, strings, perms);
      FirstOrders(tones, perms);
      var later := Stages(RecordAll(st, o, Leaves(open, o, strings, perms[0])), tones, open, o, strings, perms[1..]);
      stages := [st] + later;
      StagesCons(st, tones, open, o, strings, perms, later);
    }
  }

  lemma FirstOrders(tones: seq<Pitch>, perms: seq<seq<Pitch>>)
    requires perms != [] && forall p | p in perms :: Orders(tones, p)
    ensures Orders(tones, perms[0]) && forall p | p in perms[1..] :: Orders(tones, p)
  {
    assert perms[0] in perms && forall p | p in perms[1..] :: p in perms;
  }

  lemma FirstPerm(st: Found, open: seq<Pitch>, o: Options, strings: seq<nat>, perms: seq<seq<Pitch>>)
    requires perms != [] && forall p | p in perms :: StringsFit(open, |p|, strings)
    ensures StringsFit(open, |perms[0]|, strings) && forall p | p in perms[1..] :: StringsFit(open, |p|, strings)
    ensures RecordAll(st, o, LeavesForPerms(open, o, strings, perms))
         == RecordAll(RecordAll(st, o, Leaves(open, o, strings, perms[0])), o,
                      LeavesForPerms(open, o, strings, perms[1..]))
  {
    assert perms[0] in perms && forall p | p in perms[1..] :: p in perms;
    RecordAllAppend(st, o, Leaves(open, o, strings, perms[0]), LeavesForPerms(open, o, strings, perms[1..]));
  }

  lemma StagesCons(st: Found, tones: seq<Pitch>, open: seq<Pitch>, o: Options, strings: seq<nat>,
                   perms: seq<seq<Pitch>>, later: seq<Found>)
    requires perms != [] && Orders(tones, perms[0]) && StringsFit(open, |perms[0]|, strings)
    requires AreStages(tones, open, o, strings, perms[1..], later)
    requires later[0] == RecordAll(st, o, Leaves(open, o, strings, perms[0]))
    ensures AreStages(tones, open, o, strings, perms, [st] + later)
  {
    forall j | 0 <= j < |perms|
      ensures Orders(tones, perms[j]) && StringsFit(open, |perms[j]|, strings)
      ensures ([st] + later)[j + 1] == RecordAll(([st] + later)[j], o, Leaves(open, o, strings, perms[j]))
    {
      if j > 0 { StageShifts(st, tones, open, o, strings, perms, later, j); }
    }
  }

  lemma StageShifts(st: Found, tones: seq<Pitch>, open: seq<Pitch>, o: Options, strings: seq<nat>,
                    perms: seq<seq<Pitch>>, later: seq<Found>, j: nat)
    requires 0 < j < |perms| && AreStages(tones, open, o, strings, perms[1..], later)
    ensures Orders(tones, perms[j]) && StringsFit(open, |perms[j]|, strings)
    ensures ([st] + later)[j + 1] == RecordAll(([st] + later)[j], o, Leaves(open, o, strings, perms[j]))
  {
    StageFollows(tones, open, o, strings, perms[1..], later, j - 1);
    assert perms[1..][j - 1] == perms[j];
  }

  lemma ExpandStep(st: Found, o: Options, strings: seq<nat>, perm: seq<Pitch>, choices: seq<seq<nat>>,
                   accum: seq<nat>, frets: seq<nat>, k: nat)
    requires |strings| == |perm| == |choices| && |accum| < |choices| && k < |frets|
    requires forall fs | fs in ProductFrom(choices, accum, frets[k..]) :: |fs| == |perm|
    ensures forall fs | fs in Product(choices, accum + [frets[k]]) :: |fs| == |perm|
    ensures forall fs | fs in ProductFrom(choices, accum, frets[k + 1..]) :: |fs| == |perm|
    ensures RecordAll(st, o, PlaceAll(strings, perm, ProductFrom(choices, accum, frets[k..])))
         == RecordAll(RecordAll(st, o, PlaceAll(strings, perm, Product(choices, accum + [frets[k]]))), o,
                      PlaceAll(strings, perm, ProductFrom(choices, accum, frets[k + 1..])))
  {
    assert frets[k..][1..] == frets[k + 1..] && frets[k..][0] == frets[k];
    SplitLeaves(st, o, strings, perm,
                Product(choices, accum + [frets[k]]), ProductFrom(choices, accum, frets[k + 1..]));
  }

  lemma SplitLeaves(st: Found, o: Options, strings: seq<nat>, perm: seq<Pitch>, a: seq<seq<nat>>, b: seq<seq<nat>>)
    requires |strings| == |perm| && forall fs | fs in a + b :: |fs| == |perm|
    ensures (forall fs | fs in a :: |fs| == |perm|) && (forall fs | fs in b :: |fs| == |perm|)
    ensures RecordAll(st, o, PlaceAll(strings, perm, a + b))
         == RecordAll(RecordAll(st, o, PlaceAll(strings, perm, a)), o, PlaceAll(strings, perm, b))
  {
    assert forall fs | fs in a :: fs in a + b;
    assert forall fs | fs in b :: fs in a + b;
    assert PlaceAll(strings, perm, a + b) == PlaceAll(strings, perm, a) + PlaceAll(strings, perm, b);
    RecordAllAppend(st, o, PlaceAll(strings, perm, a), PlaceAll(strings, perm, b));
  }

  /** Skipping an assignment with a string that has no fret skips no leaf. */
  lemma InfeasibleHasNoLeaves(open: seq<Pitch>, o: Options, strings: seq<nat>, perm: seq<Pitch>)
    requires StringsFit(open, |perm|, strings)
    requires exists i :: 0 <= i < |perm| && Choices(open, o, strings, perm)[i] == []
    ensures Leaves(open, o, strings, perm) == []
  {
    var choices := Choices(open, o, strings, perm);
    var i :| 0 <= i < |perm| && choices[i] == [];
    var fss := Product(choices, []);
    if fss != [] {
      ProductExact(choices, [], fss[0]);
      assert false;
    }
  }

  method GetChordVoicings(root: string, intervals: seq<nat>, tuning: seq<string>, o: Options) returns (r: Answer)
    ensures r == ChordVoicings(root, intervals, tuning, o)
  {
    r := SearchVoicings(NoteIndex(root), intervals, Map(NoteIndex, tuning), o);
  }

  /** The fret tables of all strings, or None at the first string whose name is needed and unreadable. */
  method FretTables(tones: seq<Pitch>, tuning: seq<Option<Pitch>>, o: Options)
    returns (r: Option<seq<map<Pitch, seq<nat>>>>)
    ensures r.None? <==> WindowReads(o) && None in tuning
    ensures r.Some? ==> |r.value| == |tuning|
    ensures r.Some? ==> forall k :: 0 <= k < |tuning| ==> IsFretTable(r.value[k], tones, OrZero(tuning[k]), o)
  {
    var table: seq<map<Pitch, seq<nat>>> := [];
    var s := 0;
    while s < |tuning|
      invariant s <= |tuning| && |table| == s
      invariant forall k :: 0 <= k < s ==> IsFretTable(table[k], tones, OrZero(tuning[k]), o)
      invariant WindowReads(o) ==> forall k :: 0 <= k < s ==> tuning[k].Some?
    {
      var t := FretTable(tuning[s], tones, o);
      if t.None? { return None; }
      table := table + [t.value];
      s := s + 1;
    }
    r := Some(table);
  }

  method SearchVoicings(root: Option<Pitch>, intervals: seq<nat>, tuning: seq<Option<Pitch>>, o: Options)
    returns (r: Answer)
    ensures r == VoicingsOf(root, intervals, tuning, o)
  {
    if root.None? { return UnknownNote; }
    var tones := ChordTones(root.value, intervals);
    ChordTonesExact(root.value, intervals);
    if |tones| == 0 || |tones| > |tuning| { return Answer([]); }
    var table := FretTables(tones, tuning, o);
    if table.None? { return UnknownNote; }
    var search := new Search(tones, Map(OrZero, tuning), o, table.value);
    var vs := search.Run();
    r := Answer(vs);
  }
}
