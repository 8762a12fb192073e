/** What `getChordVoicings` returns, against the definition of a playable voicing. */
module VoicingTheorems {
  import opened Seqs
  import opened Text
  import opened Notes
  import opened Enumeration
  import opened Voicings

  // ---- the leaves are exactly the placements that cover the chord ----------------------

  /** The part of `Playable` that the enumeration itself guarantees. */
  ghost predicate Reachable(open: seq<Pitch>, o: Options, strings: seq<nat>, perm: seq<Pitch>, v: Voicing) {
    && Strings(v) == strings && Labels(v) == perm
    && forall i :: 0 <= i < |v| ==>
        v[i].str < |open| && NoteAtFret(open[v[i].str], v[i].fret) == v[i].tone && FretAllowed(o, v[i].fret)
  }

  lemma LeavesExact(open: seq<Pitch>, o: Options, strings: seq<nat>, perm: seq<Pitch>, v: Voicing)
    requires StringsFit(open, |perm|, strings)
    ensures v in Leaves(open, o, strings, perm) <==> Reachable(open, o, strings, perm, v)
  {
    var choices := Choices(open, o, strings, perm);
    ProductLengths(choices, []);
    var fss := Product(choices, []);
    forall i | 0 <= i < |perm|
      ensures forall f :: f in choices[i] <==> FretAllowed(o, f) && NoteAtFret(open[strings[i]], f) == perm[i]
    {
      FretsForExact(open[strings[i]], perm[i], o);
    }
    ProductExact(choices, [], Frets(v));
    if v in Leaves(open, o, strings, perm) {
      var k :| 0 <= k < |fss| && v == Place(strings, perm, fss[k]);
      assert fss[k] in fss;
      assert Frets(v) == fss[k];
      forall i | 0 <= i < |v| ensures v[i].str == strings[i] && v[i].tone == perm[i] && v[i].fret in choices[i] {
        assert Frets(v)[i] == v[i].fret;
      }
    }
    if Reachable(open, o, strings, perm, v) {
      forall i | 0 <= i < |v| ensures Frets(v)[i] in choices[i] {
        assert Strings(v)[i] == strings[i] && Labels(v)[i] == perm[i];
      }
      var k :| 0 <= k < |fss| && fss[k] == Frets(v);
      PlaceRestores(v);
      assert Leaves(open, o, strings, perm)[k] == v;
    }
  }

  lemma PlaceRestores(v: Voicing)
    ensures Place(Strings(v), Labels(v), Frets(v)) == v
  {
  }

  lemma LeavesNoDup(open: seq<Pitch>, o: Options, strings: seq<nat>, perm: seq<Pitch>)
    requires StringsFit(open, |perm|, strings)
    ensures NoDup(Leaves(open, o, strings, perm))
  {
    var choices := Choices(open, o, strings, perm);
    forall i | 0 <= i < |choices| ensures NoDup(choices[i]) { FretsForExact(open[strings[i]], perm[i], o); }
    ProductNoDup(choices, []);
    ProductLengths(choices, []);
    var fss, vs := Product(choices, []), Leaves(open, o, strings, perm);
    forall i, j | 0 <= i < j < |vs| ensures vs[i] != vs[j] {
      assert fss[i] in fss && fss[j] in fss;
      assert Frets(vs[i]) == fss[i] && Frets(vs[j]) == fss[j];
    }
  }

  lemma {:induction false} LeavesForPermsExact(
      open: seq<Pitch>, o: Options, strings: seq<nat>, perms: seq<seq<Pitch>>, v: Voicing)
    requires forall p | p in perms :: StringsFit(open, |p|, strings)
    ensures v in LeavesForPerms(open, o, strings, perms) <==>
            Labels(v) in perms && Reachable(open, o, strings, Labels(v), v)
  {
    if perms != [] {
      assert perms[0] in perms && perms == [perms[0]] + perms[1..];
      LeavesExact(open, o, strings, perms[0], v);
      LeavesForPermsExact(open, o, strings, perms[1..], v);
    }
  }

  lemma {:induction false} LeavesForPermsNoDup(open: seq<Pitch>, o: Options, strings: seq<nat>, perms: seq<seq<Pitch>>)
    requires NoDup(perms) && forall p | p in perms :: StringsFit(open, |p|, strings)
    ensures NoDup(LeavesForPerms(open, o, strings, perms))
  {
    if perms != [] {
      assert perms[0] in perms && perms == [perms[0]] + perms[1..];
      LeavesNoDup(open, o, strings, perms[0]);
      LeavesForPermsNoDup(open, o, strings, perms[1..]);
      var a, b := Leaves(open, o, strings, perms[0]), LeavesForPerms(open, o, strings, perms[1..]);
      forall v | v in a ensures v !in b {
        LeavesExact(open, o, strings, perms[0], v);
        LeavesForPermsExact(open, o, strings, perms[1..], v);
      }
      NoDupAppend(a, b);
    }
  }

  lemma {:induction false} LeavesForCombosExact(
      open: seq<Pitch>, o: Options, combos: seq<seq<nat>>, perms: seq<seq<Pitch>>, v: Voicing)
    requires AllFit(open, combos, perms)
    ensures v in LeavesForCombos(open, o, combos, perms)
       <==> Strings(v) in combos && Labels(v) in perms && Reachable(open, o, Strings(v), Labels(v), v)
  {
    if combos != [] {
      assert combos[0] in combos && combos == [combos[0]] + combos[1..];
      assert forall c | c in combos[1..] :: c in combos;
      LeavesForPermsExact(open, o, combos[0], perms, v);
      LeavesForCombosExact(open, o, combos[1..], perms, v);
    }
  }

  lemma {:induction false} LeavesForCombosNoDup(
      open: seq<Pitch>, o: Options, combos: seq<seq<nat>>, perms: seq<seq<Pitch>>)
    requires NoDup(combos) && NoDup(perms)
    requires AllFit(open, combos, perms)
    ensures NoDup(LeavesForCombos(open, o, combos, perms))
  {
    if combos != [] {
      assert combos[0] in combos && combos == [combos[0]] + combos[1..];
      assert forall c | c in combos[1..] :: c in combos;
      LeavesForPermsNoDup(open, o, combos[0], perms);
      LeavesForCombosNoDup(open, o, combos[1..], perms);
      var a, b := LeavesForPerms(open, o, combos[0], perms), LeavesForCombos(open, o, combos[1..], perms);
      forall v | v in a ensures v !in b {
        LeavesForPermsExact(open, o, combos[0], perms, v);
        LeavesForCombosExact(open, o, combos[1..], perms, v);
      }
      NoDupAppend(a, b);
    }
  }

  lemma AllLeavesExact(tones: seq<Pitch>, open: seq<Pitch>, o: Options, v: Voicing)
    requires NoDup(tones)
    ensures v in AllLeaves(tones, open, o)
       <==> CoversChord(tones, open, v) && forall i :: 0 <= i < |v| ==> FretAllowed(o, v[i].fret)
  {
    EnumerationsFit(tones, open);
    LeavesForCombosExact(open, o, AllCombos(tones, open), AllPerms(tones), v);
    CombosExact([], 0, |open|, |tones|, Strings(v));
    assert Strings(v)[0..] == Strings(v);
    PermsExact(tones, NoneUsed(|tones|), [], Labels(v));
  }

  lemma AllLeavesNoDup(tones: seq<Pitch>, open: seq<Pitch>, o: Options)
    requires NoDup(tones)
    ensures NoDup(AllLeaves(tones, open, o))
  {
    EnumerationsFit(tones, open);
    CombosNoDup([], 0, |open|, |tones|);
    PermsNoDup(tones, NoneUsed(|tones|), []);
    LeavesForCombosNoDup(open, o, AllCombos(tones, open), AllPerms(tones));
  }

  /** The sizes of the search: binomially many string subsets, factorially many orderings. */
  lemma EnumerationSizes(tones: seq<Pitch>, open: seq<Pitch>)
    requires |tones| <= |open|
    ensures |AllCombos(tones, open)| == Binomial(|open|, |tones|)
    ensures |AllPerms(tones)| == Factorial(|tones|)
  {
    CombosCount([], 0, |open|, |tones|);
    AllUnusedCount(|tones|, 0);
    PermsCount(tones, NoneUsed(|tones|), []);
  }

  lemma {:induction false} AllUnusedCount(n: nat, i: nat)
    requires i <= n
    ensures CountFalse(NoneUsed(n), i) == n - i
    decreases n - i
  {
    if i < n {
      AllUnusedCount(n, i + 1);
    }
  }

  // ---- the deduplication key -----------------------------------------------------------

  datatype Spot = Spot(str: nat, fret: nat)

  function SpotOf(p: Position): Spot { Spot(p.str, p.fret) }

  function SpotToken(s: Spot): string { Decimal(s.str) + ":" + Decimal(s.fret) }

  lemma SpotTokenSplits(s: Spot)
    ensures SplitOn(SpotToken(s), ':') == [Decimal(s.str), Decimal(s.fret)]
    ensures '|' !in SpotToken(s)
  {
    assert ':' !in Decimal(s.str) && ':' !in Decimal(s.fret);
    SplitOnToken(Decimal(s.str), Decimal(s.fret), ':');
    SplitOnToken(Decimal(s.fret), "", ':');
    assert SpotToken(s) == Decimal(s.str) + [':'] + Decimal(s.fret);
  }

  lemma SpotTokenInjective(s: Spot, t: Spot)
    ensures SpotToken(s) == SpotToken(t) ==> s == t
  {
    if SpotToken(s) == SpotToken(t) {
      SpotTokenSplits(s);
      SpotTokenSplits(t);
      DecimalInjective(s.str, t.str);
      DecimalInjective(s.fret, t.fret);
    }
  }

  lemma TokensOfSpots(v: Voicing)
    ensures Map(Token, v) == Map(SpotToken, Map(SpotOf, v))
  {
  }

  /** The key forgets the listing order and the labels, and nothing else. */
  lemma KeyExact(a: Voicing, b: Voicing)
    requires a != [] && b != []
    ensures Key(a) == Key(b) <==> multiset(Map(SpotOf, a)) == multiset(Map(SpotOf, b))
  {
    KeySplits(a);
    KeySplits(b);
    SortStringsIsCanonical(Map(Token, a), Map(Token, b));
    TokensOfSpots(a);
    TokensOfSpots(b);
    SpotTokensExact(Map(SpotOf, a), Map(SpotOf, b));
  }

  lemma SpotTokensExact(a: seq<Spot>, b: seq<Spot>)
    ensures multiset(Map(SpotToken, a)) == multiset(Map(SpotToken, b)) <==> multiset(a) == multiset(b)
  {
    if multiset(a) == multiset(b) {
      MapRespectsMultiset(SpotToken, a, b);
    }
    if multiset(Map(SpotToken, a)) == multiset(Map(SpotToken, b)) {
      forall s, t | s in a + b && t in a + b ensures SpotToken(s) == SpotToken(t) ==> s == t {
        SpotTokenInjective(s, t);
      }
      InjectiveReflectsMultiset(SpotToken, a, b);
    }
  }

  lemma KeySplits(v: Voicing)
    requires v != []
    ensures SplitOn(Key(v), '|') == SortStrings(Map(Token, v))
  {
    var ts := SortStrings(Map(Token, v));
    assert |multiset(ts)| == |ts| && |multiset(Map(Token, v))| == |v|;
    forall k | 0 <= k < |ts| ensures '|' !in ts[k] {
      assert ts[k] in multiset(ts) && ts[k] in multiset(Map(Token, v));
      var i :| 0 <= i < |v| && Map(Token, v)[i] == ts[k];
      SpotTokenSplits(SpotOf(v[i]));
    }
    SplitUndoesJoin(ts, '|');
  }

  /** Two different placements that cover the chord have different keys. */
  lemma KeySeparatesLeaves(tones: seq<Pitch>, open: seq<Pitch>, a: Voicing, b: Voicing)
    requires tones != [] && CoversChord(tones, open, a) && CoversChord(tones, open, b)
    ensures Key(a) == Key(b) ==> a == b
  {
    KeyExact(a, b);
    if Key(a) == Key(b) {
      SpotsAscend(tones, open, a);
      SpotsAscend(tones, open, b);
      AscendingSpotsEqual(Map(SpotOf, a), Map(SpotOf, b));
      SpotsFixLabels(tones, open, a, b);
    }
  }

  lemma SpotsAscend(tones: seq<Pitch>, open: seq<Pitch>, v: Voicing)
    requires CoversChord(tones, open, v)
    ensures forall i, j :: 0 <= i < j < |v| ==> Map(SpotOf, v)[i].str < Map(SpotOf, v)[j].str
  {
    forall i, j | 0 <= i < j < |v| ensures Map(SpotOf, v)[i].str < Map(SpotOf, v)[j].str {
      assert Strings(v)[i] < Strings(v)[j];
    }
  }

  lemma SpotsFixLabels(tones: seq<Pitch>, open: seq<Pitch>, a: Voicing, b: Voicing)
    requires CoversChord(tones, open, a) && CoversChord(tones, open, b) && Map(SpotOf, a) == Map(SpotOf, b)
    ensures a == b
  {
    forall i | 0 <= i < |a| ensures a[i] == b[i] {
      assert SpotOf(a[i]) == Map(SpotOf, a)[i] == Map(SpotOf, b)[i] == SpotOf(b[i]);
    }
  }

  lemma {:induction false} AscendingSpotsEqual(a: seq<Spot>, b: seq<Spot>)
    requires forall i, j :: 0 <= i < j < |a| ==> a[i].str < a[j].str
    requires forall i, j :: 0 <= i < j < |b| ==> b[i].str < b[j].str
    requires multiset(a) == multiset(b)
    ensures a == b
  {
    assert |multiset(a)| == |a| && |multiset(b)| == |b|;
    if a != [] {
      assert a[0] in multiset(b) && b[0] in multiset(a);
      var i :| 0 <= i < |b| && b[i] == a[0];
      var j :| 0 <= j < |a| && a[j] == b[0];
      assert i == 0;
      CancelHead(a, b, 0);
      assert Without(b, 0) == b[1..];
      AscendingSpotsEqual(a[1..], b[1..]);
    }
  }

  // ---- the deduplication never fires ---------------------------------------------------

  ghost predicate KeysDiffer(vs: seq<Voicing>) {
    forall i, j :: 0 <= i < j < |vs| ==> Key(vs[i]) != Key(vs[j])
  }

  lemma RecordStep(st: Found, o: Options, v: Voicing)
    requires Key(v) !in st.seen
    ensures Record(st, o, v).voicings == st.voicings + (if Kept(o, v) then [v] else [])
    ensures Record(st, o, v).seen <= st.seen + {Key(v)}
  {
  }

  lemma KeysDifferTail(st: Found, vs: seq<Voicing>, seen: set<string>)
    requires vs != [] && KeysDiffer(vs) && (forall v | v in vs :: Key(v) !in st.seen)
    requires seen <= st.seen + {Key(vs[0])}
    ensures KeysDiffer(vs[1..]) && forall v | v in vs[1..] :: Key(v) !in seen
  {
    forall v | v in vs[1..] ensures Key(v) !in seen {
      var i :| 1 <= i < |vs| && vs[i] == v;
      assert vs[i] in vs && Key(vs[0]) != Key(vs[i]);
    }
  }

  lemma {:induction false} RecordAllIsFilter(st: Found, o: Options, vs: seq<Voicing>)
    requires KeysDiffer(vs) && forall v | v in vs :: Key(v) !in st.seen
    ensures RecordAll(st, o, vs).voicings == st.voicings + Filter(KeptTest(o), vs)
    decreases vs
  {
    if vs != [] {
      var next := Record(st, o, vs[0]);
      assert vs[0] in vs;
      RecordStep(st, o, vs[0]);
      KeysDifferTail(st, vs, next.seen);
      RecordAllIsFilter(next, o, vs[1..]);
      FilterHead(KeptTest(o), vs);
      AppendAssociates(st.voicings, if Kept(o, vs[0]) then [vs[0]] else [], Filter(KeptTest(o), vs[1..]));
    }
  }

  /** The `seen` set never turns a voicing away: what is collected is what the two checks accept. */
  lemma SeenNeverRejects(tones: seq<Pitch>, open: seq<Pitch>, o: Options)
    requires NoDup(tones) && tones != []
    ensures KeysDiffer(AllLeaves(tones, open, o))
    ensures Collected(tones, open, o) == Filter(KeptTest(o), AllLeaves(tones, open, o))
  {
    var vs := AllLeaves(tones, open, o);
    AllLeavesNoDup(tones, open, o);
    forall i, j | 0 <= i < j < |vs| ensures Key(vs[i]) != Key(vs[j]) {
      AllLeavesExact(tones, open, o, vs[i]);
      AllLeavesExact(tones, open, o, vs[j]);
      KeySeparatesLeaves(tones, open, vs[i], vs[j]);
    }
    RecordAllIsFilter(Found([], {}), o, vs);
  }

  // ---- the main theorem ----------------------------------------------------------------

  /** The collected voicings are exactly the playable ones, each once. */
  lemma CollectedExact(tones: seq<Pitch>, open: seq<Pitch>, o: Options, v: Voicing)
    requires NoDup(tones) && tones != []
    ensures v in Collected(tones, open, o) <==> Playable(tones, open, o, v)
  {
    SeenNeverRejects(tones, open, o);
    InFilter(KeptTest(o), AllLeaves(tones, open, o), v);
    AllLeavesExact(tones, open, o, v);
    SpanOkExact(o.maxSpan, v);
  }

  lemma CollectedNoRepeats(tones: seq<Pitch>, open: seq<Pitch>, o: Options)
    requires NoDup(tones) && tones != []
    ensures NoDup(Collected(tones, open, o))
  {
    SeenNeverRejects(tones, open, o);
    AllLeavesNoDup(tones, open, o);
    FilterNoDup(KeptTest(o), AllLeaves(tones, open, o));
  }
}
