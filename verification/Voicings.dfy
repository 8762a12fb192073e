/**
 * The chord-voicing search of `music-theory.ts`: what a playable voicing is, and what the
 * search visits and keeps, in the order in which it does so.
 */
module Voicings {
  import opened Seqs
  import opened Sorting
  import opened Text
  import opened Notes
  import opened Enumeration

  datatype Position = Position(str: nat, fret: nat, tone: Pitch)

  type Voicing = seq<Position>

  datatype Options = Options(minFret: nat, maxFret: int, maxSpan: int, limit: int)

  /** What a caller who passes no options gets. */
  const DEFAULT_OPTIONS: Options := Options(0, 12, 4, 8)

  // ---- the definition of a playable voicing --------------------------------------------

  /**
   * A fret the search may use. Fret 0 is outside the window rule except when the window is
   * the empty one `[0, maxFret]` with a negative `maxFret`.
   */
  predicate FretAllowed(o: Options, f: nat) {
    if f == 0 then o.minFret > 0 || o.maxFret >= 0 else o.minFret <= f <= o.maxFret
  }

  /** Strings in ascending order, one for each tone, every tone once, every fret sounding its tone. */
  ghost predicate CoversChord(tones: seq<Pitch>, open: seq<Pitch>, v: Voicing) {
    && |v| == |tones|
    && Ascending(Strings(v), 0, |open|)
    && PermutationOf(tones, Labels(v))
    && forall i :: 0 <= i < |v| ==> v[i].str < |open| && NoteAtFret(open[v[i].str], v[i].fret) == v[i].tone
  }

  ghost predicate InSpan(maxSpan: int, v: Voicing) {
    forall i, j | 0 <= i < |v| && 0 <= j < |v| && v[i].fret > 0 && v[j].fret > 0 :: v[i].fret - v[j].fret <= maxSpan
  }

  ghost predicate Playable(tones: seq<Pitch>, open: seq<Pitch>, o: Options, v: Voicing) {
    && CoversChord(tones, open, v)
    && (forall i :: 0 <= i < |v| ==> FretAllowed(o, v[i].fret))
    && InSpan(o.maxSpan, v)
  }

  function Strings(v: Voicing): (r: seq<nat>)
    ensures |r| == |v| && forall i :: 0 <= i < |v| ==> r[i] == v[i].str
  {
    seq(|v|, i requires 0 <= i < |v| => v[i].str)
  }

  function Frets(v: Voicing): (r: seq<nat>)
    ensures |r| == |v| && forall i :: 0 <= i < |v| ==> r[i] == v[i].fret
  {
    seq(|v|, i requires 0 <= i < |v| => v[i].fret)
  }

  function Labels(v: Voicing): (r: seq<Pitch>)
    ensures |r| == |v| && forall i :: 0 <= i < |v| ==> r[i] == v[i].tone
  {
    seq(|v|, i requires 0 <= i < |v| => v[i].tone)
  }

  // ---- chord tones ---------------------------------------------------------------------

  /** Insertion order of a JavaScript `Set`. */
  function AddAll(acc: seq<Pitch>, ps: seq<Pitch>): seq<Pitch>
    decreases ps
  {
    if ps == [] then acc
    else AddAll(if ps[0] in acc then acc else acc + [ps[0]], ps[1..])
  }

  function IntervalTones(root: Pitch, intervals: seq<nat>): (r: seq<Pitch>)
    ensures |r| == |intervals| && forall i :: 0 <= i < |r| ==> r[i] == (root + intervals[i]) % 12
  {
    seq(|intervals|, i requires 0 <= i < |intervals| => (root + intervals[i]) % 12)
  }

  function ChordTones(root: Pitch, intervals: seq<nat>): seq<Pitch> {
    AddAll([], IntervalTones(root, intervals))
  }

  lemma {:induction false} AddAllExact(acc: seq<Pitch>, ps: seq<Pitch>)
    requires NoDup(acc)
    ensures NoDup(AddAll(acc, ps))
    ensures forall p :: p in AddAll(acc, ps) <==> p in acc || p in ps
    decreases ps
  {
    if ps != [] {
      AddAllExact(if ps[0] in acc then acc else acc + [ps[0]], ps[1..]);
      assert ps == [ps[0]] + ps[1..];
    }
  }

  /** The chord tones are the notes at the chord's intervals above the root, each once. */
  lemma ChordTonesExact(root: Pitch, intervals: seq<nat>)
    ensures NoDup(ChordTones(root, intervals))
    ensures forall p: Pitch :: p in ChordTones(root, intervals)
              <==> exists i :: 0 <= i < |intervals| && p == (root + intervals[i]) % 12
  {
    AddAllExact([], IntervalTones(root, intervals));
    forall p: Pitch
      ensures p in IntervalTones(root, intervals) <==>
              exists i :: 0 <= i < |intervals| && p == (root + intervals[i]) % 12
    {
      if i :| 0 <= i < |intervals| && p == (root + intervals[i]) % 12 {
        assert IntervalTones(root, intervals)[i] == p;
      }
    }
  }

  // ---- frets per string ----------------------------------------------------------------

  /** Frets `f, f+1, .., hi` of a string that sound `tone`. */
  function WindowFrets(open: Pitch, tone: Pitch, f: nat, hi: int): seq<nat>
    decreases hi - f
  {
    if f > hi then []
    else (if NoteAtFret(open, f) == tone then [f] else []) + WindowFrets(open, tone, f + 1, hi)
  }

  /** The list `stringFretsForTone` holds for one string and tone; empty for a missing key. */
  function FretsFor(open: Pitch, tone: Pitch, o: Options): seq<nat> {
    (if o.minFret > 0 && open == tone then [0] else []) + WindowFrets(open, tone, o.minFret, o.maxFret)
  }

  lemma {:induction false} WindowFretsExact(open: Pitch, tone: Pitch, lo: nat, hi: int)
    ensures NoDup(WindowFrets(open, tone, lo, hi))
    ensures forall f :: f in WindowFrets(open, tone, lo, hi) <==> lo <= f <= hi && NoteAtFret(open, f) == tone
    decreases hi - lo
  {
    if lo <= hi {
      WindowFretsExact(open, tone, lo + 1, hi);
    }
  }

  lemma FretsForExact(open: Pitch, tone: Pitch, o: Options)
    ensures NoDup(FretsFor(open, tone, o))
    ensures forall f :: f in FretsFor(open, tone, o) <==> FretAllowed(o, f) && NoteAtFret(open, f) == tone
  {
    WindowFretsExact(open, tone, o.minFret, o.maxFret);
    NoDupAppend(if o.minFret > 0 && open == tone then [0] else [], WindowFrets(open, tone, o.minFret, o.maxFret));
  }

  // ---- what the search visits ----------------------------------------------------------

  ghost predicate StringsFit(open: seq<Pitch>, size: nat, strings: seq<nat>) {
    |strings| == size && forall i :: 0 <= i < size ==> strings[i] < |open|
  }

  ghost predicate AllFit(open: seq<Pitch>, combos: seq<seq<nat>>, perms: seq<seq<Pitch>>) {
    forall c, p | c in combos && p in perms :: StringsFit(open, |p|, c)
  }

  function Choices(open: seq<Pitch>, o: Options, strings: seq<nat>, perm: seq<Pitch>): (r: seq<seq<nat>>)
    requires StringsFit(open, |perm|, strings)
    ensures |r| == |perm| && forall i :: 0 <= i < |r| ==> r[i] == FretsFor(open[strings[i]], perm[i], o)
  {
    seq(|perm|, i requires 0 <= i < |perm| => FretsFor(open[strings[i]], perm[i], o))
  }

  function Place(strings: seq<nat>, perm: seq<Pitch>, frets: seq<nat>): (v: Voicing)
    requires |strings| == |perm| == |frets|
    ensures |v| == |strings| && Strings(v) == strings && Frets(v) == frets && Labels(v) == perm
  {
    seq(|strings|, i requires 0 <= i < |strings| => Position(strings[i], frets[i], perm[i]))
  }

  function PlaceAll(strings: seq<nat>, perm: seq<Pitch>, fss: seq<seq<nat>>): (r: seq<Voicing>)
    requires |strings| == |perm| && forall fs | fs in fss :: |fs| == |perm|
    ensures |r| == |fss| && forall i :: 0 <= i < |r| ==> r[i] == Place(strings, perm, fss[i])
  {
    seq(|fss|, i requires 0 <= i < |fss| => assert fss[i] in fss; Place(strings, perm, fss[i]))
  }

  /** The leaves `expand` reaches for one string subset and one tone ordering. */
  function Leaves(open: seq<Pitch>, o: Options, strings: seq<nat>, perm: seq<Pitch>): seq<Voicing>
    requires StringsFit(open, |perm|, strings)
  {
    ProductLengths(Choices(open, o, strings, perm), []);
    PlaceAll(strings, perm, Product(Choices(open, o, strings, perm), []))
  }

  lemma ProductLengths(choices: seq<seq<nat>>, accum: seq<nat>)
    requires |accum| <= |choices|
    ensures forall fs | fs in Product(choices, accum) :: |fs| == |choices|
  {
    forall fs | fs in Product(choices, accum) ensures |fs| == |choices| { ProductExact(choices, accum, fs); }
  }

  /** The leaves for one string subset, over the tone orderings `perms`. */
  function LeavesForPerms(open: seq<Pitch>, o: Options, strings: seq<nat>, perms: seq<seq<Pitch>>): seq<Voicing>
    requires forall p | p in perms :: StringsFit(open, |p|, strings)
  {
    if perms == [] then []
    else
      assert perms[0] in perms;
      Leaves(open, o, strings, perms[0]) + LeavesForPerms(open, o, strings, perms[1..])
  }

  function LeavesForCombos(open: seq<Pitch>, o: Options, combos: seq<seq<nat>>, perms: seq<seq<Pitch>>): seq<Voicing>
    requires AllFit(open, combos, perms)
  {
    if combos == [] then []
    else
      assert combos[0] in combos && forall c | c in combos[1..] :: c in combos;
      LeavesForPerms(open, o, combos[0], perms) + LeavesForCombos(open, o, combos[1..], perms)
  }

  function AllCombos(tones: seq<Pitch>, open: seq<Pitch>): seq<seq<nat>> {
    Combos([], 0, |open|, |tones|)
  }

  function NoneUsed(n: nat): (r: seq<bool>)
    ensures |r| == n && forall i :: 0 <= i < n ==> !r[i]
  {
    seq(n, _ => false)
  }

  function AllPerms(tones: seq<Pitch>): seq<seq<Pitch>> {
    Perms(tones, NoneUsed(|tones|), [])
  }

  lemma EnumerationsFit(tones: seq<Pitch>, open: seq<Pitch>)
    requires NoDup(tones)
    ensures AllFit(open, AllCombos(tones, open), AllPerms(tones))
    ensures forall p | p in AllPerms(tones) :: |p| == |tones|
  {
    forall c, p | c in AllCombos(tones, open) && p in AllPerms(tones)
      ensures StringsFit(open, |p|, c)
    {
      CombosExact([], 0, |open|, |tones|, c);
      PermsExact(tones, NoneUsed(|tones|), [], p);
      assert c[0..] == c;
    }
    forall p | p in AllPerms(tones) ensures |p| == |tones| { PermsExact(tones, NoneUsed(|tones|), [], p); }
  }

  /** Every leaf of the whole search, in the order visited. */
  function AllLeaves(tones: seq<Pitch>, open: seq<Pitch>, o: Options): seq<Voicing>
    requires NoDup(tones)
  {
    EnumerationsFit(tones, open);
    LeavesForCombos(open, o, AllCombos(tones, open), AllPerms(tones))
  }

  // ---- what the search keeps -----------------------------------------------------------

  function MinOf(s: seq<nat>): (m: nat)
    requires s != []
    ensures m in s && forall x | x in s :: m <= x
  {
    if |s| == 1 then s[0]
    else
      var m := MinOf(s[1..]);
      assert s == [s[0]] + s[1..];
      if s[0] < m then s[0] else m
  }

  function MaxOf(s: seq<nat>): (m: nat)
    requires s != []
    ensures m in s && forall x | x in s :: x <= m
  {
    if |s| == 1 then s[0]
    else
      var m := MaxOf(s[1..]);
      assert s == [s[0]] + s[1..];
      if s[0] > m then s[0] else m
  }

  function NonOpenFrets(v: Voicing): seq<nat> {
    Filter(f => f > 0, Frets(v))
  }

  predicate SpanOk(maxSpan: int, v: Voicing) {
    var fs := NonOpenFrets(v);
    fs == [] || MaxOf(fs) - MinOf(fs) <= maxSpan
  }

  predicate WindowOk(o: Options, v: Voicing) {
    forall i :: 0 <= i < |v| ==> v[i].fret == 0 || o.minFret <= v[i].fret <= o.maxFret
  }

  lemma SpanOkExact(maxSpan: int, v: Voicing)
    ensures SpanOk(maxSpan, v) <==> InSpan(maxSpan, v)
  {
    var fs := NonOpenFrets(v);
    forall i | 0 <= i < |v| && v[i].fret > 0 ensures v[i].fret in fs {
      assert Frets(v)[i] == v[i].fret;
      InFilter(f => f > 0, Frets(v), v[i].fret);
    }
    if fs != [] {
      InFilter(f => f > 0, Frets(v), MaxOf(fs));
      InFilter(f => f > 0, Frets(v), MinOf(fs));
      var i :| 0 <= i < |v| && Frets(v)[i] == MaxOf(fs);
      var j :| 0 <= j < |v| && Frets(v)[j] == MinOf(fs);
      assert InSpan(maxSpan, v) ==> v[i].fret - v[j].fret <= maxSpan;
    }
  }

  predicate Kept(o: Options, v: Voicing) {
    SpanOk(o.maxSpan, v) && WindowOk(o, v)
  }

  function KeptTest(o: Options): Voicing -> bool {
    v => Kept(o, v)
  }

  function Token(p: Position): string {
    Decimal(p.str) + ":" + Decimal(p.fret)
  }

  /** The text a voicing is deduplicated by. */
  function Key(v: Voicing): string {
    Join(SortStrings(Map(Token, v)), "|")
  }

  datatype Found = Found(voicings: seq<Voicing>, seen: set<string>)

  /** One call of `recordIfValid`. */
  function Record(st: Found, o: Options, v: Voicing): Found {
    if !Kept(o, v) || Key(v) in st.seen then st
    else Found(st.voicings + [v], st.seen + {Key(v)})
  }

  function RecordAll(st: Found, o: Options, vs: seq<Voicing>): Found
    decreases vs
  {
    if vs == [] then st else RecordAll(Record(st, o, vs[0]), o, vs[1..])
  }

  lemma {:induction false} RecordAllAppend(st: Found, o: Options, a: seq<Voicing>, b: seq<Voicing>)
    ensures RecordAll(st, o, a + b) == RecordAll(RecordAll(st, o, a), o, b)
    decreases a
  {
    if a == [] {
      assert a + b == b;
    } else {
      assert (a + b)[1..] == a[1..] + b;
      RecordAllAppend(Record(st, o, a[0]), o, a[1..], b);
    }
  }

  /** The voicings collected before sorting. */
  function Collected(tones: seq<Pitch>, open: seq<Pitch>, o: Options): seq<Voicing>
    requires NoDup(tones)
  {
    RecordAll(Found([], {}), o, AllLeaves(tones, open, o)).voicings
  }

  /** How many voicings of a chord are collected. */
  function CollectedCount(root: Pitch, intervals: seq<nat>, open: seq<Pitch>, o: Options): nat {
    ChordTonesExact(root, intervals);
    |Collected(ChordTones(root, intervals), open, o)|
  }

  // ---- what is returned ----------------------------------------------------------------

  function LowFret(v: Voicing): nat {
    if v == [] then 0 else MinOf(Frets(v))
  }

  function TotalSpan(v: Voicing): nat {
    if v == [] then 0 else MaxOf(Frets(v)) - MinOf(Frets(v))
  }

  /** The comparator of the final sort is not positive. */
  predicate RanksBefore(a: Voicing, b: Voicing) {
    if LowFret(a) != LowFret(b) then LowFret(a) < LowFret(b) else TotalSpan(a) <= TotalSpan(b)
  }

  /** `slice(0, limit)`: a negative limit counts from the end. */
  function SliceTo<T>(s: seq<T>, limit: int): seq<T> {
    if limit < 0 then (if |s| + limit < 0 then [] else s[..|s| + limit])
    else if limit < |s| then s[..limit] else s
  }

  function Ranked(tones: seq<Pitch>, open: seq<Pitch>, o: Options): seq<Voicing>
    requires NoDup(tones)
  {
    SliceTo(StableSort(RanksBefore, Collected(tones, open, o)), o.limit)
  }

  datatype Answer = UnknownNote | Answer(voicings: seq<Voicing>)

  /** An unreadable string name only matters when the fret tables are filled. */
  function OrZero(reading: Option<Pitch>): Pitch {
    match reading case Some(p) => p case None => 0
  }

  predicate WindowReads(o: Options) {
    o.minFret > 0 || o.minFret <= o.maxFret
  }

  function VoicingsForTones(tones: seq<Pitch>, tuning: seq<Option<Pitch>>, o: Options): Answer
    requires NoDup(tones)
  {
    if tones == [] || |tones| > |tuning| then Answer([])
    else if WindowReads(o) && None in tuning then UnknownNote
    else Answer(Ranked(tones, Map(OrZero, tuning), o))
  }

  /** `getChordVoicings` once the note names are read; None is a name that cannot be read. */
  function VoicingsOf(root: Option<Pitch>, intervals: seq<nat>, tuning: seq<Option<Pitch>>, o: Options): Answer {
    match root
    case None => UnknownNote
    case Some(r) =>
      ChordTonesExact(r, intervals);
      VoicingsForTones(ChordTones(r, intervals), tuning, o)
  }

  /** The whole of `getChordVoicings`. */
  function ChordVoicings(root: string, intervals: seq<nat>, tuning: seq<string>, o: Options): Answer {
    VoicingsOf(NoteIndex(root), intervals, Map(NoteIndex, tuning), o)
  }
}
