/**
 * Note names and pitch classes, as the frontend (`music-theory.ts`) and the backend
 * (`voicing.go`) each read them.
 */
module Notes {
  import opened Seqs
  import opened Text

  /** A chromatic index: 0 is C, 11 is B. */
  type Pitch = n: nat | n < 12

  const CHROMATIC_NOTES: seq<string> := ["C", "C#", "D", "D#", "E", "F", "F#", "G", "G#", "A", "A#", "B"]

  /** Both sides' default: standard four-string tuning, highest string first. */
  const DEFAULT_TUNING: seq<string> := ["G", "D", "A", "E"]

  const ENHARMONIC_MAP: map<string, string> :=
    map["Db" := "C#", "Eb" := "D#", "Fb" := "E", "Gb" := "F#", "Ab" := "G#",
        "Bb" := "A#", "Cb" := "B", "E#" := "F", "B#" := "C"]

  /** The Unicode spaces both languages trim. */
  predicate IsCommonSpace(c: char) {
    || '\t' <= c <= '\r' || c == ' ' || c == '\U{00A0}' || c == '\U{1680}'
    || '\U{2000}' <= c <= '\U{200A}' || c == '\U{2028}' || c == '\U{2029}'
    || c == '\U{202F}' || c == '\U{205F}' || c == '\U{3000}'
  }

  /** What `String.prototype.trim` removes and what the regular expression class `\s` matches. */
  predicate IsJsSpace(c: char) {
    IsCommonSpace(c) || c == '\U{FEFF}'
  }

  /** Go's `unicode.IsSpace`. */
  predicate IsGoSpace(c: char) {
    IsCommonSpace(c) || c == '\U{0085}'
  }

  /** Position of the first occurrence. */
  function IndexOf(names: seq<string>, name: string): (r: Option<nat>)
    ensures r.Some? ==> r.value < |names| && names[r.value] == name
    ensures r.None? ==> name !in names
  {
    if names == [] then None
    else if names[0] == name then Some(0)
    else match IndexOf(names[1..], name)
      case None => None
      case Some(i) => Some(i + 1)
  }

  /** `noteIndex` of the frontend; None stands for the thrown error. */
  function NoteIndex(note: string): (r: Option<Pitch>) {
    var trimmed := Trim(note, IsJsSpace);
    var canonical :=
      if trimmed in CHROMATIC_NOTES then Some(trimmed)
      else if trimmed in ENHARMONIC_MAP then Some(ENHARMONIC_MAP[trimmed])
      else None;
    if canonical.None? then None
    else match IndexOf(CHROMATIC_NOTES, canonical.value)
      case Some(i) => Some(i)
      case None => None
  }

  /** `noteIndex` of the backend, -1 for an unknown note. */
  function BackendNoteIndex(note: string): (r: int)
    ensures -1 <= r < 12
  {
    var n := Trim(note, IsGoSpace);
    var canonical := if n in ENHARMONIC_MAP then ENHARMONIC_MAP[n] else n;
    match IndexOf(CHROMATIC_NOTES, canonical)
    case Some(i) => i
    case None => -1
  }

  function NoteAtFret(open: Pitch, fret: nat): (r: Pitch) {
    (open + fret) % 12
  }

  lemma EnharmonicsAreChromatic(n: string)
    requires n in ENHARMONIC_MAP
    ensures ENHARMONIC_MAP[n] in CHROMATIC_NOTES && n !in CHROMATIC_NOTES
  {
  }

  // ---- the two readings of one name ----------------------------------------------------

  predicate IsName(n: string) { n in CHROMATIC_NOTES || n in ENHARMONIC_MAP }

  /** Both sides read the name alike, rejections included. */
  predicate ReadAlike(note: string) {
    match NoteIndex(note)
    case Some(i) => BackendNoteIndex(note) == i
    case None => BackendNoteIndex(note) == -1
  }

  /** A space for either side. */
  predicate IsEitherSpace(c: char) { IsJsSpace(c) || IsGoSpace(c) }

  /** Where the two trims agree, the two readings of a note name agree, rejections included. */
  lemma NoteIndexesAgree(note: string)
    requires Trim(note, IsJsSpace) == Trim(note, IsGoSpace)
    ensures ReadAlike(note)
  {
    var n := Trim(note, IsGoSpace);
    if n in ENHARMONIC_MAP {
      EnharmonicsAreChromatic(n);
    }
  }

  lemma NamesHaveNoSpace(n: string)
    requires IsName(n)
    ensures forall c | c in n :: !IsEitherSpace(c)
  {
  }

  lemma {:induction false} TrimLeftKeeps(s: string, ws: char -> bool, c: char)
    ensures c in TrimLeft(s, ws) ==> c in s
    ensures c in s && !ws(c) ==> c in TrimLeft(s, ws)
  {
    if s != "" && ws(s[0]) {
      TrimLeftKeeps(s[1..], ws, c);
    }
  }

  lemma {:induction false} TrimRightKeeps(s: string, ws: char -> bool, c: char)
    ensures c in TrimRight(s, ws) ==> c in s
    ensures c in s && !ws(c) ==> c in TrimRight(s, ws)
  {
    if s != "" && ws(s[|s| - 1]) {
      TrimRightKeeps(s[..|s| - 1], ws, c);
    }
  }

  lemma {:induction false} TrimLeftAgrees(s: string, ws: char -> bool, wt: char -> bool)
    requires forall c | c in s :: ws(c) == wt(c)
    ensures TrimLeft(s, ws) == TrimLeft(s, wt)
  {
    if s != "" && ws(s[0]) {
      TrimLeftAgrees(s[1..], ws, wt);
    }
  }

  lemma {:induction false} TrimRightAgrees(s: string, ws: char -> bool, wt: char -> bool)
    requires forall c | c in s :: ws(c) == wt(c)
    ensures TrimRight(s, ws) == TrimRight(s, wt)
  {
    if s != "" && ws(s[|s| - 1]) {
      TrimRightAgrees(s[..|s| - 1], ws, wt);
    }
  }

  /** Two trims that treat a string's own characters alike agree on it. */
  lemma TrimsAgree(s: string, ws: char -> bool, wt: char -> bool)
    requires forall c | c in s :: ws(c) == wt(c)
    ensures Trim(s, ws) == Trim(s, wt)
  {
    TrimLeftAgrees(s, ws, wt);
    var t := TrimLeft(s, ws);
    forall c | c in t ensures ws(c) == wt(c) { TrimLeftKeeps(s, ws, c); }
    TrimRightAgrees(t, ws, wt);
  }

  /**
   * One side, whose trim misses only the character `x`: it finds a name exactly when the name is
   * there once every space is trimmed and `x` does not occur.
   */
  lemma NameFound(note: string, ws: char -> bool, x: char)
    requires forall c :: IsEitherSpace(c) <==> ws(c) || c == x
    requires !ws(x)
    ensures IsName(Trim(note, ws)) <==> IsName(Trim(note, IsEitherSpace)) && x !in note
  {
    if x in note {
      TrimLeftKeeps(note, ws, x);
      TrimRightKeeps(TrimLeft(note, ws), ws, x);
      assert x in Trim(note, ws) && IsEitherSpace(x);
      if IsName(Trim(note, ws)) { NamesHaveNoSpace(Trim(note, ws)); }
    } else {
      TrimsAgree(note, ws, IsEitherSpace);
    }
  }

  lemma ReadIffName(note: string)
    ensures NoteIndex(note).Some? <==> IsName(Trim(note, IsJsSpace))
    ensures BackendNoteIndex(note) != -1 <==> IsName(Trim(note, IsGoSpace))
  {
    var js, go := Trim(note, IsJsSpace), Trim(note, IsGoSpace);
    if js in ENHARMONIC_MAP { EnharmonicsAreChromatic(js); }
    if go in ENHARMONIC_MAP { EnharmonicsAreChromatic(go); }
  }

  /**
   * Exactly when the two sides read a name alike: when it is no name for either even without any
   * space around it, or U+FEFF and U+0085 are both absent or both present.
   */
  lemma ReadAlikeExactly(note: string)
    ensures ReadAlike(note) <==>
              (IsName(Trim(note, IsEitherSpace)) ==> ('\U{FEFF}' in note <==> '\U{0085}' in note))
  {
    ReadIffName(note);
    NameFound(note, IsJsSpace, '\U{0085}');
    NameFound(note, IsGoSpace, '\U{FEFF}');
    if '\U{FEFF}' !in note && '\U{0085}' !in note {
      TrimsAgree(note, IsJsSpace, IsGoSpace);
      NoteIndexesAgree(note);
    }
  }

  /** A leading byte-order mark is trimmed by the frontend only. */
  lemma ByteOrderMarkIsReadDifferently()
    ensures NoteIndex("\U{FEFF}C") == Some(0) && BackendNoteIndex("\U{FEFF}C") == -1
  {
    var s := "\U{FEFF}C";
    assert s[1..] == "C";
    assert TrimLeft("C", IsJsSpace) == "C";
    assert TrimRight("C", IsJsSpace) == "C";
    assert Trim(s, IsJsSpace) == "C";
    assert Trim(s, IsGoSpace) == s;
    assert s !in ENHARMONIC_MAP by { assert s[0] == '\U{FEFF}'; }
    assert s !in CHROMATIC_NOTES by { assert s[0] == '\U{FEFF}'; }
  }

  /** A leading next-line character is trimmed by the backend only. */
  lemma NextLineIsReadDifferently()
    ensures NoteIndex("\U{0085}C") == None && BackendNoteIndex("\U{0085}C") == 0
  {
    var s := "\U{0085}C";
    assert s[1..] == "C";
    assert TrimLeft("C", IsGoSpace) == "C";
    assert TrimRight("C", IsGoSpace) == "C";
    assert Trim(s, IsGoSpace) == "C";
    assert Trim(s, IsJsSpace) == s;
    assert s !in ENHARMONIC_MAP by { assert s[0] == '\U{0085}'; }
    assert s !in CHROMATIC_NOTES by { assert s[0] == '\U{0085}'; }
  }

  lemma {:induction false} IndexIsFirst(names: seq<string>, k: nat)
    requires k < |names| && forall j :: 0 <= j < k ==> names[j] != names[k]
    ensures IndexOf(names, names[k]) == Some(k)
  {
    if k > 0 {
      IndexIsFirst(names[1..], k - 1);
    }
  }

  lemma NamesDiffer(p: Pitch, q: Pitch)
    ensures CHROMATIC_NOTES[p] == CHROMATIC_NOTES[q] ==> p == q
  {
  }

  lemma NamesHaveNoEdgeSpace(p: Pitch)
    ensures CHROMATIC_NOTES[p] != ""
    ensures forall c | c in CHROMATIC_NOTES[p] :: !IsJsSpace(c) && !IsGoSpace(c)
  {
  }

  /** Round trip: the canonical name of an index is read back as that index, on both sides. */
  lemma CanonicalNamesRead(p: Pitch)
    ensures NoteIndex(CHROMATIC_NOTES[p]) == Some(p) && BackendNoteIndex(CHROMATIC_NOTES[p]) == p
  {
    var n := CHROMATIC_NOTES[p];
    NamesHaveNoEdgeSpace(p);
    assert Trim(n, IsJsSpace) == n && Trim(n, IsGoSpace) == n;
    if n in ENHARMONIC_MAP {
      EnharmonicsAreChromatic(n);
    }
    forall j: nat | j < p ensures CHROMATIC_NOTES[j] != CHROMATIC_NOTES[p] { NamesDiffer(j, p); }
    IndexIsFirst(CHROMATIC_NOTES, p);
  }

  // ---- what a note name means ----------------------------------------------------------

  /** The natural notes. */
  predicate Natural(letter: char, pitch: int) {
    || (letter == 'C' && pitch == 0) || (letter == 'D' && pitch == 2) || (letter == 'E' && pitch == 4)
    || (letter == 'F' && pitch == 5) || (letter == 'G' && pitch == 7) || (letter == 'A' && pitch == 9)
    || (letter == 'B' && pitch == 11)
  }

  /** A natural, or one raised by a sharp or lowered by a flat. */
  ghost predicate Spells(n: string, pitch: int) {
    && n != ""
    && exists natural :: Natural(n[0], natural) && Altered(n, natural, pitch)
  }

  predicate Altered(n: string, natural: int, pitch: int) {
    match |n|
    case 1 => pitch == natural
    case 2 => (n[1] == '#' && pitch == (natural + 1) % 12) || (n[1] == 'b' && pitch == (natural + 11) % 12)
    case _ => false
  }

  function Canonical(n: string): string {
    if n in ENHARMONIC_MAP then ENHARMONIC_MAP[n] else n
  }

  lemma FirstOfItsName(p: Pitch)
    ensures IndexOf(CHROMATIC_NOTES, CHROMATIC_NOTES[p]) == Some(p)
  {
    forall j: nat | j < p ensures CHROMATIC_NOTES[j] != CHROMATIC_NOTES[p] { NamesDiffer(j, p); }
    IndexIsFirst(CHROMATIC_NOTES, p);
  }

  lemma NaturalReads(letter: char, p: Pitch)
    requires Natural(letter, p)
    ensures Canonical([letter]) == CHROMATIC_NOTES[p]
  {
    assert |"Db"| == 2;
  }

  lemma SharpReads(letter: char, p: Pitch)
    requires Natural(letter, p)
    ensures Canonical([letter, '#']) == CHROMATIC_NOTES[(p + 1) % 12]
  {
    var n := [letter, '#'];
    assert letter == 'E' ==> n == "E#";
    assert letter == 'B' ==> n == "B#";
    assert n[1] == '#' && (n in ENHARMONIC_MAP ==> n == "E#" || n == "B#");
  }

  lemma FlatReads(letter: char, p: Pitch)
    requires Natural(letter, p)
    ensures Canonical([letter, 'b']) == CHROMATIC_NOTES[(p + 11) % 12]
  {
    var n := [letter, 'b'];
    assert letter == 'C' ==> n == "Cb";
    assert letter == 'D' ==> n == "Db";
    assert letter == 'E' ==> n == "Eb";
    assert letter == 'F' ==> n == "Fb";
    assert letter == 'G' ==> n == "Gb";
    assert letter == 'A' ==> n == "Ab";
    assert letter == 'B' ==> n == "Bb";
  }

  lemma ChromaticSpells(n: string)
    requires n in CHROMATIC_NOTES
    ensures exists v :: Spells(n, v)
  {
    assert n[0] in "CDEFGAB" && (|n| == 1 || (|n| == 2 && n[1] == '#'));
    LetterSpells(n);
  }

  lemma EnharmonicSpells(n: string)
    requires n in ENHARMONIC_MAP
    ensures exists v :: Spells(n, v)
  {
    assert n[0] in "CDEFGAB" && |n| == 2 && (n[1] == '#' || n[1] == 'b');
    LetterSpells(n);
  }

  lemma LetterSpells(n: string)
    requires n != "" && n[0] in "CDEFGAB"
    requires |n| == 1 || (|n| == 2 && (n[1] == '#' || n[1] == 'b'))
    ensures exists v :: Spells(n, v)
  {
    var p := if n[0] == 'C' then 0 else if n[0] == 'D' then 2 else if n[0] == 'E' then 4 else if n[0] == 'F' then 5
             else if n[0] == 'G' then 7 else if n[0] == 'A' then 9 else 11;
    assert Natural(n[0], p);
    var v := if |n| == 1 then p else if n[1] == '#' then (p + 1) % 12 else (p + 11) % 12;
    assert Altered(n, p, v) && Spells(n, v);
  }

  /** The tables hold exactly the twenty-one names of a letter with at most one accidental, at their pitches. */
  lemma TablesExact(n: string, v: int)
    ensures IndexOf(CHROMATIC_NOTES, Canonical(n)) == Some(v) <==> Spells(n, v)
  {
    if Spells(n, v) {
      SpelledIsRead(n, v);
    }
    var r := IndexOf(CHROMATIC_NOTES, Canonical(n));
    if r.Some? {
      if n in ENHARMONIC_MAP { EnharmonicSpells(n); } else { ChromaticSpells(n); }
      var w :| Spells(n, w);
      SpelledIsRead(n, w);
    }
  }

  lemma SpelledIsRead(n: string, v: int)
    requires Spells(n, v)
    ensures 0 <= v < 12 && IndexOf(CHROMATIC_NOTES, Canonical(n)) == Some(v)
  {
    var p :| Natural(n[0], p) && Altered(n, p, v);
    AlteredIsNamed(n, p, v);
    FirstOfItsName(v);
  }

  lemma AlteredIsNamed(n: string, p: Pitch, v: int)
    requires n != "" && Natural(n[0], p) && Altered(n, p, v)
    ensures 0 <= v < 12 && Canonical(n) == CHROMATIC_NOTES[v]
  {
    if |n| == 1 {
      assert n == [n[0]];
      NaturalReads(n[0], p);
    } else {
      assert n == [n[0], n[1]];
      if n[1] == '#' { SharpReads(n[0], p); } else { FlatReads(n[0], p); }
    }
  }

  /** What a side with trimmed characters `ws` should read: a spelled name with nothing but those around it. */
  ghost predicate Means(note: string, ws: char -> bool, v: int) {
    exists i, j :: PaddedBy(note, ws, i, j) && Spells(note[i..j], v)
  }

  lemma SpelledHasNoSpace(n: string, v: int)
    requires Spells(n, v)
    ensures !IsEitherSpace(n[0]) && !IsEitherSpace(n[|n| - 1])
  {
  }

  lemma MeansWhatIsTrimmed(note: string, ws: char -> bool, v: int)
    requires forall c :: ws(c) ==> IsEitherSpace(c)
    ensures Means(note, ws, v) <==> Spells(Trim(note, ws), v)
  {
    var a, b := TrimIs(note, ws);
    if i, j :| PaddedBy(note, ws, i, j) && Spells(note[i..j], v) {
      SpelledHasNoSpace(note[i..j], v);
      assert note[i..j][0] == note[i] && note[i..j][j - i - 1] == note[j - 1];
      TrimFinds(note, ws, i, j);
    }
  }

  /** The frontend reads exactly the spelled names, at their pitches, with any space it trims around them. */
  lemma NoteIndexExactly(note: string, v: int)
    ensures NoteIndex(note) == Some(v) <==> Means(note, IsJsSpace, v)
  {
    var n := Trim(note, IsJsSpace);
    MeansWhatIsTrimmed(note, IsJsSpace, v);
    TablesExact(n, v);
    if n in ENHARMONIC_MAP { EnharmonicsAreChromatic(n); }
  }

  /** And so does the backend, with any space it trims; anything else is -1. */
  lemma BackendNoteIndexExactly(note: string, v: int)
    ensures v >= 0 ==> (BackendNoteIndex(note) == v <==> Means(note, IsGoSpace, v))
    ensures BackendNoteIndex(note) == -1 <==> forall v :: !Means(note, IsGoSpace, v)
  {
    var n := Trim(note, IsGoSpace);
    forall v ensures Means(note, IsGoSpace, v) <==> v >= 0 && BackendNoteIndex(note) == v {
      MeansWhatIsTrimmed(note, IsGoSpace, v);
      TablesExact(n, v);
    }
    assert BackendNoteIndex(note) >= 0 ==> Means(note, IsGoSpace, BackendNoteIndex(note));
  }

  /** A semitone a fret: the open string, each fret one above the last, and the octave at the twelfth. */
  lemma FretsRiseBySemitones(open: Pitch, fret: nat)
    ensures NoteAtFret(open, 0) == open
    ensures NoteAtFret(open, fret + 1) == if NoteAtFret(open, fret) == 11 then 0 else NoteAtFret(open, fret) + 1
    ensures NoteAtFret(open, fret + 12) == NoteAtFret(open, fret)
  {
  }

  /** The spaces of each side by their code points. */
  lemma SpacesListed(c: char)
    ensures var n := c as int;
      && (IsJsSpace(c) <==> 9 <= n <= 13 || 8192 <= n <= 8202
                            || n in {32, 160, 5760, 8232, 8233, 8239, 8287, 12288, 65279})
      && (IsGoSpace(c) <==> 9 <= n <= 13 || 8192 <= n <= 8202
                            || n in {32, 133, 160, 5760, 8232, 8233, 8239, 8287, 12288})
  {
  }
}
