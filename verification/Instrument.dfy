/**
 * The instrument settings of `InstrumentContext.tsx`: the shown tuning, the last state known to
 * the server, and one debounced save. The browser may fire the save timer after a state change
 * but before the effect that would cancel it has run, so the effect is an event of its own here.
 */
module Instrument {
  import opened Seqs
  import opened Notes

  datatype Setup = Setup(tuning: seq<string>, stringCount: nat)

  datatype Preset = Preset(name: string, strings: nat, notes: seq<string>)

  const PRESETS: seq<Preset> := [
    Preset("Standard", 4, DEFAULT_TUNING),
    Preset("Drop D", 4, ["G", "D", "A", "D"]),
    Preset("Half Step Down", 4, ["Gb", "Db", "Ab", "Eb"]),
    Preset("Standard", 5, ["G", "D", "A", "E", "B"]),
    Preset("Drop A", 5, ["G", "D", "A", "E", "A"]),
    Preset("Standard", 6, ["C", "G", "D", "A", "E", "B"]),
    Preset("Drop B", 6, ["C", "G", "D", "A", "E", "A"])
  ]

  function FindStandard(presets: seq<Preset>, count: nat): (r: Option<Preset>)
    ensures r.Some? ==> r.value in presets && IsStandard(r.value, count)
    ensures r.None? ==> forall p | p in presets :: !IsStandard(p, count)
  {
    if presets == [] then None
    else if IsStandard(presets[0], count) then Some(presets[0])
    else FindStandard(presets[1..], count)
  }

  predicate IsStandard(p: Preset, count: nat) { p.strings == count && p.name == "Standard" }

  function StandardPreset(count: nat): Option<Preset> { FindStandard(PRESETS, count) }

  function Repeat(note: string, n: nat): (r: seq<string>)
    ensures |r| == n && forall i :: 0 <= i < n ==> r[i] == note
  {
    seq(n, _ => note)
  }

  /** The search finds the standard tuning of 4, 5 and 6 strings and nothing else, of the right size. */
  lemma StandardNotesAreThePresets(count: nat)
    ensures StandardPreset(count) ==
              if count == 4 then Some(PRESETS[0]) else if count == 5 then Some(PRESETS[3])
              else if count == 6 then Some(PRESETS[5]) else None
    ensures StandardPreset(count).Some? ==> |StandardPreset(count).value.notes| == count
    ensures count == 4 ==> StandardPreset(count).value.notes == DEFAULT_TUNING
  {
    PresetSizes();
    if count == 4 {
      FindsFirst(PRESETS, count, 0);
    } else if count == 5 {
      FindsFirst(PRESETS, count, 3);
    } else if count == 6 {
      FindsFirst(PRESETS, count, 5);
    }
  }

  lemma PresetSizes()
    ensures |PRESETS| == 7
    ensures forall k, count | 0 <= k < 7 ::
              IsStandard(PRESETS[k], count) <==>
                (k == 0 && count == 4) || (k == 3 && count == 5) || (k == 5 && count == 6)
    ensures |PRESETS[0].notes| == 4 && |PRESETS[3].notes| == 5 && |PRESETS[5].notes| == 6
    ensures PRESETS[0].notes == DEFAULT_TUNING
  {
    assert |"Standard"| == 8 && |"Drop D"| == 6 && |"Half Step Down"| == 14;
  }

  lemma {:induction false} FindsFirst(presets: seq<Preset>, count: nat, k: nat)
    requires k < |presets| && IsStandard(presets[k], count)
    requires forall j :: 0 <= j < k ==> !IsStandard(presets[j], count)
    ensures FindStandard(presets, count) == Some(presets[k])
  {
    if k > 0 {
      FindsFirst(presets[1..], count, k - 1);
    }
  }

  /** A standard tuning counts up in fourths from its lowest string, E on four strings and B on five and six. */
  lemma StandardTuningsAreInFourths(count: nat, k: nat)
    requires 4 <= count <= 6 && k < count
    ensures StandardPreset(count).Some? && |StandardPreset(count).value.notes| == count
    ensures NoteIndex(StandardPreset(count).value.notes[k])
              == Some(((if count == 4 then 4 else 11) + 5 * (count - 1 - k)) % 12)
  {
    StandardNotesAreThePresets(count);
    PresetNames(count, k);
    CanonicalNamesRead(((if count == 4 then 4 else 11) + 5 * (count - 1 - k)) % 12);
  }

  lemma PresetNames(count: nat, k: nat)
    requires 4 <= count <= 6 && k < count
    ensures |PRESETS| == 7
    ensures var notes := PRESETS[if count == 4 then 0 else if count == 5 then 3 else 5].notes;
      |notes| == count && notes[k] == CHROMATIC_NOTES[((if count == 4 then 4 else 11) + 5 * (count - 1 - k)) % 12]
  {
  }

  function ReconcileTuning(current: seq<string>, target: nat): seq<string> {
    if |current| == target then current
    else match StandardPreset(target)
      case Some(preset) => preset.notes
      case None =>
        if target < |current| then current[..target]
        else current + Repeat(if current == [] then "E" else current[|current| - 1], target - |current|)
  }

  /**
   * The reconciled tuning has the target number of strings. It is the given one if that fits; else the
   * standard preset of that size; else the given one cut short, or prolonged with its last note.
   */
  lemma ReconcileFits(current: seq<string>, target: nat)
    ensures var r := ReconcileTuning(current, target); var preset := StandardPreset(target);
      && |r| == target
      && (|current| == target ==> r == current)
      && (|current| != target && preset.Some? ==> r == preset.value.notes)
      && (preset.None? && target < |current| ==> r <= current)
      && (preset.None? && target > |current| ==> current <= r)
      && (preset.None? && current != [] ==> forall i :: |current| <= i < |r| ==> r[i] == current[|current| - 1])
      && (preset.None? && current == [] ==> forall i :: 0 <= i < |r| ==> r[i] == "E")
  {
    StandardNotesAreThePresets(target);
  }

  // ---- the provider --------------------------------------------------------------------

  /** What the settings endpoint returns; either part may be missing. */
  datatype Settings = Settings(tuning: Option<seq<string>>, stringCount: Option<nat>)

  /** The setup that settings describe, None when they describe none. */
  function Described(s: Settings): Option<Setup> {
    if s.tuning.Some? && |s.tuning.value| > 0 then
      Some(Setup(s.tuning.value, match s.stringCount case Some(c) => c case None => |s.tuning.value|))
    else match s.stringCount
      case Some(c) => Some(Setup(ReconcileTuning(DEFAULT_TUNING, c), c))
      case None => None
  }

  /**
   * `stale` is true between a state change and the run of the save effect for it; `sent` lists the
   * saves made.
   */
  datatype Provider = Provider(
    signedIn: bool, fetching: bool, shown: Setup, lastServer: Setup, pending: Option<Setup>,
    stale: bool, sent: seq<Setup>)

  const INITIAL_SETUP: Setup := Setup(DEFAULT_TUNING, 4)
  const INITIAL: Provider := Provider(false, false, INITIAL_SETUP, INITIAL_SETUP, None, true, [])

  datatype Event =
    | SignIn
    | SignOut
    | SettingsReply(settings: Settings)
    | SettingsFail
    | SetTuning(tuning: seq<string>)
    | SetStringCount(count: nat)
    | SaveEffect
    | TimerFires

  predicate Enabled(p: Provider, e: Event) {
    match e
    case SettingsReply(_) => p.fetching
    case SettingsFail => p.fetching
    case TimerFires => p.pending.Some?
    case _ => true
  }

  function Edited(p: Provider, s: Setup): Provider {
    p.(shown := s, stale := true)
  }

  /** The save that the effect schedules. */
  function Due(p: Provider): Option<Setup> {
    if p.signedIn && p.shown != p.lastServer then Some(p.shown) else None
  }

  function Next(p: Provider, e: Event): Provider
    requires Enabled(p, e)
  {
    match e
    case SignIn => p.(signedIn := true, fetching := true, stale := true)
    case SignOut => p.(signedIn := false, fetching := false, stale := true)
    case SettingsReply(s) =>
      var q := p.(fetching := false);
      (match Described(s)
       case Some(setup) => Edited(q, setup).(lastServer := setup)
       case None => q)
    case SettingsFail => p.(fetching := false)
    case SetTuning(t) => Edited(p, Setup(t, |t|))
    case SetStringCount(c) => Edited(p, Setup(ReconcileTuning(p.shown.tuning, c), c))
    case SaveEffect => p.(pending := Due(p), stale := false)
    case TimerFires => p.(sent := p.sent + [p.pending.value], lastServer := p.pending.value, pending := None)
  }

  class InstrumentProvider {
    var signedIn: bool
    var fetching: bool
    var tuning: seq<string>
    var stringCount: nat
    var lastServerState: Setup
    var timer: Option<Setup>
    ghost var stale: bool
    var sent: seq<Setup>

    constructor ()
      ensures View() == INITIAL
    {
      signedIn, fetching, tuning, stringCount := false, false, DEFAULT_TUNING, 4;
      lastServerState, timer, sent := Setup(DEFAULT_TUNING, 4), None, [];
      stale := true;
    }

    ghost function View(): Provider
      reads this
    {
      Provider(signedIn, fetching, Setup(tuning, stringCount), lastServerState, timer, stale, sent)
    }

    method ChangeTuning(next: seq<string>)
      modifies this
      ensures View() == Next(old(View()), SetTuning(next))
    {
      tuning := next;
      stringCount := |next|;
      stale := true;
    }

    method ChangeStringCount(count: nat)
      modifies this
      ensures View() == Next(old(View()), SetStringCount(count))
    {
      stringCount := count;
      tuning := ReconcileTuning(tuning, count);
      stale := true;
    }

    method Hydrate(settings: Settings)
      requires fetching
      modifies this
      ensures View() == Next(old(View()), SettingsReply(settings))
    {
      fetching := false;
      var nextTuning: Option<seq<string>> := None;
      var nextCount: Option<nat> := None;
      if settings.tuning.Some? && |settings.tuning.value| > 0 {
        nextTuning := settings.tuning;
        nextCount := if settings.stringCount.Some? then settings.stringCount else Some(|settings.tuning.value|);
      } else if settings.stringCount.Some? {
        nextCount := settings.stringCount;
        nextTuning := Some(ReconcileTuning(DEFAULT_TUNING, settings.stringCount.value));
      }
      if nextTuning.Some? && nextCount.Some? {
        lastServerState := Setup(nextTuning.value, nextCount.value);
        tuning := nextTuning.value;
        stringCount := nextCount.value;
        stale := true;
      }
    }

    /** Clean up the old timer, then schedule a save unless the state is the server's. */
    method RunSaveEffect()
      modifies this
      ensures View() == Next(old(View()), SaveEffect)
    {
      timer := None;
      stale := false;
      if !signedIn { return; }
      if lastServerState.stringCount == stringCount && lastServerState.tuning == tuning { return; }
      timer := Some(Setup(tuning, stringCount));
    }

    method FireTimer()
      requires timer.Some?
      modifies this
      ensures View() == Next(old(View()), TimerFires)
    {
      sent := sent + [timer.value];
      lastServerState := timer.value;
      timer := None;
    }
  }

  // ---- runs ----------------------------------------------------------------------------

  ghost predicate Valid(p: Provider, run: seq<Event>)
    decreases run
  {
    run == [] || (Enabled(p, run[0]) && Valid(Next(p, run[0]), run[1..]))
  }

  function Run(p: Provider, run: seq<Event>): Provider
    requires Valid(p, run)
    decreases run
  {
    if run == [] then p else Run(Next(p, run[0]), run[1..])
  }

  ghost predicate Inv(p: Provider) { !p.stale ==> p.pending == Due(p) }

  lemma {:induction false} RunKeepsInv(p: Provider, run: seq<Event>)
    requires Inv(p) && Valid(p, run)
    ensures Inv(Run(p, run))
    decreases run
  {
    if run != [] {
      RunKeepsInv(Next(p, run[0]), run[1..]);
    }
  }

  /**
   * At any point of any run: once the effect has caught up, a signed-in user with no save pending
   * sees the last state known to the server, a guest has no save pending, and a pending save
   * carries what is shown.
   */
  lemma CaughtUpIsSynced(run: seq<Event>)
    requires Valid(INITIAL, run) && !Run(INITIAL, run).stale
    ensures var p := Run(INITIAL, run);
      && (p.signedIn && p.pending.None? ==> p.shown == p.lastServer)
      && (p.pending.Some? ==> p.signedIn && p.pending.value == p.shown != p.lastServer)
  {
    RunKeepsInv(INITIAL, run);
  }

  /** Settings replies are applied while a sign-in's request is open, once, and not after a sign-out. */
  lemma RepliesNeedASignIn(p: Provider, s: Settings)
    ensures Enabled(Next(p, SignIn), SettingsReply(s)) && !Enabled(Next(p, SignOut), SettingsReply(s))
    ensures p.fetching ==> !Enabled(Next(p, SettingsReply(s)), SettingsReply(s))
    ensures !Enabled(INITIAL, SettingsReply(s)) && !INITIAL.signedIn && INITIAL.pending.None?
    ensures Next(p, SignIn).signedIn && !Next(p, SignOut).signedIn
  {
  }

  // ---- echoes --------------------------------------------------------------------------

  /** The setup of the last settings reply that was applied and that the save effect has not yet seen. */
  function Reapplied(unseen: Option<Setup>, run: seq<Event>): Option<Setup>
    decreases run
  {
    if run == [] then unseen else Reapplied(Unseen(unseen, run[0]), run[1..])
  }

  function Unseen(before: Option<Setup>, e: Event): Option<Setup> {
    match e
    case SaveEffect => None
    case SettingsReply(s) => if Described(s).Some? then Described(s) else before
    case _ => before
  }

  /** While a save is pending, the server state is the unseen reply if there is one, else it differs from the save. */
  ghost predicate EchoInv(p: Provider, unseen: Option<Setup>) {
    p.pending.Some? ==>
      if unseen.Some? then p.lastServer == unseen.value else p.pending.value != p.lastServer
  }

  lemma {:induction false} EchoDecided(p: Provider, unseen: Option<Setup>, run: seq<Event>)
    requires EchoInv(p, unseen) && Valid(p, run)
    ensures EchoInv(Run(p, run), Reapplied(unseen, run))
    decreases run
  {
    if run != [] {
      EchoDecided(Next(p, run[0]), Unseen(unseen, run[0]), run[1..]);
    }
  }

  /**
   * Exactly when a save that fires is an echo: when the last settings reply that the effect has not
   * yet seen described the very setup about to be sent.
   */
  lemma EchoesExactly(run: seq<Event>)
    requires Valid(INITIAL, run) && Enabled(Run(INITIAL, run), TimerFires)
    ensures var p := Run(INITIAL, run); p.pending.value == p.lastServer <==> Reapplied(None, run) == p.pending
  {
    EchoDecided(INITIAL, None, run);
  }

  /** So with no such reply, in particular when the effect ran last, a save is never an echo. */
  lemma SavesAreNotEchoes(run: seq<Event>)
    requires Valid(INITIAL, run) && Enabled(Run(INITIAL, run), TimerFires)
    ensures var p := Run(INITIAL, run); Reapplied(None, run).None? || !p.stale ==> p.pending.value != p.lastServer
  {
    EchoesExactly(run);
    RunKeepsInv(INITIAL, run);
  }

  /** A run may be continued by another. */
  lemma {:induction false} RunOn(p: Provider, run: seq<Event>, more: seq<Event>)
    requires Valid(p, run) && Valid(Run(p, run), more)
    ensures Valid(p, run + more) && Run(p, run + more) == Run(Run(p, run), more)
    decreases run
  {
    if run == [] {
      assert [] + more == more;
    } else {
      assert (run + more)[1..] == run[1..] + more;
      RunOn(Next(p, run[0]), run[1..], more);
    }
  }

  lemma TwoEvents(p: Provider, e: Event, f: Event)
    requires Enabled(p, e) && Enabled(Next(p, e), f)
    ensures Valid(p, [e, f]) && Run(p, [e, f]) == Next(Next(p, e), f)
  {
    assert [e, f][1..] == [f] && [f][1..] == [];
    assert Run(Next(p, e), [f]) == Next(Next(p, e), f);
  }

  /** That does happen: the reply brings the very setup whose save is about to fire. */
  lemma EchoInTheWindow() returns (run: seq<Event>)
    ensures Valid(INITIAL, run) && Enabled(Run(INITIAL, run), TimerFires)
    ensures Run(INITIAL, run).pending.value == Run(INITIAL, run).lastServer
  {
    var t := ["C"];
    var reply := SettingsReply(Settings(Some(t), None));
    var edit := [SignIn, SetTuning(t)];
    TwoEvents(INITIAL, SignIn, SetTuning(t));
    TwoEvents(Run(INITIAL, edit), SaveEffect, reply);
    run := edit + [SaveEffect, reply];
    RunOn(INITIAL, edit, [SaveEffect, reply]);
  }

  /** From any reachable state the effect and at most one timer bring page and server together. */
  lemma Settles(run: seq<Event>) returns (more: seq<Event>)
    requires Valid(INITIAL, run) && Run(INITIAL, run).signedIn
    ensures |more| <= 2 && Valid(Run(INITIAL, run), more)
    ensures var p, q := Run(INITIAL, run), Run(Run(INITIAL, run), more);
      && q.shown == p.shown == q.lastServer && q.pending.None? && !q.stale
      && (p.shown != p.lastServer ==> q.sent == p.sent + [p.shown])
      && (p.shown == p.lastServer ==> q.sent == p.sent)
  {
    var p := Run(INITIAL, run);
    if p.shown != p.lastServer {
      more := [SaveEffect, TimerFires];
      TwoEvents(p, SaveEffect, TimerFires);
    } else {
      more := [SaveEffect];
      assert more[1..] == [];
    }
  }

  /** The saves still to be made once nothing but the effect and the timer happens. */
  function SavesLeft(p: Provider): nat {
    match p.pending
    case None => if p.shown == p.lastServer then 0 else 1
    case Some(setup) => if setup == p.shown then 1 else 2
  }

  ghost predicate OnlySaving(run: seq<Event>) {
    forall e | e in run :: e.SaveEffect? || e.TimerFires?
  }

  lemma {:induction false} SavingRun(p: Provider, run: seq<Event>)
    requires p.signedIn && Valid(p, run) && OnlySaving(run)
    ensures var q := Run(p, run);
      && q.signedIn && q.shown == p.shown && p.sent <= q.sent
      && |q.sent| + SavesLeft(q) <= |p.sent| + SavesLeft(p)
      && forall i :: |p.sent| <= i < |q.sent| ==> q.sent[i] == p.shown || Some(q.sent[i]) == p.pending
    decreases run
  {
    if run != [] {
      assert run[0] in run && forall e | e in run[1..] :: e in run;
      SavingRun(Next(p, run[0]), run[1..]);
    }
  }

  /**
   * However the effect and the timer are scheduled from a reachable signed-in state: at most two
   * saves are sent, at most one if the effect had caught up, each of the shown setup or of the one
   * that was pending; and when the effect has caught up and nothing is pending, the page and the
   * server agree, the server holding what is shown.
   */
  lemma EveryScheduleSettles(run: seq<Event>, more: seq<Event>, p: Provider, q: Provider)
    requires Valid(INITIAL, run) && p == Run(INITIAL, run) && p.signedIn
    requires Valid(p, more) && OnlySaving(more) && q == Run(p, more)
    ensures q.shown == p.shown && p.sent <= q.sent
    ensures |q.sent| <= |p.sent| + if p.stale then 2 else 1
    ensures forall i :: |p.sent| <= i < |q.sent| ==> q.sent[i] == p.shown || Some(q.sent[i]) == p.pending
    ensures !q.stale && q.pending.None? ==> q.shown == q.lastServer
  {
    RunKeepsInv(INITIAL, run);
    RunKeepsInv(p, more);
    SavingRun(p, more);
  }

  // ---- string count and tuning length --------------------------------------------------

  predicate Consistent(s: Setup) { s.stringCount == |s.tuning| }

  /** Settings describe a consistent setup exactly when a stored count does not contradict a stored tuning. */
  predicate Coherent(s: Settings) {
    s.tuning.Some? && |s.tuning.value| > 0 && s.stringCount.Some? ==> s.stringCount.value == |s.tuning.value|
  }

  /**
   * What each event shows. A new tuning is shown as it is, with its length; a new count keeps the
   * tuning if it fits, else reconciles it; a reply's tuning is shown as it is, with the stored count
   * or its length; a reply with a count only reconciles the default tuning to it; any other event,
   * and a reply with neither, leaves what is shown.
   */
  lemma EventShows(p: Provider, e: Event)
    requires Enabled(p, e)
    ensures var before, after := p.shown, Next(p, e).shown;
      match e
      case SetTuning(t) => after.tuning == t && after.stringCount == |t|
      case SetStringCount(c) => after.stringCount == c && Fitted(before.tuning, c, after.tuning)
      case SettingsReply(Settings(Some(t), count)) =>
        if t != [] then after.tuning == t && after.stringCount == (if count.Some? then count.value else |t|)
        else if count.Some? then after.stringCount == count.value && Fitted(DEFAULT_TUNING, count.value, after.tuning)
        else after == before
      case SettingsReply(Settings(None, Some(c))) => after.stringCount == c && Fitted(DEFAULT_TUNING, c, after.tuning)
      case _ => after == before
    ensures e.SettingsReply? && Next(p, e).shown != p.shown ==> Next(p, e).lastServer == Next(p, e).shown
  {
    if e.SetStringCount? { ReconciledFits(p.shown.tuning, e.count); }
    if e.SettingsReply? && e.settings.stringCount.Some? {
      ReconciledFits(DEFAULT_TUNING, e.settings.stringCount.value);
    }
  }

  lemma ReconciledFits(given: seq<string>, count: nat)
    ensures Fitted(given, count, ReconcileTuning(given, count))
  {
    ReconcileFits(given, count);
    StandardNotesAreThePresets(count);
  }

  /** `r` has `count` strings: the given tuning if it has, else the standard one, else a cut or prolonged one. */
  ghost predicate Fitted(given: seq<string>, count: nat, r: seq<string>) {
    && |r| == count
    && (|given| == count ==> r == given)
    && (|given| != count && 4 <= count <= 6 ==>
          StandardPreset(count).Some? && r == StandardPreset(count).value.notes)
    && (count > 6 || count < 4 ==> r <= given || given <= r)
    && (count > 6 || count < 4 ==>
          forall i :: |given| <= i < |r| ==> r[i] == if given == [] then "E" else given[|given| - 1])
  }

  /** Edits always leave count and tuning in agreement; a settings reply does so exactly when it is coherent. */
  lemma EventConsistency(p: Provider, e: Event)
    requires Enabled(p, e)
    ensures (e.SetTuning? || e.SetStringCount?) ==> Consistent(Next(p, e).shown)
    ensures e.SettingsReply? && Described(e.settings).Some? ==> (Consistent(Next(p, e).shown) <==> Coherent(e.settings))
    ensures (e.SignIn? || e.SignOut? || e.SettingsFail? || e.SaveEffect? || e.TimerFires?) ==>
            Next(p, e).shown == p.shown
  {
    if e.SetStringCount? { ReconcileFits(p.shown.tuning, e.count); }
    if e.SettingsReply? && e.settings.stringCount.Some? { ReconcileFits(DEFAULT_TUNING, e.settings.stringCount.value); }
  }

  /** A reply with a four-string tuning and a count of five is not coherent, and what it leaves shown disagrees. */
  lemma ContradictoryReply(p: Provider)
    requires p.fetching
    ensures var e := SettingsReply(Settings(Some(DEFAULT_TUNING), Some(5)));
      Enabled(p, e) && !Coherent(e.settings) && Next(p, e).shown == Setup(DEFAULT_TUNING, 5)
      && !Consistent(Next(p, e).shown)
  {
    EventConsistency(p, SettingsReply(Settings(Some(DEFAULT_TUNING), Some(5))));
  }

  ghost predicate AllConsistent(p: Provider) {
    && Consistent(p.shown) && Consistent(p.lastServer)
    && (p.pending.Some? ==> Consistent(p.pending.value))
    && forall i :: 0 <= i < |p.sent| ==> Consistent(p.sent[i])
  }

  /** As long as loaded settings are coherent, everything shown, remembered, scheduled or sent is consistent. */
  lemma {:induction false} RunKeepsConsistent(p: Provider, run: seq<Event>)
    requires AllConsistent(p) && Valid(p, run)
    requires forall e | e in run :: e.SettingsReply? ==> Coherent(e.settings)
    ensures AllConsistent(Run(p, run))
    decreases run
  {
    if run != [] {
      EventConsistency(p, run[0]);
      assert run[0] in run && forall e | e in run[1..] :: e in run;
      RunKeepsConsistent(Next(p, run[0]), run[1..]);
    }
  }

  lemma ConsistentFromTheStart(run: seq<Event>)
    requires Valid(INITIAL, run) && forall e | e in run :: e.SettingsReply? ==> Coherent(e.settings)
    ensures AllConsistent(Run(INITIAL, run))
  {
    RunKeepsConsistent(INITIAL, run);
  }
}
