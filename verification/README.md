# Groovelab, verified

A Dafny model of the algorithmic parts of Groovelab: the chord-voicing search of the frontend, the
one-answer voicing of the backend, the adaptive flashcard engine with its answer protocol, the
practice-streak queries, the typed-answer normaliser, the flashcard page against its server session,
and the instrument settings. `dafny verify dfyconfig.toml` checks everything.

| file | what it holds |
|---|---|
| `Seqs.dfy`, `Sorting.dfy`, `Text.dfy` | lists, stable sorting, splitting, joining and decimal text, used by the rest |
| `Notes.dfy` | note names and pitch classes as each language reads them |
| `Enumeration.dfy` | string subsets, tone orderings, fret choices: each listed exactly, once, and counted |
| `Voicings.dfy`, `VoicingTheorems.dfy`, `VoicingResults.dfy` | what the search visits, keeps and returns, against the definition of a playable voicing |
| `VoicingSearch.dfy` | the search with its shared buffers, `used` flags, `seen` set and final sort |
| `VoicingOrder.dfy` | the order in which the search meets voicings, and the returned list determined by it |
| `Transposition.dfy` | transposing the question transposes the answer |
| `GreedyVoicing.dfy` | the backend's greedy voicing, its optimality, and its place in the frontend's list |
| `Mastery.dfy`, `SessionBuilder.dfy` | the mastery state machine and the session allocator |
| `AnswerProtocol.dfy`, `LostUpdates.dfy` | interleaved answer submissions against the store; exactly when an answer is lost |
| `Handler.dfy`, `SessionCounters.dfy` | the answer endpoint and its session map, one request at a time and interleaved |
| `Streaks.dfy` | gaps-and-islands, the recursive chain, and the streak table |
| `TypedAnswer.dfy` | the canonical form of a typed answer |
| `SessionLoop.dfy`, `SessionOverlap.dfy` | the page against the server session, with one answer on its way at a time, and with any number |
| `Instrument.dfy` | the debounced settings provider |

A recurring pattern: code that changes things step by step is a method or a class, its contract equates
what it does with a function (`Records() == RecordAll(...)`, `Value() == Step(...)`), and the lemmas relate
that function to a definition that does not mention the code.

## Where code and documentation differ

- `getChordVoicings` documents open strings as always allowed. With `minFret` 0 and a negative `maxFret`
  the code allows none; `VoicingResults.OpenStringRule` gives the exact condition.
- Note names: the frontend trims U+FEFF and not U+0085, the backend the reverse. `Notes.ReadAlikeExactly` says
  exactly which names the two read alike; `Notes.ByteOrderMarkIsReadDifferently` and
  `Notes.NextLineIsReadDifferently` are names on which they differ.
- `getSessionNextCard` is documented as the next unanswered card. It is the card at the answered count. Over
  distinct cards, with one answer on its way at a time, every reply names the next unanswered card exactly when no
  reply is made after a skip that was pressed with nothing on its way (`SessionLoop.NextCardIsNextUnansweredExactly`;
  `SessionOverlap.NamesTheNextExactly` is the condition when answers overlap);
  otherwise the first such reply names a later one, possibly the very card just answered
  (`SessionLoop.SkippedThenRepeated`). The card on show at the first such skip is never answered, whatever follows
  (`SessionLoop.SkipCostsACard`). A skip pressed while an answer is on its way costs no card
  by itself (`SessionLoop.EachCardOnceIffNoIdleSkip`).
- The Skip button stays enabled while an answer is on its way. A skip that brings up another kind of input then lets a
  second answer overlap the first, and a session can count more answers than it has cards
  (`SessionLoop.TooManyAnswers`). A deck rules that out exactly when all its cards need the same kind of input
  (`SessionOverlap.AnswersFitExactly`). Every session still ends, with at most 2·Total - 1 answers
  (`SessionOverlap.SessionTerminates`), a bound that some decks reach (`SessionOverlap.BoundIsReached`). A reply can also
  take the page out of the summary again (`SessionLoop.SummaryIsLeft`).
- `TypedAnswer` documents a forgiving parser. What it sends is compared as text with the stored answer, so a typed
  answer is right exactly when the words agree and the stored text is its own normal form
  (`TypedAnswer.TypedIsRightExactly`). The seeded answers of several words without commas, such as `C E G`, are not, so
  no typed answer to them is right (`TypedAnswer.CommalessTextIsNeverMatched`, `TypedAnswer.SeededNotesAreNeverMatched`).
- `InstrumentContext` documents that the string count always equals the tuning length. It does after every edit,
  and after loading settings exactly when the stored count does not contradict the stored tuning
  (`Instrument.EventConsistency`, `Instrument.ContradictoryReply`).
- The settings provider documents that loaded values are never echoed back. A save is an echo exactly when the save
  timer fires after a settings reply that described the very same setup and before the effect that would cancel it
  (`Instrument.EchoesExactly`, `Instrument.EchoInTheWindow`).
- Both of these are about replies of the type `UserSettings` that the page expects (`frontend/src/lib/api.ts:514-517`).
  The repository's own endpoint answers with `instrumentSettings` and `preferences`
  (`backend/internal/database/queries/settings.go:10-13`), in which the page finds neither part.
- Two overlapping answers to one card can both be logged while one of them is lost from the mastery row
  (`LostUpdates.OverlapLosesAnUpdate`). `LostUpdates.NothingLostExactly` says for every run, failures included, exactly
  when none is; `LostUpdates.CleanRunsLoseExactlyByOverlap` says it for runs in which no call fails.

## Main results

- The voicing search with its shared buffers returns exactly the playable voicings, in the one stable order, cut at the
  limit, an order that is stated without the search: `VoicingSearch.GetChordVoicings`,
  `VoicingTheorems.CollectedExact`, `VoicingTheorems.SeenNeverRejects`, `VoicingOrder.CollectedInOrder`,
  `VoicingOrder.ChordVoicingsIsTheListing`.
- Transposing the question transposes the answer: `Transposition.ChordVoicingsTranspose`.
- The greedy voicing is the lexicographic optimum, and the frontend returns it too:
  `GreedyVoicing.ComputeChordPositions`, `GreedyVoicing.GreedyInEnumeration`,
  `GreedyVoicing.BackendAnswerIsAFrontendVoicing`.
- Every stored mastery row folds a subsequence of its log, and the whole log exactly under a stated condition:
  `AnswerProtocol.RowsFoldTheirLog`, `LostUpdates.NothingLostExactly`.
- No session count is lost in any interleaving: `SessionCounters.NoCountIsLost`.
- The mastery record after any history: `Mastery.StageIsEarned`, `Mastery.AccuracyIsExact`,
  `Mastery.RightRunInClosedForm`, `Mastery.BucketsByHistory`.
- The session allocator wastes no slot and repeats no card: `SessionBuilder.BuildSession`,
  `SessionBuilder.AllocationUnique`, `SessionBuilder.SessionLength`, `SessionBuilder.SessionIsSubMultiset`.
- The streak queries: `Streaks.BestDailyStreakIsLongestRun`, `Streaks.DailyStreakCountIsCurrentRun`.
- The typed-answer canonical form: `TypedAnswer.NormalFormsAgree`, `TypedAnswer.NormalizeIsIdempotent`,
  `TypedAnswer.TypedIsRightExactly`.
- The page against the server, with answers in flight: `SessionOverlap.SessionTerminates`,
  `SessionOverlap.AnswersFitExactly`, `SessionLoop.EachCardOnceIffNoIdleSkip`,
  `SessionLoop.NextCardIsNextUnansweredExactly`.
- The settings provider: `Instrument.CaughtUpIsSynced`, `Instrument.EchoesExactly`, `Instrument.EveryScheduleSettles`.

The handlers of the page and of the settings provider are short setters; their rows below only tie the classes to the
functions that the run results are about.

## Model

| member | source | states |
|---|---|---|
| `Notes.NoteIndexesAgree` | backend/internal/flashcards/voicing.go:41-54 | Frontend and backend read a note name alike, rejections included, whenever their two notions of trimming agree on it. |
| `Notes.ReadAlikeExactly` | frontend/src/lib/music-theory.ts:41-54 | The two sides read a name alike exactly when it is no name even without any space around it, or U+FEFF and U+0085 are both absent or both present. |
| `Notes.NameFound` | backend/internal/flashcards/voicing.go:41-54 | One side finds a name exactly when it is there once all spaces are trimmed and the one space this side does not trim does not occur. |
| `Notes.TrimsAgree` | frontend/src/lib/music-theory.ts:41-54 | Two trims that treat a text's own characters alike agree on it. |
| `Notes.ByteOrderMarkIsReadDifferently` | backend/internal/flashcards/voicing.go:43-54 | A name the frontend reads and the backend rejects. |
| `Notes.NextLineIsReadDifferently` | backend/internal/flashcards/voicing.go:43-54 | A name the backend reads and the frontend rejects. |
| `Notes.CanonicalNamesRead` | frontend/src/lib/music-theory.ts:10-54 | Every canonical name is read back as its own index on both sides. |
| `Notes.NoteIndexExactly` | frontend/src/lib/music-theory.ts:10-54 | The frontend reads exactly the names made of a letter A to G with at most one sharp or flat, at their pitches (naturals 0 2 4 5 7 9 11, a sharp one up, a flat one down, modulo 12), with any space it trims around them. |
| `Notes.BackendNoteIndexExactly` | backend/internal/flashcards/voicing.go:14-54 | The same for the backend and the space it trims; anything else is -1. |
| `Notes.TablesExact` | backend/internal/flashcards/voicing.go:14-25 | The note tables hold exactly those twenty-one names at their pitches. |
| `Notes.FretsRiseBySemitones` | frontend/src/lib/music-theory.ts:60-63 | Fret 0 is the open string, each fret is a semitone above the last, and the twelfth is the octave. |
| `Notes.SpacesListed` | frontend/src/lib/music-theory.ts:41-54 | The spaces each side trims, by code point. |
| `Enumeration.CombosExact` | frontend/src/lib/music-theory.ts:286-299 | `pickStrings` emits exactly the ascending string lists of the chord's size that extend the picked prefix. |
| `Enumeration.CombosNoDup` | frontend/src/lib/music-theory.ts:286-299 | No string subset is emitted twice. |
| `Enumeration.CombosCount` | frontend/src/lib/music-theory.ts:286-299 | The number of subsets emitted is a binomial coefficient. |
| `Enumeration.BinomialIsFactorialRatio` | frontend/src/lib/music-theory.ts:286-299 | That coefficient, defined by Pascal's rule, is n!/(k!(n-k)!). |
| `Enumeration.PermsExact` | frontend/src/lib/music-theory.ts:307-328 | `permute` emits exactly the orderings of the tones that extend the current prefix, given `used` marks that prefix. |
| `Enumeration.PermsNoDup` | frontend/src/lib/music-theory.ts:307-328 | No ordering is emitted twice. |
| `Enumeration.PermsCount` | frontend/src/lib/music-theory.ts:307-328 | The number of orderings emitted is the factorial of the tones left. |
| `Enumeration.ProductExact` | frontend/src/lib/music-theory.ts:373-390 | `expand` visits exactly the lists with one candidate fret per string. |
| `Enumeration.ProductNoDup` | frontend/src/lib/music-theory.ts:373-390 | No fret choice is visited twice. |
| `Voicings.ChordTonesExact` | frontend/src/lib/music-theory.ts:146-154 | The chord tones are the notes at the chord's intervals above the root, each once. |
| `Voicings.FretsForExact` | frontend/src/lib/music-theory.ts:257-284 | A string's candidate frets for a tone are exactly the allowed frets that sound it, each once. |
| `Voicings.SpanOkExact` | frontend/src/lib/music-theory.ts:330-337 | The max-minus-min test accepts exactly the voicings whose non-open frets are pairwise within the span. |
| `VoicingSearch.WindowTable` | frontend/src/lib/music-theory.ts:262-269 | The loop over the fret window fills the per-tone lists in ascending order and leaves out tones without a fret. |
| `VoicingSearch.FretTable` | frontend/src/lib/music-theory.ts:260-284 | One string's table, with the open string added in front; fails exactly when the name is unreadable and read. |
| `VoicingSearch.Search.PickStrings` | frontend/src/lib/music-theory.ts:286-299 | Appends the subsets in order and leaves the shared `picked` buffer as it was. |
| `VoicingSearch.Search.Permute` | frontend/src/lib/music-theory.ts:307-328 | Appends the orderings in order and leaves `used` and `cur` as they were. |
| `VoicingSearch.Search.RecordIfValid` | frontend/src/lib/music-theory.ts:330-353 | Adds the voicing and its key exactly when span, window and `seen` accept it. |
| `VoicingSearch.Search.GatherChoices` | frontend/src/lib/music-theory.ts:357-371 | Gathers the candidate frets of an assignment, or finds a string that has none. |
| `VoicingSearch.Search.Expand` | frontend/src/lib/music-theory.ts:373-390 | Records every fret choice in order and leaves the `accum` buffer as it was. |
| `VoicingSearch.Search.SearchAll` | frontend/src/lib/music-theory.ts:355-392 | Records the leaves of all subsets and orderings, in order. |
| `VoicingSearch.Search.Run` | frontend/src/lib/music-theory.ts:286-406 | Ends with the sorted list in place, returns its first entries, and every buffer is back where it was. |
| `VoicingSearch.InfeasibleHasNoLeaves` | frontend/src/lib/music-theory.ts:359-371 | Skipping an assignment with a fretless string skips no voicing. |
| `VoicingSearch.GetChordVoicings` | frontend/src/lib/music-theory.ts:240-407 | The imperative search returns what the function `ChordVoicings` says, failures included. |
| `VoicingTheorems.AllLeavesExact` | frontend/src/lib/music-theory.ts:355-392 | The search visits exactly the placements that cover the chord with allowed frets. |
| `VoicingTheorems.AllLeavesNoDup` | frontend/src/lib/music-theory.ts:355-392 | It visits none of them twice. |
| `VoicingTheorems.EnumerationSizes` | frontend/src/lib/music-theory.ts:286-328 | C(strings, tones) subsets and tones! orderings. |
| `VoicingTheorems.KeyExact` | frontend/src/lib/music-theory.ts:344-349 | Two voicings have the same key text exactly when they have the same bag of string:fret pairs. |
| `VoicingTheorems.SeenNeverRejects` | frontend/src/lib/music-theory.ts:344-352 | All visited placements have different keys, so the `seen` check never rejects: what is collected is what span and window accept. |
| `VoicingTheorems.CollectedExact` | frontend/src/lib/music-theory.ts:227-238 | The collected voicings are exactly the playable ones, for every chord, tuning and window. |
| `VoicingTheorems.CollectedNoRepeats` | frontend/src/lib/music-theory.ts:227-238 | Each once. |
| `VoicingResults.SearchFindsEverySetOnce` | frontend/src/lib/music-theory.ts:230-236 | The same against the documented definition as a set of positions: every playable set is found, as one voicing only. |
| `VoicingResults.RankedExact` | frontend/src/lib/music-theory.ts:394-406 | The returned list is playable, repetition-free and ordered, and nothing left out ranks strictly before anything returned. |
| `VoicingResults.RankedIsStablePrefix` | frontend/src/lib/music-theory.ts:394-406 | It is the prefix of the limit's length of a stable ordering of all playable voicings. |
| `Sorting.StableSortUnique` | frontend/src/lib/music-theory.ts:394-404 | There is only one stable ordering, so the engine's algorithm cannot matter. |
| `VoicingOrder.CollectedInOrder` | frontend/src/lib/music-theory.ts:286-392 | Voicings are collected in strictly increasing order of strings, then tones in the chord's order, then frets, each compared at the first difference. |
| `VoicingOrder.ChordTonesInOrder` | frontend/src/lib/music-theory.ts:146-154 | The chord's tones are ordered by the interval that first sounds them. |
| `VoicingOrder.RankedIsTheListing` | frontend/src/lib/music-theory.ts:394-406 | What is returned is the prefix, as the limit cuts it, of the one list of all playable voicings ordered by rank and, among ties, by that order. |
| `VoicingOrder.ListingUnique` | frontend/src/lib/music-theory.ts:394-406 | There is only one such list. |
| `VoicingOrder.ChordVoicingsIsTheListing` | frontend/src/lib/music-theory.ts:240-407 | The same for the whole call on readable names. |
| `VoicingOrder.DefaultAnswer` | frontend/src/lib/music-theory.ts:246-249 | Without options: at most eight voicings, no fret above 12, fretted strings within four frets. |
| `VoicingResults.RankIsLowestThenNarrowest` | frontend/src/lib/music-theory.ts:394-404 | The comparator means lowest fret first and, among equals, the narrower voicing, open strings included. |
| `VoicingResults.OpenStringRule` | frontend/src/lib/music-theory.ts:232 | The documented open-string rule holds for all chords and tunings exactly when the window is not `[0, negative]`. |
| `VoicingResults.VoicingsOfFails` | frontend/src/lib/music-theory.ts:240-284 | The exact inputs on which an unreadable note name is reported. |
| `VoicingResults.VoicingsOfExact` | frontend/src/lib/music-theory.ts:240-407 | With a limit that drops nothing, a voicing is returned exactly when it is playable. |
| `Transposition.VoicingsTranspose` | frontend/src/lib/music-theory.ts:60-63 | Raising root and open strings by k semitones changes labels by k and nothing else: order, truncation and failures stay. |
| `Transposition.ChordVoicingsTranspose` | frontend/src/lib/music-theory.ts:240-407 | The same on note names, for any spellings of the raised notes. |
| `GreedyVoicing.ReadTones` | backend/internal/flashcards/voicing.go:101-121 | The chord tones are the distinct readable tokens, each with its first spelling; unknown tokens are dropped. |
| `GreedyVoicing.BestTone` | backend/internal/flashcards/voicing.go:135-152 | Picks an unplaced tone with the lowest fret on the string, or none if all are placed. |
| `GreedyVoicing.AssignStrings` | backend/internal/flashcards/voicing.go:126-175 | The frets found are the least assignment, on strings 0, 1, .., labelled with their tones' spellings. |
| `GreedyVoicing.ComputeChordPositions` | backend/internal/flashcards/voicing.go:56-181 | Nothing exactly when the card, a non-blank chord type or the notes are missing or no space-free run of the notes is a note name; else the least assignment of the pitches of those runs, each labelled with the first run of its pitch. |
| `GreedyVoicing.CardTonesExact` | backend/internal/flashcards/voicing.go:77-121 | The chord's pitches are those read from the maximal space-free runs of the notes text, for every chord card. |
| `GreedyVoicing.GreedyStep` | backend/internal/flashcards/voicing.go:126-152 | Taking the lowest fret among unplaced tones keeps the frets lexicographically at or below every assignment. |
| `GreedyVoicing.LeastAssignmentUnique` | backend/internal/flashcards/voicing.go:64-76 | The least assignment is unique: it depends on the set of tones only, not on their order or spelling. |
| `GreedyVoicing.LeastBelowOctave` | backend/internal/flashcards/voicing.go:146-147 | Fret 12 is never used. |
| `GreedyVoicing.NoTies` | backend/internal/flashcards/voicing.go:126-130 | Different tones never tie on a string. |
| `GreedyVoicing.TuningReadsTheSame` | backend/internal/flashcards/voicing.go:29-34 | Both sides read the fixed tuning as the same open strings. |
| `GreedyVoicing.GreedyInEnumeration` | backend/internal/flashcards/voicing.go:56-76 | The backend's answer is in the frontend's collection exactly when the chord has at most four tones and the answer fits the span; a span of 10 always suffices. |
| `GreedyVoicing.BackendAnswerIsAFrontendVoicing` | backend/internal/flashcards/voicing.go:64-68 | End to end, on the card's text and the root's name: when the card's notes spell the one to four tones of the chord, `getChordVoicings` on the default tuning returns the shape that `ComputeChordPositions` found. |
| `Mastery.MasteryRecord.ProcessAnswer` | backend/internal/flashcards/engine.go:169-202 | Updates the record in place as the step function says. |
| `Mastery.StageWithinBounds` | backend/internal/flashcards/engine.go:169-190 | After any history: stage in 0..3, never both streaks positive, fewer than 3 right in a row below stage 3, fewer than 2 wrong in a row above stage 0. |
| `Mastery.AccuracyIsExact` | backend/internal/flashcards/engine.go:192-196 | Accuracy times attempts is exactly the number of right answers. |
| `Mastery.EveryAnswerCounts` | backend/internal/flashcards/engine.go:172 | The attempt count is the length of the history. |
| `Mastery.StageIsEarned` | backend/internal/flashcards/engine.go:174-190 | Stage is advances minus regressions; each advance is paid for by three right answers, each regression by two wrong ones. |
| `Mastery.StreaksAreTrailing` | backend/internal/flashcards/engine.go:174-190 | The streak counters are exactly the closing run of right (wrong) answers, less those that paid for a stage move. |
| `Mastery.RightRunInClosedForm` | backend/internal/flashcards/engine.go:174-181 | Stage and counter after a closing run of right answers in closed form: up once for every three until the top, the rest is the counter. |
| `Mastery.WrongRunInClosedForm` | backend/internal/flashcards/engine.go:182-190 | The same for wrong answers: down once for every two until the bottom. |
| `Mastery.TestsAreDisjoint` | backend/internal/flashcards/engine.go:51-67 | No history passes both the mastered and the struggling test, so their order is irrelevant. |
| `Mastery.BucketsByHistory` | backend/internal/flashcards/engine.go:51-67 | The buckets in terms of the answers given; mastered takes at least nine right answers. |
| `SessionBuilder.Classify` | backend/internal/flashcards/engine.go:73-84 | Each bucket holds exactly its cards, in order. |
| `SessionBuilder.Shuffle` | backend/internal/flashcards/engine.go:86-91 | Any sequence of swaps gives a permutation. |
| `SessionBuilder.FillQuotas` | backend/internal/flashcards/engine.go:106-124 | The first pass takes a prefix of each bucket, in priority order, up to quota, cards and slots. |
| `SessionBuilder.Backfill` | backend/internal/flashcards/engine.go:126-141 | The second pass resumes each bucket where the first stopped and takes review, struggling, mastered surplus in that order. |
| `SessionBuilder.BuildSession` | backend/internal/flashcards/engine.go:69-149 | For all quotas and shuffles: right labels, only cards of each bucket, and counts that obey the allocation rules. |
| `SessionBuilder.AllocationUnique` | backend/internal/flashcards/engine.go:93-141 | The allocation rules determine the count of every bucket. |
| `SessionBuilder.SessionLength` | backend/internal/flashcards/engine.go:71-141 | The session has exactly min(size, capped new + struggling + review + mastered) cards: no slot is wasted. |
| `SessionBuilder.StandardSession` | backend/internal/flashcards/engine.go:10-21 | With the program's constants: at most 20 cards, at most 3 of them new, and the length in closed form. |
| `SessionBuilder.StandardQuotas` | backend/internal/flashcards/engine.go:10-21 | With enough cards of every kind a session has 8 struggling, 7 review, 3 new and 2 mastered cards. |
| `SessionBuilder.NewMeansNoRecord` | backend/internal/flashcards/engine.go:51-67 | A card is new exactly when there is no record of it. |
| `SessionBuilder.UnseenCardsAreCapped` | backend/internal/flashcards/engine.go:93-141 | Every session holds at most the capped number of cards without a record, labelled new; without any record it is exactly the least of size, cap and number of cards. |
| `SessionBuilder.SessionIsSubMultiset` | backend/internal/flashcards/engine.go:72-149 | The session's cards are a sub-multiset of the input cards. |
| `SessionBuilder.SessionKeepsIdsDistinct` | backend/internal/flashcards/engine.go:72-149 | Distinct ids in give distinct ids out, through both shuffles. |
| `AnswerProtocol.StepKeepsInv` | backend/internal/flashcards/handler.go:243-284 | Every load, record or upsert step, failed or not, keeps every row and every request in flight explained by its log. |
| `AnswerProtocol.RowsFoldTheirLog` | backend/internal/flashcards/handler.go:243-284 | In every interleaving with any failures a row is the fold of a subsequence of its attempt log; its attempt count is at most the log's length, and equal exactly when the whole log is folded. |
| `AnswerProtocol.StoredRowsClassify` | backend/internal/flashcards/engine.go:51-67 | No stored row, however requests interleave, passes both classification tests. |
| `AnswerProtocol.LogIsAppendOnly` | backend/internal/flashcards/store.go:132-143 | The attempt log only grows. |
| `AnswerProtocol.EveryAttemptWasSubmitted` | backend/internal/flashcards/handler.go:243-273 | In every interleaving whatever is logged was answered by that user, to that card, with that verdict. |
| `LostUpdates.NothingLostExactly` | backend/internal/flashcards/handler.go:243-284 | For every run, any interleaving and any failures: the row of a card is the fold of its whole log exactly when each attempt on that card was logged by a request that had loaded since the row was last written, with no other attempt waiting, and was followed by its write. Other cards are free. |
| `LostUpdates.RequestsApartFoldTheWholeLog` | backend/internal/flashcards/handler.go:243-284 | When requests on one card do not overlap and no write on it is half done, its row folds its whole log, whatever other cards do; other failures are allowed. |
| `LostUpdates.CleanRunsLoseExactlyByOverlap` | backend/internal/flashcards/handler.go:243-284 | When no call on the card fails and its requests are through, nothing is lost exactly when no request loaded while another was in flight. |
| `LostUpdates.StepBounded` | backend/internal/flashcards/store.go:93-143 | Every step keeps the row's count, and every loaded copy, at or below the attempts it is owed; copies older than the last write stay behind. |
| `LostUpdates.LostStays` | backend/internal/flashcards/store.go:93-143 | Once an answer is lost or about to be, no later step recovers it. |
| `LostUpdates.OverlapLosesAnUpdate` | backend/internal/flashcards/store.go:111-130 | Two overlapping answers are both logged and only one is counted. |
| `Handler.SubmitIsRun` | backend/internal/flashcards/handler.go:243-284 | One uninterrupted submission is a run of the protocol's steps. |
| `Handler.SubmitCountsTheAnswer` | backend/internal/flashcards/handler.go:243-284 | Without faults a submission logs the verdict and counts it once, in the row of that user and card only. |
| `Handler.AnswerHandler.UpdateSessionProgress` | backend/internal/flashcards/handler.go:344-359 | Counts the answer in the named session and touches no other. |
| `Handler.AnswerHandler.HandleAnswer` | backend/internal/flashcards/handler.go:188-320 | The whole new state for every outcome: which rejection a request gets, rejected requests change nothing, a failed store call stops before the session counts, and the reply carries the next card and progress. |
| `Handler.GuestMasteryFoldsAll` | backend/internal/flashcards/handler.go:322-359 | A guest's mastery is the fold of all answers to the card, and the counters count all answers and all right ones. |
| `SessionCounters.NoCountIsLost` | backend/internal/flashcards/handler.go:286-359 | In every interleaving of requests a session's counters are exactly the number of requests counted on it and of the right ones among them. |
| `SessionCounters.RepliesAreSnapshots` | backend/internal/flashcards/handler.go:286-396 | In every interleaving a reply's progress includes its own answer and never runs ahead of the session; its next card is the one at some count between that progress and the present. |
| `SessionCounters.StepKeepsInv` | backend/internal/flashcards/handler.go:286-396 | Each locked step keeps counters and replies so. |
| `Streaks.BestDailyStreakIsLongestRun` | backend/internal/database/queries/tracks_querier.go:252-275 | The largest group of date minus row number has exactly the length of the longest run of consecutive days. |
| `Streaks.BestDailyStreakExists` | backend/internal/database/queries/tracks_querier.go:256-268 | The query has an answer for every set of dates. |
| `Streaks.GroupIsRun` | backend/internal/database/queries/tracks_querier.go:256-266 | Every group is a run of consecutive days. |
| `Streaks.RunFitsGroup` | backend/internal/database/queries/tracks_querier.go:256-266 | Every run of consecutive days fits in one group. |
| `Streaks.DailyStreakCountIsCurrentRun` | backend/internal/database/queries/tracks_querier.go:225-250 | The recursive chain counts exactly the consecutive days that end at the latest practice date. |
| `Streaks.CurrentAtMostBest` | backend/internal/database/queries/tracks_querier.go:225-275 | The current streak is never above the best. |
| `Streaks.StreakTable.UpsertStreak` | backend/internal/database/queries/tracks_querier.go:158-177 | Replaces the day's current value and keeps the greater best. |
| `Streaks.TableMatchesPosts` | backend/internal/database/queries/tracks_querier.go:158-177 | After any posts each day's best is the maximum posted for it and its current value the last one posted. |
| `Streaks.BestNeverFalls` | backend/internal/database/queries/tracks_querier.go:158-177 | Over any sequence of posts the best daily streak never falls. |
| `TypedAnswer.TokensAreWords` | frontend/src/components/flashcards/TypedAnswer.tsx:29-34 | Split, trim and filter give the maximal separator-free runs. |
| `TypedAnswer.TokensCoverTheInput` | frontend/src/components/flashcards/TypedAnswer.tsx:29-34 | The tokens are non-empty and separator-free, and together hold every other character of the input in order. |
| `TypedAnswer.TokensOfNormal` | frontend/src/components/flashcards/TypedAnswer.tsx:29-37 | Splitting what the join printed gives back the sorted tokens. |
| `TypedAnswer.TokensAreAlphabetical` | frontend/src/components/flashcards/TypedAnswer.tsx:29-37 | The words of the normal form are the lower-cased words of the input as a bag, in alphabetical order: a prefix first, else the smaller character at the first difference. |
| `TypedAnswer.NormalFormIsCommaBlank` | frontend/src/components/flashcards/TypedAnswer.tsx:36 | Between neighbouring words stand a comma and a blank, and no other separator anywhere. |
| `TypedAnswer.SeparatorsListed` | frontend/src/components/flashcards/TypedAnswer.tsx:32 | The separators by code point. |
| `TypedAnswer.NormalFormsAgree` | frontend/src/components/flashcards/TypedAnswer.tsx:29-37 | Two inputs normalise alike exactly when their lower-cased words are the same bag. |
| `TypedAnswer.NormalizeIsIdempotent` | frontend/src/components/flashcards/TypedAnswer.tsx:29-37 | Normalising twice is normalising once. |
| `TypedAnswer.CaseIsForgotten` | frontend/src/components/flashcards/TypedAnswer.tsx:21-28 | Letter case does not matter. |
| `TypedAnswer.TypedIsRightExactly` | backend/internal/flashcards/engine.go:208-241 | A typed answer is right exactly when the stored text is its own normal form and the lower-cased words are the same bag. |
| `TypedAnswer.CommalessTextIsNeverMatched` | backend/internal/flashcards/engine.go:229-241 | A stored text of two or more words without a comma is matched by no typed answer. |
| `TypedAnswer.SeededNotesAreNeverMatched` | backend/migrations/00005_seed_cards.sql:52-56 | The seeded notes `C E G` are such a text. |
| `SessionLoop.FlashcardSession.HandleAnswer` | frontend/src/pages/FlashcardSession.tsx:89-115 | Shows the feedback and the server's progress, or the error page if the request failed. |
| `SessionLoop.FlashcardSession.HandleSkip` | frontend/src/pages/FlashcardSession.tsx:146-157 | Moves to the next dealt card or the summary; the server is not told. |
| `SessionLoop.FlashcardSession.HandleContinue` | frontend/src/pages/FlashcardSession.tsx:159-180 | Shows the server's next card, else the next dealt one, else the summary. |
| `SessionLoop.SkipsWalkTheDeck` | frontend/src/pages/FlashcardSession.tsx:146-157 | Skipping walks through the deck as dealt, card by card, to the summary. |
| `SessionLoop.SerialUnlessFreshInput` | frontend/src/pages/FlashcardSession.tsx:436-471 | Answers can overlap only after a skip to another kind of input, pressed while an answer is on its way. |
| `SessionOverlap.SessionTerminates` | frontend/src/pages/FlashcardSession.tsx:89-180 | Every session, with overlapping answers, skips, failures and replies in any order: at most 10·Total steps, at most 2·Total - 1 answers, and nothing is left to do exactly in the summary, or on the error page after a failed request, with nothing on its way. |
| `SessionOverlap.BoundIsReached` | frontend/src/pages/FlashcardSession.tsx:89-180 | A deck whose neighbouring cards all need different kinds of input has a session with 2·Total - 1 answers. |
| `SessionOverlap.AnswersFitExactly` | frontend/src/pages/FlashcardSession.tsx:436-471 | All sessions of a deck stay within Total answers exactly when neighbouring cards need the same kind of input. |
| `SessionLoop.SerialSessionTerminates` | frontend/src/pages/FlashcardSession.tsx:89-180 | With one answer on its way at a time: at most Total answers, at most 6·Total + 1 steps, and a full count ends the session. |
| `SessionLoop.TooManyAnswers` | frontend/src/pages/FlashcardSession.tsx:89-157 | A run with two answers on their way in which three answers are counted for two cards. |
| `SessionLoop.SummaryIsLeft` | frontend/src/pages/FlashcardSession.tsx:89-157 | A run in which the reply to an answer in flight takes the page out of the summary. |
| `SessionLoop.RunCountsVerdicts` | backend/internal/flashcards/handler.go:344-359 | Overlapping or not, the server counts every answer once. |
| `SessionOverlap.ProgressIsOfAPrefix` | frontend/src/pages/FlashcardSession.tsx:98-105 | Overlapping or not, the progress shown is the one after the first so many of the answers counted so far. |
| `SessionLoop.ProgressCountsAnswers` | backend/internal/flashcards/handler.go:344-396 | With one answer on its way at a time and none at present, and no failed request, the progress shown counts exactly the answers given, right and wrong. |
| `SessionLoop.SkipFreeSessionIsInLockstep` | backend/internal/flashcards/handler.go:361-376 | Without skips an answer is given to the card at `cardIndex`, which equals the server's answered count, the count is one ahead in feedback, and the cards before the count were answered in order. |
| `SessionLoop.StepKeepsLockstep` | frontend/src/pages/FlashcardSession.tsx:89-180 | Every step but a skip with nothing on its way, or an answer sent while another is on its way, keeps the server's count at the card being answered. |
| `SessionLoop.EachCardOnceIffNoIdleSkip` | frontend/src/pages/FlashcardSession.tsx:146-180 | A finished session over distinct cards, with one answer on its way at a time, answered every card exactly once, as a bag and in order, exactly when no skip was pressed with nothing on its way; after such a skip some card was never answered. |
| `SessionLoop.SkipCostsACard` | frontend/src/pages/FlashcardSession.tsx:146-157 | The card on show at the first skip with nothing on its way is never answered, provided no two answers overlapped before it; what follows may overlap. |
| `SessionLoop.NextCardIsNextUnansweredExactly` | backend/internal/flashcards/handler.go:361-376 | Over distinct cards, with one answer on its way at a time, every reply's next card is the first unanswered one exactly when no reply is made after a skip with nothing on its way. |
| `SessionOverlap.NamesTheNextExactly` | backend/internal/flashcards/handler.go:361-376 | Overlapping or not, over distinct cards: a reply names the first unanswered card exactly when every card dealt before its count has been answered. |
| `SessionLoop.ReplyAfterIdleSkip` | backend/internal/flashcards/handler.go:361-376 | The first reply after such a skip names the card after the first unanswered one. |
| `SessionLoop.SkippedThenRepeated` | backend/internal/flashcards/handler.go:361-376 | A run in which the reply names the card just answered. |
| `Instrument.StandardNotesAreThePresets` | frontend/src/lib/music-theory.ts:171-179 | The preset search finds the standard tuning for 4, 5 and 6 strings and nothing else, of the right size; for 4 it is the default. |
| `Instrument.StandardTuningsAreInFourths` | frontend/src/lib/music-theory.ts:171-179 | A standard tuning counts up in fourths from its lowest string, E on four strings and B on five and six. |
| `Instrument.ReconcileFits` | frontend/src/context/InstrumentContext.tsx:50-72 | The reconciled tuning has the target number of strings: the given one if it fits, else the preset, else a prefix, else the given one with its last note (or E) repeated. |
| `Instrument.InstrumentProvider.ChangeTuning` | frontend/src/context/InstrumentContext.tsx:153-156 | Replaces the tuning and sets the count to its length. |
| `Instrument.InstrumentProvider.ChangeStringCount` | frontend/src/context/InstrumentContext.tsx:158-161 | Sets the count and reconciles the tuning to it. |
| `Instrument.InstrumentProvider.Hydrate` | frontend/src/context/InstrumentContext.tsx:97-121 | Applies a settings reply to the shown and the last server state together. |
| `Instrument.InstrumentProvider.RunSaveEffect` | frontend/src/context/InstrumentContext.tsx:130-151 | Cancels the old timer and schedules a save exactly for a signed-in user whose state is not the server's. |
| `Instrument.InstrumentProvider.FireTimer` | frontend/src/context/InstrumentContext.tsx:144-149 | Sends the captured setup and marks it as the server's. |
| `Instrument.CaughtUpIsSynced` | frontend/src/context/InstrumentContext.tsx:82-151 | In every run, once the effect has caught up: no save pending means shown equals last server state, and a pending save is a signed-in user's and carries what is shown. |
| `Instrument.EchoesExactly` | frontend/src/context/InstrumentContext.tsx:82-151 | A save that fires is an echo exactly when the last settings reply that the effect has not yet seen described the very setup about to be sent. |
| `Instrument.SavesAreNotEchoes` | frontend/src/context/InstrumentContext.tsx:82-89 | So without such a reply, or once the effect has caught up, a save always differs from the last server state. |
| `Instrument.EchoInTheWindow` | frontend/src/context/InstrumentContext.tsx:111-150 | A run with an echo. |
| `Instrument.Settles` | frontend/src/context/InstrumentContext.tsx:130-151 | From every reachable signed-in state the effect and at most one timer bring page and server together, with one save if they differed and none otherwise. |
| `Instrument.EveryScheduleSettles` | frontend/src/context/InstrumentContext.tsx:130-151 | However the effect and the timer are scheduled from a reachable signed-in state: at most two saves, one if the effect had caught up, each of the shown or the pending setup; caught up with nothing pending means page and server agree. |
| `Instrument.EventShows` | frontend/src/context/InstrumentContext.tsx:97-161 | What is shown after each event: which tuning is kept, cut, prolonged, taken from a preset or from the reply, with which count. |
| `Instrument.RepliesNeedASignIn` | frontend/src/context/InstrumentContext.tsx:94-127 | A settings reply is applied once per sign-in and not after a sign-out. |
| `Instrument.EventConsistency` | frontend/src/context/InstrumentContext.tsx:38-46 | Edits always make count and tuning agree; a settings reply does exactly when its count does not contradict its tuning. |
| `Instrument.ContradictoryReply` | frontend/src/context/InstrumentContext.tsx:97-121 | A reply with four strings and a count of five is applied as it is and leaves the two in disagreement. |
| `Instrument.ConsistentFromTheStart` | frontend/src/context/InstrumentContext.tsx:38-46 | As long as loaded settings are coherent, everything shown, remembered, scheduled or sent is consistent. |

## Left out

- HTTP routing, JSON, Postgres and Redis drivers, login sessions, migrations, licensing, health checks, charts and user-interface rendering: input/output and deployment.
- The answer check, other than on typed answers: it looks at the card and the answer only, so its verdict is an input of the model.
- Track CRUD, settings merge, topic summaries, admin pages: one branch or one query each.
- `intervalName` and `buildFretboardNotes`: one table lookup or one expression each.
- The explanation text, correct answer and card positions in the answer endpoint's reply: they play no part in its state.
- Randomness: the shuffles are arbitrary permutations; nothing is said about their distribution.
- Floating point: accuracy is an exact real, and the quota fractions are the integers 8, 6, 4 and 2 they come to.
- Wall-clock time: `LastPracticed` and the unused review threshold play no part in selection.
- Fret numbers and intervals are natural numbers, as on an instrument; negative or fractional ones are not modelled, nor integers too large for JavaScript to print in full.
- JavaScript property names inherited by the enharmonic table (`constructor` and the like) are not note names here.
- Characters are Unicode scalar values; JavaScript orders strings by UTF-16 code units. The canonical-form results hold for any total order of strings.
- Lower-casing is any idempotent map on characters that neither makes nor removes separators.
- Guest mastery is modelled serially; concurrent requests of one guest share a record outside the lock.
- The input components themselves: a submitted one stays spent until another is mounted, and which kind a card needs is a parameter.
- SessionLoop.EachCardOnceIffNoIdleSkip: says nothing of sessions in which answers overlapped; the same goes for SessionLoop.NextCardIsNextUnansweredExactly, of which SessionOverlap.NamesTheNextExactly is the general form.
- Failed or reordered settings saves: the provider does not look at their result, so the last server state is the provider's belief.
- Handler.AnswerHandler.HandleAnswer: handles one request at a time; the interleavings of its steps are the subject of `AnswerProtocol`, `LostUpdates` and `SessionCounters`.
- VoicingSearch.FretTable: an unreadable string name is detected before the fret loop, not at its first use; the outcome is the same.
- GreedyVoicing.AssignStrings: the code's guard for a string that no tone can take is dropped, since such a string cannot be reached.
- Existence of a voicing under the default span of 4: not promised by the code.
