# MyClash core rules, modelled and proved in Dafny

This project models the rules at the heart of MyClash, the software of a fencing tournament, and
proves what they promise: the identity of a ruleset and the diff of two, the stored zip of an export,
the final ranking of a bracket, the score and the end of a bout, its clock, the forfeit rules of a
Tournament, the referee staffing warning, the hourly status ticker, the duty alerts, the offline cache
of the scoring app, the CSV files people download and the codes of matches.

Code that computes by expressions is modelled by functions and lemmas. Code that works step by step is
modelled by methods with loops, or by classes whose methods change their fields, and each is proved
equal to a specification function; the theorems are about those functions. Protocols are state
machines: a run is any sequence of steps, and a theorem about runs holds for all of them. Every method,
function and lemma holds for all inputs its `requires` admits.

`dafny verify dfyconfig.toml` checks the whole project.

| file | what it models |
|---|---|
| `Options.dfy`, `Numbers.dfy`, `Texts.dfy`, `Strings.dfy`, `Sorting.dfy` | missing values, small arithmetic, joining and splitting, text order, a stable sort |
| `Json.dfy`, `JsonText.dfy`, `JsonPaths.dfy`, `JsonObjects.dfy`, `JsonRecords.dfy` | JSON values, the canonical printer and why it is unambiguous, leaves and paths, objects changed key by key and written as literals |
| `ContentHash.dfy`, `Lineage.dfy` | the scoring canonical of a coded or formula ruleset; the lamps between a ruleset and its fork |
| `ScoringDiff.dfy`, `ScoringCanonicals.dfy` | the diff of any two canonicals and exactly what it cannot see; the diff of the canonicals the program builds |
| `ForfeitSave.dfy`, `ForfeitRules.dfy` | saving forfeit rules; merging and comparing them |
| `Bytes.dfy`, `StoredZip.dfy`, `ZipReader.dfy` | little-endian records, the zip writers and walker, a reader of PKWARE APPNOTE.TXT |
| `FinalRankingCore.dfy`, `FinalRanking.dfy` | the ranking accumulator and the three orderings |
| `FinalRankingLaws.dfy`, `FinalRankingMembers.dfy`, `FinalRankingDoubleElim.dfy`, `FinalRankingPodium.dfy`, `FinalRankingOrderFree.dfy` | places and order; who is ranked; a double elimination ranks its whole bracket; who stands where; independence from listing order |
| `MatchFormat.dfy`, `Clock.dfy` | score, end of a bout, best-of series; the match clock |
| `RefereeCapacity.dfy` | the staffing sweep and availability |
| `StatusTicker.dfy`, `StatusTickerRuns.dfy` | one tick; ticks and edits interleaved |
| `DutyAlert.dfy` | the "starting soon" alerts and their queue |
| `ServiceWorker.dfy`, `ServiceWorkerRuns.dfy` | the offline caches; deploys over one origin |
| `Csv.dfy`, `RoundCode.dfy` | CSV files and a reader of RFC 4180; match codes and their reader |

## Where the code and its own words part

Each of these is a lemma with the input, or an exact condition:

- A zip content of exactly 4 GiB less one byte makes its central record claim a Zip64 size that no extra
  field holds: a reader of APPNOTE.TXT, section 4.5.3, refuses the file (`ReaderGivesEntriesBack`).
- `storedZipBytes` is exact if and only if the zip needs no Zip64 record, as its comment says
  (`StoredZipBytesIsExact`).
- `scoringDiff` misses some changes the hash sees. Between any two canonicals it is empty exactly when the
  buttons agree and each leaf that moved is hidden: read by no listed path, and under a button path, or
  named `__proto__`, or not the first leaf written with its dotted name (`DiffMissesExactlyTheHidden`).
  What is hidden depends on the keys alone, and wherever a leaf is hidden some change of it is missed
  (`HiddenLeafEscapes`, `SeesAllUnlessHidden`), as under a top-level `__proto__` key, under a `buttons` key
  and in the second of two leaves of one dotted name (`PrototypeKeyEscapes`, `ButtonsKeyEscapes`,
  `DottedKeyEscapes`). The program builds no such canonical: the diff's one caller
  (apps/api/src/modules/events/audited-rules-write.ts:163) passes what content-hash.ts:78-110 makes, with fixed
  keys and a match format its schema has parsed, and on those the diff sees all the hash sees
  (`NoChangeIffSameBehaviour`).
- `deepEqual` reads a key the other object lacks from what every object inherits: `{"__proto__": {}}` passes
  for `{"y": 1}` (`PrototypeKeyPasses`). It is equality up to key order exactly for the values that hold no
  empty object under a `__proto__` key (`DeepEqualIsSameUnlessPrototype`), and so the lamps agree with the
  hash exactly for the rulesets that hold none (`LampsAgreeUnlessPrototype`); only a penalty formula could,
  since a match format is normalised. It also takes `{x: undefined}` for `{y: 1}`: values that are no JSON
  (`UndefinedValuesPart`).
- `patchTree` loses a tree sent under `__proto__` and lends its subtrees to the keys sent after it
  (`PrototypeLends`). A save does what its keys ask if and only if no key of it does that, at any depth
  (`SaveIsAsSentIffHarmless`). A save that names no such key is harmless (`NoPrototypeIsHarmless`), and the
  doors parse each save by a schema that has no such key (apps/api/src/modules/events/dto/events.dto.ts:343).
- At the doubles ceiling under `result_stands`, a bout that counts down with both fighters out of points
  is won by nobody, while the same bout counting up is won on points (`CeilingEndsTheBout`).
- Extra time longer than the phase's own limit shows the limit (`ExtraTimeShowsItsSeconds`).
- A CSV file of no rows reads as one empty line, and an empty row as one empty cell (`FileReads`).
- A duty moved to another start and back rings twice for the first start, as the source says
  (`MovedAndBackRingsTwice`).
- Two mounts of one origin whose names run into each other at a dash lose each other's caches
  (`OtherMountsAreKept`); the two deployed ones do not.

## Model

| member | source | states |
|---|---|---|
| JsonText.Unambiguous | packages/rulesets/src/content-hash.ts:172-179 | where two printed values stand before stopping texts, equal whole texts mean equal values up to key order, and equal remainders: no text has two readings |
| JsonText.PrintIsIdentity | packages/rulesets/src/content-hash.ts:172-179 | two JSON values print to the same text if and only if they are equal up to object key order, an undefined value read as null |
| JsonPaths.LeavesOf | packages/rulesets/src/scoring-diff.ts:169-176 | the recursive walk appends to `out` exactly the leaves, in order |
| JsonPaths.LeavesAreTheLeaves | packages/rulesets/src/scoring-diff.ts:164-176 | a path is among them if and only if it leads to a value that is no non-empty object |
| JsonPaths.AgreeingAtLeavesIsSame | packages/rulesets/src/scoring-diff.ts:164-192 | two values that agree at every leaf of either are the same up to key order |
| ScoringDiff.ReadAt | packages/rulesets/src/scoring-diff.ts:178-188 | walking the segments reads the value the path names, an absent key as undefined and a present empty one as null |
| ScoringDiff.FindUnlistedChange | packages/rulesets/src/scoring-diff.ts:143-162 | the loop over both sides' leaves finds one entry exactly when an unlisted leaf changed, mapping each such name once to its two values |
| ScoringDiff.FindListedChanges | packages/rulesets/src/scoring-diff.ts:76-83 | one entry per listed path whose values differ, in list order |
| ScoringDiff.FindChanges | packages/rulesets/src/scoring-diff.ts:76-87 | the listed entries, then the one unlisted entry if any |
| ScoringDiff.DottedNameIsInjective | packages/rulesets/src/scoring-diff.ts:153 | keys without dots: two paths with one joined name are one path |
| ScoringDiff.DiffMissesExactlyTheHidden | packages/rulesets/src/scoring-diff.ts:76-192 | for any two canonicals whatever, the diff is empty if and only if the button values agree and every leaf that moved is hidden: read by no listed path, and covered by a button path, or named `__proto__`, or not the first with its dotted name |
| ScoringDiff.DiffSeesWhatTheHashSees | packages/rulesets/src/scoring-diff.ts:76-87 | where no leaf of either side is hidden, the diff is empty if and only if both canonicals have one hashed text and the button values agree |
| ScoringDiff.HiddenLeafEscapes | packages/rulesets/src/scoring-diff.ts:126-159 | for every canonical with a hidden leaf: exchange the value of that leaf, and the diff is empty while the hashed text is another |
| ScoringDiff.SeesAllUnlessHidden | packages/rulesets/src/scoring-diff.ts:76-162 | over given keys the diff sees every change of values the hash sees if and only if no leaf is hidden |
| ScoringDiff.PrototypeKeyEscapes | packages/rulesets/src/scoring-diff.ts:150-159 | for every canonical with a leaf `__proto__` at the top, each change of it changes the text and leaves the diff empty |
| ScoringDiff.ButtonsKeyEscapes | packages/rulesets/src/scoring-diff.ts:126-129 | the same for every leaf of the canonical under a button path |
| ScoringDiff.DottedKeyEscapes | packages/rulesets/src/scoring-diff.ts:153-155 | the same for every uncovered leaf that has the dotted name of an earlier one |
| ContentHash.HashedTextNamesTheBehaviour | packages/rulesets/src/content-hash.ts:78-110 | the canonicals of two rulesets, coded or formula, have one text if and only if the rulesets are one kind with the same grammar up to target order, and the same engine or formula, format, modes and values up to key order |
| ContentHash.KindsNeverCollide | packages/rulesets/src/content-hash.ts:73-77 | a coded and a formula ruleset never have one canonical |
| ContentHash.ReorderedTargetsAreTheSame | packages/rulesets/src/content-hash.ts:58-71 | targets listed in another order, each name once, are the same grammar |
| ScoringCanonicals.BuiltCanonicalIsCanonical | packages/rulesets/src/content-hash.ts:78-110 | in the canonical of every ruleset whose match format has dotless keys, each leaf is read through the list or has a dotted name of its own |
| ScoringCanonicals.ParsedFormatIsDotless | packages/rulesets/src/match-format.ts:178-210 | a match format that holds only the schema's keys has dotless keys |
| ScoringCanonicals.NoChangeIffSameBehaviour | packages/rulesets/src/scoring-diff.ts:76-87 | between two such rulesets, of one kind or of both, the diff is empty if and only if their hashed texts are equal, which is if and only if they are one behaviour, and the button values agree |
| Lineage.DeepEqualIsSame | packages/rulesets/src/lineage.ts:56-73 | on JSON values, the first without an empty object under a `__proto__` key, the recursive equality is equality up to key order |
| Lineage.DeepEqualIsSameUnlessPrototype | packages/rulesets/src/lineage.ts:56-73 | it is so against every JSON value if and only if the first value holds no such key |
| Lineage.PrototypeKeyPasses | packages/rulesets/src/lineage.ts:67-72 | `{"__proto__": {}}` equals `{y: v}` by the walk for every other key and value, and their texts differ |
| Lineage.UndefinedValuesPart | packages/rulesets/src/lineage.ts:62-72 | a key with no value stands in for any key the other object has: equal by the walk, unequal by text |
| Lineage.NoLampIffSameHashedText | packages/rulesets/src/lineage.ts:92-108 | two coded rulesets of one engine and one afterblow mode, the base without such a key, light no lamp if and only if their hashed texts are equal |
| Lineage.LampsAgreeUnlessPrototype | packages/rulesets/src/lineage.ts:4-14 | the lamps agree with the hash on a base and every fork of it if and only if its match format and penalty formula hold no such key |
| ForfeitSave.PatchTree | packages/types/src/forfeit-rules.ts:107-123 | the loop over the patch's keys leaves the patched tree, with what JavaScript does under `__proto__` |
| ForfeitSave.PatchedAt | packages/types/src/forfeit-rules.ts:107-123 | what a save asks, key by key: undefined keeps, null deletes, a tree patches and goes when emptied, anything else is set |
| ForfeitSave.SaveIsAsSentIffHarmless | packages/types/src/forfeit-rules.ts:107-123 | the loop leaves what the save asks if and only if no tree of it, at any depth, has something to keep under a `__proto__` key the stored tree lacks |
| ForfeitSave.PrototypeLends | packages/types/src/forfeit-rules.ts:113-119 | a tree sent under `__proto__` is lost, and a key sent after it is patched over the tree it held |
| ForfeitSave.EveryHistoryIsClean | packages/types/src/forfeit-rules.ts:126-132 | after any history of saves from nothing, such keys or not, the stored changes hold no null and no empty subtree |
| ForfeitRules.MergeHolds | packages/types/src/forfeit-rules.ts:139-165 | the rules in force hold, at each listed leaf, the stored change, else the ruleset's value |
| ForfeitRules.StoredAfterSave | packages/types/src/forfeit-rules.ts:107-123 | what a save asks of each leaf: the sent value, nothing after a reset, else what it was |
| ForfeitRules.InForceAfterSave | packages/types/src/forfeit-rules.ts:126-165 | after a save that takes no prototype, each listed leaf in force is the sent value, the ruleset's on a reset, else the one before |
| ForfeitRules.FindLeafChanges | packages/rulesets/src/forfeit-rules-diff.ts:30-52 | the loop over the listed leaves finds each leaf that moved in force or in the stored changes |
| ForfeitRules.FindChanges | packages/rulesets/src/forfeit-rules-diff.ts:30-66 | the listed changes, then one entry for what the list does not cover |
| ForfeitRules.SameLeavesSameRules | packages/types/src/forfeit-rules.ts:139-165 | two states whose listed leaves agree in force have the same rules in force |
| ForfeitRules.DiffIsEmptyIffNothingMoved | packages/rulesets/src/forfeit-rules-diff.ts:30-66 | between two reachable states the diff is empty if and only if the rules in force and the stored changes are the same |
| StoredZip.BuildLocalHeader | apps/api/src/common/stored-zip.ts:100-111 | writing the fields in place gives the local header record |
| StoredZip.BuildCentralRecord | apps/api/src/common/stored-zip.ts:114-134 | writing the fields in place gives the central record, with its Zip64 extra field past 32 bits |
| StoredZip.BuildEndRecords | apps/api/src/common/stored-zip.ts:140-164 | the end record, preceded by the Zip64 end record and locator when a classic field does not fit |
| StoredZip.WriteEntries | apps/api/src/common/stored-zip.ts:66-76 | the loop yields each header and its bytes, and keeps the offset of each |
| StoredZip.ZipStream | apps/api/src/common/stored-zip.ts:66-80 | the chunks, put together, are the bytes of the zip |
| StoredZip.CreateStoredZip | apps/api/src/common/stored-zip.ts:45-59 | the in-memory writer gives the same bytes of the zip |
| StoredZip.StoredZipBytes | apps/api/src/common/stored-zip.ts:178-184 | the loop adds up the classic records, names and contents |
| StoredZip.StoredZipBytesIsExact | apps/api/src/common/stored-zip.ts:172-184 | that sum is the length of the zip if and only if the zip needs no Zip64 record |
| StoredZip.ReadStoredZip | apps/api/src/common/stored-zip.ts:191-206 | on any buffer the walk ends with every read in bounds, with the entries or the refusal the format gives |
| ZipReader.WalkGivesFilesBack | apps/api/src/common/stored-zip.ts:45-59 | reading what was written gives every name its content and no other name, Zip64 or not |
| ZipReader.ReaderGivesEntriesBack | apps/api/src/common/stored-zip.ts:45-164 | a reader of APPNOTE.TXT recovers exactly the entries written, for any count and size, if and only if no content is exactly 4 GiB less one byte |
| FinalRankingCore.ByPoolScoreIsOrder | packages/types/src/final-ranking-core.ts:183-188 | the comparison of a round is a consistent order |
| FinalRankingCore.Ranking.constructor | packages/types/src/final-ranking-core.ts:147-153 | an empty ranking that knows each registration's last finite pool score |
| FinalRankingCore.Ranking.Add | packages/types/src/final-ranking-core.ts:163-180 | one push: the next place, or nothing for a registration already placed, and the placed set stays in step |
| FinalRankingCore.Ranking.AddRound | packages/types/src/final-ranking-core.ts:194-209 | the round's losers pushed in pool-score order, with 3rd and 4th as medals where asked |
| FinalRankingCore.LosersByRound | packages/types/src/final-ranking-core.ts:213-223 | each round's unplaced losers, and the rounds in the order the map holds them |
| FinalRankingCore.AddLosers | packages/types/src/final-ranking.ts:89-95 | the groups pushed deepest round first |
| FinalRanking.RunSingleElim | packages/types/src/final-ranking.ts:54-97 | the single-elimination ordering, or nothing while the final is undecided |
| FinalRanking.PlaceBronzePodium | packages/types/src/final-ranking-double-elim.ts:108-132 | bronze mode's 3rd and 4th, from the bronze match or the last losers round's winners |
| FinalRanking.PlaceLosersBracket | packages/types/src/final-ranking-double-elim.ts:135-147 | the losers bracket's exits |
| FinalRanking.PlacePreCutoffWinners | packages/types/src/final-ranking-double-elim.ts:155-162 | the winners bracket's exits before the repechage |
| FinalRanking.RunDoubleElim | packages/types/src/final-ranking-double-elim.ts:164-186 | the double-elimination ordering, or nothing while it is undecided |
| FinalRanking.RunSwiss | packages/types/src/final-ranking.ts:172-198 | the Swiss ordering |
| FinalRanking.ComputeFinalRanking | packages/types/src/final-ranking.ts:132-171 | the whole ranking: the bracket's, then the pool tail |
| FinalRankingLaws.RankingIsPlaced | packages/types/src/final-ranking-core.ts:163-180 | places are 1 to n and no registration stands twice, for any slots, pools and shape |
| FinalRankingLaws.RankingIsInOrder | packages/types/src/final-ranking-double-elim.ts:164-186 | title, podium, losers, pre-cutoff winners, play-in, pools: the first two by medal, each later part the deeper round first, then pool score with a missing one last, then name |
| FinalRankingMembers.PushLosersHas | packages/types/src/final-ranking-core.ts:213-223 | a part places every loser of its slots and nobody else |
| FinalRankingMembers.SingleElimMembers | packages/types/src/final-ranking.ts:54-97 | who a single elimination ranks: the final's two, the bronze match's two, every earlier loser |
| FinalRankingMembers.DoubleElimMembers | packages/types/src/final-ranking-double-elim.ts:164-186 | who a double elimination ranks |
| FinalRankingDoubleElim.DoubleElimIsComplete | packages/types/src/final-ranking-double-elim.ts:164-186 | a double elimination wired as drawn and played to its end ranks every entrant of its bracket and nobody else, in gold and in bronze mode |
| FinalRankingDoubleElim.DoubleElimRankingIsComplete | packages/types/src/final-ranking.ts:132-171 | and its whole ranking holds every bracket entrant and every pool fighter, and nobody else |
| FinalRankingMembers.KnockoutIsComplete | packages/types/src/final-ranking.ts:54-97 | a decided knockout with one main slot in the last round ranks every entrant of the bracket and nobody else |
| FinalRankingMembers.PoolFightersStandLast | packages/types/src/final-ranking.ts:138-170 | the bracket's entries are all entrants of it, and behind them stand, as `pool`, exactly the pool fighters who never reached it |
| FinalRankingMembers.KnockoutRankingIsComplete | packages/types/src/final-ranking.ts:132-171 | the ranking of a decided knockout holds every bracket entrant and every pool fighter, and nobody else |
| FinalRankingPodium.WinnerIsRecordedOrAhead | packages/types/src/final-ranking-core.ts:109-139 | a decided slot is won by the recorded winner, else by the higher score, and lost by the other side |
| FinalRankingPodium.DeciderGivesTheTitle | packages/types/src/final-ranking-double-elim.ts:82-102 | nothing is ranked until the deciding match is; then its winner comes first as champion and its loser second |
| FinalRankingPodium.PodiumOfSingleElim | packages/types/src/final-ranking.ts:68-83 | the final's winner and loser are 1st and 2nd, the bronze match's 3rd and 4th |
| FinalRankingPodium.PodiumOfBronzeMode | packages/types/src/final-ranking-double-elim.ts:108-118 | in bronze mode the bronze match's winner and loser are 3rd and 4th |
| FinalRankingPodium.PodiumOfSurvivors | packages/types/src/final-ranking-double-elim.ts:120-131 | in bronze mode without a bronze match, the winners of the last losers round stand 3rd, 4th and on, by pool score then name |
| FinalRankingPodium.LosersHaveTheirKinds | packages/types/src/final-ranking-core.ts:194-209 | a loser's kind is the one of his place: 3rd and 4th are medals where the part decides the podium |
| FinalRankingPodium.LosersStandUnderTheirDeepestLoss | packages/types/src/final-ranking-core.ts:194-223 | every loser a part places stands under the deepest round of that part he lost in |
| FinalRankingPodium.SwissKeepsItsStandings | packages/types/src/final-ranking.ts:172-198 | a Swiss ranking is its standings, place by place, with the medals on the first four |
| FinalRankingOrderFree.LosersForgetOrder | packages/types/src/final-ranking-core.ts:213-223 | the losers of some slots are placed the same way whatever order the slots come in |
| FinalRankingOrderFree.RankingForgetsOrder | packages/types/src/final-ranking.ts:132-171 | permuting slots or pool entries changes nothing when slots are told apart by id and by round and position, the deciding matches are unique and no two fighters tie on score and name |
| MatchFormat.ActiveIsEnough | packages/rules/src/match-format.ts:717 | a voided exchange is worth nothing |
| MatchFormat.ComputeMatchFormatScore | packages/rules/src/match-format.ts:711-814 | the loop's seven counters are sums over the exchanges, and the score is theirs under the direction, or wiped at the ceiling |
| MatchFormat.BelowZeroKeepsTheCount | packages/rules/src/match-format.ts:816-831 | board less below-zero is exactly the cap less what the opponent earned, and one of the two is zero |
| MatchFormat.CountdownEndsAsCountup | packages/rules/src/match-format.ts:924-962 | under edition 2026-10 a bout counting down ends as the same bout counting up, if and only if it is not at a standing ceiling with the cap reached as well |
| MatchFormat.WhatTheOctoberEditionMoved | packages/rules/src/match-format.ts:516-552 | under edition 2026-04 the two directions part exactly where the later ruling moved something |
| MatchFormat.CountupHasOneEdition | packages/rules/src/match-format.ts:516-552 | a bout that counts up is decided alike by both editions |
| MatchFormat.WinnerEarnedMore | packages/rules/src/match-format.ts:558-611 | away from the ceiling a bout is over exactly when the cap is reached and someone leads (or level is allowed), and whoever earned more wins |
| MatchFormat.CeilingEndsTheBout | packages/rules/src/match-format.ts:924-962 | at the ceiling the bout is over: wiped boards are won by nobody, standing ones by the leader, with the reason recorded |
| MatchFormat.ClosedRoundHasWinner | packages/rules/src/match-format.ts:602-611 | outside the group stages, where no round may end level, every round that closes itself has a winner, in both editions, on any score |
| MatchFormat.SeriesIsBounded | packages/rules/src/match-format.ts:289-319 | a series whose rounds open only while it is not over never passes its rounds, drawn rounds or not |
| MatchFormat.SeriesEndsClinched | packages/rules/src/match-format.ts:289-319 | such a best-of-N outside the group stages ends clinched, in half to all of its rounds, with exactly one side at the target |
| Clock.PadShowsWhatTheServerWill | packages/rules/src/clock.ts:141-151 | the queued presses folded over the server's clock show what the server shows once it has taken exactly the presses that fit |
| Clock.PressTwiceIsOnce | packages/rules/src/clock.ts:126-151 | a press repeated is a press made once, from any clock |
| Clock.RepeatedPressChangesNothing | packages/rules/src/clock.ts:126-151 | repeating a press anywhere in the queue changes nothing |
| Clock.ElapsedIsTimeSpentRunning | packages/rules/src/clock.ts:66-124 | on every legal run without corrections, elapsed time is the number of milliseconds since the last reset at which the clock was running |
| Clock.ExtraTimeShowsItsSeconds | packages/rules/src/clock.ts:153-180 | a step of extra time shows exactly its seconds, however far the bout ran, if and only if they fit the phase's limit |
| RefereeCapacity.AvailableForStretch | packages/types/src/referee-availability.ts:49-57 | who is available for a whole run whose start has a date is available for any stretch of it, asked on the stretch's own date, if it has one |
| RefereeCapacity.Sweep | packages/types/src/referee-capacity.ts:69-97 | the loop warns of each stretch that needs more referees than are free |
| RefereeCapacity.DetectConcurrencyShortage | packages/types/src/referee-capacity.ts:54-98 | the warnings of the sorted edges of all scheduled pools |
| RefereeCapacity.ActiveIsConstant | packages/types/src/referee-capacity.ts:70-77 | the pools that run do not change within a stretch |
| RefereeCapacity.NeverOverWarns | packages/types/src/referee-capacity.ts:42-98 | where it warns, no assignment gives every slot its own referee, not fighting and available for the pool's whole run, at any instant of the stretch; the planned starts have a date |
| RefereeCapacity.EveryShortageIsWarned | packages/types/src/referee-capacity.ts:42-98 | every instant short of referees lies in a warned stretch that counts the slots of that instant; the planned starts and ends have a date |
| StatusTicker.ReadCutsNothing | apps/api/src/workers/event-status-ticker.worker.ts:130-148 | no zone ahead of UTC+14 and end not before start: an Event that could move is read |
| StatusTicker.StatusFollowsTheClock | apps/api/src/common/event-open-window.ts:28-39 | a settled published Event has not opened and a settled running one has not closed; no move is early |
| StatusTicker.EventsTable.ReadCandidates | apps/api/src/workers/event-status-ticker.worker.ts:136-148 | the read gives every published or running Event starting by tomorrow, each once |
| StatusTicker.EventsTable.WriteOne | apps/api/src/workers/event-status-ticker.worker.ts:170-194 | the write lands exactly when the row still holds its status, dates and zone, and changes nothing else |
| StatusTicker.EventsTable.Tick | apps/api/src/workers/event-status-ticker.worker.ts:104-128 | an undisturbed tick moves and counts exactly what could move, and leaves nothing to move |
| StatusTickerRuns.EveryRunKeeps | apps/api/src/workers/event-status-ticker.worker.ts:104-194 | over every interleaving of ticks and edits, each landed write is its tick's decision on the row at write time, each is counted by its own tick only, and no row moves twice to a status without an edit between |
| DutyAlert.AlertQueue.CancelRefereeStarting | apps/api/src/workers/follow-notification-scheduler.worker.ts:668-671 | only an alert that still waits is removed |
| DutyAlert.AlertQueue.ReplaceJob | apps/api/src/workers/follow-notification-scheduler.worker.ts:417-441 | what was held is gone; a start still to come has a new waiting alert |
| DutyAlert.AlertQueue.SetRefereeAlert | apps/api/src/workers/follow-notification-scheduler.worker.ts:627-661 | a door sets, keeps or removes as the rule says |
| DutyAlert.DoorLeavesTheRightAlert | apps/api/src/workers/duty-alert-rings.ts:59-67 | after a door a start to come has an alert waiting for exactly it or the record of one sent for it, and otherwise nothing waits |
| DutyAlert.EveryRunRingsOnce | apps/api/src/workers/duty-alert-rings.ts:11-16 | over every run, two alerts sent for one start have a set for another start between them, and none waits for a start that had passed when it was set |
| DutyAlert.OneStartRingsOnce | apps/api/src/workers/duty-alert-rings.ts:11-16 | a duty never retimed rings at most once for a follower |
| DutyAlert.MovedAndBackRingsTwice | apps/api/src/workers/duty-alert-rings.ts:21-23 | a duty moved and moved back rings twice for the first start |
| ServiceWorker.WholeHoldsEverything | apps/web-staff/public/sw.js:130-146 | an install that missed nothing leaves each shell and each file it names kept, or answered as absent |
| ServiceWorker.CacheStorage.Keep | apps/web-staff/public/sw.js:110-128 | a page is kept; a refusal under 500 is absent; anything else is missed |
| ServiceWorker.CacheStorage.KeepShells | apps/web-staff/public/sw.js:135-146 | the two loops keep every answered shell and named file, and say whole exactly when nothing was missed |
| ServiceWorker.CacheStorage.Install | apps/web-staff/public/sw.js:162-168 | an install fails exactly when it was cut short and another worker is active |
| ServiceWorker.CacheStorage.Activate | apps/web-staff/public/sw.js:178-191 | exactly the older caches of the mount's family go |
| ServiceWorker.OtherMountsAreKept | apps/web-staff/public/sw.js:42-47 | taking over spares another mount's caches, whatever the versions, if and only if neither mount's name goes on with a dash where the other's ends |
| ServiceWorker.DeployedMountsAreApart | apps/web-staff/public/sw.js:30-47 | the two mounts in use are so |
| ServiceWorkerRuns.EveryRunKeeps | apps/web-staff/public/sw.js:148-191 | over every run of deploys, a worker that replaced another has a whole cache of its own, from its take-over on |
| ServiceWorkerRuns.FailedInstallLeavesTheWorker | apps/web-staff/public/sw.js:162-168 | a failed install leaves the active worker and its cache as they were |
| ServiceWorkerRuns.TakeOverClearsItsOwnMount | apps/web-staff/public/sw.js:178-191 | after a take-over no older cache of the mount is left and every other mount's is untouched |
| Csv.PrintedReads | packages/types/src/csv.ts:57-77 | a printed cell reads as what it says, before a separator or a line end |
| Csv.FileReads | packages/types/src/csv.ts:110-122 | a reader of RFC 4180 gets, line by line, what every value says, for all rows and formats |
| Csv.FileRoundTrips | packages/types/src/csv.ts:110-122 | it gets the rows back if and only if there is a row, every row has a cell, and no number is written with the separator as its decimal mark |
| Csv.ShippedFormatsRoundTrip | packages/types/src/csv.ts:44-48 | the two formats the exports offer bring back every file of non-empty rows |
| Csv.NoCellIsAFormula | packages/types/src/csv.ts:67-90 | no cell read starts like a formula unless the value was a plain number |
| RoundCode.TokenReads | packages/schedule-core/src/bracket-round-group.ts:43-75 | every token the printer makes is read, with the order of its round |
| RoundCode.BracketCodeReadsBack | packages/types/src/round-code.ts:182-207 | reading a printed bracket code gives its token and order if and only if the weapon's own code is not `B` |
| RoundCode.SwissCodeReadsBack | packages/schedule-core/src/bracket-round-group.ts:87-95 | reading a printed Swiss code gives its round |
| RoundCode.OrderFollowsTheRounds | packages/schedule-core/src/bracket-round-group.ts:29-130 | the order read strictly increases with the round if and only if the bracket has at most 512 fighters, or at most 10 winners and fewer than 400 losers rounds |
| RoundCode.SwissStandsFirst | packages/schedule-core/src/bracket-round-group.ts:77-95 | a Swiss phase of fewer than 1000 rounds stands before the play-in and every bracket round |

## Left out

- Numbers: JavaScript numbers are unbounded integers or reals here, and a JSON number is named by its text; values past 2^53 are not modelled, nor NaN outside JSON values.
- Text: a string is a sequence of Unicode scalar values in code-point order; UTF-16 order, lone surrogates, `localeCompare` (an abstract rank of names) and UTF-8 encoding are not modelled.
- Objects: integer keys come where they are written, not first, and `deepEqual` and `patchTree` are the only walks whose inherited reads are modelled; the others test for an own key or read fixed names no object inherits.
- ForfeitSave.Save: the stored value as JSON keeps it; a prototype the patched object has in memory until then is not read by `Merge`.
- `canonicalizePenaltyDefinition`, `lockedChanges` and `projectRulesetBuckets`: more members of the same kind.
- `forfeitQuestion` and the phase questions of the forfeit rules: branch tables.
- Parsing and defaults of match formats: a resolved format is the input.
- The bout's label: whether it names a medal match is an input of `MatchFormat`.
- Points of penalty cards added after scoring, and the readers of `end_reason`.
- The stored zip's views into the buffer, the laziness of `zipStream`, and DOS stamps, which are given numbers.
- `StoredZip.ReadStoredZip`: contents are copies, not views.
- Calendar and zones: the instant of a local hour and the date of an instant are abstract functions with the bounds each lemma names.
- A database write that lands while its answer is lost, and a read cut by a row limit.
- The league recompute after a completed Event, and every log line.
- The bout and Workshop alerts, the reads that decide who follows whom, the races between doors that the scheduler's own comments name, and records older than a day.
- `ServiceWorker`: which files a page names is an abstract function of its text, storage that refuses to open, and the fetch strategies with `shellFor`.
- Weapon names: the weapon's code is an input; match numbers that are free labels, and the human labels of rounds, are not modelled.
- `rankingBracketShape` and `swissResultKind` on malformed payloads.
- `RefereeCapacity`: edges whose text cannot be read as an instant.
