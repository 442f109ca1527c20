# Porjar: what the tournament back end keeps

This project models the parts of the Porjar e-sports platform whose correctness spans many steps, and
proves what they keep. `dafny verify dfyconfig.toml` checks all of it.

| Modules | What they model |
|---|---|
| `SubmissionProtocol`, `SubmissionSafety`, `SubmissionOnce`, `SubmissionReplay`, `SubmissionJobTrace` | the submission queue (a Redis consumer group, its pending list, dead-letter stream and dedup keys) and N workers as a state machine: one step is one Redis command, one processor call or one wait; crashes, cancelled contexts, lost replies and operators replaying the group interleave freely |
| `SubmissionQueue`, `SubmissionWorker` | the queue's methods and the worker's retry loop as classes updated in place, each call shown to be a run of that state machine |
| `RoundMapping`, `MatchDetails`, `AdvancementLinks`, `BracketProgress` | the Challonge bracket import: teams and results of each match, signed rounds to a single line of rounds, prerequisites to advancement links, the two-pass insert under foreign keys, and why following links terminates |
| `Decimal`, `Scores` | score strings, in the Go handler and in the Python importer |
| `TeamMatching`, `NameScores` | the two-pass matching of participants to teams |
| `SuperadminLock`, `AdminUsers` | the Redis lock that protects the last superadmin, as an interleaving protocol and as handler code |
| `FixedWindow`, `RateLimiter`, `RateLimitMiddleware` | the fixed-window rate limiter and its in-memory fallback |
| `RoleCache` | how stale the role of an authenticated request may be |
| `ParticipantImport` | the bulk import of participants with its caches, counters and failing calls |
| `HeaderScan`, `FallbackNik` | the column scan of registration sheets and the search for a free ID |
| `PasswordShuffle` | the generator of one-time passwords |
| `CardLayout` | grouping and placing credential cards on pages |

Foreign calls are parameters. A Redis or database write is `Done`, `Refused`, or applied with its reply
lost; the processor, the clock, random draws and context cancellation are inputs of each call. Classes are
specified by functions on values, and the theorems are about those functions and about all runs.

## What turned out not to hold

Each of these is proved, with the exact condition or a concrete run.

- A job whose back-off is cancelled is not delivered again on the next startup, as the comment in
  `porjar-api/internal/queue/worker.go:120-121` says: it goes to the dead-letter stream
  (`CancelledBackoffIsFinal`). And a job whose worker crashed stays pending for ever, because only
  undelivered entries are read (`StrandedForever`, `StrandsIff`).
- The ten-minute dedup key does not stop a second processing when Redis fails to answer the duplicate
  check, whose error is dropped, nor when another worker marks the job between check and dispatch
  (`DispatchWithLiveKeyIff`, `UnansweredCheckRedispatches`, `OvertakenCheckRedispatches`). It takes a
  replayed group: without one, no job is accepted twice (`AcceptedAtMostOnce`).
- The jitter is never negative: the back-off lies between its base and 120 % of it, not ±20 %
  (`ExhaustedBackoffTotal`).
- The Go importer has no rule for round 0, Challonge's third-place match: in a double elimination it lands
  in the grand final's round, in a single elimination a loser's link to it goes backwards
  (`GoRoundsApart`, `LinkGoesForward`, `PreviewAgrees`, `ImportersAgree`). The Python importer has one.
- The remapping of rounds is a bijection if and only if the tournament has a positive round
  (`RemappingIsABijection`).
- Links invert the prerequisites if and only if no match feeds two others (`LinksInvertPrereqs`).
- The Go score parser returns a printed score if and only if it fits 64 bits, and reads junk as 0 where
  the Python one gives up the game (`SingleScoreRoundTrip`, `ManyGamesCountWins`, `ParsersAgree`).
- The two importers give byes different details (`ImportersWriteTheSame`).
- The bracket import does not check the team IDs it is given or the size of the scores: an unknown team or
  a score beyond 32 bits makes the database refuse a match, and the matches before it stay behind without
  links (`StorableIff`, `UnknownTeamStopsTheImport`, `LargeScoreIsRefused`).
- The last superadmin can be lost: by a role change that read its target before the target became
  superadmin and writes without the lock, by an update under the lock whose count such a write has
  spoilt, and by a lock holder slower than its lock (`LastSuperadminLostIff`, `StaleWriteLosesTheLast`,
  `UpdateLosesTheLast`, `LateHolderLosesTheLast`).
- The limiter admits up to twice its limit, less one, in one window length, and as much again of the
  fallback limit (`TwiceTheLimitLessOneIsReached`).
- Sweeping expired buckets is observable if a request reopens the window between the check and the
  deletion, a gap the code leaves open (`DeletionShowsIff`, `SplitSweepLosesARequest`).
- Grouping cards indexes an empty list if and only if the first card has an empty team name (`GroupTeams`).

## Model

| member | source | states |
|---|---|---|
| SubmissionSafety.NothingLost | porjar-api/internal/queue/submission_queue.go:82-199 | after any run from the empty queue, every entry whose job has a type, a submitter and parsable match and team IDs is undelivered, pending, accepted by the processor, or dead-lettered with its job intact; an entry that does not decode never leaves the pending list |
| SubmissionSafety.SubmittedIsNotLost | porjar-api/internal/queue/submission_queue.go:59-80 | a job whose Enqueue was answered stays in the stream under the ID returned, and, having those fields, is never lost from then on |
| SubmissionSafety.LeavingPending | porjar-api/internal/queue/submission_queue.go:151-199 | a well-formed entry leaves the pending list only when accepted or dead-lettered, or, if the operator destroys the group, to be undelivered again |
| SubmissionSafety.RunKeeps | porjar-api/internal/queue/worker.go:67-177 | every run of any interleaving of workers, crashes, lost replies and replays keeps the pool's invariant, and history only grows |
| SubmissionSafety.WorkKeeps | porjar-api/internal/queue/worker.go:98-177 | the same for each step of the retry loop: dead-letter before ack, ack before dedup key |
| SubmissionSafety.DedupKeysAreEarned | porjar-api/internal/queue/worker.go:139-156 | in every reachable state a dedup key means that the processor and then the ack succeeded |
| SubmissionSafety.CheckDecides | porjar-api/internal/queue/submission_queue.go:104-144 | exactly what the examination of an entry leads to: left pending if it does not decode; to be acknowledged if a field is missing or an ID does not parse, or if Redis reports a live key, and then it was accepted before; otherwise handed out |
| SubmissionSafety.DispatchWithLiveKeyIff | porjar-api/internal/queue/submission_queue.go:133-144 | in every reachable state a job is dispatched while its dedup key is live if and only if it was marked in the last ten minutes without its duplicate check seeing it: the check was unanswered or came before the mark |
| SubmissionOnce.NoEntryInTwoHands | porjar-api/internal/queue/submission_queue.go:85-93 | in every run without an operator's replay or recreation of the group, no entry is in two workers' hands or twice in one, and none that has been accepted is about to be dispatched |
| SubmissionOnce.AcceptedAtMostOnce | porjar-api/internal/queue/submission_queue.go:85-93 | and each job is accepted at most once, however workers crash and replies get lost |
| SubmissionReplay.StrandedForever | porjar-api/internal/queue/submission_queue.go:85-93 | a pending entry that no worker holds stays pending and is never accepted or dead-lettered, however long the pool runs without an operator |
| SubmissionReplay.StrandsIff | porjar-api/internal/queue/worker.go:67-177 | for every kind of step, exactly when it strands an entry: its only holder crashes, drops it as undecodable, or ends its job with the ack refused, the dead letter unconfirmed or only the mark left; or a delivery whose reply is lost |
| SubmissionReplay.CrashStrands | porjar-api/internal/queue/worker.go:67-94 | after a crash a delivered pending entry is stranded if and only if no other worker holds it |
| SubmissionReplay.CrashedJobIsStranded | porjar-api/internal/queue/worker.go:67-94 | a run from the empty queue, without an operator, that strands a valid job |
| SubmissionReplay.UnansweredCheckRedispatches | porjar-api/internal/queue/submission_queue.go:136-142 | a run in which a job is accepted a second time while its dedup key is live, because its check went unanswered |
| SubmissionReplay.OvertakenCheckRedispatches | porjar-api/internal/queue/submission_queue.go:133-144 | and one in which every check is answered, but a second worker checked before the first had marked |
| SubmissionJobTrace.JobGetsOneVerdict | porjar-api/internal/queue/worker.go:98-177 | handling a job takes at most 3 dispatches and 2 waits and makes exactly one of Ack and Nack, Ack if and only if a dispatch succeeded; unknown types end in Nack |
| SubmissionJobTrace.ExhaustedBackoffTotal | porjar-api/internal/queue/worker.go:102-133 | a job never accepted and never cancelled is dispatched exactly three times with two waits, which request at least 3 s and under 3.6 s |
| SubmissionJobTrace.CancelledBackoffIsFinal | porjar-api/internal/queue/worker.go:119-132 | after a cancelled back-off there is no further dispatch and no ack but a write to the dead-letter stream |
| SubmissionJobTrace.TraceIsARun | porjar-api/internal/queue/worker.go:98-177 | handling one job without interruption is a run of the pool that ends with Redis as the trace says and the worker at its next job |
| SubmissionQueue.Queue.Enqueue | porjar-api/internal/queue/submission_queue.go:59-80 | the entry is appended unless refused; an ID is returned only if Redis answered |
| SubmissionQueue.Queue.ReadBatch | porjar-api/internal/queue/submission_queue.go:85-149 | the loop over the messages has the effect of the recursive filter on the next undelivered entries |
| SubmissionQueue.FilteredExactly | porjar-api/internal/queue/submission_queue.go:102-148 | message by message: claimed if and only if it decodes, has a type, a submitter and match and team IDs that parse, and Redis did not report a live key; claims keep their order and jobs; what is neither claimed nor undecodable leaves the pending list unless the ack is refused |
| SubmissionQueue.BatchIsNextTen | porjar-api/internal/queue/submission_queue.go:85-93 | a batch is the next ten undelivered entries, or all there are |
| SubmissionQueue.Queue.Ack | porjar-api/internal/queue/submission_queue.go:152-157 | the entry leaves the pending list unless refused; nil only if answered |
| SubmissionQueue.Queue.Nack | porjar-api/internal/queue/submission_queue.go:161-199 | dead-letters, and acknowledges only if the dead letter is known to be written |
| SubmissionQueue.Queue.MarkProcessed | porjar-api/internal/queue/submission_queue.go:203-210 | sets the key for 600 seconds unless refused |
| SubmissionQueue.FilteringIsARun | porjar-api/internal/queue/submission_queue.go:102-148 | what the filter does to a batch is a run of the pool that leaves the worker holding exactly the jobs returned |
| SubmissionWorker.Worker.Dispatch | porjar-api/internal/queue/worker.go:180-191 | succeeds if and only if the type is bracket, br_lobby or group and its processor accepts |
| SubmissionWorker.Worker.ProcessWithRetry | porjar-api/internal/queue/worker.go:98-177 | for every behaviour of processor, context and Redis, the effects are a complete trace the protocol allows, exactly the script for that behaviour, and leave Redis as the protocol says |
| SubmissionWorker.RunOnce | porjar-api/internal/queue/worker.go:70-94 | one turn of a worker's loop, reading a batch and handling every job, is a run of the pool ending with the worker idle and Redis as the code leaves it |
| RoundMapping.FindBounds | porjar-api/internal/handler/challonge_handler.go:355-369 | finds whether a round is negative, the largest round floored at 0 and the smallest capped at 0 |
| RoundMapping.RemappingIsABijection | porjar-api/internal/handler/challonge_handler.go:381-400 | for a double elimination the remapping is a bijection from the nonzero signed rounds onto 1..maxWR+lb+1 if and only if there is a positive round |
| RoundMapping.SingleEliminationKeepsRounds | porjar-api/internal/handler/challonge_handler.go:388-391 | without a negative round, 1..maxPositive goes one to one onto itself in order, always winners, and third place keeps round 0 |
| RoundMapping.DoubleEliminationRounds | porjar-api/internal/handler/challonge_handler.go:392-399 | the new round and position of every round: winners unchanged, losers after them from -1 outward, grand final and round 0 last |
| RoundMapping.PositionRecoverable | porjar-api/internal/handler/challonge_handler.go:388-400 | the new round alone determines the bracket position |
| RoundMapping.PreviewAgrees | porjar-api/internal/handler/challonge_handler.go:231-251 | preview and import label a match alike if and only if it is not the third-place match of a double elimination with a positive round |
| RoundMapping.ImportersAgree | tmp_import/import_all.py:237-257 | the two importers give a match the same round and position if and only if its round is not 0 and some round is not negative |
| RoundMapping.PyRoundsApart | tmp_import/import_all.py:244-257 | the Python importer maps different rounds to different rounds, third place right after all others, on the winners' side |
| RoundMapping.GoRoundsApart | porjar-api/internal/handler/challonge_handler.go:388-400 | the Go importer maps two different rounds to the same one if and only if they are the third-place match and the grand final of a double elimination |
| AdvancementLinks.LinksInvertPrereqs | porjar-api/internal/handler/challonge_handler.go:492-521 | no link is invented; the links are the inverse of the prerequisite relation if and only if no match feeds two others |
| AdvancementLinks.LinkOrderIrrelevant | tmp_import/import_all.py:262-276 | then every order of the matches gives the same links, so both importers agree |
| AdvancementLinks.BuildLinks | porjar-api/internal/handler/challonge_handler.go:496-521 | the loop leaves in each object the ID of the last match its winner and its loser feed |
| AdvancementLinks.Table.Create | porjar-api/migrations/0008_create_bracket_matches.up.sql:1-22 | the table refuses an ID it has, a link to a row it lacks, a team, winner or loser that is no team, and a round, number or score beyond 32 bits, and is unchanged then |
| AdvancementLinks.Table.Update | porjar-api/internal/repository/bracket_repo.go:100-116 | changes everything but round, number and position of an existing row, and refuses links to rows and teams there are not and scores beyond 32 bits |
| AdvancementLinks.TwoPassInsert | porjar-api/internal/handler/challonge_handler.go:523-545 | it succeeds if and only if every match's teams and numbers suit the database and every call goes through; else it stops at exactly the first match that fails, with all links stored so far pointing at stored rows and no other row touched; a link is never the reason |
| AdvancementLinks.ImportBracket | porjar-api/internal/handler/challonge_handler.go:353-545 | from the fetched matches to the table, with the same exact condition: on success one row per match with its remapped round, position, teams, result, status and both links, else the rows up to the first failure |
| AdvancementLinks.StorableIff | porjar-api/internal/handler/challonge_handler.go:300-312 | which input the database refuses although it can be reached: players, or a complete match's winner or loser, matched to a team there is not, and rounds, play orders or parsed scores beyond 32 bits |
| AdvancementLinks.UnknownTeamStopsTheImport | porjar-api/internal/handler/challonge_handler.go:300-312 | a player matched to an unknown team stops the import at that match, with every match before it stored without links |
| AdvancementLinks.LargeScoreIsRefused | porjar-api/internal/handler/challonge_handler.go:436-441 | a complete match with a printed score beyond 32 bits is refused |
| BracketProgress.LinkGoesForward | porjar-api/internal/handler/challonge_handler.go:388-400 | a legal Challonge link goes to a later round, or to a later match between grand finals: always in Python, in Go if and only if the target is not round 0 |
| BracketProgress.WalksNeverCycle | tmp_import/import_all.py:244-274 | following winners and losers never meets a match twice, so a walk is no longer than the bracket |
| BracketProgress.StoredLinksGoForward | porjar-api/internal/handler/challonge_handler.go:496-545 | every link stored by a finished import leads to a stored row of the same import fed by that match, later in round or number if and only if that match is not round 0 |
| BracketProgress.EveryFeedIsStored | porjar-api/internal/handler/challonge_handler.go:492-545 | and every prerequisite of every match leads to a stored link, to that match unless a later one has the same prerequisite |
| BracketProgress.StoredWalksNeverCycle | porjar-api/internal/handler/challonge_handler.go:496-545 | following next and loser-next links through the rows of a finished import never meets a row twice |
| BracketProgress.StoredRounds | porjar-api/internal/handler/challonge_handler.go:381-490 | the rows of a finished import: rounds of a single elimination unchanged; of a double elimination within 1..maxPositive - maxNegative, each side in its order, winners before losers before the grand final; match number and details those of the match |
| MatchDetails.Describe | porjar-api/internal/handler/challonge_handler.go:418-486 | the branches that fill in teams, scores, winner, loser, status and completion compute the same details as the case definition |
| MatchDetails.DetailsMean | porjar-api/internal/handler/challonge_handler.go:418-486 | each field of the input: teams where participants are matched, results for complete matches only, and exactly when a match is a bye, completed, scheduled or pending |
| MatchDetails.PyDetailsMean | tmp_import/import_all.py:284-319 | the same for the Python importer, which has no byes without players and notes a completion time for every complete match |
| MatchDetails.ImportersWriteTheSame | tmp_import/import_all.py:287-308 | the two importers write the same details if and only if the match is not complete, or does not have exactly one team, nor neither teams nor players, and both parsers read its scores alike |
| MatchDetails.DetailsAreConsistent | porjar-api/internal/handler/challonge_handler.go:418-465 | under an injective matching no row has one team twice, winners and losers who play are stored as their side's team, and scores are stored exactly for complete matches |
| Scores.ParseScoresCSV | porjar-api/internal/handler/challonge_handler.go:564-597 | the loop computes the recursive count of games won on either side |
| Scores.SingleScoreRoundTrip | porjar-api/internal/handler/challonge_handler.go:589-596 | a printed pair parses back to itself: always in Python, in Go if and only if both fit 64 bits |
| Scores.ManyGamesCountWins | porjar-api/internal/handler/challonge_handler.go:571-587 | two or more printed games parse to the games won by A and by B: always in Python, in Go if and only if capping at 64 bits leaves every game its winner |
| Scores.SwappingSides | porjar-api/internal/handler/challonge_handler.go:571-587 | for all games and both parsers, swapping the sides swaps the result, and its total is at most the number of games |
| Scores.PaddingIsIgnored | porjar-api/internal/handler/challonge_handler.go:565-595 | blanks around the numbers of a score, the games of a list or the whole string change nothing, in either parser |
| Scores.ParsersAgree | tmp_import/import_all.py:140-163 | when the parsers agree, exactly: on a single score if both parts are clean 64-bit numbers, or some part is no number and Go reads both as 0; on a list of games whose numbers fit 64 bits if no game pairs a non-number with a part Go reads as nonzero |
| Scores.ParsersDifferOnJunk | tmp_import/import_all.py:150-163 | so every unreadable half with a positive number on the other side is read by Go and dropped by Python |
| TeamMatching.BestMatch | tmp_import/import_all.py:70-105 | the first of the best-scoring unused teams; none if and only if all are used |
| TeamMatching.NoExactMatchingIsLarger | tmp_import/import_all.py:114-124 | no way of pairing distinct participants and teams of equal names exceeds the sum over names of the smaller count |
| TeamMatching.ExactPass | tmp_import/import_all.py:114-124 | the greedy pass reaches that bound for every order of the lists, and leaves no same-name pair |
| TeamMatching.FuzzyPass | tmp_import/import_all.py:126-137 | keeps the pass-1 pairs; every new pair has different names, scores at least 40 and beats every team left over |
| TeamMatching.TwoPassMatch | tmp_import/import_all.py:108-137 | injective, exact part of maximum size, everybody matched or listed once and in order, and no unmatched participant scores 40 or more with an unused team |
| NameScores.ScoreIsUsable | tmp_import/import_all.py:84-99 | the score lies within 0..100 and is 100 for equal names only, so the matching theorems apply to it |
| NameScores.ScoreMeans | tmp_import/import_all.py:84-103 | names of which one contains the other score 80, above every other unequal pair; the rest score seventy times the shared trigrams over the larger number, and reach 40 if and only if at least four sevenths are shared |
| NameScores.TrigramsMean | tmp_import/import_all.py:92-94 | the trigrams are the stretches of three characters |
| NameScores.MatchByName | tmp_import/import_all.py:108-137 | the matching with this score: besides the above, no unmatched participant and unused team have the same name, one inside the other, or four sevenths of their trigrams in common |
| SuperadminLock.SuperadminsSurvive | porjar-api/internal/handler/admin_user_handler.go:146-172 | over every run with punctual holders and no harmful unlocked write (a stale one that takes the last superadmin, or the last but one while somebody who counted two is about to update) there is a superadmin, at most one request is in the critical section, and a release deletes only its own lock |
| SuperadminLock.StepKeeps | porjar-api/internal/handler/admin_user_handler.go:146-172 | a call by punctual holders keeps the lock invariant if and only if it is not a harmful unlocked write |
| SuperadminLock.WritesAreAsAsked | porjar-api/internal/handler/admin_user_handler.go:168-172 | an applied role change gives its target exactly the role asked for and leaves everybody else alone, a deletion removes its target, and no other step touches a role; a lock taken lasts 5 s |
| SuperadminLock.LastSuperadminLostIff | porjar-api/internal/handler/admin_user_handler.go:139-172 | over every run with punctual holders, a step removes the last superadmin if and only if one is left and an applied write demotes it; then that write is stale, or it is an update under the lock with a stale write since that request's count |
| SuperadminLock.UninterruptedWritesAreFresh | porjar-api/internal/handler/admin_user_handler.go:139-172 | a request that writes right after its read is never stale |
| SuperadminLock.StaleWriteLosesTheLast | porjar-api/internal/handler/admin_user_handler.go:139-172 | a run in which every lock is respected and a stale write removes the only superadmin |
| SuperadminLock.UpdateLosesTheLast | porjar-api/internal/handler/admin_user_handler.go:158-172 | and one in which the update under the lock does, after a stale write has spoilt its count |
| SuperadminLock.LateHolderLosesTheLast | porjar-api/internal/handler/admin_handler.go:18-19 | a run in which a holder outlives the five-second lock and both superadmins are lost |
| AdminUsers.AdminHandler.ChangeUserRole | porjar-api/internal/handler/admin_user_handler.go:111-176 | uninterrupted, it is a run of the protocol and never takes the last superadmin; success means the target has the role asked for and nobody else changed, failure that or nothing; each refusal and failure has its exact condition, the last-superadmin one that the target is the only one; and the lock is free again when all calls work |
| AdminUsers.AdminHandler.DeleteUser | porjar-api/internal/handler/admin_user_handler.go:336-364 | a run of the protocol that never changes the set of superadmins, with the exact condition of each refusal and failure |
| FixedWindow.HitMeans | porjar-api/internal/middleware/ratelimit.go:50-63 | a hit counts on until its window's end, included, and opens a new window after that |
| FixedWindow.StoreCountsWindows | porjar-api/internal/middleware/ratelimit.go:48-63 | the count returned is the number of requests since the opener of the current window, whatever was swept when |
| FixedWindow.SweepingIsUnobservable | porjar-api/internal/middleware/ratelimit.go:30-46 | the store that is swept at any times and the store never swept return the same counts on every trace |
| FixedWindow.DeletionShowsIff | porjar-api/internal/middleware/ratelimit.go:37-42 | for all traces, a deletion apart from its check changes the count of the key's next request if and only if the deleted bucket is unexpired then; if not, no later count of any key changes |
| FixedWindow.SplitSweepLosesARequest | porjar-api/internal/middleware/ratelimit.go:37-42 | so for every window a request that reopens it between check and deletion is forgotten |
| RateLimiter.PipelineMeans | porjar-api/internal/middleware/ratelimit.go:80-84 | what each fate of INCR and EXPIRE NX leaves in Redis |
| RateLimiter.AdmittedWithinBudget | porjar-api/internal/middleware/ratelimit.go:65-121 | from any counter state, the admissions of any trace within an interval stay within what its window leaves |
| RateLimiter.FewerThanTwiceTheLimit | porjar-api/internal/middleware/ratelimit.go:65-121 | in any closed interval of one window length, with any pattern of Redis failures: at most 2n - 1 through Redis for a limit n, at most 2(n/2) - 1 through memory, or 1 for n below 4, and both together at most the sum |
| RateLimiter.TwiceTheLimitLessOneIsReached | porjar-api/internal/middleware/ratelimit.go:65-121 | these bounds are the exact maxima: for every window and limit one trace, mixing both ways, reaches both at once |
| RateLimitMiddleware.InMemoryStore.Incr | porjar-api/internal/middleware/ratelimit.go:50-63 | the buckets after an increment are those of the pure store |
| RateLimitMiddleware.InMemoryStore.Cleanup | porjar-api/internal/middleware/ratelimit.go:30-46 | removes exactly the expired entries and changes no other |
| RateLimitMiddleware.Middleware.Handle | porjar-api/internal/middleware/ratelimit.go:125-178 | while the pipeline fails a request is rejected if and only if it is past n/2, at least 1, in its memory window, and else if and only if it is past n in its Redis window; counters are those of the pure step, and no other key is touched |
| RoleCache.RoleIsRecent | porjar-api/internal/middleware/auth.go:86-103 | in every interleaving, the role a request goes on with was the stored role at most 60 s plus the read-to-store delay ago |
| RoleCache.RevocationTakesEffect | porjar-api/internal/middleware/auth.go:86-103 | a role not held within that time is not used |
| RoleCache.RevokedRoleLingers | porjar-api/internal/middleware/auth.go:91-101 | the bound is tight: for every delay a run uses a revoked role exactly that long after |
| RoleCache.Guard.Authorize | porjar-api/internal/middleware/auth.go:86-103 | cached role, else stored role, else refusal, with the cache filled for 60 s; a run of the protocol |
| ParticipantImport.KeysAreFaithful | porjar-api/internal/handler/import_handler.go:193-194 | cache keys of different schools or teams differ, even when names contain the separator |
| ParticipantImport.EveryRowAccounted | porjar-api/internal/handler/import_handler.go:111-370 | conservation: after any number of rows each of them is listed with its own fields or in the errors under its line, never both and never twice; a faulty row is in the errors with its own fault |
| ParticipantImport.Import.ResolveSchool | porjar-api/internal/handler/import_handler.go:192-217 | a school of that name and level, created only if there was none; no created school repeats another |
| ParticipantImport.Import.ResolveUser | porjar-api/internal/handler/import_handler.go:219-282 | the user of that NISN; a created one holds the hash of the password remembered for it, however the writes fail |
| ParticipantImport.Import.ResolveTeam | porjar-api/internal/handler/import_handler.go:284-323 | the team of that name and game, created only if there was none; no created team repeats another |
| ParticipantImport.Import.AppointCaptain | porjar-api/internal/handler/import_handler.go:325-330 | only this team, only if it is known to have no captain, gets this one |
| ParticipantImport.Import.Join | porjar-api/internal/handler/import_handler.go:332-354 | adds at most this membership; success means the user is a member |
| ParticipantImport.FaultMeans | porjar-api/internal/handler/import_handler.go:116-178 | which rows are at fault and for what, in order: parsing, six fields, level, role, contest, team name |
| ParticipantImport.ContestsMean | porjar-api/internal/handler/import_types.go:10-18 | which contest leads to which game |
| ParticipantImport.CaptainsNext | porjar-api/internal/handler/import_handler.go:306-330 | one more smooth row keeps every created team's captain its first ketua, or none |
| ParticipantImport.Import.ImportRow | porjar-api/internal/handler/import_handler.go:111-370 | a row is listed with its own fields or reported under its line with what is wrong with it; a faulty row writes nothing; a good row adds only its own records; captains stay |
| ParticipantImport.Import.ImportParticipants | porjar-api/internal/handler/import_handler.go:108-372 | data rows are exactly the listed ones and the errors, in order; created schools and teams are distinct; no captain is ever replaced; a listed password is that of the stored hash, given if and only if the import created the user; smooth runs have no errors and give every created team its first ketua for a captain |
| HeaderScan.ScanHeaders | tmp_import/import_peserta.py:98-133 | the scan ends with the recursively defined groups |
| HeaderScan.GroupsAreSound | tmp_import/import_peserta.py:98-133 | for any header row each group is a name column and the nearest ID column at most three to its right, groups are disjoint and left to right, and a group is the captain's if and only if it is the first with a player's or captain's name |
| HeaderScan.NoColumnMissed | tmp_import/import_peserta.py:104-133 | a player's or reserve's name column with an ID column in reach is in a group, and so is a captain's unless the captain was found before |
| HeaderScan.GroupsReadRight | tmp_import/import_peserta.py:104-133 | a group's headers read as a player's, captain's or reserve's name and as an ID, and the captain's not as a reserve's alone |
| FallbackNik.TakenCandidates | tmp_import/import_peserta.py:239-253 | n taken candidates are n different used IDs |
| FallbackNik.FreshNik | tmp_import/import_peserta.py:237-253 | the first candidate in neither cache nor table, within one try more than there are used IDs |
| PasswordShuffle.ShufflePermutes | porjar-api/internal/handler/import_password_handler.go:132-140 | every choice sequence keeps the multiset |
| PasswordShuffle.ShuffleInjective | porjar-api/internal/handler/import_password_handler.go:132-140 | on distinct elements different choices give different arrangements |
| PasswordShuffle.ShuffleIsABijection | porjar-api/internal/handler/import_password_handler.go:132-140 | every arrangement is reached, on distinct elements by exactly one choice sequence |
| PasswordShuffle.ShuffledIsUsable | porjar-api/internal/handler/import_password_handler.go:99-131 | eight characters, each a lower-case letter other than l and o or a digit from 2 to 9, with at least one of either, whatever is drawn |
| PasswordShuffle.EveryPasswordCanBeDrawn | porjar-api/internal/handler/import_password_handler.go:101-142 | and every such password comes out for some draws |
| PasswordShuffle.GenerateRandomPassword | porjar-api/internal/handler/import_password_handler.go:101-142 | fails if and only if a draw fails, else the shuffled characters, in place |
| CardLayout.GroupTeams | porjar-api/internal/handler/credential_pdf.go:248-257 | the cards cut in order into one-team groups that change team at each boundary; a panic if and only if the first team name is empty |
| CardLayout.OneGroupPerTeam | porjar-api/internal/handler/credential_pdf.go:237-257 | on sorted cards different groups are different teams |
| CardLayout.TilePlaced | porjar-api/internal/handler/credential_pdf.go:292-319 | each card keeps everything drawn apart, above the bottom line and in whole rows |
| CardLayout.PlaceCards | porjar-api/internal/handler/credential_pdf.go:259-320 | all cards once, in order, nothing overlapping, none below 280, no row split; every bar is on its first card's page if and only if the header leaves room for both; and each item's place follows from the one before: rows 57 apart, cards 98 apart, a bar 8 above its card, a page turned only when the next card, or bar with card, does not fit |

## Left out

- Everything behind HTTP: routing, JSON, form and CSV parsing, SQL text, logging, metrics, push messages, PDF drawing, encryption and password hashing.
- Bracket generation, Swiss pairing, standings and schedulers: that code is not part of this model; the job processor is an arbitrary answer to each call.
- Trimming of the streams: both streams are assumed to stay under their cap, which Redis enforces only approximately.
- Forward moves of the consumer group (an operator skipping entries) and consumers deleted with their pending entries.
- Entries whose ID is not the next position: stream IDs are positions in the stream.
- `SubmissionWorker.Start`'s counting of finished goroutines, and the two-second pause after a failed read, which has no effect another process sees.
- `uuid.Parse`: an identifier comes already judged empty, unparsable or parsed; the reason text of a dead letter is reduced to exhausted or shutdown.
- Lost Redis data: keys disappear only by expiry, deletion or the steps named.
- Teams, tournaments and bracket rows changing under the bracket import by other hands: the teams table is fixed while it goes on.
- The tournament's format update, `best_of` and the time of completion: a row says only whether one is set.
- Duplicate Challonge match IDs: IDs are Challonge's primary keys, and the UUIDs drawn are new and distinct.
- Go's `int` in the round arithmetic does not wrap; `strconv.Atoi` is clamped as in Go, but Python's limit on digits and its underscores in numbers are not modelled; blanks are the ASCII ones.
- Normalising names: the matching works on compact names; participants and teams are known by their place in their lists, whose order is arbitrary; floating-point rounding of a score is not modelled.
- SuperadminLock.SuperadminsSurvive: needs holders inside their lock's lifetime and no harmful unlocked write, without which it is false (`LateHolderLosesTheLast`, `StaleWriteLosesTheLast`); the coach service writes roles in the same unlocked way (porjar-api/internal/service/coach_service.go:119-131).
- Who may call: the role and delete routes admit superadmins only (porjar-api/internal/handler/admin_handler.go:76-82). The protocol lets any request arrive; the runs that lose the last superadmin respect the gate.
- Promoting a superadmin when creating a user: `Create` makes no superadmins.
- `FixedWindow` takes a sweep's check and deletion as one step, and a hit's loading, resetting and counting as one step, and clocks do not go back. The code enforces neither: a request that has loaded its bucket and counts only after the bucket was deleted is forgotten as well.
- The limiter's Retry-After and limit headers.
- JWT verification, the token blacklist, and running without Redis, when the token's own role is used; deletions of the role entry by other services only shorten its life.
- Other writers during an import, and email addresses clashing with the generated ones: both show up as failing calls.
- Trimming and case folding of CSV fields: rows come trimmed with the level in upper and the role in lower case; `lower` is a parameter that the database's LOWER is assumed to agree with; game IDs contain no separator.
- Fields of schools, teams and users that the import only fills in; users are known by NISN.
- The header fallback of `import_peserta.py` for sheets without groups, and header cells that are not text.
- The quality of random numbers; that uniform choices favour no password follows from the bijection.
- The sorting of cards and matches: the order is a parameter, and `OneGroupPerTeam` assumes equal team names adjacent.
- Page header heights are parameters of the layout, page breaks of the PDF library itself do not occur, and coordinates are real numbers.
