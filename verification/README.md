# FutballManager in Dafny

A model of the core of FutballManager, a youth-football tournament manager
(a Flask application with a small JavaScript client), with proofs about it.

The centre of the model is the asynchronous task engine
(`services/task_service.py`). It is a `class` holding:

- the in-memory registry of tasks;
- the FIFO dispatch queue;
- the durable task rows.

Its methods are submission, the worker step, status transitions,
cancellation, cleanup and the queries. Each is proved against functions of
the old state. The worker threads become one atomic `Step`, and lemmas show
that:

- between steps no task is left running;
- the task counts partition the registry.

Around the engine, the model covers the tournament domain:

- **Database.** `Domain.Db` holds the tables as maps from id to record.
  Every route and service method says exactly which tables it changes and
  how.
- **Services.** The match timer and lifecycle, tournament scheduling (the
  round robin and the greedy field assignment, proved against a reference
  schedule), standings and statistics, the cache, configuration, teams and
  notifications.
- **Blueprints and `views.py`.** The route guards and updates: score
  buttons, timer toggle, re-timing after a match, the match preview,
  cascade deletes. The standings loops of `views.py`,
  `blueprints/admin.py` and `blueprints/parent.py` share one fold
  (`Standings`), proved to count exactly each team's finished matches and
  to sort the table by points, goal difference and goals, as a
  permutation. `start_tournament` counts the distinct teams its matches
  name instead of checking that each team plays. That differs from the
  intended check only when a match names a team of another tournament,
  and no modelled route produces such a match.
- **Forms, decorators, the root route and the API error classes.**
- **The client scripts.** The service worker's routing and cache
  strategies (`static/sw.js`); the reconnect back-off, subscriptions and
  commentary list (`static/js/realtime-enhanced.js`); and the helpers and
  update timers of `static/js/main.js`.

Conventions:

- **Time.** Integer seconds; tournament lengths are minutes.
- **Ids.** Fresh ids are parameters the caller guarantees unused.
- **Outcomes.** A route's answer is a `Reply`:
  - `Ok` when the change is committed;
  - `Refused(why)` when a guard answers without change;
  - `Failed` when an exception is caught after a rollback.
- **Missing scores.** A missing score is `None`. Comparing it, as Python
  would, raises, and the model gives `None` or `Failed` there.

Where the services' documentation and the code disagree, the code is
modelled. Two examples:

- The task model's constructor rejects the keywords `submit_task` passes.
- `pause_match_timer` reads the timer after setting the pause flag.

Both are described below.

## Model

| member | source | states |
|---|---|---|
| `Domain.NewTournament` | models.py:17-29 | a new tournament is planned, without start time, with 1 field, 20-minute matches and 5-minute breaks |
| `Domain.NewMatch` | models.py:38-49 | a new match is planned, without scores, with its timer paused at 0 seconds, on field 1 |
| `Domain.Rank` | models.py:21 | the lifecycle orders the statuses planned, ongoing, finished |
| `TaskService.RowAfterStatus` | services/task_service.py:86-93 | the durable row takes the new status and update time, a completion time only for `completed`, and the registry entry's error when it has one; name, owner and creation time are kept |
| `TaskService.InfoAfterRun` | services/task_service.py:48-68 | after a run the registry entry is `completed` holding the callable's result, or `failed` holding the exception's message, stamped with the run's time |
| `TaskService.RowAfterRun` | services/task_service.py:48-68 | after a run the durable row is `completed` with a completion time, or `failed` with the error message |
| `TaskService.WithStatus` | services/task_service.py:231-235 | an id is selected iff it is registered with that status |
| `TaskService.CountsPartition` | services/task_service.py:230-235 | the five per-status counts always add up to the number of registered tasks |
| `TaskService.TaskEngine.constructor` | services/task_service.py:13-21 | a new engine has an empty registry, queue and table, and satisfies the engine invariant |
| `TaskService.TaskEngine.UpdateStatus` | services/task_service.py:78-97 | an unknown id changes nothing; otherwise the registry entry gets the status and time, and an existing durable row is updated as `RowAfterStatus` says; no check of the current status |
| `TaskService.TaskEngine.Submit` | services/task_service.py:99-141 | the pending registry entry is always written; only a committed insert adds the durable row, enqueues the id and returns it |
| `TaskService.TaskEngine.Execute` | services/task_service.py:44-76 | a registered task is run whatever its status (a cancelled one too) and ends completed or failed; the owner is notified only when asked; a removed entry changes nothing |
| `TaskService.TaskEngine.Step` | services/task_service.py:31-43 | one worker iteration dequeues the oldest id (FIFO) and executes it, keeping the invariant; an empty queue changes nothing |
| `TaskService.TaskEngine.GetTaskStatus` | services/task_service.py:143-160 | `None` exactly for an unknown id, otherwise the entry's name, status, times, error and result |
| `TaskService.TaskEngine.GetUserTasks` | services/task_service.py:162-182 | only the user's rows (with the status, if given), no id twice, newest first, at most `limit`, and a row left out only when the limit is reached by rows no older than it |
| `TaskService.LatestFirst` | services/task_service.py:166-179 | the query: at most `limit` of the user's rows with the status, if given, no id twice, newest first, and a row left out only when the limit is reached by rows no older than it |
| `TaskService.TaskEngine.Cancel` | services/task_service.py:184-197 | succeeds iff the task is registered and pending; it then becomes cancelled, otherwise nothing changes |
| `TaskService.TaskEngine.Cleanup` | services/task_service.py:199-225 | removes exactly the final-status rows and entries last updated before the cutoff, keeps the others unchanged, and returns the number of deleted rows |
| `TaskService.TaskEngine.Stats` | services/task_service.py:227-246 | total and queue size are the registry's and queue's sizes, and the per-status counts partition the total |
| `TaskService.NoneRunningBetweenSteps` | services/task_service.py:44-68 | between worker steps no registered task is `running` |
| `Models.TournamentStanding.constructor` | models.py:67-78 | a new standing has every counter at its default 0 |
| `Models.TournamentStanding.UpdateFromMatch` | models.py:83-103 | an unfinished match changes nothing; a finished one adds played, goals and the win/draw/loss points as the shared table does; a missing score raises after the counters already incremented |
| `Models.TournamentStanding.AddScores` | models.py:91-103 | one scored match is added as the shared standings table scores it (played, goals, difference, win/draw/loss and points), keeping the row's invariants |
| `Models.TaskRecord.constructor` | models.py:128-131 | a new record is pending, with `data` defaulting to the empty map |
| `Models.TaskRecord.Complete` | models.py:133-135 | completed, with a completion time; the other fields are kept |
| `Models.TaskRecord.Fail` | models.py:137-140 | failed, with a completion time and the message |
| `StatsService.PlayedPlusRemaining` | services/stats_service.py:24-26 | every match is counted exactly once, as played (finished) or remaining, so the two counts add up to the total |
| `StatsService.GetTournamentStats` | services/stats_service.py:10-87 | `None` for an unknown tournament and exactly when a finished match of one of its teams lacks a score; otherwise played + remaining = total, the goal total counts finished matches only with a missing score as 0, and every team's consistent 3/1/0 row appears among the team rows, sorted by (points, goal difference, goals for) descending |
| `StatsService.Played` | services/stats_service.py:96-101 | the team's finished matches, in the given (start-time) order |
| `StatsService.Letter` | services/stats_service.py:120-133 | W, L or D exactly as the team's own score is above, below or equal to the opponent's; nothing when a score is missing (the comparison raises) |
| `StatsService.GetTeamHistory` | services/stats_service.py:89-145 | `None` for an unknown team and exactly when a finished match lacks a score; otherwise one entry per finished match in order, seen from the team's side, totals that sum the scores with a missing one as 0, and `form_last_5` = the results of the first min(5, n) matches |
| `StatsService.Tally` | services/stats_service.py:112-140 | the loop over the finished matches: `None` exactly when one lacks a score, else one entry per match in order with its result from the team's side, the two goal sums, and the first min(5, n) results as the form |
| `StatsService.GetMatchStats` | services/stats_service.py:147-183 | `None` for an unknown match or a finished one lacking a score; scores shown with a missing one as 0; a winner only for a finished match: the higher scorer's name, or `Remis` on equal scores; a duration only for a finished match |
| `SyncService.FromStats` | services/sync_task_service.py:79-89 | a standing carries the team's counters with each missing key as 0, and its points are always 3·wins + draws |
| `SyncService.Positioned` | services/sync_task_service.py:100-112 | the sorted rows, in order, with consecutive positions 1..n, one per row |
| `SyncService.BuildStandings` | services/sync_task_service.py:73-112 | one standing per team, points 3·wins + draws, sorted by (points, goal difference, goals for) descending, a permutation of the built rows, positions 1..n |
| `SyncService.StandingsTable.constructor` | services/sync_task_service.py:97 | the standings table starts empty |
| `SyncService.StandingsTable.Update` | services/sync_task_service.py:69-120 | the tournament's old standings are removed and the rebuilt ones written after the other tournaments' rows, so they are replaced, not appended |
| `SyncService.FormLetter` | services/sync_task_service.py:205-210 | `win` gives W, `loss` gives L, anything else D |
| `SyncService.CleanSheets` | services/sync_task_service.py:220 | the number of clean sheets never exceeds the number of matches; a missing opponent score counts as 0, a `None` one does not |
| `SyncService.CalculateAdvancedStats` | services/sync_task_service.py:195-225 | `None` iff there are no matches or a present score is `None` (a `sum` raises and the handler answers `None`); otherwise the form letters of the last min(5, n) matches in order, the clean-sheet count (a missing opponent score counts as 0) and n |
| `SyncService.AllAsRead` | services/stats_service.py:113-137 | one entry per history entry, in order, each read with a letter as its result and no `team_score` or `opponent_score` key |
| `SyncService.HistoryReadAsDraws` | services/sync_task_service.py:203-220 | fed a team history, every form letter is `D`, every match is a clean sheet, and no `sum` raises |
| `SyncService.AsIntended` | services/sync_task_service.py:203-220 | the entry the calculator expects: its form letter is the history's own result and it is a clean sheet exactly when no goal was conceded |
| `SyncService.LostMatchReadAsCleanDraw` | services/sync_task_service.py:203-220 | a 0:3 loss is read as a clean-sheet draw, and as intended as a loss with goals conceded |
| `MatchService.CalculateElapsed` | services/match_service.py:207-211 | a paused match reads its stored value; a running one reads the seconds since its start; the reading raises exactly when a running match has no start time |
| `MatchService.PausedAsWritten` | services/match_service.py:182-183 | the match as `pause_match_timer` leaves it: paused, with the stored elapsed time unchanged (the flag is set before the timer is read) |
| `MatchService.PauseAsWrittenKeepsStoredElapsed` | services/match_service.py:182-183 | as written, pausing only sets the flag: the stored elapsed time is read back unchanged |
| `MatchService.PauseAsWrittenLosesRunningTime` | services/match_service.py:182-183 | a match running for 100 s keeps 0 s when paused as written, and reads 0 s again after resuming |
| `MatchService.Paused` | services/match_service.py:182-183 | the intended pause: paused, with the reading taken before the flag is set stored as the elapsed time; nothing else changes |
| `MatchService.Resumed` | services/match_service.py:198-199 | unpaused, with the clock restarted at `now - elapsed_time`; nothing else changes |
| `MatchService.PauseIdempotent` | services/match_service.py:209-210 | pausing a paused match changes nothing |
| `MatchService.ResumeContinuesFromStored` | services/match_service.py:198-211 | right after a resume the timer reads the value frozen at the pause, and then advances one second per second |
| `MatchService.PauseResumeRoundTrip` | services/match_service.py:182-211 | pause at t1 and resume at t2: at t3 the timer reads the time run before the pause plus the time since the resume |
| `MatchService.CreateMatch` | services/match_service.py:40-63 | a match is created iff the tournament exists, is planned and has both teams; it is then a planned match under the new id, and otherwise nothing changes |
| `MatchService.CreateMatchAsWritten` | services/match_service.py:40-77 | as written, the call fails exactly when the match was inserted, because the notification it then schedules names a method the notification service lacks |
| `MatchService.UpdateMatchTime` | services/match_service.py:79-96 | only a planned match gets the new start time; otherwise nothing changes |
| `MatchService.UpdateMatchTimeAsWritten` | services/match_service.py:79-100 | as written, the call fails exactly when the new time was committed, since the notification call lacks its user id |
| `MatchService.StartMatch` | services/match_service.py:102-125 | only planned → ongoing, with the clock starting now; a failing notification submission leaves the committed change and fails the call; any other status changes nothing |
| `MatchService.EndMatch` | services/match_service.py:127-149 | only ongoing → finished; the notification submission as for start |
| `MatchService.UpdateScore` | services/match_service.py:151-169 | refused only for an unknown or planned match; otherwise both scores are set to the given values and nothing else changes |
| `MatchService.UpdateScoreAsWritten` | services/match_service.py:151-173 | as written, the call fails exactly when the scores were committed, since the notification call lacks its user id |
| `MatchService.PauseTimerAsWritten` | services/match_service.py:175-185 | as written, only an ongoing match is paused, and its stored elapsed time is kept as it was |
| `MatchService.PauseTimer` | services/match_service.py:175-189 | only an ongoing match is paused, storing the timer's reading; when the reading raises the call fails and nothing is stored |
| `MatchService.ResumeTimer` | services/match_service.py:191-205 | only an ongoing match with a stored elapsed time resumes, as `Resumed` says; without one the subtraction raises and nothing changes |
| `MatchService.GetMatchStatus` | services/match_service.py:213-241 | empty for an unknown match; elapsed is 0 unless the match is ongoing, and then the timer's reading (a raising reading gives the empty answer); scores, status and pause flag as stored |
| `TournamentService.Against` | services/tournament_service.py:211-212 | a team is paired with each later team, in order |
| `TournamentService.Pairs` | services/tournament_service.py:209-212 | the nested loop's pairings: both sides of every pairing are teams of the list; `PairsCount`, `PairsExactly` and `PairsWith` prove what else it lists |
| `TournamentService.PairsCount` | services/tournament_service.py:209-212 | n teams give n(n-1)/2 pairings |
| `TournamentService.PairsExactly` | services/tournament_service.py:209-212 | a pairing is generated iff it is (teams[i], teams[j]) for some i < j |
| `TournamentService.PairsWith` | services/tournament_service.py:211-212 | the inner loop builds the pairings of one team with the teams after it |
| `TournamentService.MakePairs` | services/tournament_service.py:209-212 | the nested loop builds every pairing i < j, row by row |
| `TournamentService.ArgMin` | services/tournament_service.py:230 | an index of the field times; `ArgMinLeast` proves it is the lowest-numbered least one, as `min` picks it |
| `TournamentService.ArgMinLeast` | services/tournament_service.py:230 | the chosen field has a least next-free time, and it is the lowest-numbered such field |
| `TournamentService.Uniform` | services/tournament_service.py:223-224 | one entry per field, each free at the start time |
| `TournamentService.Greedy` | services/tournament_service.py:227-245 | one slot per pairing, each on the field free first, which then becomes free a slot later; `GreedyShape`, `GreedyNotBefore` and `GreedyNoOverlap` prove it |
| `TournamentService.GreedyShape` | services/tournament_service.py:228-245 | one slot per pairing, in pairing order, each on a field in 1..F |
| `TournamentService.Schedule` | services/tournament_service.py:222-245 | the scheduling loop over the field table computes the greedy schedule from every field free at the start |
| `TournamentService.GreedyNotBefore` | services/tournament_service.py:230-231 | no match on a field starts before that field is free |
| `TournamentService.GreedyNoOverlap` | services/tournament_service.py:230-245 | a later match on the same field starts at least one slot length after an earlier one, so matches on a field never overlap |
| `TournamentService.TableClosed` | services/tournament_service.py:245 | after n equal-length placements, field j is free at start + (n div F)·d, plus d when j < n mod F |
| `TournamentService.ArgMinTable` | services/tournament_service.py:230 | with equal lengths, the field chosen after n placements is n mod F, free at start + (n div F)·d |
| `TournamentService.RoundRobinFrom` | services/tournament_service.py:228-245 | from the table after n equal placements, the greedy schedule is the round-robin one from placement n on |
| `TournamentService.RoundRobin` | services/tournament_service.py:215-245 | with every field free at the start and equal lengths, match k goes to field (k mod F) + 1 at start + (k div F)·d |
| `TournamentService.MatchOf` | services/tournament_service.py:234-241 | a generated match is planned, on the slot's field and start, with the pairing's teams and no scores |
| `TournamentService.Replaced` | services/tournament_service.py:247-253 | the tournament's old matches are gone, other tournaments' matches are untouched, and the new matches sit under fresh ids in order |
| `TournamentService.Store` | services/tournament_service.py:247-253 | the delete-then-insert loop produces the replaced table |
| `TournamentService.GenerateMatches` | services/tournament_service.py:197-266 | refused with no change for a missing or non-planned tournament, fewer than two teams or no start time; fails with no change when there is no field; otherwise the tournament's matches are replaced by the greedy schedule of all pairings |
| `TournamentService.Regenerate` | services/tournament_service.py:209-253 | pairing, scheduling and storing together give the table with the tournament's matches replaced by the greedy schedule of all pairings |
| `TournamentService.GeneratedSchedule` | services/tournament_service.py:209-245 | the generated schedule has n(n-1)/2 matches, one per pairing in pair order, each on a field in 1..F at or after the start, and the matches of a field are a slot length apart |
| `TournamentService.StartTournament` | services/tournament_service.py:100-122 | only planned → ongoing; a failing notification submission fails the call with the change committed; otherwise nothing changes |
| `TournamentService.EndTournament` | services/tournament_service.py:124-155 | only ongoing → finished, and only when none of its matches is ongoing; the notification submission as for start |
| `TournamentService.AddTeamToTournament` | services/tournament_service.py:157-172 | a team is added only to a planned tournament, with no name check |
| `TournamentService.RemoveTeamFromTournament` | services/tournament_service.py:174-195 | succeeds iff the tournament is planned and no match of any tournament involves the team; only a team of that tournament is deleted |
| `TournamentService.UpdateTournament` | services/tournament_service.py:72-98 | false with no change for an unknown tournament; otherwise exactly the given attributes change and every other tournament is untouched |
| `CacheService.Expired` | services/cache_service.py:112-117 | a key is expired iff its expiry time is at or before now |
| `CacheService.Active` | services/cache_service.py:70 | a key is active iff its expiry time is after now |
| `CacheService.Matching` | services/cache_service.py:151-158 | a key matches iff it contains the pattern as a substring |
| `CacheService.CacheKey` | services/cache_service.py:133-137 | every key starts with `prefix:name:`; the keyword arguments come in sorted key order, as `sorted(kwargs.items())` gives them |
| `CacheService.CacheKeysCollide` | services/cache_service.py:133-137 | positional and keyword arguments are joined with no separator between the groups, so the call `f("a=b")` and the call `f(a="b")` share one key |
| `CacheService.Cache.constructor` | services/cache_service.py:12-16 | both tables start empty and hold the same keys |
| `CacheService.Cache.Get` | services/cache_service.py:18-32 | a value comes back iff the key is present and now is not after its expiry (at now = expiry it is still served); a key past its expiry is removed from both tables |
| `CacheService.Cache.Set` | services/cache_service.py:34-42 | the value is stored with expiry now + `expires_in`; both tables keep the same keys |
| `CacheService.Cache.Delete` | services/cache_service.py:44-54 | the key leaves both tables; deleting an absent key changes nothing and still answers true |
| `CacheService.Cache.Clear` | services/cache_service.py:56-64 | both tables are empty |
| `CacheService.Cache.GetStats` | services/cache_service.py:66-78 | total is the number of entries; active and expired count the keys whose expiry is after, or at or before, now |
| `CacheService.Cache.CleanupExpired` | services/cache_service.py:112-124 | removes exactly the keys whose expiry is at or before now from both tables and returns their number; afterwards no key is expired |
| `CacheService.Cache.InvalidatePattern` | services/cache_service.py:151-165 | removes exactly the keys containing the pattern and returns their number; afterwards `get_keys(pattern)` is empty |
| `CacheService.Cache.GetKeys` | services/cache_service.py:167-175 | the keys containing the pattern, or every key when the pattern is absent or empty; nothing is removed |
| `CacheService.Cache.Cached` | services/cache_service.py:127-149 | a stored, unexpired value is returned without calling the function; otherwise the function's result is stored with a fresh expiry and returned |
| `CacheService.ActivePlusExpired` | services/cache_service.py:70-76 | active + expired equals the number of keys with an expiry time |
| `CacheService.StatsAfterCleanup` | services/cache_service.py:66-124 | after a cleanup the statistics report no expired entry and every key as active |
| `CacheService.SetThenGet` | services/cache_service.py:18-42 | a value set at t for e seconds is returned by `get` at any time up to t + e |
| `CacheService.ExpiryBoundary` | services/cache_service.py:18-78 | at now = expiry, `get` still serves the value while `get_stats` and `cleanup_expired` count it as expired |
| `ConfigService.DefaultSection` | services/config_service.py:11-49 | an unknown section has no defaults; the known ones carry the default table's keys and values in order |
| `ConfigService.LookupFinds` | services/config_service.py:92 | a key has a value iff some entry names it, and the value is that of an entry with the key |
| `ConfigService.SplitDots` | services/config_service.py:62 | splitting at the dots gives at least one piece and no piece contains a dot |
| `ConfigService.JoinSplit` | services/config_service.py:62 | joining the pieces with dots gives the key back |
| `ConfigService.SplitJoined` | services/config_service.py:97-112 | a dot-free section and key joined by one dot split back into exactly those two |
| `ConfigService.SplitsInto` | services/config_service.py:62-66 | for a dot-free section and key, a stored key splits into them iff it is `section.key` |
| `ConfigService.StoredOnly` | services/config_service.py:61-69 | a section's stored keys, each with the value of the last row that names it |
| `ConfigService.StoredSectionsNonEmpty` | services/config_service.py:61-69 | a section appears among the loaded ones iff it stores some key |
| `ConfigService.Load` | services/config_service.py:57-69 | the loading loop keeps exactly the stored sections, each with its stored keys and values; keys that do not split into exactly two parts are ignored |
| `ConfigService.FillSection` | services/config_service.py:75-79 | every default key missing from the section gets its default; stored keys keep their values |
| `ConfigService.DefaultKeys` | services/config_service.py:77 | a key is a default key of the section iff it has a default |
| `ConfigService.SectionOf` | services/config_service.py:71-81 | a section as reported: each default key with its stored value or else its default, plus the other stored keys |
| `ConfigService.AllOf` | services/config_service.py:71-81 | the whole configuration: every default section and every stored section, each as `SectionOf` reports it |
| `ConfigService.GetConfig` | services/config_service.py:51-81 | an unknown non-empty section gives an empty map, a known one gives that section, and no section (or the empty string) gives the whole configuration |
| `ConfigService.FillWanted` | services/config_service.py:72-79 | the default-filling loop: the stored sections plus each wanted default section, a wanted section holding its stored keys and every missing default, any other section only its stored keys |
| `ConfigService.GetConfigValue` | services/config_service.py:86-97 | a stored row for `section.key` wins over the default, and the answer is `None` only when neither exists; `ValueAgreesWithConfig` proves it agrees with `get_config` |
| `ConfigService.ValueAgreesWithConfig` | services/config_service.py:86-92 | with unique keys, `get_config_value` gives the stored value, else the default, else nothing, the same value `get_config` reports |
| `ConfigService.ConfigStore.constructor` | services/config_service.py:57 | the settings table starts empty |
| `ConfigService.ConfigStore.SetConfigValue` | services/config_service.py:97-137 | refused with nothing written for an unknown section or key or a value that is not an instance of the default's type (a bool counts as an int); otherwise the value is what `get_config_value` then reports, stored in place or appended, and every other key reads as before |
| `ConfigService.ConfigStore.UpdateSection` | services/config_service.py:139-159 | refused for an unknown section; keys that are not the section's defaults are skipped; success iff no attempted write was rejected; every accepted value is then the one reported, and every key that no accepted value names reports what it did before |
| `ConfigService.Less` | services/config_service.py:214-222 | Python's `<` on numbers (bools as 0/1) and strings; undefined (a `TypeError`) for any other pair |
| `ConfigService.CheckSection` | services/config_service.py:198-223 | the checks of one section report, in key order, a missing key, a wrong type and the range rules, or raise |
| `ConfigService.CheckSections` | services/config_service.py:194-226 | the loop over the sections collects the non-empty message lists, or raises |
| `ConfigService.ValidateConfig` | services/config_service.py:188-231 | valid iff the error table is empty iff every default key of every section is present, typed like its default and within range (`min_teams` ≥ 2, `max_teams` ≥ `min_teams`, `*_days` ≥ 1, `session_timeout` ≥ 300); a raising comparison gives invalid with one `system` message |
| `ConfigService.CleanIffAllPass` | services/config_service.py:225-228 | the error table is empty iff every default key of every section passes its checks |
| `ConfigService.SectionCleanIff` | services/config_service.py:198-226 | a section reports nothing iff every one of its default keys passes |
| `ConfigService.TableEmptyIff` | services/config_service.py:225-228 | the error table is empty iff every section reports nothing |
| `TeamService.AddRefusal` | services/team_service.py:18-31 | no refusal iff the tournament exists, is planned, the name is non-empty and no team of that tournament already has it |
| `TeamService.AddTeam` | services/team_service.py:16-51 | a missing tournament, a non-planned one, an empty name and a taken name are refused in that order with nothing written; otherwise the team is inserted; unique names per tournament are preserved |
| `TeamService.Without` | services/team_service.py:64-66 | exactly the matches in which the team is neither team 1 nor team 2, unchanged |
| `TeamService.DeleteTeam` | services/team_service.py:53-86 | refused for an unknown team, an error for a team whose tournament is missing, refused unless the tournament is planned; otherwise the team and every match involving it are deleted and nothing else changes |
| `TeamService.UpdateRefusal` | services/team_service.py:90-107 | no refusal iff the team exists, its tournament is planned, the name is non-empty and no OTHER team of the tournament has it |
| `TeamService.UpdateTeam` | services/team_service.py:88-124 | after those guards only the team's name changes; unique names per tournament are preserved |
| `TeamService.OwnNameAccepted` | services/team_service.py:101-104 | a team keeping its own current name is never refused as taken |
| `TeamService.OthersNameRefused` | services/team_service.py:101-107 | a name held by another team of the same tournament is refused as taken |
| `NotificationService.Fresh` | services/notification_service.py:74-82 | a created notification belongs to the given user, is unread, has no read time and is created now |
| `NotificationService.OfUser` | services/notification_service.py:15 | exactly the user's rows |
| `NotificationService.Unread` | services/notification_service.py:29-32 | exactly the user's unread rows |
| `NotificationService.MarkedRead` | services/notification_service.py:40-48 | only the user's unread row with that id becomes read, at now; every other row is untouched |
| `NotificationService.AllRead` | services/notification_service.py:57-63 | every unread row of the user becomes read, at now; every other row is untouched |
| `NotificationService.Kept` | services/notification_service.py:205-208 | a row stays iff it is not both read and created before the cutoff |
| `NotificationService.NewestFirstSpec` | services/notification_service.py:15-16 | the ordering holds exactly the input rows, newest first |
| `NotificationService.Window` | services/notification_service.py:19 | `offset(o).limit(l)` keeps at most `l` rows, those following the first `o` |
| `NotificationService.UserPageSpec` | services/notification_service.py:11-24 | a page holds at most `per_page` of the user's own notifications, newest first, after the `(page-1)·per_page` newer ones; the total counts all of the user's notifications |
| `NotificationService.WindowOrdered` | services/notification_service.py:19 | a window of a newest-first list is newest first |
| `NotificationService.NotificationStore.constructor` | services/notification_service.py:10 | the table starts empty with unique ids |
| `NotificationService.NotificationStore.GetUnreadCount` | services/notification_service.py:26-35 | the number of the user's unread notifications |
| `NotificationService.NotificationStore.CreateNotification` | services/notification_service.py:70-88 | appends exactly one unread notification and answers true |
| `NotificationService.NotificationStore.MarkAsRead` | services/notification_service.py:37-52 | only the user's unread notification with that id changes; true even when there is none |
| `NotificationService.NotificationStore.MarkAllAsRead` | services/notification_service.py:54-68 | afterwards the user has no unread notification and other users' notifications are unchanged |
| `NotificationService.NotificationStore.Notify` | services/notification_service.py:90-199 | as intended: false with no change for a missing match or tournament; otherwise, with the recipients being the user query's result, one notification of the event per recipient in the query's order, appended after the existing rows: a user gets a new row iff it is a user of the table, and no user gets two |
| `NotificationService.NotificationStore.NotifyAsWritten` | services/notification_service.py:103-116 | as written the user query lists nobody: the answer is whether the match or tournament exists, and nothing is added |
| `NotificationService.NotifyReachesNobody` | services/notification_service.py:90-116 | one user and an existing match: the intended call adds one row; as written the call answers true and adds none |
| `NotificationService.NotificationStore.ClearOldNotifications` | services/notification_service.py:201-221 | deletes exactly the read notifications created before `now - days`; unread ones always stay |
| `NotificationService.AllReadSpec` | services/notification_service.py:57-63 | after marking all read the user has no unread notification, and other users' notifications are unchanged |
| `NotificationService.KeptIsSubsequence` | services/notification_service.py:205-208 | deleting keeps the remaining notifications' ids unique |
| `NotificationService.MarkIdempotent` | services/notification_service.py:45-48 | marking the same notification twice changes nothing the second time |
| `NotificationService.MarkAllClears` | services/notification_service.py:26-68 | after marking all read the unread count is 0 and the user keeps every notification |
| `Standings.Judge` | models.py:96-103 | a win, draw or loss exactly as the own score is above, equal to or below the opponent's; nothing when a score is missing (the comparison raises) |
| `Standings.JudgeSwap` | blueprints/parent.py:118-137 | judging from the other side swaps wins and losses and keeps draws |
| `Standings.EmptyRow` | blueprints/parent.py:100-109 | a new row has every counter at 0 and is consistent |
| `Standings.AddMatchSpec` | blueprints/parent.py:111-138 | a match the team did not play in a finished state leaves the row as it is; a counted one adds one played match and the goals (a missing score as 0) and keeps the row consistent; it fails exactly when a counted match lacks a score |
| `Standings.FoldSpec` | views.py:837-866 | the fold counts exactly the team's finished matches, sums their goals with a missing score as 0, keeps `played = wins + draws + losses` and `points = 3·wins + draws`, and fails exactly when one of those matches lacks a score |
| `Standings.TeamRowSpec` | services/stats_service.py:36-78 | a team's row counts its finished matches, is consistent, and its goal difference is goals for minus goals against |
| `Standings.UnfinishedIgnored` | blueprints/parent.py:111-113 | a match that is not finished changes no row |
| `Standings.Table` | blueprints/admin.py:688-717 | one row per team, in team order, each the team's fold over all matches; `None` iff some team's fold raises |
| `Standings.SortSpec` | blueprints/parent.py:143 | the sorted table is ordered by (points, goal difference, goals for) descending and holds exactly the input rows |
| `Standings.ResultsTable` | views.py:816-872 | `None` exactly when a finished match of some team lacks a score; otherwise one consistent row per team, each counting exactly that team's finished matches with goals summed (a missing score as 0), sorted by (points, goal difference, goals for) descending |
| `Views.Bumped` | views.py:1222-1231 | one press changes only the pressed side: `add` gives the old score (a missing one as 0) plus one; `subtract` lowers a positive score by one and leaves 0 alone; a `subtract` on a missing score raises (`None`); a non-negative score stays non-negative |
| `Views.AddThenSubtract` | views.py:1224-1226 | `add` followed by `subtract` on the same side gives back the old score, a missing one as 0 |
| `Views.PressesKeepScoresNonNegative` | views.py:1222-1231 | whatever sequence of presses, scores that start non-negative stay non-negative |
| `Views.QuickUpdateScore` | views.py:1196-1259 | bad parameters are refused, a missing match fails and a match that is not ongoing is refused, all without change; otherwise exactly the pressed side of that match changes as `Bumped` says and the answer is both scores with a missing one as 0 |
| `Views.Toggled` | views.py:1272-1288 | the pause flag flips and the scores and status stay; a pause stores the seconds since the start; a resume with a stored time moves the start so that the running time equals the stored time, and clears it |
| `Views.ToggleRoundTrip` | views.py:1279-1288 | pausing at `t1` and resuming at `t2` leaves a running match whose running time at any later `t` is the time run before the pause plus `t - t2` |
| `Views.ToggleTimer` | views.py:1262-1310 | a missing match fails and one not ongoing is refused; a change is committed exactly for an ongoing match with a start time, and only that match changes, as `Toggled` says |
| `Views.StartMatch` | views.py:1145-1192 | the match starts exactly when its tournament is ongoing and it is planned; it becomes ongoing from now, running, with 0 elapsed; nothing else changes |
| `Views.DeleteMatch` | views.py:1439-1477 | exactly a planned match is deleted, and nothing else changes |
| `Views.EditMatch` | views.py:1480-1538 | with a working date conversion, exactly a planned match with both teams and a start given, the teams differing, is edited: teams and start replaced, the field only when given |
| `Views.LocalToUtcAsWritten` | views.py:1757-1774 | a parsed `datetime` always raises; text raises exactly when neither format parses; a returned value is `None` exactly for `None` |
| `Views.EditMatchAsWritten` | views.py:1488-1510 | the guards answer as in `EditMatch`, and every call that passes them fails, so no edit is ever saved |
| `Views.EditMatchNeverEdits` | views.py:1506-1516 | a planned match, two different teams and a start: the intended edit succeeds and the route as written fails |
| `Views.AddMatchCheck` | views.py:1036-1072 | with a working date conversion, a match is added exactly when all fields are given, the tournament exists and is not finished, a non-primary admin does not add to an ongoing one, the teams differ and both belong to the tournament |
| `Views.AddMatch` | views.py:1021-1107 | the refusal of `AddMatchCheck` changes nothing; otherwise exactly one planned match is inserted; every match playing teams of its own tournament stays so |
| `Views.AddMatchAsWritten` | views.py:1036-1044 | as written no match is ever added: a missing field is refused and any complete request fails |
| `Views.AddMatchNeverAdds` | views.py:1036-1072 | a planned tournament with teams 1 and 2: the intended route adds their match and the route as written fails |
| `Views.RetimeSpacing` | views.py:1411-1412 | consecutive re-timed starts are one slot apart, so with non-negative lengths they keep their order and do not overlap |
| `Views.RetimeAll` | views.py:1408-1412 | the k-th following match starts at `Retime(now, …, k)`; the keys stay and every other match is unchanged |
| `Views.EndMatch` | views.py:1377-1436 | exactly an ongoing match of an existing tournament ends; it becomes finished, the planned matches on its field are re-timed in start order as `Retime` says, and every other match is unchanged |
| `Views.PyMod` | views.py:1685 | Python's `%`: for a positive divisor the remainder lies in `[0, b)`, for a negative one in `(b, 0]` |
| `Views.FieldsCycle` | views.py:1663-1685 | with at least one field the `k`-th previewed field is `k mod F + 1`, always between 1 and `F` |
| `Views.ClockClosed` | views.py:1665-1684 | the `k`-th previewed match starts `k` slots after the start |
| `Views.PreviewAgainst` | views.py:1670-1685 | the inner loop adds team `t` against each later team, in order, each with the clock and field of its position |
| `Views.PreviewLoop` | views.py:1665-1686 | the nested loop lists every pair `i < j` of teams in order, each with the clock and field of its position; it raises exactly when there are no fields and at least one pair |
| `Views.GeneratePreview` | views.py:1631-1692 | with a working date conversion, refused unless planned, with two teams and a start not in the past; fails with zero fields; otherwise `n(n-1)/2` rows, the round-robin pairs in order, one slot apart, fields cycling |
| `Views.GeneratePreviewAsWritten` | views.py:1636-1660 | refused as in `GeneratePreview` when not planned, with fewer than two teams or without a start; every other request answers 500, so no preview is ever shown |
| `Views.PreviewNeverShown` | views.py:1636-1692 | a planned tournament with two teams and a start ahead: one previewed match intended, a 500 as written |
| `Views.PreviewIsSequential` | views.py:1684-1685 | consecutive previewed matches are one slot apart whatever the field, and matches `F` positions apart share a field and are `F` slots apart |
| `Views.Covered` | views.py:923-926 | a team is covered exactly when some match of the tournament plays it on either side |
| `Views.StartRefusalAsWritten` | views.py:906-930 | the written checks pass exactly for a planned tournament with two teams and some match whose matches name at least as many distinct teams as it has |
| `Views.StartRefusal` | views.py:906-931 | the intended checks pass exactly when, in addition, every team is covered; otherwise the last refusal is `UncoveredTeams` |
| `Views.CountCheckWeaker` | views.py:928 | whatever the intended check accepts, the written count check accepts |
| `Views.CountCheckExactWhenClosed` | views.py:928-930 | when matches name only the tournament's teams, the count check is the intended one |
| `Views.StartChecksAgreeWhenTeamsBelong` | views.py:906-930 | when every match plays teams of its own tournament, the matches name only the tournament's teams and the written checks decide as the intended ones |
| `Views.CountCheckMissesUncoveredTeam` | views.py:923-930 | teams {1,2,3} and matches naming {1,2,4}: the written check passes though team 3 plays nothing; the intended one refuses (a state no modelled route produces) |
| `Views.EditBreaksMembership` | views.py:1513-1516 | the intended `EditMatch`, which checks no membership, can leave a match naming a team of another tournament; as written no edit is saved |
| `Views.StartTournamentAsWritten` | views.py:898-962 | the written checks decide: a refusal changes nothing, otherwise only the tournament's status becomes ongoing |
| `Views.StartTournament` | views.py:898-963 | a tournament starts exactly when planned, with two teams, with matches and with every team covered; afterwards every team of it plays some match of it |
| `Views.EndTournament` | views.py:965-1017 | exactly an ongoing tournament becomes finished, whatever its matches' state; nothing else changes |
| `Views.Lower` | views.py:428 | the same length, with each ASCII capital replaced by its small letter |
| `Views.LastExtension` | views.py:427-428 | the part after the last dot: dot-free, a suffix of the name, preceded by a dot when shorter than the name |
| `Views.AllowedFile` | views.py:426-428 | an accepted name has a dot |
| `Views.AllowedByExtension` | views.py:425-428 | `base.ext` with a dot-free `ext` is accepted exactly when `ext` lower-cased is png, jpg, jpeg or gif |
| `Views.NoDotRejected` | views.py:428 | a name without a dot is refused |
| `Views.LowerIdempotent` | views.py:427 | lower-casing twice is lower-casing once, and keeps a name dot-free |
| `Views.CaseIgnored` | blueprints/admin.py:220-222 | the case of the extension does not change the answer (the blueprint's `allowed_file` is the same function as the views' one)  |
| `AdminPages.FieldChoices` | blueprints/admin.py:743 | the offered fields are `1, 2, ..., n` in order, none when `n <= 0` |
| `AdminPages.FieldSet` | blueprints/admin.py:649 | a field is offered exactly when it lies in `1..n` |
| `AdminPages.AddMatchRefusal` | blueprints/admin.py:746-762 | after the form a match is refused unless the tournament has two teams, is not finished, is ongoing only for a primary admin, and the teams differ |
| `AdminPages.AddMatch` | blueprints/admin.py:733-814 | a match is added exactly when the tournament exists, the form picks its teams and a field in range, and `AddMatchRefusal` lets it through; the new planned match has two different teams and a field in range; nothing changes otherwise, and matches keep playing teams of their own tournament |
| `AdminPages.AddAdmin` | blueprints/admin.py:76-113 | an administrator is added exactly when the form validates and the e-mail is unused; the new user is a non-primary admin; only the users change, and e-mails stay unique |
| `AdminPages.DeleteAdmin` | blueprints/admin.py:118-149 | exactly a user that is not the primary administrator is deleted; the primary administrator always survives unchanged |
| `AdminPages.InYear` | blueprints/admin.py:348 | the tournaments whose year is the given one |
| `AdminPages.MatchesOutside` | blueprints/admin.py:341-343 | the matches kept are exactly those of other tournaments, unchanged |
| `AdminPages.TeamsOutside` | blueprints/admin.py:344-345 | the teams kept are exactly those of other tournaments, unchanged |
| `AdminPages.DeleteYear` | blueprints/admin.py:331-372 | refused unless primary admin; the year is deleted exactly when it exists, together with its tournaments and their teams and matches, and nothing else; matches keep playing teams of their own tournament |
| `AdminPages.DropEach` | blueprints/admin.py:342-346 | the loop over the year's tournaments leaves exactly the matches and teams outside all of them |
| `AdminPages.AddTeam` | blueprints/admin.py:498-541 | a team is added exactly when the form validates and the tournament exists and is planned; only that team is inserted |
| `AdminPages.AddTeamAllowsDuplicate` | blueprints/admin.py:505-514 | the blueprint's `add_team` can leave two teams of one tournament with the same name |
| `AdminPages.DeleteTeam` | blueprints/admin.py:544-583 | exactly a team of an existing planned tournament is deleted, with every match naming it; matches keep playing teams of their own tournament |
| `AdminPages.EditTeam` | blueprints/admin.py:586-627 | a missing id or empty name is refused (any given id counts, 0 included, and one naming no team fails); exactly a team of an existing planned tournament gets the new name, and nothing else changes |
| `Api.StartTournament` | blueprints/api.py:17-38 | exactly a planned tournament starts, its status becoming ongoing and its start time now; a missing one fails; the status follows `Step`; nothing else changes |
| `Api.EndTournament` | blueprints/api.py:43-64 | exactly an ongoing tournament becomes finished, whatever its matches; a missing one fails; the status follows `Step`; nothing else changes |
| `Api.StartMatch` | blueprints/api.py:69-90 | exactly a planned match starts, ongoing from now; a missing one fails; the status follows `Step`; nothing else changes |
| `Api.EndMatch` | blueprints/api.py:95-116 | exactly an ongoing match becomes finished; a missing one fails; the status follows `Step`; nothing else changes |
| `Api.UpdateScore` | blueprints/api.py:121-149 | exactly an ongoing match with both scores given gets both scores written; a match that is not ongoing is refused before missing scores; nothing else changes |
| `Api.Step` | blueprints/api.py:20-23 | a call changes the status exactly for start on planned and end on ongoing, and then moves it one step forward |
| `Api.RunMonotone` | blueprints/api.py:46-49 | under any sequence of calls a status never moves back, a finished one stays finished, and one that ends planned started planned |
| `Api.CallOrder` | blueprints/api.py:72-101 | start then end finishes a planned object; end first is refused, so start alone applies |
| `ParentPages.FormatDatetime` | blueprints/parent.py:13-30 | a missing value shows as empty; a string that does not parse shows as given; a parsed string and a moment show through the Warsaw rendering |
| `ParentPages.EmptyOnlyForNone` | blueprints/parent.py:16-22 | with a rendering that is never empty, the filter shows nothing exactly for a missing value or an unparsable empty string |
| `ParentPages.TextAgreesWithMoment` | blueprints/parent.py:18-30 | a string that parses displays exactly as the moment it parses to |
| `Decorators.AdminRequired` | decorators.py:5-12 | the view is called exactly for an authenticated user with role `admin`; otherwise a `danger` flash and the login page |
| `Decorators.PrimaryAdminRequired` | decorators.py:14-21 | the view is called exactly for an authenticated primary user, whatever the role; otherwise a `danger` flash and the login page |
| `Decorators.ParentRequired` | decorators.py:23-30 | the view is called exactly when the session's role is `parent`; otherwise a `warning` flash and the login page |
| `Decorators.GuardsIndependent` | decorators.py:8-17 | a primary user without the admin role passes only the primary check; a non-primary admin passes only the admin check |
| `Decorators.AnonymousOnlyParent` | decorators.py:8-26 | an anonymous visitor never passes an admin check and passes the parent check exactly with a parent session |
| `MainRoutes.Index` | blueprints/main.py:6-16 | the dashboard exactly for an authenticated admin; year selection exactly for everyone else with a parent session; the login page otherwise |
| `MainRoutes.IndexAgreesWithGuards` | blueprints/main.py:9-16 | the page `index` sends a visitor to admits them, and it sends them to login exactly when both the admin and the parent guard would |
| `MainRoutes.NonAdminParentSession` | blueprints/main.py:9-14 | a logged-in non-admin with a parent session goes to year selection |
| `Errors.StatusCode` | errors.py:19-47 | validation 422, not found 404, authentication 401, authorization 403, database and configuration 500; the base class keeps its own code |
| `Errors.NewApiError` | errors.py:6-10 | a base error defaults to status 400 and no payload |
| `Errors.NewSubclassError` | errors.py:21-22 | a subclass error carries only its message, no payload |
| `Errors.ReasonPhrase` | errors.py:16 | 400 is `Bad Request`, 404 is `Not Found`; a phrase exists only for codes 100..599 and is never `Unknown error` |
| `Errors.ToDict` | errors.py:12-17 | the body has the payload's keys plus `message`, `status` and `error`; those three hold the message, the code and its phrase (else `Unknown error`) and override the payload; every other payload entry is kept |
| `Errors.SubclassBodies` | errors.py:12-47 | a subclass body has exactly the three fixed keys and a real phrase for its code |
| `Errors.SubclassPhrases` | errors.py:19-42 | the phrases are `Unprocessable Entity`, `Unauthorized`, `Forbidden` and `Internal Server Error` |
| `Errors.UnknownCodeBody` | errors.py:14-16 | a code without a phrase reports `Unknown error`, with the message and code set whatever the payload held |
| `Errors.EmptyPayloadSameAsNone` | errors.py:13 | no payload and an empty payload give the same body |
| `Forms.YearFormValid` | forms/admin.py:9-14 | a year is given and lies in 1900..the current year |
| `Forms.TournamentFormValid` | forms/admin.py:16-37 | name of 3..100 characters, address of 3..200, 1..10 fields, matches of 5..90 minutes, breaks of 1..30; `TournamentFormBounds` proves the bounds it gives the schedules |
| `Forms.TeamFormValid` | forms/admin.py:39-43 | a non-blank name of 3..100 characters; `BlankNameRefused` shows the blank case |
| `Forms.MatchFormValid` | forms/admin.py:46-63 | two teams and a field from their choice lists, a start, and different teams; `MatchFormSound` and `SameTeamRefused` prove it |
| `Forms.AdminFormValid` | forms/admin.py:65-78 | a password of at least six characters repeated exactly; `MismatchRefused` proves it |
| `Forms.TournamentFormBounds` | forms/admin.py:16-36 | a valid tournament form has 1..10 fields and a slot of 6..120 minutes |
| `Forms.BlankNameRefused` | forms/admin.py:39-43 | a name of three spaces is refused though long enough; `abc` is accepted |
| `Forms.SameTeamRefused` | forms/admin.py:61-63 | the same team on both sides is never a valid match form |
| `Forms.MatchFormSound` | forms/admin.py:46-63 | a valid match form names two different teams from the choices and a field from the choices |
| `Forms.MismatchRefused` | forms/admin.py:74-77 | a password confirmed by a different string is refused |
| `ServiceWorker.IsNetworkFirstRoute` | static/sw.js:178-180 | true iff the path starts with `/api/`, `/admin/` or `/auth/` |
| `ServiceWorker.IsCacheFirstRoute` | static/sw.js:182-184 | true iff the whole href starts with `/static/` or one of the three CDN and font origins |
| `ServiceWorker.Choose` | static/sw.js:79-101 | a request is left to the browser exactly when it is not GET or its protocol does not start with `http`; otherwise network-first exactly for the network-first paths, cache-first exactly for the cache-first hrefs among the rest, stale-while-revalidate for the others |
| `ServiceWorker.StaticPrefixNeverMatches` | static/sw.js:182-184 | an intercepted request's href starts with its protocol, so the `/static/` prefix never matches and only the three absolute prefixes decide cache-first |
| `ServiceWorker.OwnStaticAssetRevalidated` | static/sw.js:94-99 | the application's own stylesheet under `/static/` is served stale-while-revalidate |
| `ServiceWorker.AfterActivate` | static/sw.js:55-76 | activation keeps the two current caches, deletes only caches with the app's prefix, and adds none |
| `ServiceWorker.ActivateIdempotent` | static/sw.js:64-67 | activating twice is activating once, and the version cache `CACHE_NAME` is deleted |
| `ServiceWorker.Caches.NetworkFirstStrategy` | static/sw.js:104-132 | a response is returned and, when ok, stored in the dynamic cache; on a network error the dynamic entry, else the offline page for admin and tournament URLs, else the error; the static cache is untouched and only ok responses are cached |
| `ServiceWorker.Caches.CacheFirstStrategy` | static/sw.js:135-155 | a static entry is returned without the network; otherwise the network's response, stored when ok, or the error; the dynamic cache is untouched |
| `ServiceWorker.Caches.StaleWhileRevalidateStrategy` | static/sw.js:158-175 | the network is always asked and an ok response refreshes the dynamic cache; the page gets the earlier entry if any, else the response, else `null` |
| `Realtime.Backoff` | static/js/realtime-enhanced.js:104-105 | the `k`-th delay of a run of reconnects from attempt `from` is the base delay times `2^(from + k)`, up to the maximum |
| `Realtime.DefaultBackoff` | static/js/realtime-enhanced.js:10-11 | with the defaults the delays are 1, 2, 4, 8 and 16 seconds |
| `Realtime.MarkedTitle` | static/js/realtime-enhanced.js:519-524 | the title starts with the marker of the current state; `MarkedTitleSingleMarker` proves it keeps one marker |
| `Realtime.MarkedTitleSingleMarker` | static/js/realtime-enhanced.js:520-524 | a title with no marker of its own keeps exactly one marker, the current one, however the connection state changes |
| `Realtime.StatusText` | static/js/realtime-enhanced.js:564-573 | `ongoing` shows as `Live`; an unknown status shows as itself; the text is empty only for an empty status |
| `Realtime.AnimateNumberChange` | static/js/realtime-enhanced.js:275-295 | the values written go from the shown value (an unparsable text as 0) to the target one step at a time, ending at the target, as many as the distance |
| `Realtime.RealtimeClient.constructor` | static/js/realtime-enhanced.js:7-25 | five reconnect attempts from one second, no attempts made, no subscriptions |
| `Realtime.RealtimeClient.ScheduleReconnect` | static/js/realtime-enhanced.js:97-111 | nothing is scheduled once the attempts reach the maximum; otherwise the delay is the base times `2^attempts` and the attempts go up by one; nothing else changes |
| `Realtime.RealtimeClient.FailRepeatedly` | static/js/realtime-enhanced.js:81-85 | repeated connection errors wait the back-off sequence up to the maximum, and the attempts stop at the maximum |
| `Realtime.RealtimeClient.OnConnect` | static/js/realtime-enhanced.js:61-67 | the attempts start over, every stored subscription is sent again in order, and the title is marked connected |
| `Realtime.RealtimeClient.OnDisconnect` | static/js/realtime-enhanced.js:69-79 | the title is marked disconnected; a server-initiated disconnect reconnects at once, any other schedules a reconnect as `ScheduleReconnect` does |
| `Realtime.RealtimeClient.Subscribe` | static/js/realtime-enhanced.js:537-547 | a new subscription is stored whether or not connected, and sent only when connected |
| `Realtime.RealtimeClient.Unsubscribe` | static/js/realtime-enhanced.js:549-555 | the unsubscribe is sent when connected, and the stored subscriptions stay as they were |
| `Realtime.RealtimeClient.AddLiveCommentary` | static/js/realtime-enhanced.js:319-347 | nothing happens without a container; otherwise the message goes on top and the oldest item is dropped once there are more than 50 |
| `Realtime.Deleted` | static/js/realtime-enhanced.js:554 | the set's `delete` removes exactly the element equal by reference |
| `Realtime.DeleteFreshKeeps` | static/js/realtime-enhanced.js:553-554 | deleting a freshly made object removes nothing |
| `Realtime.Resent` | static/js/realtime-enhanced.js:557-561 | one subscribe message per stored subscription, in order |
| `Realtime.Capped` | static/js/realtime-enhanced.js:343-346 | at most the newest 50 items remain after one insertion, and only the oldest is dropped |
| `Realtime.SubscribeThenUnsubscribe` | static/js/realtime-enhanced.js:537-555 | an unsubscribe right after a subscribe to the same channel leaves that subscription stored |
| `MainScript.NatTextRoundTrip` | static/js/main.js:894 | the decimal text of a count reads back as the count |
| `MainScript.JsRem` | static/js/main.js:893 | JavaScript's `%`: for a non-negative dividend the usual remainder, for a negative one the negated remainder of its absolute value |
| `MainScript.PadTwo` | static/js/main.js:894 | a text of two or more characters is left as it is |
| `MainScript.SecondsText` | static/js/main.js:893-894 | the seconds part is always two digits and reads back as the seconds |
| `MainScript.FormatTime` | static/js/main.js:891-895 | `formatTime`: at least four characters, and for a non-negative count the colon is third from the end; `FormatTimeRoundTrip` proves it reads back |
| `MainScript.FormatTimeRoundTrip` | static/js/main.js:891-895 | for a non-negative count the text is `m:ss` with two second digits and reads back as the same count |
| `MainScript.NegativeTime` | static/js/main.js:891-894 | a negative count is not clamped: -5 seconds shows as `-1:-5` |
| `MainScript.IndexOf` | static/js/main.js:478 | the position of a theme in the list, -1 exactly for an unknown one |
| `MainScript.NextTheme` | static/js/main.js:473-479 | the next theme is always one of the three; a missing attribute counts as `auto` and goes to `light`, and so does an unknown theme |
| `MainScript.ThemeCycle` | static/js/main.js:477-479 | three toggles from a known theme return to it, visiting all three themes |
| `MainScript.DetectPageType` | static/js/main.js:671-681 | match updates exactly for paths with `/tournament/` and `/matches`, tournament updates for the other `/tournament/` paths, dashboard updates for the remaining `/admin/dashboard` paths |
| `MainScript.StatusText` | static/js/main.js:881-889 | the four match statuses get a non-empty label of their own; any other status shows as itself |
| `MainScript.AlertIcon` | static/js/main.js:384-392 | success shows `check-circle`, danger and warning `exclamation-triangle`, anything else `info-circle` |
| `MainScript.RealTimeUpdates.constructor` | static/js/main.js:653-662 | no timers registered and none running |
| `MainScript.RealTimeUpdates.StartUpdate` | static/js/main.js:725-736 | the key's previous timer is cleared and a new one registered under it, so a key never has two running timers |
| `MainScript.RealTimeUpdates.StartMatchUpdate` | static/js/main.js:725-738 | key `match_<id>` gets a new running timer every five seconds, replacing any earlier one |
| `MainScript.RealTimeUpdates.StartTournamentUpdate` | static/js/main.js:740-753 | key `tournament_<id>` gets a new running timer every thirty seconds, replacing any earlier one |
| `MainScript.RealTimeUpdates.StartDashboardUpdate` | static/js/main.js:755-764 | key `dashboard` gets a new running timer at the tournament period, replacing any earlier one |
| `MainScript.RealTimeUpdates.PauseUpdates` | static/js/main.js:897-901 | every timer is cleared and the registry is kept |
| `MainScript.RealTimeUpdates.StopAllUpdates` | static/js/main.js:908-913 | every timer is cleared and the registry emptied |
| `MainScript.RestartTwice` | static/js/main.js:728-732 | restarting a key twice leaves only the second timer running under it |

## Left out

- **Worker threads and queue blocking** (`_start_workers`, `_worker_loop`, the queue timeout). They are replaced by the atomic `TaskService.TaskEngine.Step`, so interleavings of several workers are not modelled.
- **The monitoring thread and its `sleep`.** Not modelled.
- **SQLAlchemy.** Sessions, queries and commits are maps. A commit failure is an `Outcome` or `bool` parameter where the code reacts to it. Elsewhere database exceptions are not modelled.
- **`models.Task`'s constructor.** It accepts only `type` and `data`, so `submit_task`'s own keywords would raise after the registry insert. `TaskService.TaskEngine.Submit` therefore takes the commit's success as a parameter. The service callers take whether the task was scheduled as a parameter too.
- **Modules that do not load.** `services/config_service.py` annotates `validate_config` with `List` (line 188), which it does not import. Defining the class therefore raises `NameError`, and the module cannot be imported. Neither can `services/cache_service.py`, which imports it (line 9). `services/sync_task_service.py` imports from `models.tournament_standing` and `extensions.database` (lines 10 and 12), but `models` and `extensions` are single modules, not packages. It also imports `TeamStats` (line 11), which `models.py` does not define. No route imports these three modules. `ConfigService`, `CacheService` and `SyncService` model their code as if the imports succeeded.
- **Record-shape mismatches.** `User` has no `is_active` column (see `Notify` below). `Notification` lacks the `title`, `created_at`, `read_at` and `related_id` that the notification service writes. `SystemSettings.value` is a text column. Each service is modelled against the record shape it uses itself.
- **Rows stored as text.** The type errors that text-stored values would cause in `validate_config` are not modelled.
- **`reset_to_default`** of the configuration service. It is not modelled.
- **The exception fallbacks** of `get_config` and `get_config_value`. Not modelled.
- **Configuration logs** (`SystemLog` rows). Not modelled.
- **Floating point.** The averages of the statistics services (`avg_goals_per_match`, `avg_per_tournament`, the advanced-statistics averages) are not modelled. Neither is `get_global_stats`, which is whole-table counts plus those averages.
- **Tournament date and address.** They play no part in any guard and are not modelled.
- **The cache's memory estimate and `log_cache_operation`.** Not modelled.
- **CacheService.Cache.Cached:** model values are never `None`. The source treats a stored `None` as a miss; the model does not capture that.
- **TournamentService.GenerateMatches:** the team ids passed in are assumed to be the tournament's teams (the query result).
- **Texts.** Flash, log and JSON message texts are not modelled. Neither are the log lines that read team names.
- **Request parsing.** Parameters arrive already parsed, a missing one as `None`.
- **Datetime and time zones.** `utc_to_local` and the zone arithmetic of `local_to_utc` are not modelled. The failure of the module-level `local_to_utc` on a parsed `datetime` is modelled (`Views.LocalToUtcAsWritten`).
- NotificationService.NotificationStore.Notify: models the evidently intended call, which notifies every user. As written the user query lists nobody (`NotificationService.NotificationStore.NotifyAsWritten`).
- Views.EditMatch: models `edit_match` with a working date conversion. As written the route fails past its guards and saves nothing (`Views.EditMatchAsWritten`).
- Views.AddMatchCheck: models the checks of the views' `add_match` with a working date conversion. As written every complete request fails before the tournament is read (`Views.AddMatchAsWritten`).
- Views.AddMatch: models the views' `add_match` with a working date conversion. As written it adds nothing (`Views.AddMatchAsWritten`). The route is not reached at all: `init_views` registers the admin blueprint first (views.py:31), and its rule serves the same URL (`AdminPages.AddMatch`).
- Views.GeneratePreview: models the preview with a working date conversion. As written every request that passes the first three guards answers 500 (`Views.GeneratePreviewAsWritten`).
- **ParentPages.FormatDatetime:** the Warsaw-time formatting and the `fromisoformat` parsing are parameters.
- **The preview's persistence branch** (`views.py`, after the preview is returned). Only the preview itself is modelled.
- **Views.Lower:** only ASCII letters are lower-cased, unlike Python's full Unicode `lower`.
- **Forms.** `Blank` uses ASCII whitespace only. The e-mail syntax check of `AdminForm` is not modelled.
- **The broadcast queue** (`match_updates.put`, `broadcast_match_update`). Not modelled.
- **Views.EndMatch:** it takes the start-ordered query result as a parameter, constrained by `Queue`.
- **The service worker's other handlers.** The `install`, `push`, `sync`, `notificationclick` and `message` handlers and the offline page's HTML are not modelled.
- **ServiceWorker.Caches.StaleWhileRevalidateStrategy:** the background cache update is applied at once.
- **JavaScript object-prototype keys** (`statusTexts["constructor"]`). Not modelled.
- **Browser-side effects.** DOM, sockets, sounds, notifications and charts are not modelled.
- **`connect()`'s check for an already open socket.** Not modelled.
- **Errors.ReasonPhrase:** the table is werkzeug's. It says "Unprocessable Entity" for 422, where section 15.5.21 of RFC 9110 says "Unprocessable Content".
- **Thin `submit_task` wrappers.** The export, archive, report, maintenance and notification-task services are not modelled.
- **Other services.** The user, role, logging and log services are not modelled.

## Findings

| source | as written | input that shows it | evidently intended | confidence | as-written member | corrected member |
|---|---|---|---|---|---|---|
| services/match_service.py:182-183 | `pause_match_timer` sets `is_timer_paused` before reading the timer, so the reading returns the stored value and the running time is lost | an ongoing match started at 0 with elapsed 0, paused at 100: it stores 0, and after resuming it reads 0 | read the timer first, then set the flag, so the stored value is the time run | not executed | `MatchService.PauseAsWrittenLosesRunningTime` | `MatchService.PauseResumeRoundTrip` |
| services/match_service.py:40-77 | after committing, `create_match` calls `notify_match_created`, which the notification service does not define; the `AttributeError` is caught and the call answers failure after committing the match | any planned tournament with two teams: the match is committed and the call answers failure | report success once the match is committed | not executed | `MatchService.CreateMatchAsWritten` | `MatchService.CreateMatch` |
| services/match_service.py:151-173 | `update_score` calls `create_notification` without its `user_id` after committing, so it raises and reports failure for scores it has saved | any ongoing match and two scores | report success once the scores are committed | not executed | `MatchService.UpdateScoreAsWritten` | `MatchService.UpdateScore` |
| views.py:1509-1510 | `edit_match` parses the start itself and hands the `datetime` to `local_to_utc`, whose `strptime` raises; its handler raises again on `app`, which exists only inside `init_views`; the route's handler reports an error | a planned match, teams 2 and 1, a start: an error is flashed and the match is unchanged | convert the parsed start and save the edit | not executed | `Views.EditMatchNeverEdits` | `Views.EditMatch` |
| views.py:1043-1044 | the views' `add_match` makes the same call, so every complete request fails before any other check | a planned tournament with teams 1 and 2, a start: an error instead of a new match | convert the parsed start and add the match | not executed | `Views.AddMatchNeverAdds` | `Views.AddMatch` |
| views.py:1655-1656 | the preview makes the same call; what it raises is not the `ValueError` the inner handler expects, so the outer handler answers 500 | a planned tournament with two teams and a start ahead: 500 instead of one previewed match | convert the parsed start and show the preview | not executed | `Views.PreviewNeverShown` | `Views.GeneratePreview` |
| services/notification_service.py:103 | `User` has no `is_active` column, so `filter_by(is_active=True)` compares the mixin's `is_active` property with `True`; that is `False`, the query's condition is false, and the loop notifies nobody | one user and an existing match: the call answers true and adds no notification | notify every user (the mixin reports every user active) | not executed | `NotificationService.NotifyReachesNobody` | `NotificationService.NotificationStore.Notify` |
| services/sync_task_service.py:203-220 | `_calculate_advanced_stats` reads `result` as `win`/`loss` and the scores under `team_score` and `opponent_score`, but `get_team_history` (services/stats_service.py:113-137) writes the letters `W`/`L`/`D` and the keys `goals_scored` and `goals_conceded` | a 0:3 loss: read as a draw and a clean sheet | read the history's own keys | not executed | `SyncService.HistoryReadAsDraws` | `SyncService.AsIntended` |
