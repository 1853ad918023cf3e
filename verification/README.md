# CI Radar: verified models

CI Radar classifies failed CI runs. This project models five of its parts in Dafny and proves what they are for.

- **Rule matching on large logs** (`Texts`, `RegexTrees`, `RegexLaws`, `LiteralMatching`, `LogCompaction`,
  `MatchLogs`, `PrefilterLimits`). Above
  96 KiB the rules are not tried on the whole log. Literals are taken from each regular expression, an Aho–Corasick
  automaton finds the lines that contain one, and single-line expressions are tried on those lines only. Regular
  expressions are trees with a relation `Matches(e, text, i, j)`; the result is that the fast search agrees with the
  plain one, end to end from the logs to the verdict of each rule.
- **The embedded store** (`StateFiles`, `JobQueue`, `JobRuns`, `JobLaws`, `Notifications`,
  `NotificationLaws`, `NotificationRuns`, `NotificationLimits`, `Incidents`, `Retention`, `CleanupLaws`, `Slices`,
  `Stores`, `Durability`, `Normalization`, `Restarts`, `DurableRuns`).
  The state file protocol is a disk whose every step is recorded, so that a stop after any step can be followed by
  another start; which file-system operations fail is given by a plan. The store's operations are methods of a class
  that change its maps and its slices over their arrays in place and put them back when persisting fails; each is
  proved against a step function, and the properties of whole runs (lease fencing, retries, deduplication) are proved
  about those steps. `Durability` puts the store and the disk together, and
  `Restarts` follows them through any number of stops and openings. `DurableRuns` makes one run of all that, so that
  the properties of runs hold through restarts.
- **The Postgres connection pool** (`ConnectionPool`, `PoolProgress`): every channel operation, look at the closed flag and dial is
  one step of one of any number of threads, in any interleaving.
- **Diagnostic memory and scoring** (`DiagnosticMemory`, `Scoring`).
- **Benchmark measures** (`Benchmark`, `WilsonInterval`), over exact reals.

`dafny verify dfyconfig.toml` checks the project.

## What the proofs found

The models follow the code. In these places the code does less than one could expect; each has a lemma with the
exact condition or a run that shows it.

- A case-insensitive pattern with a k or an s misses a large log that spells it with the Kelvin sign or the long s,
  which the pattern itself would match: `PrefilterLimits.LiteralFoundIff`, on a log above 96 KiB in
  `PrefilterLimits.PrepareUnusual`. The other theorems carry that condition (`FoldSafe`), and ask nothing of ASCII logs.
- A pattern with text anchors is found on a large log when it matches a line taken alone. The two searches agree about a
  pattern that is tried on lines exactly when it matches a line of a full view only if it matches a full view
  (`PrefilterLimits.LinesAgreeIff`); for a literal anchored to the begin of the text that is about the lines that start
  with it (`PrefilterLimits.AnchoredAgreeIff`), and `PrefilterLimits.PrepareAnchored` has a log on which they differ.
- A cleanup forgets notifications that are older than the retention time, and with them the attempts and the cooldown.
  An outcome that is recorded when the two-minute in-flight window has passed, and the event has gone out again, takes
  the attempts back. Sends are bounded by the attempt limit exactly when the requests of an event span no more than the
  retention time and, besides, either its outcomes or all its requests come within the in-flight window
  (`NotificationLimits.SendsBoundedIff`, with the runs of `NotificationLimits.SentTwice` and
  `NotificationLimits.SentThrice`).
- The cooldown between two events with the same key holds exactly when it is within the retention time and outcomes are
  recorded before the in-flight window passes (`NotificationLimits.CooldownHoldsIff`, with the runs of
  `NotificationLimits.CleanedRivals` and `NotificationLimits.LateRivals`, and of `NotificationLimits.SlowRivals`, which
  needs no retry).
- After `close` has drained the pool and returned, a connection can become idle again, exactly when a release had
  already found the pool open: `ConnectionPool.RefillIff` and the run in `ConnectionPool.RefillHappens`.
- An open report reopens a resolved incident however old its sighting is, and a report that repeats the resolution
  replaces its time: `Incidents.StaysResolvedIff` and, for any reports, `Incidents.ResolvedThroughoutIff`.
- Opening a store whose incidents are not under their normal keys can lose some of them, exactly when two have the same
  normal key or one has the key of another: `Normalization.NoneLostIff`, and the two incidents of
  `Normalization.OneIsLost`.
- A put into a full tenant bucket evicts an entry also when it replaces one and needs no room:
  `DiagnosticMemory.PutDrops`, and the run of `DiagnosticMemory.ReplacementEvicts`.
- A confirmed diagnosis that expires between the two clock readings of one analysis comes back unconfirmed:
  `DiagnosticMemory.ConfirmationStays`, and the calls of `DiagnosticMemory.ConfirmationExpires`.
- On Windows, persisting reports an error although the new state is in place exactly when there was a state file and
  only the last operation, the removal of the file moved aside, fails: `StateFiles.Disk.Persist`, and the disk of
  `StateFiles.InstalledWithError`.

## Model

| member | source | states |
|---|---|---|
| `Texts.SplitSound` | internal/analyzer/analyzer.go:463-465 | every line of a text is a newline-free stretch of it with line ends on both sides |
| `Texts.SplitComplete` | internal/analyzer/analyzer.go:463-465 | every such stretch is one of the lines |
| `Texts.JoinSplit` | internal/analyzer/analyzer.go:405-407 | joining the lines with newlines gives the text back |
| `Texts.ByteLengthAdds` | internal/analyzer/analyzer.go:316-323 | the length that is compared with the limit: a character takes as few bytes as UTF-8 needs, and texts add up |
| `Texts.AsciiIs` | internal/analyzer/analyzer.go:316-323 | the pure ASCII texts are those of one byte for each character |
| `RegexTrees.NewlineSound` | internal/analyzer/matcher.go:188-211 | a tree that the newline analysis clears matches no span with a newline in it |
| `RegexTrees.CoverSound` | internal/analyzer/matcher.go:213-300 | whatever part the cover picks, every matched span contains, lowercased, one of its literals |
| `RegexTrees.CoverUsable` | internal/analyzer/matcher.go:213-275 | a cover is not empty and its literals are non-empty ASCII |
| `RegexTrees.MatchMoves` | internal/analyzer/matcher.go:323-332 | a match depends only on its stretch of text and, through the anchors, on what is next to it |
| `RegexTrees.MatchesInLine` | internal/analyzer/matcher.go:323-332 | a match inside a line is a match of the line alone, and conversely for trees without text anchors |
| `RegexLaws.Repetitions` | internal/analyzer/matcher.go:323-332 | star, plus and question mark are the repetitions from nothing, from one, and of at most one match |
| `RegexLaws.RepeatUnrolls` | internal/analyzer/matcher.go:323-332 | a repetition that may be nothing is nothing, or one match and a repetition with one less |
| `RegexLaws.RepeatAsks` | internal/analyzer/matcher.go:323-332 | one that asks for some is one match and a repetition that asks for one less |
| `RegexLaws.RepeatNever` | internal/analyzer/matcher.go:323-332 | one that asks for more than it allows matches nothing |
| `RegexLaws.StarIsLeast` | internal/analyzer/matcher.go:323-332 | nothing is a star but what nothing and one match before a star are |
| `RegexLaws.ConcatSplits` | internal/analyzer/matcher.go:323-332 | a concatenation splits anywhere between its parts |
| `RegexLaws.AlternateSplits` | internal/analyzer/matcher.go:323-332 | an alternation matches what one of its alternatives does |
| `RegexLaws.SinglePart` | internal/analyzer/matcher.go:323-332 | of one part, a concatenation, an alternation and a capture are that part |
| `RegexLaws.LiteralFolds` | internal/analyzer/matcher.go:323-332 | a case-insensitive letter matches its two spellings, k and s also the Kelvin sign and the long s |
| `RegexLaws.LiteralIsItself` | internal/analyzer/matcher.go:323-332 | a case-sensitive literal matches exactly itself |
| `RegexLaws.Units` | internal/analyzer/matcher.go:323-332 | which single units classes and any-character trees match |
| `RegexLaws.Positions` | internal/analyzer/matcher.go:323-332 | which positions the anchors match |
| `RegexLaws.WordBoundary` | internal/analyzer/matcher.go:323-332 | a word boundary is between a letter, digit or underscore and anything else |
| `RegexLaws.ConcatCover` | internal/analyzer/matcher.go:213-300 | a concatenation has a cover exactly when a part has: that with the longest shortest literals, and of those the fewest |
| `RegexLaws.AlternateCover` | internal/analyzer/matcher.go:213-275 | an alternation has a cover exactly when all its alternatives have: the literals of all |
| `RegexLaws.PartCover` | internal/analyzer/matcher.go:213-275 | what must occur has the cover of its part, what need not has none |
| `RegexLaws.Analyses` | internal/analyzer/matcher.go:188-211 | a tree can match a newline, is anchored or is at risk from folding exactly when an operator in it is |
| `LiteralMatching.TrieGrow` | internal/analyzer/matcher.go:51-63 | hanging a new leaf keeps the trie: one node per word, closed under dropping the last unit |
| `LiteralMatching.ChaseStep` | internal/analyzer/matcher.go:97-100 | following a failure link keeps the search for the longest suffix and strictly reduces the depth |
| `LiteralMatching.ChaseEnd` | internal/analyzer/matcher.go:97-103 | where the chase stops, the edge leads to the longest suffix of the extended text |
| `LiteralMatching.ShallowEnqueued` | internal/analyzer/matcher.go:90-108 | in breadth-first order every node no deeper than the head of the queue is already queued |
| `LiteralMatching.ChildIsNew` | internal/analyzer/matcher.go:92-108 | no node is queued twice |
| `LiteralMatching.InheritedOutputs` | internal/analyzer/matcher.go:104-106 | own outputs and those inherited over the failure link are all literals that end at the node |
| `LiteralMatching.AllFinished` | internal/analyzer/matcher.go:82-110 | when the queue is done every node has its failure link and its outputs |
| `LiteralMatching.LiteralMatcher.constructor` | internal/analyzer/matcher.go:39-80 | the automaton is complete for exactly the non-empty ASCII literals of the rules |
| `LiteralMatching.LiteralMatcher.Add` | internal/analyzer/matcher.go:42-65 | planting a literal registers it if it is usable, and nothing else; a repeated one is ignored |
| `LiteralMatching.LiteralMatcher.BuildFailures` | internal/analyzer/matcher.go:82-110 | from planted literals the pass builds all failure links and outputs |
| `LiteralMatching.LiteralMatcher.LinkChild` | internal/analyzer/matcher.go:97-106 | a child gets its failure link and its outputs, and no other node changes |
| `LiteralMatching.LiteralMatcher.Chase` | internal/analyzer/matcher.go:97-100 | the chase terminates at an edge or at the root |
| `LiteralMatching.LiteralMatcher.FindLine` | internal/analyzer/matcher.go:112-148 | the line is appended once for each registered literal that occurs in its lowercased form, and for no other |
| `LogCompaction.SelectLines` | internal/analyzer/analyzer.go:408-427 | selected are the first 64 lines, the last 96, and 4 before to 12 after each diagnostic line |
| `LogCompaction.CompactMatchLog` | internal/analyzer/analyzer.go:400-444 | the loop writes what the specification of the compacted log says |
| `LogCompaction.CompactionShape` | internal/analyzer/analyzer.go:400-444 | a large log is reduced to the selected lines in order, with one marker per gap and none at the start |
| `LogCompaction.LinesKept` | internal/analyzer/analyzer.go:400-444 | of a log over 96 KiB exactly the first 64 lines, the last 96, and those from 4 before to 12 after a diagnostic one are kept; a shorter log is kept as it is |
| `LogCompaction.NewlinesOf` | internal/analyzer/analyzer.go:400-407 | a carriage return before a newline is dropped, any other becomes a newline, nothing else changes |
| `LogCompaction.RenderSplits` | internal/analyzer/analyzer.go:429-443 | the pieces are written one after the other |
| `LogCompaction.LineWritten` | internal/analyzer/analyzer.go:429-443 | a line is written with a newline after it |
| `LogCompaction.GapWritten` | internal/analyzer/analyzer.go:429-443 | a gap is written as the marker |
| `LogCompaction.Marker` | internal/analyzer/analyzer.go:429-443 | the marker is the text about omitted lines between two newlines |
| `LogCompaction.NothingOmitted` | internal/analyzer/analyzer.go:400-444 | when every line is selected the compacted log is the log with a newline after it |
| `MatchLogs.HintIsCover` | internal/analyzer/matcher.go:165-186 | a hint's literals are the cover, have three units or more and no newline |
| `MatchLogs.HintIff` | internal/analyzer/matcher.go:165-186 | a pattern has a hint exactly when its cover has only literals of three units or more without line ends |
| `MatchLogs.PrepareMatchLogs` | internal/analyzer/analyzer.go:446-484 | the views are the distinct non-empty logs and canonical logs, and the index has every line of the full views under each literal it contains |
| `MatchLogs.ViewsAreLogs` | internal/analyzer/analyzer.go:446-484 | a pattern matches some view exactly when it matches a non-empty log or the non-empty canonical form of one |
| `MatchLogs.HintedLine` | internal/analyzer/matcher.go:323-332 | every match in a view has a line of the view with a literal of the pattern in it, which a single-line pattern matches |
| `MatchLogs.NeverMisses` | internal/analyzer/matcher.go:334-348 | on the large-log path no match in a full view is missed, whatever the pattern |
| `MatchLogs.NeverInvents` | internal/analyzer/matcher.go:334-348 | for patterns without newlines and text anchors a match on a hint line is a match in a full view |
| `MatchLogs.PrefilterExact` | internal/analyzer/matcher.go:334-348 | for these patterns the fast search finds a match exactly when some full view matches |
| `MatchLogs.RuleVerdict` | internal/analyzer/matcher.go:350-375 | the same for whole rules with patterns and excludes |
| `MatchLogs.NaiveIs` | internal/analyzer/matcher.go:350-375 | the plain verdict: some pattern matches one of the logs or its canonical form, and no exclude does |
| `MatchLogs.LargeIs` | internal/analyzer/analyzer.go:316-323 | logs are large when one of them takes more than 96 KiB |
| `MatchLogs.PrepareForRules` | internal/analyzer/analyzer.go:316-334 | end to end from the logs: a verdict says exactly that, on small logs always and on large ones for line-local patterns and excludes; otherwise no rule is lost whose excludes are line-local |
| `PrefilterLimits.LiteralFoundIff` | internal/analyzer/matcher.go:112-148 | a literal pattern is found on all large logs it matches exactly when it is case-sensitive or has no k and no s |
| `PrefilterLimits.UnusualMissed` | internal/analyzer/matcher.go:112-148 | otherwise it is missed on the large log whose last line spells it with the other runes, which the plain search finds |
| `PrefilterLimits.PrepareUnusual` | internal/analyzer/analyzer.go:316-334 | the code, given that log, prepares hints and an index with which the rule is missed |
| `PrefilterLimits.LineVerdict` | internal/analyzer/matcher.go:323-348 | a pattern with a hint and without newlines is found on large logs exactly when it matches some line of a full view, taken alone |
| `PrefilterLimits.LinesAgreeIff` | internal/analyzer/matcher.go:323-348 | whatever its anchors, the two searches agree exactly when it then matches a full view |
| `PrefilterLimits.LargeVerdict` | internal/analyzer/matcher.go:334-348 | what large logs decide about any pattern: tried on lines it must match a line alone; else it is tried on the logs and, if a line has a literal of its hint, on the compacted logs |
| `PrefilterLimits.AnchoredVerdicts` | internal/analyzer/matcher.go:323-348 | for an anchored literal the fast search asks whether a line of a full view starts with it, the plain one whether a full view does |
| `PrefilterLimits.AnchoredAgreeIff` | internal/analyzer/matcher.go:323-348 | the two agree exactly when the first implies the second |
| `PrefilterLimits.AnchoredInvents` | internal/analyzer/matcher.go:323-332 | on a large log whose last line alone is the literal they differ |
| `PrefilterLimits.PrepareAnchored` | internal/analyzer/analyzer.go:316-334 | the code, given that log, prepares hints and an index with which the rule is found although no view matches |
| `StateFiles.JournalSnoc` | internal/db/db.go:392-438 | the record of the disk grows by single steps: a file is emptied, damaged while written, completed after that, moved or dropped; no method of the disk leaves one out |
| `StateFiles.Disk.WriteSyncedFile` | internal/db/db.go:392-406 | only the temporary file is touched; success means it is whole |
| `StateFiles.Disk.Replace` | internal/db/db.go:408-413 | the target is replaced by one rename, or by the rename-aside variant |
| `StateFiles.Disk.ReplaceWithRollback` | internal/db/db.go:415-438 | the target is old, or missing while it is aside, or new; a failed rename puts it back |
| `StateFiles.Disk.BackUp` | internal/db/db.go:358-370 | success leaves a copy of the state file as the backup; the state file is not touched at any step |
| `StateFiles.Disk.Persist` | internal/db/db.go:329-376 | whenever the process stops the old state is found, or from one step on exactly the new one; it succeeds exactly when no operation fails; an error means that nothing changed at any step, except on Windows when there was a state file and only the last operation failed, and then exactly |
| `StateFiles.InstalledWithError` | internal/db/db.go:415-438 | a Windows disk that fails only that operation reports an error and has the new state |
| `StateFiles.Disk.QuarantineCorruptState` | internal/db/db.go:191-201 | the damaged state file is moved away and the good backup stays at every step |
| `StateFiles.Disk.Open` | internal/db/db.go:126-168 | the state loaded is the state file's, or the backup's when that is missing or damaged; stopped anywhere, the next start finds the same or its normalized form; the damaged file never replaces the backup |
| `StateFiles.Disk.PersistStopOpen` | internal/db/db.go:329-376 | persist, stop after any step, open in a new process: exactly the old state or exactly the new one, and without a fault it opens |
| `StateFiles.Disk.RecoverStopOpen` | internal/db/db.go:137-167 | recovery from a damaged state file, stopped after any step and started again, gives the backup's state as one of the two openings normalizes it, and without a fault it opens |
| `StateFiles.Installed` | internal/db/db.go:358-373 | while the state file is missing the backup holds the old state |
| `Durability.DurableStore.Do` | internal/db/db.go:329-376 | one call in memory and on disk: it succeeds exactly when it does not write or no operation of writing fails; whenever the process stops the disk has what it had before or what the call leaves; after an error that is what it had, except on Windows exactly when only the last operation failed |
| `Durability.DurableStore.InMemory` | internal/db/db.go:566-1622 | every modelled call leaves its target state, or the old one when persisting fails |
| `Durability.DurableStore.RunAll` | internal/db/db.go:329-376 | in any run of calls the memory and the disk go from call to call as the answers say, and without a fault every answer is success |
| `Durability.DurableStore.RunStop` | internal/db/db.go:329-376 | after any calls, and a stop after any disk step of one more, what is left on the disk is what was there when the last call was answered, or what the one under way makes of the state; between calls exactly the first |
| `Durability.FoundOnPosix` | internal/db/db.go:408-413 | on POSIX the disk has the state in memory whenever a call has been answered |
| `Durability.FoundOnWindows` | internal/db/db.go:415-438 | on Windows it may also have the state that a failed call left, and nothing was written with success since |
| `Durability.DurableStore.RunStopOpen` | internal/db/db.go:126-168 | opening that in a new process gives its normalized form, and without a fault it opens; on POSIX it is the state of the last call answered, or the one that the call under way makes of it |
| `Normalization.NormalTenantTwice` | internal/db/db.go:440-446 | normalizing a tenant twice is normalizing it once |
| `Normalization.NormalTenantIs` | internal/db/db.go:440-446 | the tenant is the text without its outer spaces in small letters, of which there is one, and "default" exactly for spaces and for that name |
| `Normalization.BareUnique` | internal/db/db.go:440-446 | a text has at most one such form |
| `Normalization.PlainTenant` | internal/db/db.go:440-446 | a name in small letters without outer spaces stays as it is |
| `Normalization.RekeyedSoFar` | internal/db/db.go:276-285 | in whatever order the incidents are visited, those visited are under their normal keys |
| `Normalization.ApartKept` | internal/db/db.go:276-285 | incidents that are apart are all kept, each with its contents under its normal key |
| `Normalization.RekeyedStem` | internal/db/db.go:276-285 | every incident afterwards is one of before, where it was or under its normal key |
| `Normalization.RekeyIs` | internal/db/db.go:276-285 | an incident moves to the key of its tenant spelled anew, with nothing else of it changed, and the others stay |
| `Normalization.NoneLostIff` | internal/db/db.go:276-285 | every order of visits keeps the number of incidents exactly when they are apart |
| `Normalization.OneIsLost` | internal/db/db.go:276-285 | two spellings of a tenant with one fingerprint leave one incident |
| `Normalization.NormalizeIncidents` | internal/db/db.go:276-285 | the loop that deletes and puts in entries is such a series of visits: all incidents end under their normal keys, and nothing changes when they were |
| `Normalization.RenumberedIsNormal` | internal/db/db.go:286-314 | the rebuilt outbox has its records under their own keys, listed once each, and none is left out |
| `Normalization.NormalOutboxStays` | internal/db/db.go:286-314 | rebuilding a normal outbox gives it back, whatever the order of the second loop |
| `Normalization.NormalizeOutbox` | internal/db/db.go:286-314 | the two loops are such a rebuilding: the outbox is normal afterwards, and unchanged when it was |
| `Normalization.RecordIs` | internal/db/db.go:286-300 | how a record is spelled anew: its tenant, and the key made of it |
| `Normalization.RecordsStem` | internal/db/db.go:286-314 | the rebuilt records are those of before spelled anew |
| `Normalization.Normalize` | internal/db/db.go:207-315 | the loops together normalize the state |
| `Normalization.NormalizedIsNormal` | internal/db/db.go:207-315 | a normalized state is normal; its outbox is well formed, as every run of notifications needs it |
| `Normalization.NormalStays` | internal/db/db.go:207-315 | normalizing a normal state changes nothing, whatever the orders of the visits |
| `Normalization.QueueKeeps` | internal/db/db.go:207-275 | a job keeps everything but the spelling of its tenant; known tenants keep their state, and the default one is added |
| `Normalization.PlainStays` | internal/db/db.go:207-314 | a state with plain tenants and everything under its key is left alone, so that no tenants are merged |
| `Normalization.PlainIncidentStays` | internal/db/db.go:276-285 | in any state, a plain incident under its key stays unless another one moves there |
| `Normalization.RecoverNormalized` | internal/db/db.go:137-167 | a recovery that is stopped after any step and started again ends with a normalization of the backup's state |
| `Restarts.NormalKept` | internal/db/db.go:566-1622 | calls with normal tenants and keys keep the state normal |
| `Restarts.RunStaysNormal` | internal/db/db.go:207-315 | in a run of them all states are normal, in memory and on the disk |
| `Restarts.Start` | internal/db/db.go:126-168 | opening whatever can be opened gives a normal state, in memory and on the disk, and succeeds without a fault |
| `Restarts.StopOpenings` | internal/db/db.go:126-168 | openings of a normal state that are stopped anywhere leave it on the disk, however many there are |
| `Restarts.Reopen` | internal/db/db.go:126-168 | opening a normal state gives exactly that state, and succeeds without a fault |
| `Restarts.RunSession` | internal/db/db.go:126-376 | stopped openings, an opening, calls, and a stop: what is left is what the answered calls, and perhaps the one under way, make of what was there; only a fault keeps the store from opening or a call from succeeding |
| `Restarts.RunSessions` | internal/db/db.go:126-376 | through any number of such sessions each starts with exactly what the one before left on the disk |
| `Restarts.PosixKeeps` | internal/db/db.go:126-376 | on POSIX nothing that was answered is lost: a session leaves the state after its last answered call, or what the one under way makes of that |
| `DurableRuns.JobsRun` | internal/db/db.go:493-856 | the calls of a store are a run of its job queue, with success of persisting as they were answered, so that every law of such runs holds of them |
| `DurableRuns.AlertsRun` | internal/db/db.go:1451-1622 | and a run of its outbox |
| `DurableRuns.OthersMean` | internal/db/db.go:861-1432 | what the other calls change, and that every call leaves the rest of the store alone |
| `DurableRuns.OneLife` | internal/db/db.go:126-376 | on POSIX any number of sessions, with stops at any step and restarts, is one run of the calls of them all, in which a call that was stopped either counts as answered or did nothing |
| `DurableRuns.EnqueuedStays` | internal/db/db.go:649-683 | in such a run a job whose enqueueing was answered stays as it was asked for, until it is over and a cleanup drops it |
| `DurableRuns.CompletedStays` | internal/db/db.go:757-784 | a job whose completion was answered is never given out again, by this process or a later one |
| `JobQueue.JobMoves` | internal/db/db.go:566-855 | every operation keeps IDs increasing and below the next one, jobs running exactly when locked, and moves each job along its life or leaves it |
| `JobQueue.KeptJobsSpec` | internal/db/db.go:1241-1247 | cleanup keeps exactly the unfinished and the recent jobs, in order |
| `JobLaws.EnqueueAdds` | internal/db/db.go:649-682 | an accepted call adds exactly the job asked for, with the next ID; which calls are accepted |
| `JobLaws.DeliveryAdds` | internal/db/db.go:566-607 | the same for the job of a delivery that is not known yet |
| `JobLaws.RecordMeans` | internal/db/db.go:483-527 | a new delivery is recorded as said, a known one never |
| `JobLaws.ClaimMeans` | internal/db/db.go:529-564 | which deliveries can be claimed, by status and age, and what a claim records |
| `JobLaws.UpdateMeans` | internal/db/db.go:609-628 | a delivery has the state it was updated to |
| `JobLaws.TaskStays` | internal/db/db.go:566-855 | through any run a job keeps its tenant, type, payload and creation |
| `JobLaws.ClaimGivesJob` | internal/db/db.go:684-728 | a claim's reply is a waiting job, which is then running with that lease, locked now, with one attempt more |
| `JobLaws.ClaimReplies` | internal/db/db.go:684-728 | what a claim is answered, by what waits |
| `JobLaws.ClaimFinds` | internal/db/db.go:684-728 | a waiting job means that one is claimed, of the smallest ID that waits |
| `JobLaws.LeaseLasts` | internal/db/db.go:730-855 | a job claimed or renewed at a time stays with its worker until it is finished with the token or jobs locked before a later time are put back |
| `JobLaws.RenewMeans` | internal/db/db.go:730-755 | a renewal locks the job anew and changes nothing else |
| `JobLaws.RequeueMeans` | internal/db/db.go:825-855 | a running job locked before the cut is put back for the next claim, all others stay |
| `JobLaws.RequeueReplies` | internal/db/db.go:825-855 | without an age nothing is put back |
| `JobLaws.EndsUse` | internal/db/db.go:757-816 | an accepted completion, or failure at the eighth attempt or later, makes the job done or failed |
| `JobLaws.NeverAgain` | internal/db/db.go:757-816 | after that no claim of the run is answered with it, and it stays so until a cleanup drops it |
| `JobLaws.FailurePutsBack` | internal/db/db.go:785-816 | an earlier failure puts the job back, claimable exactly from ten seconds times the attempts squared on |
| `JobLaws.CleanupMeans` | internal/db/db.go:1241-1300 | which jobs and deliveries a cleanup keeps |
| `JobRuns.AcceptedIffHeld` | internal/db/db.go:730-816 | renew, complete and fail are accepted exactly with the job's lease; refused, they change nothing |
| `JobRuns.ClaimChoosesSmallest` | internal/db/db.go:684-728 | a claim takes an eligible job of the smallest ID, and none only if there is none |
| `JobRuns.RunWellFormed` | internal/db/db.go:566-855 | the queue's invariant holds in every run |
| `JobRuns.UniqueAt` | internal/db/db.go:684-728 | with fresh tokens no two jobs ever share a lease |
| `JobRuns.DeadForever` | internal/db/db.go:730-816 | a token that is no job's lease is refused for the rest of the run |
| `JobRuns.LostLeaseIsDead` | internal/db/db.go:730-855 | so is one that stopped being a lease, however it did |
| `JobRuns.AtMostOneOutcome` | internal/db/db.go:757-816 | each claim has at most one accepted outcome |
| `JobRuns.RequeuedIsFenced` | internal/db/db.go:825-855 | a worker whose job was requeued as stale cannot change it any more |
| `JobRuns.LeaseOrigin` | internal/db/db.go:684-728 | a lease in force was held at the start or given by a claim in the run, and the job has the attempts of then |
| `JobRuns.ClaimBehindLease` | internal/db/db.go:684-728 | a lease that was not held at the start was given by a claim of that job, with the attempts it still has |
| `JobRuns.RetriesBounded` | internal/db/db.go:785-816 | if workers pass back their attempts, also those of leases from before the run, a job is put back by failures at most seven times in any run |
| `JobRuns.FinishedForever` | internal/db/db.go:684-855 | done and failed jobs are never touched again, and dropped IDs never return |
| `JobRuns.OnlyCleanupDrops` | internal/db/db.go:1241-1247 | a job that is gone was finished and dropped by a cleanup after its retention time |
| `JobRuns.DeliveredOnce` | internal/db/db.go:566-607 | with a clock that does not go back, a delivery enqueues one job; until a cleanup forgets it, repeating it is answered and changes nothing |
| `JobRuns.ClaimedAlone` | internal/db/db.go:529-564 | with clock readings no earlier than the claim's, who has claimed a delivery is alone with it until it is updated, forgotten, or a later claim's window has passed |
| `JobRuns.FailureBacksOff` | internal/db/db.go:785-816 | a reported failure ends the job from the eighth attempt on, and before that keeps it from being claimed for ten seconds times the attempts squared |
| `Notifications.CleanedSpec` | internal/db/db.go:1261-1273 | a cleanup drops exactly the records not touched since the cut and keeps records and order list consistent |
| `NotificationLaws.DecisionIs` | internal/db/db.go:1542-1622 | a request goes out exactly when its event is unsettled over the channel, has attempts left, and no other record of the same tenant, channel and key is in flight or within the cooldown; suppressed exactly when only that stands in the way |
| `NotificationLaws.ChannelsApart` | internal/db/db.go:1584-1604 | what goes over one channel does not keep an event from another |
| `NotificationLaws.RequestLeaves` | internal/db/db.go:1542-1622 | a request changes no record but its own, and that only as its answer says |
| `NotificationLaws.SendLeaves` | internal/db/db.go:1605-1622 | a record that goes out counts the attempt and is locked at the time |
| `NotificationLaws.SuppressLeaves` | internal/db/db.go:1598-1604 | a suppressed one says so, with the reason |
| `NotificationLaws.OutcomeLeaves` | internal/db/db.go:1451-1481 | an outcome is stored as it is under its ID or key, with the time of creation kept |
| `NotificationRuns.RunWellFormed` | internal/db/db.go:1451-1622 | records and order list are consistent in every run of requests, outcomes and cleanups |
| `NotificationRuns.SendIsClear` | internal/db/db.go:1584-1604 | a send with a cooldown and a dedupe key means that no other such record is in flight or within the cooldown |
| `NotificationRuns.FinalStays` | internal/db/db.go:1568-1583 | sent, suppressed and failed records are not sent again until an outcome is recorded or the retention time is over |
| `NotificationRuns.OutcomesPending` | internal/db/db.go:1568-1583 | while its outcome is awaited and requests come within the in-flight window, a send is the last one and its record stays |
| `NotificationRuns.SendsBounded` | internal/db/db.go:1542-1622 | if each outcome has the attempts of its send and requests or outcomes come in time, an event goes out over a channel at most max(1, maxAttempts) times, less the attempts from before the run |
| `NotificationLimits.SendsBoundedIff` | internal/db/db.go:1200-1622 | that bound holds in every run exactly when the requests span no more than the retention time, and the outcomes or else the requests come within the in-flight window |
| `NotificationLimits.SentTwice` | internal/db/db.go:1200-1319 | a run with a cleanup in which an event with one attempt goes out twice |
| `NotificationLimits.SentThrice` | internal/notifications/notifications.go:190-221 | a run with a late outcome in which an event with two attempts goes out three times |
| `NotificationRuns.ApartInFlight` | internal/db/db.go:1584-1604 | as long as no outcome is recorded for a send, an event with the same tenant, channel and key goes out no earlier than the in-flight window after it |
| `NotificationRuns.SentApart` | internal/db/db.go:1542-1622 | once a notification is recorded as sent, such an event goes out only after its cooldown or the retention time, unless yet another outcome is recorded |
| `NotificationRuns.PromptRivals` | internal/db/db.go:1542-1622 | with outcomes recorded within the in-flight window, whenever their times were read, the later of two such events goes out after its cooldown |
| `NotificationLimits.CooldownHoldsIff` | internal/db/db.go:1542-1622 | two such events go out more than the cooldown apart in every run exactly when the cooldown is within the retention time and outcomes are recorded within the in-flight window |
| `NotificationLimits.CleanedRivals` | internal/db/db.go:1200-1319 | a run with a cleanup in which they go out within the cooldown |
| `NotificationLimits.LateRivals` | internal/notifications/notifications.go:190-221 | a run with a late outcome of an earlier try in which they go out at the same time |
| `NotificationLimits.SlowRivals` | internal/db/db.go:1584-1604 | a run with a late outcome in which they go out just after the in-flight window |
| `Incidents.MergeKeepsLargest` | internal/db/db.go:1005-1033 | after any reports the counts, severity and first sighting are the extreme ones reported |
| `Incidents.MergeOrderIrrelevant` | internal/db/db.go:1005-1033 | in whatever order the reports came |
| `Incidents.MergeFields` | internal/db/db.go:1005-1033 | what a merge takes from the report, and exactly when it keeps the acknowledgement, reopens, or keeps the worse severity |
| `Incidents.AcknowledgementKept` | internal/db/db.go:1022-1026 | an acknowledgement survives every further open report |
| `Incidents.StaysResolvedIff` | internal/db/db.go:1022-1032 | a resolved incident stays so exactly when the report is itself resolved and no newer than the resolution |
| `Incidents.ResolvedThroughoutIff` | internal/db/db.go:1022-1032 | it stays so through any reports exactly when each is resolved and no newer than the resolution time of the one before it |
| `Incidents.SweepMeans` | internal/db/db.go:1403-1432 | exactly the open and acknowledged incidents last seen before the cutoff are resolved |
| `Incidents.SweepIsComplete` | internal/db/db.go:1403-1432 | after any sweeps every incident was resolved by the first one it was inactive for or is as it was, and none is left inactive for any of them |
| `Incidents.SweptReopens` | internal/db/db.go:996-1044 | open reports after a sweep open the incident again, it stays open, and no count, severity or first sighting is lost |
| `Slices.List.Filter` | internal/db/db.go:1241-1247 | the filter over the slice's own array keeps exactly the unexpired elements in order, and the rest of the array is untouched |
| `Slices.SweepRecords` | internal/db/db.go:1221-1233 | expired listed records are dropped, and the order list is filtered over its own array |
| `Slices.List.Clone` | internal/db/db.go:1207-1219 | a clone has the elements in an array of its own |
| `Slices.List.Restore` | internal/db/db.go:1304-1316 | restoring gives the clone's elements, whatever the filter left in the old array |
| `Slices.List.Append` | internal/db/db.go:649-682 | an append writes into the room that is left or into a larger copy |
| `Slices.LengthIsNotEnough` | internal/db/db.go:1207-1219 | after a filter, going back to the old length is not enough to restore a slice |
| `Retention.KeptConsistent` | internal/db/db.go:1221-1300 | records and order list stay consistent, exactly the unexpired remain, and a second cleanup finds nothing |
| `Stores.Store.EnqueueForTenant` | internal/db/db.go:649-682 | the method does the queue's step and puts everything back when persisting fails |
| `Stores.Store.EnqueueDeliveryForTenant` | internal/db/db.go:566-607 | the same, for the job and the delivery together |
| `Stores.Store.RecordDelivery` | internal/db/db.go:483-502 | the same for a received delivery |
| `Stores.Store.RecordTerminalDelivery` | internal/db/db.go:504-527 | the same for a delivery with a final state |
| `Stores.Store.ClaimDelivery` | internal/db/db.go:529-564 | the same for claiming a delivery |
| `Stores.Store.UpdateDelivery` | internal/db/db.go:609-628 | the same for its state |
| `Stores.Store.ClaimJob` | internal/db/db.go:684-728 | the same for a claim |
| `Stores.Store.RenewJobLease` | internal/db/db.go:730-755 | the same for a renewal |
| `Stores.Store.CompleteJob` | internal/db/db.go:757-783 | the same for a completion |
| `Stores.Store.FailJob` | internal/db/db.go:785-816 | the same for a failure |
| `Stores.Store.RequeueStaleJobs` | internal/db/db.go:825-855 | the same for the stale jobs, all of them |
| `Stores.Store.RecordAnalysis` | internal/db/db.go:861-908 | the analysis and its environment are recorded and records and order list stay consistent, or everything stays |
| `Stores.Store.UpsertIncident` | internal/db/db.go:996-1044 | the incident becomes its merge with the report, or everything stays when persisting fails |
| `Stores.Store.ResolveStaleIncidents` | internal/db/db.go:1403-1432 | exactly the inactive incidents are resolved and reported, or everything stays |
| `Stores.Store.RecordNotificationDelivery` | internal/db/db.go:1451-1481 | the outcome is recorded, or records and order list stay |
| `Stores.Store.FindConflict` | internal/db/db.go:1584-1597 | a reason is found exactly when some record stands in the way |
| `Stores.Store.PutRecord` | internal/db/db.go:1464-1480 | a record and its place in the order list are put in, or both are as before |
| `Stores.Store.BeginFound` | internal/db/db.go:1553-1622 | with the reason found, the decision and the new records are those of the plan, or records and order list stay |
| `Stores.Store.BeginNotificationDelivery` | internal/db/db.go:1542-1622 | the reason is that of some record, or none stands in the way; decision and records are those of the plan for it |
| `Stores.Store.Cleanup` | internal/db/db.go:1200-1319 | of all eleven collections what is not expired is kept, or, out of the clones, all are what they were although their arrays were overwritten |
| `Stores.CleanupIsAStep` | internal/db/db.go:1200-1319 | on the job queue and on the outbox a cleanup is the step that the runs are about |
| `CleanupLaws.QueueKeeps` | internal/db/db.go:1241-1247 | which jobs and deliveries stay in the store |
| `CleanupLaws.IncidentsKept` | internal/db/db.go:1274-1278 | all incidents but those resolved before the cut |
| `CleanupLaws.RecordsKept` | internal/db/db.go:1220-1273 | exactly the analyses, audit events and notifications of the retention time, consistent with their lists |
| `CleanupLaws.EnvironmentsKept` | internal/db/db.go:1234-1240 | exactly the environments of the retention time, as often as they were there |
| `CleanupLaws.ExtensionsKept` | internal/db/db.go:1284-1303 | which replay guards and revocations are kept, whatever the retention time |
| `CleanupLaws.OrderKept` | internal/db/db.go:1220-1273 | the lists are the old ones without what was dropped |
| `CleanupLaws.AnalyzedMeans` | internal/db/db.go:861-908 | recording an analysis adds its environment and lists it once |
| `CleanupLaws.MergedMeans` | internal/db/db.go:996-1044 | a report goes to the incident of its key alone: as it is, or merged with what is there |
| `ConnectionPool.AlwaysGood` | internal/db/postgres_pool.go:43-143 | in every interleaving: taken slots are idle connections plus owners, at most the pool size; every opened connection is idle, with one thread, or closed; the lock and the flags agree |
| `ConnectionPool.MoveEffect` | internal/db/postgres_pool.go:43-143 | every step of a thread has one of seven effects on slots and connections |
| `ConnectionPool.NeverStuck` | internal/db/postgres_pool.go:61-117 | giving a slot back never waits, the default branch of release is never taken, the close channel is closed once, and who waits for a slot waits for owners |
| `ConnectionPool.OpenBounded` | internal/db/postgres_pool.go:43-143 | never more open connections than slots taken, nor than the pool size |
| `ConnectionPool.NothingLeaks` | internal/db/postgres_pool.go:43-143 | with no thread in a call every slot is an idle connection and the rest are closed |
| `ConnectionPool.ClosedOnce` | internal/db/postgres_pool.go:61-143 | no connection is closed twice |
| `ConnectionPool.NoneAfterClose` | internal/db/postgres_pool.go:43-94 | once the pool is marked closed no acquire succeeds |
| `ConnectionPool.RefillIff` | internal/db/postgres_pool.go:96-143 | a drained pool can get an idle connection again exactly when a release has already found it open |
| `ConnectionPool.RefillHappens` | internal/db/postgres_pool.go:96-143 | such a state is reached by a run in which close has returned |
| `PoolProgress.OpenIsFree` | internal/db/postgres_pool.go:43-143 | in a reachable state the signal is not given before the pool is marked closed |
| `PoolProgress.AcquiresIdle` | internal/db/postgres_pool.go:43-60 | while the pool is open and something is idle, an acquire gets the connection idle for longest, and nothing is closed |
| `PoolProgress.AcquiresNew` | internal/db/postgres_pool.go:62-90 | with nothing idle and a slot free it can open a new one |
| `PoolProgress.FailedDial` | internal/db/postgres_pool.go:78-82 | when that fails the slot is free again |
| `PoolProgress.ReleaseKeeps` | internal/db/postgres_pool.go:95-117 | a healthy connection that is released becomes idle behind the others |
| `PoolProgress.ReleaseCloses` | internal/db/postgres_pool.go:95-105 | an unhealthy one is closed and its slot free again |
| `PoolProgress.ReleaseAfterClose` | internal/db/postgres_pool.go:95-105 | so is any once the pool is marked closed |
| `PoolProgress.ClosesPool` | internal/db/postgres_pool.go:124-143 | a close marks the pool and closes every idle connection |
| `PoolProgress.GoneForHealth` | internal/db/postgres_pool.go:43-117 | while the pool is not marked closed a connection is closed only after its health check failed |
| `PoolProgress.GivesUpConn` | internal/db/postgres_pool.go:53-117 | once the close is over, a thread that has a connection in an acquire or a release closes it and frees its slot |
| `PoolProgress.GivesUp` | internal/db/postgres_pool.go:43-90 | one with only a slot gives that back, and one with nothing goes |
| `PoolProgress.ClosesOnce` | internal/db/postgres_pool.go:124-129 | a second close does nothing |
| `PoolProgress.Selects` | internal/db/postgres_pool.go:43-93 | what is open to an acquire at its two selects and at its looks at the context |
| `PoolProgress.NewPoolIs` | internal/db/postgres_pool.go:25-35 | a new pool is open and empty, with the slots asked for or ten |
| `DiagnosticMemory.Memory.Get` | internal/analyzer/diagnostic_memory.go:35-56 | the answer is the live entry, and an expired one is dropped with its empty bucket |
| `DiagnosticMemory.Memory.Put` | internal/analyzer/diagnostic_memory.go:58-98 | purge, renewal of a confirmed entry, eviction of an entry with the earliest update, and the new entry |
| `DiagnosticMemory.Memory.Oldest` | internal/analyzer/diagnostic_memory.go:84-92 | the eviction loop finds an entry with the earliest update |
| `DiagnosticMemory.PutRecalled` | internal/analyzer/diagnostic_memory.go:58-98 | what is put is recalled until its time has passed, unless it renews a confirmed diagnosis |
| `DiagnosticMemory.GetChangesNothing` | internal/analyzer/diagnostic_memory.go:35-56 | what is recalled, and that looking it up changes nothing of what can be |
| `DiagnosticMemory.AppliedFields` | internal/analyzer/diagnostic_memory.go:100-112 | a recalled diagnosis gives every field it has |
| `DiagnosticMemory.PutDrops` | internal/analyzer/diagnostic_memory.go:78-97 | a put drops a live entry of another fingerprint exactly when it evicts that one |
| `DiagnosticMemory.ReplacementEvicts` | internal/analyzer/diagnostic_memory.go:84-97 | a filled bucket, a put on a known fingerprint, and the oldest entry is gone |
| `DiagnosticMemory.AlwaysKept` | internal/analyzer/diagnostic_memory.go:35-98 | in every run each tenant's bucket is within its limit and no bucket is empty |
| `DiagnosticMemory.Isolation` | internal/analyzer/diagnostic_memory.go:35-98 | what a tenant finds depends on its own calls only |
| `DiagnosticMemory.OwnIsRun` | internal/analyzer/diagnostic_memory.go:35-98 | a tenant's own calls are a run themselves |
| `DiagnosticMemory.Origin` | internal/analyzer/diagnostic_memory.go:58-98 | every entry has its time from the last put and its diagnosis from that put or an earlier confirmed one |
| `DiagnosticMemory.AuthoritativeStays` | internal/analyzer/diagnostic_memory.go:78-83 | a confirmed entry stays for its time unless it is evicted or confirmed anew |
| `DiagnosticMemory.AnalyzeWithMemory` | internal/analyzer/diagnostic_memory.go:100-112 | a recalled entry is used if it is confirmed or the finding is not sure, and sure results are stored unconfirmed |
| `DiagnosticMemory.ConfirmationStays` | internal/analyzer/diagnostic_memory.go:100-112 | recalling a confirmed entry renews it, evicts nothing, and keeps it confirmed exactly if it has not expired in between |
| `DiagnosticMemory.ConfirmationExpires` | internal/analyzer/diagnostic_memory.go:100-112 | a confirmed entry that expires during the analysis that recalled it ends unconfirmed |
| `Scoring.SortSorts` | internal/analyzer/analyzer.go:131-134 | the sort orders by absolute weight and keeps the order within a weight |
| `Scoring.SortUnique` | internal/analyzer/analyzer.go:131-134 | there is only one list that does |
| `Scoring.LeaderLeads` | internal/analyzer/analyzer.go:131-134 | a leader has the largest absolute weight and is the leftmost of those |
| `Scoring.EvidenceOf` | internal/analyzer/analyzer.go:147-169 | a rule counts with its weight unless an earlier one is of the same signal group |
| `Scoring.SortedLeader` | internal/analyzer/analyzer.go:131-134 | after the sort the first rule of any kind is the leader of that kind before the sort |
| `Scoring.ScoreRules` | internal/analyzer/analyzer.go:147-169 | each signal group counts with its first rule, the others corroborate with weight 0, and the sums are those of the evidence |
| `Scoring.RulesScoreLeaders` | internal/analyzer/analyzer.go:131-169 | the rules' score is the sum of the groups' leaders of the unsorted list |
| `Scoring.BalanceSplits` | internal/analyzer/analyzer.go:147-169 | evidence sums to its positive and negative parts, which have their signs |
| `Scoring.ScoreChange` | internal/analyzer/analyzer.go:170-197 | the evidence of the change, with its weights |
| `Scoring.ScoreSpread` | internal/analyzer/analyzer.go:198-250 | the evidence of provider, correlation, burst and environment, with their weights |
| `Scoring.EachSign` | internal/analyzer/analyzer.go:198-250 | the surroundings only add, in steps at their thresholds, and their evidence sums to that |
| `Scoring.EachChange` | internal/analyzer/analyzer.go:170-197 | without information on the change only an earlier success counts; what changed takes what it would have given, and more |
| `Scoring.Conclude` | internal/analyzer/analyzer.go:251-270 | the scores are clamped sums of the evidence; confidence and attribution are exactly those of raw score, category and competing signals |
| `Scoring.Score` | internal/analyzer/analyzer.go:130-270 | the raw score is the sum of all evidence, of its two parts, and of the groups' leaders plus the context's bonus; the primary rule is the leftmost of the largest weight; the cause named follows from these |
| `Benchmark.Evaluate` | internal/benchmark/benchmark.go:241-334 | every counter counts what it is named for, and each cell of the matrix the cases with its two labels |
| `Benchmark.MeasureCategory` | internal/benchmark/benchmark.go:490-524 | the sums over the matrix are counts over the cases: support, true and false positives, false negatives |
| `Benchmark.CategoryMetrics` | internal/benchmark/benchmark.go:490-524 | each label but UNKNOWN is measured once |
| `Benchmark.MatrixSums` | internal/benchmark/benchmark.go:279-282 | the whole matrix sums to the number of cases |
| `Benchmark.CountChooses` | internal/benchmark/benchmark.go:241-334 | counting is choosing the cases with the condition, as often as they occur |
| `Benchmark.ReportMeans` | internal/benchmark/benchmark.go:241-334 | what every counter of the report and its list of wrong cases say about the cases |
| `Benchmark.MeasuresMean` | internal/benchmark/benchmark.go:490-524 | precision and recall are shares of the predicted and the expected cases, F1 their harmonic mean |
| `Benchmark.CountersAgree` | internal/benchmark/benchmark.go:283-294 | covered and unknown cases are all cases, and support is true positives plus false negatives |
| `Benchmark.SumCounts` | internal/benchmark/benchmark.go:490-524 | over distinct categories a counter adds up to the cases that count for one of them |
| `Benchmark.RowSumCounts` | internal/benchmark/benchmark.go:279-282 | the sum of a matrix row is the number of cases with that label |
| `Benchmark.Conservation` | internal/benchmark/benchmark.go:241-373 | true positives and the UNKNOWN cell are the correct cases, false positives the covered incorrect ones, supports and UNKNOWN's row all cases |
| `Benchmark.F1Between` | internal/benchmark/benchmark.go:518-520 | F1 lies between precision and recall and is at most their mean |
| `Benchmark.MeasureBounds` | internal/benchmark/benchmark.go:516-520 | precision, recall and F1 are proportions, with F1 between the others |
| `WilsonInterval.Wilson95` | internal/benchmark/benchmark.go:526-546 | 0 ≤ low ≤ proportion ≤ high ≤ 1, the interval holds exactly what the score test does not reject, and neither clamp changes the exact value |
| `WilsonInterval.MarginOf` | internal/benchmark/benchmark.go:530-536 | what the square root is taken of gives the margin that the interval needs |
| `WilsonInterval.ScoreTest` | internal/benchmark/benchmark.go:526-546 | the interval holds exactly the values from which the proportion is no further than z standard deviations of the value itself |
| `WilsonInterval.IntervalBounds` | internal/benchmark/benchmark.go:537-545 | the interval is inside 0 and 1 around the proportion, and has an end of the scale only when that is the proportion |
| `WilsonInterval.Mirrored` | internal/benchmark/benchmark.go:526-546 | successes and failures exchanged, the interval is mirrored |
| `WilsonInterval.RootUnique` | internal/benchmark/benchmark.go:536-536 | the square root is determined by its defining equation |
| `WilsonInterval.RootMeans` | internal/benchmark/benchmark.go:536-536 | every number that is not negative is the root of its square, and a root squared gives the number back |
| `WilsonInterval.ReferenceValues` | internal/benchmark/benchmark_test.go:219-232 | the intervals for three, two and none out of three, to four places |

## Left out

- Go's regular expression parser and `Simplify`: a pattern is given as its simplified tree; nil patterns and patterns
  whose text does not parse, which get an empty hint in the source, are not part of this model.
- `canonicalMatchLog` and `isDiagnosticLine` are parameters; nothing depends on what they do.
- Texts are sequences of code points. A code point outside ASCII resets the automaton as its UTF-8 bytes do; of the
  case folding outside ASCII only the two code points that fold to ASCII letters are modelled.
- The automaton's node numbers are unbounded; the source uses 32 bits.
- PrefilterExact: does not cover patterns that can match a newline, which are also tried on the compacted views, nor
  patterns with begin-of-text or end-of-text anchors; for both `MatchLogs.NeverMisses` holds. `MatchLogs.RuleVerdict`
  and `MatchLogs.PrepareForRules` say the same of whole rules.
- JSON coding of the state: a file is whole, blank or torn, and decodes accordingly. A state file that parses but is
  refused is not part of this model, because the source decodes the backup into the same target.
- File contents that are written and flushed are kept; that a rename which was not flushed can be lost is not
  modelled.
- RecoverStopOpen: normalization is a parameter, and this theorem needs that the second opening leaves alone what the
  first one normalized; `Normalization.RecoverNormalized` proves that of the store's own.
- Normalize: tenants are normalized for ASCII; the tenants of analyses and environments, and the fields that are only
  given a default, are not modelled.
- Whether persisting succeeds is the argument `saved` of the store's methods, which `Durability.DurableStore.Do` takes
  from the disk; all times are arguments.
- Maps are values, so their clones cost nothing; copies given out of the store are not modelled. The store's lock is
  not modelled; each operation is one step.
- Do: writes the target state of the call and then runs the call in memory with the result, while the source changes the
  memory, writes what it has there and takes the change back; nothing looks at the memory in between.
- Trimming and lower-casing of identifiers and severities is taken as done, and that of tenants but for `Normalization`.
- The other mutators (environments of successful runs, provider states, users, tokens, audit) and all queries, which
  would only repeat the same shape.
- That an incident's last sighting is monotone: the source overwrites it.
- The Postgres store itself and its wire protocol; a dial and a health check succeed or fail freely. Context
  cancellation may come at any time.
- That all connections are closed once `close` returns: see `ConnectionPool.RefillIff`.
- `RememberFeedback`, which builds a confirmed entry from a verdict branch by branch.
- The observed failure line (only whether there is one), texts of the evidence, decision reasons, excerpts,
  fingerprints, and the matched environment changes, whose number is an argument.
- The order of the benchmark's categories and wrong cases, rule hits and sources, macro averages, and floating-point
  rounding; the square root is any number with its defining property.
- Rule catalogs, redaction, environment extraction, suggested actions, configuration, command line, HTTP and GitHub.
