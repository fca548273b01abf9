# Envelope in Dafny

A model of the parts of the Envelope mail client whose correctness rests on an argument rather
than on a library: the header-thread walk, the file-name matcher, the edit distance, bulk IMAP
moves, the crash-safe restore, two concurrency protocols, attribution of outgoing mail, and the
readers and printers of several text formats. The loops are methods over the state they change;
protocols are state machines whose steps may come in any order and may fail or crash.

`dafny verify dfyconfig.toml` checks everything.

| file | what it models |
|---|---|
| `Glob.dfy` | the `*`/`?` matcher for attachment names, against the recursive meaning of a pattern |
| `EditDistance.dfy` | the two-row Levenshtein loop, against the recursive distance and against edit scripts |
| `HeaderThreads.dfy` | thread expansion over Message-ID links that may be cyclic, and its two bounded walks |
| `ThreadIds.dfy` | at which message a thread id is taken, and when two messages get the same one |
| `SequenceSet.dfy` | UID sets as IMAP sequence-sets, and chunks |
| `BulkImap.dfy` | bulk copy, move and delete against a server on which any command may fail |
| `RestoreJournal.dfy` | the write-ahead journal of a restore, its loader and planner, over runs with crashes |
| `ArchivePaths.dfy` | folder slugs, canonical message paths, the manifest check |
| `KeyedLock.dfy` | the self-cleaning table of weak locks |
| `Outbox.dfy` | the push outbox: leases, retries, one process or many |
| `OutboxRaces.dfy`, `OutboxAttempts.dfy` | several processes on one outbox: when they collide, and how many attempts they add up to |
| `EncodedWords.dfy` | the RFC 2047 scanner and the Q encoding |
| `Calendar.dfy` | the iCalendar feed: content lines, text escapes, folding |
| `Attribution.dfy`, `ScheduledSend.dfy` | resolving declared attributes, and the declaration a queued draft carries |
| `ParserRegistry.dfy` | learned parsers: promotion, rollback, layouts, lookup |
| `SearchQuery.dfy`, `CsvIndex.dfy` | the search-query compiler and the CSV index, each with a reader of its grammar |
| `Text.dfy`, `Ordering.dfy`, `Wrappers.dfy` | decimal and hexadecimal numbers, splitting, trimming, replacing; sorted listings; options |

## Where the code and its intent part

Each item names the lemma that shows it. Where a condition decides whether the code does what it is
for, the lemma is an equivalence.

* The matcher compares characters before it looks for a star, so a pattern star that meets a `*`
  in the text is spent on it. It is right for every pattern exactly when the text holds no `*`
  (`Glob.ExactIffNoStarInText`), and for every text exactly when the pattern holds none
  (`Glob.ExactIffNoStarInPattern`).
* A thread id is that of the message where the climb along first parents settles: the first one
  without a parent or on a cycle (`ThreadIds.SettleExact`). A reply has the id of its first parent
  unless the two sit on one cycle of references, where each member has its own
  (`ThreadIds.SameIdAsFirstParent`), and may well have another id than a second message it names
  (`ThreadIds.SameIdAsOtherParent`, `ThreadIds.OtherParentOtherId`).
* UID 0 has no form in the grammar of sequence-sets (`SequenceSet.CoalesceUids`).
* Moving a folder onto itself while naming a UID not yet assigned lets a copy take that UID and be
  expunged with its message. A bulk move of one chunk keeps every message, whatever fails and
  whatever takes effect, exactly when no copy the batch makes is given a UID of the chunk
  (`BulkImap.SelfChunkExact`), and a longer one may lose a message as soon as one of its chunks may
  (`BulkImap.SelfCallLoses`) or when a copy of an earlier chunk moves the UIDs that a later one is
  given (`BulkImap.EarlierCopyDecides`). Over any bulk call conservation is proved when the two
  folders differ or no target is among the next 2n UIDs of the folder, n being the number of
  targets (`BulkImap.ImapClient.Execute`).
* White space between encoded words is dropped only if it begins with a space or a tab, so a line
  folded right after a word keeps its break (`EncodedWords.WordsConcatenate`), and an introducer
  that begins no word ends decoding (`EncodedWords.BrokenWordStops`).
* The charset of an encoded word is parsed and not used: whatever it names, the octets are read as
  UTF-8 (`EncodedWords.CharsetIgnored`). The round trips are those of UTF-8 and US-ASCII words.
* A compiled search query is readable by the grammar exactly when its strings are 7-bit, its
  keywords atoms and its dates dates; the code checks less (`SearchQuery.QueryReadsBack`).
* Only declared keys are checked against exclusive partners: the submitted set is free of such
  pairs exactly when the derived facts are (`Attribution.PairFreeIffDerivedIs`).
* A human's draft does not stay one when a bot declares on it: whatever the history, its origin is
  human exactly while no bot's declaration stands, which the next edit takes away
  (`ScheduledSend.HumanOriginExact`).
* The outbox's closing update checks no state, and its lease is 120 seconds from the clock of the
  pass. While a process sends a job, and wherever the others are in their passes, another can come
  to send it too exactly when the lease is over in time and one of three things holds: the job has
  not expired by then; some process is in a pass that read the clock after the lease and before the
  job expires; or some process has the job in its queue from an earlier pick while yet another can
  take it back (`OutboxRaces.SecondSenderExact`, with runs of the last two in
  `OutboxRaces.OldReadingCollides` and `OutboxRaces.OldPickCollides`). Under the same condition an
  accepted row can be queued again by the slow sender, unless it had picked its last attempt
  (`OutboxRaces.OverwriteExact`), and the row can become final under its sender exactly when the
  lease is over in time (`OutboxRaces.FinalUnderSenderExact`).
* The lease checks neither attempts nor back-off, so a row picked by several processes before the
  first send is sent by each of them. With n processes whose sends end in time a row sees at most
  n + 4 attempts, and for every n that many are reached (`OutboxAttempts.AttemptsBounded`,
  `OutboxAttempts.BoundReached`); five is the bound for one process only.

## Premises

COPY is all or nothing (section 6.4.7 of RFC 3501), though its answer may be lost. STORE and
EXPUNGE may take effect on any part of their UIDs whatever they answer, because the program drains
their responses unread. Journal lines are written whole. A manifest key occurs once, which
`ArchivePaths.ValidateManifest` establishes. Messages of one folder have distinct UIDs where
thread ids are compared. Folder names are compared as written: two spellings of one mailbox, as
`INBOX` and `inbox`, count as two folders and must not be mixed in a call. Dates formatted for a
calendar have a year from 0 to 9999, so no sign is printed. Row and version ids drawn or hashed
are distinct for distinct things. Date, URL, regular-expression, base64 and UTF-8 routines are
parameters; where a theorem needs a property of one, it is a stated precondition.

## Model

| member | source | states |
|---|---|---|
| Glob.GlobMatch | crates/email/src/evidence.rs:1483-1511 | the matcher's loops end; what it accepts matches; without a `*` in the text, or without one in the pattern, it accepts exactly the matches |
| Glob.SearchSound | crates/email/src/evidence.rs:1491-1510 | from any state of the loop, acceptance means an open match, whatever the text holds |
| Glob.EarlierStarAbsorbed | crates/email/src/evidence.rs:1495-1502 | a match that restarts an earlier star is also a match from where the newer star was met, so the last star is enough |
| Glob.SearchExact | crates/email/src/evidence.rs:1491-1510 | without a `*` in the text the loop accepts from a state exactly when some match is still open |
| Glob.ExactIffNoStarInPattern | crates/email/src/evidence.rs:1492-1498 | the matcher is right for every text if and only if the pattern holds no `*` |
| Glob.ExactIffNoStarInText | crates/email/src/evidence.rs:1492-1498 | the matcher is right for every pattern if and only if the text holds no `*` |
| EditDistance.Levenshtein | crates/email/src/governor_catalog.rs:196-216 | the two rows overwritten and swapped compute the recursive distance |
| EditDistance.Symmetric | crates/email/src/governor_catalog.rs:196-216 | the distance is symmetric |
| EditDistance.ZeroIffEqual | crates/email/src/governor_catalog.rs:196-216 | the distance is zero exactly on equal strings |
| EditDistance.Triangle | crates/email/src/governor_catalog.rs:196-216 | the triangle inequality |
| EditDistance.NoShorterScript | crates/email/src/governor_catalog.rs:196-216 | no sequence of single-character edits is shorter than the distance |
| EditDistance.ScriptExists | crates/email/src/governor_catalog.rs:196-216 | a sequence of exactly that many edits exists |
| EditDistance.NearestKeysPositions | crates/email/src/governor_catalog.rs:133-138 | the suggestions are exactly the catalog keys within the bound, at increasing catalog positions |
| HeaderThreads.ExtractMessageIds | crates/email/src/evidence.rs:1141-1157 | every id is a bracketed stretch, all of them in order; a value without one yields nothing when it is blank, else itself without its surrounding white space |
| HeaderThreads.BracketedIdsAreSpans | crates/email/src/evidence.rs:1141-1157 | an id is found exactly if it is a bracketed stretch with no bracket inside |
| HeaderThreads.ParentIdsAreNamed | crates/email/src/evidence.rs:1127-1139 | the parent ids of a message are exactly those its References and In-Reply-To name, bracketed or bare |
| HeaderThreads.ParentIdsInOrder | crates/email/src/evidence.rs:1127-1139 | an id named by an earlier References value comes before one named later, and In-Reply-To comes last |
| HeaderThreads.OwnerResolves | crates/email/src/evidence.rs:1000-1007 | an id resolves to the last of the messages in UID order that bear it, if any does |
| HeaderThreads.BuildLinks | crates/email/src/evidence.rs:1000-1028 | the parent and child tables hold exactly the header links, and every unresolved id named by a match is recorded |
| HeaderThreads.Walk | crates/email/src/evidence.rs:1040-1092 | for any seed order and any cyclic graph the walk ends, reaches only linked messages, all of them when the limit flag stays false, never exceeds max(matched, bound), and a flag set means a linked UID was kept out |
| HeaderThreads.ClosedHoldsPaths | crates/email/src/evidence.rs:1040-1092 | a set closed under the links holds the end of every path from its sources |
| HeaderThreads.Collect | crates/email/src/evidence.rs:1029-1102 | the listing holds the matched and linked messages, each tagged match, else ancestor, else descendant |
| HeaderThreads.ExpandHeaderThreads | crates/email/src/evidence.rs:995-1125 | the whole expansion: complete when no limit warning is given, an adjacent message left out when one is; a warning for every id a match names and no message bears, under the first match that names it; a match that replies to a bare id brings in the message that bears it, and both get its id; two unlinked messages without a Message-ID get different ids |
| HeaderThreads.ThreadIdFor | crates/email/src/evidence.rs:1159-1186 | the climb along first parents ends and yields the id of the message it settles at, else the message's own, else `uid:` and its decimal UID |
| HeaderThreads.ThreadIdThreads | crates/email/src/evidence.rs:1159-1186 | a reply whose only parent names none gets the id of that parent, a message that names none its own, or `uid:` and its UID |
| ThreadIds.SettleExact | crates/email/src/evidence.rs:1164-1177 | the climb settles exactly at the first message upwards that has no parent or is on a cycle |
| ThreadIds.OnCycleSettlesAtItself | crates/email/src/evidence.rs:1164-1177 | on a cycle of first parents every message settles at itself |
| ThreadIds.SettlesWithParent | crates/email/src/evidence.rs:1164-1177 | a message settles where its first parent does if and only if they are not on a cycle, or it is its own parent |
| ThreadIds.SameIdExact | crates/email/src/evidence.rs:1159-1186 | two messages that name a parent or are named as one get the same id if and only if they settle at the same message |
| ThreadIds.SameIdAsFirstParent | crates/email/src/evidence.rs:1159-1186 | a reply gets the id of its first parent if and only if they are not on a cycle, or it is its own parent |
| ThreadIds.SameIdAsOtherParent | crates/email/src/evidence.rs:1159-1186 | off every cycle a reply gets the id of any parent if and only if that parent settles where the first one does |
| ThreadIds.OtherParentOtherId | crates/email/src/evidence.rs:1159-1186 | a reply whose References and In-Reply-To name two roots gets the id of the first and not that of the second |
| HeaderThreads.BoundedThreadFetchCandidates | crates/email/src/evidence.rs:395-416 | the smallest unloaded UIDs, as many as the bound allows, and a flag that says exactly whether any was left out |
| SequenceSet.CoalesceSorted | crates/email/src/bulk.rs:281-299 | the loop yields the maximal runs, and `end + 1` never leaves 32 bits |
| SequenceSet.CoalesceUids | crates/email/src/bulk.rs:277-301 | read by section 9 of RFC 3501 the printed set denotes exactly the UIDs in the fewest ranges, if and only if there is a UID and none is 0 |
| SequenceSet.ApartIsFewest | crates/email/src/bulk.rs:277-301 | no list of ranges for the same numbers is shorter than ranges that do not touch |
| SequenceSet.PrintedReadsBack | crates/email/src/bulk.rs:290-300 | the reader of the grammar recovers the printed ranges exactly when none starts at 0 |
| SequenceSet.ChunkUids | crates/email/src/bulk.rs:303-308 | the chunks, in order, list each UID once, all but the last exactly 200 to a chunk |
| BulkImap.CopyConserves | crates/email/src/bulk.rs:55-61 | COPY keeps the conservation invariant and every UID given then has its copy |
| BulkImap.FlagConserves | crates/email/src/bulk.rs:63-71 | flagging copied targets keeps it, whatever part of them the server flagged |
| BulkImap.RemoveConserves | crates/email/src/imap.rs:239-278 | expunging flagged messages keeps it, by UID EXPUNGE or by a bare EXPUNGE |
| BulkImap.MoveConserves | crates/email/src/bulk.rs:42-78 | COPY, STORE and EXPUNGE together keep it, however much of the last two takes effect, and every UID given is delivered |
| BulkImap.SelfMoveExact | crates/email/src/bulk.rs:42-78 | moving a folder of distinct messages onto itself keeps each of them, whatever takes effect, if and only if no copy of a protected message is given a UID the move names |
| BulkImap.SelfChunkExact | crates/email/src/bulk.rs:374-397 | a bulk move of one chunk of distinct messages within a folder keeps each, over every pattern of failures, partial effects and retries, if and only if no copy the batch makes of a protected message is given a UID of the chunk |
| BulkImap.SelfCallLoses | crates/email/src/bulk.rs:374-397 | a bulk move within a folder may lose a message as soon as one of its chunks may |
| BulkImap.EarlierCopyDecides | crates/email/src/bulk.rs:374-397 | a concrete call of two chunks, neither of which takes a target as it begins, that loses a message because of a copy the first chunk makes |
| BulkImap.SelfMoveMayLose | crates/email/src/bulk.rs:42-78 | a concrete move of a folder onto itself after which a message is gone without a copy |
| BulkImap.ImapClient.ExpungeUids | crates/email/src/imap.rs:215-278 | one expunge command, chosen by UIDPLUS, takes flagged messages only and with UIDPLUS targets only; a bare one warns once |
| BulkImap.ImapClient.MoveMessages | crates/email/src/bulk.rs:42-78 | SELECT, COPY, STORE, EXPUNGE go out in that order up to the first failure, and the folders end as they were or as those three may leave them; conservation holds after each outcome, and success means every UID is delivered |
| BulkImap.ImapClient.DeleteMessages | crates/email/src/bulk.rs:106-133 | a delete takes only targets, apart from what a bare EXPUNGE takes with them |
| BulkImap.ImapClient.ApplyChunk | crates/email/src/bulk.rs:374-397 | a batch, then, exactly if it fails, its UIDs one by one, with all the commands of each try: invariant kept, each UID reported once, and the folders end as these moves may leave them |
| BulkImap.RunsKeepBacked | crates/email/src/bulk.rs:374-397 | through every part of a call, what is reported succeeded was sent in full, in one stretch, and what is reported failed was begun |
| BulkImap.ReportBacked | crates/email/src/bulk.rs:374-430 | a UID reported succeeded by a move has its SELECT, COPY, STORE and EXPUNGE standing together in what was sent; likewise for copies and deletes; with valid names the folder is selected once at least for each UID that failed |
| BulkImap.ImapClient.Execute | crates/email/src/bulk.rs:340-405 | between different folders, or when no target is among the UIDs its copies can be given, under any pattern of failures and retries no message is lost, only targets leave, succeeded and failed make up the resolved UIDs, and a success has its copy; a UID succeeds only if all the commands of a try that names it went out together, and for each that fails its folder was selected; refused calls and dry runs change and send nothing |
| RestoreJournal.LoadRestoreState | crates/email/src/backup.rs:1160-1214 | the state is exactly the journaled keys; warnings name exactly the in-doubt keys, once each, and the malformed lines |
| RestoreJournal.PlanRestore | crates/email/src/backup.rs:893-926 | appends are the due messages in manifest order, each to the destination of the first mapping of its folder, or to its folder when there is none; the unselected and the already journaled are counted apart; destinations are listed once, in the order they come up |
| RestoreJournal.FirstMappingWins | crates/email/src/backup.rs:828-835 | the first mapping of the folder decides, and a folder without one stays what it is |
| RestoreJournal.DueExact | crates/email/src/backup.rs:893-926 | a message is planned exactly if it is selected and not journaled, to the destination of the first mapping of its folder, or to its folder |
| RestoreJournal.DueDistinct | crates/email/src/backup.rs:893-926 | each identity is planned at most once |
| RestoreJournal.StepKeeps | crates/email/src/backup.rs:106-117 | every step of a run, and a crash at any point, keeps the invariant |
| RestoreJournal.AppendedAtMostOnce | crates/email/src/backup.rs:106-161 | over any sequence of runs and crashes no identity is appended twice, and an append not written up as done is warned of |
| RestoreJournal.RerunPlansNothing | crates/email/src/backup.rs:893-926 | after a run that came to its end, a run of the same selection plans nothing |
| ArchivePaths.EncodeFolderForDisk | crates/email/src/backup.rs:418-429 | the loop computes the slug |
| ArchivePaths.SlugByOctet | crates/email/src/backup.rs:418-429 | letters, digits, `_`, `.` and `-` stand for themselves, every other octet is `%` and its two upper-case hexadecimal digits |
| ArchivePaths.DecodeFolderForDisk | crates/email/src/backup.rs:431-465 | the loop computes the decoding, error kinds included |
| ArchivePaths.DecodeEscape | crates/email/src/backup.rs:431-465 | which escapes are truncated, not UTF-8 or not hexadecimal, and the octet of a good one |
| ArchivePaths.SlugRoundTrip | crates/email/src/backup.rs:418-465 | decoding undoes encoding on every folder name |
| ArchivePaths.SlugInjective | crates/email/src/backup.rs:418-429 | two folders share a slug exactly if they are the same |
| ArchivePaths.PathByName | crates/email/src/backup.rs:467-477 | the path is `messages`, the slug and the UIDVALIDITY, a hyphen and the UID, in that order |
| ArchivePaths.PathInjective | crates/email/src/backup.rs:467-477 | folder, UIDVALIDITY and UID are determined by the path |
| ArchivePaths.ValidateMessageRelPath | crates/email/src/backup.rs:496-568 | a path is accepted exactly when it is the canonical one and the folder is not empty, `.` or `..`; which path is refused for what reason |
| ArchivePaths.ValidateManifest | crates/email/src/backup.rs:634-721 | a manifest is accepted exactly when it is valid, distinctness of paths not being part of that |
| ArchivePaths.RefusedForGood | crates/email/src/backup.rs:670-705 | a record is refused exactly for its own faults or a repeated identity; the check for a repeated path refuses nothing more |
| ArchivePaths.ValidFilesAreDistinct | crates/email/src/backup.rs:634-721 | in a valid manifest no two messages share a path and no two folders a directory |
| KeyedLock.RetainKeeps | crates/dashboard/src/state.rs:105-118 | purging a dead entry keeps the invariant while waiters come and go |
| KeyedLock.LookupKeeps | crates/dashboard/src/state.rs:105-118 | finding or recreating the entry keeps it |
| KeyedLock.MutualExclusion | crates/dashboard/src/state.rs:105-118 | in every reachable state users of one key share one lock, users of different keys do not, and at most one guard of a key exists |
| KeyedLock.OnlyLiveEntriesRemain | crates/dashboard/src/state.rs:105-118 | after a call every entry is in use or was left while the call was under way |
| KeyedLock.WaiterCanHold | crates/dashboard/src/state.rs:105-118 | in every reachable state a waiter can take its lock, or someone else holds it and can leave, and then it can |
| KeyedLock.AppState.LockTravelReceiptOperation | crates/dashboard/src/state.rs:105-118 | the call is a run of the machine that ends with live entries only and the caller waiting on its key's lock |
| Outbox.TimelyProcessesKeepLeases | crates/dashboard/src/push.rs:221-286 | any number of processes: while sends end within the lease, no job is sent by two at once and final rows stay as they are |
| OutboxRaces.SecondSenderExact | crates/dashboard/src/push.rs:225-264 | while one process sends a job, and in whatever state the others are, one of them can come to send it too by a deadline if and only if the lease is over by then and the job is not expired when it is free, or one of them is in a pass that read the clock in time, or one of two holds an earlier pick of it |
| OutboxRaces.OverwriteExact | crates/dashboard/src/push.rs:264-285 | they can have the row accepted under the sender, whose closing update queues it again, under exactly that condition and unless the sender had picked its last attempt |
| OutboxRaces.FinalUnderSenderExact | crates/dashboard/src/push.rs:221-285 | in whatever state they are, they can make the row final under the sender if and only if the lease is over by the deadline |
| OutboxRaces.OldPickCollides | crates/dashboard/src/push.rs:225-264 | a run from the empty table in which a process sends by an earlier pick a job that another sends, though it expired before its lease was over |
| OutboxRaces.OldReadingCollides | crates/dashboard/src/push.rs:225-264 | such a run in which the second process goes by the clock its pass has read |
| OutboxRaces.LateSendOverwrites | crates/dashboard/src/push.rs:272-285 | a run from the empty table in which an accepted row is queued again |
| OutboxAttempts.AttemptsBounded | crates/dashboard/src/push.rs:229-285 | while sends end within the lease, no row of n processes sees more than n + 4 attempts, and with that many it is final |
| OutboxAttempts.BoundReached | crates/dashboard/src/push.rs:229-285 | for every number of processes a timely run from the empty table reaches that many attempts |
| Outbox.RetriedOnlyAfterLease | crates/dashboard/src/push.rs:225-264 | a job whose sender never answered is not queued again before its lease is over |
| Outbox.LeaseKeepsSolo | crates/dashboard/src/push.rs:263-264 | with one process a job leased is unexpired and not yet sent in the pass, and the invariant is kept |
| Outbox.FinishKeepsSolo | crates/dashboard/src/push.rs:266-285 | settling a send keeps the attempts within their bound |
| Outbox.StartsSolo | crates/dashboard/src/push.rs:16-22 | the empty table satisfies every invariant |
| Outbox.OneProcessRun | crates/dashboard/src/push.rs:155-289 | over any run of one process with crashes: one row per device and alert, at most five attempts, five only on a final row, and final rows stay |
| Outbox.SentOncePerPass | crates/dashboard/src/push.rs:155-289 | no job is sent twice in a pass |
| Outbox.Database.SelectDue | crates/dashboard/src/push.rs:229-238 | at most twenty due jobs of the device, and all of them when there are fewer |
| Outbox.Database.SendQueue | crates/dashboard/src/push.rs:245-286 | by its final row: a job still permitted ends accepted when delivered, failed or queued again with one attempt more when not; one no longer permitted, or of a device not enabled, is superseded with its attempts as they were; the device is disabled exactly when the answer to a permitted job says it is gone |
| Outbox.Database.Visit | crates/dashboard/src/push.rs:163-289 | the visit of a device writes its notices, sweeps what is over, picks at most twenty due rows and settles each; rows of other devices are only swept |
| Outbox.Database.Deliver | crates/dashboard/src/push.rs:155-289 | a whole pass over the enabled devices is a run of the machine, so it keeps what every run keeps; with fewer than twenty due rows of a device that stays enabled, each permitted one is accepted when delivered and each other one superseded; with no device enabled nothing happens |
| Outbox.DueWhile | crates/dashboard/src/push.rs:110-215 | a row just written is due for 300 seconds when it is a test, and until 3600 seconds after its alert otherwise |
| EncodedWords.DecodeRfc2047 | crates/email/src/imap.rs:631-693 | the scanner ends on every input and computes the decoding |
| EncodedWords.DecodeQEncoding | crates/email/src/imap.rs:737-766 | the loop decodes octet by octet |
| EncodedWords.QByOctet | crates/email/src/imap.rs:737-766 | an underscore is a space, an equals sign with two hexadecimal digits, or a plus sign and one, the octet they write, and every other octet itself |
| Text.HexDigitMeans | crates/email/src/imap.rs:751 | a hexadecimal digit of either case, and its value |
| EncodedWords.QRoundTrip | crates/email/src/imap.rs:737-766 | any Q encoding by section 4.2 of RFC 2047 decodes to its payload, whichever octets were escaped |
| EncodedWords.ParseWritten | crates/email/src/imap.rs:705-730 | a word that begins with the introducer is parsed back with its exact length, also when its text begins with `=` |
| EncodedWords.ParseExact | crates/email/src/imap.rs:705-730 | a text begins with a word exactly if the parser finds that word |
| EncodedWords.CharsetIgnored | crates/email/src/imap.rs:670-683 | a word of any charset decodes to the lossy UTF-8 reading of the octets it encodes |
| EncodedWords.WordAsItStands | crates/email/src/imap.rs:670-683 | a word of unknown encoding, or of broken base64, decodes to its own text |
| EncodedWords.DecodesToPayloads | crates/email/src/imap.rs:631-693 | plain text with UTF-8 or US-ASCII encoded words decodes to the text with each payload in place, separating blanks dropped |
| EncodedWords.WordsConcatenate | crates/email/src/imap.rs:663-668 | a list of words decodes to its concatenated payloads if and only if every gap is empty or begins with a space or tab and is white space |
| EncodedWords.NothingEncoded | crates/email/src/imap.rs:634-637 | text without `=?` is unchanged |
| EncodedWords.BrokenWordStops | crates/email/src/imap.rs:684-688 | words decode up to an introducer that begins no word, and from there the text is left as it is |
| Calendar.LastBoundary | crates/dashboard/src/travel_ics.rs:190-193 | the search for a character boundary ends, moves on, and takes as many whole characters as fit |
| Calendar.FoldLine | crates/dashboard/src/travel_ics.rs:182-205 | pieces of at most 75 octets that unfold to the line after any lines before |
| Calendar.UnescapeOfEscape | crates/dashboard/src/travel_ics.rs:159-165 | unescaping by section 3.3.11 of RFC 5545 recovers every text with CR read as LF, and the escaped text is one line |
| Calendar.ParseTextOf | crates/dashboard/src/travel_ics.rs:28-112 | a content line reads back to its property, parameters and value |
| Calendar.ComponentNames | crates/dashboard/src/travel_ics.rs:29-37 | the name each line of the calendar begins with |
| Calendar.EventNames | crates/dashboard/src/travel_ics.rs:46-102 | the name each line of an event begins with |
| Calendar.BodySays | crates/dashboard/src/travel_ics.rs:39-90 | exactly which lines an event has, each by its property, parameters and value |
| Calendar.AlarmLinesSay | crates/dashboard/src/travel_ics.rs:87-99 | exactly which lines its alarm has, and that it has one only if not cancelled and at most 10080 minutes ahead |
| Calendar.EventHolds | crates/dashboard/src/travel_ics.rs:46-102 | an event begins and ends as one; its alarm comes after its own lines, and that its time is taken last |
| Calendar.SafeUidOctet | crates/dashboard/src/travel_ics.rs:167-180 | each octet of an event id stands for itself or is a hyphen and its two lower-case hexadecimal digits |
| Calendar.RenderTravelCalendar | crates/dashboard/src/travel_ics.rs:28-112 | for every event list a reader of section 3.1 of RFC 5545 gets back exactly the content lines, none over 75 octets |
| Calendar.ComponentsNest | crates/dashboard/src/travel_ics.rs:28-104 | BEGIN and END nest properly in every calendar |
| Calendar.SummariesReadBack | crates/dashboard/src/travel_ics.rs:39-63 | the summaries a reader finds are those of the dated events, in order |
| Attribution.ToGovernorAttrs | crates/email/src/attribution.rs:104-174 | the pushes list, in their fixed order and once each, the keys whose facts hold: key by key, the fact of the context that it stands for |
| Attribution.DerivedMembers | crates/email/src/attribution.rs:104-174 | that list holds exactly the keys that hold of the send, each once |
| Attribution.DerivedTells | crates/email/src/attribution.rs:104-174 | each key is listed exactly when its own fact holds, be it a flag that is set, an attachment count above 0 or at least 6 recipients |
| Attribution.OneBodyFact | crates/email/src/attribution.rs:104-174 | contexts that differ in one fact about the body give lists that differ in the key of that fact alone; likewise for each fact below |
| Attribution.OneRelationshipFact | crates/email/src/attribution.rs:104-174 | the same for being a reply and for being cold |
| Attribution.OneContactFact | crates/email/src/attribution.rs:104-174 | the same for a known and a frequent contact |
| Attribution.OneDomainFact | crates/email/src/attribution.rs:104-174 | the same for the trusted domains and for an unknown one |
| Attribution.OnePlaceFact | crates/email/src/attribution.rs:104-174 | the same for the account's own domain and for a government one |
| Attribution.OneDomainClass | crates/email/src/attribution.rs:104-174 | the same for freemail and disposable domains |
| Attribution.OneIntentFact | crates/email/src/attribution.rs:104-174 | the same for a draft, a human approval and an informational mail |
| Attribution.OneClaimFact | crates/email/src/attribution.rs:104-174 | the same for personal data and uncited claims |
| Attribution.OneStakesFact | crates/email/src/attribution.rs:104-174 | the same for financial content, legal content and commitments |
| Attribution.OneAttachmentFact | crates/email/src/attribution.rs:104-174 | the same for the number of attachments and a sensitive one |
| Attribution.OneRecipientFact | crates/email/src/attribution.rs:104-174 | the same for the number of recipients and a blind copy |
| Attribution.ObservedIsDerived | crates/email/src/attribution.rs:218-269 | a key observed present is derived; the one key derived though observed absent is cold_email on a reply |
| Attribution.ConflictingPartner | crates/email/src/attribution_provenance.rs:120-130 | a partner is found exactly if one is present |
| Attribution.CatalogKeyOfName | crates/email/src/attribution_provenance.rs:51-88 | the names of the catalog keys are distinct, so a name finds its key |
| Attribution.Resolve | crates/email/src/attribution.rs:402-516 | a function of the set of trimmed declared keys alone: the facts listed, every key refused with its code and why, the state, and the strictly sorted union when attributed: a name is submitted exactly when its fact holds or it was declared and may be |
| Attribution.SubmittedByName | crates/email/src/attribution.rs:402-516 | a name is submitted exactly when the send is attributed and the name is that of a fact that holds, or was declared and is one a caller may declare |
| Attribution.RefusedByName | crates/email/src/attribution.rs:402-516 | a declared name is refused exactly when it is unknown, needs an attestation, contradicts or outruns what the host observed, or has a partner in the set |
| Attribution.OrderDoesNotMatter | crates/email/src/attribution.rs:402-516 | order and repetition of the declared keys change neither the state, nor the submitted list, nor the refusals with their codes, nor the host keys confirmed |
| Attribution.AttributedMeans | crates/email/src/attribution.rs:402-516 | when attributed: declared host keys are derived already, no declared key has a partner in the set, and `tyler_approved` is in it exactly if a human approved |
| Attribution.PairFreeIffDerivedIs | crates/email/src/attribution.rs:467-487 | the submitted set holds no exclusive pair if and only if the derived facts hold none |
| Attribution.ColdReplyIsAttributed | crates/email/src/attribution.rs:475-487 | a send that is attributed with an exclusive pair of derived keys |
| ScheduledSend.MetadataRoundTrip | crates/email/src/attribution_persist.rs:120-175 | a stored declaration reads back as it was, whatever else the metadata holds |
| ScheduledSend.FieldsWritten | crates/email/src/attribution_persist.rs:120-133 | what is written under each name of the stored block |
| ScheduledSend.FieldsRead | crates/email/src/attribution_persist.rs:135-175 | which field of the stored block is which part of the declaration, and what stands in for a missing one |
| ScheduledSend.OriginDecided | crates/email/src/attribution_persist.rs:235-256 | a bot's current declaration makes the send a bot's; else it is human exactly for a creator `human:…`, and a bot's for `agent`, `mcp` and `cli` |
| ScheduledSend.StepKeeps | crates/email/src/attribution_persist.rs:235-395 | every edit, declaration, approval, claim and sweep keeps the invariant on declarations and attempts |
| ScheduledSend.DeclareStores | crates/email/src/attribution_persist.rs:98-116 | a declaration is stored under the current revision with no attempts and no reason to park, makes the send a bot's, and is what the sweep resolves with |
| ScheduledSend.BotNeedsCurrentDeclaration | crates/email/src/attribution_persist.rs:268-284 | over any history a draft no human created is sent on only with keys declared and validated at its current revision, each admitted at the sweep |
| ScheduledSend.ValidatedWasDeclared | crates/email/src/attribution_persist.rs:98-116 | what counts as validated was declared by a step of the history at that revision |
| ScheduledSend.ThirdFailureParks | crates/email/src/attribution_persist.rs:314-321 | two failures since the last edit or declaration leave the draft due with that many attempts, from the third on it is parked as exhausted |
| ScheduledSend.EditResets | crates/email/src/attribution_persist.rs:177-187 | an edit makes the declaration stale, drops the approval and starts the count again |
| ScheduledSend.ApprovalLasts | crates/email/src/attribution_persist.rs:268-284 | over any run without an edit an approval stands exactly if it stood or was given |
| ScheduledSend.AtMostTwoRetries | crates/email/src/attribution_persist.rs:314-395 | a run without an edit or declaration retries at most twice, whatever approvals come between |
| ScheduledSend.HumanOriginExact | crates/email/src/attribution_persist.rs:235-284 | over every history a human's draft is of human origin if and only if no bot has declared on it since its last edit, and else of bot origin; a declaration is required exactly then or when no approval is current |
| ScheduledSend.HumanStaysHuman | crates/email/src/attribution_persist.rs:379-395 | a human's draft on which no bot declares keeps its origin and gets no declaration through failures |
| ParserRegistry.Splice | crates/dashboard/src/learning.rs:265-268 | replacing spans from the last to the first gives the gaps between them with placeholders |
| ParserRegistry.SortedMarks | crates/dashboard/src/learning.rs:260-263 | the captured spans come out ordered by their start |
| ParserRegistry.EvidenceLayout | crates/dashboard/src/learning.rs:249-269 | the loops compute the layout: the body with each captured span replaced by its placeholder; there is none exactly when a rule has not one capture or captures overlap |
| ParserRegistry.ReadIsCaptured | crates/dashboard/src/learning.rs:116-128 | a field is read exactly if its pattern matches once and captures, and the trimmed text is neither empty nor longer than 2048 |
| ParserRegistry.PlaceholderNames | crates/dashboard/src/learning.rs:267 | a placeholder is the field name in braces |
| ParserRegistry.ExtractMeans | crates/dashboard/src/learning.rs:104-138 | what a parser extracts: each field's one capture, trimmed, under its name, and nothing else |
| ParserRegistry.EveryFieldDepends | crates/dashboard/src/learning.rs:155-164 | the mutation check covers exactly every field of the parser |
| ParserRegistry.DemonstratesMeans | crates/dashboard/src/learning.rs:150-164 | a fixture demonstrates a parser exactly if it is read as expected and no field keeps its value when that value is cut out of the body |
| ParserRegistry.RemoveFirst | crates/dashboard/src/learning.rs:159 | cutting a value out takes its first occurrence and goes on behind it |
| ParserRegistry.Registry.Promote | crates/dashboard/src/learning.rs:144-196 | succeeds exactly when the fixtures demonstrate the parser and the active version's replay; then it alone is active under its name, carries those fixtures on, and no other row is touched; failure says why and changes nothing; one active version per name and replaying are kept |
| ParserRegistry.Registry.Rollback | crates/dashboard/src/learning.rs:271-293 | succeeds exactly when the version is stored and still replays, which it does while rules do not change; failure changes nothing |
| ParserRegistry.RollbackUndoesPromotion | crates/dashboard/src/learning.rs:271-293 | rolling back to the replaced version restores every other row |
| ParserRegistry.ActiveFixtures | crates/dashboard/src/learning.rs:171-185 | the query collects exactly the active version's fixtures |
| ParserRegistry.ReadingMeans | crates/dashboard/src/learning.rs:217-229 | a version reads a message exactly if it is active, extracts from it, and has a fixture of the same subject and the same layout |
| ParserRegistry.Known | crates/dashboard/src/learning.rs:198-247 | in any row order: an answer exactly when one version alone applies, and it is that version's reading |
| SearchQuery.CompileSearchQuery | crates/email/src/evidence.rs:431-464 | accepted exactly when there is something to search for and every value can be written; the terms in order, the raw query last; without a raw query the result reads back to the filters and to no others, or, when some value has no form in the grammar, to nothing |
| SearchQuery.CriteriaByName | crates/email/src/evidence.rs:446-456 | each filter gives the term of its own name, and the terms come in a fixed order with the keywords last, in theirs |
| SearchQuery.TextTerms | crates/email/src/evidence.rs:466-476 | what is written for a sender, a recipient, a subject and a body: the name and the quoted value |
| SearchQuery.AtomTerms | crates/email/src/evidence.rs:452-488 | what is written for dates and keywords: the name and the bare value |
| SearchQuery.AcceptedByName | crates/email/src/evidence.rs:466-526 | which characters a quoted value and which an atom may not hold |
| SearchQuery.CriteriaInjective | crates/email/src/evidence.rs:446-456 | the terms determine the filters |
| SearchQuery.ReadEscaped | crates/email/src/evidence.rs:528-530 | a quoted string reads back exactly when it is 7-bit text |
| SearchQuery.QueryReadsBack | crates/email/src/evidence.rs:431-530 | a query without a raw part reads back as the same criteria if and only if every value has a form in section 9 of RFC 3501 |
| CsvIndex.ReadRecordsBack | crates/email/src/evidence.rs:684-690 | every table reads back by the quoting rules of section 2 of RFC 4180, whatever its fields hold |
| CsvIndex.EscapedByName | crates/email/src/evidence.rs:684-690 | exactly the fields with a comma, a quote or a line break are quoted |
| CsvIndex.IdentityColumns | crates/email/src/evidence.rs:636-682 | which column of the header holds what, for ids, reasons, folder, UIDVALIDITY and UID |
| CsvIndex.HeaderColumns | crates/email/src/evidence.rs:636-674 | the same for dates, Message-IDs and references |
| CsvIndex.AddressColumns | crates/email/src/evidence.rs:636-674 | the same for addresses and subject |
| CsvIndex.FileColumns | crates/email/src/evidence.rs:636-674 | the same for flags, size, digest and path |
| CsvIndex.SortedByPath | crates/email/src/evidence.rs:640-641 | the rows are the messages in path order, none lost |
| CsvIndex.SortIsStable | crates/email/src/evidence.rs:640-641 | messages with the same path keep their order |
| Ordering.StringLessMeans | crates/email/src/evidence.rs:640-641 | one text comes before another exactly if it is a proper beginning of it or smaller where they first part |
| CsvIndex.RenderIndexCsv | crates/email/src/evidence.rs:635-674 | the index reads back to the header and the rows of the sorted messages |

## Left out

- Outbox.Database.Deliver: adding and re-enabling devices and the household checks are not modelled; whether an alert is still permitted is an input, and an error that ends a pass early is a crash of the machine.
- BulkImap.SelfChunkExact: covers calls of at most 200 UIDs; for longer calls on one folder that name one of the next 2n UIDs, n being the number of targets, the exact condition depends on which copies the earlier chunks make, and is not given.
- BulkImap.ImapClient.Execute: commands take the UID list that `SequenceSet.CoalesceUids` prints, flag and tag operations and search targets are not modelled, and a message that another session had already flagged is not claimed for a bare EXPUNGE.
- RestoreJournal.StepKeeps: the executor of a restore is not part of this model beyond the step order its journal documents; a torn journal line is excluded by premise.
- Calendar.RenderTravelCalendar: the clock is read once for all events, and the id escape of UID lines is not claimed to be injective, since its escape character passes through.
- CsvIndex.RenderIndexCsv: takes the messages of a manifest already validated; the evidence manifest's own check is not modelled.
- SearchQuery.QueryReadsBack: says nothing of a query with a raw part, whose grammar the program does not parse.
- Attribution.Resolve: the suggestions and the wording that go with a rejection are left out; the suggested keys are those of `EditDistance.NearestKeys`.
- ScheduledSend.StepKeeps: replacing a draft's whole metadata and provider syncs are not among the steps; the approval is kept beside the metadata rather than parsed out of it.
- ParserRegistry.Registry.Promote: database errors and concurrent writers are not modelled; a promoted version's own earlier fixtures are replaced, as the code does, unless it was the active one.
- Glob.GlobMatch: takes pattern and text already lower-cased.
- HeaderThreads.ExpandHeaderThreads: UIDs are unbounded and the subject is not carried.
- KeyedLock.MutualExclusion: fairness of the lock and starvation are not modelled.
- Network, TLS, SMTP, OAuth, Web Push and SQLite are steps that may fail, or rows; base64, mail-parser, serde and chrono internals are parameters.
- Mailbox and Message-ID helpers (`imap_mailbox_arg`, `normalize_message_id`, `classify_exact_message_id_match`) and the audit planner would add only easy members beside the quoting and loading proved here.
- Symlink checks, atomic writes and archive verification read the file system and are not modelled.
- `travel_parser.rs`, `auth.rs`, `csrf.rs`, `household.rs`, `browser_handoff.rs` and `agent_policy.rs` are not part of this model.
