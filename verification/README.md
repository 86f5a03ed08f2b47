# A verified model of the records management system's protocols, codecs and planners

The repository is a records management system: an API, a web user interface, background services
and maintenance tools. Most of it is a database application, but a few self-contained parts carry
their own correctness argument. This project models those parts in Dafny, with the branches, limits
and error conditions of the code, and proves what their comments, documentation and tests promise.
`dafny verify dfyconfig.toml` checks everything.

The parts, each in its own modules:

- **Owned temporary workspaces** (`WorkspaceProtocol`, `WorkspaceSafety`, `WorkspaceRecovery`). The
  directories of `backend/services/processing_workspace.py` as interleaved steps of owners,
  children that inherit a lock, cleaners and crashes. A lock file is an inode, and it is locked as
  long as some process is paired with it. Whatever the interleaving, an acknowledged directory is
  empty and stays so, content always has a receipt and a registration, and after a crash anywhere
  all directories with content can still be erased, acknowledged and removed. `WorkspaceRecovery` is
  the start-up pass itself, as a loop over a root that a crash or an exception may end anywhere.
- **The SQL splitter** (`SqlTokens`, `SqlScan`, `SqlSplitter`, `SqlRejoin`, `SqlManual`,
  `SqlAgreement`). Tokens with a printer say what a source means to the character loop of
  `tools/canonical_schema.py`: it splits exactly at the semicolon tokens and raises exactly when no
  sequence of tokens prints to the source. Joining the statements and splitting again gives them back.
  Beside these are the tokens of the PostgreSQL manual, and the exact condition under which both are
  the same.
- **The live mailbox** (`MailboxLog`, `MessagingPages`, `MessagingSteps`, `MessagingLive`,
  `EventFramer`). The browser page's consumer as a class whose every await lets the log grow, the page
  become inactive, the awaited call fail and, outside its lock, other reconciliations run, and whose
  own steps are recorded and held against the order in which they may come; the server as a log whose
  rows appear in the order of their sequence numbers; the framing of the event stream byte by byte.
- **Stopping the local stack** (`ProcessTable`, `ProcessTree`, `StackTermination`). A process table that
  forks, exits, leaves orphans and uses pids again, with the true ancestry of every process beside
  it; the search for owned processes; and the bounded termination loop.
- **Wall time** (`WallTime`), **inspector markers** (`InspectorMarker`), **dependency closures**
  (`DependencyClosure`), **the access-list backfill** (`AclPlan`, `AclBackfill`), **the reference
  cache** (`ReferenceCache`), **the environment file** (`EnvFile`, `EnvReconcile`) and **the demo
  numbering** (`DemoNumbering`).

Where code and promise differ, the code is modelled:

- `statements` is meant to split PostgreSQL SQL. It takes a backslash for an escape in every text in
  single quotes, not only after an `E`, and it takes dollar tags that start with a digit or directly
  follow an identifier, but none with letters beyond ASCII. Sections 4.1.1, 4.1.2.1, 4.1.2.2 and 4.1.2.4
  of the PostgreSQL manual say otherwise. `SqlAgreement.ClearIff` gives the condition on a source, one
  test for each token, under which all tokens are those of the manual, in both directions.
  `SqlAgreement.BackslashQuote`, `DigitTag`, `TagAfterWord` and `ForeignTag` are sources for which the
  outcomes differ.
- A cached reference value is not always one the server held within the last 30 seconds, because these
  count from the arrival of the answer. `ReferenceCache.FreshButOld` is a history in which it is older.
  `ReferenceCache.LatelyIff` gives the condition: the value is sure to be that recent, in every history
  that agrees with what the client was told, if and only if the read that last confirmed it was sent
  less than 30 seconds ago.
- A second run of the environment-file tool appends nothing, but it does not always report the same
  skipped keys. `EnvReconcile.RunTwice` gives the exact condition and `EnvReconcile.PlaceholderThenValue`
  a template for which it fails.
- Without the assumption that no cleaner opens the lock of a directory between `mkdir` and `flock`, an
  owner can write into an acknowledged directory; `WorkspaceSafety.WindowRace` is such a history.
- `terminate_owned` may raise that processes remain although none does. It raises with nothing in hand
  exactly if the look at the end of the grace period found nothing and `kill_wait` was over before the
  next one (`StackTermination.RaisedWithNothing`, `StackTermination.NoTimeToWait`), and it may raise with
  a process that has ended since the last look (`StackTermination.EndedWhileAsleep`).

A method that waits for something is modelled by a nondeterministic choice at that point. Calls into
the database, the browser, the network and the operating system are such choices, or parameters.

## Model

| member | source | states |
|---|---|---|
| WorkspaceSafety.StepKeeps | backend/services/processing_workspace.py:21-66 | every step of an owner, child, cleaner or crash keeps the invariant: users hold the lock of the file in place, a cleaner that has a lock has a directory nobody can use any more, acknowledged directories are empty |
| WorkspaceSafety.RunKeeps | backend/services/processing_workspace.py:21-66 | so does every finite history |
| WorkspaceSafety.Safe | backend/services/processing_workspace.py:21-50 | in every reachable state an acknowledged directory has no content, and a directory with content has its receipt and was registered before |
| WorkspaceSafety.AcknowledgedForEver | backend/services/processing_workspace.py:28-32 | once acknowledged, a directory has no content at any later time |
| WorkspaceSafety.Crash | backend/services/processing_workspace.py:1-6 | from any state all processes may end at once, which frees every lock and leaves the directories as they are |
| WorkspaceSafety.RecoverableAfterCrash | backend/services/processing_workspace.py:53-66 | after any history and a crash, any directory with content can be erased, acknowledged and removed, and no other directory is touched |
| WorkspaceSafety.AllRecoverableAfterCrash | backend/services/processing_workspace.py:53-66 | after any history, wherever it was cut off, there is one continuation after which no directory has content: exactly those that had are removed, and all of them are acknowledged |
| WorkspaceSafety.WindowRace | backend/services/processing_workspace.py:38-42 | a cleaner between creation and locking of a directory can make the safety property fail |
| WorkspaceRecovery.Root.Visit | backend/services/processing_workspace.py:57-65 | one turn: links and held locks are passed over, a foreign or missing receipt too, an own one is erased, acknowledged and removed in this order; a crash or an exception may end it at any point of this and leaves its work half done |
| WorkspaceRecovery.Root.Recover | backend/services/processing_workspace.py:53-66 | the whole pass: it raises if and only if a visit within the limit fails; a directory that is held, is no directory or has no receipt with its own name keeps content and receipt, and nothing is acknowledged for it; whoever is acknowledged was free, named by the receipt and erased before; if it returns, every other directory within the limit is gone and acknowledged, and the count is the number of directories removed |
| WorkspaceRecovery.PassIs | backend/services/processing_workspace.py:56-66 | the loop equals its closed form: the eligible directories before the one where it ends, that one half done, and nothing else |
| WorkspaceRecovery.CompletePass | backend/services/processing_workspace.py:53-66 | a pass over all directories without failure removes exactly those that are directories, whose lock nobody holds and whose receipt has their name, acknowledges exactly these, and keeps content and receipt of all others |
| WorkspaceRecovery.StoppedPassResumes | backend/services/processing_workspace.py:64-66 | wherever and however a pass ends, each directory it could recover is gone and acknowledged, can still be recovered, or is empty and acknowledged; content only gets less |
| WorkspaceRecovery.LaterPassFinishes | backend/services/processing_workspace.py:53-66 | from any such half-finished state a later pass that is not stopped removes every directory that could be recovered and still has content, and all are acknowledged |
| SqlScan.LexSound | tools/canonical_schema.py:8-36 | the tokens found print to the source, and each may stand where it stands |
| SqlScan.LexComplete | tools/canonical_schema.py:8-36 | every admissible sequence of tokens is the one found, so a source has at most one reading |
| SqlScan.FirstComplete | tools/canonical_schema.py:26-36 | a token that fits before a text is recognised as the first token, whatever follows |
| SqlScan.ScanBlockComplete | tools/canonical_schema.py:21-25 | a comment with nested comments ends exactly where its openers and closers balance |
| SqlScan.ScanDollarComplete | tools/canonical_schema.py:10-13 | a dollar-quoted body ends at the first occurrence of its tag |
| SqlSplitter.MeaningOfReadings | tools/canonical_schema.py:5-39 | the outcome is that of the one reading of the source, and an error if and only if there is none |
| SqlSplitter.Statements | tools/canonical_schema.py:5-39 | the character loop gives, for every source, the non-blank statements between its semicolon tokens with quoted and dollar-quoted text verbatim, or raises if and only if it finds a quote, body or comment left open; its tokens are not always those of PostgreSQL, see SqlAgreement |
| SqlRejoin.StatementsAreWhole | tools/canonical_schema.py:26-36 | each statement is itself a source without open construct or semicolon token: dropping comments makes no new token |
| SqlRejoin.StripIs | tools/canonical_schema.py:33-39 | stripping takes off white space only, and all of it at both ends |
| SqlRejoin.JoinIsRead | tools/canonical_schema.py:33-39 | such statements joined by semicolons read as those statements |
| SqlRejoin.Rejoin | tools/canonical_schema.py:5-39 | splitting the joined statements gives the same list |
| SqlManual.LexAfterSound | tools/canonical_schema.py:6-6 | the tokens found by the manual's rules print to the source, and each is allowed where it stands |
| SqlManual.LexAfterComplete | tools/canonical_schema.py:6-6 | every sequence of tokens that the manual allows is the one found, so it reads a source in at most one way |
| SqlAgreement.ManualMeaningOfReadings | tools/canonical_schema.py:6-6 | the outcome by the manual is that of this reading, and an error if and only if there is none |
| SqlAgreement.QuotesAgree | tools/canonical_schema.py:14-20 | with and without backslash escapes a text in single quotes ends at the same place if and only if no escaped quote is met |
| SqlAgreement.SafeIff | tools/canonical_schema.py:26-36 | the next token is that of the manual if and only if a quote without E meets no escaped quote and a dollar sign starts a tag for both or for none |
| SqlAgreement.ClearIff | tools/canonical_schema.py:8-37 | all tokens up to the first open construct are those of the manual if and only if each is safe where it starts |
| SqlAgreement.ClearMeaning | tools/canonical_schema.py:5-39 | for such a source the statements, or the error, are those by the manual |
| SqlAgreement.UsualIsClear | tools/canonical_schema.py:14-32 | it is enough that no text in single quotes has a backslash and no dollar tag starts with a digit, follows an identifier or has letters beyond ASCII |
| SqlAgreement.EscapeStrings | tools/canonical_schema.py:14-20 | which texts in single quotes have escapes by the manual: after an E that starts a word, and continued over a line feed |
| SqlAgreement.BackslashQuote | tools/canonical_schema.py:19-19 | a text in single quotes that ends with a backslash: the loop reads on to the next quote |
| SqlAgreement.DigitTag | tools/canonical_schema.py:30-32 | two statements with a parameter between dollar signs become one |
| SqlAgreement.TagAfterWord | tools/canonical_schema.py:30-32 | two statements with a dollar sign in an identifier become one |
| SqlAgreement.ForeignTag | tools/canonical_schema.py:30-32 | a body with a semicolon whose tag has a letter beyond ASCII becomes two statements |
| MailboxLog.BetweenStable | backend/services/api/messaging/reading.py:316-323 | what lies up to a cursor that was given out never changes |
| MailboxLog.PageIsExact | backend/services/api/messaging/reading.py:306-323 | a page holds exactly the rows between the cursor asked for and the next one, and a last page leaves nothing durable above |
| MailboxLog.TestsCount | frontend/webui/messaging_live.py:101-103 | the second count of a summary is the number of rows marked as tests |
| MessagingLive.LiveMailbox.Request | frontend/webui/messaging_live.py:89-101 | the answer is the page the server had at some moment of the wait, or one that is to be refused |
| MessagingLive.LiveMailbox.PresentAll | frontend/webui/messaging_live.py:104-108 | a live page is shown row by row while the page is active; completion means all of it, in order, once |
| MessagingLive.LiveMailbox.Advance | frontend/webui/messaging_live.py:109-110 | the cursor moves to the end of a page only after a live page was shown, exactly the rows of the page are delivered, and the pages still tile the interval |
| MessagingLive.LiveMailbox.SaveCursor | frontend/webui/app.py:21472-21477 | what is saved is the cursor; the stored checkpoint stays, or becomes it unless it was higher, and after a save that succeeds it is not below it; every save is recorded |
| MessagingLive.LiveMailbox.ReadPage | frontend/webui/messaging_live.py:88-101 | an accepted answer holds exactly the rows up to its cursor; one whose cursor goes back or stands still is refused and nothing moves |
| MessagingLive.LiveMailbox.OnePage | frontend/webui/messaging_live.py:88-113 | one turn delivers at most one page, counts its rows and test rows, and either finishes above everything durable at the read or moves the cursor; what is stored is what the run found or one of its saves |
| MessagingLive.LiveMailbox.ReadPages | frontend/webui/messaging_live.py:86-115 | the loop ends for any finite log, and its counts are those of the rows between the old and the new cursor |
| MessagingLive.LiveMailbox.Announce | frontend/webui/messaging_live.py:114-123 | the page is told of the new messages in summary mode if there are any, then of the unread count, then of the change if there were rows; all of it, or the first part if a call fails |
| MessagingLive.LiveMailbox.Locked | frontend/webui/messaging_live.py:86-123 | a completed reconciliation has passed every row durable when its last page was read, and told of the exact counts of its rows; all its pages are live or none, as its mode says; it completes, with its checkpoint stored, unless an awaited call fails, an answer is wrong or the page is left |
| MessagingLive.LiveMailbox.Reconcile | frontend/webui/messaging_live.py:84-123 | the same holds after the wait for the lock, whatever other calls did meanwhile, and it is noted as a step with its mode, pages, notices and end |
| MessagingLive.LiveMailbox.Meanwhile | frontend/webui/messaging_live.py:84-86 | any pages, saves and summaries of other calls during an await outside the lock keep the invariant of the run, never move the cursor back and only add to what was shown and saved |
| MessagingLive.LiveMailbox.Load | frontend/webui/messaging_live.py:126-134 | the run starts at the checkpoint brought into range, or at zero if it cannot be read |
| MessagingLive.LiveMailbox.OnHint | frontend/webui/messaging_live.py:140-153 | a hint at or below the cursor and a heartbeat change nothing; one above it leads to a reconciliation that shows the messages, an unknown one to a reconciliation with a summary, and each of these, unless it fails, to a cursor above all that was durable |
| MessagingLive.LiveMailbox.Follow | frontend/webui/messaging_live.py:140-153 | a connection never moves the cursor back or forgets a page; if nothing fails it goes on to its end, a hint with a bad cursor apart |
| MessagingLive.LiveMailbox.Turn | frontend/webui/messaging_live.py:137-176 | a connection and the reconciliation with a summary after it pass everything durable at their start if nothing fails; no error but cancellation and a refused user ends the run |
| MessagingLive.LiveMailbox.Run | frontend/webui/messaging_live.py:125-179 | at every await of a run pages tile the interval from the loaded to the current cursor, exactly their rows were delivered, live rows are shown in order before the cursor passes them and never after, saved cursors are in order and never ahead, and what is stored is what the run found or one of them; transports alternate and pauses double up to 30, with one second again after a hint; its steps come in the order that MessagingSteps.Moved allows, up to its end; if nothing fails and the page stays active, the run ends above everything durable at its start, with its checkpoint stored |
| MessagingPages.GatheredIsBetween | frontend/webui/messaging_live.py:88-113 | all pages of a run together hold exactly the durable rows between its first and its present cursor |
| MessagingSteps.HintIsAnswered | frontend/webui/messaging_live.py:140-153 | in every run a hint above the cursor is followed by a reconciliation that shows its messages, an unknown hint by one with a summary, any other hint by none |
| MessagingSteps.ReconciledAfter | frontend/webui/messaging_live.py:137-170 | nothing else leads to a reconciliation but the end of a connection, and that to one with a summary |
| MessagingSteps.RefusedIsLast | frontend/webui/messaging_live.py:154-176 | a failed wait or reconciliation ends the run, with this error, if and only if it was a cancellation or a refused user |
| MessagingLive.IgnoredHintLosesNothing | frontend/webui/messaging_live.py:151-153 | every row a passed-over hint may speak of was delivered in this run or lay below its start |
| MessagingLive.CheckpointBehindCursor | frontend/webui/messaging_live.py:111-112 | at every await the stored checkpoint is not ahead of the cursor, unless the run found it there |
| MessagingLive.Sessions | frontend/webui/messaging_live.py:66-134 | over any number of pages, failures and restarts, what was delivered is the pages of the sessions, each exactly the rows up to its cursor, and every row between the first checkpoint and the present one is on one of them or was delivered before |
| EventFramer.SplitIsUnique | frontend/webui/messaging_live.py:59-60 | a stream is cut at leftmost blank lines in one way only |
| EventFramer.LinesByBreak | frontend/webui/messaging_live.py:61-61 | a line of a block ends at the first carriage return, line feed or both together |
| EventFramer.Yield | frontend/webui/messaging_live.py:61-63 | the events are what stands after the mark of the data lines of a block, of all of them, each once and in order |
| EventFramer.Frames | frontend/webui/messaging_live.py:53-63 | the loop yields the events of the blocks of the whole stream, raises if and only if a block or the remainder exceeds 4096 bytes, after the events before it, and never holds more than 4097 bytes |
| EventFramer.PrintedIsFramed | backend/services/api/messaging/realtime.py:362-368 | framing what the server prints for payloads of one line gives the payloads, up to the first that does not fit |
| ProcessTree.PathStaysInside | tools/local_stack_control.py:50-55 | a set with the running roots and all children of its members holds every process with a path from a root |
| ProcessTree.OwnedTree | tools/local_stack_control.py:31-55 | the search ends for every table, also with cycles, and finds exactly the processes above pid 1 with a path of parent links from a root whose pid and identity match |
| StackTermination.PathDescends | tools/local_stack_control.py:31-36 | every process found truly descends from a process the caller named |
| StackTermination.TracedIsFound | tools/local_stack_control.py:72-84 | a snapshot finds every descendant none of whose line was both forked and orphaned since the snapshot before |
| StackTermination.Shutdown.Discover | tools/local_stack_control.py:72-82 | what a snapshot finds is exactly what is owned at that moment; it is known from then on, is told to the callback if new, and if it is nothing no traced process is left |
| StackTermination.Shutdown.SignalOwned | tools/local_stack_control.py:58-65 | each target gets the signal or has ended, and nothing else gets one; every signal went to a process that was running then with the recorded pid and identity, none but the named ones and their descendants gets one, none gets SIGTERM twice, and what is signalled was remembered before |
| StackTermination.Shutdown.AskToEnd | tools/local_stack_control.py:85-94 | it goes on until a look finds nothing or the clock has reached the start plus the grace period: each comparison but the last is earlier than that, and they are a tenth of a second apart at least; no signal is SIGKILL, and after the grace period every process known at its start that still runs was asked to end |
| StackTermination.Shutdown.Terminate | tools/local_stack_control.py:68-110 | the loops end; no SIGKILL before the start plus the grace period; it returns right after a look that found nothing, and then no traced descendant is left; it raises when the grace period and the second wait are over, with exactly what the last look found, and every process known at the start that still runs was sent SIGTERM once and SIGKILL |
| StackTermination.RaisedWithNothing | tools/local_stack_control.py:96-110 | it raises with nothing in hand if and only if the look at the end of the grace period found nothing and the deadline came before the next look |
| StackTermination.NoTimeToWait | tools/local_stack_control.py:101-110 | with no time to wait it does so whenever nothing is left at that look |
| StackTermination.EndedWhileAsleep | tools/local_stack_control.py:102-110 | with time to wait it may raise with a process that ended during the final sleep |
| StackTermination.NoneIsLeft | tools/local_stack_control.py:85-89 | if no descendant was both forked and orphaned between two snapshots, a normal return means none is alive |
| StackTermination.TrackedWhenRecorded | tools/local_stack_control.py:68-70 | processes each of whose descendants was recorded too, or is still under the parent that forked it, are tracked from then on |
| WallTime.ReadingsAreAll | frontend/webui/locale_services.py:92-96 | every instant that shows a wall time is its reading under one of the two folds |
| WallTime.WorkingBefore | frontend/webui/locale_services.py:77-81 | before all transitions the wall time is the instant plus the base offset |
| WallTime.WorkingAfter | frontend/webui/locale_services.py:77-81 | from a transition to the next the wall time is the instant plus the offset of that transition |
| WallTime.NotShownIffInGap | frontend/webui/locale_services.py:98-103 | no instant shows a wall time if and only if a transition skips it |
| WallTime.ShownTwiceIffInFold | frontend/webui/locale_services.py:104-110 | two instants show it if and only if a transition repeats it |
| WallTime.ToUtc | frontend/webui/locale_services.py:84-113 | nonexistent if and only if no instant shows the time, ambiguous if and only if two do and no choice was given, otherwise an instant that shows it: the only one, the earliest or the latest as chosen; that instant plus the offset of the last transition at or before it, or the base offset before all of them, is the wall time |
| WallTime.AnswerIsUnique | frontend/webui/locale_services.py:84-113 | these conditions determine the answer |
| WallTime.WorkingConvertsBack | frontend/webui/locale_services.py:77-113 | the wall time of an instant converts back to an instant with that wall time, and to the same one outside repeated hours |
| InspectorMarker.KeyComesBack | frontend/webui/i18n_catalogue.py:142-149 | the invisible digits of a key decode to the key |
| InspectorMarker.LengthComesBack | frontend/webui/i18n_catalogue.py:152-158 | those of a length decode to the length |
| InspectorMarker.MarkerIsRead | frontend/webui/i18n_catalogue.py:161-177 | from a marker followed by any text one recovers key, flag, exact rendered text and remainder |
| InspectorMarker.MarkerIsUnique | frontend/webui/i18n_catalogue.py:161-177 | two marked texts are equal only if all their parts are |
| InspectorMarker.MatchIsFramed | frontend/webui/i18n_catalogue.py:30-37 | what is stripped at a place is the start, digits of a key, one flag, digits of a length and the separators between them |
| InspectorMarker.StripMarker | frontend/webui/i18n_catalogue.py:30-37 | stripping a marked text, whatever follows, is stripping the rendered text alone |
| InspectorMarker.StripBefore | frontend/webui/i18n_catalogue.py:30-37 | text before a marker is stripped independently of it |
| InspectorMarker.StripPrinted | frontend/webui/i18n_catalogue.py:30-37 | stripping text with markers inside markers leaves exactly what it shows |
| InspectorMarker.TryMarker | frontend/webui/static/translation-inspector.js:12-16 | a complete marker is taken with its key, flag and as many points as its length says; without three separators nothing is taken |
| InspectorMarker.Inspect | frontend/webui/static/translation-inspector.js:8-18 | the browser takes off exactly the outermost markers and reports each with its key, flag and rendered text |
| InspectorMarker.RoundsStrip | frontend/webui/static/translation-inspector.js:8-18 | as many rounds as markers are nested leave what stripping leaves |
| DependencyClosure.Closure | frontend/webui/profile_privileges.py:4-11 | the worklist ends, cycles or not, with the least closed set that holds the selection |
| DependencyClosure.PermissionClosure | frontend/webui/acl_editor.py:36-42 | so does the iteration |
| DependencyClosure.ClosureIsUnique | frontend/webui/acl_editor.py:36-42 | there is one such set, so both compute the same |
| DependencyClosure.ClosedIs | frontend/webui/acl_editor.py:36-42 | a set is closed if and only if it holds all that each of its members requires |
| DependencyClosure.Dependents | frontend/webui/profile_privileges.py:14-16 | exactly the other selected items that require the given one, directly or not |
| DependencyClosure.RemovalStaysClosed | frontend/webui/acl_editor.py:45-46 | removing an item with its dependents leaves a closed set, the largest without the item |
| AclPlan.PresentAfter | tools/backfill_hierarchical_oversight_acls.py:79-87 | after the plan each contextual principal has exactly its codes on every resource |
| AclPlan.CreatorStays | tools/backfill_hierarchical_oversight_acls.py:45-49 | applying a plan does not change who is recorded as creator |
| AclPlan.CreatorIs | tools/backfill_hierarchical_oversight_acls.py:45-49 | the recorded creator is the one named by the first creation that the history has of the resource |
| AclPlan.FollowsIsCorrected | tools/backfill_hierarchical_oversight_acls.py:66-88 | a table that follows its plan has lost exactly the default grants of creators, and got one grant of each code for each contextual principal that had none on a resource |
| AclPlan.ChangedIsTouched | tools/backfill_hierarchical_oversight_acls.py:78-88 | the changed resources of a scope are exactly those on which a grant appears or goes when its plan is applied |
| AclPlan.NoConflicts | tools/backfill_hierarchical_oversight_acls.py:51-87 | there is nothing to review if and only if no grant of a contextual principal was ever deleted, each of them has exactly its codes or none on every resource, and every management grant of a role is on a resource with a known creator |
| AclPlan.ReplanIsEmpty | tools/backfill_hierarchical_oversight_acls.py:131-133 | planning again after a plan without conflicts finds nothing to add, remove or review |
| AclBackfill.Database.ReadGrants | tools/backfill_hierarchical_oversight_acls.py:66-76 | the first loop finds what each principal has, the grants of creator roles, and those without a known creator |
| AclBackfill.Database.BuildScope | tools/backfill_hierarchical_oversight_acls.py:60-88 | the plan of one table: all codes for principals without any, conflicts for those with others, exactly the changed resources |
| AclBackfill.Database.BuildPlan | tools/backfill_hierarchical_oversight_acls.py:40-90 | the plan of the database, or an error if a required permission is missing |
| AclBackfill.Database.Delete | tools/backfill_hierarchical_oversight_acls.py:120-120 | exactly the given grants go, and the history gets one note for each of them, with its principal, and nothing else |
| AclBackfill.Database.Insert | tools/backfill_hierarchical_oversight_acls.py:121-122 | each addition becomes exactly one grant under a new id |
| AclBackfill.Database.Touch | tools/backfill_hierarchical_oversight_acls.py:123-127 | counter and version of exactly the changed resources go up by one |
| AclBackfill.Database.ApplyScope | tools/backfill_hierarchical_oversight_acls.py:118-127 | planned grants go, each addition becomes one grant, all others stay, and exactly the changed resources get a new version |
| AclBackfill.AppliedByFields | tools/backfill_hierarchical_oversight_acls.py:118-127 | the same for any two databases of which the second follows the plans of the first |
| AclBackfill.Database.ApplyPlan | tools/backfill_hierarchical_oversight_acls.py:93-136 | it succeeds if and only if a reason is given, the plan is current and free of conflicts and the guards are on; otherwise nothing changes; its final assertion never fails. Afterwards each table has lost exactly the default grants of creators and got the missing codes, the version of a resource has risen by the number of its scopes in which a grant on it appeared or went, the counter of each such scope by one, the history notes each of these once, and no other version or counter has changed |
| ReferenceCache.ApiClient.SetSessionToken | frontend/webui/api_client.py:49-57 | a change of token empties the cache, the same token keeps it |
| ReferenceCache.ApiClient.Mutate | frontend/webui/api_client.py:82-89 | no entry survives a mutation, whether it succeeds or fails |
| ReferenceCache.ApiClient.ReferenceGet | frontend/webui/api_client.py:163-181 | an entry that arrived or was confirmed less than 30 seconds ago is returned without a read and nothing changes; otherwise exactly one read is made, now and with the tag of the entry, and its answer is returned and kept, a confirmed entry is kept as from its arrival, and a failure changes nothing; the value is what the last confirming read told, and the present one if nobody else changes values |
| ReferenceCache.Server.Read | frontend/webui/api_client.py:163-181 | a read is recorded with the times it was sent, answered and arrived; its answer is true of the value held when it was answered |
| ReferenceCache.LatelyIff | frontend/webui/api_client.py:163-181 | for all histories of reads: the returned value was held within the last 30 seconds in every server history that agrees with them if and only if its last confirming read was sent less than 30 seconds ago |
| ReferenceCache.TruthIsConsistent | frontend/webui/api_client.py:163-181 | what really happened is one of these histories |
| ReferenceCache.FreshButOld | frontend/webui/api_client.py:163-181 | a history with an answer under way for four seconds, in which a fresh entry is older than that |
| EnvFile.LinesAppend | tools/reconcile_local_env.py:14-17 | the lines of a finished text are not changed by what follows it |
| EnvFile.LinesByBreak | tools/reconcile_local_env.py:14-17 | a line ends at the first break, and a carriage return with a line feed is one break |
| EnvFile.AssignmentOf | tools/reconcile_local_env.py:9-9 | a key, an equals sign and a value read as that assignment, for every key and value |
| EnvFile.AssignmentIff | tools/reconcile_local_env.py:9-9 | a line is an assignment of a value to a key if and only if it is the key, an equals sign and the value, blanks around the key allowed and export with a blank before it too |
| EnvFile.PlaceholderIff | tools/reconcile_local_env.py:28-30 | a value is a placeholder if and only if it has replace with an underscore or hyphen, in any case, or something between angle brackets |
| EnvReconcile.WalkMeant | tools/reconcile_local_env.py:18-39 | one pass adds, for each missing key, the first usable value of the template, and skips exactly the missing keys whose first line holds a placeholder |
| EnvReconcile.FirstOfferIs | tools/reconcile_local_env.py:18-37 | the first usable value is that of the first line that assigns the key a value that is no placeholder, or the token for the secret |
| EnvReconcile.EffectiveIs | tools/reconcile_local_env.py:16-17 | the effective value of a key is that of the last line that assigns it |
| EnvReconcile.CommentsGoAlong | tools/reconcile_local_env.py:20-37 | the comments right above a line that is added are added before it |
| EnvReconcile.CommentsEnd | tools/reconcile_local_env.py:20-27 | a blank line or an assignment drops the comments above it |
| EnvReconcile.Pass | tools/reconcile_local_env.py:18-39 | the loop computes that pass |
| EnvReconcile.AppendedSettings | tools/reconcile_local_env.py:40-47 | the text appended adds exactly the new settings, however the file ended |
| EnvReconcile.Reconcile | tools/reconcile_local_env.py:12-48 | the file keeps its text, every key it has keeps its effective value, every other key gets the first usable template value; what is appended is a break if the last line is open, an empty line, the header and the new lines, or nothing |
| EnvReconcile.RunTwice | tools/reconcile_local_env.py:12-48 | a second run appends nothing, and skips the same keys if and only if no missing key has a placeholder first and a usable value later in the template |
| EnvReconcile.PlaceholderThenValue | tools/reconcile_local_env.py:28-38 | such a template, for which the second run skips fewer keys |
| DemoNumbering.DealtStep | database/seeds/seed_uscr_shj_arabic_demo.py:202-211 | each turn gives the next serial to one classification and leaves the others |
| DemoNumbering.BuildPlan | database/seeds/seed_uscr_shj_arabic_demo.py:195-251 | the k-th aggregation belongs to classification k-1 mod T and is numbered by its code, the year and serial (k-1) div T + 1; its records are numbered from 1 after it, in order and without gaps, with one to three components in turn; the totals follow the closed forms, for any number of aggregations and classifications |
| DemoNumbering.SerialsAreContiguous | database/seeds/seed_uscr_shj_arabic_demo.py:202-211 | the serials of a classification are exactly those from 1 to the number of its aggregations, for any number of aggregations and classifications |
| DemoNumbering.AddRecords | database/seeds/seed_uscr_shj_arabic_demo.py:226-251 | the records of one aggregation are numbered from 1 and continue the totals |
| DemoNumbering.ExpectedCounts | database/seeds/seed_uscr_shj_arabic_demo.py:254-257 | 400 aggregations have 1600 records and 3199 components |
| DemoNumbering.AggregationNumbersDiffer | database/seeds/seed_uscr_shj_arabic_demo.py:206-210 | all aggregation numbers are different texts |
| DemoNumbering.RecordNumbersDiffer | database/seeds/seed_uscr_shj_arabic_demo.py:230-231 | so are all record numbers, and none is an aggregation number |

## Left out

- Workspaces: writing the receipt is one step, and a write into a removed directory fails. The steps of removing a directory come in any order, but its content goes first.
- WorkspaceRecovery.Root.Visit: an acknowledgement that raises FileNotFoundError, which the pass would take for a missing file and go on, is not among the failures.
- SQL by the manual: lines end at a line feed, as in sources read with universal newlines. Which operators, numbers and keywords there are makes no difference to the tokens here.
- Recovery when more directories exist than the limit: the pass is proved for any limit, but not that later passes ever reach the rest.
- Nested workspaces of one owner: a child may inherit the locks of several, but an owner in the model has one.
- Mailbox: no other reconciliation runs while a run reads back its checkpoint. The server answers a catch-up request from one consistent view of its rows, as its serializable transactions provide. Two tabs that share one stored checkpoint are not modelled.
- Mailbox: a checkpoint is stored, kept or lost by each save; the comparison in the browser that keeps the larger one is covered by these. The content of messages and the number of unread ones are left out.
- Event framing: decoding the payload as JSON, and the WebSocket branch.
- Local stack: `stop`, `start`, `changing_state` and `remember_shutdown`, which only sequence these operations around a state file. A remember callback that raises. The order of signals within one round is left open. A snapshot is one step, and identities are unique and do not change.
- Wall time: zones with transitions closer than their jumps, the rule that continues a zone after its last transition, fractions of a second, unknown zones, values that already carry an offset, and the end of the calendar.
- InspectorMarker.TryMarker: which digits a browser makes of characters that are not selectors is left open, because no marker the server writes has any.
- Inspector markers: UTF-8, and lengths the browser cannot represent exactly. Who may inspect.
- Message templates: sequential replacement of parameters.
- Access-list backfill: rows are taken in any order; the hash of a plan is replaced by the plan itself; locks, triggers and the rollback of a failed transaction. Role ids and creators are compared as ASCII digits. Deletions and insertions are assumed to be noted in the history as such and nothing else to change meanwhile.
- Reference cache: overlapping requests, shared in-flight reads, the private copies that callers get, and headers.
- Environment file: encoding and file permissions. Letters are compared without case only in ASCII.
- Demo numbering: titles, dates, owners, and the choice of component files.
- The database schema, its triggers and migrations, all screens, and the one-line wrappers of the API client.
