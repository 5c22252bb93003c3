# whisrs: a model of its agent sessions

whisrs is a voice daemon that drives coding agents. This project models the parts of it that
are protocols, incremental algorithms or encoders, and proves what they promise for every
input, every run and every behaviour of the world around them.

| file | part of whisrs |
|---|---|
| `Claude.dfy` | the Claude session driver: stop, wait, resume, discard copies, retry once |
| `ClaudeWorld.dfy`, `ClaudeTurns.dfy`, `ClaudeRecord.dfy` | its world and what is safe in it, the account of what a turn did, the account of what it remembers |
| `ClaudeRuns.dfy` | runs of it that show what its waits do not cover |
| `Handshake.dfy`, `LaunchHandshake.dfy` | a stop that meets a starting process or launch |
| `ProcessTree.dfy` | finding and signalling all processes of a turn |
| `Turn.dfy` | what a running turn and the runtime share |
| `Progress.dfy` | activities and interims: the shared specification, tracker and gate |
| `StreamState.dfy`, `RunTurn.dfy` | a process-per-turn harness's output, its verdict, the start fallbacks |
| `Tail.dfy`, `LineReader.dfy` | reading a growing transcript, reading lines in bounded memory |
| `Search.dfy`, `Paging.dfy` | case-folded search and paged transcripts |
| `Replacements.dfy` | whole-word replacements in one pass |
| `Board.dfy` | the overlay's rows over time |
| `SessionId.dfy`, `Toml.dfy`, `Shell.dfy` | ids that sort by time, and quoting undone by its reader |
| `Basics.dfy` | small datatypes and text functions |

Objects the program updates in place are classes whose methods are proved against a
specification that looks at the whole input at once: the whole output for `StreamState`, the
whole file for `Tail`, the whole stream for `LineReader`, the whole list of actions for the
Claude driver. The two handshakes are state machines whose runs are arbitrary lists of steps.

The world is an argument: the process table, what a listing shows, how long a command takes,
what a launch prints, how a stream is cut, when a file is looked at. Library and table-driven
functions are function-valued arguments, so results hold for all of them: `char::to_lowercase`,
the regex classes and simple case folding (only that folding keeps word characters and
separators what they are and, where keys are compared, is an equivalence), the spoken-pair scan, tool labels, the transcript line parser.

## Where the code differs from what one might expect

- A wait for a session's exit is documented as at most `stop_wait` (src/agent/claude.rs:1129-1135).
  The check comes after a listing, so it can end later: by less than the longer of one poll with
  one listing's timeout and one exit poll, and the settle grace after a success
  (`Claude.Driver.WaitForExit`). Where the exit poll is the shorter one, as in the program, that
  bound is reached (`ClaudeRuns.WaitOverruns`).
- A resume is launched only when every process the session was ever listed with has exited
  (`ClaudeWorld.SafeMeans`). Of what other tasks note that covers less: not what they note during
  the settle grace (`ClaudeRuns.ResumesTooEarly`), which a look at what is remembered just before
  the launch would show, exactly (`Claude.Driver.ResumeIsCleanExactlyWhen`); and not what they
  note between a check and the forget after it, two steps with no lock held in between. Such a
  note is lost, and a later resume does not wait for its process (`ClaudeRuns.LosesANote`);
  nothing else is (`ClaudeRecord.RememberedExactlyWhen`).
- One turn's stop and launch never both miss (`ProcessHandshake.NeverBothMiss`). Over several
  turns a stop can miss a process that an earlier turn's late registration displaced. A turn is
  exposed to that exactly when it begins while an earlier turn's thread, or its task, has yet to
  register a process (`ProcessHandshake.MissedExactlyWhen`); then nothing else ever stops the
  process (`MissedForGood`).
- A Claude launch is always stopped by someone, except exactly a resume whose copy note names
  the session itself and that starts after the runtime's stop (`LaunchHandshake.LaunchedIsStopped`).
- Session ids sort newest first only within one window of 2^36 milliseconds
  (`SessionId.NewestFirst`, `OrderStartsOver`, `AcrossWindows`).
- Two replacement keys with the same normalized form are documented to match exactly the same
  text (src/replacements.rs:57-58). They do exactly when their words are alike up to case folding
  (`Replacements.SameTextsExactlyWhen`); U+0130 and "i" with U+0307 are not
  (`NormalizedAlikeMatchesNothingAlike`), and one of them is dropped.
- A session recorded as pending with no id is the one case in which the runtime's pending flag
  differs from the turn's (`StreamState.RuntimeKnowsTheSession`); no driver makes one.

## Model

| member | source | states |
|---|---|---|
| ClaudeWorld.SafeMeans | src/agent/claude.rs:1069-1112 | in any run of the driver, at every resume of a session with a bg id: the listing read last shows the session with no process; every process any listing read for it ever showed running has exited for good, and so has every one other tasks noted for it up to the last check, except by a note between a check of the session and its forget, unless the session was given up since, whatever listings showed and however pids were reused; the check was at most the settle grace ago |
| Claude.Driver.ResumeIsCleanExactlyWhen | src/agent/claude.rs:1089-1095 | at any time, so also at a launch, everything shown to anyone by then, lost notes apart, has exited exactly when no process remembered runs: what the driver could read before a resume |
| ClaudeRecord.RememberedExactlyWhen | src/agent/claude.rs:1069-1112 | of all that run, exactly those are remembered that were ever listed or noted and not given up on, other than by a note between the session's own check and its forget |
| Claude.Driver.ForgetChecked | src/agent/claude.rs:1104-1110 | what is forgotten has all exited; other tasks may note between the check and the forget, and exactly what they note for that session is lost |
| ClaudeWorld.ReadMeans | src/agent/claude.rs:334-352 | what one listing shows, spelled out: a process running under the listed pid when the listing was read, the session with no process, or no such session; a listing that took too long shows nothing |
| ClaudeWorld.WorksAloneExactlyWhen | src/agent/claude.rs:376-386 | a session works on its own exactly when it is listed with a process and either works, or is busy and neither waits nor failed or stopped |
| ClaudeWorld.EverMeans | src/agent/claude.rs:1069-1098 | what counts as shown: the process that a listing read for the session names, running when the listing was read, the session not given up since |
| Claude.Driver.NextTurn | src/agent/claude.rs:1457-1598 | the session is listed first; a turn is refused exactly when that shows it working on its own, and then nothing else happens; otherwise an old process that may run is told to stop; at most two launches, each a resume of the session under its own id, or the one first listed, except that a new session is begun exactly when no id is known or the listing read last does not show the session; between them both the session and what the first one started are told to stop; whatever was launched is told to stop later, except the session a started turn runs in; nothing else than the session and what was launched is touched, and the session itself never gets `claude rm`; nothing is launched after a wait ran out; a resume that runs reports the session's own bg id; where it is not sent, the reason given is what happened: a wait that ran out, exactly when that is the last event, two resumes that both made a copy or may have, or a last launch that failed; and it is not sent for a stop of the turn exactly when some launch of it, neither a copy nor perhaps one, was marked stopped by the time it was reported, so the launch of a turn that was sent was not |
| Claude.Driver.Prepare | src/agent/claude.rs:1464-1522 | one listing decides whether the turn is refused, the session taken for removed, settled, or stopped and waited for, and how that wait ended decides the rest; ready only when it was listed with no process and everything shown for it has exited |
| Claude.Driver.Resume | src/agent/claude.rs:1531-1598 | the resume is launched at once; after a copy, or what may be one, it is tried once more, only after the session was told to stop again, a listing without a process and the exit of everything shown, what listings showed of the first resume included; given up exactly for the reason given, for a stop of the turn exactly when a launch found it marked; both attempts' copies are stopped then; a new session is begun instead exactly when the session is no longer listed |
| Claude.Driver.StopAndWait | src/agent/claude.rs:1441-1446 | the session was told to stop, then waited for; it may be resumed only after an exit |
| Claude.Driver.WaitForExit | src/agent/claude.rs:1136-1176 | lists at once, then one poll after each listing read as long as `stop_wait` is not up; goes on only after a listing that fails, shows a process, or shows nothing while one is still up; success only with everything shown gone for the whole settle grace, and at once when none was up; it gives up only after `stop_wait`; the least bound on its time |
| ClaudeRuns.ResumesTooEarly | src/agent/claude.rs:1464-1548 | a run that resumes a session while a process remembered for it runs: another task noted it during the settle grace |
| ClaudeRuns.LosesANote | src/agent/claude.rs:1103-1112 | a run that loses a note, then a turn later resumes the session while that process runs, though it was noted before that turn's check |
| ClaudeRuns.WaitOverruns | src/agent/claude.rs:1129-1176 | worlds in which a wait, with or without success, ends one poll and one full listing after the last moment before `stop_wait`, for any poll no longer than a listing may take |
| Claude.Driver.WaitRemembered | src/agent/claude.rs:1103-1112 | true only when everything shown has exited; false only with a process shown that still runs, after `stop_wait` |
| Claude.Driver.Settle | src/agent/claude.rs:1182-1202 | with a process remembered, success only when everything shown has been gone for the whole settle grace; with none, at once, and everything shown is gone; else one still runs |
| Claude.Driver.Note | src/agent/claude.rs:1069-1082 | what the listing shows running is remembered from then until it is seen to exit; what is dropped has exited for good; nothing else is remembered |
| Claude.Driver.NoteUntil | src/agent/claude.rs:1220-1245 | lists until a listing shows the session (with a process), or `copy_list_wait` is up; what each shows is remembered |
| Claude.Driver.StopResumed | src/agent/claude.rs:1252-1261 | listed until it shows with a process or the time for that is up, then told to stop, never removed |
| Claude.Driver.StopNoting | src/agent/claude.rs:1117-1127 | one listing, then the stop, and nothing else |
| Claude.Driver.DiscardCopy | src/agent/claude.rs:1272-1302 | whatever the world does, a copy is listed until it shows or the time is up, stopped, waited for, removed only once its processes exited or the wait ran out, and given up |
| Claude.Driver.LaunchReported | src/agent/claude.rs:1330-1385 | each end is what the printed id and note and the mark at the report time say: running exactly when the session itself was started and the turn not stopped by then, stopped exactly when it was, a copy or perhaps one exactly when another id or a note was printed; a copy is discarded and never reported; nothing but what was launched is touched |
| Claude.Driver.FirstTurn | src/agent/claude.rs:1397-1439 | one launch, reported with its own id, not taken for a resume; then looked up, a second apart, until a listing knows its session id, or ten times; not sent exactly when the launch failed or the turn was stopped meanwhile |
| ClaudeWorld.CopyId | src/agent/claude.rs:282-292 | the copy is never the session's own id; none only when the session's own id was printed and no other id noted |
| ClaudeRecord.NoneRuns | src/agent/claude.rs:1089-1098 | nothing remembered runs implies that everything ever shown has exited for good |
| ClaudeRecord.AccountMeanwhile | src/agent/claude.rs:1893-1950 | while the driver waits, other tasks may note what their listings show at any moment; what is remembered stays complete, and holds nothing that was not shown |
| ClaudeRecord.AccountForgot | src/agent/claude.rs:1103-1112 | so it does when they note between a check and its forget, for every session but the one forgotten |
| ProcessHandshake.NeverBothMiss | src/agent/process.rs:1262-1291 | in every interleaving of one turn's runtime, thread and task: the stop finds the process, or the thread sees the stop, stops it and writes no prompt, or it exited or its guard stopped it |
| ProcessHandshake.StoppedTurnsAreHandled | src/agent/process.rs:1083-1155 | over any number of turns sharing the registry: once a launch is over and it was looked up, or a later turn waited for what was registered, its process exited or is being stopped, unless an earlier turn's process was registered after it and its task, not dropped when the pipes were handed over, never took them |
| ProcessHandshake.PromptExactlyWhen | src/agent/process.rs:1262-1291 | in every interleaving, the prompt of a process is written exactly when its turn was not marked at the thread's check and its task not dropped at the hand-over; else the thread stops it |
| ProcessHandshake.OrdinaryTurn | src/agent/process.rs:1249-1306 | from any such state a turn that nobody stops begins, gets its prompt and its pipes, and leaves nothing registered and nothing stopped |
| ProcessHandshake.EntriesLeave | src/agent/process.rs:1088-1094 | a registry entry goes only for a process that exited or is being stopped, or for one registered in its place; and it does go at the end of its own task, of its stop, or of a later turn's wait |
| ProcessHandshake.MissedExactlyWhen | src/agent/process.rs:1526-1537 | a turn about to begin can come to be missed exactly when the process of an earlier turn may still come to be registered |
| ProcessHandshake.EarlierTurnsAreDoomed | src/agent/process.rs:1524-1537 | never two processes at once: a turn begins only once each earlier one was stopped and aborted or its task ended, and when it may spawn, each earlier process exited, is being stopped, will be stopped without its prompt, or was displaced |
| ProcessHandshake.NextKeepsInv | src/agent/process.rs:1690-1697 | every step of every party keeps registry, lookup, wait and prompt consistent, for every turn and every pair of turns |
| ProcessHandshake.LateEntryMisses | src/agent/process.rs:1083-1085 | from any such state, a run in which the late entry takes the place of the next turn's process, which gets its prompt, is not found by its stop and is never handled |
| ProcessHandshake.MissedForGood | src/agent/process.rs:1088-1094 | after that no step but its own exit handles it |
| LaunchHandshake.LaunchedIsStopped | src/agent/claude.rs:1342-1382 | in every interleaving what was launched is stopped, except exactly an unclear resume after the runtime's stop |
| LaunchHandshake.UnclearResumeIsMissed | src/agent/claude.rs:1359-1366 | the run in which that happens, after which no step changes anything |
| Turn.TurnUpdates.ReportSession | src/agent/mod.rs:667-675 | the ids are kept and the stop flag read in one step |
| Turn.ReconstructedReads | src/agent/mod.rs:667-675 | the runtime's session is the one reported last, and the start's while none is |
| Turn.TurnUpdates.Stop | src/agent/mod.rs:685-689 | the stop is marked and returns the newest of all ids sent |
| ProcessTree.Tree.Grow | src/agent/process.rs:598-616 | on any process table the walk ends with the old entries plus exactly the descendants of the root and of live seen processes, none added twice |
| ProcessTree.Tree.Signal | src/agent/process.rs:630-641 | a pid is signalled exactly when the process that has it now was seen, by pid and start time, and is no zombie, and it is not 0, 1, the daemon or beyond the largest pid: never a stranger that took over the pid |
| ProcessTree.GroupTarget | src/agent/process.rs:553-561 | the negated group id, never group 0 or every process |
| ProcessTree.TurnProcess.Escalate | src/agent/process.rs:1017-1049 | succeeds exactly when the process has exited and nothing of its group, its located scope or those seen is left, a reused pid not counting; signals in order, each only while something is left and after the last one's grace, each to exactly the processes that the walks so far, the last at that moment, have seen and that run, the turn's own process exited or not; walks never more than a poll apart; each goes to the scope too, whose unit is stopped in the end; bounded time |
| ProcessTree.ExitedIsNotWalked | src/agent/process.rs:989-994 | once the turn's process has exited, a walk finds only what is below seen processes that still run, whatever has its pid then |
| ProcessTree.OrphansAreReached | src/agent/process.rs:618-641 | what a walk found below the turn's process while that ran is a target of every later signal for as long as it runs, though its parents are gone |
| ProcessTree.TurnProcess.WaitGone | src/agent/process.rs:1053-1066 | walks every poll from the start until nothing is left or the grace is up; what it has seen is exactly what those walks find; true exactly when everything is gone |
| ProcessTree.WalkEnds | src/agent/process.rs:600-616 | an exhausted worklist means everything reachable was found |
| ProcessTree.ClosedHoldsReach | src/agent/process.rs:600-616 | a set of pids closed under children holds whatever it reaches |
| Progress.ReleasedOnceBeforeTheLastCall | src/agent/progress.rs:222-262 | each text with a pair is released at most once, and none after the last tool call ever is |
| Progress.ActivitiesAreCollapsedLabels | src/agent/process.rs:259-264 | the activities sent are the tool labels with consecutive repeats collapsed |
| Progress.ChosenIsLastSpoken | src/agent/progress.rs:229-251 | the text released is the last one with a pair since the previous tool call |
| Progress.ExtendOne | src/agent/progress.rs:240-262 | reading the whole transcript is worth what the tracker sends beat by beat |
| Progress.ReportsGrow | src/agent/progress.rs:229-262 | nothing sent is ever taken back by what follows |
| Progress.InterimTracker.OnText | src/agent/progress.rs:246-250 | holds the text a tool call would release, for everything fed so far |
| Progress.InterimTracker.OnTool | src/agent/progress.rs:254-256 | releases that text and holds nothing |
| Progress.SameReplyMeans | src/agent/spoken.rs:82-84 | two replies are the same when they differ in whitespace alone, and not when a word differs |
| Progress.SplitsAtWhitespace | src/agent/spoken.rs:82-84 | a text splits into words at every whitespace character |
| Progress.ProgressGate.Admit | src/agent/progress.rs:311-333 | a line is admitted exactly when the level still allows it over the whole turn: none, one, or ones apart in time and all different |
| StreamState.StreamState.Take | src/agent/process.rs:244-274 | sends what the whole output so far is worth, and stays a reading of it |
| StreamState.StreamState.SkippedLine | src/agent/process.rs:276-282 | a skipped line sends nothing |
| StreamState.StreamState.TurnOutcome | src/agent/process.rs:357-394 | the verdict on the whole output |
| StreamState.VerdictReads | src/agent/process.rs:352-394 | the harness's failure exactly when an error occurred or a recoverable one was never followed by a text; else a reply exactly when the last message says something and no unreadable line follows the last text |
| StreamState.ReplyReads | src/agent/process.rs:302-319 | the reply is each non-blank text of the last message, trimmed, in the order written |
| StreamState.JoinsByNewlines | src/agent/process.rs:311-318 | one part is itself, and one newline stands between two |
| StreamState.FailureReads | src/agent/process.rs:364-371 | the failure told is the last error, and the last recoverable one where there is no error |
| StreamState.FinalMessageExists | src/agent/process.rs:302-319 | there is a final message exactly when a part of the last message is not blank |
| StreamState.ShownIsReports | src/agent/process.rs:244-274 | apart from session updates, exactly the shared reading of the transcript is sent |
| StreamState.BeatsAre | src/agent/process.rs:253-269 | the transcript read is every text and every tool call of the output, in order, and nothing else |
| StreamState.CurrentIdReads | src/agent/process.rs:246-252 | the turn's id is the one named last, and the start's while none is |
| StreamState.SessionReportCases | src/agent/process.rs:246-300 | a session update is sent for another id, and for the first text or tool call of a pending one, and else never |
| StreamState.RuntimeKnowsTheSession | src/agent/process.rs:245-300 | the runtime's session always has the turn's id, and its pending flag except exactly for a start pending without an id |
| StreamState.PendingReads | src/agent/process.rs:284-291 | an id stays pending exactly until a text, a tool call or another id |
| StreamState.ConfirmedStaysConfirmed | src/agent/process.rs:284-300 | a confirmed id never becomes pending again |
| StreamState.NoUpdateSaysPending | src/agent/process.rs:293-300 | no update sent while reading says pending |
| RunTurn.RunTurn | src/agent/process.rs:1542-1672 | at most three starts, each the retry of the one before; a harness that never ran leaves the runtime's session as it was; otherwise the verdict and the updates are those of the last output |
| RunTurn.RuntimeAfterTheTurn | src/agent/process.rs:1573-1592 | a session minted by the launch, reported pending, ends as the output leaves it |
| RunTurn.After | src/agent/process.rs:936-952 | another way is tried only when a scope's process failed and printed nothing, and there are ever fewer left |
| RunTurn.RetryExactlyWhen | src/agent/process.rs:936-952 | exactly when a start is retried, and how |
| RunTurn.ItemsAre | src/agent/process.rs:1425-1447 | a line too long is one skipped line, any other all it says, in order |
| RunTurn.FreshExactlyWhen | src/agent/process.rs:1572-1585 | the session is new, and reported as pending, exactly when the launch names another id |
| RunTurn.ReadTurn | src/agent/process.rs:1397-1483 | every line in order, and nothing held is released at the end |
| LineReader.LineReader.Next | src/agent/process.rs:1349-1376 | the next line of the stream whatever the chunks; never more than `max` bytes held; a call dropped at its await loses nothing |
| LineReader.ReadAll | src/agent/process.rs:1338-1384 | all lines of the stream, for any chunks and any dropped calls |
| LineReader.PiecesAreTheLines | src/agent/process.rs:1325-1384 | there is one way to cut a stream into newline-terminated pieces and a tail |
| LineReader.CutAllMeans | src/agent/process.rs:1362-1370 | a line within the cap is kept whole; a longer one is cut to exactly the cap and marked |
| LineReader.LinesFirst | src/agent/process.rs:1349-1376 | a finished line is the first of what is left, cut exactly when it was longer |
| Tail.Tail.Feed | src/agent/claude_tail.rs:224-247 | the complete lines of the bytes read are handled, the offset is just after the last of them, what is held is dropped when the file was rewritten |
| Tail.Tail.HandleEvent | src/agent/claude_tail.rs:249-267 | sends what the beats so far are worth; a watched-again turn hears no texts |
| Tail.LineBeatsMean | src/agent/claude_tail.rs:235-245 | a line from before the turn, or without a time or a parse, says nothing; any other says all its events |
| Tail.EventBeatsAre | src/agent/claude_tail.rs:249-267 | every event is heard in order, a text only in a live turn |
| Tail.CompleteLinesCut | src/agent/claude_tail.rs:224-234 | the lines handled are everything up to the last newline, cut at every newline |
| Tail.ReadFrom | src/agent/claude_tail.rs:189-198 | reads on from the offset, and from the start when the file got shorter |
| Tail.Follow | src/agent/claude_tail.rs:138-163 | for a file that only grows, whenever it is looked at, what is sent is what one read of all complete lines sends, each handled once |
| Tail.CompleteLinesAppend | src/agent/claude_tail.rs:224-247 | reading on after a newline gives the same lines as reading at once |
| Tail.ReadsOn | src/agent/claude_tail.rs:189-198 | an offset after the last newline continues the file exactly |
| Search.FindCi | src/mcp.rs:637-652 | found exactly when the folded text contains the needle, though folding changes lengths, so a text that holds the query in any ASCII case is found; the range is whole characters, from the one the first match starts in to the one it ends in |
| Search.AsciiFoundExactlyWhen | src/mcp.rs:608-631 | in ASCII text the fold of an ASCII query is found exactly when the text holds the query up to the case of letters |
| Search.AsciiFoldsByCase | src/mcp.rs:613 | of ASCII characters, folding identifies exactly the two cases of a letter |
| Search.OthersFoldByLowerCase | src/mcp.rs:615-619 | of the others but U+0130, exactly those with the same lower case up to the form of a sigma |
| Search.DottedIFoldsLikeI | src/mcp.rs:614 | the dotted capital I is found as an i |
| Search.BuildOrigin | src/mcp.rs:641-646 | every byte of the fold is mapped to the start of its character |
| Search.SnippetIsContext | src/mcp.rs:656-677 | always defined on such a range: 60 characters either side, marked where cut |
| Search.SnippetShowsTheHit | src/mcp.rs:656-677 | the snippet of a hit contains the needle itself |
| Paging.Transcript | src/mcp.rs:550-605 | a page holds the matching lines up to its end and no others, within the cap unless one long line; it goes on exactly at the first line that does not fit; the two refusals |
| Paging.MatchesOverlap | src/mcp.rs:579-584 | a line matches exactly when it is the speaker's and some moment of it lies in the time asked for |
| Paging.FollowPages | src/mcp.rs:578-605 | following `next_offset` with any sizes ends, and the pages joined are all matching lines, no gap and no repeat |
| Replacements.KeySplits | src/replacements.rs:50-55 | hyphens and whitespace separate the words of a key and are no part of them |
| Replacements.EdgesMeanWholeWords | src/replacements.rs:36-48 | the `\b` and `\B` choice is exactly no word character on the far side |
| Replacements.BodyEndIsTheMatch | src/replacements.rs:116-128 | a key matches in at most one way at a position, found greedily |
| Replacements.FirstKeyIsFirst | src/replacements.rs:105-131 | the key taken is the first in order of those standing there as whole words |
| Replacements.LongestWins | src/replacements.rs:99-101 | no key standing there is longer than the one taken |
| Replacements.SameTextsExactlyWhen | src/replacements.rs:57-64 | two keys match the same text exactly when their words are alike up to case folding, and otherwise have no text in common |
| Replacements.DroppedKeyExactlyWhen | src/replacements.rs:82-92 | of two keys with one normalized form, the dropped one matched what the kept one matches exactly when it matches that form |
| Replacements.NormalizedAlikeMatchesNothingAlike | src/replacements.rs:57-64 | two keys with one normalized form that match different text |
| Replacements.MakeEntries | src/replacements.rs:82-101 | one entry per normalized form, the last key's, longest first |
| Replacements.OrderMeans | src/replacements.rs:101 | longer forms first, and of equally long ones the smaller where they first differ |
| Replacements.EntriesAreUnique | src/replacements.rs:82-101 | the table alone decides the entries and their order |
| Replacements.Replacer.New | src/replacements.rs:80-134 | nothing exactly when no key is usable |
| Replacements.Replacer.Apply | src/replacements.rs:137-161 | equals the left-to-right single-pass rewrite |
| Replacements.EmptyValueTakesTheBlanks | src/replacements.rs:150-157 | a key with an empty value goes together with all the blanks after it |
| Replacements.ValueTakesThePlace | src/replacements.rs:150-157 | any other value takes the key's place and leaves what follows |
| Replacements.RewriteGap | src/replacements.rs:150-159 | where no key stands the text is copied verbatim |
| Replacements.BlanksHideNothing | src/replacements.rs:131-156 | taking trailing blanks along never hides a later match |
| Board.NextChangeIsExact | src/agent/display.rs:380-390 | the composition is constant until the time given and loses a row at it, or is constant forever |
| Board.ComposeLater | src/agent/display.rs:327-378 | time alone only removes rows, each at its own time, in order |
| Board.PendingRowStays | src/agent/display.rs:300-310 | a finished row is shown for as long as its agent is pending |
| Board.AlphaFollowsTheRow | src/agent/display.rs:108-117 | a row is drawn with some opacity exactly while it is composed, fading evenly over 600 milliseconds |
| Board.EndedRowReads | src/agent/display.rs:362-398 | an ended turn's row lasts while its reply is pending, then 2.5 seconds from its end or from the end of the reply, whichever is later, and fades for 0.6 more |
| Board.EntryReads | src/agent/display.rs:325-355 | the voice wins over a wait, a wait over work, and whose timer each row has |
| Board.ClockReads | src/agent/display.rs:151-159 | the clock shows the whole seconds as hours, minutes and seconds |
| Board.Split | src/agent/display.rs:128-143 | every agent is shown or counted, never more rows than there is room for, never "+1 more", and no room left over |
| Board.Board.NextChange | src/agent/display.rs:383-390 | the timer is set in the future, for the moment a row is lost; until then, or forever when it is not set, the composition is the same |
| Board.Board.TurnStarted | src/agent/display.rs:252-261 | the agent's row is Working from then, everyone else's stays |
| Board.Board.TurnEnded | src/agent/display.rs:290-298 | an end leaves a Done or Error row exactly as long as it should; ignored with nothing running |
| Board.Board.SetNeedsYou | src/agent/display.rs:272-276 | a wait shows at every time and keeps its first start |
| Board.Board.SetPending | src/agent/display.rs:302-310 | exactly the named agents are pending, and their finished rows stay at every time |
| Board.Board.Clear | src/agent/display.rs:316-322 | the agent's row is gone unless the voice is its |
| SessionId.SessionIdAt | src/agent/opencode.rs:230-243 | the loop gives the hex of the low 48 bits and 30 characters in all |
| SessionId.IdReads | src/agent/opencode.rs:230-243 | the twelve characters after `ses_` are the low 48 bits of the inverted stamp in lower-case hex; the rest are letters and digits |
| SessionId.StampFits | src/agent/opencode.rs:232 | the addition never overflows |
| SessionId.IdsSortByWhatTheyKeep | src/agent/opencode.rs:230-243 | ids sort newest first by time modulo 2^36 and counter modulo 4096, whatever the random parts |
| SessionId.NewestFirst | src/agent/opencode.rs:215-217 | within one window a later id always sorts first |
| SessionId.OrderStartsOver | src/agent/opencode.rs:232-236 | in the next window exactly from the same point on |
| SessionId.AcrossWindows | src/agent/opencode.rs:232-236 | a later id that does not sort first |
| Toml.TomlRoundTrip | src/agent/codex.rs:217-235 | a TOML basic-string reader gives back every text, and reads nothing after it |
| Toml.NoControlWritten | src/agent/codex.rs:219-235 | no control character is written unescaped |
| Toml.PlainIsWrittenAsIs | src/agent/codex.rs:219-235 | text without quotes, backslashes and control characters is written as it is |
| Toml.InstructionConfig | src/agent/codex.rs:211-215 | a blank instruction gives nothing; any other reads back trimmed as the setting's value |
| Shell.QuoteRoundTrip | src/agent/claude.rs:179-187 | a POSIX shell reads any quoted string as one word equal to it |
| Shell.QuotedExactlyWhen | src/agent/claude.rs:179-187 | what is left unquoted is exactly a non-empty string of letters, digits and the signs that are safe |
| Shell.HookCommandIsFourWords | src/agent/claude.rs:192-198 | the hook command is always four words with both paths intact |

## Left out

- Claude.Driver.NextTurn: of the other tasks, only what they note is interleaved with it, at its awaits and between a check and its forget, at most one pid for a session each time; not a stop by the runtime, whose marks it reads. A turn aborted at an await is a prefix of a run, and the record holds at every await.
- Claude.Driver.LaunchReported: how a launch is run (a scope of its own, its fallbacks, time limits) and its output's parsing; it starts from what was printed.
- ProcessHandshake.StoppedTurnsAreHandled: a turn has one process; a start fallback's next one, after the first exited, is not modelled, and a start that fails is a turn whose task ends.
- Claude `watch`: hooks, polls and the end of a Claude turn.
- ProcessTree.TurnProcess.Escalate: how the service manager delivers a signal to a scope or stops its unit, and sharing one stop among several callers.
- LineReader.LineReader.Next: a read error, which ends the stream for its caller.
- Tail.Tail.Feed: a file rewritten to at least its old length cannot be told from one that grew, as in the program.
- StreamState.StreamState.TurnOutcome: the wording of failures, and which stderr line is quoted.
- Search.FindCi: the loop over recordings and its limit; the empty needle, which `search` refuses before.
- Paging.Transcript: looking the speaker up by name, and rendering a line.
- Replacements.Replacer.Apply: the regex engine; a leftmost-first search for the generated pattern is modelled, with the match relation of each alternative.
- Replacements.MakeEntries: the library sort is modelled by insertion into an ordered list.
- Shell.HookCommandIsFourWords: what a shell does after it has the words (reserved words, assignments, aliases).
- Harness-specific line parsers, process spawning, services, audio, hotkeys, the overlay's drawing, configuration and history: mostly input and output.
- `src/state.rs` and the pause tracker of `src/hooks.rs`: small transition tables with nothing that spans several functions.
