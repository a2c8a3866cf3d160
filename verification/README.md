# multimux: a verified model

multimux is a daemon that keeps tmux sessions and shows them in a browser grid. This
project models the parts of it that are state machines, protocols or algebra, in Dafny
4.11, and proves what they promise. Run `dafny verify dfyconfig.toml` to check it.

Code that works step by step is written as classes and methods with loops; each method is
proved against a specification function, and the theorems are about those functions, over
all inputs and, for the protocols, over every run of a step relation. History variables
(logs, counters) are used only to state what happened.

- **Window-size arbiter.** `ArbiterState` has the atomic steps as functions, `Arbiter` the
  classes whose methods are proved to take exactly those steps. Resize and ClaimInput are
  split where the arbiter's lock is released: any other step may come in before the tmux
  call returns. `ArbiterCalls` says which calls reach the shared window, and
  `ArbiterInvariant`, `ArbiterRuns`, `ArbiterTakeover` and `ArbiterPresence` hold the
  theorems about whole histories.
- **Session lifecycle.** `Lifecycle` has the two stores (rows and tmux sessions) with every
  handler as a method that may be refused at any statement; `SessionRuns` interleaves any
  number of launches, kills, dismissals and reconcile passes, one store or tmux call per
  step, each allowed to fail, with sessions dying and the daemon restarting in between;
  `LaunchRuns` has what holds there without any assumption, `PassRuns` what a reconcile
  pass gives up on, and `LaunchAlone` that the interleaved steps, with nothing in between,
  do what the handlers promise.
- **Layout sync.** `LayoutSync` is the browser's optimistic write protocol beside the
  network and the daemon; `SessionFetch` is the per-server request coalescer.
- **Layout algebra.** `Sizes`, `GridModel` and `ViewLayout`: the canonical form, removal,
  the filtered and re-sorted view with its index map, dividers and tile geometry;
  `GridEdits` and `ViewShape` say of every edit and view which tiles, columns, rows and
  sizes it leaves.
- **Certificates.** `Pki` and `PkiRuns` are rotation, at one instant and over time;
  `Reloader` is the listener's cache beside the two renames of a rotation.
- **Service unit environment.** `UnitEnv` renders, parses and carries over the systemd
  unit, character by character; `PlistEnv` does so for the property list as the XML
  decoder's tokens, `PlistText` from its text to its text, and `PlistTree` reads any list.
- **Smaller machines.** `Events` is the events socket's reconnect loop with the probe behind
  its status, and the sharing of connections with the replay to late subscribers;
  `EventRuns` tells the loop's silences, failures and status by what happened to it;
  `CommandGroups` splits tool commands; `Tables` has the ordered tables and the subdirectory
  history.

Where the code and its comments differ the model follows the code, and each difference has
its exact condition, proved both ways, and a concrete case.

- The comment on adoptSizes (web/src/grid/model.ts:104-108) says that a size edit made on a
  differently shaped view changes nothing. With as many rows but another number of columns
  it resets the widths to equal ones (`GridModel.AdoptChangesNothingIff`,
  `GridModel.AdoptResetsDraggedWidths`). Without an overlay the page hands over such a view
  only when another layout is adopted while a divider is being dragged, since both the
  preview and the commit apply the dragged view to the layout of that moment
  (web/src/grid/GridPage.tsx:984-992).
- The comment on Ensure (internal/pki/pki.go:76-79) says that a recreated CA is reported so
  that the user can trust it again. One whose key file is missing is replaced on the path of
  a first run, without a report (`Pki.SilentlyReplacedIff`, `Pki.LostKeyReplacesSilently`).
- The comment in writePair (internal/pki/pki.go:258-261) says that a crash between the two
  renames is made good by the next check. That holds of the leaf
  (`Pki.HalfWrittenLeafIsReplaced`). Of a CA that replaces another it does not: every later
  check fails until the new CA is due or the hostnames change (`Pki.HalfWrittenCAIff`,
  `Pki.RenamedHostIsStuck`, `PkiRuns.MismatchedCAStops`).
- The comment on parsePlistEnv (internal/svc/unitenv.go:36-40) calls it the exact inverse of
  xmlEscape. It is for texts that XML 1.0 can hold; other control characters come back as
  U+FFFD (`PlistEnv.PlistRoundTripIff`, `PlistEnv.BellIsLost`).
- The comment in parsePlistEnv (internal/svc/unitenv.go:44-46) says that a nested dict cannot
  end the scan. One that an environment key names does, even inside the environment itself
  (`PlistTree.NestedEndsScanIff`, `PlistTree.NestedEnvironmentEndsScan`).
- The comment on createSessionRow (internal/server/sessions.go:311-316) says that a session
  holding a name is left running. A kill request that reads the row while it is listed ends
  it, and nothing else of the daemon's does (`SessionRuns.HeldSessionEndsIff`,
  `SessionRuns.OnlyOwnSessionsAreKilled`, `SessionRuns.KillDuringSkipEndsTheHeldSession`).
- The comment on EventsStatus (web/src/useEvents.ts:5-10) calls it why the socket won't stay
  up. A probe that comes back after the next attempt has opened replaces the status open
  (`Events.OpenIsShownIff`, `Events.LateProbeHidesOpen`).

## Model

| member | source | states |
|---|---|---|
| WindowArbiter.Arbiter.constructor | internal/tmuxmgr/arbiter.go:77-83 | a new arbiter is the initial state of the machine |
| WindowArbiter.Arbiter.Register | internal/tmuxmgr/arbiter.go:87-104 | takes the Register step: one more connection on the named record, a new record if there was none; the handle is new |
| WindowArbiter.ArbConn.Unregister | internal/tmuxmgr/arbiter.go:112-132 | takes the Unregister step, which has no effect the second time or on a stale record, and stamps the owner's leaving |
| WindowArbiter.Arbiter.Prune | internal/tmuxmgr/arbiter.go:139-153 | takes the Prune step: exactly the records without connections that tmux has lost go, with the presence past the window |
| WindowArbiter.ArbConn.MayResize | internal/tmuxmgr/arbiter.go:164-179 | the rule for ordinary resizes: unowned or own window, else the owner gone for the grace and a person here |
| WindowArbiter.ArbConn.Resize | internal/tmuxmgr/arbiter.go:183-232 | takes the Resize step up to the tmux call, which it announces with the very arguments it decided on, the session's lock held |
| WindowArbiter.ArbConn.ClaimInput | internal/tmuxmgr/arbiter.go:239-267 | takes the ClaimInput step; the tmux call follows exactly when the window moves and dims are known |
| WindowArbiter.ArbConn.ApplyDone | internal/tmuxmgr/arbiter.go:231-232 | takes the step in which the tmux call returns and the lock is freed |
| ArbiterCalls.ResizeDecides | internal/tmuxmgr/arbiter.go:183-219 | an active resize always takes the window and an ordinary one of a passive client never does; the call announced has the dims asked for and sizes the shared window exactly for an active resize of a passive client or of one that did not own the window, and for an ordinary one of a follow-input client that owns it afterwards |
| ArbiterCalls.ResizeReachesWindow | internal/tmuxmgr/arbiter.go:183-232 | over all runs, whatever happens during the tmux call: a resize is logged on the shared window, under its own client and dims, exactly when its call works and that condition held |
| ArbiterCalls.ClaimReachesWindow | internal/tmuxmgr/arbiter.go:239-267 | over all runs: a follow-input client's ClaimInput takes the window and, if it did not own it, sizes it to the dims of that handle's latest resize, with no call when there was none; a passive client's does neither |
| ArbiterInvariant.NextInv | internal/tmuxmgr/arbiter.go:87-267 | every step, also one taken during another session's or the same session's tmux call, keeps the accounts, the handles and the ownership of every resize |
| ArbiterRuns.HandlesStayAccounted | internal/tmuxmgr/arbiter.go:87-160 | in every reachable state a handle not yet unregistered holds the record its name maps to, even while Prune runs during its tmux call; refs is the number of such handles and the sum of live, and every live entry is the positive number of its client's handles |
| ArbiterRuns.HandleHistory | internal/tmuxmgr/arbiter.go:87-132 | over all runs: a handle is what the Register that made it asked for, and counts exactly until its Unregister |
| ArbiterRuns.PruneForgets | internal/tmuxmgr/arbiter.go:139-153 | over all runs: Prune forgets a session exactly when nobody is connected to it and tmux has lost it, and presence exactly when it is past the window; nothing else changes |
| ArbiterRuns.ResizesFollowOwnership | internal/tmuxmgr/arbiter.go:183-267 | unconditionally, every resize the shared window saw was made for the client that owned it then; none is decided under one owner and applied under the next |
| ArbiterRuns.OwnerSizedTheWindow | internal/tmuxmgr/arbiter.go:183-267 | whenever a session's resizeMu is free and it has an owner, the last resize of its window was made by that owner, in every run whose tmux calls for that window succeed and whose ClaimInputs on it know their dims, whatever fails elsewhere |
| ArbiterRuns.ClaimKeepsAgreementIff | internal/tmuxmgr/arbiter.go:252-266 | ClaimInput leaves owner and window in agreement exactly when it does not move the window, or knows non-zero dims and its tmux call succeeds |
| ArbiterTakeover.GraceIffAbsent | internal/tmuxmgr/arbiter.go:169-174 | the grace measured from ownerLeftAt is exactly a continuous absence of the owner's connections |
| ArbiterTakeover.PresentIffHuman | internal/tmuxmgr/arbiter.go:157-160 | presence, even after pruning, is exactly an active resize or ClaimInput by that client, on any session, inside the window |
| ArbiterTakeover.OrdinaryTakeoverIff | internal/tmuxmgr/arbiter.go:162-219 | over histories: an inactive resize by Y takes X's window if and only if Y follows input, X has had no connection to the session, without a break, for ownerGrace, and a person was at Y within presenceWindow |
| ArbiterTakeover.ReconnectKeepsWindow | internal/tmuxmgr/arbiter.go:106-132 | an owner that keeps reconnecting inside the grace keeps the window in every run where no other client's gesture takes that session and no Prune forgets it; a passive or unregistered client's gesture, or a Prune that misses a connected session, does neither |
| ArbiterPresence.DroppingPresenceIsInvisible | internal/tmuxmgr/arbiter.go:147-152 | under a clock that never runs backwards, the same events give an arbiter that never drops presence the same records, connections, pending calls and window history, and the same answer about presence for every client |
| SessionLifecycle.NamesDiffer | internal/store/sessions.go:45-48 | two row IDs never share a tmux name |
| SessionLifecycle.Daemon.InsertRow | internal/store/sessions.go:28-53 | a failed insert changes nothing; a successful one hands out the next ID with a running row stamped to the whole second |
| SessionLifecycle.Daemon.TmuxCreate | internal/tmuxmgr/manager.go:62-95 | succeeds only on a free name; a failed create leaves no session unless the kill that cleans up failed |
| SessionLifecycle.Daemon.CreateSessionRow | internal/server/sessions.go:317-331 | ends, by the live sessions whose names are still ahead; adds one new row at most and touches no other row; an error leaves the rows as before unless a delete failed |
| SessionLifecycle.AheadShrinks | internal/server/sessions.go:311-316 | skipping a held name strictly shrinks the set of held names still ahead, so the retry loop ends |
| SessionLifecycle.Daemon.Rollback | internal/server/sessions.go:257-262 | takes away nothing but the created sessions, and all of them unless a kill or delete failed |
| SessionLifecycle.Daemon.LaunchOne | internal/server/sessions.go:263-293 | one command: a new row with the group label rule and a live session under a name that was free, or nothing unless a kill or delete failed |
| SessionLifecycle.Daemon.HandleCreateSession | internal/server/sessions.go:252-309 | all or nothing: success adds exactly one row and one live session per split command, session k running command k; a command launched alone is unlabelled and one of several carries the label of its own program; an error comes only of a call that failed, and unless a kill or delete failed it restores rows and sessions exactly; earlier sessions are untouched in every case |
| SessionLifecycle.GroupTitlesDiffer | internal/server/sessions.go:263-293 | two commands of a group that run different programs, in whatever directories and with whatever arguments, have those programs' names as titles |
| SessionLifecycle.Daemon.HandleKillSession | internal/server/sessions.go:369-399 | 204 with the session gone and its row dead, 404 exactly for a row that was looked up and is not there, 500 exactly when a call failed, the lookup included; an error never leaves a dead row over a live session |
| SessionLifecycle.Daemon.HandleDismissSession | internal/server/sessions.go:401-427 | deletes exactly a dead row unless the lookup or the delete fails; a running one is refused with 409 |
| SessionLifecycle.Daemon.Reconcile | internal/server/sessions.go:524-562 | hands the tmux listing to the arbiter's Prune; marks dead, in ID order, only rows that were running, that tmux does not list and that are past the grace, and changes nothing else; a pass that meets no fault, either listing included, leaves no such row running |
| SessionRuns.PassInTimeIsHarmless | internal/server/sessions.go:547-552 | while every waiting launch has inserted its row less than the grace less one second ago, no pass can give up on its session, whatever earlier snapshot of the rows it is held against |
| SessionRuns.NextInv | internal/server/sessions.go:207-562 | every step of every interleaving keeps the agreement of rows, sessions and running handlers, unless it is a kill's tmux call or a pass's listing made on a session that still waits to be started |
| SessionRuns.StepCanLoseIff | internal/server/sessions.go:207-562 | from any state that agrees, a step opens the way to a lost session (a live one without a running row that no rollback orphaned) if and only if it is a kill's tmux call or a pass's listing made on a session that still waits to be started; kills in every other stage of a launch are harmless |
| SessionRuns.NoLostSessions | internal/server/sessions.go:263-562 | over all runs without such a step: a live session the daemon started has a running row if and only if its row was not deleted by a rollback that failed to kill it |
| SessionRuns.TimelyRunsLoseNothing | internal/server/sessions.go:547-552 | over all runs in which every launch that waits has inserted its row less than the grace less one second ago whenever a pass lists tmux, and no kill's tmux call hits a waiting session: no live session is without its running row, but one that a rollback failed to kill |
| SessionRuns.DeadSessionsStayGone | internal/server/sessions.go:369-562 | over all runs without such a step: a dead row names a session that is gone, and stays gone for ever after |
| LaunchRuns.StatusOnlyAdvances | internal/store/sessions.go:98-123 | over all runs, whatever is killed or given up on while a launch waits: a row only goes from running to dead to deleted, and its ID is never used again |
| PassRuns.AbandonedAreGivenUp | internal/server/sessions.go:524-562 | over all runs: once a pass has nothing left to mark, every session that ran in its snapshot, was not in its tmux listing and had used up its grace then is dead by its row or its row is gone |
| PassRuns.OnlyAbandonedAreMarked | internal/server/sessions.go:543-556 | over all runs: whatever a pass marks dead was such a session |
| LaunchRuns.LaunchIsWhole | internal/server/sessions.go:252-309 | in every interleaving, with no assumption, a launch that succeeds has started one distinct session per command, shared with no other launch, each running its own command while it lives and carrying its own label while its row is there |
| LaunchRuns.FailedLaunchLeavesNothing | internal/server/sessions.go:257-293 | in every interleaving, with no assumption, a launch that fails leaves no row but one it failed to delete and no session but one it failed to kill or whose row it failed to delete |
| LaunchAlone.AloneItSucceeds | internal/server/sessions.go:252-309 | the interleaved launch, left alone and with no call failing, whatever names are held, ends in success with one new labelled row and one session running its command for each command in order, and nothing else touched |
| LaunchAlone.AloneItUndoes | internal/server/sessions.go:257-293 | left alone, with any one call of any command failing and the rest working, it ends in failure with rows and sessions exactly as they were |
| LaunchAlone.HeldNameIsSkipped | internal/server/sessions.go:317-331 | a held name is passed over with its row taken out again |
| LaunchAlone.AloneItKills | internal/server/sessions.go:369-399 | the interleaved kill, left alone, ends the session and marks its row dead, and changes nothing else |
| LaunchAlone.AloneItFailsToKill | internal/server/sessions.go:369-399 | a kill whose tmux call fails changes nothing; one whose mark fails leaves its row as it was |
| LaunchAlone.AloneItDismisses | internal/server/sessions.go:401-427 | the interleaved dismissal takes its row out, or changes nothing when the delete fails |
| SessionRuns.OnlyOwnSessionsAreKilled | internal/server/sessions.go:311-331 | over all runs, with no assumption: a session that ends died by itself, or the daemon had started it, or a kill request had read a row of its name while a session the daemon did not start held it |
| SessionRuns.HeldSessionEndsIff | internal/server/sessions.go:311-331 | over all runs: a kill request for a row that the daemon has started no session for, taken to its end, ends the session of that name exactly while one holds it, and then the row was left behind by a launch or a restart or is still in a launch's hands |
| SessionRuns.KillDuringLaunchLosesTheSession | internal/server/sessions.go:263-293 | a concrete run in which a kill's tmux call made while the launch waits leaves a live session with a dead row |
| SessionRuns.KillDuringSkipEndsTheHeldSession | internal/server/sessions.go:311-331 | a concrete run, without any such step, in which a kill asked for while a launch gives way to a held name ends the session that held it |
| CommandGroups.SplitCommand | internal/store/tools.go:40-69 | the one-pass splitter computes the specified split |
| CommandGroups.SplitIsNeverEmpty | internal/store/tools.go:32-39 | the result is never empty, and holds a blank command only as the single blank one |
| CommandGroups.JoinThenSplitIff | internal/store/tools.go:23-69 | escaping each leftmost `;;` of every command and joining with ` ;; ` is undone by the splitter exactly for non-empty lists of trimmed, non-blank commands and for the single blank one |
| CommandGroups.LabelNamesTheProgram | internal/store/tools.go:71-80 | whatever directory the program is given in and whatever its arguments, the label is the program's name |
| CommandGroups.LabelDropsSlashes | internal/store/tools.go:71-80 | slashes behind the program's name are not in its label |
| CommandGroups.LabelOfRoot | internal/store/tools.go:71-80 | the root directory is labelled with its slash, a blank command with nothing |
| Text.AsciiSpaces | internal/store/tools.go:40-80 | of ASCII, the blank and the characters from tab to carriage return are what trimming takes off and fields are split at |
| LayoutSync.LayoutRefs.FlushLayout | web/src/grid/GridPage.tsx:244-255 | sends the pending layout, and clears it, exactly when there is one and none is in flight |
| LayoutSync.LayoutRefs.PutSettled | web/src/grid/GridPage.tsx:249-254 | a settled PUT is followed by the pending one, if any |
| LayoutSync.LayoutRefs.Persist | web/src/grid/GridPage.tsx:261-270 | shows the edit of what was shown, counts it and sends it if nothing is in flight, else makes it pending |
| LayoutSync.LayoutRefs.RefreshLayout | web/src/grid/GridPage.tsx:340-345 | a refresh remembers the edit serial and whether a write was under way |
| LayoutSync.LayoutRefs.LayoutAnswered | web/src/grid/GridPage.tsx:346-355 | an answer is adopted, normalized, exactly when it is a layout and no write or edit is or came in between |
| LayoutSync.ScreenShowsLatest | web/src/grid/GridPage.tsx:224-362 | over all runs, with foreign edits and failing requests: what is on screen is what the latest edit, drag preview or adopted answer put there |
| LayoutSync.BaseIsShown | web/src/grid/GridPage.tsx:224-362 | over all runs: unless a drag preview came since, the layout on screen is the one that the next edit starts from |
| LayoutSync.NewestEditIsSent | web/src/grid/GridPage.tsx:240-270 | over all runs, whatever fails: the newest edit is pending, or is what the write in flight carries, or has settled; no older one is sent in its place |
| LayoutSync.AdoptedLayoutWasStored | web/src/grid/GridPage.tsx:346-355 | over all runs: an adopted answer shows the normal form of what the daemon stored when it read it |
| LayoutSync.WriteStaysOut | web/src/grid/GridPage.tsx:244-255 | over all runs: a write once sent is out alone, with the layout it was sent with, until it settles |
| LayoutSync.AdoptedAnswersAreNewerThanEdits | web/src/grid/GridPage.tsx:340-362 | over all runs, with foreign edits, lost and late PUTs and failing requests: an adopted answer was read by the daemon after every local edit so far had settled |
| LayoutSync.LateWriteCheckIsRedundant | web/src/grid/GridPage.tsx:343-352 | over all runs the second look at the write state never decides: the state at issue and the edit serial imply it |
| LayoutSync.AnswerIsAdoptedIff | web/src/grid/GridPage.tsx:340-362 | over all runs: an answer is adopted exactly when it is a layout, no write was out when it was asked for and no edit has been made since |
| LayoutSync.TwoWritesDrain | web/src/grid/GridPage.tsx:240-255 | edits made during a write coalesce: with no further edit, at most one more PUT follows, it carries the newest layout, and then nothing is pending |
| LayoutSync.RefreshIsInvisible | web/src/grid/GridPage.tsx:224-362 | with one editing browser whose PUTs commit, once the page has its first layout every adopted answer is the layout without its drag preview, and changes nothing on a page that shows none |
| LayoutSync.NewestEditIsStored | web/src/grid/GridPage.tsx:240-270 | with one editing browser whose PUTs commit, whenever it is idle after an edit the daemon stores exactly the newest layout |
| SessionFetch.SessionFetches.FetchSessions | web/src/grid/GridPage.tsx:279-286 | a request leaves exactly when the server has none in flight; otherwise the call is folded into the one that has |
| SessionFetch.SessionFetches.Finally | web/src/grid/GridPage.tsx:305-317 | the end of a request frees its server, settles it if it was asked to, and sends the one follow-up if one was asked for and the server is still listed |
| SessionFetch.SentIff | web/src/grid/GridPage.tsx:279-317 | over all runs a request leaves exactly when a refresh finds none of its server in flight, or when one ends that was asked to be followed and its server is still listed |
| SessionFetch.OneRequestPerServer | web/src/grid/GridPage.tsx:279-318 | over all runs at most one request per server is in flight, and exactly while the page says so |
| SessionFetch.EveryRefreshIsServed | web/src/grid/GridPage.tsx:279-318 | over all runs the last request sent covers every refresh so far, or a follow-up is queued, or the server had been taken off the list; every settle asked for since the last such drop is done or carried by the request in flight |
| SessionFetch.RefreshIsServed | web/src/grid/GridPage.tsx:279-318 | over all runs: after each refresh a request has left, or the one in flight is to be followed, as long as its server stays listed |
| SessionFetch.SettleIsServed | web/src/grid/GridPage.tsx:305-317 | over all runs the same of each settling asked for: it is done, or the request in flight or its follow-up will do it |
| SessionFetch.SettledWasAsked | web/src/grid/GridPage.tsx:305-317 | over all runs: a server counts as settled only once a request of it has ended after a refresh that asked to settle it |
| SessionFetch.QueuedWasAsked | web/src/grid/GridPage.tsx:279-286 | over all runs: a follow-up is queued only for a refresh that came while a request of its server was in flight |
| SessionFetch.ListsInstallInOrder | web/src/grid/GridPage.tsx:287-296 | over all runs the lists of one server are installed in the order their requests were issued |
| SessionFetch.BurstCostsOneRequest | web/src/grid/GridPage.tsx:279-318 | any number of refreshes during one flight cause exactly one follow-up request |
| Sizes.FitIsUsable | web/src/grid/sizes.ts:10-40 | what normalizeSizes returns is always accepted by usable: equal sizes are a safe answer |
| Sizes.UsableIff | web/src/grid/sizes.ts:10-30 | stored sizes are kept exactly if there is one for each track, all are positive and they add up to the whole within a millionth |
| Sizes.ResizeTracksMovesOneBoundary | web/src/grid/sizes.ts:42-60 | a drag keeps the total and the pair's total, moves two tracks only, and leaves both at least min(min, pair/2) |
| Sizes.DragFollowsPointer | web/src/grid/sizes.ts:42-60 | the whole of a drag: the boundary follows the pointer up to the pair's limits, stops there, and jumps to the middle exactly within the snap range |
| Sizes.NoBoundaryNoDrag | web/src/grid/sizes.ts:42-60 | at a boundary that does not exist nothing moves |
| Sizes.DragIsUsableIff | web/src/grid/sizes.ts:19-60 | at a boundary of a usable array, every drag whatever the pointer does gives an array that normalize keeps, exactly when the minimum is positive |
| Sizes.TilesAreDisjoint | web/src/grid/sizes.ts:62-80 | no point lies in the rectangles of two different tiles |
| Sizes.TilesMeetEdgeToEdge | web/src/grid/sizes.ts:62-80 | tiles of a row meet edge to edge, as do the rows, starting in the top left corner |
| Sizes.TilesReadInOrder | web/src/grid/sizes.ts:62-80 | slots are laid out as text is read, from the corner along the rows |
| Sizes.TilesFillIff | web/src/grid/sizes.ts:62-80 | the tiles cover the container without overhang exactly when the row heights and every row's widths sum to one |
| GridModel.NormalizeTiles | web/src/grid/model.ts:27-35 | the padding loop builds the specified canonical form |
| GridModel.ReplaceColSizes | web/src/grid/model.ts:97-102 | the filling loop builds the specified widths |
| GridModel.PackKeepsTiles | web/src/grid/model.ts:21-35 | normalizing keeps every tile, in order |
| GridModel.NormalizeIsCanonical | web/src/grid/model.ts:27-35 | normalizing is idempotent |
| GridModel.CanonicalForm | web/src/grid/model.ts:21-35 | a canonical layout has its tiles in front, just enough rows, and usable sizes for its shape |
| GridModel.ShrinkTwice | web/src/grid/model.ts:69-72 | shrinking in two steps gives the shape and sizes of shrinking at once |
| GridModel.RemoveTileTakesOne | web/src/grid/model.ts:45-54 | removing an occupied slot takes out that tile alone and keeps the order of the others |
| GridEdits.RemoveLeaves | web/src/grid/model.ts:45-54 | after a removal there are as many columns as before, or as tiles if fewer, just enough rows, and the heights and widths that still fit, the others equal |
| GridEdits.RemoveNothing | web/src/grid/model.ts:45-54 | an index that shows no tile removes none; columns and sizes go as after any removal |
| GridEdits.RemoveWhereLeaves | web/src/grid/model.ts:56-72 | exactly the dropped tiles go, the others keep their order, with the same columns, rows and sizes; with none to drop the layout is left as it was |
| GridEdits.SetColsLeaves | web/src/grid/model.ts:41-43 | a column count is rounded down and held between one and four; the tiles stay, and the sizes that still fit |
| GridEdits.AddLeaves | web/src/grid/model.ts:74-83 | after adding a tile: columns, just enough rows, and the sizes that still fit |
| GridEdits.SwapLeaves | web/src/grid/model.ts:85-89 | a swap gives a canonical layout of the same columns, rows and sizes |
| GridEdits.EmptyGrid | web/src/grid/model.ts:37-39 | the empty layout is one row of two equal columns |
| GridEdits.SetRowSizesLeaves | web/src/grid/model.ts:91-94 | heights handed in are stored exactly if they fit the rows, else the rows become equal; nothing else changes |
| GridEdits.SetColSizesLeaves | web/src/grid/model.ts:96-102 | the same of one row's widths; no other row changes |
| GridModel.BatchRemovalIsOneByOne | web/src/grid/model.ts:56-72 | on a canonical layout removeTilesWhere gives exactly the tiles, shape and sizes reached by removing the same tiles one at a time, re-found each time, in any order |
| GridModel.RowDragIsKept | web/src/grid/model.ts:91-94 | a row divider's drag is stored as dragged and changes nothing else |
| GridModel.ColDragIsKept | web/src/grid/model.ts:96-102 | a column divider's drag is stored as dragged and changes no other row |
| GridModel.AdoptSizesExactly | web/src/grid/model.ts:104-114 | exactly what taking a view's sizes onto a layout changes, including the widths it resets when the rows match and the columns do not |
| GridModel.AdoptChangesNothingIff | web/src/grid/model.ts:104-114 | a size edit from a view of another shape changes nothing exactly when the row counts differ, or the heights agree and all widths were equal already |
| GridModel.AdoptResetsDraggedWidths | web/src/grid/model.ts:104-114 | a concrete layout, two tiles dragged to 7:3, whose widths a view of one column resets |
| GridModel.ColumnsThereAndBack | web/src/grid/model.ts:41-43 | changing the column count and back keeps every tile in its slot, and the shape |
| GridModel.AddAppends | web/src/grid/model.ts:74-83 | adding appends the tile; the column count changes only from one lone column to two |
| GridModel.AddThenRemove | web/src/grid/model.ts:45-83 | adding a tile and removing it gives back the tiles, and the shape exactly when no column was empty or there is only one |
| GridModel.SwapIsExact | web/src/grid/model.ts:85-89 | swapping any two slots keeps shape and sizes; two tiles trade places, two empty slots stay, and a tile dropped on an empty slot goes behind the others, which keep their order |
| GridModel.KeyIdentifiesTile | web/src/grid/model.ts:116-119 | two tiles share a key exactly when they are equal, even with colons in server ids |
| ViewLayout.FilterTiles | web/src/grid/dirFilter.ts:143-156 | the filtering loop collects the specified view and map |
| ViewLayout.MapIsFaithful | web/src/grid/viewLayout.ts:68-94 | through filter and overlay, every occupied slot on screen maps to the stored slot holding its tile, no two to the same, and no visible tile is missing |
| ViewShape.OverlayOrder | web/src/grid/viewLayout.ts:78-94 | whatever an overlay lists, any two tiles on screen stand by their last places in its list, unlisted ones after the listed, and otherwise as stored |
| ViewShape.OverlayShape | web/src/grid/viewLayout.ts:68-94 | a solo shows the overlay's columns, rounded down and held between one and four, and just enough rows |
| ViewShape.OverlaySizes | web/src/grid/viewLayout.ts:68-94 | a solo's heights and each row's widths are the overlay's where they fit, else equal |
| ViewShape.FilteredShape | web/src/grid/dirFilter.ts:138-156 | filtered only, the view keeps the columns and the sizes that still fit |
| ViewShape.FilteredOrder | web/src/grid/dirFilter.ts:138-156 | without an overlay the visible tiles stay in their stored order |
| ViewLayout.RemoveThroughMap | web/src/grid/dirFilter.ts:138-156 | removing the stored tile behind a slot and computing the view again gives the old visible tiles less that one, in order, with the map closed up |
| ViewLayout.SwapThroughMap | web/src/grid/dirFilter.ts:138-156 | with no overlay, a swap of stored tiles through the map swaps exactly the two slots on screen |
| ViewLayout.SwapThroughOverlayIff | web/src/grid/viewLayout.ts:96-102 | under a solo, swapping two entries of the overlay's order swaps exactly the two slots on screen if and only if no other tile then stands between copies of one, and their map entries too if and only if copies keep their stored order; always for distinct tiles |
| ViewLayout.OrderIsShownIff | web/src/grid/viewLayout.ts:78-94 | an overlay that lists the visible tiles in some order shows them in it exactly when it has no other tile between copies of one, and its map follows exactly when copies also keep their stored order |
| ViewLayout.SortWithout | web/src/grid/viewLayout.ts:78-94 | sorting by the overlay and taking a tile out commute |
| ViewLayout.SeedIsIdentityIff | web/src/grid/viewLayout.ts:56-94 | applying a freshly seeded overlay changes nothing exactly when no tile appears twice with another in between; always for distinct tiles |
| Pki.Store.LoadCA | internal/pki/pki.go:118-137 | which of missing, unreadable and found the two CA files give, both being read before either is parsed |
| Pki.Store.CreateCA | internal/pki/pki.go:139-177 | a new CA replaces both files; a failure leaves the old pair or the new certificate beside the old key |
| Pki.Store.LeafNeedsRotation | internal/pki/pki.go:179-214 | due for being missing, aging, misnamed, not matching its key or not chaining to the CA file |
| Pki.Store.CreateLeaf | internal/pki/pki.go:216-296 | a leaf that ends after its 90 days or with the CA, whichever is first, in both files; a failure leaves the old pair or the new certificate beside the old key |
| Pki.Store.Ensure | internal/pki/pki.go:80-116 | a whole check, its directory included: it succeeds exactly when no file operation failed and what it found does not refuse, with the specified disk and reason; otherwise it leaves one of the states a check that stops can leave |
| Pki.EnsureHeals | internal/pki/pki.go:24-116 | after a check that succeeds the CA's files are one pair with more than caRenewUnder left, the leaf has at least leafRotateUnder, its pair matches and chains, and the leaf does not outlive the CA, whatever state the leaf's files were in |
| Pki.NewCertificatesAreDated | internal/pki/pki.go:139-256 | of a check that succeeds: a CA it writes lasts ten years, a leaf it writes 90 days or to the CA's end if that is first, both from an hour ago and up to the second that encoding drops |
| Pki.NewKeysAreNew | internal/pki/pki.go:139-256 | of a check that succeeds: a leaf it writes has a new key, is signed by the CA on disk and names the hostnames; so does a CA, signed by itself |
| Pki.FilesDecide | internal/pki/pki.go:80-137 | from the two CA files: both readable, that is the CA; the certificate missing, or the key beside one that may be read, a new one is made without a report; anything else stops the check |
| Pki.AdmitsIff | internal/pki/pki.go:179-214 | a name constraint admits exactly its own name and every name that ends in it after a dot |
| Pki.LeafIsKeptIff | internal/pki/pki.go:179-214 | a check that succeeds keeps the leaf exactly when its pair matches, it names these hostnames, has leafRotateUnder left, was signed by the CA in force, and both certificates are in their time |
| Pki.WritesNothingIff | internal/pki/pki.go:80-116 | a check writes nothing exactly when all that is already so |
| Pki.EnsureTwice | internal/pki/pki.go:80-116 | checking again at the same time writes nothing |
| Pki.RefusesIff | internal/pki/pki.go:80-116 | a check that meets no fault of its own fails exactly for no hostnames, an unreadable CA, or a CA that is not due beside another one's key |
| Pki.RegenerationIsReported | internal/pki/pki.go:80-116 | a reason is returned exactly when a readable CA was replaced, hostnames first; a CA with a missing file is replaced silently |
| Pki.SilentlyReplacedIff | internal/pki/pki.go:76-107 | a CA certificate on disk is replaced without a reason exactly when its key file is missing |
| Pki.LostKeyReplacesSilently | internal/pki/pki.go:76-107 | a concrete disk with a good CA certificate and no key, replaced without a reason |
| Pki.ClampedLeafWaitsForCA | internal/pki/pki.go:24-34 | a leaf clamped to its CA's end is due for age only when the CA is due too |
| Pki.HalfWrittenLeafIsReplaced | internal/pki/pki.go:192-201 | a crash between the leaf's two renames is repaired by the next check, with a new pair |
| Pki.HalfWrittenCAIff | internal/pki/pki.go:257-299 | after a crash between the CA's two renames, later checks for the same hostnames fail exactly when a key file was there before and, if that key can be read, the new CA is not due |
| Pki.RenamedHostIsStuck | internal/pki/pki.go:257-299 | a concrete disk: renaming the host, with a crash between the two renames of the new CA, makes every check for almost ten years fail |
| PkiRuns.NeverExpiredBetweenChecks | internal/pki/pki.go:80-116 | over all runs: for 30 days after a check that succeeded, whatever later checks do or fail to do, neither certificate on disk has expired |
| PkiRuns.ServesBetweenChecks | internal/pki/pki.go:80-116 | until the next check, for up to 30 days, the pair on disk matches and chains |
| PkiRuns.MismatchedCAStops | internal/pki/pki.go:80-116 | over all runs: once a CA certificate lies beside another one's key, no check for its hostnames succeeds or writes anything until the certificate is due |
| PkiRuns.RewritesAreRare | internal/pki/pki.go:24-34 | over all runs under one CA and one set of hostnames, two writes of the leaf are more than 60 days less a second apart |
| PkiRuns.LeavesAreShortLived | internal/pki/pki.go:216-256 | over all runs: no leaf on disk ever has more than 90 days left |
| PkiRuns.AgedLeafIsReplaced | internal/pki/pki.go:179-214 | over all runs: a check that succeeds on a leaf with less than leafRotateUnder left replaces it, by one of 90 days less a second or as long as its CA |
| Reloader.CertReloader.Get | internal/pki/tlsconfig.go:23-41 | loads exactly when the file's time is new or nothing is cached, and serves the cache as it then is |
| Reloader.ServedPairsMatch | internal/pki/tlsconfig.go:23-41 | in any interleaving of gets with rotations, half-done ones and lost files: after the first success every get serves a matching pair, never an older one than before |
| Reloader.NewestPairIsServed | internal/pki/tlsconfig.go:23-41 | a get begun once a generation is complete on disk, and not disturbed by another write, serves that generation |
| UnitEnv.SystemdUnescape | internal/svc/unitenv.go:122-141 | the index loop computes the specified unescaping |
| UnitEnv.UnescapeEscape | internal/svc/svc.go:205-214 | unescaping undoes escaping for every value |
| UnitEnv.EscapedIsQuotable | internal/svc/svc.go:205-214 | an escaped value is text inside one quoted word, with no specifier left to expand |
| UnitEnv.ValidateEnv | internal/svc/svc.go:216-236 | accepts exactly names of letters, digits and underscores not starting with a digit, with values free of newline, return and NUL |
| UnitEnv.RenderEnv | internal/svc/svc.go:179-203 | for systemd: the environment block, or an error exactly when an entry is not valid |
| UnitEnv.ParseSystemdEnv | internal/svc/unitenv.go:98-120 | the line loop computes the specified reading |
| UnitEnv.UnitRoundTrip | internal/svc/unitenv.go:98-141 | reading a rendered unit back gives exactly the variables that went in, for valid entries and an exec path without newline |
| UnitEnv.CaptureEnv | internal/svc/svc.go:97-114 | the captured variables that the shell sets, in the fixed order, the data directory made absolute when it can be |
| UnitEnv.MergeEnv | internal/svc/unitenv.go:143-171 | per captured name, in the fixed order, the shell's value or else the installed one |
| UnitEnv.Unit.Install | internal/svc/svc.go:250-294 | rewrites the unit from what it holds and the shell and restarts the service on it, exactly when every entry can be written and no file operation or systemctl fails; a failure leaves the old unit, a beginning of the new one or the new one, and the service as it was or stopped |
| UnitEnv.NewEnvIs | internal/svc/svc.go:97-146 | what an install bakes in, in order: the shell's PATH or the default, the data directory, absolute if that can be told, and the hostname, each as the shell sets it or else as found |
| UnitEnv.UnitRunsBinary | internal/svc/svc.go:47-59 | a rendered unit has exactly one ExecStart line, which runs the given binary, and stopping signals the daemon alone |
| UnitEnv.InstallKeepsOrSets | internal/svc/svc.go:246-268 | over any unit text whatever: a variable the shell sets takes its value, any other keeps the one the unit had |
| UnitEnv.InstallGoesThroughIff | internal/svc/svc.go:216-268 | an install goes through exactly when neither the PATH nor any value it sets or carries over has a newline, return or NUL |
| UnitEnv.InstallHistory | internal/svc/unitenv.go:143-171 | after any sequence of installs, each with its own path and shell and refused ones among them, each captured variable has the value of the most recent install that went through and whose shell set it |
| UnitEnv.RepeatInstallRewritesTheSame | internal/svc/unitenv.go:158-160 | installing again from any shell with the same PATH and none of the variables rewrites the same bytes |
| PlistEnv.ParsePlistEnv | internal/svc/unitenv.go:35-96 | the token loop computes the specified reading |
| PlistEnv.PlistRoundTripIff | internal/svc/unitenv.go:35-96 | reading a rendered property list back, with any text between its elements, gives exactly the variables that went in if and only if XML 1.0 can hold their characters; otherwise each such character comes back as U+FFFD and the rest as it was |
| PlistEnv.BellIsLost | internal/svc/svc.go:213-236 | a concrete variable that validateEnv accepts and that does not come back |
| PlistEnv.PlistHistory | internal/svc/unitenv.go:143-171 | over any sequence of installs onto property lists each captured variable has the value of the most recent install that went through and whose shell set it, as XML holds it |
| PlistTree.AnyListIsRead | internal/svc/unitenv.go:35-96 | from any property list, whoever wrote it and whatever else it holds, exactly the variables of its environment dicts are read, if environment keys name dicts among its own entries and nowhere deeper |
| PlistTree.NestedEndsScanIff | internal/svc/unitenv.go:44-89 | a value in the environment, nested dicts and all, leaves the scan in the environment exactly when no dict in it follows an environment key |
| PlistTree.NestedEnvironmentEndsScan | internal/svc/unitenv.go:44-89 | concrete lists in which a dict in the environment holds another environment: the variable that follows is not read |
| PlistText.RenderEnv | internal/svc/svc.go:179-203 | for launchd: the lines of the block with their texts escaped, or an error exactly when an entry is not valid |
| PlistText.DecodedEscape | internal/svc/svc.go:238-244 | decoding undoes xmlEscape for every text, but for the characters XML 1.0 cannot hold, which become U+FFFD |
| PlistText.PlistTextRoundTripIff | internal/svc/svc.go:27-47 | from text to text: the list an install writes is well formed for the decoder, and parsing it gives the variables that went in if and only if XML 1.0 can hold their characters |
| PlistText.PlistRunsBinary | internal/svc/svc.go:27-47 | the list a decoder reads from an install's text has the program arguments: the given binary, told to serve |
| Events.EventsLoop.constructor | web/src/useEvents.ts:79-173 | opening makes one connecting socket, no timer, and the first delay |
| Events.EventsLoop.OnOpen | web/src/useEvents.ts:105-110 | an opened socket resets the delay and the failures, counts as heard and sets the status to open, unless it was disowned |
| Events.EventsLoop.OnMessage | web/src/useEvents.ts:111-112 | a frame counts as heard, unless the socket was disowned |
| Events.EventsLoop.OnTimer | web/src/useEvents.ts:101-104 | a timer connects, unless the loop was stopped |
| Events.EventsLoop.OnClose | web/src/useEvents.ts:125-131 | a counted close sets one timer, doubles the delay up to its cap and, from the second in a row, starts a probe; a disowned or stopped one does nothing |
| Events.EventsLoop.OnProbe | web/src/useEvents.ts:88-99 | a probe's end sets the status by what the API answered, unless the loop was stopped |
| Events.EventsLoop.ReconnectNow | web/src/useEvents.ts:134-151 | clears the timer, disowns and closes the socket, and connects |
| Events.EventsLoop.LiveCheck | web/src/useEvents.ts:153-160 | replaces the socket exactly when it is open and silent too long |
| Events.EventsLoop.OnResume | web/src/useEvents.ts:162-169 | replaces the socket exactly when the page is visible and the socket is not open or silent too long |
| Events.EventsLoop.Stop | web/src/useEvents.ts:175-182 | clears the timer and closes the socket |
| Events.NeverStuckNeverDoubled | web/src/useEvents.ts:80-184 | over all runs, until stopped: either the current socket's close is still to come or exactly one timer is pending, never both, and no other socket is connecting or open |
| Events.DelayDoubles | web/src/useEvents.ts:82-131 | over all runs the delay is 1000 doubled by each close since it was reset, capped at 15000 |
| Events.StoppedForGood | web/src/useEvents.ts:175-184 | once stopped, no socket or timer is ever made and none is left open or pending |
| Events.AlarmNeedsTwoFailures | web/src/useEvents.ts:125-131 | over all runs: for any status but open there were two failures in a row, with no opening in between |
| Events.OpenIsShownIff | web/src/useEvents.ts:88-131 | over all runs: while a socket is open the status says so exactly as long as no probe ends; one begun before it opened reports its failure all the same |
| Events.LateProbeHidesOpen | web/src/useEvents.ts:88-131 | a concrete run that ends with an open socket under the status that WebSockets are blocked |
| Events.ResumeGetsALiveSocket | web/src/useEvents.ts:162-169 | a visible page that comes back has at once an open, recently heard socket or a new one connecting; it is a new one exactly when the old one was not open or was silent too long |
| EventRuns.LiveCheckReplacesIff | web/src/useEvents.ts:134-160 | over all runs: the regular check replaces the socket exactly when it is open and more than 75 seconds have passed since it was made, opened or last heard; otherwise it changes nothing |
| EventRuns.ResumeReplacesIff | web/src/useEvents.ts:134-169 | over all runs: a page that comes back replaces its socket exactly when it is visible, not stopped, and the socket is not open or that long silent |
| EventRuns.ProbesAreOwed | web/src/useEvents.ts:88-131 | over all runs: failures are the current socket's closes since it last opened, and a probe is out for every second or later one in a row not yet answered |
| EventRuns.StatusIsLatestReport | web/src/useEvents.ts:88-131 | over all runs: the status is open if an opening was reported last, else what the latest probe's answer means, and nothing is reported after the stop |
| EventConnections.Connections.Subscribe | web/src/useEvents.ts:50-60 | joins the URL's connection and is told the status and build it missed, or opens a connection |
| EventConnections.Connections.Unsubscribe | web/src/useEvents.ts:61-67 | the last subscriber to leave stops the connection and forgets it |
| EventConnections.Connections.Tell | web/src/useEvents.ts:70-78 | remembers a status or build for those to come and tells every subscriber |
| EventConnections.OneConnectionPerUrl | web/src/useEvents.ts:37-68 | over all runs a URL has a running connection exactly while something watches it, then one, shared by all that do |
| EventConnections.EveryoneHasTheLatest | web/src/useEvents.ts:37-78 | over all runs, whenever it subscribed, a subscriber was last told exactly the latest status and build of its connection |
| EventConnections.WatchersKnowTheNews | web/src/useEvents.ts:37-78 | over all runs: whoever watches a URL was last told the status and the build its connection reported most recently |
| EventConnections.OnlyWatchersAreTold | web/src/useEvents.ts:37-68 | over all runs: nobody is told anything after leaving |
| OrderedTables.Table.InsertOrdered | internal/store/tools.go:161-183 | a new row one past the largest position |
| OrderedTables.Table.CheckIDSet | internal/store/tools.go:204-235 | accepts exactly the IDs that exist, each once |
| OrderedTables.Table.Reorder | internal/store/tools.go:185-202 | renumbers exactly on such a list, otherwise changes no row |
| OrderedTables.PermutesIffRearranges | internal/store/tools.go:204-235 | an accepted order is exactly a rearrangement of the list as shown |
| OrderedTables.OpRefines | internal/store/tools.go:85-202 | each operation does to the listing by position and ID what it does to a plain list |
| OrderedTables.TableRefinesList | internal/store/tools.go:85-202 | over any run of creates, deletes and reorders the table shows what the plain list holds |
| SubdirHistory.Subdirs.RecordSubdir | internal/store/tools.go:316-341 | moves the trimmed subdirectory to the front and keeps at most ten; a blank one is dropped |
| SubdirHistory.Subdirs.ListSubdirs | internal/store/tools.go:294-314 | the newest ten, newest first |
| SubdirHistory.Subdirs.DeleteSubdir | internal/store/tools.go:345-350 | takes one entry out and keeps the order of the others |
| SubdirHistory.HistoryRefinesList | internal/store/tools.go:294-341 | over any run of launches the history is a move-to-front list cut to ten |

## Left out

- HTTP routing, request decoding, WebSocket framing, PTYs, git, CLI parsing, authentication, uploads, React rendering and CSS: plumbing, or one-branch facts.
- SQLite and tmux themselves: a table is a map, tmux is a map from session name to running command, and any statement or call may fail; no other process creates a session named mm-{number}.
- Lock acquisition: a critical section and the locks it takes are one step; waiting for a lock is not being enabled.
- Arbiter: the window is not claimed to have the owner's latest dims, since a repeated active resize records dims without resizing and a ClaimInput before any dims moves the window without one.
- SessionRuns.NoLostSessions: holds of runs in which no kill's tmux call and no pass's listing is made on a session that still waits to be started; SessionRuns.StepCanLoseIff proves that condition exact. A pass lists tmux and reads the clock in one step.
- SessionRuns.NextInv: the wall clock is taken not to run backwards; kills during a launch's wait are excluded exactly as for SessionRuns.NoLostSessions.
- SessionLifecycle.Daemon.TmuxCreate: tmux options and the environment set on a new session are not modelled.
- Session rename, resolveSubdir, and the broadcasts that follow a change.
- Sizes and GridModel: fractions are real numbers, so rounding, NaN and infinities are not modelled; a column count is any real.
- ViewLayout: the sort is stable and a comparison that gives NaN counts as equal, as section 23.1.3.30 of ECMA-262 says.
- LayoutSync: JSON encoding is the identity, and the check that an answer is a layout document is an option.
- LayoutSync.RefreshIsInvisible: edits yield canonical layouts and no other browser writes; the order of two answers under foreign edits is not claimed.
- dirFilter's directory buttons, cycleSolo and splitUnderDir: they would only add easy members.
- X.509 encoding, signatures and randomness: a certificate is a key, an issuer, names and two times, and new keys are never equal.
- Pki.Store.Ensure: one check happens at one instant.
- Reloader.NewestPairIsServed: two generations never have the same file time.
- UnitEnv.CaptureEnv: what the absolute form of a path is comes with the shell; the model does not compute it.
- UnitEnv.Unit.Install: what systemd does with a unit is a loaded and a running definition; installs onto a property list are the relation PlistEnv.Rewrites, without file errors and launchctl.
- PlistTree.AnyListIsRead: what is read of a list in which an environment key also stands deeper than its own entries is not told in full; PlistTree.NestedEndsScanIff is exact about where the scan then ends.
- PlistText.PlistTextRoundTripIff: the decoder's part is written out here for markup with no > inside a tag, without CDATA, namespaces and the check that tags match; invalid UTF-8 is not modelled.
- Events: an event frame's own type, which is handed to the subscribers, and the request a probe makes, of which only the outcome is modelled.
- EventConnections.Connections.Unsubscribe: each subscriber leaves once.
- OrderedTables: names, commands and paths of the rows, which no ordering depends on, and the seeding of defaults.
- SubdirHistory.HistoryRefinesList: launches are stamped at strictly increasing times, and each directory's history is by itself.
