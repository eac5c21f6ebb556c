# A verified model of the desktop shell

This Dafny project models the state machine of the DEEIX Chat desktop shell and
three smaller algorithms of the same repository, and proves what holds over whole
runs, crashes and restarts.

The shell has one window with tabs. A tab shows at most one server and a server is
shown by at most one tab. Credentials (refresh tokens) are in the operating system's
keychain under one account per server; the bound servers are saved in `tabs.json`;
the local server is a child process that hands out a one-time grant; an
administrator's policy decides which servers may be used. No single function keeps
all of these in step, so the model is built around what holds between them:

- `Origin`, `Servers`, `Policies`: addresses and their normal form, servers and
  keychain accounts, the two policy hives.
- `Tabs`, `Reorder`, `Restore`: the tab list as a value, its lock sections in any
  interleaving, the saved file and the restore.
- `Sidecars`: the local child, as a value and as the mutex-held slot.
- `Shell`: every command as a sequence of small operations (a lock section, a
  change to the webviews, a keychain operation, a file write, a rename, a sidecar
  command), fixed by the state it starts in and by the answers from outside.
- `Invariants`, `Commands`, `Turns`, `Crash`, `Runs`: what each operation keeps (so
  that a crash after it does no harm), what each command keeps, also while children
  exit in the middle of it, and what histories of launches and crashes keep.
- `TokenHistory`, `SessionHistories`: the keychain as a record of what the servers
  answered, within one process and through any launches and crashes.
- `Effects`, `Answers`: what each command comes to, tab by tab, and what it answers,
  said a second time without the scripts: over the list, the webviews, the saved
  servers, the keychain, the child, and the reply a command waited for.
- `Overlaps`: exactly when commands that overlap, or a keychain that fails, do harm.
- `TabTables`, `ShellApps`: the same program in place, as objects whose methods
  update their fields step by step; each method is proved to perform exactly the
  operations of its script, in that order, with every state on the way safe.
- `InstanceIds`: the id of a portable copy and the protocol of processes racing on
  its file.
- `Loopbacks`, `Utf8s`, `PercentEncodings`: the sign-in redirect's request reader
  and the percent-encoder of the page it answers with.
- `PageRanges`: the page selection of the two OCR services.

Where a tempting property does not hold, the project says exactly when it does, by
an equivalence, and shows an input for which it fails:

- storing a reply that comes late: `Overlaps.LateReplies`, `Overlaps.LateReplyOrphans`
- starting the child for a request that comes late: `Overlaps.LateStarts`, `Overlaps.LateStartOrphans`
- deleting a token for a rejection that comes late: `Overlaps.LateRejections`, `Overlaps.LoginIsLost`
- saving after a refused deletion: `Overlaps.FailedDelete`, `Overlaps.LeavingAgain`
- the active tab after a refused deletion: `Overlaps.RefusedClose`
- closing two tabs at once: `Overlaps.OverlappingCloses`, `Overlaps.LastTwoTabs`
- the active tab when policy drops entries: `Restore.ActiveAfterDrops`, `Restore.WrongTabActive`
- launching over an unreadable file: `Effects.UnreadableFile`
- dropping adjacent duplicates only: `Restore.DedupIsEnough`, `Restore.SameServerTwice`
- agreeing on an instance id: `InstanceIds.AgreementIsExact`, `InstanceIds.DamagedDisagree`
- independence of the chunks: `Loopbacks.SplitMattersExactlyWhen`, `Loopbacks.SplitMattersHere`

`dafny verify dfyconfig.toml` checks the whole project.

Two places where the code and its own comments differ; the model follows the code.
The comment on `Inner::remove` says that the left neighbour of the active tab follows;
from the first tab it is the right neighbour, and the code's further fallback is never
reached (`Tabs.NextIsNeighbour`). The comment in `load_or_create_instance_id` says
that a damaged file is replaced; a file that is not UTF-8 is not
(`InstanceIds.NoTextNoId`).

## Model

| member | source | states |
|---|---|---|
| Crash.CredentialsSurviveCrashes | apps/desktop/src-tauri/src/tabs.rs:482-711 | take any history of launches and commands, every process killed after any single operation, then one more launch under any policy: a stored token survives unchanged unless its server is one the file names and policy now blocks, in which case it is gone; every surviving token belongs to the server of exactly one restored tab |
| Crash.HistoryIsSafe | apps/desktop/src-tauri/src/tabs.rs:482-532 | at every possible moment of death of every process of a history, the keychain holds credentials only for servers the saved file names, and the file is one the app wrote |
| Crash.InitKeeps | apps/desktop/src-tauri/src/tabs.rs:256-268 | start-up over any state a crash can leave, itself cut anywhere, leaves a safe state; completed, everything is in step and the tab list is exactly the one the reader's file restores to |
| Crash.RestartKeepsAll | apps/desktop/src-tauri/src/tabs.rs:170-180 | quitting between commands and launching under a policy that allows the saved servers keeps servers, order, active server, credentials and file |
| Crash.FirstLaunch | apps/desktop/src-tauri/src/tabs.rs:482-519 | the first launch on a new machine, under any policy, ends in step with one empty tab, an empty file and no credential, so the invariant is reachable |
| Crash.ReaderOnSafe | apps/desktop/src-tauri/src/tabs.rs:493-513 | on a safe disk the restored servers are distinct and usable, and every stored credential belongs to a restored server or to one of the forgotten ones, which are exactly those policy blocks |
| Commands.CommandKeeps | apps/desktop/src-tauri/src/tabs.rs:578-720 | every command: whichever of its operations it is cut after, the credentials left are safe; run to its end it keeps tabs, window, keychain, sidecar and file in step |
| Turns.RunKeeps | apps/desktop/src-tauri/src/tabs.rs:534-542 | the same for every sequence of commands and answers from outside, with children exiting after any operation of any command; in particular the file equals the saved form of the tabs after each command |
| Turns.TurnKeeps | apps/desktop/src-tauri/src/sidecar.rs:137-158 | a command during which children exit, at any of its operations, does the same to tabs, webviews, file and keychain as without, is safe on the way, and ends with everything in step |
| Commands.UnbindKeeps | apps/desktop/src-tauri/src/tabs.rs:659-686 | leaving a server unbinds that tab, deletes that server's credential and no other, and stops the sidecar exactly when it was the local server |
| Commands.CloseKeeps | apps/desktop/src-tauri/src/tabs.rs:689-711 | closing removes that tab only, deletes its server's credential and no other, stops the sidecar exactly for the local server, and shows the tab the close chose |
| Commands.SweepKeeps | apps/desktop/src-tauri/src/tabs.rs:320-348 | a sweep removes exactly the webviews of inactive tabs hidden for at least 30 minutes and keeps the window invariant |
| Commands.SessionKeeps | apps/desktop/src-tauri/src/session.rs:218-384 | the session commands leave tabs, window and file alone, and every state they pass through is safe |
| Commands.SetRemoteKeeps | apps/desktop/src-tauri/src/session.rs:234-253 | binding a remote server binds only a normalised, allowed one and is safe at every operation |
| Commands.SetLocalKeeps | apps/desktop/src-tauri/src/session.rs:256-267 | binding the local server, whatever the child does, keeps everything in step |
| Commands.BoundServersPassPolicy | apps/desktop/src-tauri/src/session.rs:137-156 | between commands the policy check before a request never refuses a tab's server; a failure to resolve can only come from the local child |
| Effects.SetRemoteBinds | apps/desktop/src-tauri/src/session.rs:234-253 | binding a remote server: an address that normalises to an allowed server binds the tab if it exists, is unbound or shows that server, and no other tab does: that tab shows it, the others keep server, id and place, and the file names exactly the servers shown; in every other case nothing changes |
| Effects.GivenAddressIsShown | apps/desktop/src-tauri/src/session.rs:234-253 | the server the tab shows and the file names is the one whose address was given |
| Effects.SetLocalBinds | apps/desktop/src-tauri/src/session.rs:256-267 | the same for the local server; its child is then asked for, and whatever becomes of it the tab stays bound |
| Effects.ActivateShows | apps/desktop/src-tauri/src/tabs.rs:606-646 | activating a tab makes it the active and only shown one, with a webview; the others are hidden, each since the time it already was or since now; no other webview appears or goes |
| Effects.OpenShows | apps/desktop/src-tauri/src/tabs.rs:578-603 | opening shows the tab that has the server, or a new last tab with the next id; nothing else about the other tabs, the credentials or the child changes |
| Effects.CloseForgets | apps/desktop/src-tauri/src/tabs.rs:689-711 | closing removes that tab and its webview, deletes its server's credential and no other, stops the child of a local one, keeps the order and servers of the rest, and shows the tab whose turn it is: the active one if it is another, else the left neighbour, from the first the right one, else a new empty tab |
| Effects.LeaveForgets | apps/desktop/src-tauri/src/tabs.rs:659-686 | leaving empties that tab and no other, deletes its server's credential and no other, stops the child of a local one, and leaves the webviews alone |
| Effects.MoveLands | apps/desktop/src-tauri/src/tabs.rs:157-167 | after a drag the tab is at the given index or last, the others are in their order, and nothing else but the saved file has changed |
| Effects.SweepDiscards | apps/desktop/src-tauri/src/tabs.rs:320-348 | after a sweep a tab has a webview exactly if it had one and has not been inactive and hidden for 1800 seconds or more; nothing else changes |
| Effects.SessionLeavesShell | apps/desktop/src-tauri/src/session.rs:218-384 | the session commands change nothing but keychain and child |
| Effects.GetServerStarts | apps/desktop/src-tauri/src/session.rs:218-231 | asking for a tab's server starts the child of an allowed local one, and changes nothing else |
| Effects.StoreKeeps | apps/desktop/src-tauri/src/session.rs:281-292 | a login is stored trimmed under the server's address, or under `local`; a blank one deletes that account |
| Effects.ClearForgets | apps/desktop/src-tauri/src/session.rs:296-304 | sign-out deletes that account and changes nothing else |
| Effects.RefreshStarts | apps/desktop/src-tauri/src/session.rs:308-335 | a refresh touches the child only for an allowed local server with a stored token, and then only asks for it |
| Effects.SignInStarts | apps/desktop/src-tauri/src/session.rs:339-384 | a sign-in asks for the child when there is a token to refresh, and takes a grant when there is none or the refresh answered 401, after whatever children exited meanwhile |
| Effects.ChildGoneIs | apps/desktop/src-tauri/src/sidecar.rs:146-153 | a child's exit empties the slot exactly if that child is in it |
| Effects.LaunchRestores | apps/desktop/src-tauri/src/tabs.rs:256-268 | a launch over any disk, written by the program or not, ends with the tab list the reader's file restores to, saved |
| Effects.RestoresExactly | apps/desktop/src-tauri/src/tabs.rs:493-513 | over any disk, the servers shown after a launch are exactly those the file names that are local or have a normalised address, and that policy allows: a malformed entry never becomes a tab |
| Effects.LaunchForgets | apps/desktop/src-tauri/src/tabs.rs:500-513 | over any disk, a launch deletes exactly the credentials of the well-formed servers the file names that policy blocks |
| Effects.UnreadableFile | apps/desktop/src-tauri/src/tabs.rs:486-492 | over an unreadable file a launch starts over and keeps all credentials, which is safe if and only if there were none |
| Answers.RefreshAnswers | apps/desktop/src-tauri/src/session.rs:308-335 | exactly what a refresh answers: no server, no session, the policy's refusal, the child's failure, or its reply's: network, no session, a status, or the reply's own access token and session id |
| Answers.ExchangeAnswers | apps/desktop/src-tauri/src/session.rs:366-383 | exactly what an exchange answers, by whether there was a grant, the child and the reply, which must bring a token |
| Answers.SignInAnswers | apps/desktop/src-tauri/src/session.rs:339-384 | exactly what a local sign-in answers, by the refresh or by the exchange, and which of them ends it, for any children that exit in between |
| Answers.CarriedInSignIn | apps/desktop/src-tauri/src/session.rs:339-384 | credentials handed out are those of the exchange when there was no token or it was rejected, else those of the refresh |
| Answers.ReplyAnswers | apps/desktop/src-tauri/src/session.rs:449-455 | a session's access token and session id are passed on as they are, and every other reply is the failure it stands for |
| Answers.ResolveAnswers | apps/desktop/src-tauri/src/session.rs:149-158 | requests go to a remote server's own address, to the running child's origin, or to that of a newly started one |
| Answers.GetServerAnswers | apps/desktop/src-tauri/src/session.rs:218-231 | the answer is the bound server's mode with that origin, none for an unbound tab, or why there is no origin |
| Answers.SetRemoteAnswers | apps/desktop/src-tauri/src/session.rs:234-253 | exactly when binding succeeds, and which of malformed, refused, open elsewhere, unknown and already bound comes otherwise |
| Answers.SetLocalAnswers | apps/desktop/src-tauri/src/session.rs:256-267 | the same for the local server; a child that does not start is reported only for a tab that was bound |
| Invariants.OpenKeeps | apps/desktop/src-tauri/src/tabs.rs:578-603 | opening a tab, or activating the one that shows the server, ends with everything in step from any consistent state, with credentials and sidecar untouched |
| Invariants.ActivateKeeps | apps/desktop/src-tauri/src/tabs.rs:606-646 | activating an existing tab turns a merely consistent state into one where it is the only tab shown, its webview exists, and the file is saved |
| Invariants.BindKeeps | apps/desktop/src-tauri/src/tabs.rs:649-656 | binding a usable server keeps everything in step, and is safe at every operation |
| Invariants.MoveKeeps | apps/desktop/src-tauri/src/tabs.rs:713-720 | dragging a tab keeps everything in step |
| Invariants.PersistIsSafe | apps/desktop/src-tauri/src/tabs.rs:521-532 | writing the temporary file and renaming it is safe at each of the two operations as long as every credential is a bound server's |
| Invariants.StepKeepsBound | apps/desktop/src-tauri/src/tabs.rs:659-711 | a lock section unbinds no server but the one it takes or removes |
| Invariants.TakenIsGone | apps/desktop/src-tauri/src/tabs.rs:573-575 | after a tab is removed or its server taken no tab shows that server |
| Invariants.ForgetKeeps | apps/desktop/src-tauri/src/tabs.rs:677-686 | forgetting a server no tab shows restores the match between credentials, sidecar and tabs |
| Runs.ClosingEverything | apps/desktop/src-tauri/src/tabs.rs:689-711 | closing all tabs in any order, children exiting meanwhile, ends with one fresh unbound tab never used before, no credential and no sidecar |
| Runs.SweptTabsWereIdle | apps/desktop/src-tauri/src/tabs.rs:320-337 | whatever commands ran, a tab that was active at some time is swept only 30 minutes or more after it |
| Overlaps.LateReplies | apps/desktop/src-tauri/src/session.rs:308-335 | whatever commands run while a request waits for its reply, storing the reply is safe, and keeps everything in step, if and only if some tab still shows a server with that account |
| Overlaps.ReplyInTime | apps/desktop/src-tauri/src/session.rs:308-335 | storing the reply keeps everything in step if nothing that ran meanwhile closed or left the server it is for |
| Overlaps.BoundUnlessReleased | apps/desktop/src-tauri/src/tabs.rs:659-711 | a bound server stays bound through a command if and only if the command does not close or leave the tab that shows it |
| Overlaps.LateReplyOrphans | apps/desktop/src-tauri/src/session.rs:308-335 | the failing case from any state: after closing a bound tab, a reply for its server must not be stored |
| Overlaps.LateStarts | apps/desktop/src-tauri/src/sidecar.rs:57-91 | whatever commands ran before a waiting request reaches the sidecar, ensuring a child or taking a grant keeps everything in step if and only if no child becomes ready or some tab shows the local server |
| Overlaps.LateStartOrphans | apps/desktop/src-tauri/src/session.rs:308-384 | the failing case: the tab with the local server is closed, then the waiting request starts a child; it runs while no tab shows the local server |
| Overlaps.LateRejections | apps/desktop/src-tauri/src/session.rs:327-333 | a 401 that comes late deletes whatever is stored by then: everything stays in step, and what it deletes is another token than the one rejected if and only if one was accepted meanwhile and not dropped |
| Overlaps.LoginIsLost | apps/desktop/src-tauri/src/session.rs:327-333 | the failing case: a login stored while the refresh was under way is deleted by the refresh's rejection |
| Overlaps.SaveIsSafe | apps/desktop/src-tauri/src/tabs.rs:521-532 | saving is safe if and only if every stored credential belongs to a bound server |
| Overlaps.FailedDelete | apps/desktop/src-tauri/src/tabs.rs:659-711 | if the keychain refuses the deletion of a leave or a close, the state left is safe; after any later lock sections, those that release servers deleting their credentials, a save is safe if and only if the credential is gone by then or some tab shows the server again |
| Overlaps.SavedAtOnce | apps/desktop/src-tauri/src/tabs.rs:659-711 | with no lock section in between, the save is safe if and only if there was no credential to delete |
| Overlaps.LeavingAgain | apps/desktop/src-tauri/src/tabs.rs:659-675 | the failing case: a second attempt to leave finds no server, deletes nothing and saves, which is unsafe if the credential is stored |
| Overlaps.BindingAgain | apps/desktop/src-tauri/src/tabs.rs:649-656 | the healing case: binding the tab to the same server restores exactly the state before the refused leave |
| Overlaps.RefusedClose | apps/desktop/src-tauri/src/tabs.rs:689-711 | a close whose deletion is refused shows no other tab: the active tab exists afterwards if and only if it was not the closed one |
| Overlaps.OverlappingCloses | apps/desktop/src-tauri/src/tabs.rs:689-711 | for any tab list and any two overlapping closes, finished in either order: the active tab exists afterwards if and only if it is not so that the first one removed was active and chose the other; then nothing is activated |
| Overlaps.LastTwoTabs | apps/desktop/src-tauri/src/tabs.rs:689-711 | the failing case with two tabs: no tab is left at all |
| Overlaps.TwoOfThreeTabs | apps/desktop/src-tauri/src/tabs.rs:689-711 | the failing case with three tabs: the third is left hidden and the active one is gone |
| SessionHistories.KeychainIsWholeHistory | apps/desktop/src-tauri/src/session.rs:193-384 | from a new machine on, through any launches under any policies, each process cut after any operation and children exiting at any time: the token stored under an account is the last one accepted and not dropped since, in both directions; launches that forget a blocked server count as drops, and what a process had not yet carried out in the keychain when it died counts as neither |
| SessionHistories.CutTurnFollows | apps/desktop/src-tauri/src/session.rs:308-384 | a command cut after any operation leaves the token that the events seen so far say, also between the deletion and the replacement of a sign-in |
| TokenHistory.KeychainIsHistory | apps/desktop/src-tauri/src/session.rs:280-384 | the same within one process, from any state in step |
| TokenHistory.OthersUntouched | apps/desktop/src-tauri/src/session.rs:131-133 | a command changes no credential but that of the calling tab's server |
| TokenHistory.LostOnlyWhenEnded | apps/desktop/src-tauri/src/session.rs:308-384 | a token is lost only by closing or leaving its server, sign-out, a blank login, a 401, or an empty access token in a plain refresh |
| TokenHistory.HowRepliesAreRead | apps/desktop/src-tauri/src/session.rs:403-456 | a reply is a session exactly for a readable 2xx with data and an access token; NoSession, Network and the status failures are told apart exactly; an empty rotated token counts as none |
| TokenHistory.StoreFollows | apps/desktop/src-tauri/src/session.rs:281-292 | login stores the trimmed token; a blank one deletes |
| TokenHistory.RefreshFollows | apps/desktop/src-tauri/src/session.rs:308-335 | a refresh sends its request only with a stored token and a resolved server, and then does to the keychain what its reply means |
| TokenHistory.SignInFollows | apps/desktop/src-tauri/src/session.rs:339-384 | a local sign-in: a rejected stored token is dropped and replaced through a grant, an empty access token leaves it |
| TokenHistory.ClearFollows | apps/desktop/src-tauri/src/session.rs:296-304 | sign-out deletes that tab's credential |
| TokenHistory.BlankIsTrimmed | apps/desktop/src-tauri/src/session.rs:288-290 | a token trims to nothing exactly if it consists of white space |
| Tabs.SectionsKeepTabsOk | apps/desktop/src-tauri/src/tabs.rs:107-167 | every interleaving of lock sections keeps ids distinct, each server in at most one tab, and every bound server in normal form and allowed |
| Tabs.IdsNeverReused | apps/desktop/src-tauri/src/tabs.rs:107-110 | an id that is gone never names a tab again in the run |
| Tabs.BoundUntilTaken | apps/desktop/src-tauri/src/tabs.rs:116-135 | a bound tab keeps its server through every interleaving until its server is taken |
| Tabs.BoundKeysDistinct | apps/desktop/src-tauri/src/tabs.rs:57-63 | two bound tabs never share a keychain account |
| Tabs.BindIsExact | apps/desktop/src-tauri/src/tabs.rs:116-135 | binding succeeds exactly for an existing tab that is unbound or shows the server already, when no other tab shows it |
| Tabs.BindRefusals | apps/desktop/src-tauri/src/tabs.rs:116-135 | which refusal a binding gets: open elsewhere first, then unknown, then already bound |
| Tabs.ServerOfIs | apps/desktop/src-tauri/src/tabs.rs:555-564 | the server of a label is that of the tab with this id, and none without such a tab |
| Tabs.SectionBinds | apps/desktop/src-tauri/src/tabs.rs:107-167 | each lock section changes the binding of the tab it names, as stated, and of no other tab |
| Tabs.NextIsNeighbour | apps/desktop/src-tauri/src/tabs.rs:145-152 | the next active tab is the left neighbour, from the first tab the right one, from the only tab none, and unchanged when another tab is closed |
| Tabs.LabelsDistinct | apps/desktop/src-tauri/src/tabs.rs:107-110 | distinct tab numbers give distinct labels, none of them the strip's |
| Servers.KeysDistinct | apps/desktop/src-tauri/src/tabs.rs:57-63 | well-formed servers share a keychain account only if they are equal |
| Reorder.MovePermutes | apps/desktop/src-tauri/src/tabs.rs:157-167 | a move is a permutation: the tab lands at min(index, n - 1), the others keep their order, bindings and the active tab stay |
| Reorder.EveryOrderReachable | apps/desktop/src-tauri/src/tabs.rs:157-167 | every order of n tabs is reached by at most n moves |
| Reorder.MoveKeepsPrefix | apps/desktop/src-tauri/src/tabs.rs:157-167 | a move to an index not behind the tab leaves the tabs before the index alone |
| Restore.RestoreAgrees | apps/desktop/src-tauri/src/tabs.rs:482-519 | a launch under a policy that allows all saved servers shows exactly them in order with ids 1..n, activates the saved one, and saves the same file again |
| Restore.RestartAgrees | apps/desktop/src-tauri/src/tabs.rs:170-180 | saving and launching keeps the bound servers, their order, and the active server, or the first one if the active tab showed none |
| Restore.ActiveAfterDrops | apps/desktop/src-tauri/src/tabs.rs:261 | the saved index is not adjusted for entries policy drops: the saved server is activated if and only if it is still allowed and nothing before it was dropped or nothing after it was kept; some server always is |
| Restore.DedupIsEnough | apps/desktop/src-tauri/src/tabs.rs:499 | the reader drops adjacent duplicates only: the restored entries are distinct if and only if equal allowed entries stand next to each other |
| Restore.RestoredShowsEachOnce | apps/desktop/src-tauri/src/tabs.rs:256-268 | for any file, written by the app or not: no two restored tabs show the same server exactly under that condition |
| Restore.WrongTabActive | apps/desktop/src-tauri/src/tabs.rs:261 | a file and a policy for which another tab than the saved one becomes active: local mode is switched off and the local entry stood before it |
| Restore.SameServerTwice | apps/desktop/src-tauri/src/tabs.rs:499 | an edited file that comes back with two tabs for one server |
| Restore.BothHappen | apps/desktop/src-tauri/src/tabs.rs:482-519 | both happen to addresses that exist |
| Restore.SavedMeansBound | apps/desktop/src-tauri/src/tabs.rs:170-180 | the file names exactly the bound servers |
| Restore.SavedInOrder | apps/desktop/src-tauri/src/tabs.rs:170-180 | the file lists them in the order of their tabs |
| Restore.SavedActive | apps/desktop/src-tauri/src/tabs.rs:170-180 | the saved index is that of the active tab's server, or 0 when it shows none |
| Restore.ToFileIsWritten | apps/desktop/src-tauri/src/tabs.rs:170-180 | what is written has distinct, well-formed entries and an index in range |
| Restore.RestoredTabs | apps/desktop/src-tauri/src/tabs.rs:256-268 | a restore clamps the index, numbers the tabs from 1, and hides every tab but the active one |
| Restore.ReaderKeepsAll | apps/desktop/src-tauri/src/tabs.rs:493-513 | the reader drops nothing from a written file that policy allows |
| Origin.ParseIsExact | apps/desktop/src-tauri/src/session.rs:164-181 | on the fragment, a text parses to an origin if and only if it is one of its spellings: any case, any white space around it, an optional slash, the port spelled out or left to the default |
| Origin.ParsePrint | apps/desktop/src-tauri/src/session.rs:164-181 | parsing what is printed gives the same scheme, host and port |
| Origin.DefaultPortsAreDropped | apps/desktop/src-tauri/src/session.rs:164-181 | for every host and port: `:80` after http and `:443` after https are dropped, every other port stays, and an address without a port is its own normal form |
| Origin.PlainOriginsOnly | apps/desktop/src-tauri/src/session.rs:163-181 | an accepted address holds no user name, query, fragment or percent-encoded character |
| Origin.HostNames | apps/desktop/src-tauri/src/session.rs:164-181 | labels of lower-case letters, digits, hyphens and underscores make a host, if the last starts with a letter and none with `xn--` |
| Origin.Quads | apps/desktop/src-tauri/src/session.rs:164-181 | four numbers between dots make a host exactly if none exceeds 255 |
| Origin.ParsedIsOrigin | apps/desktop/src-tauri/src/session.rs:164-181 | whatever parses is a lower-case host with a port in range |
| Origin.NormalizeIdempotent | apps/desktop/src-tauri/src/session.rs:164-181 | normalising twice is normalising once, which is why every saved remote server passes the restore check |
| Origin.SameNormalForm | apps/desktop/src-tauri/src/session.rs:164-181 | two texts normalise equally exactly when scheme, host and effective port agree, or neither is an origin |
| Policies.OverIsMonoid | apps/desktop/src-tauri/src/policy.rs:41-48 | merging hives is associative, and an empty hive changes nothing on either side |
| Policies.MachineLockIsFinal | apps/desktop/src-tauri/src/policy.rs:41-48 | with a locking machine hive no user hive changes which servers are allowed |
| Policies.MachineWins | apps/desktop/src-tauri/src/policy.rs:41-96 | the policy in effect, value by value, from what the machine and the user hive have: the machine's value counts, else the user's, else nothing is restricted; updates included |
| Policies.MachineLocalBanIsFinal | apps/desktop/src-tauri/src/policy.rs:41-48 | a machine ban on local mode holds whatever the user hive says |
| Policies.SomeServerAllowed | apps/desktop/src-tauri/src/policy.rs:72-118 | every configuration allows at least one well-formed server |
| Policies.LockedAllowsExactlyOne | apps/desktop/src-tauri/src/policy.rs:72-118 | a lock is in force exactly with a usable address, and then allows that normalised address and nothing else; without one, all remote servers and, unless disabled, the local one |
| Policies.RefusalReasons | apps/desktop/src-tauri/src/policy.rs:95-110 | a refusal names the lock exactly when one is in force, and the local-mode ban otherwise |
| Policies.TighteningShrinks | apps/desktop/src-tauri/src/policy.rs:72-118 | switching on any restriction never enlarges the allowed set |
| Sidecars.NoChildLost | apps/desktop/src-tauri/src/sidecar.rs:58-169 | every interleaving of commands and late exits: each child ever started is tracked, killed or gone, and no child's grant is handed out twice |
| Sidecars.OldExitsAreHarmless | apps/desktop/src-tauri/src/sidecar.rs:138-156 | the exit of another child never clears the running one or its grant |
| Sidecars.EnsureIs | apps/desktop/src-tauri/src/sidecar.rs:58-68 | a running child is left alone and answered with; otherwise one is started, and its own origin is the answer exactly if it became ready |
| Sidecars.TakeIs | apps/desktop/src-tauri/src/sidecar.rs:71-91 | an unused grant is handed out with its child's origin; otherwise the child is killed and a new one's own origin and grant are the answer exactly if it became ready |
| Sidecars.ExitIs | apps/desktop/src-tauri/src/sidecar.rs:103-112 | at exit the child is killed if the mutex is free and left alone if it is held |
| Sidecars.ChildExitIs | apps/desktop/src-tauri/src/sidecar.rs:146-153 | a child's exit empties the slot exactly if it is the child in it |
| Sidecars.GrantIsFresh | apps/desktop/src-tauri/src/sidecar.rs:71-91 | what is handed out are origin and grant as the child running at the end of the command reported them, the grant for the first time; a failed command hands out none |
| Sidecars.ReportsStay | apps/desktop/src-tauri/src/sidecar.rs:164-168 | the origin and the grant a child reported are never replaced in any interleaving |
| Sidecars.TakeKeepsOk | apps/desktop/src-tauri/src/sidecar.rs:83-87 | the branch for a child started without a grant is never taken |
| Sidecars.SidecarCell.EnsureRunning | apps/desktop/src-tauri/src/sidecar.rs:58-68 | in place: starts a child only if none runs, and returns the origin of the running one, or the one the new child reported; a child that did not start or did not get ready is that failure |
| Sidecars.SidecarCell.TakeGrant | apps/desktop/src-tauri/src/sidecar.rs:71-91 | in place: hands out the slot's unused grant with its origin, or those a replacement child reported; a child that did not start or did not get ready is that failure |
| Sidecars.SidecarCell.Stop | apps/desktop/src-tauri/src/sidecar.rs:94-100 | in place: empties the slot and kills the child that was in it |
| Sidecars.SidecarCell.StopBlocking | apps/desktop/src-tauri/src/sidecar.rs:103-112 | in place: at exit the slot is emptied only if no command holds the mutex |
| Sidecars.SidecarCell.OnTerminated | apps/desktop/src-tauri/src/sidecar.rs:146-153 | in place: only the exit of the tracked child empties the slot |
| Sidecars.SidecarCell.StartChild | apps/desktop/src-tauri/src/sidecar.rs:114-169 | in place: a child that does not become ready is killed; a ready one gets the next number, and the origin and the grant it reported |
| TabTables.TabTable.AllocateId | apps/desktop/src-tauri/src/tabs.rs:107-110 | in place: the next number, never given out before |
| TabTables.TabTable.Insert | apps/desktop/src-tauri/src/tabs.rs:281-296 | in place: appends a hidden tab with a new id |
| TabTables.TabTable.Bind | apps/desktop/src-tauri/src/tabs.rs:116-135 | in place: binds, or refuses for one of three reasons and changes nothing |
| TabTables.TabTable.Take | apps/desktop/src-tauri/src/tabs.rs:660-669 | in place: unbinds and returns the server the tab had |
| TabTables.TabTable.Remove | apps/desktop/src-tauri/src/tabs.rs:138-154 | in place: removes the tab, returns it and the tab to activate next, and leaves the active field alone |
| TabTables.TabTable.MoveTo | apps/desktop/src-tauri/src/tabs.rs:157-167 | in place: moves the tab to the clamped index |
| TabTables.TabTable.SetActive | apps/desktop/src-tauri/src/tabs.rs:610-625 | in place, by a loop over the tabs: shows one tab and stamps those newly hidden, keeping older stamps |
| TabTables.TabTable.ToFile | apps/desktop/src-tauri/src/tabs.rs:170-180 | by a loop over the tabs: the saved form |
| TabTables.TabTable.CollectStale | apps/desktop/src-tauri/src/tabs.rs:324-337 | by a loop over the tabs: exactly the ids of inactive tabs hidden for 1800 seconds or more |
| ShellApps.ShellApp.Init | apps/desktop/src-tauri/src/tabs.rs:256-268 | in place: start-up performs exactly its script over any safe state, passes only through safe states, and ends with everything in step |
| ShellApps.ShellApp.ReadTabsFile | apps/desktop/src-tauri/src/tabs.rs:482-519 | in place: malformed entries dropped, adjacent duplicates dropped, blocked entries dropped with their credentials, the index kept |
| ShellApps.ShellApp.RetainAllowed | apps/desktop/src-tauri/src/tabs.rs:503-513 | in place, by a loop: keeps the allowed entries and deletes the credentials of the others, in order |
| ShellApps.ShellApp.DropAdjacent | apps/desktop/src-tauri/src/tabs.rs:499 | by a loop: an entry equal to the one before it is dropped |
| ShellApps.ShellApp.InsertSaved | apps/desktop/src-tauri/src/tabs.rs:262-266 | in place, by a loop: one tab for each entry, with the ids it returns |
| ShellApps.ShellApp.Persist | apps/desktop/src-tauri/src/tabs.rs:521-532 | in place: temporary file, then rename |
| ShellApps.ShellApp.ShowTab | apps/desktop/src-tauri/src/tabs.rs:626-644 | in place, by a loop over the webviews: creates the webview if missing and shows it alone |
| ShellApps.ShellApp.CloseEachWebview | apps/desktop/src-tauri/src/tabs.rs:338-347 | in place, by a loop over the webviews: closes those listed and no other |
| ShellApps.ShellApp.Activate | apps/desktop/src-tauri/src/tabs.rs:606-646 | in place: refuses an unknown tab without a change, else performs lock section, webviews and save in this order |
| ShellApps.ShellApp.Open | apps/desktop/src-tauri/src/tabs.rs:578-603 | in place: the tab it returns exists and is the active one |
| ShellApps.ShellApp.ForgetServer | apps/desktop/src-tauri/src/tabs.rs:677-686 | in place: nothing while another tab shows the server, else the credential goes before the sidecar |
| ShellApps.ShellApp.Detach | apps/desktop/src-tauri/src/tabs.rs:693-705 | in place: tab, webview and server go in this order |
| ShellApps.ShellApp.TabsOpen | apps/desktop/src-tauri/src/tabs.rs:730-733 | the command passes only through safe states and keeps everything in step |
| ShellApps.ShellApp.TabsActivate | apps/desktop/src-tauri/src/tabs.rs:736-742 | the same; fails exactly for an unknown tab |
| ShellApps.ShellApp.TabsClose | apps/desktop/src-tauri/src/tabs.rs:689-711 | the same; the activation of the next tab cannot fail |
| ShellApps.ShellApp.TabsMove | apps/desktop/src-tauri/src/tabs.rs:745-751 | the same; fails exactly for an unknown tab |
| ShellApps.ShellApp.DiscardStale | apps/desktop/src-tauri/src/tabs.rs:320-348 | the same; exactly the webviews of tabs idle for 1800 seconds go, and nothing else changes |
| ShellApps.ShellApp.GetServer | apps/desktop/src-tauri/src/session.rs:218-231 | the same; the answer is the tab's server with its live origin, none for an unbound tab, or the reason it cannot be resolved |
| ShellApps.ShellApp.SetRemoteServer | apps/desktop/src-tauri/src/session.rs:234-253 | the same; success exactly for a well-formed, allowed address and a tab that can be bound, which then shows that server; a malformed address, a policy refusal and a refused binding are told apart in this order and change nothing |
| ShellApps.ShellApp.SetLocalServer | apps/desktop/src-tauri/src/session.rs:256-267 | the same; the tab is bound on success and also when the child fails to start, and on no other failure |
| ShellApps.ShellApp.LeaveServer | apps/desktop/src-tauri/src/tabs.rs:659-674 | the same; the credential is deleted before the file is saved |
| ShellApps.ShellApp.StoreSession | apps/desktop/src-tauri/src/session.rs:281-292 | the same; needs a bound tab |
| ShellApps.ShellApp.ClearSession | apps/desktop/src-tauri/src/session.rs:296-304 | the same; an unbound tab has nothing to clear |
| ShellApps.ShellApp.RefreshSession | apps/desktop/src-tauri/src/session.rs:308-335 | the same; answers exactly as the reply says, with its access token and its session id, or with the reason there was no request |
| ShellApps.ShellApp.LocalSignIn | apps/desktop/src-tauri/src/session.rs:339-384 | the same; stored token first, grant only when there is none or it was rejected; answers exactly as the reply that ended it says |
| ShellApps.ShellApp.Exchange | apps/desktop/src-tauri/src/session.rs:366-383 | in place: takes the grant, stores the refresh token the exchange must bring, and answers with the reply's access token and session id |
| ShellApps.ShellApp.OnTerminated | apps/desktop/src-tauri/src/sidecar.rs:146-153 | a late exit at any time keeps everything in step |
| ShellApps.DidKeeps | apps/desktop/src-tauri/src/tabs.rs:578-720 | performing a command from start to end keeps the object's invariant, with every state on the way safe to be killed in |
| InstanceIds.AllAgree | apps/desktop/src-tauri/src/paths.rs:102-142 | any number of processes, any interleaving, any left-over temporary file: on a missing or valid id file nobody fails, all return the id the file holds, a valid file is never rewritten, and every later start returns the same id |
| InstanceIds.AgreementIsExact | apps/desktop/src-tauri/src/paths.rs:102-131 | processes with different new ids are sure never to disagree if and only if there is one of them or the file is not a damaged one |
| InstanceIds.DamagedDisagree | apps/desktop/src-tauri/src/paths.rs:121-127 | the schedule on which two processes replace a damaged file one after the other and return different ids |
| InstanceIds.AloneIsLoad | apps/desktop/src-tauri/src/paths.rs:102-131 | a process that nobody disturbs is done after five steps with the result of the sequential program |
| InstanceIds.RepairsOnce | apps/desktop/src-tauri/src/paths.rs:121-127 | a lone start repairs a damaged file, and from then on every start returns the same id |
| InstanceIds.NoTextNoId | apps/desktop/src-tauri/src/paths.rs:133-142 | a file that is not text is never repaired: every start fails |
| InstanceIds.FiveTurnsAreEnough | apps/desktop/src-tauri/src/paths.rs:102-131 | no process can be held up by the others: five turns of its own are enough |
| InstanceIds.FormattedIdIsValid | apps/desktop/src-tauri/src/paths.rs:144-162 | the 16-digit form of every 64-bit value passes the validator and reads back unchanged, to that value |
| InstanceIds.FormatIdInjective | apps/desktop/src-tauri/src/paths.rs:153-162 | distinct values give distinct ids |
| InstanceIds.ValidReadsBack | apps/desktop/src-tauri/src/paths.rs:133-149 | a valid id in the file is read as it is |
| InstanceIds.ReadsExactly | apps/desktop/src-tauri/src/paths.rs:133-149 | a text is read as an id exactly if it is sixteen hexadecimal digits of either case between any white space, in lower case |
| InstanceIds.IdFolder.LoadOrCreate | apps/desktop/src-tauri/src/paths.rs:102-131 | in place: adopt, create or replace, with the temporary file gone afterwards |
| Loopbacks.ReadRequestTarget | apps/desktop/src-tauri/src/oauth_loopback.rs:94-123 | the reader's loop; up to the size limit its answer is that for the whole stream |
| Loopbacks.ChunkingIsIrrelevant | apps/desktop/src-tauri/src/oauth_loopback.rs:94-123 | up to the size limit the answer does not depend on the chunks; a broken stream without a complete header has none |
| Loopbacks.LargeRequests | apps/desktop/src-tauri/src/oauth_loopback.rs:99-111 | beyond the size limit a header that ends a chunk before the limit is answered, one that goes beyond it is refused |
| Loopbacks.SplitMattersExactlyWhen | apps/desktop/src-tauri/src/oauth_loopback.rs:99-111 | the answer depends on the chunks if and only if the request has a target, is larger than the limit, and its header ends less than a chunk before the limit |
| Loopbacks.SplitMattersHere | apps/desktop/src-tauri/src/oauth_loopback.rs:99-111 | a request whose answer depends on how it arrives |
| Loopbacks.TargetIsExact | apps/desktop/src-tauri/src/oauth_loopback.rs:112-122 | a target is returned exactly if the first line is the UTF-8 of a GET line that names it and it is an absolute path without two dots in a row |
| Utf8s.DecodeIsExact | apps/desktop/src-tauri/src/oauth_loopback.rs:113 | bytes decode to a string exactly if they are its UTF-8 encoding |
| PercentEncodings.SvgDataUri | apps/desktop/src-tauri/src/oauth_loopback.rs:211-222 | the byte loop computes the prefix and the encoding of the trimmed text's bytes |
| PercentEncodings.PercentRoundTrip | apps/desktop/src-tauri/src/oauth_loopback.rs:214-220 | decoding gives back every byte sequence, and the output has the canonical form |
| PercentEncodings.UnreservedListed | apps/desktop/src-tauri/src/oauth_loopback.rs:214-220 | the characters that are not encoded, listed |
| PercentEncodings.EncodingIsExact | apps/desktop/src-tauri/src/oauth_loopback.rs:214-220 | a text is the encoding of given bytes exactly if it consists of unreserved characters and upper-case triples where needed and decodes to them |
| PercentEncodings.DataUriInjective | apps/desktop/src-tauri/src/oauth_loopback.rs:211-222 | two images have the same URI exactly if they are equal up to white space at their ends |
| PageRanges.ParsePageRanges | deploy/services/tesseract/app.py:22-53 | for every text and every total: ascending, within 1..total, non-empty for a positive total, and exactly the pages some part asks for, or all of them when there is none |
| PageRanges.AddPart | deploy/services/tesseract/app.py:30-52 | one part adds exactly the pages of the document it asks for |
| PageRanges.OnlyTheSetOfPartsMatters | deploy/services/tesseract/app.py:30-53 | neither the order of the parts nor repeating them changes the answer |
| PageRanges.OnesRoundTrip | deploy/services/tesseract/app.py:22-53 | any non-empty ascending list of pages, printed one by one, is read back |
| PageRanges.RunsRoundTrip | deploy/services/tesseract/app.py:34-45 | any non-empty ascending list of pages, printed as ranges, is read back |
| PageRanges.PrintedSelects | deploy/services/rapidocr/app.py:30-48 | a printed page or range selects exactly what it covers (the same function in the second service) |
| PageRanges.ParsesDigits | deploy/services/rapidocr/app.py:33-37 | a string of digits within the interpreter's limit is read as its value |
| PageRanges.ParseIntIsExact | deploy/services/rapidocr/app.py:33-47 | what reads as a number: exactly decimal digits with single underscores between them, up to 4300, perhaps a sign, and white space around; and its value |
| PageRanges.NumberSelects | deploy/services/rapidocr/app.py:42-48 | a part that is one such number selects its value, and nothing if it has a minus sign |
| PageRanges.RangeSelects | deploy/services/tesseract/app.py:34-45 | a part of two such numbers with a dash between them, and any white space, selects the start and what follows up to the end; nothing if the start is 0 or has a minus sign |
| PageRanges.OnlyWrittenSelects | deploy/services/tesseract/app.py:34-52 | a part that selects anything is one such number, or has one on either side of a dash |
| PageRanges.PrintParse | deploy/services/rapidocr/app.py:18-49 | any list of pages and ranges, overlapping or not, in any order, is read as the ascending list of what it covers |
| PageRanges.ResultIs | deploy/services/tesseract/app.py:53 | the fallback to all pages applies exactly when no part asks for a page of the document |

## Left out

Assumptions of the whole-run results:

- Commands of tabs and sessions run one at a time: while a request is under way no other command runs. Lock sections, sidecar commands and exits of children are covered in every interleaving; of commands that do overlap, `Overlaps` looks at a reply or a rejection carried out late, a child started late, and two closes: when they keep everything in step, and when the active tab exists.
- Keychain operations, file writes and renames succeed and last; a deletion refused in a leave or a close is looked at in `Overlaps` only, and errors of the window or the disk that make a command return early are not modelled.
- Turns.TurnKeeps: exits may be woven in anywhere, which includes orders the command's own answers exclude; these only add runs. The methods of `ShellApps` meet exits between commands and, in a local sign-in, while the refresh is under way.
- SessionHistories.KeychainIsWholeHistory: a reply counts as accepted, or as a drop, once its keychain operation is done; one that arrived just before the process died and was not carried out is no event, because nothing of it outlives the process.
- A crash loses the child process's slot: the child a dead shell leaves behind is not tracked by the next launch.
- Children are numbered in the order they start, in place of their process ids; reuse of a process id by the operating system is not modelled.
- Sidecars.SidecarCell.Stop: the kill is part of the step, although the code does it just after it releases the mutex, because nothing the model observes can come in between.

Parts of the program that are not modelled or only in the abstract:

- Tab titles, focus, window layout, tray, events to the strip, the strip's own webview; a webview is its tab's id and whether it is shown.
- Tab ids are the number n of the label `tab-n` (`Tabs.LabelsDistinct` says why that is enough).
- HTTP, TLS and JSON: a reply is a status, a body size and the decoded data, or no reply; error texts and error codes of a reply are dropped.
- Registry, keychain and file system calls, and the format of `tabs.json`: a file is missing, unreadable or a decoded value.
- A saved local entry that carries an origin can only come from an edited file; it is read as the code reads it, but no command writes one.
- Origin.ParseIsExact: addresses outside `scheme://host[:port][/]` count as malformed, although the URL parser accepts some of them: IPv6 and shortened, octal or hexadecimal IPv4 hosts, hosts with a final dot, international names and valid `xn--` labels, further host characters, percent-encoding, empty userinfo, missing or extra slashes, tabs and line breaks inside, and C0 control characters at the ends.
- Origin.SameNormalForm: holds on the same fragment; two addresses outside it are both refused here.
- Shell commands `tabs_list` and `snapshot` only read and are not modelled.
- The instance id's file is created and written in one step; its random source is a parameter.
- The listener of the sign-in redirect, its deadline and its replies; what is received is a sequence of chunks that ends with the stream closed or broken.
- PageRanges.ParsesDigits: decimal digits outside ASCII, which Python's `int` also reads, count as malformed; the interpreter's default limit of 4300 digits is kept.
- Image preprocessing and OCR itself, the backend, the web front end, updates and packaging.
