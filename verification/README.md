# Verified model of the letkite-lite gateway (vpsmcp)

The gateway gives a language model access to a fleet of servers: an OAuth 2.1 server decides who may
call it, an SSH pool carries the calls, and shells, logs and background jobs are streamed back. This
project models the parts of it that keep state or do string arithmetic, and proves what they promise
over every run, every interleaving and every way a stream can be cut into chunks.

What updates its state in place is a class or a method with a loop here too. Each such method is proved
equal to a function of the old state, and the theorems are about that function and about runs of it. What
such a function decides is then stated a second time, from the inputs alone.
Randomness, clocks and what arrives from the network are parameters; concurrent tasks are a state
machine whose steps are the stretches between two awaits.

| file | about |
|---|---|
| `Text.dfy` | the string operations of Python that everything else rests on |
| `Scopes.dfy`, `OAuthTables.dfy`, `OAuthServer.dfy` | scope texts, the tables, and the token and approve handlers |
| `OAuthRuns.dfy`, `OAuthGuarantees.dfy` | runs of the server, their invariant, and the security promises |
| `OAuthAnswers.dfy` | the exact condition for each answer, written out |
| `OAuthCommits.dfy`, `OAuthDeletion.dfy` | the server beside a second process, commit by commit, and what deleting a client ends |
| `LogLines.dfy`, `LogBuffer.dfy` | the line splitter, the ring buffer, and the reader at the end of both |
| `Pool.dfy`, `PoolAcquire.dfy`, `PoolGuarantees.dfy`, `PoolTermination.dfy` | the connection table, and concurrent acquires through jump hosts |
| `PoolPins.dfy`, `PinRuns.dfy`, `PinQuiet.dfy`, `PinCarriers.dfy` | the tables that pin connections, runs with pins and the reaper, and connections that carry others |
| `Shell.dfy`, `Jobs.dfy`, `Capture.dfy` | the marker search, polling a growing file, bounded reads |
| `EnvFile.dfy`, `EnvGuarantees.dfy`, `EnvLoaders.dfy`, `EnvWritten.dfy`, `EnvLines.dfy` | the env file, its editor and printer, its two parsers, and lines written by hand |
| `Backoff.dfy`, `Inventory.dfy`, `ClientIp.dfy` | lockouts, the host list, and the address of a caller |

`dafny verify dfyconfig.toml` checks the whole project.

## What was found false or conditional

- The marker search of a shell is right on every stream if and only if `2 * max_bytes + 1` is at least
  the length of the marker (`Shell.SearchRightIff`); below that `Shell.ShortBufferMisses` gives a stream
  whose marker is never seen.
- Concurrent acquires can get stuck if and only if the jump hosts form a cycle
  (`PoolGuarantees.NeverStuckIffAcyclic`); a cycle lets a single task wait for itself.
- Pins and open handles agree in every state of a run if and only if no step drops a dead entry under open
  handles and no open ends on a node whose entry is gone (`PinRuns.PinsEqualHandlesIff`). A reconnect under an
  open shell is such a step: closing the old shell then takes the pin of a new one, and the reaper closes a
  connection in use (`PinRuns.ReconnectCanLosePins`). The other direction, never more pins than handles, holds
  in every run.
- A pin protects a node's own connection and not the one it runs through. The reaper can close a jump host's
  connection under an open shell, whose own connection then goes down with it. Over all runs in which nothing
  dies by itself, the reaper never closes a connection in use, and pins equal open handles, if and only if the
  fleet has no usable jump (`PinCarriers.SafeIffNoUsableJump`, `PinQuiet.AlwaysEqualIffNoUsableJump`).
- A poll of a job's output stands still exactly when the slice it reads is nothing but newlines, or the
  size was read before the file grew past the offset (`Jobs.PollMovesOn`).
- `set_env_line` writes a value that `read_env` reads back if and only if no quote of either kind stands at
  its ends, and the start-up loader if and only if no single quote does. For `write_env` and `read_env` the
  condition is that no double quote stands there, because the printer changes the quote.
- The start-up loader gives back a value printed by `write_env` if and only if no single quote is in it or no
  quote of either kind stands at its ends (`EnvWritten.WrittenLoadsIff`).
- Polling a job's output reaches the end of a file that has stopped growing if and only if the file does not
  end in a newline and holds no `max_bytes` newlines in a row ahead (`Jobs.PollingReachesEndIff`).
- A hand-written node id given to two machines is refused only if no entry whose computed id coincides
  stands between them; `Inventory.CoincidenceHidesRivals` gives the entries, for every hash.
- The command that deletes a client is another process, and each statement commits by itself. A grant that the
  deletion falls into leaves a live token of the deleted client (`OAuthDeletion.TornGrantOutlivesDeletion`), and
  its codes stay in the table. The deletion ends the client's access, up to a new approval, if and only if no
  code is left that is unspent, unexpired and has a verifier, and no handler is about to write such a code or a
  token (`OAuthDeletion.DeletionIsFinalIff`). A code that is left no longer needs the client's secret
  (`OAuthDeletion.DeletionDropsTheSecret`).
- An unlock that falls between the two statements of a login failure is undone by it
  (`Backoff.TornUnlockIsUndone`); the bounds on guessing hold all the same.

## Model

The main theorems come first, then the lemmas they rest on, then the methods that are proved equal to
the functions the theorems speak about.

| member | source | states |
|---|---|---|
| PoolGuarantees.NeverStuckIffAcyclic | src/vpsmcp/ssh/pool.py:103-123 | it never happens that calls are under way and none has a step besides giving up, if and only if the jump relation has no cycle |
| OAuthGuarantees.StepRefines | src/vpsmcp/auth/oauth.py:461-563 | every step of the flag table is a step of the map: a request moves its family to a new token or ends it |
| OAuthGuarantees.ReflectsExists | src/vpsmcp/auth/store.py:160-192 | the flag table stands for a map from families to their current token exactly when no family has two live rows |
| OAuthGuarantees.AtMostOneLive | src/vpsmcp/auth/store.py:146-192 | in every run each family has at most one unrevoked refresh row |
| OAuthCommits.AtMostOneLiveBesideDeletion | src/vpsmcp/auth/store.py:100-192 | with deletions committing at any point of a grant or approval, each family still has at most one live token |
| OAuthCommits.OverForever | src/vpsmcp/auth/store.py:146-186 | a family with a spent code, no live row and no grant in flight never gets a live row again, wherever deletions commit |
| OAuthGuarantees.DeadForever | src/vpsmcp/auth/store.py:146-186 | a family whose code is spent and which has no live row never gets one again |
| OAuthGuarantees.ReplayIsFinal | src/vpsmcp/auth/store.py:146-157 | replaying a stored code is refused and ends its family for good |
| OAuthGuarantees.ReuseIsFinal | src/vpsmcp/auth/store.py:175-186 | presenting a stored revoked token is refused and ends its family for good |
| OAuthGuarantees.CodeIsSingleUse | src/vpsmcp/auth/oauth.py:461-494 | after one attempt with a code, successful or not, no later attempt with it is answered with tokens |
| OAuthAnswers.CodeIsBound | src/vpsmcp/auth/oauth.py:472-489 | in every run a code is exchanged only before its end, by the client and for the callback of its consent, and with a verifier that answers its challenge, S256 or plain; where PKCE is required it has an S256 challenge |
| OAuthAnswers.CodeAnswer | src/vpsmcp/auth/oauth.py:461-494 | when a code request gets tokens, `invalid_target` and `invalid_grant`, each exactly, down to the stored digest, the clock, the callback, the verifier and the slashes after an audience |
| OAuthAnswers.OtherAnswer | src/vpsmcp/auth/oauth.py:416-444 | the same for refresh requests: tokens exactly for a stored, unrevoked token in time, naming no other client; any other grant type is unsupported and changes nothing |
| OAuthAnswers.RefusedIff | src/vpsmcp/auth/oauth.py:446-459 | `invalid_client` is the answer exactly when the named client is stored with a secret that the request does not carry, or a refresh token belongs to a client with a secret that the request does not name; no code or token changes then |
| OAuthAnswers.ApprovesIff | src/vpsmcp/auth/oauth.py:344-382 | the exact condition for a code to be stored, from the client to the ticked boxes, and everything the stored row says |
| OAuthAnswers.ConsentsComeFromApprovals | src/vpsmcp/auth/oauth.py:344-382 | in every run each code goes back to a step in which a logged-in user pressed approve for an allowed callback, and is bound to what that step showed |
| OAuthAnswers.IssuedCarries | src/vpsmcp/auth/oauth.py:519-555 | an issued answer and the row stored with it: family, client, subject, expiry, and the exact words of both scopes |
| OAuthGuarantees.AccessWithinConsent | src/vpsmcp/auth/oauth.py:364-382 | along any chain of rotations an access token is for the client and subject of the consent and names only scopes ticked there |
| OAuthAnswers.SecretIsRequired | src/vpsmcp/auth/oauth.py:435-459 | while the record of a client with a secret is stored, tokens for it answer only requests that name it and carry the text whose digest is stored |
| OAuthAnswers.RefreshIssuesIff | src/vpsmcp/auth/oauth.py:496-522 | in terms of families: a refresh request gets tokens exactly when it presents the current token of one, in time, names no other client, and proves a client that has a secret |
| OAuthDeletion.DeletionIsFinalIff | src/vpsmcp/auth/store.py:132-134 | deleting a client ends its access for good, up to a new approval, if and only if at its second commit no code of it is left that is unspent, unexpired and has a verifier, and no handler is about to write such a code or a token of it; anything but a new registration may come between the two commits |
| OAuthDeletion.DeletionIsFinalIffSpent | src/vpsmcp/auth/store.py:132-134 | for a deletion between requests, where verifiers are held: if and only if all its stored codes are spent or expired |
| OAuthDeletion.TornGrantOutlivesDeletion | src/vpsmcp/__main__.py:565-572 | any code exchange or rotation that the deletion falls into leaves a live token of the deleted client, whether or not a code is left |
| OAuthDeletion.DeletionDropsTheSecret | src/vpsmcp/auth/oauth.py:446-459 | a confidential client's code that is refused without the secret before the deletion is exchanged without it afterwards |
| OAuthDeletion.DeletionCutsOff | src/vpsmcp/auth/store.py:132-134 | a token of the client that is live after the deletion descends from a code that was not exchanged at its second commit, or from a grant that was in flight then |
| LogBuffer.PipelineRefinesLines | src/vpsmcp/ssh/logs.py:29-146 | for chunks and reads in any order, before the end of the stream and after it: a reader that never fell behind holds, numbered from 1, the first lines of the whole text, each as it is or its first 65536 characters and the mark |
| LogBuffer.ReaderIsSound | src/vpsmcp/ssh/logs.py:112-146 | under any interleaving the reader gets increasing numbers with the right texts and misses only evicted rows |
| LogLines.YieldCappedLines | src/vpsmcp/ssh/logs.py:29-56 | for every way of cutting the stream: one line for each newline-free part of the text, as it is up to the cap, beyond it cut there and marked; none for an empty last part |
| LogLines.SettledIsPrefix | src/vpsmcp/ssh/logs.py:29-56 | what has come out at any point is a prefix of the final answer, however the stream goes on |
| PoolGuarantees.NoWaitCycle | src/vpsmcp/ssh/pool.py:103-123 | with acyclic jumps the waits-for relation has no cycle in any reachable state |
| PoolGuarantees.ConcurrentAcquiresShare | src/vpsmcp/ssh/pool.py:103-117 | from any reachable state on, all acquires of a node without an entry return one connection, if it is neither lost nor reaped |
| PoolGuarantees.OpenNeverOverwrites | src/vpsmcp/ssh/pool.py:109-117 | a connection that has just been opened never overwrites an entry |
| PoolGuarantees.OneOpeningPerNode | src/vpsmcp/ssh/pool.py:69-70 | at most one connection per node is being opened |
| PoolGuarantees.RecursionIsBounded | src/vpsmcp/ssh/pool.py:119-123 | the recursion through jump hosts is no deeper than the level of the host it starts from |
| PoolTermination.AcquireTerminates | src/vpsmcp/ssh/pool.py:103-123 | with acyclic jumps, in every interleaving, an acquire takes at most 3 * (1 + number of nodes with a jump host) steps, and fewer as long as it is under way |
| PinRuns.PinsEqualHandlesIff | src/vpsmcp/ssh/pool.py:103-157 | in every run pins equal open handles throughout if and only if no step is one of those two |
| PinRuns.PinsNeverExceedHandles | src/vpsmcp/ssh/pool.py:103-157 | in every run, failed and overlapping reconnects included, a node has at most as many pins as open handles, so closing them all leaves it reapable |
| PinRuns.UsedNodesAreSpared | src/vpsmcp/ssh/pool.py:56-66 | in a run without such a step no reaper round takes a node with an open handle |
| PinQuiet.AlwaysEqualIffNoUsableJump | src/vpsmcp/ssh/pool.py:56-157 | over all runs in which no connection dies by itself and no open outlasts the idle limit, pins equal open handles if and only if no host is reached through a directly reached one |
| PinQuiet.QuietRunsAreExact | src/vpsmcp/ssh/pool.py:56-66 | where, besides, no connection goes down with the reaped one it runs through, no step loses pins, on any fleet |
| PinRuns.ReconnectCanLosePins | src/vpsmcp/ssh/session.py:143-147 | for every directly reached node, a run with a reconnect after which the reaper takes a live connection with an open shell |
| PinCarriers.SafeIffNoUsableJump | src/vpsmcp/ssh/pool.py:56-66 | over all quiet runs the reaper never closes a connection in use if and only if no host is reached through a directly reached one |
| PinCarriers.RoundSparesIff | src/vpsmcp/ssh/pool.py:56-66 | where no pins are lost, a reaper round closes no connection in use, tunnels included, if and only if every node whose connection is in use has a handle of its own or was acquired within the idle limit |
| Shell.RunAnswersEndOfStream | src/vpsmcp/ssh/session.py:74-91 | from the chunks to the answer: the output is the text before the marker as far as the buffer reaches, without trailing newlines, whole if it fits and its last `max_bytes` otherwise; `truncated` is set exactly when something was cut off; the status is what follows the marker |
| Shell.RunStopsAtMarker | src/vpsmcp/ssh/session.py:52-73 | run stops on the chunk that completes the marker; the buffer is the whole stream exactly when the stream before that chunk fits four times `max_bytes`, and otherwise that chunk and two to four times `max_bytes` before it |
| Shell.SearchRightIff | src/vpsmcp/ssh/session.py:52-73 | the search is right on every stream if and only if twice `max_bytes` holds a marker less one character |
| Jobs.PollingIsGapFree | src/vpsmcp/ssh/jobs.py:117-138 | over a file that only grows, even between the two reads of a poll, nothing is skipped or repeated and offsets never go back |
| Jobs.PollingReachesEndIff | src/vpsmcp/ssh/jobs.py:117-138 | polling a file that has stopped growing reaches its end if and only if the file does not end in a newline and holds no `max_bytes` newlines in a row from the offset on |
| Jobs.PollMovesOn | src/vpsmcp/ssh/jobs.py:117-138 | a poll moves on by exactly the next part of the file, and when it stands still |
| Jobs.TrailerParses | src/vpsmcp/ssh/jobs.py:124-138 | body, size and next offset are read back from the printed text, even when the body holds `__SIZE__` |
| Capture.Sink.Drain | src/vpsmcp/ssh/runner.py:58-67 | for every chunking the first `cap` bytes of the stream are kept, and the flag is set exactly when the stream is longer |
| Capture.HttpCapped | src/vpsmcp/tools/ops.py:28-39 | the same bytes and flag, reading no chunk beyond the one that is too much |
| EnvLoaders.SetLineThenRead | src/vpsmcp/setup.py:144-198 | after an edit `read_env` reads the value if and only if no quote ends it, and every other key as before |
| EnvLoaders.SetLineThenLoad | src/vpsmcp/__main__.py:59-68 | after an edit the start-up loader reads the value if and only if no single quote ends it, every other key as before, and nothing changes for a variable that is already set |
| EnvGuarantees.EditedHoldsOnce | src/vpsmcp/setup.py:155-168 | afterwards exactly one line holds the key, at the place of its first holder or at the end |
| EnvGuarantees.EditedKeepsOthers | src/vpsmcp/setup.py:155-168 | all other lines stay, in their order |
| EnvGuarantees.EditingTwiceIsOnce | src/vpsmcp/setup.py:155-168 | repeating the edit changes nothing |
| EnvWritten.ReadUndoesWrite | src/vpsmcp/setup.py:132-198 | `read_env` gives back the keys of `write_env`, and exactly the values that no double quote ends |
| EnvWritten.LoadOfWritten | src/vpsmcp/__main__.py:59-68 | what the start-up loader makes of a printed file: set variables stay, all other printed keys are added, with exactly the values that come back |
| EnvLines.UnquotedLineIsRead | src/vpsmcp/setup.py:186-198 | an unquoted `KEY=value` line at the end of any file: `read_env` and the start-up loader read the value as it stands |
| Backoff.LoginGuessingIsSlow | src/vpsmcp/auth/store.py:221-225 | in any run n >= 9 counted login failures of one address span at least 480 + 512 * (n - 9) seconds from the fifth |
| Backoff.EnrollmentGuessingIsSlow | src/vpsmcp/enroll.py:123-127 | for enrollment keys, n >= 11 span at least 2016 + 1800 * (n - 11) seconds |
| Backoff.PatienceIsEnough | src/vpsmcp/auth/store.py:214-225 | the bound is exact: guesses that wait that long are all examined |
| Backoff.AddressesAreApart | src/vpsmcp/auth/store.py:214-234 | the row of an address depends only on its own requests and on unlocks |
| Inventory.AcceptedIff | src/vpsmcp/inventory.py:132-172 | an inventory loads, with these hosts, exactly when every entry is well formed, none clash, these are the last entries per id, and every jump is loaded |
| Inventory.RefusedIffClash | src/vpsmcp/inventory.py:160-166 | the loop refuses exactly when two entries write one id for different machines with no entry of that id between them |
| Inventory.RefusedIffRivals | src/vpsmcp/inventory.py:160-166 | with no computed id equal to a hand-written one it refuses exactly when one hand-written id stands for two machines |
| Inventory.CoincidenceHidesRivals | src/vpsmcp/inventory.py:132-172 | for every hash and every three addresses, three entries that are accepted although the first and the third write one id for different machines |
| Inventory.ParsedFields | src/vpsmcp/inventory.py:106-158 | field by field what a parsed host has: the entry wins over the defaults, a node id is never taken from them |
| ClientIp.CallerCannotForge | src/vpsmcp/netutil.py:24-39 | for every header a caller sends, behind n proxies the answer is the address the outermost of them saw |
| Scopes.NormWords | src/vpsmcp/auth/oauth.py:59-64 | the words of a normalised scope are the requested ones that are allowed or `offline_access`, or all allowed ones when none is left; no word comes twice |
| Scopes.NormIdempotent | src/vpsmcp/auth/oauth.py:59-64 | normalising a scope twice is normalising it once |
| Scopes.NormOfScopes | src/vpsmcp/auth/oauth.py:59-64 | with `SCOPES` as the allowed list the result is never empty and names only known scopes |
| Scopes.RefreshedShrinks | src/vpsmcp/auth/oauth.py:519-521 | the scope of a refresh lies within the one held, and is not emptied |
| Scopes.ClaimedWords | src/vpsmcp/auth/oauth.py:533 | the scope claim is the granted scope without `offline_access` |
| Scopes.PickedWords | src/vpsmcp/auth/oauth.py:365-372 | the granted scope holds exactly the requested words whose box is ticked, and `offline_access` if requested |
| OAuthRuns.StepKeepsInv | src/vpsmcp/auth/oauth.py:461-555 | every step of the server keeps: one live token per family, unspent codes without tokens, rows within their consent |
| OAuthRuns.RunKeepsInv | src/vpsmcp/auth/oauth.py:461-555 | the same in every reachable state |
| OAuthRuns.TokenTamesOrInserts | src/vpsmcp/auth/oauth.py:461-555 | a token request at most spends and revokes, unless it is answered with tokens; then it adds exactly one row, to a family that has just become empty |
| OAuthGuarantees.ReflectsUnique | src/vpsmcp/auth/store.py:160-192 | that map is unique |
| OAuthGuarantees.SpentForever | src/vpsmcp/auth/store.py:146-157 | a spent code stays spent in every later state |
| OAuthGuarantees.RunKeepsChallenged | src/vpsmcp/auth/oauth.py:347-353 | where PKCE is required every stored code carries an S256 challenge |
| OAuthGuarantees.RotationCarries | src/vpsmcp/auth/oauth.py:519-522 | a rotation keeps family, client and subject, narrows the scope and sets the new expiry |
| LogLines.LinesOfJoin | src/vpsmcp/ssh/logs.py:29-56 | the lines of a text are the lines of its first part and then those of what it left over, joined to the second |
| LogLines.ChunkJoins | src/vpsmcp/ssh/logs.py:42-56 | a chunk appended to the trimmed buffer gives what it would give appended to everything read so far |
| LogBuffer.ReadIsStretch | src/vpsmcp/ssh/logs.py:133-146 | filtering the ring buffer by the cursor gives a gapless stretch of the history |
| LogBuffer.ReadIsNext | src/vpsmcp/ssh/logs.py:133-146 | a read whose cursor is not behind the buffer returns exactly the next lines |
| PoolAcquire.RunKeepsInv | src/vpsmcp/ssh/pool.py:103-123 | in every interleaving each lock is held by exactly the nested call that took it, no task holds one twice, and a locked node has no entry |
| PoolGuarantees.LiveIsShared | src/vpsmcp/ssh/pool.py:103-117 | while a live entry is neither lost nor reaped every acquire of its node returns its connection |
| PoolGuarantees.AcyclicHasRank | src/vpsmcp/ssh/pool.py:119-123 | if the jump relation has no cycle, there is a ranking that falls along every jump |
| PoolGuarantees.AcyclicNeverStuck | src/vpsmcp/ssh/pool.py:103-123 | with acyclic jumps some task can always go on |
| PoolGuarantees.CycleGetsStuck | src/vpsmcp/ssh/pool.py:119-123 | one task that enters a cycle of jump hosts ends up unable to go on, waiting for a lock it holds |
| Shell.SearchIsMeant | src/vpsmcp/ssh/session.py:52-73 | the loop stops on the first chunk after which the whole stream holds the marker, although it trims, and holds the end of that stream |
| Shell.ShortBufferMisses | src/vpsmcp/ssh/session.py:71-73 | for any smaller buffer a stream whose marker is missed |
| Shell.OutputIsEndOfStream | src/vpsmcp/ssh/session.py:74-91 | for any buffer that ends the stream: exactly which part of the text before a unique marker is the output, and exactly when `truncated` is set |
| Shell.StatusIsRead | src/vpsmcp/ssh/session.py:75-89 | exit code and directory are read back from the rest of the marker line |
| Jobs.PolledFromStart | src/vpsmcp/ssh/jobs.py:117-138 | the parts put together are a prefix of the file |
| Capture.JoinedIsArrived | src/vpsmcp/tools/ops.py:33-39 | on a stream without empty chunks both loops are about the same text |
| EnvFile.EntryIsHeld | src/vpsmcp/setup.py:159-161 | the editor finds a key on exactly the lines on which the parsers read it |
| EnvFile.UnquoteFirstIff | src/vpsmcp/__main__.py:65 | a single-quoted value comes back from the start-up loader exactly when no single quote ends it |
| EnvFile.UnquoteLastIff | src/vpsmcp/setup.py:195 | it comes back from `read_env` exactly when no quote of either kind ends it |
| EnvFile.SplitOfFile | src/vpsmcp/setup.py:169 | splitting a written file gives the lines that were written |
| EnvGuarantees.EditedForm | src/vpsmcp/setup.py:155-168 | the edited file is what stood before the first holder, the new line, and the other lines after it |
| EnvLoaders.EditedSplits | src/vpsmcp/setup.py:158-169 | the edited file is read back line by line as it was meant |
| EnvWritten.WrittenComesBackIff | src/vpsmcp/setup.py:136 | a printed value comes back from `read_env` if and only if no double quote ends it |
| Backoff.RunIsTold | src/vpsmcp/auth/store.py:214-234 | in every run with a monotone clock, unlocks that fall into a failure included, the row of an address has at least its failures since the last unlock and the lock of the last one, and each failure waited out the lock before it |
| Backoff.LockEnds | src/vpsmcp/auth/store.py:214-225 | an address that stays away for the cap is examined again |
| Inventory.LastEntryWins | src/vpsmcp/inventory.py:160-166 | what the loop accepted holds exactly the last entry per id |
| Inventory.HostsStandUnderTheirIds | src/vpsmcp/inventory.py:43-48 | every loaded host stands under its own node id |
| ClientIp.AppendedParts | src/vpsmcp/netutil.py:36 | one proxy adds one part at the right, whatever stood there before |
| ClientIp.TooFewEntries | src/vpsmcp/netutil.py:37-39 | behind fewer proxies than configured it is the direct peer, unless the caller supplied the missing parts |
| OAuthDeletion.CodeSurvivesDeletion | src/vpsmcp/auth/oauth.py:461-494 | after the deletion a request with a code of the client is answered with tokens exactly when the code is stored, unspent and fits, and the resource is accepted |
| PinRuns.StepKeepsEqualIff | src/vpsmcp/ssh/pool.py:103-157 | from pins equal to handles, a step keeps them equal exactly when it neither drops a dead entry under open handles nor ends an open on a node without an entry |
| PinCarriers.JumpHostIsReaped | src/vpsmcp/ssh/pool.py:119-134 | for every usable jump, a quiet run after which the reaper closes the jump host's connection under an open shell |
| EnvWritten.WrittenLoadsIff | src/vpsmcp/__main__.py:65 | a printed value comes back from the start-up loader if and only if no single quote is in it, or no quote of either kind ends it |
| OAuthDeletion.TornApprovalOutlivesDeletion | src/vpsmcp/__main__.py:565-572 | any approval that the deletion falls into leaves an unspent code of the deleted client |
| OAuthDeletion.CutIsFinalIff | src/vpsmcp/auth/store.py:132-134 | the same equivalence at the second commit of the deletion, when the record is gone |
| OAuthDeletion.ErasedStaysErased | src/vpsmcp/auth/store.py:132-134 | once the record is gone no act but a new registration of the id makes the client confidential again |
| OAuthCommits.ActsKeepSound | src/vpsmcp/auth/store.py:100-192 | in every such run the invariant of the server holds, and a grant in flight is for a family that is empty and whose code is spent |
| OAuthCommits.UndisturbedGrantIsOneStep | src/vpsmcp/auth/oauth.py:461-555 | a grant whose two halves follow each other does what it does as one step |
| OAuthCommits.UndisturbedApprovalIsOneStep | src/vpsmcp/auth/oauth.py:344-382 | an approval whose two halves follow each other does what it does as one step |
| PinQuiet.JumpCanLosePins | src/vpsmcp/ssh/pool.py:56-134 | for every usable jump, a run in which nothing dies by itself and an open shell ends up without a pin |
| PoolTermination.MoveFalls | src/vpsmcp/ssh/pool.py:103-123 | every step of an acquire leaves it less to do |
| Backoff.UntornIsExact | src/vpsmcp/auth/store.py:214-234 | where no unlock falls into a failure the row counts exactly the failures since the last success or unlock |
| Backoff.TornUnlockIsUndone | src/vpsmcp/auth/store.py:221-234 | an unlock between the two statements of a failure is undone: the address is locked as it would have been |
| OAuthAnswers.RegistrationStores | src/vpsmcp/auth/store.py:111-116 | a registration stores the digest of the secret it hands out, or none, and touches no code or token |
| OAuthAnswers.SecretIsKept | src/vpsmcp/auth/store.py:111-134 | a stored secret stays in every run that neither deletes the client nor registers its id again |
| OAuthAnswers.AudienceIff | src/vpsmcp/settings.py:117-120 | an audience is accepted exactly when it is empty or an accepted one with slashes behind it |
| OAuthAnswers.CollectionKeeps | src/vpsmcp/auth/store.py:285-288 | exactly the codes over an hour and the tokens over a day past their end go |
| Scopes.RefreshedWords | src/vpsmcp/auth/oauth.py:519-521 | the exact words of a refreshed scope: those asked for that are held, or all held ones when that leaves none |
| LogLines.CappedLinesAre | src/vpsmcp/ssh/logs.py:29-56 | the capped lines of a text, part by part, where the parts joined by newlines are the text |
| LogBuffer.RoomyIsCaughtUp | src/vpsmcp/ssh/logs.py:112-146 | a reader never falls behind as long as what was appended fits the buffer |
| LogBuffer.ReadReturns | src/vpsmcp/ssh/logs.py:133-146 | how many rows a read returns, which, and the next cursor |
| Shell.SearchTrims | src/vpsmcp/ssh/session.py:52-73 | when the buffer is trimmed, and that it then holds the last chunk and between two and four times `max_bytes` before it |
| Shell.StatusIsMissing | src/vpsmcp/ssh/session.py:82-89 | exactly when the exit code is -1, and that the directory is empty without a colon |
| Jobs.TrailerIsMissing | src/vpsmcp/ssh/jobs.py:124-138 | without a size mark there is no body, and the next offset is 0 unless the text is a number |
| Backoff.LoginLocks | src/vpsmcp/auth/store.py:221-225 | the lock after n login failures in seconds: 0 before the fifth, then 32, 64, 128, 256, 512 and no more |
| Backoff.EnrollmentLocks | src/vpsmcp/enroll.py:123-127 | the same for enrollment, on to 1024 and 1800 |
| Inventory.RefusedEntry | src/vpsmcp/inventory.py:132-143 | exactly which entries are refused, and with which of three errors, down to the characters of alias and node id |
| Inventory.NodeIdIs | src/vpsmcp/inventory.py:43-48 | a node id is the hand-written one, or else computed from address, port and user |
| ClientIp.AddressIs | src/vpsmcp/netutil.py:33-39 | the part that many places from the right, and the peer when there are too few parts or no hops are trusted |
| ClientIp.HeaderIsIgnored | src/vpsmcp/netutil.py:33-34 | without trusted proxies no header changes the answer |
| ClientIp.SplitJoins | src/vpsmcp/netutil.py:36 | the fields of a header have no comma and give the header again when joined |
| EnvLines.SpacedLineIsRead | src/vpsmcp/__main__.py:60-66 | blanks around key, equals sign and value do not count |
| EnvLines.CommentIsSilent | src/vpsmcp/__main__.py:61-63 | a comment line sets nothing, whatever stands in it |
| EnvLines.NoEqualsIsSilent | src/vpsmcp/__main__.py:61-63 | nor does a line without an equals sign |
| EnvLines.SplitAtBreak | src/vpsmcp/setup.py:189 | a line ends at each kind of line break, a carriage return and line feed together counting as one |
| EnvLines.LastLineNeedsNoEnd | src/vpsmcp/setup.py:189 | text without a line break is one line, or none if it is empty |
| PoolGuarantees.CanMoveIff | src/vpsmcp/ssh/pool.py:103-123 | in every reachable state a task has a step besides giving up exactly when it does not wait for a lock that is taken |
| PoolGuarantees.RoundCloses | src/vpsmcp/ssh/pool.py:56-66 | a round of the reaper closes exactly the connections of the unpinned entries idle for longer than the limit |
| PinRuns.RoundCloses | src/vpsmcp/ssh/pool.py:56-66 | those, and the connections that run through them |
| EnvLines.NoFile | src/vpsmcp/setup.py:144-198 | without a file nothing is read, and the first edit makes a file of one line |
| OAuthTables.Store.PutClient | src/vpsmcp/auth/store.py:111-116 | the record is stored under its id, replacing an older one |
| OAuthTables.Store.GetClient | src/vpsmcp/auth/store.py:118-124 | the stored secret digest of a client, and whether the client is known at all |
| OAuthTables.Store.DeleteClient | src/vpsmcp/auth/store.py:132-134 | the record goes and every refresh row of the client is revoked; codes stay |
| OAuthTables.Store.PutCode | src/vpsmcp/auth/store.py:137-144 | a new unspent code row under the digest of the code |
| OAuthTables.Store.TakeCode | src/vpsmcp/auth/store.py:146-157 | the first taking spends the code; a later one revokes the family made from it; nothing else changes |
| OAuthTables.Store.PutRefresh | src/vpsmcp/auth/store.py:160-166 | a new unrevoked row under the digest of the token |
| OAuthTables.Store.RefreshOwner | src/vpsmcp/auth/store.py:168-173 | the client of a stored token, without consuming it |
| OAuthTables.Store.TakeRefresh | src/vpsmcp/auth/store.py:175-186 | the first taking revokes the token; taking a revoked one revokes its whole family |
| OAuthTables.Store.RevokeRefresh | src/vpsmcp/auth/store.py:188-189 | that one row is revoked, if it is there |
| OAuthTables.Store.RevokeFamily | src/vpsmcp/auth/store.py:191-192 | exactly the rows of the family are revoked |
| OAuthTables.Store.Collect | src/vpsmcp/auth/store.py:285-288 | codes an hour and tokens a day past expiry go, all others stay |
| OAuthServer.AuthorizationServer.Approve | src/vpsmcp/auth/oauth.py:344-382 | a code is stored exactly when every check passes and at least one permission is ticked, bound to client, callback, challenge, subject and ticked scope |
| OAuthServer.AuthorizationServer.Token | src/vpsmcp/auth/oauth.py:416-444 | the answer and the new tables for every grant type and every error, client authentication first |
| OAuthServer.AuthorizationServer.CheckClientAuth | src/vpsmcp/auth/oauth.py:446-459 | true exactly when the named client is stored with a secret and the request has none or one with another digest |
| OAuthServer.AuthorizationServer.GrantCode | src/vpsmcp/auth/oauth.py:461-494 | the code is spent whatever follows; tokens are issued only in time, to its client, with its callback, verifier and an accepted resource |
| OAuthServer.AuthorizationServer.GrantRefresh | src/vpsmcp/auth/oauth.py:496-522 | the owner's secret is asked for before the token is consumed; an expired or foreign request still consumes it |
| OAuthServer.AuthorizationServer.Issue | src/vpsmcp/auth/oauth.py:524-555 | one unrevoked row in the family, and an access token with the same client, subject and scope less `offline_access` |
| OAuthServer.AuthorizationServer.Revoke | src/vpsmcp/auth/oauth.py:557-563 | the presented token, and only it, is revoked |
| LogLines.LineSplitter.Feed | src/vpsmcp/ssh/logs.py:37-42 | a chunk settles exactly the lines that the whole text so far settles anew; the longest buffer held, the one before splitting included, never exceeds the line cap and one read |
| LogLines.LineSplitter.SplitBuffer | src/vpsmcp/ssh/logs.py:43-56 | the inner loop ends and takes all complete lines off the buffer, capping long ones and dropping their tails |
| LogLines.LineSplitter.Finish | src/vpsmcp/ssh/logs.py:38-41 | with the last line, what came out is the capped lines of the whole text |
| LogBuffer.LogSub.Append | src/vpsmcp/ssh/logs.py:115-118 | the ring buffer is the end of the numbered history, and `dropped` counts what it lost |
| LogBuffer.LogSub.OnChunk | src/vpsmcp/ssh/logs.py:112-118 | after each chunk the history is what the text so far settles |
| LogBuffer.LogSub.OnEof | src/vpsmcp/ssh/logs.py:112-125 | at the end of the stream the history is the capped lines of the whole text |
| LogBuffer.LogSub.OnFault | src/vpsmcp/ssh/logs.py:121-125 | a fault adds one row, which evicts without being counted |
| LogBuffer.LogSub.Read | src/vpsmcp/ssh/logs.py:133-146 | a read returns at most `limit` rows of the history, from the cursor or the oldest buffered row |
| Pool.SSHPool.Lookup | src/vpsmcp/ssh/pool.py:105-113 | a live entry is returned and counts as used, anything else is a miss |
| Pool.SSHPool.Drop | src/vpsmcp/ssh/pool.py:114 | the stale entry of the node, and only it, goes |
| Pool.SSHPool.Install | src/vpsmcp/ssh/pool.py:116 | the new connection is entered without pins |
| Pool.SSHPool.Pin | src/vpsmcp/ssh/pool.py:149-152 | one pin more on a node that has an entry |
| Pool.SSHPool.Unpin | src/vpsmcp/ssh/pool.py:154-157 | one pin less, never below zero |
| Pool.SSHPool.Reap | src/vpsmcp/ssh/pool.py:56-66 | one round closes and removes exactly the unpinned entries idle for longer than the limit |
| PoolPins.Manager.Enter | src/vpsmcp/ssh/tunnels.py:44-46 | a handle is entered and its node gets one pin |
| PoolPins.Manager.Close | src/vpsmcp/ssh/tunnels.py:54-62 | the handle goes and its node loses one pin, once |
| PoolPins.Manager.Reap | src/vpsmcp/ssh/session.py:162-166 | exactly the closed and the expired handles go, each giving back one pin |
| Shell.ShellSession.Run | src/vpsmcp/ssh/session.py:35-91 | a result only when the marker was found; the end of the shell and the deadline close the session |
| Shell.ShellSession.Await | src/vpsmcp/ssh/session.py:52-73 | the read loop does what the search on chunks says, and leaves the session open exactly when it found the marker |
| EnvFile.EnvFile.SetLine | src/vpsmcp/setup.py:144-183 | the new text of the file, and whether the key was replaced or added |
| EnvFile.EnvFile.Rewrite | src/vpsmcp/setup.py:158-166 | the loop replaces the first holder and drops the later ones |
| EnvFile.EnvFile.WriteEnv | src/vpsmcp/setup.py:132-141 | the file is the header and one line per value, quoted as the value needs |
| EnvFile.EnvFile.ReadEnv | src/vpsmcp/setup.py:186-198 | of several lines with one key the last wins |
| EnvFile.EnvFile.LoadInto | src/vpsmcp/__main__.py:58-69 | of several lines the first wins, existing variables are kept, and the count is of new ones |
| Backoff.AttemptTable.Locked | src/vpsmcp/auth/store.py:214-219 | positive exactly while the lock of the address lies ahead, and then the seconds up to it |
| Backoff.AttemptTable.Failed | src/vpsmcp/auth/store.py:221-225 | one failure more, and from the fifth on a lock that doubles up to its cap |
| Backoff.AttemptTable.Ok | src/vpsmcp/auth/store.py:227-228 | the row of the address goes |
| Backoff.AttemptTable.Clear | src/vpsmcp/auth/store.py:230-234 | one row or all rows go, and their number is returned |
| Backoff.AttemptTable.Login | src/vpsmcp/auth/oauth.py:389-404 | a locked address is refused unexamined; otherwise a failure counts and a success clears |
| Backoff.AttemptTable.Gate | src/vpsmcp/enroll.py:463-483 | exactly when the gate admits and which refusal it gives; the table changes by one counted failure on a wrong key and not otherwise |
| Inventory.LoadInventory | src/vpsmcp/inventory.py:132-172 | the loaded hosts, or the error of the first entry that is refused |
| Inventory.CheckJumps | src/vpsmcp/inventory.py:168-171 | whether every jump names a loaded host |
| Inventory.Get | src/vpsmcp/inventory.py:64-77 | a host by id, or by an alias that exactly one host has |

## Left out

- SSH, SFTP, HTTP, SQLite, YAML, JWT, scrypt and RSA: foreign libraries. Tables are maps, streams are sequences of chunks, a digest determines its text, and the S256 transform is a parameter.
- Random values: codes and refresh tokens are assumed not to repeat; so are the ids of handles and connections.
- Clock readings: a handler of the authorization server reads the clock once here, where the program reads it up to twice.
- Request parsing: content types, basic authentication, redirect URI matching and login cookies. Whether the callback is allowed is a parameter of an approval.
- Registration and client documents appear only as steps of a run that store a client record.
- Commits inside a request: the runs of `OAuthRuns.dfy` take a request as one step. `OAuthCommits.dfy` cuts an approval and a grant before its last commit, where a deletion by the other process matters: one that falls before the code or token is taken leaves the tables as one before or after the whole request would.
- Sessions of the consent page, the audit trail and the redirect allow-list: one table each, without rules that span operations.
- OAuthTables.Store.PutClient: keeps the secret of a client and neither its metadata nor its creation time, because no rule modelled here reads them.
- OAuthTables.Store.GetClient: answers with the secret only, for the same reason.
- The machine of concurrent acquires lets tasks take a free lock in any order and fail at any point, so it allows more than asyncio does; a jump host that cannot be resolved is a failing connect. The runs with pins let a connection through a jump host use any connection made for that host that is not closed; a round of the reaper takes down what runs through it, and what runs through a connection that dies by itself dies in steps of its own.
- The pool at shutdown, and the state of connections inside asyncssh beyond closed or not.
- A jump that names an ambiguous alias passes the load and fails on use; `Inventory.Get` answers `Ambiguous` then.
- StatusIsRead: assumes that the rest of the marker line arrives with the marker, because the loop stops at the marker.
- Status: reads plain digits, where Python's `int` also takes signs, blanks and underscores; so does the size of a job's output.
- Multi-byte characters in shells, jobs and bounded reads: one character is one byte there.
- Login-shell noise around the output of a job script, and its extra room of 4096 bytes: what the script prints is what arrives.
- `output` with `tail=True`: its next offset is the size.
- Time stamps of log rows, and the list and close operations of subscriptions apart from their pins.
- Limits on the number of sessions, logs and tunnels: checked before an await, so they hold only for opens that do not overlap.
- Line ends in env files are those after universal newline translation; file ownership, mode and replacement are not modelled.
- ReadUndoesWrite: is about plain keys and one-line values; a value with a line break is cut by both parsers.
- Inventory fields that play no part in identity or jumps, non-text values, several source files (their entries are one list here), and reloading on change.
- A source that sends several `X-Forwarded-For` headers.
- Policy expressions and the outbound proxy check: the first are one branch each, the second rests on DNS answers.
