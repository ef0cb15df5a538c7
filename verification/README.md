# Verified models of the gogram client

gogram is a Telegram MTProto client library in Go. This project models its stateful parts in Dafny and proves
what each of them keeps over every run. One module, in the file of the same name, models one part:

| part | modules |
|---|---|
| Downloads: retries, aligned chunks, the delivery network's digests, parts and saved progress, concurrent workers with crashes, sequential streaming, pacing | `Files`, `RetryFetch`, `ChunkDownload`, `CdnFetch`, `Parts`, `ResumeState`, `ParallelDownload`, `StartingOver`, `FlushedProgress`, `DownloadProgress`, `StreamDownload`, `TransferPacer`, `PacerRuns`, `PacerControl` |
| Received message ids and the connection gate | `ReceiveWindow`, `ConnectionGate` |
| Requests waiting for responses, sequence numbers | `PendingRequests`, `ResponseOrigins`, `SequenceNumbers` |
| Permanent and temporary keys with their salts | `KeyRing`, `RequestKeys` |
| The peer cache | `RecencyOrder`, `Usernames`, `PeerCache`, `PeerHistory` |
| Reading and writing HTML entities | `Utf16`, `HtmlTokenizer`, `HtmlTokens`, `HtmlParser`, `HtmlSpans`, `HtmlPrinter`, `HtmlRoundTrip` |
| Paging through a history | `HistoryPager` |

`dafny verify dfyconfig.toml` checks everything.

How the parts are modelled:

* An object that the source updates in place is a class. Its methods are tied to functions of the old state (`View`,
  `Contents`, `Done`), and the theorems are about those functions.
* What runs concurrently is a state machine. One event is one step of one party that happens under a lock or as one
  channel operation, and the theorems hold of every sequence of events.
* Servers, callbacks, clocks, digests and failures are parameters: functions that may answer anything, or events that may
  come at any time. Where a theorem needs a faithful server it says so.
* Where a state machine hands something on (a reply, a hash, a salt, a mark), the theorems trace it through the run: they
  name the event that it comes from, by what the parties did and not by the function that handles it (`ResponseOrigins`,
  `PeerHistory`, `RequestKeys`, `FlushedProgress`).
* A successful part fetch is one notion throughout: what `RetryFetch.FetchWithRetry` ensures of a success under faithful
  fetches is the file's `Slice` of the requested range, and that is what `ChunkDownload`, `StreamDownload` and
  `ParallelDownload` take a fetched part to be. `CdnFetch.VouchedFetchesAreFaithful` puts parts from the delivery network
  under the same notion: its answers may be forged, and only the origin's digests are trusted.

## What does not hold

Four properties one might expect are false of the code. Each comes with a run that shows it and with the exact condition
under which the property holds.

* A download that starts over on a destination leaves the old progress file in place until its first flush, or, without
  resume, for good. If it dies, a later download believes marks that are false
  (`ParallelDownload.StaleProgressLosesTheFile`). Downloads deliver the file exactly when the saved marks are true
  (`TrustedExactlyWhenTrue`). What starting over leaves is safe, for every file of the size and every later chunk size
  and location, exactly when none of these later downloads finds a mark in the old progress file
  (`StartingOver.SafeForAllExactlyWhen`); a caller can check that, since a progress file loads for at most one chunk
  size and location (`OneDownloadLoads`). A check with the caller's own parameters alone is not enough.
* A new salt that arrives under a temporary key which a rotation has just dropped is stored as the permanent key's salt
  (`KeyRing.PermanentSaltCanBeOverwritten`, `PermanentSaltIsKeptExactlyWhen`).
* A user whose name was taken over and given up by another does not get it back by announcing it again
  (`Usernames.NameCanBeLost`, `UpdateOwnsItsNamesExactlyWhen`).
* A user with a negative id shares its entry of the name index with a channel (`Usernames.NegativeIdsCollide`). Names lead
  back to the peer that announced them exactly when a user's id is not negative, or a channel's is positive
  (`ValueLeadsBackExactlyWhen`, `UpdateLeadsBackExactlyWhen`).

Conditions on a server, a supply or a digest are met by something: `StreamDownload.GoodSupply`,
`RetryFetch.ReliableWorld`, `CdnFetch.HonestNetwork` and `HistoryPager.HonestServer` give one for every file and every
history, and `KeyRing.SomeDistinctHashes` gives key hashes.

## Model

| member | source | states |
|---|---|---|
| `RetryFetch.FetchWithRetry` | telegram/media.go:1701-1759 | For every mixture of timeouts, floods, partial answers and cancellations: a success is exactly the file's bytes of the part, cut at its end, if single fetches are faithful; it succeeds whenever they are, the context stays alive, no failure is fatal and no 20 in a row fail; a fatal or cancelled fetch is the last one, and only a fatal one is reported as such; at most 20 fetches for each 4096 bytes; no request leaves the part or its 1024 grid. |
| `RetryFetch.ReliableWorld` | telegram/media.go:1712-1722 | For every file there are such reliable fetches, so what is promised of them is promised of something. |
| `RetryFetch.NeverFailingIsReliable` | telegram/media.go:1712-1740 | Faithful fetches that never fail are among them. |
| `RetryFetch.BackoffKeepsShape` | telegram/media.go:1748-1750 | A timeout's smaller request is still at least 4096 bytes or all that is left, which is what bounds the number of fetches. |
| `RetryFetch.GatheredAfter` | telegram/media.go:1721-1737 | A full answer continues the part and a short one completes it: nothing is missing between the pieces. |
| `Files.ShortSliceIsAll` | telegram/media.go:1730-1734 | A short answer means that the file ends, so it may end the part. |
| `ChunkDownload.DownloadChunk` | telegram/media.go:2261-2348 | The result is the file from start to end or its size, for faithful fetches; it is there whenever they are reliable and the arguments are good; with a known size a result of any other length is refused as an unexpected end, which only a file shorter than announced can cause; a bad chunk size and, with a good one, a bad range are refused, and nothing else is; every request that the chunks and their retries make is aligned to 1024, no longer than the chunk size and inside one megabyte block. |
| `ChunkDownload.FetchParts` | telegram/media.go:2319-2347 | The part loop fills the buffer with the range, although it starts before it on the grid and may reach past it; it fails only if a fetch does. |
| `ChunkDownload.LimitIsAcceptable` | telegram/media.go:2350-2357 | The computed limit is positive, a multiple of 1024, within the chunk size and short of the megabyte boundary. |
| `ChunkDownload.ChunkSizeIsKilobytes` | telegram/media.go:1524-1529 | Every divisor of a megabyte from 4096 on is a multiple of 1024, so validation suffices for alignment. |
| `ChunkDownload.DueAfter` | telegram/media.go:2326-2341 | Cutting one part to the wanted range extends the buffer by exactly what is due. |
| `CdnFetch.FetchPartCDN` | telegram/media.go:3034-3101 | Whatever the delivery network answers, an accepted part is contiguous, complete, and every byte lies in a range from the origin whose digest matched; every request is an aligned block inside one megabyte. A true origin with valid, aligned ranges for the whole file, and a network that never fails, are always accepted. |
| `CdnFetch.Locate` | telegram/media.go:3043-3068 | A covering range is from the origin and well-formed, or the origin has said that there is no more; anything else is refused. |
| `CdnFetch.ReadChecked` | telegram/media.go:3069-3092 | The bytes of a range are used only whole and with a matching digest. |
| `CdnFetch.AlignedBlock` | telegram/media.go:3069-3076 | A power-of-two block at a multiple of its size never crosses a megabyte boundary. |
| `CdnFetch.AcceptedIsTheFile` | telegram/media.go:3031-3101 | With true origin hashes and no collisions, an accepted part is the file's content even if all delivered data is forged. |
| `CdnFetch.VouchedFetchesAreFaithful` | telegram/media.go:3031-3101 | Fetches that accept only such parts are the faithful fetches that the retry loop, and with it every kind of download, asks for. |
| `CdnFetch.HonestNetwork` | telegram/media.go:3043-3068 | Every file has a true origin that answers with valid, aligned ranges, and a digest without collisions. |
| `Parts.PartFits` | telegram/media.go:1610-1626 | Parts are non-empty, adjacent, and the last one ends the file. |
| `Parts.PartsTile` | telegram/media.go:1542-1626 | Every byte of the file lies in exactly one part. |
| `Parts.CountsAgree` | telegram/media.go:1542-1542 | The two formulas for the number of parts give the same number. |
| `Parts.TotalIsSizeIffAllDone` | telegram/media.go:2938-2953 | The completed bytes add up to the size exactly when every part is done. |
| `Parts.TotalOfOneMore` | telegram/media.go:1601-1601 | Counting one more part adds exactly its length. |
| `ResumeState.Progress.constructor` | telegram/media.go:2839-2852 | A new progress has no part done and nothing to flush. |
| `ResumeState.Progress.Has` | telegram/media.go:2916-2923 | Reads the part's bit; parts outside the file are not done. |
| `ResumeState.Progress.Mark` | telegram/media.go:2925-2936 | Adds exactly this part to the done ones, and is dirty exactly if that changed something. |
| `ResumeState.Progress.CompletedBytes` | telegram/media.go:2938-2953 | The sum of the done parts' lengths, equal to the size exactly when all are done. |
| `ResumeState.BitAfterSet` | telegram/media.go:2925-2936 | Setting one bit in the byte array changes no other part's bit. |
| `ResumeState.Load` | telegram/media.go:2854-2914 | Reads the header and the fields in the source's order, refusing whatever does not fit. |
| `ResumeState.LoadsExactlyItsOwn` | telegram/media.go:2854-2980 | What was saved is loaded with the same bitmap by a download of the same size, part size and location key, and rejected by every other. |
| `ResumeState.LoadsExactlyWhatWasSaved` | telegram/media.go:2854-2914 | Of any content, truncated, foreign or damaged: certain bits are loaded if and only if a download of these dimensions could have saved them and the content begins as it would have, up to the six header bytes that are never read. |
| `ResumeState.FieldHolds` | telegram/media.go:2867-2888 | A little-endian field reads as a number exactly when it holds that number's bytes. |
| `ResumeState.SavedFields` | telegram/media.go:2965-2975 | Where each field of the 32-byte header, the key and the bitmap lie in what is written. |
| `ParallelDownload.SavedBitsAreTrue` | telegram/media.go:2955-2980 | Crash safety: from a truthful start, in every state of every run of workers, flusher, crashes, write-backs and restarts, each part marked on disk has its data on disk. |
| `ParallelDownload.SuccessIsTheFile` | telegram/media.go:1538-1640 | In every such run, a nil result means that the destination is the file, byte for byte, and doneBytes is always the total length of the completed parts. |
| `ParallelDownload.TrustedExactlyWhenTrue` | telegram/media.go:1417-1444 | Downloads that resume from a saved state always deliver the file if and only if the saved marks are true of the disk. |
| `ParallelDownload.StartingOverIsSafeExactlyWhen` | telegram/media.go:1421-1432 | After starting over and a crash, later downloads can be trusted if and only if every stale mark is true of the new content. |
| `ParallelDownload.StartingOverIsSafeForEveryFileExactlyWhen` | telegram/media.go:1421-1432 | For later downloads of one chunk size and location: whatever the file of that size is, starting over is safe if and only if they find no mark in the old progress file. |
| `StartingOver.SafeForAllExactlyWhen` | telegram/media.go:1417-1444 | For later downloads of every chunk size and location: what starting over leaves is safe for every file of the size if and only if none of these downloads finds a mark in the progress file, as its bytes are read. |
| `StartingOver.OneDownloadLoads` | telegram/media.go:2854-2914 | A progress file loads for at most one chunk size and location, so that this can be checked beforehand. |
| `ParallelDownload.StaleProgressLosesTheFile` | telegram/media.go:1417-1444 | A run that starts from a complete and true state and ends in success with other content. |
| `ParallelDownload.FalseBitIsBelieved` | telegram/media.go:1538-1640 | For every false mark there is an undisturbed run that skips it and succeeds with the wrong content. |
| `ParallelDownload.AloneSucceeds` | telegram/media.go:1573-1640 | From every state with one idle worker there is a schedule that ends in success and never rewrites a marked part, however false the marks are. |
| `DownloadProgress.UndisturbedDownloadSucceeds` | telegram/media.go:1538-1640 | Resumed from true marks, with any number of workers and no failure: after any schedule whatever the download is done, with the file, or can go on, and the steps that change it are bounded from the start, so every schedule that keeps going ends in success. |
| `DownloadProgress.UndisturbedFreshDownloadSucceeds` | telegram/media.go:1421-1640 | The same of every download that starts over, with or without resume, whatever the destination and an old progress file hold. |
| `DownloadProgress.FreshSuccessIsTheFile` | telegram/media.go:1421-1640 | A download that starts over and reports success has written the file, whatever happens to it and whatever an old progress file holds. |
| `DownloadProgress.SmoothStepAdvances` | telegram/media.go:1573-1626 | Every step of an undisturbed download leaves less to do, loses no part, and can return nothing but success. |
| `DownloadProgress.NeverStuck` | telegram/media.go:1573-1626 | In every state of an undisturbed download somebody can take a step. |
| `DownloadProgress.ReturnSucceeds` | telegram/media.go:1627-1640 | When all workers have left an undisturbed download, all bytes have been counted. |
| `ParallelDownload.ApplyKeepsInv` | telegram/media.go:1538-1640 | Every step of every party keeps the storage, session and worker invariants. |
| `ParallelDownload.TakeKeepsInv` | telegram/media.go:1573-1578 | Taking from the channel gives a part to one worker only. |
| `ParallelDownload.WrittenKeepsInv` | telegram/media.go:1594-1598 | Writing a fetched part makes it right and spoils no other. |
| `ParallelDownload.CountedKeepsInv` | telegram/media.go:1601-1601 | No part is counted twice, by whatever interleaving. |
| `ParallelDownload.MarkedKeepsInv` | telegram/media.go:1602-1604 | A part is marked only after its data was written. |
| `FlushedProgress.FlushSaves` | telegram/media.go:2925-2980 | Whatever else happens in between: once a flush has taken the lock, synced and written, every part that a worker wrote, counted and marked before it is saved, and stays saved through every continuation with any crashes, until a download starts over or has succeeded. |
| `FlushedProgress.FlushedPartsAreResumed` | telegram/media.go:1417-1444 | After such a flush, a crash and a restart the download begins with at least the bytes of these parts done, and from then on nobody is given one of them again. |
| `FlushedProgress.StoresMarks` | telegram/media.go:1594-1604 | A part that a worker writes, counts and marks is marked, whatever the others do meanwhile. |
| `FlushedProgress.WrittenMarksLoad` | telegram/media.go:2854-2980 | The bytes written for a set of marks load as exactly these marks for the same download, and as none for one with another part size or location. |
| `ParallelDownload.FlushKeepsInv` | telegram/media.go:2955-2980 | Syncing before writing the bitmap, with the lock held for both, keeps the bits on disk true; that they get there, `FlushedProgress.FlushSaves` says. |
| `ParallelDownload.FaithfulAnswerFills` | telegram/media.go:1584-1593 | A faithful answer has exactly the part's length, so it is never refused or cut. |
| `StreamDownload.Stream` | telegram/media.go:1642-1690 | Part after part, success means the whole file, or its first bytes up to the known size; what has been written is always a beginning of the file; a faithful server and a willing destination that never fail lead there in as many rounds as the file has parts and two more, and to an early end exactly if the file is too short. |
| `StreamDownload.GoodSupply` | telegram/media.go:1642-1690 | Such a server and destination exist for every file. |
| `TransferPacer.Pacer.TryAcquire` | telegram/media.go:3199-3228 | Grants exactly below the window, the rate's window and the caller's limit, after both waiting times; the ticket carries the epoch. |
| `TransferPacer.Pacer.FinishAt` | telegram/media.go:3269-3359 | The whole new state for a success, a flood wait, a timeout or another error, as one function of the old one. |
| `TransferPacer.Pacer.AfterFlood` | telegram/media.go:3277-3314 | The longer of two waits is kept; only a ticket of this epoch changes rate and window. |
| `TransferPacer.Pacer.CutRate` | telegram/media.go:3286-3308 | The first flood wait guesses a rate from what was seen, later ones take a tenth off, never below 1024. |
| `PacerRuns.EveryRunKeepsInv` | telegram/media.go:3269-3359 | In every run the window stays between 1 and the maximum, active counts exactly the tickets out and never exceeds the maximum, the rate is none or at least 1024, and no caller sleeps that the pacer would serve. |
| `PacerRuns.EveryGrantWasAllowed` | telegram/media.go:3206-3226 | In every run, each grant ever made came, at its moment, with fewer requests in flight than the window, the rate's window and the caller's limit, and after both waiting times. |
| `PacerRuns.GrantIsAllowed` | telegram/media.go:3206-3226 | The one step of it: what must hold for the log to grow, and by what it grows. |
| `PacerRuns.BlockIsKept` | telegram/media.go:3206-3214 | In every continuation of a run, no ticket is given out before the time to which the pacer is blocked. |
| `PacerRuns.FloodBlocks` | telegram/media.go:3277-3282 | After a flood wait, whatever else happens, no ticket is given out until it is over. |
| `PacerRuns.CutNeedsNewTicket` | telegram/media.go:3283-3349 | Any cut of the window is caused by a ticket issued after the previous cut; cuts never outnumber grants. |
| `PacerRuns.BatchCutsOnce` | telegram/media.go:3269-3359 | However many requests in flight fail together, the window is cut once and at least half of it stays. |
| `PacerRuns.GrowthIsEarned` | telegram/media.go:3349-3358 | The window grows by one, on a prompt answer of this epoch, within what the rate needs. |
| `PacerControl.CutsExactlyWhen` | telegram/media.go:3277-3353 | A flood wait, a timeout or one slow answer too many, to a request sent since the last cut, cuts the window, and nothing else does: by one for a flood wait, to half for the others. |
| `PacerControl.GrowsExactlyWhen` | telegram/media.go:3349-3358 | The window grows by one for every prompt answer of this epoch while there is room and the probe is due, and otherwise not. |
| `PacerControl.RaisesExactlyWhen` | telegram/media.go:3323-3340 | Without a flood wait the rate changes only by being raised by a fiftieth, exactly when a second of transfers filled it to 85 percent and the probe is due. |
| `PacerControl.SampleIsWhatCame` | telegram/media.go:3323-3336 | A sample holds the bytes of the successes since it began, for at least a second. |
| `PacerControl.SlowAnswersCut` | telegram/media.go:3341-3351 | Three slow answers in a row halve the window, and all slow answers of one epoch together only once. |
| `PacerControl.FloodRestsTheRate` | telegram/media.go:3277-3316 | After a flood wait, whatever else happens, the rate does not rise until half a minute after the wait is over. |
| `PacerRuns.IdlePacerServes` | telegram/media.go:3206-3226 | With nothing in flight and no time to wait for, every caller is served, whatever its limit: the window never closes for good. |
| `PacerRuns.FloodSlows` | telegram/media.go:3283-3309 | A flood wait on a ticket of this epoch takes at least a tenth off the rate, down to 1024, and sets a rate if there was none. |
| `PacerRuns.EveryRunKeepsTheRate` | telegram/media.go:3217-3224 | In every run, the bytes asked for in any stretch of grants are at most the highest rate times the time until the next grant. |
| `PacerRuns.DoneWakesAll` | telegram/media.go:3276-3276 | Every finished request wakes everybody who sleeps. |
| `PacerRuns.GrantedKeepsSleepers` | telegram/media.go:3214-3245 | A grant never leaves another caller asleep that could go. |
| `ReceiveWindow.ReceivedMessageWindow.Remember` | mtproto.go:1956-1998 | True exactly when the id was never presented since the last clear and fewer than 1024 distinct earlier ids exceed it; heap and set stay the 1024 largest ids seen. |
| `ReceiveWindow.ReceivedMessageWindow.Contains` | mtproto.go:2000-2004 | True exactly for ids that were presented and are among the 1024 largest. |
| `ReceiveWindow.ReceivedMessageWindow.Clear` | mtproto.go:2006-2006 | Begins a new history. |
| `ReceiveWindow.ReceivedMessageWindow.SiftDown` | mtproto.go:1973-1987 | After the root was replaced: a heap again, of the same ids. |
| `ReceiveWindow.ReceivedMessageWindow.SiftUp` | mtproto.go:1989-1995 | After an append: a heap again, of the same ids. |
| `ReceiveWindow.WindowDecidesHistory` | mtproto.go:1956-1972 | The bounded window gives the same answer as the complete history. |
| `ReceiveWindow.WindowFollowsHistory` | mtproto.go:1956-1998 | After every call the window is the top of the longer history, whether or not the id was taken. |
| `ReceiveWindow.TopIsUnique` | mtproto.go:1952-1955 | The window is determined by the history. |
| `ReceiveWindow.SwapUp` | mtproto.go:1989-1995 | One swap towards the root moves the only possible violation up. |
| `ReceiveWindow.SwapDown` | mtproto.go:1973-1987 | One swap with the smaller child moves the only possible violation down. |
| `ReceiveWindow.RootIsLeast` | mtproto.go:1966-1969 | The root of a heap is its least id, so comparing with it decides. |
| `ConnectionGate.TcpState.SetActive` | mtproto.go:1846-1870 | Keeps the channel open exactly while neither active nor closed, closes no channel twice, and closes on activation and on nothing else. |
| `ConnectionGate.TcpState.Close` | mtproto.go:1872-1882 | Leaves every channel closed. |
| `ConnectionGate.EveryWaiterIsWoken` | mtproto.go:1846-1914 | After any run, an activation or a shutdown lets every waiter blocked at that moment proceed, whatever follows. |
| `ConnectionGate.SleepersAreJustified` | mtproto.go:1884-1914 | A waiter that cannot wake is on the gate's own channel and the gate is down. |
| `ConnectionGate.AnswersWereTrue` | mtproto.go:1884-1914 | In every run, whatever a call of WaitForActive has returned was true at one moment of that call. |
| `ConnectionGate.LooksAreAnswered` | mtproto.go:1884-1914 | A call that looks at a gate that is up or closed returns with that answer, and so does one that was woken and finds it up. |
| `ConnectionGate.ActivationIsAnswered` | mtproto.go:1845-1914 | After an activation every blocked call returns "connected" in two steps of its own. |
| `ConnectionGate.ShutdownIsAnswered` | mtproto.go:1872-1914 | After a shutdown every blocked call returns "disconnected" in three. |
| `ConnectionGate.AnswersAreTrue` | mtproto.go:1884-1914 | The one step of it: a waiter is told that the connection is up or closed only when it is. |
| `ConnectionGate.ApplyKeepsInv` | mtproto.go:1819-1917 | No replaced channel stays open, and a closed one stays closed. |
| `PendingRequests.SendNeverFindsTheChannelFull` | network.go:121-148 | Over all interleavings of replies, connection changes, retries and clean-up a response channel gets at most one message, so no send finds it full. |
| `PendingRequests.FinishedCallsLeaveNoEntry` | mtproto.go:1024-1180 | Every entry of either table belongs to a call still at work. |
| `PendingRequests.WaitersAreNeverForgotten` | mtproto.go:1806-1817 | For a waiting call exactly one of these holds: its entry is in the table, a party is about to send to it, or its message is there. |
| `PendingRequests.AnswersReachTheirCaller` | network.go:24-133 | A call is given only the one message sent for an id that it drew itself; which one that is, `ResponseOrigins.AnswersAreResponses` says. |
| `ResponseOrigins.AnswersAreResponses` | network.go:121-133 | In every run, the answer of a finished call is the message of the first response that came to an id which the call had drawn, or that the connection changed if this came first. |
| `ResponseOrigins.ResponseIsDelivered` | network.go:121-133 | Conversely, a response or a change of the connection that finds the request in the table decides it: whatever follows, the channel's only message is this one as soon as it is delivered. |
| `ResponseOrigins.WaiterGetsTheMessage` | network.go:24-133 | And the call that waits on that channel is given this message, to try again or to finish with. |
| `ResponseOrigins.ConnectionChangeReachesAll` | mtproto.go:1806-1817 | After a change of the connection every waiting call has or will be sent a message: that the connection changed, if nothing had come for it before. |
| `ResponseOrigins.HistoryOf` | network.go:24-133 | Every interleaving has the history of states that these statements speak of. |
| `PendingRequests.ApplyKeepsInv` | network.go:121-133 | Every step of every party keeps the invariant of the table and the channels. |
| `SequenceNumbers.Counter.GetSeqNo` | network.go:188-190 | The number that the MTProto Detailed Description, section "Message Sequence Number (msg_seqno)", requires of a message that is not content-related, reduced to 32 bits. |
| `SequenceNumbers.Counter.UpdateSeqNo` | network.go:192-195 | The required number of a content-related message, for any length of session. |
| `SequenceNumbers.Counter.Reset` | mtproto.go:561-561 | Begins a new session's numbering. |
| `SequenceNumbers.CounterGivesNumber` | network.go:188-195 | 32-bit wrap-around commutes with the computation of the number. |
| `SequenceNumbers.NumbersOrderContent` | network.go:188-195 | Below 2^30 messages the numbers tell the two kinds apart and strictly order the content-related ones. |
| `KeyRing.AuthKeys.SetAuthKey` | network.go:219-231 | Another permanent key drops every temporary key with its salt and expiry; the same one keeps them. |
| `KeyRing.AuthKeys.DropForMigration` | mtproto.go:540-553 | Migration drops every key. |
| `KeyRing.AuthKeys.InstallPending` | handshake.go:345-352 | A new key becomes pending with its own hash, salt and expiry. |
| `KeyRing.AuthKeys.FinishBinding` | handshake.go:425-445 | Rotates pending to current and current to previous, with their salts, exactly if neither key has changed and the new one has not expired. |
| `KeyRing.AuthKeys.UpdateSalt` | network.go:322-341 | The salt goes to the slot whose key the message came under, and to the permanent key otherwise. |
| `KeyRing.AuthKeys.KeyForRequest` | network.go:310-320 | A binding request uses the pending key, others the current one if there is one or else the permanent one, each with its salt; which these are after a run, the `RequestKeys` theorems say. |
| `KeyRing.AuthKeys.GetAuthKeyForHash` | network.go:296-308 | Finds a key exactly for the hashes of the live keys. |
| `KeyRing.TrafficKeyIsBound` | handshake.go:359-446 | After any interleaving of creations, overlapping bindings, key changes and migrations, traffic under a temporary key uses one acknowledged for the permanent key now in force, with its last salt. |
| `KeyRing.SaltsFollowTheirKeys` | network.go:322-341 | Every live temporary key keeps its own last salt through all moves. |
| `RequestKeys.OrdinaryRequestsKey` | network.go:310-320 | In every run, an ordinary request goes under the temporary key whose binding finished last, if one is in force, and otherwise under the permanent key set last and not dropped by migration. |
| `RequestKeys.NeverWithoutKey` | network.go:310-320 | No ordinary request goes without a key while a permanent one is set. |
| `RequestKeys.TemporaryRequestsSalt` | network.go:310-341 | Under a temporary key it carries the salt that came last for this key. |
| `RequestKeys.PermanentRequestsSalt` | network.go:310-341 | Under the permanent key it carries the salt written last. |
| `RequestKeys.PermanentRequestsOwnSalt` | network.go:322-341 | That is the salt that came last for the permanent key, unless another was written after it, and since the key was set this can only be the salt of a notice under a key that is neither permanent nor live. |
| `RequestKeys.BindingRequestsKey` | handshake.go:345-446 | A binding request goes under the temporary key created last and not yet bound or dropped, with the salt that came last for it; it has no key exactly if there is none. |
| `RequestKeys.HistoryOf` | handshake.go:300-446 | Every interleaving has the history of states that these statements speak of. |
| `KeyRing.RunKeepsInv` | handshake.go:300-446 | Live keys are distinct and hashed correctly, and current and previous are bound, after every run. |
| `KeyRing.PermanentSaltIsKeptExactlyWhen` | network.go:322-341 | A salt notice leaves the permanent key its own salt if and only if it came under a live key, or says the same salt. |
| `KeyRing.PermanentSaltCanBeOverwritten` | network.go:322-341 | After any three rotations in time, a late notice under the first key, with any salt, replaces the permanent key's salt. |
| `KeyRing.RotationInstalls` | handshake.go:300-446 | One undisturbed creation and binding, with any salt, expiry and times before it, installs the new key with them and moves the others by one slot. |
| `KeyRing.SomeDistinctHashes` | network.go:219-231 | Key hashes without collisions exist, as the theorems about hashes assume. |
| `RecencyOrder.RecentIsByLastTouch` | telegram/cache.go:1341-1350 | The list made by moving to the back orders the keys by the time of their last touch. |
| `RecencyOrder.TouchSeesOnlyNewest` | telegram/cache.go:1341-1350 | What a touch leaves among the newest n depends on the newest n alone, so a bounded list suffices. |
| `PeerCache.EveryRunKeepsInv` | telegram/cache.go:968-1190 | After every run of announcements, lookups and evictions from an empty cache: the list is exactly the maxSize most recently touched peers in touch order, whatever is stored is on it, and every name leads to a peer that lists it and has an access hash. |
| `PeerCache.EnforceRestoresInv` | telegram/cache.go:1397-1420 | Evicting from the front until the size fits restores the invariant and leaves no dangling name. |
| `PeerCache.EnforceSparesTheNewest` | telegram/cache.go:1397-1420 | Eviction changes nothing about the maxSize newest peers, nor about the names that lead to them. |
| `PeerCache.AnnounceKeepsInv` | telegram/cache.go:968-1050 | What an announcement records is not evicted by it. |
| `PeerCache.LookupResolves` | telegram/cache.go:655-690 | A name is found exactly if it is indexed, and then leads to a peer that lists it, with its stored hash; the fallbacks for a missing hash are never needed. |
| `PeerCache.LookupKeepsInv` | telegram/cache.go:631-653 | A lookup moves the peer to the back and evicts nothing. |
| `PeerCache.EnforceAgain` | telegram/cache.go:1134-1159 | Enforcing the limit in between and once more evicts nothing further. |
| `PeerHistory.HashIsTheOneGiven` | telegram/cache.go:968-1180 | After every run, a peer has an access hash exactly if some announcement has given it one since it was last evicted: the last full one, or else the first notice that it is forbidden; and it is that announcement's hash. |
| `PeerHistory.DescriptionIsTheOneGiven` | telegram/cache.go:968-1180 | Its description comes from the same announcement; while there is none, from the last min one. A min description never replaces a real one. |
| `PeerHistory.HintIsTheOneGiven` | telegram/cache.go:976-986 | The hash of a min description is kept apart: the last one that came while nothing real was known, until a full description comes. |
| `PeerHistory.NamesAreThoseGiven` | telegram/cache.go:1354-1382 | The names that a peer lists are those of its last full announcement as a user or channel since it was last evicted. |
| `PeerHistory.AnswersComeFromAnnouncements` | telegram/cache.go:655-690 | A lookup by name answers with a peer whose last full announcement had the name, and with the hash that this peer was last given. |
| `PeerHistory.TouchesFollow` | telegram/cache.go:631-690 | What counts as recent use: being announced, and being the answer of a lookup. |
| `PeerCache.NamesAreTheActiveOnes` | telegram/cache.go:1354-1368 | The names collected from a description are exactly the normalized primary name and those of active aliases, each once and the primary one first. |
| `PeerCache.Cache.constructor` | telegram/cache.go:403-432 | An empty cache; size zero means 10000. |
| `PeerCache.Cache.TouchLRU` | telegram/cache.go:1341-1350 | Moves or appends, list and index staying in step; unlimited caches keep no list. |
| `PeerCache.Cache.UpdatePeer` | telegram/cache.go:968-1050 | The whole effect on descriptions, hashes, names and list; reports a change exactly if hash or names are new. What is then stored is traced to announcements by `PeerHistory`. |
| `PeerCache.Cache.UpdateChat` | telegram/cache.go:1052-1062 | Groups are recorded and touched; a forbidden one never replaces a known one. |
| `PeerCache.Cache.ForbidChannel` | telegram/cache.go:1118-1133 | A forbidden channel is recorded only without a known hash. |
| `PeerCache.Cache.UpdateCommunity` | telegram/cache.go:1134-1159 | Communities are recorded like channels, without names. |
| `PeerCache.Cache.EnforceSizeLimit` | telegram/cache.go:1397-1420 | Evicts the oldest peers, from every map and the name index, until the size fits. |
| `PeerCache.Cache.UpdateUsernames` | telegram/cache.go:1354-1382 | The index after one peer's names are replaced; true exactly if the list changed. |
| `PeerCache.Cache.RemoveUsernames` | telegram/cache.go:1384-1395 | Forgets the peer's list, and of its names those that still lead to it. |
| `PeerCache.Cache.LookupUsername` | telegram/cache.go:655-685 | The answer and the touch as a function of the contents. |
| `PeerCache.Cache.GetPeer` | telegram/cache.go:631-653 | The stored hash, with a touch, or nothing at all. |
| `Usernames.UpdateKeepsInv` | telegram/cache.go:1354-1382 | After an update every name leads to a peer that lists it. |
| `Usernames.RemoveKeepsInv` | telegram/cache.go:1384-1395 | After a removal no name leads to the peer, and none dangles. |
| `Usernames.RemoveSparesOthers` | telegram/cache.go:1384-1395 | A removal takes no name from another peer. |
| `Usernames.UpdateOwnsItsNamesExactlyWhen` | telegram/cache.go:1354-1382 | An update makes a peer's names lead to it if and only if it changed the list, or they already did. |
| `Usernames.NameCanBeLost` | telegram/cache.go:1354-1382 | Four updates after which a listed name leads nowhere. |
| `Usernames.ValueLeadsBackExactlyWhen` | telegram/cache.go:1370-1373 | A stored value denotes the peer it was made for if and only if a user's id is not negative, or a channel's is positive. |
| `Usernames.UpdateLeadsBackExactlyWhen` | telegram/cache.go:1354-1382 | An update that stores names makes every one of them lead to its peer if and only if the id has the right sign. |
| `Usernames.WrongSignsCollide` | telegram/cache.go:1354-1382 | Every update with a wrong sign makes a name lead to another peer, whatever the index was before. |
| `Usernames.NegativeIdsCollide` | telegram/cache.go:655-690 | With user -5, a name leads to channel 5, which nobody has announced. |
| `HtmlTokenizer.SimpleHTMLTokenize` | telegram/formatting.go:72-159 | The index loop computes the tokens as a recursive function of the rest of the source; what they are, `HtmlTokens.TokensMean` says. |
| `HtmlTokens.TokensMean` | telegram/formatting.go:72-159 | Every token is the first one of what is left: text up to the next '<'; or from a '<' to the first '>' outside quotes, a tag if it has a name, which is the lower case of what is spelled; or, if there is no such '>', text to the end. |
| `HtmlTokens.SpelledName` | telegram/formatting.go:101-110 | What is spelled is the longest beginning without a terminator of the inside, less its outer white space and the slash of a closing tag, however the raw text is divided. |
| `HtmlTokens.SameName` | telegram/formatting.go:101-110 | Tags whose spellings differ in the case of letters only have the same name. |
| `HtmlTokens.TagLengthIsEnd` | telegram/formatting.go:82-97 | The scan stops at the first '>' before which all quotes are closed, each by the next one of its kind. |
| `HtmlTokenizer.TokensCoverSource` | telegram/formatting.go:72-159 | The token texts concatenate to the source. |
| `Utf16.CountUnits` | telegram/formatting.go:267-276 | The number of UTF-16 units of a text. |
| `Utf16.DecodeEncode` | telegram/formatting.go:395-435 | Decoding undoes encoding, surrogate pairs as in section 2.1 of RFC 2781. |
| `HtmlParser.ParseHTMLToTags` | telegram/formatting.go:161-256 | The loops compute text and tags as the fold of one step per token. |
| `HtmlSpans.TagsAreWhatSurvives` | telegram/formatting.go:161-256 | For any source: the cleaned text is the tokens' text less its outer white space, and the returned tags are, in order and each once, the open-to-close UTF-16 spans, to the end of the text if never closed, cut to the part that survives trimming; those of which nothing survives are dropped. |
| `HtmlSpans.RawTagsAreSpans` | telegram/formatting.go:172-229 | Before trimming, the k-th tag runs from the k-th supported opening token to the closing token that matches it as a bracket of its kind, or to the end. |
| `HtmlSpans.StackAgrees` | telegram/formatting.go:172-224 | After every token the parser's stack of open tags agrees with the brackets of each kind. |
| `HtmlSpans.ClosedAllAt` | telegram/formatting.go:226-229 | At the end of the source exactly the tags still open are stretched to it. |
| `HtmlSpans.TrimTagsSelects` | telegram/formatting.go:237-252 | Trimming selects and cuts the tags in order, losing and repeating none that survives. |
| `HtmlParser.CleanedIsInside` | telegram/formatting.go:231-235 | Trimming takes white space only, and all of it, from either end. |
| `HtmlParser.KeptSpanIsSurvivingPart` | telegram/formatting.go:237-252 | A tag is kept if and only if some unit of its span survives, and covers exactly the surviving units. |
| `HtmlParser.StepSetsSpans` | telegram/formatting.go:172-224 | A length is set once, to the distance from the opening to the closing token, and never again. |
| `HtmlPrinter.InsertTagsIntoText` | telegram/formatting.go:395-435 | The two tables and the unit loop write, around every unit, the tags that start before and end after it. |
| `HtmlPrinter.UnitsEncodeEvents` | telegram/formatting.go:395-435 | On character boundaries the unit-wise output is the encoding of characters and tags in between; no surrogate pair is split. |
| `HtmlRoundTrip.ParseReadsWriting` | telegram/formatting.go:72-256 | However the tags of a text are written, in any case, with white space around the name and any attributes behind it, parsing gives the text and the tags: properly nested, outer-first tags on character boundaries, over any text without '<' or '&' and without outer white space. |
| `HtmlRoundTrip.ParseUndoesPrint` | telegram/formatting.go:161-435 | So inserting tags without attributes into such a text and parsing gives both back. |
| `HtmlRoundTrip.PrintedParsesByEvents` | telegram/formatting.go:72-256 | However tags are written and the source is cut into tokens, parsing it takes one step for each character and tag. |
| `HtmlRoundTrip.EventsRebuild` | telegram/formatting.go:161-226 | Nested tags are closed innermost first, so that each closing token finds its own tag. |
| `HistoryPager.IterHistory` | telegram/messages.go:1951-2069 | For any server and callback: no id twice, never more than a positive limit, offsets strictly descending after the first, hence an end once fetches succeed. Against a faithful server, with a callback that continues and failures that are retried: the run cannot fail; what it ends with is everything asked for, in order; if fetches never fail it has ended after more rounds than the history has hundreds of messages to give, and while it goes on every page has delivered a hundred. The callback hears each message once; its stop ends the run as stopped, its refusal as failed, and otherwise only an unexpected response or a failure that is not retried fails. Each request carries id and date of a message of the page before, or repeats the one before. |
| `HistoryPager.DeliverPage` | telegram/messages.go:2017-2061 | Of a page, exactly the positive ids below the offset are passed on, each the first time it appears, and the next offset is the least of them, with its date; a callback that stops or refuses ends the page there. |
| `HistoryPager.PagesAreBounded` | telegram/messages.go:1951-2069 | A run has at most one page more than the second page's offset. |
| `HistoryPager.BelowContinues` | telegram/messages.go:2059-2069 | Going on below the last delivered id neither skips nor repeats a message. |
| `HistoryPager.HonestPage` | telegram/messages.go:2017-2069 | A faithful page passes the filter whole: what it delivers is the beginning of what is left. |
| `HistoryPager.HonestNext` | telegram/messages.go:2059-2069 | After a faithful page the rest of the history is what lies below the new offset. |
| `HistoryPager.HonestLast` | telegram/messages.go:2061-2063 | A faithful page that is short, empty or said to be complete is all that is left. |
| `HistoryPager.HonestServer` | telegram/messages.go:1951-2069 | Every history has a faithful server that never fails. |

## Left out

* Sockets, transports, TL encoding, key exchange, encryption and logging: they are parameters or steps here. Digests and
  key hashes are functions, assumed to be distinct for distinct arguments only where a theorem says so.
* Message ids are assumed never to repeat; the generator of ids is not part of this model. Nor are requests in service
  mode, answers that may be null, and the closing of the table when a client terminates.
* `queueAck`, `serviceWriter`, `reconnectDelay`, `transferConnectionSlots`, `splitIDsIntoChunks`, the media cache and
  `fetchPeerOnce`: short functions that would only add easy members.
* Loading the peer cache from disk and rebuilding its list, where the order of a Go map decides. Writing it to disk.
* Attributes of HTML tags, the language of code inside pre, the conversion of tags to entities and back, Markdown.
* Uploads.
- PeerCache.Cache.UpdatePeer: users and channels share one method and one map keyed by kind and id, where the source has a map for each kind; a disabled cache and nil descriptions are not modelled.
- PeerCache.EveryRunKeepsInv: users with negative ids and channels with ids that are not positive are not announced in a run, since names of exactly these lead astray, as UpdateLeadsBackExactlyWhen shows.
- ParallelDownload.SavedBitsAreTrue: starting over must not leave behind a mark that is false of the new content, which StartingOverIsSafeExactlyWhen shows to be needed. The destination keeps the file's size throughout; the capacity of the work channel is not modelled, so workers find at least the interleavings of the source.
- FlushedProgress.FlushSaves: starting over, and the removal of the progress file after a success, end what it promises. No crash falls between the steps of the flush.
- ParallelDownload.FlushKeepsInv: the atomic replacement of the progress file is one step.
- TransferPacer.Pacer.FinishAt: times and rates are real numbers without rounding, the epoch does not wrap at 64 bits, and one pacer is modelled, not the table of pacers.
- PacerControl.SlowAnswersCut: other answers between the slow ones are not considered.
- PacerRuns.EveryRunKeepsInv: the times at which acquire reads the clock never go back; those of finish may.
- CdnFetch.FetchPartCDN: decryption of the delivered blocks, and the requests that renew them, are part of the abstract fetch.
- DownloadProgress.UndisturbedDownloadSucceeds: a schedule that stops taking steps, or only lets the flusher take and give back its lock, is not excluded; nor is a bound on time.
- StreamDownload.Stream: the number of rounds watched is a parameter, so that a server that never ends is covered too.
- HistoryPager.IterHistory: the same; and a cancelled context ends a run like a failed fetch.
- ChunkDownload.DownloadChunk: offsets and sizes are unbounded integers.
- KeyRing.RunKeepsInv: freshly negotiated keys are fresh. A run in which a temporary key is negotiated a second time, or equals a permanent key, or a temporary key is set as the permanent one, is not modelled: these events do nothing.
- KeyRing.AuthKeys.DropForMigration: the session's other state, cleared in the same place, is not part of this model.
- HtmlTokens.TokensMean: attributes are skipped, not read; lower case beyond ASCII is a parameter.
- HtmlRoundTrip.ParseUndoesPrint: tags are type, offset and length; the mark that a code tag has for being inside a pre tag is not modelled.
