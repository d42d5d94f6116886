# What the Memco SDKs keep

A Dafny model of the parts of the Memco SDKs whose correctness rests on more than
one function: the credentials a client leases, renews and must end; the registry
that ends the keys of sessions acting for users; and the scripts and codecs that
have to agree with themselves from one run to the next. `dafny verify dfyconfig.toml`
checks the whole project.

**Credentials.** `CredentialTiming`, `CredentialMachine`, `CredentialSafety` and
`Renewing` are the holder of one credential: a class with one method for each
section its lock guards, each proved to take a step of a pure machine, and the
machine's properties over every interleaving. Each credential is disposed of
exactly once, never under a lease; no wakeup is lost; what is leased is honoured.

**Keys.** `KeyRegistry`, `KeyRegistrySafety` and `MemcoClient` are the Node client's
registry of live keys and its close, `MintWait` what its mints wait for, `EndRetry` what
becomes of a key no session ends any more, and `RegistrySteps` what each step does to one key;
`SessionHolder`, `SessionHolderSafety` and `SharedRenewing` are the holder of each of
its sessions, whose leases share a mint and whose close waits for it. `SessionKeys`
and `Sessions` run the registry and any number of sessions together: what the
registry takes a session to do is what its holder does, so both sets of properties
hold at once. `EventLoopEnds` and `AsyncClient` are the ends an asyncio client has
under way, and `EventLoopRetry` what starts them and what becomes of those that fail;
`GoClient` is the Go client's drain and the keys it may lose, and `CloseSweep` the last
job of every close.

**Scripts.** `Docstrings`, `DocstringRewriting` and `DocstringFixedPoint` are the
docstring rewriter and its fixed point, and `DocstringReading` what it takes and gives
line by line; `Splice` is how its edits reach the file and `DocstringFiles` the fixed
point of a whole file. `MarkdownPages`, `PageLines` and `PageNormalForm` are the page
normaliser; `Paths` and `Links` the link rewriter and the checker it must agree with,
and `PathMeaning` where a path leads and which links are reported.

**Codecs.** `Endpoint`, `ToolNames` and `ToolRenaming`, `ToolArguments`, `CreateOrGet`,
`Imports` and `SessionOpener`. `Text` and `Wrappers` serve the others.

Where the code does not do what its documentation says, the code is modelled:

- `mintKey` (`nodejs/src/client.ts:520-522`) documents that a key which arrives
  expired by the local clock is ended first. There are two ways it is not, and then
  nothing ever ends it: the client has closed meanwhile, so that its `sendEnd` is
  refused (`:570-585`, `:654-665`); or the end is sent and the service refuses it,
  and there is no entry of the registry to mark for a retry (`:666-681`).
  `AbandonedExactly` says that these are all.
- The Go client's `mint` (`go/memcoai/client.go:569-574`) ends a key it cannot hold
  itself, and only logs it when that fails; the key is then in no registry.
- The docstring rewriter is a fixed point only if each entry's text starts on the
  line that names it, which `textwrap` does not promise for a long first word.
- The page normaliser is not idempotent for a rubric level of two, which no
  reference uses; for every other level it is.
- A host string that splits may print as one that splits otherwise: a blank one, or
  one with blanks or another opening bracket between its brackets, or a bare address
  with a closing bracket in it. `Unambiguous` says which do not.
- `mintKey` (`nodejs/src/client.ts:505-508`) documents that it waits for every end of
  its user's keys in flight, so that the cap counts only keys still in use when the
  mint reaches it. It waits for those it finds as it begins; one begun meanwhile may
  still be under way as it asks (`MissesThoseBegunSince`), and a key whose end was
  refused meanwhile is still live. The Python client waits until none is under way
  (`MintLeavesOnceUserIsIdle`).
- Renaming is not idempotent for a prefix that ends in a hyphen, for one, which a
  prefix may.

## Model

| member | source | states |
|---|---|---|
| CredentialTiming.UnexpiredHereIsUnexpiredThere | python/memcoai/_auth.py:281-302 | a lifetime the service counts is timed from before the request, so a credential unexpired here is one the service still honours, and its renewal point comes before its expiry |
| CredentialTiming.CountedExactly | python/memcoai/_auth.py:287-302 | of a key whose lifetime the service counts, a reading passes the expiry test exactly if less than that lifetime has gone by since the reading before the request, and the renewal test exactly if less than four fifths has |
| CredentialTiming.WallClockExactly | python/memcoai/_auth.py:287-302 | of one it does not count, a reading from receipt on passes the expiry test exactly if the wall clock, moved on by as much since receipt, is before the expiry the key names |
| CredentialTiming.NothingSkewedPasses | python/memcoai/_auth.py:254-302 | a key that its own fields say is over, counted or by the wall clock at receipt, passes neither test from receipt on |
| Renewing.Renewing.Lease | python/memcoai/_auth.py:398-465 | under the lock: served, sent to wait, or refused exactly as the machine says, a mint started if none runs, the use counted |
| Renewing.Renewing.Start | python/memcoai/_auth.py:442-447 | a mint is started unless one is running |
| Renewing.Renewing.Due | python/memcoai/_auth.py:448-454 | past its renewal point the credential held serves until it expires; without one the caller waits for an attempt after this one |
| Renewing.Renewing.Resume | python/memcoai/_auth.py:454-465 | a waiter goes on waiting while no attempt has finished and the holder is open; otherwise it is answered by what is held then |
| Renewing.Renewing.Leave | python/memcoai/_auth.py:463-465 | what a caller gets once out of the wait loop |
| Renewing.Renewing.Honoured | python/memcoai/_auth.py:254-278 | the credential held if unexpired, else what the last mint raised, else the clock is named |
| Renewing.Renewing.Serve | python/memcoai/_auth.py:419-423 | the use count taken with the credential that is leased |
| Renewing.Renewing.Release | python/memcoai/_auth.py:426-429 | the use count given back, and the credential returned to be ended exactly if it was retired and this was its last lease |
| Renewing.Renewing.Retire | python/memcoai/_auth.py:327-343 | a replaced credential is marked, and returned exactly if nothing uses it |
| Renewing.Renewing.Hold | python/memcoai/_auth.py:496-511 | the next credential is held and watched, and the one replaced retired |
| Renewing.Renewing.FinishMint | python/memcoai/_auth.py:481-494 | the attempt counted, its failure recorded, the waiters woken, and the credential held, or returned to be ended if closed |
| Renewing.Renewing.Land | python/memcoai/_auth.py:490-492 | a mint that returns after the close has its credential ended, else held |
| Renewing.Renewing.Close | python/memcoai/_auth.py:513-526 | the holder refuses leases from then on, and what it held is ended now if idle |
| Renewing.Renewing.Collected | python/memcoai/_auth.py:227-251 | the finalizer queues what was held and watched, and nothing else |
| CredentialSafety.StepKeeps | python/memcoai/_auth.py:398-526 | every section of the holder, taken in any order, keeps its invariant |
| CredentialSafety.FreshIsHeld | python/memcoai/_auth.py:488-511 | whatever came before, what a mint on an open holder returns is what is held from then on, as it was issued; it is in no log of ends, and a waiter that resumes before it expires is leased it |
| CredentialSafety.LateMintIsEnded | python/memcoai/_auth.py:490-492 | what a mint returns after the close is ended at once, and never held |
| CredentialSafety.FailedMintIsRaised | python/memcoai/_auth.py:481-494 | what a mint raises is what a waiter with nothing honoured held is raised, and one with something is leased that |
| CredentialSafety.MintStartsExactly | python/memcoai/_auth.py:431-451 | a lease starts a mint exactly if the holder is open, none runs, and nothing is held or what is held is past its renewal point |
| CredentialSafety.HeldChangesBy | python/memcoai/_auth.py:398-526 | what is held changes by a mint that returns, on an open holder, and by the close, and no step changes how long a credential lasts |
| CredentialSafety.CallsChangeBy | python/memcoai/_auth.py:398-465 | a call waits, is leased, or is over by its own steps alone |
| CredentialSafety.EachCredentialInOnePlace | python/memcoai/_auth.py:327-343 | in every interleaving each credential minted, of a holder with a finalizer, is held, retired with leases open, ended once or queued once, and no two of these |
| CredentialSafety.ClosedAndIdleMeansAllEnded | python/memcoai/_auth.py:513-526 | after close, with no lease and no mint left, every credential has been ended once |
| CredentialSafety.EndedIsFinal | python/memcoai/_auth.py:419-429 | once handed over, a credential is never handed over or leased again, in any later run |
| CredentialSafety.YieldedIsHeldAndHonoured | python/memcoai/_auth.py:431-465 | what a caller is given is the credential held, not retired, and unexpired at the reading that admitted it, the second one past its renewal point, here and, where the service counts, there |
| CredentialSafety.WaitsOnlyForNothingHonoured | python/memcoai/_auth.py:448-454 | a lease waits only when nothing honoured is held |
| CredentialSafety.NoLostWakeup | python/memcoai/_auth.py:454-494 | a waiter that was not notified has a mint running that it has not seen finish, on an open holder |
| CredentialSafety.OneMintAtATime | python/memcoai/_auth.py:442-447 | at most one mint runs |
| CredentialSafety.WaiterUsesALaterMint | python/memcoai/_auth.py:454-465 | whatever happens while a call waits, the credential it is then leased was minted after it arrived, a failure it is raised is the last attempt's and came after it arrived, and it is refused or told of the clock only with nothing honoured held |
| CredentialSafety.ACredentialIsRenewedAndEnded | python/memcoai/_auth.py:398-511 | a run in which a call waits for a mint and leases what it returned, another leases the same past its renewal point while a second mint replaces it, and it is ended as the last of them is done |
| SharedRenewing.Renewing.Lease | nodejs/src/internal/auth.ts:309-340 | served before the renewal point, served beside a renewal until the expiry, else sent to wait on the one mint, started if none runs; refused once closed |
| SharedRenewing.Renewing.Resume | nodejs/src/internal/auth.ts:331-340 | what its mint settled with is leased unless it was retired meanwhile |
| SharedRenewing.Renewing.Release | nodejs/src/internal/auth.ts:343-350 | the use count given back, and the credential returned to be ended exactly if it was retired and this was its last lease |
| SharedRenewing.Renewing.Hold | nodejs/src/internal/auth.ts:186-192 | what is held is replaced and retired, and returned to be ended exactly if nothing uses it |
| SharedRenewing.Renewing.Settle | nodejs/src/internal/auth.ts:390-423 | a mint that returns replaces what is held and retires it; one that fails gives its waiters what is held while it is unexpired, else its failure |
| SharedRenewing.Renewing.Close | nodejs/src/internal/auth.ts:359-371 | the holder refuses leases from then on; with no mint running what it held is retired at once |
| SharedRenewing.Renewing.Closing | nodejs/src/internal/auth.ts:371-378 | after the mint a close waited for, what is held then is retired |
| SessionHolderSafety.StepKeeps | nodejs/src/internal/auth.ts:309-423 | every stretch of the holder, in any order, keeps its invariant |
| SessionHolderSafety.FreshIsHeld | nodejs/src/internal/auth.ts:390-405 | what a mint returns is what is held, as it was issued, not retired, in no log of ends, and leased to each lease that shared it and has not left |
| SessionHolderSafety.FailedMintGives | nodejs/src/internal/auth.ts:406-423 | a mint that fails gives those that shared it what is held while it is unexpired, and else its failure |
| SessionHolderSafety.MintStartsExactly | nodejs/src/internal/auth.ts:309-340 | a lease starts a mint exactly if the holder is open, none runs, and nothing is held or what is held is past its renewal point |
| SessionHolderSafety.CloseRetires | nodejs/src/internal/auth.ts:352-378 | a close with no mint running, or the end of the mint it waited for, retires what is held |
| SessionHolderSafety.HeldChangesBy | nodejs/src/internal/auth.ts:178-192 | what is held changes by a mint that returns and by a close, and no step changes how long a credential lasts |
| SessionHolderSafety.CallsChangeBy | nodejs/src/internal/auth.ts:309-350 | a lease waits, is leased, or is over by its own steps alone, or by the mint it waits on |
| SessionHolderSafety.EachCredentialInOnePlace | nodejs/src/internal/auth.ts:178-192 | every credential minted is held and not retired, or retired and still leased, or was ended, once, and is in no lease |
| SessionHolderSafety.ClosedAndIdleMeansAllEnded | nodejs/src/internal/auth.ts:352-378 | once a close is over no mint runs, and with no lease left every credential, that of the mint it waited for among them, has been ended once |
| SessionHolderSafety.ClosedStartsNothing | nodejs/src/internal/auth.ts:313-315 | from a close on every lease is refused and no mint starts, and a credential still arrives only while the close waits for it |
| SessionHolderSafety.ServedAtOnce | nodejs/src/internal/auth.ts:316-325 | what a lease is served at once is held, not retired, and unexpired at the reading that admitted it if it falls due no later than it expires; past its renewal point a mint runs beside it |
| SessionHolderSafety.WaiterUsesItsMint | nodejs/src/internal/auth.ts:327-338 | whatever happens while a lease waits, what it is leased was minted after it arrived and is still held, and a failure it is given came after it arrived |
| MemcoClient.Memco.EndKey | nodejs/src/client.ts:635-644 | an end under way is not sent again; otherwise one is sent, and the key marked |
| MemcoClient.Memco.SendEnd | nodejs/src/client.ts:654-665 | refused once closed; else counted in twice and sent, the dropped keys ended on the way |
| MemcoClient.Memco.EndDropped | nodejs/src/client.ts:706-716 | the queue emptied first, then each registered key of its owners not yet being ended is sent one end |
| MemcoClient.Memco.EndEach | nodejs/src/client.ts:711-715 | each of some registered keys is sent one end, whatever their order |
| MemcoClient.Memco.MintBegin | nodejs/src/client.ts:524-546 | refused once closed; else the expired forgotten, the dropped ended, and the ends of the user that failed retried; what is then being ended of the user is waited for |
| MemcoClient.Memco.EndUsers | nodejs/src/client.ts:537-546 | the failed ends of the user are sent again, those under way left alone, and all of them returned to be waited for |
| MemcoClient.Memco.Prune | nodejs/src/client.ts:530-535 | exactly the expired keys are forgotten |
| MemcoClient.Memco.CallBegin | nodejs/src/client.ts:770-782 | a call is counted in only on an open client, and ends what was dropped |
| MemcoClient.Memco.Finish | nodejs/src/client.ts:368-375 | the count reaching zero wakes the close |
| MemcoClient.Memco.EndRecord | nodejs/src/client.ts:666-681 | a confirmed key is forgotten, a refused one marked failed and not being ended |
| MemcoClient.Memco.Register | nodejs/src/client.ts:599-620 | a fresh key is live until it expires, nobody ending it |
| MemcoClient.Memco.Abandoned | nodejs/src/client.ts:193-198 | a collected session queues its owner, unless the client is closed |
| MemcoClient.Memco.Shut | nodejs/src/client.ts:312-323 | the client is closed once, and waits if anything is in flight |
| KeyRegistrySafety.StepKeeps | nodejs/src/client.ts:304-716 | every step of the client, its calls, mints, ends and sessions, in any order, keeps the registry's invariant |
| KeyRegistrySafety.EachKeyEndedOnce | nodejs/src/client.ts:635-697 | until the sweep a registered key stays live unless confirmed ended or expired; at most one end of it is under way, and none after it was confirmed |
| KeyRegistrySafety.NoneEndedUnderALease | nodejs/src/client.ts:296-303 | a key a call leases is in no log of ends sent, whatever came of them |
| KeyRegistrySafety.ClosedOnlyDrains | nodejs/src/client.ts:358-409 | once closed, inflight never rises, nothing more is sent, and the close waits exactly while it is positive |
| KeyRegistrySafety.SweepFindsNothingInFlight | nodejs/src/client.ts:312-320 | when the sweep can start no call, mint or end is in flight, and what it takes is exactly the registered keys neither confirmed nor expired |
| KeyRegistrySafety.NothingAfterTheSweep | nodejs/src/client.ts:312-323 | after the sweep no key is registered and no other end sent |
| KeyRegistrySafety.IssuedKeysAccountedFor | nodejs/src/client.ts:524-589 | every key issued is registered, about to be, or was discarded as it arrived; a discarded one has its end under way or confirmed or is abandoned, and only a closed client sends it none |
| KeyRegistrySafety.AbandonedStep | nodejs/src/client.ts:570-585 | a key is abandoned, by that step and for good, if and only if it is discarded by a client that has closed, or a refused end is recorded of a key never registered |
| KeyRegistrySafety.AbandonedExactly | nodejs/src/client.ts:654-681 | at the end of a run a key is in no place from which it will be ended if and only if somewhere in it the key arrived expired once the client had closed, or arrived so and its end was refused; the documentation of `mintKey` says it is ended first |
| KeyRegistrySafety.SentUnlessClosed | nodejs/src/client.ts:570-585 | a key that arrives expired by the local clock is sent its end if and only if the client has not closed by then |
| KeyRegistrySafety.AKeyCanBeLost | nodejs/src/client.ts:570-585 | a run in which a closed client drops a key that arrives expired |
| KeyRegistrySafety.ARefusedEndAbandons | nodejs/src/client.ts:666-681 | a run in which an open client does, the end it sends being refused |
| KeyRegistrySafety.EndingADroppedKeySendsTwo | nodejs/src/client.ts:635-644 | why the holder must end nothing once collected: a key queued as dropped and ended too is sent two ends |
| EndRetry.RefusedEndIsRetried | nodejs/src/client.ts:666-681 | over any run: once a refused end of a live key is recorded, and while no other end of it is begun, a mint of its user on the open client, before the key expires, sends it one end and asks only once that is over |
| EndRetry.DroppedKeysAreEnded | nodejs/src/client.ts:193-198 | over any run: as a call begins on the open client after a session was collected, every key of it that is still live has been sent an end |
| EndRetry.MintForgetsTheExpired | nodejs/src/client.ts:524-535 | a mint forgets exactly the keys that have expired as it begins, and changes neither user nor expiry of the rest |
| EndRetry.MintKeepsItsUser | nodejs/src/client.ts:599-620 | over any run: the key a mint registers is live for the user and the session it was begun for, until the expiry it came with, and not being ended; every other live key is as it was |
| RegistrySteps.EndsChangeBy | nodejs/src/client.ts:635-716 | which steps send an end of a key, and how many: a session that ends it, a mint it arrives expired for, a mint of its user after a refusal, and any call if its owner was dropped; nothing else, and none once closed |
| RegistrySteps.LiveChangesBy | nodejs/src/client.ts:524-697 | what each step does to a registered key: who it is for and when it expires never change, an end sent marks it, a refusal recorded leaves it to be tried again, and it goes when its end is confirmed, when a mint finds it expired, or with the sweep |
| RegistrySteps.DroppedChangesBy | nodejs/src/client.ts:193-198 | a dropped owner stays queued, on an open client, until the next call |
| RegistrySteps.CallsChangeBy | nodejs/src/client.ts:358-375 | a call is in flight from when it begins until it ends, and leases the key it last got |
| RegistrySteps.MintsChangeBy | nodejs/src/client.ts:524-622 | a mint waits, asks and is answered, in that order: it asks only on an open client, and what it got is registered, or ended if it arrived expired, which it waits for |
| RegistrySteps.KeysChangeBy | nodejs/src/client.ts:547-622 | a key is issued by a mint's answer, registered by the mint, and handed over by its session |
| RegistrySteps.AnswersChangeBy | nodejs/src/client.ts:654-697 | an answer to an end is kept until it is recorded, and a key confirmed gone stays so |
| RegistrySteps.CountedExactly | nodejs/src/client.ts:304-409 | in every reachable state what is counted in flight is every call, every mint, once more while it asks, and every end, once more while it is on the wire; and a closed client waits exactly while there is any of these |
| MintWait.MintWaitsForThoseItFound | nodejs/src/client.ts:537-546 | a mint asks only after every end of its user's keys that it found under way as it began was recorded |
| MintWait.AwaitsOnlyWhatIsUnderWay | nodejs/src/client.ts:537-546 | what a waiting mint awaits is under way, and with nothing of it left it can ask |
| MintWait.MissesThoseBegunSince | nodejs/src/client.ts:505-508 | what is still being ended of the user as the mint can ask is exactly what began to be ended since the mint did; the documentation says the cap then counts only keys still in use |
| MintWait.AMintAsksBesideAnEnd | nodejs/src/client.ts:505-508 | a run in which a session ends its key meanwhile and the mint asks beside it |
| SessionKeys.ActAllowed | nodejs/src/client.ts:485-498 | whatever the holder of a session does next, the registry allows it: keys are leased only while held, handed over once and under no lease, and dropped only when idle |
| Sessions.RunTogether | nodejs/src/client.ts:485-498 | in every run of a client and any number of sessions, the client keeps to its machine and every session to its own, so what is proved of the registry and of the holders holds of all of them at once |
| Sessions.EndsFollowTheHolder | nodejs/src/client.ts:296-303 | no end was ever sent of the key of a credential its holder, not yet garbage, has not handed over; one it handed over was handed over once, is in no call, and was sent its end unless the client had closed |
| Sessions.ClosedSessionLeavesNoKey | nodejs/src/internal/auth.ts:352-378 | once a session's close is over and its calls are done, every key ever registered for it has had its end called, and sent unless the client had closed |
| Sessions.ServedKeyIsLive | nodejs/src/client.ts:599-620 | what a call is served at once is a key whose registered expiry is after the reading that admitted it, that was sent no end, and that until the sweep is still live unless the client has read a clock past its expiry |
| Sessions.AKeyIsServedAndEnded | nodejs/src/client.ts:485-498 | a run in which a call waits for a session's first key and leases it, the session is closed under it, and the key is sent its end as the call is done |
| AsyncClient.AsyncMemco.EndKey | python/memcoai/_aio.py:653-671 | an end is a task of its own, registered at once |
| AsyncClient.AsyncMemco.EndedWith | python/memcoai/_aio.py:673-684 | a done-callback removes the entry only if it is that of its own end |
| AsyncClient.AsyncMemco.Ended | python/memcoai/_aio.py:686-725 | a key the service no longer has is forgotten, a refused one marked |
| AsyncClient.AsyncMemco.MarkFailed | python/memcoai/_aio.py:727-735 | only keys still registered are marked |
| AsyncClient.AsyncMemco.EndOrphans | python/memcoai/_aio.py:737-751 | the queue emptied first, then one end started for each |
| AsyncClient.AsyncMemco.Prune | python/memcoai/_aio.py:635-637 | exactly the expired keys are forgotten |
| AsyncClient.AsyncMemco.Retry | python/memcoai/_aio.py:638-651 | a key is unmarked as it is taken, and ended again |
| EventLoopEnds.StepKeeps | python/memcoai/_aio.py:597-684 | every interleaving of ends, callbacks, retries and mints on one loop keeps the invariant |
| EventLoopEnds.MintLeavesOnceUserIsIdle | python/memcoai/_aio.py:600-601 | a mint leaves its wait loop only when every end of its user's keys ever started has returned |
| EventLoopEnds.EntryGoesWithItsOwnEnd | python/memcoai/_aio.py:673-684 | an entry is removed by the callback of that very end and by nothing else, and an unfinished end stays registered |
| EventLoopEnds.OneEndAtATime | python/memcoai/_aio.py:639-651 | at most one end of a key is unfinished, and none once it is gone |
| EventLoopEnds.ARetryCanOvertakeACallback | python/memcoai/_aio.py:673-684 | the case the identity test in `_ended_with` is for does occur: a retry registered before the older end's callback runs |
| EventLoopRetry.TasksChangeBy | python/memcoai/_aio.py:653-751 | which ends each step starts: a session's one, a retry its one, a call or a mint one for each key queued, in order; an end started only returns and is called back |
| EventLoopRetry.LiveChangesBy | python/memcoai/_aio.py:606-735 | what each step does to a registered key: it is there from the mint that registers it to the end that leaves nothing or the mint that finds it expired, marked by an end that fails and unmarked by its retry |
| EventLoopRetry.MintsChangeBy | python/memcoai/_aio.py:597-651 | a mint begins by looking for keys to retry, and asks only from its wait |
| EventLoopRetry.KeysChangeBy | python/memcoai/_aio.py:561-625 | a key is issued to the user of its mint, left once by its session, and known to be gone from the end that left nothing |
| EventLoopRetry.OrphansAreEnded | python/memcoai/_aio.py:737-751 | over any run: the key of a session left as garbage is sent an end by the time the next call or mint has begun |
| EventLoopRetry.FailedEndIsRetried | python/memcoai/_aio.py:638-651 | over any run: while a failed end is not tried again, and its key has not expired, a mint of its user that looks for keys to retry may take it and does not go on as if there were none |
| EventLoopRetry.RetryIsTold | python/memcoai/_aio.py:638-651 | over any run: a mint looks for another key to retry exactly if the end it awaited left nothing to end, and else waits |
| CloseSweep.SweepDividesTheSwept | nodejs/src/client.ts:312-320 | what the close's last job divides into gone and named is exactly what the registry's sweep took, each key once; each gone was answered done or not found, the first named was refused or never answered, and nothing else is sent an end |
| CloseSweep.UnexpiredKeys | nodejs/src/client.ts:312-319 | the keys not yet expired, in order |
| CloseSweep.UnexpiredExactly | python/memcoai/_aio.py:763-766 | a key is swept exactly if it is live and unexpired |
| CloseSweep.UnexpiredInOrder | python/memcoai/_aio.py:763-766 | of two swept keys, the first is one registered before the other |
| CloseSweep.EndLive | nodejs/src/client.ts:727-756 | the loop computes the sweep: ends sent in order up to the first refused, a key not found being as good as ended, and the rest named in one warning |
| CloseSweep.SweepDivides | python/memcoai/_aio.py:766-786 | the keys are those gone followed by those named, none lost and none in both; every key gone was answered done or not found, the first named was refused or never answered, and what is sent is those gone and that one |
| GoClient.Client.Begin | go/memcoai/client.go:385-393 | a call is counted in unless the client is closed |
| GoClient.Client.End | go/memcoai/client.go:396-403 | the last call of a closed client reports the drain, on a channel still open |
| GoClient.Client.Close | go/memcoai/client.go:314-322 | closing an idle client reports the drain, and closing again nothing |
| GoClient.DrainedOnce | go/memcoai/client.go:314-403 | in every run the drain channel is closed at most once, and exactly when the client is closed and no call in flight |
| GoClient.ClosedOnlyDrains | go/memcoai/client.go:385-393 | no call begins on a closed client |
| GoClient.NoKeyIsLost | go/memcoai/client.go:525-581 | every key issued is in one place, held, ended, expired, swept or being ended by its mint, or is lost; and none is lost in a run in which no mint's own end was refused |
| GoClient.LostExactly | go/memcoai/client.go:548-577 | a key is lost if and only if the end its own mint sent was refused, and then it had arrived expired or after the sweep |
| GoClient.AKeyCanBeLost | go/memcoai/client.go:569-574 | a run that loses one: the code only logs the refusal, and no registry has the key |
| GoClient.NothingIssuedAfterTheDrain | go/memcoai/client.go:314-348 | once the drain is reported no key is issued, so a close that waited sweeps all |
| GoClient.JobsChangeBy | go/memcoai/client.go:385-403 | a call is in flight from when it begins, on an open client, until it ends |
| GoClient.KeysChangeBy | go/memcoai/client.go:548-581 | a key is registered as its mint is answered exactly if it is not stale and the close has not swept, and is else ended by that mint; and where each other step moves it |
| Docstrings.Trim | scripts/sync_tool_docs.py:388-395 | the trimming loops compute the function |
| DocstringRewriting.TrimmedIs | scripts/sync_tool_docs.py:388-395 | what trimming leaves is the lines from the first not blank to the last |
| Docstrings.SplitSections | scripts/sync_tool_docs.py:398-410 | the splitting loop computes the function |
| DocstringFixedPoint.SplitLosesNothing | scripts/sync_tool_docs.py:398-410 | the prose, and each header with its lines, are the docstring again |
| Docstrings.RewriteEntries | scripts/sync_tool_docs.py:413-432 | the loop over entries computes the function |
| DocstringRewriting.RewrittenBlocks | scripts/sync_tool_docs.py:413-432 | each described entry, whole, is replaced by its copy, and every other line kept in its place |
| DocstringRewriting.EveryLineInABlock | scripts/sync_tool_docs.py:413-432 | every section is such blocks, entries reaching to the next blank line or entry |
| DocstringRewriting.RewriteIdempotent | scripts/sync_tool_docs.py:413-432 | rewriting what was rewritten changes nothing, if each entry written still opens |
| Docstrings.LayOut | scripts/sync_tool_docs.py:461-468 | the layout loop computes the function |
| DocstringFixedPoint.SplitLaidOut | scripts/sync_tool_docs.py:398-468 | a laid-out docstring splits into the parts it was laid out from, trimmed, with the gap between sections |
| Docstrings.ReadDocstring | scripts/sync_tool_docs.py:435-449 | the body between the quotes, dedented, or which quote is missing |
| DocstringReading.SectionExactly | scripts/sync_tool_docs.py:195-195 | a line opens a section exactly if it is one of the headers and a colon |
| DocstringReading.EntryExactly | scripts/sync_tool_docs.py:196-196 | a line opens an entry exactly if it is four spaces, a word, a colon, a space, and anything |
| DocstringReading.DedentedExactly | scripts/sync_tool_docs.py:442-443 | a line loses as much of the indent as it has whitespace for |
| DocstringReading.ReadsText | scripts/sync_tool_docs.py:435-449 | any docstring whose quotes open at its indent and close on its last line, with text before them or without, reads as the lines between the quotes, that text kept as the last |
| DocstringReading.ReadsExactly | scripts/sync_tool_docs.py:439-445 | it is refused for its opening quotes exactly if they are not at its indent, and for its closing ones exactly if they are not the last thing on its last line |
| DocstringReading.WrittenExactly | scripts/sync_tool_docs.py:452-458 | what is written, line by line: the quotes and the first line, the others indented or empty, the quotes alone |
| DocstringReading.WritesTheCopy | scripts/sync_tool_docs.py:337-468 | what was written, read and split again, has the copy's prose if there is any and else its own, the same headers in the same order, and under each the same lines, those of the copy's header rewritten |
| DocstringReading.DriftExactly | scripts/sync_tool_docs.py:337-468 | of a docstring that reads, nothing is written exactly if the copy's prose would open a section, a name of the copy's has no entry, or there is no line to write |
| DocstringRewriting.ReadsBack | scripts/sync_tool_docs.py:435-458 | what was written at any indent reads back line for line, blank lines emptied |
| DocstringFixedPoint.FixedPoint | scripts/sync_tool_docs.py:337-468 | a docstring the rewriter wrote is rewritten to itself, if and only if each entry it wrote starts its text on the line that names it; otherwise the second run reports the entry undocumented |
| DocstringFixedPoint.AnEntryCanBeLost | scripts/sync_tool_docs.py:376-385 | a docstring and copy for which it does not: the first word of the entry's text is a hundred letters, too long for any line, and goes unbroken onto the next |
| Splice.SortedLastFirst | scripts/sync_tool_docs.py:1221-1226 | the edits, last span first |
| Splice.Apply | scripts/sync_tool_docs.py:1221-1228 | splicing last first is replacing every span at once, for disjoint spans in any order |
| Splice.UndriftedUnchanged | scripts/sync_tool_docs.py:1221-1228 | splicing in what a file already has leaves it as it is |
| DocstringFiles.EditsExactly | scripts/sync_tool_docs.py:511-571 | the edits are, docstring by docstring, what each is rewritten to from the lines it spans; one that drifts stops the run |
| DocstringFiles.FoundAtItsPlace | scripts/sync_tool_docs.py:1221-1228 | in the spliced file each docstring stands, whole, at its line moved by what the edits above it added or took |
| DocstringFiles.FileFixedPoint | scripts/sync_tool_docs.py:587-674 | the script run on a file it wrote, with the docstrings where they now are, writes that file again, if and only if every entry starts its text on the line that names it; otherwise it stops at an entry it no longer finds |
| MarkdownPages.ProseLines | scripts/build_llms_txt.py:684-703 | the fence loop computes which lines are prose |
| PageLines.OpensExactly | scripts/build_llms_txt.py:669-681 | a line opens a fence exactly if, stripped, it starts with three or more backticks and has no backtick after them, or with three or more tildes |
| PageLines.ClosesExactly | scripts/build_llms_txt.py:697-698 | a line closes a fence exactly if, stripped, it is nothing but the fence's character and at least as long as the fence |
| PageLines.HeadingExactly | scripts/build_llms_txt.py:706-706 | a line is a heading exactly if it is one to six hashes, whitespace, the text, and whitespace, the text being what has no whitespace at its ends, or the last character of whitespace alone |
| PageNormalForm.FencedExactly | scripts/build_llms_txt.py:672-703 | a fence is open before a line exactly if a prose line above starts, stripped, with that fence as an opening one does, and no line since is, stripped, its character alone and enough of it |
| PageNormalForm.ProseExactly | scripts/build_llms_txt.py:684-703 | a line is prose exactly if no fence is open before it and it opens none |
| MarkdownPages.AsPage | scripts/build_llms_txt.py:716-743 | the loop computes the page |
| MarkdownPages.PutLine | scripts/build_llms_txt.py:730-741 | what one heading becomes, and what has been seen after it |
| PageNormalForm.ExactlyOneH1 | scripts/build_llms_txt.py:716-743 | a page has one level-one heading outside code; none only for an empty title on a page without one |
| PageNormalForm.ClassificationKept | scripts/build_llms_txt.py:730-743 | each line is prose after the pass exactly if it was before |
| PageNormalForm.OnlyHeadingsMove | scripts/build_llms_txt.py:730-743 | all but headings stay as they are, and headings keep their text and move only down |
| PageNormalForm.RubricNests | scripts/build_llms_txt.py:733-735 | a rubric at or above the heading it followed goes one level under it, or to level six |
| PageNormalForm.LeadStays | scripts/build_llms_txt.py:736-741 | any other heading stays as it is, but a level-one heading after the first gets one hash more |
| PageNormalForm.TitleExactly | scripts/build_llms_txt.py:716-743 | the title is put first, as a heading over an empty line, exactly if no level-one heading leads on the page; else no line is added |
| PageNormalForm.PageAgain | scripts/build_llms_txt.py:716-743 | with no rubric pinned to level two, the pass leaves its output alone, if and only if that has its level-one heading |
| PageNormalForm.IdempotentExactly | scripts/build_llms_txt.py:716-743 | the pass is idempotent on every titled page if and only if no rubric text is pinned to level two |
| PageNormalForm.RubricAtTwo | scripts/build_llms_txt.py:733-741 | with one pinned there, a page it is not idempotent on |
| Paths.NormPath | scripts/build_llms_txt.py:599-599 | the loop of `normpath` computes the function |
| Paths.RelativeResolves | scripts/build_llms_txt.py:562-564 | the relative path from a directory to a file, joined to the directory and normalised, is the file's path again, at any depth and for any working directory |
| PathMeaning.NormalLeads | scripts/build_llms_txt.py:599-599 | a normalised path leads where the path did, part by part, from whatever directory one starts |
| PathMeaning.NormalCanonical | scripts/build_llms_txt.py:599-599 | and has no empty part, no dot, and no step up but at its start, where one from the root has none |
| PathMeaning.JoinedLeads | scripts/build_llms_txt.py:599-599 | a joined path leads where its second half does from where the first one leads |
| PathMeaning.DirLeads | scripts/build_llms_txt.py:585-586 | a path leads one part, its last, beyond its directory |
| Links.Broken | scripts/build_llms_txt.py:836-863 | exactly the links that reach neither a file being assembled nor one on disk |
| Links.BrokenIn | scripts/build_llms_txt.py:850-862 | the same, for one file |
| PathMeaning.ReachedLeads | scripts/build_llms_txt.py:849-857 | the checker takes a link to lead where its path does, from the directory of the file it is in |
| PathMeaning.PartitionExactly | scripts/build_llms_txt.py:854-855 | a target is cut at its first hash |
| PathMeaning.ReportedExactly | scripts/build_llms_txt.py:836-875 | a link is reported if and only if it has a path, is not a link elsewhere, and leads to no file being assembled and to none of the reference on disk, one that leads out of the reference being reported whatever is there |
| Links.RelinkedReaches | scripts/build_llms_txt.py:589-612 | a link is rewritten if and only if it is meant for a page of the build or an asset, but for an anchor into the file it is in; the checker finds it to lead exactly there, its anchor kept where the target has anchors |
| Links.RelinkedNeverDangles | scripts/build_llms_txt.py:836-863 | a rewritten link dangles only if what it was meant to reach is not published |
| Links.AssetInside | scripts/build_llms_txt.py:600-607 | what follows `_media/` in a normalised path, underscore dropped, is a path inside the reference |
| Endpoint.TargetRoundTrips | python/memcoai/_config.py:81-95 | splitting a printed target gives back host and port, if and only if the port is in range and the host cannot be taken for a bracketed address |
| Endpoint.SplitRoundTrips | python/memcoai/_config.py:249-295 | a host string that splits, printed and split again, gives the same, if and only if what it has in brackets is an address or neither blank nor opens another bracket, or, without brackets, it is not blank and no bare address that closes one |
| Endpoint.BracketInBrackets | python/memcoai/_config.py:271-283 | a host string that splits and does not |
| Endpoint.IntOfDecimal | python/memcoai/_config.py:225-246 | every integer printed is read back |
| Endpoint.DecimalStarts | python/memcoai/_config.py:91-95 | an integer is printed with a minus exactly if it is negative, and with no zero to spare |
| Endpoint.IntOfExactly | python/memcoai/_config.py:225-246 | an integer is read of a sign, if any, and a number, with whitespace around them |
| Endpoint.ValueSpelt | python/memcoai/_config.py:225-246 | a number is read of digits with single underscores between them, and of nothing else |
| Endpoint.ValueIgnoresUnderscores | python/memcoai/_config.py:225-246 | the underscores change nothing of it |
| Endpoint.ValueOfDigitsOnly | python/memcoai/_config.py:225-246 | of digits alone it is the number they print |
| Endpoint.ValueIgnoresZeros | python/memcoai/_config.py:225-246 | a zero before them changes nothing of it |
| Endpoint.PortExactly | python/memcoai/_config.py:225-246 | a port is an integer from 1 to 65535; one out of range and a text that is none are told apart |
| Endpoint.SplitBrackets | python/memcoai/_config.py:271-283 | a bracket must be closed, around an address, and followed by nothing, which means port 443, or by a colon and a port |
| Endpoint.SplitBare | python/memcoai/_config.py:284-295 | a host with no colon, or with two or more, has port 443 |
| Endpoint.SplitAtColon | python/memcoai/_config.py:284-295 | with one colon, what is before it is the host, which must not be blank, and what is after it the port |
| ToolNames.ReplacedIsRenamed | nodejs/src/agent.ts:536-558 | running the pattern over a text renames its whole words and nothing else |
| ToolNames.LookupIsOperation | nodejs/src/agent.ts:536-540 | a word is a tool name exactly if it is an operation with the prefix, or one with an underscore without it |
| ToolRenaming.WordRenamed | nodejs/src/agent.ts:525-558 | a whole word that is an operation after `memco_`, or one by itself other than "search", becomes the prefix and that operation; every other word stays |
| ToolRenaming.IdempotentExactly | nodejs/src/agent.ts:549-558 | renaming twice is renaming once, for any prefix of letters, digits and underscores, and for others exactly when they hold no tool name and do not end where one would start |
| ToolRenaming.RenamedApart | nodejs/src/agent.ts:536-558 | text in two parts no word spans is renamed part by part |
| ToolRenaming.NotSettled | nodejs/src/agent.ts:549-558 | for any other prefix, a text renaming twice does change |
| ToolArguments.ParametersFor | nodejs/src/agent.ts:632-646 | the loop computes the published schema |
| ToolArguments.ObjectFrom | nodejs/src/agent.ts:696-722 | the loop computes what is read of one object, or why it is refused |
| ToolArguments.ArgumentsFor | nodejs/src/agent.ts:760-797 | the check computes what is passed on, or why the call is refused |
| ToolArguments.ObjectExactly | nodejs/src/agent.ts:696-722 | an object is taken if and only if its schema admits what is read of it, and is that |
| ToolArguments.ObjectReads | nodejs/src/agent.ts:696-722 | of an object that is taken, exactly the declared fields sent are read, as they were sent, but optional ones that are null |
| ToolArguments.LeftOutAlike | nodejs/src/agent.ts:696-722 | an optional field that is null is as one left out, and an undeclared one is ignored |
| ToolArguments.FieldsMissing | nodejs/src/agent.ts:696-722 | an object is refused for the required fields it lacks, all of them named |
| ToolArguments.AcceptedExactly | nodejs/src/agent.ts:760-797 | a call is taken if and only if it names no argument of its own making and the published schema admits what is read of it |
| ToolArguments.IgnoredAlike | nodejs/src/agent.ts:760-797 | an argument that is null is as one not sent, and so is one of the session's own that the tool does not declare |
| ToolArguments.ArgumentsMissing | nodejs/src/agent.ts:760-797 | a call is refused for the names it makes up, all of them, or else for the required arguments it lacks or has null, all of them |
| ToolArguments.SchemaSuffices | nodejs/src/agent.ts:600-646 | a call the published schema admits is passed on unchanged, but for the arguments of the session |
| ToolArguments.AcceptedAgain | nodejs/src/agent.ts:733-797 | what is passed on is admitted by the schema, and checked again comes out the same |
| CreateOrGet.Run | go/memcoai/admin.go:215-254 | the walk ends, on any finite listing, at the first page that fails, holds the name, is empty or completes the total |
| CreateOrGet.Settle | go/memcoai/admin.go:231-247 | the first network of the name on a page is adopted or refused |
| CreateOrGet.Verdict | go/memcoai/admin.go:235-247 | adopted exactly if owner, trimmed, and any domain and scope given are the same; else what first differs is named |
| CreateOrGet.TrimSpaceIs | go/memcoai/admin.go:227-236 | an owner is compared without the whitespace around it, and one of whitespace alone as empty |
| CreateOrGet.FirstOfTheName | go/memcoai/admin.go:231-234 | it is the first network of the name on a page that decides |
| CreateOrGet.SeenIsListed | go/memcoai/admin.go:248-252 | the total is held against how many networks the pages have listed so far |
| CreateOrGet.AdoptsOnlyTheSame | nodejs/src/administration.ts:399-417 | only a listed network of exactly the name, with what was asked for, is adopted |
| CreateOrGet.UnlistedExactly | nodejs/src/administration.ts:418-421 | "cannot be listed" exactly when some page is empty or completes its total, and every page up to it was listed and does not hold the name |
| CreateOrGet.HeldYetUnlisted | go/memcoai/admin.go:248-252 | a name some page holds is reported so exactly when a page before the first that holds it is empty or completes its total, and no page up to that one fails |
| CreateOrGet.HandedTheWinners | go/memcoai/admin.go:194-214 | the loser of a race is handed the verdict on the winner's network exactly when every page before the one that lists it is listed, and none is empty or completes its total |
| CreateOrGet.ATotalCanHideTheName | go/memcoai/admin.go:248-252 | a total that counts too few ends the walk before the page that holds the name |
| Imports.Plan | nodejs/src/internal/requests.ts:530-545 | the groups are the batch in order, none empty or above the cap, each with its place in the batch |
| Imports.ToImportResult | go/memcoai/convert.go:143-158 | the loops compute the merged outcomes |
| Imports.RenumberedOnce | python/memcoai/_convert.py:497-525 | however a batch is split, the merged outcomes have its indexes, each once |
| Imports.GroupsInOrder | python/memcoai/_convert.py:497-525 | the outcomes come group by group: those of a group, as the service gave them, stand exactly where its memories stand in the batch |
| Imports.RenumberedRight | nodejs/src/operations.ts:992-1018 | and each is the outcome of the memory at that index, as if the batch had gone out whole |
| SessionOpener.Opener.Then | nodejs/src/operations.ts:1286-1294 | an await is chained on the attempt under way or open, or starts one |
| SessionOpener.Opener.Forget | nodejs/src/operations.ts:1304-1309 | a failed attempt is not held on to |
| SessionOpener.OneSession | nodejs/src/operations.ts:1286-1310 | over any run of awaits and failures at most one session is opened, and one attempt under way |
| SessionOpener.OpenStays | nodejs/src/operations.ts:1286-1294 | once one is open every await is given it, and none is started |
| SessionOpener.FailureForgotten | nodejs/src/operations.ts:1297-1310 | after a failure is handled the next await starts another attempt |

## Left out

- Renewing: starting a thread and calling `_end` happen outside its lock, so its methods return whether to and with what; a thread that cannot be started is not modelled, and the secret a credential carries is not part of it.
- `AsyncRenewing` is the same machine without a lock, and is not modelled apart.
- SharedRenewing: a lease that leaves at its deadline stops waiting, and that is all of its timer; the warning of a failed renewal and the secret are not part of it.
- Sessions: a mint is begun for its session at some step after the lease that starts it, and its holder learns of the key at some step after it is registered, rather than at once.
- The remote calls themselves: gRPC, retries, deadlines, TLS, logging, error classes and their messages. A call is a step that is answered, refused or never sent.
- Garbage collection is a step guarded by there being no lease and no mint; threads, the event loop and clocks are steps in any order and readings that never go back.
- KeyRegistry: the order of ends on the wire is not kept, only how many of each key there are.
- SessionKeys: the client counts a call out before the end that its release sets off is sent, where `lease` sends the end first and the call is counted out after; a closed client sends no end either way, and the two leave an open one the same.
- EventLoopEnds: switching between event loops, and a mint cut short with its loop, are not modelled; a retry that is cancelled counts as one that failed.
- GoClient: the registry and the holder of `go/internal/transport` are reduced to where a key is; claiming a key before it is ended is not modelled.
- CloseSweep: the answers are given by key, so what the service would say of the same key later is not modelled.
- Docstrings: `textwrap`, `ast` and the resolver of markers are not modelled; the copy arrives as the lines `textwrap` would return, with the shape it gives them (`WellWrapped`), and `\w` is ASCII.
- Sync: the checks that the manifest and the signatures name the same parameters, and the functions that carry no docstring, come before it.
- Splice: joining the lines and splitting the file into them.
- DocstringFiles: the parser is taken to find the docstrings of a file the script wrote where they were written, in the same order and with the same copy for each.
- MarkdownPages: a page is its lines, so line breaks other than a newline and the newline at the end are not modelled; a title is one line.
- Links: the pattern that finds links in a line, and what a percent escape decodes to; a percent sign in a target or a path is shut out, as the original leaves such links to `unquote`.
- Endpoint: digits outside ASCII, which Python's `int` also reads, and its limit on how many.
- ToolNames: the marker syntax of the Python copy, and checking that a prefix is one a tool name may carry.
- CreateOrGet: the overflow of the page number; where JavaScript's `trim` and Go's `TrimSpace` differ, it is Go's that is modelled.
- Imports: the batch is a sequence rather than an iterator taken group by group, and refusing an invalid memory part of the way through is not modelled.
- ToolArguments: the wording of a rejection and the place it names, and reading arguments out of JSON text; a value that is undefined reads as null.
- Message conversions, result rendering, briefing text, credential precedence and generated modules: one branch each.
