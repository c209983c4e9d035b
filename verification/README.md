# Models of mac80211 and iwlwifi

A Dafny model of five cores of the Linux wireless stack and the Intel driver below it, with proofs
about what they keep in every run, what they compute, and which inputs they invert.

**Channel contexts** (`ChannelUsers`, `ChannelWorlds`, `ChannelLaws`, `ChannelContexts`, `ChannelRuns`).  A link
holds an assigned and a reserved context; a context may be paired with another one for an in-place
replacement.  No list of users is stored: reference counts are recomputed with a resumable iterator.
The heap of links and contexts is modelled as objects that the operations change in place;
`ChannelWorlds` says on plain values (`World`) what each operation makes of the state, and
`Local.View` reads the value from the objects.  `ChannelLaws` spells out what that means for a caller,
by who is on which context, who reserves which and who is ready, without the definitions that the
operations are written after; the contracts of the operations state these laws.  The driver's answers are parameters, and the
compatibility of a request with a context is an arbitrary relation `fits` or answer `compat`.

The invariant `Local.Inv` says: every pointer of a link is to a listed context, every listed context
has a user and is not left marked as about to be used, replaced and replacing contexts are matched by
mutual pointers, nobody reserves a context that goes away and nobody is assigned to one that is still
to come.  Every public operation keeps it in every run from the start (`ChannelRuns.Run`), under these
conditions:

- a link that reserves has no reservation;
- a release, or a move away from a context, does not free a context that waits for its replacement
  while others still reserve that replacement (`Strands`, `Orphans`).  This is exact: `RepointedInv`,
  `ReleaseLink` and `UseReservedReassign` say that the invariant survives if and only if it holds, and
  `ChannelRuns.StrandedRelease` breaks it at the end of a run of five calls;
- when the all-at-once switch goes ahead, whoever is on a replaced context and has a reservation
  reserves a replacement (`SourcesMove`).  This is exact, too: `UseReservedSwitch` says that a
  successful switch keeps the invariant if and only if it holds, and `ChannelRuns.DanglingSwitch`
  leaves a link assigned to a freed context at the end of a run of four calls;
- when the switch goes ahead, every replacement has a reserver that swaps to it or is not ready yet
  (`Anchored`).  Reservers that only join are allowed.  For a switch that waits or fails nothing is
  asked.

The switch has three outcomes (`AfterSwitch`), and `SwitchLaw` says which one by looking at the links.
The first pair in list order that is held up decides: by a link on the old context without a
reservation, or by a link that is to swap and is not ready.  It waits if somebody may still get ready,
and nothing changes; in particular when everybody has a reservation and a link that is to swap is not
ready.  Or it fails, every reservation of a replacement is dropped and no pairing is left
(`Unwound`).  Or it succeeds (`Swap`): every link on a replaced context that reserves a replacement
moves; links that only join a replacement keep waiting if they are not ready, and lose their
reservation if they are, because the deferred re-assignment refuses a context that is still marked as
a replacement (mac80211/chan.c:1486, 1564).  A driver that itself answers the switch with `-EAGAIN`
is treated like any other failure inside, but reported like a wait: so "`-EAGAIN` changes nothing"
holds for the wait only.  After a failed switch the code still reads the state of the replacement it
has just freed (mac80211/chan.c:2150-2154); the model keeps the record and finds it unchanged.  A
link that gives up a context inside `_ieee80211_link_use_channel` also loses the radar requirement
recorded just before, because the release clears it; `UseChannel` says exactly when.

**Block-ack sessions** (`BlockAckTx`, `BlockAckRx`).  `BlockAckTx.Tid` is one TID of a station: its
waiting and its installed session, the counters, the shared queue.  `Run` interleaves API calls,
timers, driver callbacks, peer frames, the TX path, other TIDs and a worker in any order; the
worker's start is split in three, so that anything that needs no wiphy mutex can happen before,
during and after the driver's START.  Time is true time; the code sees it modulo
2^32 or 2^64, the values of an unsigned long.  The TX path drops the oldest held frame beyond 64
(mac80211/tx.c:1162-1163), so frames are conserved as: held, moved in order, or dropped at the cap.

**Signal averaging** (`SignalAverage`) relates the fixed-point mean to the exact mean of the powers,
over the reals.  **Regulatory rules**, **bands**, **external NVM files** (`Regulatory`,
`ChannelBands`, `ExternalNvm`), **firmware files** (`FirmwareTlv`), **Michael** (`Michael`) and
**reset escalation** (`ResetEscalation`) each prove a method that works in place against a
specification, and the law of that specification: maximal runs, slices, round trips, inverse folds,
and the decisions of a whole run of failures.  Beside them stand the formats themselves, in numbers:
header and firmware bytes, channel tables, known values of the block function, the decisions of a run.

Three promises of the code turn out to have exceptions, besides those above.

- An external NVM file without a prologue may begin with the very bytes of one.  In the extended
  format none does (`ExtendedIsPlain`); in the other one exactly those do whose first section has id
  2, 1344 bytes, first bytes 2A 4D 56 4E and the fitting header bits (`StandardPrologue`).  `PlainFile`
  holds for all others, and `LookalikeIsMisread` shows one that is misread.  That every file that
  begins like a prologue is misread is not claimed: a later section with the same id can hide the one
  that was skipped.
- `time_before` holds only within half the range of the jiffies counter.  `StartIsThrottled` says
  exactly when a start is accepted: it is never too early, and `RefusedTooLate` is a run after which a
  start is refused long after the retry period.
- A regulatory domain built from no channels at all has no slot for the dummy rule that is then
  written; `BuildRules` and `RuleCount` say that this is the only list whose rules do not fit.

## Model

| member | source | states |
|---|---|---|
| ChannelUsers.Interfaces.NextInIface | mac80211/chan.c:34-84 | resuming at any slot and stage of one interface, finds the least use of the context still ahead there, or there is none |
| ChannelUsers.Interfaces.Next | mac80211/chan.c:34-107 | the iterator moves to the least use after the one it stands on, in interface, slot and assigned-before-reserved order, or reports that none is left; AP_VLAN and stopped interfaces are passed over |
| ChannelUsers.Interfaces.Drain | mac80211/chan.c:34-134 | draining the iterator ends and yields exactly the uses of the context, each once, in order |
| ChannelUsers.Interfaces.NextAssigned | mac80211/chan.c:109-134 | the next assigned link in order, none skipped, and a rank that falls, so that every loop over them ends |
| ChannelUsers.Interfaces.NextReserved | mac80211/chan.c:109-134 | the same for reserving links; it looks only at links after the current one, so the body may clear the current link's reservation |
| ChannelUsers.Interfaces.NumAssigned | mac80211/chan.c:136-146 | the count is the number of links assigned to the context |
| ChannelUsers.Interfaces.NumReserved | mac80211/chan.c:148-158 | the count is the number of links reserving the context |
| ChannelUsers.Interfaces.UsesSplit | mac80211/chan.c:160-177 | the uses of a context are its assigned plus its reserving links |
| ChannelUsers.Interfaces.OrderedIsDistinct | mac80211/chan.c:160-177 | an ordered, complete enumeration has as many entries as the context has uses |
| ChannelUsers.Interfaces.Refcount | mac80211/chan.c:160-177 | the recomputed count is assigned plus reserving links plus one while marked; it is zero exactly when nothing points to the context |
| ChannelUsers.Interfaces.UsersAre | mac80211/chan.c:34-84 | the links that the iterator considers are those in the 15 slots of running interfaces other than AP_VLANs |
| ChannelContexts.Local.constructor | mac80211/chan.c:15-32 | the invariant holds when no link has a context |
| ChannelContexts.Local.ReplacementIsReserved | mac80211/chan.c:1260-1331 | every REPLACES_OTHER context has a reserver |
| ChannelContexts.Local.SameState | mac80211/chan.c:160-177 | the invariant depends on pointers and context records alone |
| ChannelContexts.Local.Unreserve | mac80211/chan.c:1227-1258 | the reservation is gone, a context without users is freed, a freed replacement's partner is ordinary again, nothing else changes; keeps the invariant |
| ChannelContexts.Local.UnreserveInv | mac80211/chan.c:1227-1258 | dropping one reservation this way keeps the invariant |
| ChannelContexts.Local.UnreservedView | mac80211/chan.c:1227-1258 | the state that the in-place change leaves is the one described on values, with the freed context and its partner |
| ChannelLaws.UnreservedLaw | mac80211/chan.c:1227-1258 | only the link's reservation changes; the contexts that no link points to any more are gone, and one whose replacement is gone is ordinary again |
| ChannelLaws.CleanedSound | mac80211/chan.c:1227-1258 | freeing the contexts without users keeps the invariant as long as no replacement loses the context it is to replace |
| ChannelContexts.Local.FindReservation | mac80211/chan.c:337-363 | the first context that is not going away, shared, compatible and reserved by someone; null exactly when there is none or the mode is exclusive |
| ChannelContexts.Local.PickReplaced | mac80211/chan.c:1260-1310 | picks the link's own context if it is ordinary and unreserved, else the first such one whose radio can take the request; none exactly if there is none |
| ChannelContexts.Local.ReplaceChanctx | mac80211/chan.c:1260-1331 | a fresh context is listed first and paired both ways with an ordinary unreserved one; fails exactly when none can be replaced, and then changes nothing |
| ChannelContexts.Local.ObtainContext | mac80211/chan.c:1364-1391 | joins the first joinable context, else adds one while there is room and a radio, else pairs one, else is busy; a failure changes nothing |
| ChannelContexts.Local.Reserve | mac80211/chan.c:1364-1401 | by who reserves what: joins the first shared compatible context that is not going away and that somebody reserves, else adds one while there is room, else pairs a new one with the link's own or the first ordinary unreserved one, else -EBUSY; an assigned link needs the driver's switch operation; keeps the invariant |
| ChannelContexts.Local.ReserveInv | mac80211/chan.c:1364-1401 | a reservation of a joined, added or paired context keeps the invariant |
| ChannelLaws.ReserveObeys | mac80211/chan.c:1337-1401 | the change of the whole state is that of the law for reservations, stated by contexts and their reservers |
| ChannelContexts.Local.RepointedInv | mac80211/chan.c:1508-1528 | moving a link and freeing its former context keeps the invariant if and only if that context has users left or was not waiting for a replacement |
| ChannelContexts.Local.UseReservedReassign | mac80211/chan.c:1460-1540 | an unusable reservation changes nothing; a refusing driver loses the reservation but not the assignment; success moves the link with its reserved request and radar need; contexts without users are freed; the invariant is kept exactly unless a waiting context was freed |
| ChannelContexts.Local.AssignLinkChanctx | mac80211/chan.c:1018-1098 | the current assignment is dropped before the driver is asked, so a refusal leaves the link without a context |
| ChannelContexts.Local.UseReservedAssign | mac80211/chan.c:1543-1589 | the same for a link without a context: no leaked context when the driver refuses; always keeps the invariant |
| ChannelLaws.MovedLaw | mac80211/chan.c:1460-1589 | a used reservation of an ordinary context: where the link is afterwards, whose request and radar need it has, whether the reservation is left, for a driver that agrees or refuses, assigned before or not; contexts without users are freed |
| ChannelContexts.Local.StrandsIsOrphans | mac80211/chan.c:1963-1999 | after the link's own reservation is gone, freeing its context is wrong exactly if others reserved the replacement before |
| ChannelContexts.Local.ReleaseReservation | mac80211/chan.c:1976-1984 | the switch is to be retried exactly when the link reserves a replacement that another link reserves, too; the reservation is dropped |
| ChannelContexts.Local.ReleaseLink | mac80211/chan.c:1963-1992 | the state after both pointers are given up; the invariant is kept if and only if no context is stranded |
| ChannelLaws.ReleasedLaw | mac80211/chan.c:1963-1992 | only the link loses both contexts and its radar need; the contexts that no link points to any more are gone, and one whose replacement is gone is ordinary again |
| ChannelContexts.Local.Release | mac80211/chan.c:1963-1999 | for every driver answer: if another link reserves the same replacement, the switch is tried without the link and obeys the law of the switch, else nothing but the release happens; a link without a context changes nothing; keeps the invariant |
| ChannelLaws.ReleaseObeys | mac80211/chan.c:1963-1999 | the state after a release is the one the law gives, by who else reserves the replacement |
| ChannelLaws.OthersLand | mac80211/chan.c:1982-1998 | if the others on replaced contexts are ready and the driver agrees, a link that reserves the same replacement as the released one lands on it with its reserved request |
| ChannelContexts.Local.CountAssigned | mac80211/chan.c:1736-1754 | equal counts mean that all links of the old context reserve, and that all that reserve are ready |
| ChannelContexts.Local.CheckReservers | mac80211/chan.c:1756-1782 | ready exactly if every link about to swap is; the two counts tell whether some reserver moves and whether some does not |
| ChannelContexts.Local.CheckPair | mac80211/chan.c:1726-1783 | a pair can go if and only if all links on the old context have reservations and all that swap are ready; it can never finish if and only if one has none and all reservations there are ready; else it waits |
| ChannelContexts.Local.CheckSwitch | mac80211/chan.c:1726-1789 | the first pair in list order that is not ready decides, and the counts over all pairs |
| ChannelContexts.Local.DropNext | mac80211/chan.c:1954-1957 | clearing the reservation under the iterator: the iterator still goes on, and the last reserver takes the replacement with it |
| ChannelContexts.Local.DropReservers | mac80211/chan.c:1947-1960 | all reservers of a replacement lose it, it is gone, its partner is ordinary again; keeps the invariant |
| ChannelContexts.Local.Abandon | mac80211/chan.c:1947-1960 | every assigned pointer is unchanged, every reservation of a replacement dropped, no paired context left, exactly the replacements freed; keeps the invariant |
| ChannelContexts.Local.AbandonedIsUnwound | mac80211/chan.c:1947-1960 | the same on the whole records of links and contexts |
| ChannelContexts.Local.PointReservers | mac80211/chan.c:1838-1884 | each in-place reserver of a replacement is on it with its reserved request, all other links are untouched |
| ChannelContexts.Local.ClearReservers | mac80211/chan.c:1886-1894 | the reservations of links that are now on the context are cleared while iterating, no others |
| ChannelContexts.Local.RefuseDeferred | mac80211/chan.c:1903-1926 | every ready reservation that is left is refused and dropped while iterating, the others go on waiting, and the context keeps a user throughout |
| ChannelContexts.Local.TakeOver | mac80211/chan.c:1838-1926 | one replacement deals with all its reservers: they land, are refused, or wait; nothing else changes |
| ChannelContexts.Local.MoveAll | mac80211/chan.c:1838-1926 | the same for all pairs together |
| ChannelWorlds.LandMore | mac80211/chan.c:1838-1926 | pairs do not disturb each other: dealing with one after the other deals with all |
| ChannelContexts.Local.FreeReplaced | mac80211/chan.c:1933-1943 | exactly the replaced contexts are gone, every other one is ordinary and unpaired |
| ChannelWorlds.ExceptOneMore | mac80211/chan.c:1933-1943 | freeing contexts one by one during the walk amounts to removing the whole set |
| ChannelWorlds.GoMeansSourcesReserved | mac80211/chan.c:1736-1783 | a feasible switch has a reservation on every link of every replaced context |
| ChannelWorlds.SwapSound | mac80211/chan.c:1838-1945 | a completed switch keeps the invariant if and only if no link of a replaced context reserved something else |
| ChannelWorlds.SwapUses | mac80211/chan.c:1838-1945 | every context that is left has a user: with an anchor, no replacement is leaked |
| ChannelContexts.Local.InvView | mac80211/chan.c:1702-1961 | the invariant of the objects is the one of the value |
| ChannelContexts.Local.SomeReserver | mac80211/chan.c:1785-1789 | a pair has a reserver, so the second infeasibility check never fires |
| ChannelContexts.Local.Decide | mac80211/chan.c:1726-1832 | nothing moves before the decision; it is -EAGAIN for a wait, -EBUSY when stuck, -EINVAL without a pair, else the answer of the driver to those that swap, then to those that only join |
| ChannelContexts.Local.CommitSwitch | mac80211/chan.c:1838-1945 | the whole effect of the moves, the deferred re-assignments and the frees, and exactly when the invariant survives |
| ChannelWorlds.LandedAll | mac80211/chan.c:1838-1945 | all pairs dealt with and the replaced contexts freed make the complete swap |
| ChannelContexts.Local.UseReservedSwitch | mac80211/chan.c:1702-1961 | by who has a reservation and who is ready: -EAGAIN and no change exactly if the first held-up pair may still get ready, so whenever all have reservations and a link that swaps is late; -EBUSY and every reservation of a replacement dropped if it never can; otherwise the driver decides, and the swap moves everybody in place or everything is unwound; success keeps the invariant if and only if no link of a replaced context reserves something else |
| ChannelLaws.SwitchObeys | mac80211/chan.c:1702-1961 | every state and every answer of the driver obey the law of the switch, stated by links and readiness alone |
| ChannelContexts.Local.UseReservedContext | mac80211/chan.c:2104-2163 | refused without change if there is no reservation, it is ready already or going away; an ordinary one moves the link as in `MovedLaw`; for a replacement the law of the switch, with a wait reported as 0; the invariant is kept if and only if no waiting context was freed |
| ChannelLaws.UseObeys | mac80211/chan.c:2104-2163 | the three cases follow from the operations it calls |
| ChannelContexts.Local.FindChanctx | mac80211/chan.c:748-793 | the first ordinary shared compatible context, and only it, is marked as about to be used |
| ChannelContexts.Local.FindOrCreate | mac80211/chan.c:2001-2029 | a found context is reused and marked; else a new one is listed, unless no radio is free or the driver refuses |
| ChannelContexts.Local.PutOn | mac80211/chan.c:2075-2093 | the mark is cleared again; a refused new context is freed, a refused reused one stays |
| ChannelContexts.Local.EntersInv | mac80211/chan.c:2068-2093 | putting a link without a context on an ordinary one keeps the invariant |
| ChannelContexts.Local.TakeChannel | mac80211/chan.c:2068-2093 | the whole state afterwards: on the first context that will do, or on a new one listed first, or on none without leak or mark; keeps the invariant |
| ChannelContexts.Local.UseChannel | mac80211/chan.c:2031-2102 | keeps the invariant for every answer; a link with a context is first released, by the law for releases; then it takes the first ordinary shared compatible context or a new one listed first, or none, by the law for taking; the return value, the recorded request, and the radar requirement, which is lost when a context was given up on the way |
| ChannelLaws.TakeObeys | mac80211/chan.c:2001-2093 | the state after a context is taken, or was not, is the one the law gives |
| ChannelWorlds.RadarIsForgotten | mac80211/chan.c:1963-1999 | what a release does does not depend on the radar requirement recorded before it |
| ChannelRuns.Run | mac80211/chan.c:1227-2163 | from the start, any sequence of reserve, unreserve, use-reserved, use-channel and release calls keeps the invariant, whatever the driver answers; calls outside the conditions above are passed over |
| ChannelRuns.TwoLinkSwitch | mac80211/chan.c:1364-2163 | two links of one context reserve its replacement: the first use waits and reports 0, the second moves both and frees the old context, or, if the driver refuses, drops both reservations and the replacement |
| ChannelRuns.ReleaseCompletes | mac80211/chan.c:1963-1999 | one of the two is ready and waits; releasing the other one completes the switch for it |
| ChannelRuns.StrandedWorld | mac80211/chan.c:1364-2102 | a run of use, use, reserve, release and reserve after which the last link of a context would strand its replacement |
| ChannelRuns.StrandedRelease | mac80211/chan.c:1963-1999 | releasing it then breaks the pairing |
| ChannelRuns.CrossedWorld | mac80211/chan.c:1364-2102 | a run of use, use, reserve and reserve after which one link of a replaced context reserves the replacement and the other an ordinary context |
| ChannelRuns.CrossedGoes | mac80211/chan.c:1726-1783 | the switch there goes ahead when the first one is ready |
| ChannelRuns.DanglingSwitch | mac80211/chan.c:1838-1945 | it succeeds and leaves the invariant broken |
| BlockAckTx.OrderlyPhases | mac80211/agg-tx.c:296-426 | a log of driver actions stays in the session's state machine if and only if it is START, then at most one OPERATIONAL, then at most one stop followed by STOP_FLUSH_CONT only |
| BlockAckTx.MoveFrames | mac80211/agg-tx.c:231-253 | splicing moves exactly the held frames, in order |
| BlockAckTx.QueueFrames | mac80211/agg-tx.c:231-253 | frames of one TID in the shared queue are not disturbed by splices of others |
| BlockAckTx.MoveBalances | mac80211/agg-tx.c:231-253 | arrived frames are departed plus held ones, before and after a splice |
| BlockAckTx.HoldFrame | mac80211/tx.c:1155-1163 | the same when a frame joins; beyond 64 the oldest one leaves |
| BlockAckTx.JiffiesCompare | mac80211/agg-tx.c:699-712 | the wrapped comparison depends exactly on the true distance modulo the counter's range; so it is right up to half the range past the period |
| BlockAckTx.Queue.StopAgg | mac80211/agg-tx.c:152-165 | the queue is stopped while any stop is outstanding, so it is now, whoever stopped it before |
| BlockAckTx.Queue.WakeAgg | mac80211/agg-tx.c:167-178 | one stop is taken back; the queue runs again exactly if it was the last |
| BlockAckTx.Tid.constructor | mac80211/sta_info.h:281-297 | an idle TID satisfies the invariant |
| BlockAckTx.Tid.StartAnswer | mac80211/agg-tx.c:613-762 | the answer to a start by the first check that fails: refused after more than 15 requests since the last acceptance, or after more than three while the wrapped clock does not read late |
| BlockAckTx.Tid.StartIsThrottled | mac80211/agg-tx.c:692-724 | a start is accepted if and only if nothing is in the way, at most 15 requests are out, and after the burst the wrapped clock reads late; an accepted one is never too early |
| BlockAckTx.RefusedTooLate | mac80211/agg-tx.c:699-712 | four unanswered requests and a pause of half the counter's range past the period: a start is refused although the period is over |
| BlockAckTx.Tid.StartSession | mac80211/agg-tx.c:613-762 | the error by the first check that fails; only an accepted start leaves a session waiting, with the next dialog token |
| BlockAckTx.Tid.StopSession | mac80211/agg-tx.c:881-920 | marks the installed session, unless it is already stopping |
| BlockAckTx.Tid.DriverStarted | mac80211/agg-tx.c:859-878 | the start callback is noted at any time |
| BlockAckTx.Tid.DriverStopped | mac80211/agg-tx.c:959-978 | the stop callback is noted at any time |
| BlockAckTx.Tid.AddbaTimeout | mac80211/agg-tx.c:433-452 | a session that has no response when its own timer runs out is on its way out afterwards; any other is left alone |
| BlockAckTx.Tid.SessionTimeout | mac80211/agg-tx.c:589-611 | a session is marked for stop exactly when the wrapped counter shows it idle for its timeout, which within half the range is when it is |
| BlockAckTx.Tid.TxFrame | mac80211/tx.c:1108-1178 | a frame is held exactly while a session is being set up or torn down and the driver has no queue of its own; beyond 64 the oldest held one is dropped; the time of use is noted |
| BlockAckTx.Tid.Splice | mac80211/agg-tx.c:231-253 | the queue is stopped once more and gets the held frames at its end, none stays |
| BlockAckTx.Tid.Remove | mac80211/agg-tx.c:255-294 | a freed session has handed on all its frames, and the queue's stop count is what it was |
| BlockAckTx.Tid.SendAddba | mac80211/agg-tx.c:454-500 | at most one request per session, none for one that is to stop; the window is 64, up to 256 with HE, or the hardware maximum |
| BlockAckTx.Tid.BecomeOperational | mac80211/agg-tx.c:765-806 | held frames are handed on before the session is operational, and the stop count is what it was |
| BlockAckTx.Tid.Install | mac80211/ht.c:389-441 | the waiting session moves to its slot, which is always free, unless sessions are blocked or a fragmented frame is under way |
| BlockAckTx.Tid.BeginStart | mac80211/agg-tx.c:502-548 | START is the first thing a session tells the driver |
| BlockAckTx.Tid.FinishStart | mac80211/agg-tx.c:549-566 | a denied start is removed with its frames; otherwise the request is sent, unless the driver delays it or a stop came during START |
| BlockAckTx.Tid.StartCallback | mac80211/agg-tx.c:808-831 | with START_CB set and sessions not blocked it marks the driver ready: then a request that was delayed is sent unless a stop is wanted, or an answered session goes operational and its frames are handed on; a repeated callback changes neither; without START_CB or while blocked nothing happens |
| BlockAckTx.Tid.DriverReady | mac80211/agg-tx.c:808-831 | the first callback sends the delayed request, or goes operational exactly if answered |
| BlockAckTx.Tid.Stop | mac80211/agg-tx.c:296-426 | which sessions are freed at once, what a started one tells the driver for each reason, who is the initiator and whether the peer is told, and the three return values |
| BlockAckTx.Tid.StopWanted | mac80211/ht.c:428-433 | the worker turns a wanted stop into a local one |
| BlockAckTx.Tid.StopCallback | mac80211/agg-tx.c:923-957 | ends the session exactly if it was stopping; the peer is told exactly after a local stop by request |
| BlockAckTx.Tid.AddbaResponse | mac80211/agg-tx.c:982-1073 | an acceptance with the right token for a session that waits for it starts the request count afresh and makes a ready session operational, a repeated one changes nothing, a refusal or an empty window stops the session, a stray one is ignored |
| BlockAckTx.Tid.Run | mac80211/ht.c:352-454 | every interleaving of worker, driver, peer, timers, TX path and other TIDs keeps the invariant, and the queue's stop count is what it was before |
| BlockAckTx.Established | mac80211/agg-tx.c:502-1073 | start, driver callback and acceptance in turn: the session is operational with the negotiated window, the driver saw START and OPERATIONAL, and a frame that came early has been handed on |
| BlockAckTx.Tid.Guarantees | mac80211/agg-tx.c:296-831 | what the invariant means: orderly logs for live and freed sessions; OPERATIONAL implies SENT_ADDBA, DRV_READY, RESPONSE_RECEIVED and not STOPPING; at most 16 requests between acceptances, one per session, 15 s apart after the burst; no frame lost except at the cap, none duplicated or reordered |
| BlockAckRx.DriverAlternates | mac80211/agg-rx.c:58-115 | an unconfused driver's successful RX_STARTs and RX_STOPs strictly alternate, open after an odd number |
| BlockAckRx.Station.Granted | mac80211/agg-rx.c:338-350 | the granted window is at least one and within what both the peer's class and the device allow |
| BlockAckRx.Station.Stop | mac80211/agg-rx.c:58-115 | an open session is closed with one RX_STOP, a closed one is left alone; the peer is told exactly when we are the recipient and asked to |
| BlockAckRx.Station.OpenSession | mac80211/agg-rx.c:380-469 | one RX_START; the bit, the token and the reorder session appear exactly if the driver agrees |
| BlockAckRx.Station.Start | mac80211/agg-rx.c:274-469 | the status by the first check that fails; a repeated token changes no session; a new token closes the old session first; aggregation is expected exactly after a success; other TIDs are untouched |
| BlockAckRx.Station.TearDown | mac80211/ht.c:315-331 | no session is left, for the driver either |
| BlockAckRx.Station.Run | mac80211/agg-rx.c:58-469 | any sequence of requests, stops and teardowns keeps the invariant |
| BlockAckRx.Station.Guarantees | mac80211/agg-rx.c:58-469 | on every TID, at any time: strict alternation, the valid bit exactly while the driver's session is open, and the window within both limits |
| SignalAverage.DivByDb | iwlwifi/iwl-utils.c:86-109 | the loop takes at most ten decibels a step and never raises the value, so it stays a u32 |
| SignalAverage.LoweredError | iwlwifi/iwl-utils.c:86-109 | lowering by c decibels is multiplying by t^c with t^10 = 0.1, up to two units |
| SignalAverage.TableError | iwlwifi/iwl-utils.c:88-100 | each table entry is 2^32 * t^c up to five units |
| SignalAverage.ConstantIsHalf | iwlwifi/iwl-utils.c:178-189 | the constant of the thresholds is 65536 at half a decibel down, rounded down |
| SignalAverage.SumFits | iwlwifi/iwl-utils.c:136-164 | no sum of at most 255 readings overflows a u32, and the base stays in [-128, 0] |
| SignalAverage.SumBase | iwlwifi/iwl-utils.c:136-164 | the base is the strongest reading, down to -128, and counts in full |
| SignalAverage.SumKeeps | iwlwifi/iwl-utils.c:136-164 | the sum keeps for every reading the share of the weakest one, whatever the order in which the base rose |
| SignalAverage.SumError | iwlwifi/iwl-utils.c:136-164 | the fixed-point sum is the exact sum of powers up to two units down and 0.04 up per reading |
| SignalAverage.WholeSteps | iwlwifi/iwl-utils.c:171-186 | the search ends within 50 steps, at the first threshold that the mean reaches |
| SignalAverage.KeptEnough | iwlwifi/iwl-utils.c:171-186 | down to 24 dB, a reading's share stays above the threshold of its own level |
| SignalAverage.AverageNegDbm | iwlwifi/iwl-utils.c:111-194 | the loops compute the rounded mean of that sum, which `MeanIsAccurate` relates to the exact one; every intermediate value fits its type |
| SignalAverage.MeanBounds | iwlwifi/iwl-utils.c:111-194 | the result lies between the weakest and the strongest reading, at most 24 dB below the strongest, and is exact when all agree |
| SignalAverage.MeanIsAccurate | iwlwifi/iwl-utils.c:111-194 | the result is the exact mean of the powers rounded to a whole decibel: it is i dB below the strongest reading if and only if i is the first whole number whose threshold, half a decibel and i decibels down, the mean reaches, with the threshold shifted by at most 2.2/65536 of the strongest reading |
| SignalAverage.TwoReadings | iwlwifi/iwl-utils.c:111-194 | readings of -40 and -44 dBm and an invalid one average to -42 |
| Regulatory.StartsExact | iwlwifi/iwl-nvm-parse.c:2033-2040 | runs start exactly where flags change or a gap exceeds 20 MHz |
| Regulatory.RunIsMaximal | iwlwifi/iwl-nvm-parse.c:2033-2040 | each run is nonempty, unbroken, and cannot be extended |
| Regulatory.RunOf | iwlwifi/iwl-nvm-parse.c:2033-2040 | every valid channel lies in exactly one run |
| Regulatory.OneMore | iwlwifi/iwl-nvm-parse.c:2033-2062 | one more channel extends the last rule or starts one, and leaves the others alone |
| Regulatory.BuildRules | iwlwifi/iwl-nvm-parse.c:1995-2088 | the array holds one rule per maximal run, from 10 MHz below its first to 10 MHz above its last channel, or the dummy rule if no channel is valid; only for an empty list is there no slot for it |
| Regulatory.RuleCount | iwlwifi/iwl-nvm-parse.c:2033-2090 | between one rule and as many as valid channels; they fit in a slot per channel if and only if the list is not empty; without a valid channel the rule is 2412 to 2413 MHz |
| Regulatory.RuleIs | iwlwifi/iwl-nvm-parse.c:2033-2088 | every rule stands for a stretch of valid channels with its flags and gaps of at most 20 MHz, from 10 MHz below the first to 10 MHz above the last; the neighbours differ in flags or are farther off |
| Regulatory.RulesCover | iwlwifi/iwl-nvm-parse.c:2006-2088 | on every increasing list, a channel's 20 MHz lie inside some rule if and only if it is valid or the next valid channels on both sides have the same flags and are at most 20 MHz apart |
| Regulatory.RulesCoverValid | iwlwifi/iwl-nvm-parse.c:2006-2088 | so a channel at least 20 MHz from every other one is covered if and only if it is valid, whatever the rest of the list |
| Regulatory.InvalidIsCovered | iwlwifi/iwl-nvm-parse.c:2033-2044 | at 5 MHz spacing an invalid channel between two valid ones is covered |
| ChannelBands.NvmData.InitChannelMap | iwlwifi/iwl-nvm-parse.c:335-438 | the array holds the emitted channels in table order; 160 MHz support is noted exactly if some enabled channel keeps it |
| ChannelBands.TableIs | iwlwifi/iwl-nvm-parse.c:81-110 | the channel number at each position of both tables, and how much of a table each kind of device uses |
| ChannelBands.EmittedIs | iwlwifi/iwl-nvm-parse.c:325-438 | exactly the positions of valid channels are listed, all of them with LAR, none of positions 14 to 50 without the 5 GHz SKU, in increasing order, with number and band |
| ChannelBands.WideIs | iwlwifi/iwl-nvm-parse.c:366-390 | 160 MHz is on offer if and only if some channel allows it, valid or not, that is not on a 5 GHz band that is missing or kept narrow |
| ChannelBands.EmittedInBandOrder | iwlwifi/iwl-nvm-parse.c:325-438 | for all flags and settings, channels come band by band |
| ChannelBands.SliceIsBand | iwlwifi/iwl-nvm-utils.c:13-33 | on such an array the scanned stretch is the filter by band |
| ChannelBands.SlicesCover | iwlwifi/iwl-nvm-parse.c:1344-1411 | the three filters, one after the other, are the whole array |
| ChannelBands.NvmData.InitSbandChannels | iwlwifi/iwl-nvm-utils.c:13-33 | the first stretch of the band, and on an array in band order all of it |
| ChannelBands.NvmData.InitSbands | iwlwifi/iwl-nvm-parse.c:1344-1411 | the three slices are exactly the channels of their bands and n_used == n_channels always; without HE or in FIPS mode the 6 GHz slice is empty but counted |
| ExternalNvm.FixupChanges | iwlwifi/iwl-nvm-parse.c:2108-2119 | byte 3 becomes 0x22 exactly in a SKU section of at least five bytes of device 0x5501 whose MIMO-disable bit is set; nothing else changes, and twice is once |
| ExternalNvm.ReadExternalNvm | iwlwifi/iwl-nvm-parse.c:2143-2297 | the loop ends, never passes the end of the file, and stores in place what the recursive reader of the format stores, with the same error |
| ExternalNvm.HeaderBytes | iwlwifi/iwl-nvm-parse.c:2160-2293 | what the four header bytes say in both formats: size, id, end marker; a section that is empty, too long, cut off or of an id beyond 12 is refused |
| ExternalNvm.WordsFit | iwlwifi/iwl-nvm-parse.c:2160-2163 | both header formats give back size and id, and a nonempty section's header is never the zero marker |
| ExternalNvm.OneSection | iwlwifi/iwl-nvm-parse.c:2228-2291 | a written section in front is stored under its id after the fixup, and reading goes on behind it |
| ExternalNvm.ReadsWhatWasWritten | iwlwifi/iwl-nvm-parse.c:2228-2291 | any list of written sections and the marker are read back without error, whatever the ignored bits and the bytes after the marker |
| ExternalNvm.CutOff | iwlwifi/iwl-nvm-parse.c:2227-2291 | a written file cut off anywhere before the end of its marker is refused, with exactly the sections before the cut stored |
| ExternalNvm.LastSectionWins | iwlwifi/iwl-nvm-parse.c:2276-2287 | each id holds the last section written with it, other ids what they had |
| ExternalNvm.PrologueFile | iwlwifi/iwl-nvm-parse.c:2197-2223 | a file with a prologue is read back, or refused as too old for the device with nothing stored |
| ExternalNvm.ExtendedIsPlain | iwlwifi/iwl-nvm-parse.c:2197-2204 | in the extended format no written file begins like a prologue |
| ExternalNvm.StandardPrologue | iwlwifi/iwl-nvm-parse.c:2197-2204 | in the other format it does if and only if its first section has a certain id, size, first bytes and header bits |
| ExternalNvm.PlainFile | iwlwifi/iwl-nvm-parse.c:2197-2223 | every other file without a prologue is read back |
| ExternalNvm.LookalikeIsMisread | iwlwifi/iwl-nvm-parse.c:2197-2223 | a legitimate section whose first bytes spell the magic words is skipped as a prologue |
| FirmwareTlv.Pieces.Parse | iwlwifi/iwl-drv.c:1088-1825 | on any file of whole words the loop agrees with the recursive reader: same TLVs, same sections, same error, and the remaining length never underflows; a section too short for its offset is kept as one whose size has wrapped |
| FirmwareTlv.NumbersOf | iwlwifi/iwl-drv.c:1088-1384 | which TLV types belong to which image, and the bytes that mark a firmware file |
| FirmwareTlv.ByByte | iwlwifi/iwl-drv.c:793-820 | a section TLV byte by byte |
| FirmwareTlv.WrittenFront | iwlwifi/iwl-drv.c:1156-1170 | a padded TLV in front of a file is read back whole and skipped with its padding |
| FirmwareTlv.LoadsWhatWasWritten | iwlwifi/iwl-drv.c:1156-1815 | the loop visits exactly the written TLVs in order and ends with nothing left; each image's array is the in-order list of its sections, split into offset word and data |
| FirmwareTlv.LoadsFront | iwlwifi/iwl-drv.c:1156-1815 | the same for TLVs in front of anything else |
| FirmwareTlv.LoadStops | iwlwifi/iwl-drv.c:1156-1815 | a file cut off inside a TLV, or that goes on with a refused one, is an error; exactly the sections before it have been collected |
| FirmwareTlv.AllocUcodeMem | iwlwifi/iwl-drv.c:1827-1843 | with enough memory it copies every section in order, and fails exactly if one is empty or its size has wrapped |
| FirmwareTlv.LoadImage | iwlwifi/iwl-drv.c:1088-1843 | writing, parsing and copying give back every section of the image, and succeed if and only if each of its TLVs holds data behind the offset |
| Michael.BlockInverts | mac80211/michael.c:13-25 | every block step is a bijection on the state |
| Michael.XSwapBytes | mac80211/michael.c:13-25 | the swap exchanges the bytes in each half of a word |
| Michael.Rotations | mac80211/michael.c:13-25 | the other mixing steps are rotations of 32-bit words, and can be turned back |
| Michael.StandardBlocks | mac80211/michael.c:13-25 | two values of the block function, which fix the order and the amounts of its steps |
| Michael.FoldInverts | mac80211/michael.c:13-83 | folding words and unfolding them are inverse to each other |
| Michael.KeyRecovered | mac80211/michael.c:27-83 | for every message length the inverse fold from the code gives back the key |
| Michael.KeysSeparated | mac80211/michael.c:27-83 | for the same header and data, different keys give different codes |
| Michael.MicCtx.AddWord | mac80211/michael.c:13-25 | the in-place mixing is the block step of the standard |
| Michael.MicCtx.AddHeader | mac80211/michael.c:27-51 | the four assembled words are the words of DA, SA, priority and three zeros |
| Michael.MicCtx.Compute | mac80211/michael.c:53-83 | for every length the code is the fold over the little-endian words of the padded message (section 12.5.2.3 of IEEE 802.11-2016) |
| Michael.KnownAnswer | mac80211/michael.c:27-83 | the code of the empty message for the zero key and zero addresses is 82925c1ca1d130b8 |
| Michael.LastWord | mac80211/michael.c:64-76 | the backwards loop assembles the partial block under the padding byte |
| Michael.ToppedIsWord | mac80211/michael.c:64-76 | that is the word made of the left-over bytes, 0x5a and zeros |
| Michael.PaddedWords | mac80211/michael.c:53-83 | the words of the padded message are the header's, the data's, the topped tail and zero |
| ResetEscalation.RestartData.DetermineRestartMode | iwlwifi/iwl-trans.c:129-199 | the decision and the new record, by cases over TOP failure, TOP request, quiet time, list position and backoff |
| ResetEscalation.RestartData.Run | iwlwifi/iwl-trans.c:239-247 | a run of failures: a reset that is put off is not counted |
| ResetEscalation.EscalationLaw | iwlwifi/iwl-trans.c:129-199 | while failures come soon after the last counted one, the k-th decision is the larger of entry k and the floor, and past the list BACKOFF and the last entry alternate, however long a backoff lasts |
| ResetEscalation.QuickRun | iwlwifi/iwl-trans.c:129-199 | the decisions for the first nine (with TOP reset fourteen) failures of a device, one by one |
| ResetEscalation.OffTheWalk | iwlwifi/iwl-trans.c:157-199 | a failed TOP reset is answered by a PROD reset, a requested one is granted where supported, and both count; a failure during a reset never gets a software reset |
| ResetEscalation.StandingStep | iwlwifi/iwl-trans.c:184-199 | one failure moves the record from its standing before failure i to that before failure i+1, for any escalation list |
| ResetEscalation.QuietSpell | iwlwifi/iwl-trans.c:184-199 | seven quiet seconds restart the walk, unless a reset has been put off |

## Left out

- Channel contexts: add, remove and rollback inside the driver's context switch (mac80211/chan.c:1664-1700) are one answer of the driver.
- Channel contexts: what a context's channel definition is, width and rate control, idle state, WBRF, VLAN copies, SMPS, radar and TDLS; NAN interfaces; interfaces that come and go during an operation; stopping an interface whose deferred reservation was refused; `in_reconfig` and `assign_on_failure`; allocation failures.
- ChannelContexts.Local.UseReservedSwitch: a successful switch with a replacement whose reservers all only join and are all ready is not modelled; the code then frees that replacement in the middle of the walk.
- ChannelContexts.Local.Reserve: which radio a new context gets; `radio` and `onRadio` answer for all of them.
- ChannelContexts.Local.FindOrCreate: the choice of a radio is one answer.
- ChannelRuns.Run: passes over calls outside the conditions above, because the code then breaks the invariant, as `ChannelRuns.StrandedRelease` and `ChannelRuns.DanglingSwitch` show; the switch itself is run as part of use-reserved and release, never on its own, as in the code.
- BlockAckTx: pausing the driver's per-TID queues, the A-MSDU flag handed to them, timers as mechanisms, the contents of action frames, capability checks (one answer, `eligible`); the shared pending queue is never drained, it is the history of what was handed on.
- BlockAckTx.Tid.SessionTimeout: the conversion of time units to jiffies is an arbitrary function.
- BlockAckTx.Tid.AddbaResponse: the fields of an accepted response are recorded before the session is made operational, not partly after it; no step can come in between.
- BlockAckRx: the reorder buffer's frames, its timers, offloaded sessions started by the worker, and the response frames.
- Regulatory.BuildRules: the flags of a channel are abstract numbers; power limits, WMM rules, the country code and the final copy are not modelled; centres are above 20 MHz.
- Regulatory.RulesCoverValid: that a device's channel table is increasing is an assumption about the channel numbering of cfg80211, which is not part of this model.
- ChannelBands: regulatory flags and power of each channel, HT, VHT, HE and EHT capabilities.
- ExternalNvm.ReadExternalNvm: fetching the file, and allocation failure.
- ExternalNvm.PlainFile: not claimed to fail for every other file, because a later section with the same id can hide the one that was skipped.
- FirmwareTlv.Pieces.Parse: files of whole words; whether a TLV other than a section is accepted is an arbitrary answer, `accepts`; the old INST and DATA TLVs, the usniffer request and the debug configuration are not modelled; nor is the offset that the code reads behind a section TLV shorter than four bytes.
- FirmwareTlv.AllocUcodeMem: memory does not run out for any real size.
- Michael: reading the addresses and the priority out of the frame header; they are inputs.
- ResetEscalation.EscalationLaw: fewer than 2^32 failures, because the count wraps.
- ResetEscalation: the restart record exists (its allocation may fail), the TOP request is an input that a decision consumes, and the requeue and pending-bit handshake of the worker is not modelled.
- debugfs, tracing, crypto API wrappers, capability and register tables, the phy database and debug TLVs: bookkeeping.
