# A verified model of the receiver's hard cores

This project models, in Dafny, those parts of a satellite receiver's software
(`lib/`, `main/`, `timer.py`, `RecordTimer.py`) whose correctness depends on
state that several functions keep together, and proves what they promise.

* **Tuner linking and allocation.** FBC leaf tuners are linked into chains below
  root tuners, in a real and in a simulated list, together with enabled flags,
  use counts and LNB slot masks. `FbcChains` says what a chain is and what
  linking and unlinking do to it, `FbcStates` what the two lists and the masks
  keep together, `Allocator` what probing and the two allocation loops compute
  and what every run keeps, `FbcEpisodes` when real steps inside a simulation
  keep it, and `FbcLimits` a small receiver on which these properties end.
  `ResourceManager` is the code on heap objects, proved against those
  specifications, and `ChannelLending` adds the lending of use counts in
  `canAllocateChannel`. The score of a tuner is any function of the state.
* **Timers.** `Calendar` is the repetition of a timer, `TimerEntries` one record
  timer and what its activation does to it, `Timers` the two lists and the work
  loop that re-enters itself. The clock stands still during a call.
* **Threads.** `Threads` interleaves a controller and its worker over the
  semaphore, `m_alive` and `m_started`, one access at a time.
* **The recording pump.** `SourceSpans` and `FilePush`: whole runs over short
  reads, short writes, retries and span hopping.
* **Section CRC.** `Crc`: the table, the loop, the bit-serial register, the
  division of polynomials over GF(2) (Annex A of ISO/IEC 13818-1), and the
  meaning of a zero residue.
* **Channel queries.** `ChannelQuery`: tokenizer, clause editing, parser and
  filter, against a printer of queries.
* **Representations.** `RawFile` (split files), `IoBuffer` (a byte queue in
  blocks), `CData` (section 2.7 of XML 1.0), `Decoder` (devices reconciled with
  wanted settings).

Scores, clocks, kernel results, filter results, EPG and sanity-check answers,
and what `sscanf` reads, are parameters or arbitrary choices; every property
holds for all of them.

## What turned out not to hold

Each is stated with its exact condition, and most with a concrete state as well.

* A thread restarted without being joined first can fire an assertion:
  `m_alive` is cleared before the old worker has tested `m_started`, and the
  check in `runAsync` passes in between. `Threads.SafeIffDisciplined`: a
  sequence of calls is safe in every interleaving if and only if `kill` comes
  before every further start. The pump restarts without it when its thread has
  ended by itself: `stop` then returns before `kill` (`lib/base/filepush.cpp:328-350`).
* Probing leaves no trace only for a leaf that has none of the root's LNB bits
  (`Allocator.ProbeIsUndone`); a bit that both had is lost
  (`Allocator.ProbeLosesSharedBits`). In every reachable state a leaf that
  neither list links has no bits at all.
* A real step in the middle of a simulation episode can break the chains that the
  simulation relies on, because it writes into the simulated list what it has
  found in the real one. A real allocation keeps the invariant if and only if it
  links nothing or finds its place alike in both lists
  (`FbcEpisodes.RealTakeInside`); a real release if and only if it is not the last
  use of a leaf, or is the last use in both lists and finds the neighbours alike
  (`FbcEpisodes.RealReleaseInside`). Even a real query can: its probe takes away
  LNB bits that a simulated link has given, if and only if leaf and root share one
  (`FbcEpisodes.RealProbeInside`). `FbcLimits` runs from the start into a state
  where an allocation and a query do harm. `ResourceManager` therefore asks for
  simulated use to be over (`AtRest`), or for leaves without bits (`Bare`), before
  real calls.
* The two allocation loops agree in every reachable state, but not in every
  state: for all scores they find the same value if and only if frontends in use
  make no difference to which unused leaves have been answered for
  (`Allocator.LoopsAgreeExactly`). `allocateFrontendByIndex` reaches states where
  they disagree: it keeps the invariant if and only if it does not take a leaf
  (`Allocator.ByIndexKeepsInv`, `FbcLimits.BusyUnlinkedLeafBreaksAgreement`).
* The wake-up is never later than any pending activation, but it is within 100
  seconds of the last recalculation only, not of now. Adding an entry leaves it
  within 100 seconds of now if and only if the entry goes to the pending ones, or
  the wake-up was so before (`Timers.Timer.AddTimerEntry`, and the same of
  `Timers.Timer.TimeChanged`). While the clock has not gone back behind the last
  recalculation the bound always holds; after it has been set back, adding an
  entry that is over leaves the wake-up too far away
  (`Timers.WakeUpAfterClockSetBack`).
* A refused preparation is tried again later if and only if the record service was
  there to refuse it. If there is no service or no playable member of a group,
  nothing moves (`RecordTimer.py:181-193`), the entry stays due, and the work loop
  asks again at once (`TimerEntries.RefusalMovesOn`,
  `TimerEntries.UnavailableStaysDue`). That the loop ends is proved for answers
  other than this one.
* The pump can end before everything is written. A turn that reads takes a read of
  less than 188 bytes for the end of the file, also where more would come, and so
  a read error that is not retried; with a read of at least 188 bytes the end is
  found exactly where it is (`FilePush.FilePushThread.Turn`). A run that ends so
  has written everything if and only if no whole packet is left behind the
  position it has reached (`FilePush.FilePushThread.Thread`,
  `SourceSpans.CompleteIffNoPacketLeft`). `FilePush.ShortReadEndsRun`: a file of
  two packets, read short at its beginning, and nothing is written.
* What is handed out of a cue span always lies inside it if and only if the span
  begins at a packet, or ends in the packet it begins in
  (`SourceSpans.PartIsInside`); `SourceSpans.PartBeforeItsSpan` is a span that is
  left. It is never left by a packet or more, and a span that ends in the packet it
  begins in ends the playback (`SourceSpans.PartIsClose`).
* A repetition mask without one of the bits 0 to 6 makes `processRepeated` run for
  ever (`Calendar.NoDayNeverFits`).
* A printed query is understood if and only if its values are not empty, contain
  no quote and are not `)`, `ORDER` or `FROM`
  (`ChannelQuery.PrintedQueryCompiles`). `!=` is the negation of `==` unless
  `type 1` is asked of a television service of Dish
  (`ChannelQuery.NegationNegates`).
* Text put into CDATA comes back if and only if it contains no NUL
  (`CData.TextComesBack`).
* `pause`, `setTrickmode`, `setFastForward` and `setSlowMotion` do not apply
  pending PID changes when the decoder is in that state already: their contracts
  say exactly when everything is applied.

## Model

| member | source | states |
|---|---|---|
| FbcChains.ChainsAreDetermined | lib/dvb/fbc.cpp:434-544 | two lists with the shape of chains that link the same leaves below the same roots agree in every pointer: slot order leaves no choice |
| FbcChains.Climb | lib/dvb/fbc.cpp:289-300 | the walk over previous pointers ends, and ends at the top of the chain |
| FbcChains.ChainIsWalk | lib/dvb/fbc.cpp:302-313 | the walk over next pointers ends, can be taken back pointer by pointer, and meets its leaves in strictly increasing slot order |
| FbcChains.ChainMembers | lib/dvb/fbc.cpp:289-313 | the chain of a root holds the root and exactly the leaves whose top it is |
| FbcChains.ChainGrows | lib/dvb/fbc.cpp:446-454 | every leaf further down has a larger slot, so no chain meets a leaf twice |
| FbcChains.SameTopIsOneLine | lib/dvb/fbc.cpp:446-454 | of two leaves below one root the smaller slot is above the larger |
| FbcChains.PrevIsPredecessor | lib/dvb/fbc.cpp:446-457 | a leaf's previous pointer is its predecessor among the leaves below its root |
| FbcChains.InsertPointStep | lib/dvb/fbc.cpp:447-454 | one turn of the search for the place of a leaf stops or goes on exactly where the place says |
| FbcChains.InsertKeepsShape | lib/dvb/fbc.cpp:446-460 | linking an unlinked leaf below a root at its place keeps all chains well formed |
| FbcChains.InsertTops | lib/dvb/fbc.cpp:446-460 | it puts that leaf below that root and moves no other leaf |
| FbcChains.InsertFrame | lib/dvb/fbc.cpp:326-340 | it changes no use count, no other enabled flag and no tuner outside FBC |
| FbcChains.RemoveKeepsShape | lib/dvb/fbc.cpp:508-516 | taking a linked leaf out of its chain keeps all chains well formed |
| FbcChains.RemoveTops | lib/dvb/fbc.cpp:508-516 | it moves no other leaf |
| FbcChains.RemoveFrame | lib/dvb/fbc.cpp:342-362 | it changes no use count, no other enabled flag and no tuner outside FBC |
| FbcStates.InitialIsInv | lib/dvb/fbc.cpp:78-157 | unlinked, disabled leaves without LNB bits and no use at all satisfy the invariant |
| FbcStates.MirrorAtRest | lib/dvb/fbc.cpp:462-481 | with no simulated use, the simulated chains equal the real ones pointer for pointer, and enabled flags leaf for leaf |
| FbcStates.UnicableMeans | lib/dvb/fbc.cpp:206-222 | a slot is unicable iff the first LNB that it may use has a SatCR index |
| FbcStates.LinkedIsNotUnicable | lib/dvb/fbc.cpp:206-222 | a linked leaf is never unicable, so unLink is never wrongly skipped |
| FbcStates.CanLinkExactly | lib/dvb/fbc.cpp:576-579 | canLink holds of exactly the unlinked leaves that no unicable LNB of their own keeps apart |
| FbcStates.InvIsBare | lib/dvb/fbc.cpp:576-579 | a leaf that can be linked has no LNB bits: in the simulated list in every reachable state, in the real list in every one without simulated use |
| FbcStates.RealAddLinkMirrors | lib/dvb/fbc.cpp:462-481 | where the place found in the real chain has the same successor in the simulated one, it is the right place there too |
| FbcStates.RealUnlinkMirrors | lib/dvb/fbc.cpp:518-535 | where the neighbours are the same in both lists, the simulated leaf is taken out of its own chain too |
| FbcStates.UpdateMaskBits | lib/dvb/fbc.cpp:546-574 | copying gives slot dest the bits of src besides its own; removing takes those of src away; no other slot changes |
| FbcStates.AddLinkIsThere | lib/dvb/fbc.cpp:462-481 | a leaf that a simulation has already linked where it belongs can be linked there for real without any other change |
| FbcStates.AddLinkKeepsStructure | lib/dvb/fbc.cpp:434-491 | addLink, simulated or where both lists are alike, keeps chains, the agreement of links and the masks, and links that one leaf only |
| FbcStates.UnlinkKeepsStructure | lib/dvb/fbc.cpp:495-544 | unLink of an unused linked leaf, simulated or where both lists are alike, is not skipped, keeps chains, links and masks, and unlinks that one leaf only |
| FbcStates.TakeKeepsInv | lib/dvb/dvb.cpp:537-546 | what allocateFrontend does with its choice keeps the invariant, if it is simulated or finds both lists alike |
| FbcStates.ReleaseKeepsInv | lib/dvb/dvb.cpp:30-41 | destroying an allocation keeps the invariant, if it is simulated or finds both lists alike |
| FbcStates.ReleaseLinks | lib/dvb/dvb.cpp:30-41 | it unlinks exactly a leaf whose last use, real or simulated, it gives back |
| FbcStates.EpisodeRestores | lib/dvb/fbc.cpp:493-544 | a simulation that has released everything has changed nothing in either list or in any mask |
| Allocator.ProbeMeans | lib/dvb/fbc.cpp:392-405 | a leaf is scored linked behind the end of the root's chain, enabled, and with the root's LNB bits besides its own, and everything else is as it was |
| Allocator.ProbedIsUnique | lib/dvb/fbc.cpp:392-405 | that decides the state it is scored in |
| Allocator.QualifiesMeans | lib/dvb/fbc.cpp:368-391 | a leaf is tried below exactly the enabled roots of its set that are in use and not unicable |
| Allocator.ProbeIsUndone | lib/dvb/fbc.cpp:392-425 | linking, enabling and masking a leaf for its score, and undoing it, restores every pointer, flag and mask |
| Allocator.ProbeLosesSharedBits | lib/dvb/fbc.cpp:424-425 | a leaf that shared an LNB bit with the root has lost it after the probe |
| Allocator.ProbeChain | lib/dvb/fbc.cpp:414-416 | the three assertions of a probe: the leaf has no next, its previous is the old end of the chain, and it is last in the chain |
| Allocator.BestRootIsFirstMaximum | lib/dvb/fbc.cpp:364-431 | the reported score is the maximum over all qualifying roots, zero iff no root is reported, and the root is the first that attains it |
| Allocator.LoopVariables | lib/dvb/dvb.cpp:495-510 | the two loop variables hold the set of the last linkable leaf, and whether one has been probed |
| Allocator.OfferMeans | lib/dvb/dvb.cpp:495-514 | only the first linkable leaf in a run of one FBC set is probed, every other frontend is scored as it stands |
| Allocator.ScansAgree | lib/dvb/dvb.cpp:970-998 | the two loops carry the same set, flag and best value although one skips tuners in use |
| Allocator.AllocationAgrees | lib/dvb/dvb.cpp:479-554 | a frontend is allocated iff canAllocateFrontend is positive, and it is the first unused one whose score is that value |
| Allocator.AllBusyMeans | lib/dvb/dvb.cpp:548-553 | with scores that are not negative, "all busy" is answered iff nothing can be allocated and a busy frontend scores |
| Allocator.ChoiceIsLegal | lib/dvb/dvb.cpp:491-546 | for every score function, the choice is an unused frontend, with a qualifying root iff it needs one |
| Allocator.LoopsAgreeExactly | lib/dvb/dvb.cpp:970-998 | whatever the scores, both loops find the same value iff frontends in use make no difference to which unused leaves have been answered for |
| Allocator.CanAllocateIsMaximum | lib/dvb/dvb.cpp:970-998 | canAllocateFrontend is the largest offer of the unused frontends, or 0 |
| Allocator.ByIndexKeepsInv | lib/dvb/dvb.cpp:556-608 | allocateFrontendByIndex succeeds for an FBC tuner iff it is unused with nothing linked below it, and keeps the invariant iff that is not a leaf |
| Allocator.AllocationCounts | lib/dvb/dvb.cpp:25-28 | what is allocated was not in use; its count goes up by one and no other count changes; without an allocation nothing does |
| Allocator.ReleaseCounts | lib/dvb/dvb.cpp:30-41 | a release takes one use away there and nowhere else |
| Allocator.UsesAreBalanced | lib/dvb/dvb.cpp:25-41 | in every run each use count, real or simulated, is the number of allocations of the frontend less the number of its releases |
| Allocator.NotAllocatedTwice | lib/dvb/dvb.cpp:479-554 | what has been allocated is in use, and not handed out again before it is released, whatever the scores |
| Allocator.NextKeepsInv | lib/dvb/dvb.cpp:479-554 | every legal step, real or simulated, keeps the invariant |
| Allocator.RunsKeepInv | lib/dvb/dvb.cpp:479-554 | every state of every run of allocations and releases satisfies the invariant |
| Allocator.EpisodeIsInvisible | lib/dvb/dvb.cpp:25-41 | a whole simulated episode that gives everything back ends in the state it started from |
| FbcEpisodes.RealAddLinkShape | lib/dvb/fbc.cpp:462-481 | a real addLink leaves well formed simulated chains iff it finds the place, or the leaf itself, there as in the real list |
| FbcEpisodes.RealUnlinkShape | lib/dvb/fbc.cpp:518-535 | a real unLink leaves well formed simulated chains iff the leaf has the same neighbours in both lists |
| FbcEpisodes.RealTakeInside | lib/dvb/dvb.cpp:537-546 | a real allocation at any moment keeps the invariant iff it links nothing or finds its place alike |
| FbcEpisodes.RealReleaseInside | lib/dvb/dvb.cpp:30-41 | a real release at any moment keeps the invariant iff it is not the last real use of a leaf, or the leaf has no simulated use and the same neighbours |
| FbcEpisodes.RealProbeInside | lib/dvb/fbc.cpp:392-425 | a real probe at any moment restores the state, and even the structure, iff leaf and root share no LNB bit; if they do, the leaf is linked in a simulation |
| FbcLimits.MidEpisodeIsReached | lib/dvb/dvb.cpp:479-554 | a run of three allocations leads from the start into the middle of a simulation episode |
| FbcLimits.RealStepInsideEpisodeBreaksChain | lib/dvb/fbc.cpp:462-481 | in that state a real allocation that the choice allows breaks the invariant |
| FbcLimits.RealQueryInsideEpisodeBreaksMasks | lib/dvb/fbc.cpp:424-425 | in that state a leaf that can be linked for real has an LNB bit, and a real probe of it takes the bit away |
| FbcLimits.BusyUnlinkedIsReachedByIndex | lib/dvb/dvb.cpp:556-608 | taking a leaf by its slot leads to a busy unlinked leaf |
| FbcLimits.BusyUnlinkedLeafBreaksAgreement | lib/dvb/dvb.cpp:970-998 | in that state canAllocateFrontend is positive while allocateFrontend answers all busy |
| ResourceManager.FrontendList.ConnectLink | lib/dvb/fbc.cpp:326-340 | the pointer writes on the heap make exactly the linked list |
| ResourceManager.FrontendList.DisconnectLink | lib/dvb/fbc.cpp:342-362 | the pointer writes on the heap make exactly the list without the leaf |
| ResourceManager.FrontendList.FindPlace | lib/dvb/fbc.cpp:446-454 | the search loop ends at the place in slot order |
| ResourceManager.FrontendList.GetTop | lib/dvb/fbc.cpp:289-300 | the loop ends, at the end of the climb |
| ResourceManager.FrontendList.GetLast | lib/dvb/fbc.cpp:302-313 | the loop ends, at the end of the walk |
| ResourceManager.Sec.IsUnicable | lib/dvb/fbc.cpp:206-222 | the loop decides by the first LNB the slot may use |
| ResourceManager.Sec.UpdateSlotMask | lib/dvb/fbc.cpp:546-574 | the loop over the LNBs updates every mask as specified |
| ResourceManager.Manager.IsFeUsed | lib/dvb/fbc.cpp:224-242 | used here or in the other list |
| ResourceManager.Manager.CanLink | lib/dvb/fbc.cpp:576-579 | decides canLink on the heap |
| ResourceManager.Manager.ProbeLeaf | lib/dvb/fbc.cpp:392-425 | scores the leaf linked, enabled and with the root's LNB bits, all else being as it was, and leaves the whole state as it was |
| ResourceManager.Manager.IsCompatibleWith | lib/dvb/fbc.cpp:364-431 | returns the best score and root of the specification, and changes nothing |
| ResourceManager.Manager.AddLink | lib/dvb/fbc.cpp:434-491 | the new state of both lists and all masks is the specified one |
| ResourceManager.Manager.UnLink | lib/dvb/fbc.cpp:495-544 | the new state is the specified one, with its guard |
| ResourceManager.Manager.CanAllocateFrontend | lib/dvb/dvb.cpp:962-1000 | returns the value of the specification, and changes nothing |
| ResourceManager.Manager.ChooseFrontend | lib/dvb/dvb.cpp:479-535 | the loop computes the scan of the specification, and changes nothing |
| ResourceManager.Manager.AllocateFrontend | lib/dvb/dvb.cpp:479-554 | in every reachable state the answer and the new state are those of one step, the invariant holds again, the frontend was free, and one use of it is counted and nothing else |
| ResourceManager.Manager.ReleaseFrontend | lib/dvb/dvb.cpp:30-41 | the new state is that of one release step, the invariant holds again, and one use of the frontend is given back and nothing else |
| ChannelLending.LentExactlyOnce | lib/dvb/dvb.cpp:1053-1168 | exactly the channels that only FCC, the ignored service or the cache keep give up their frontend, and each once, however these overlap |
| ChannelLending.FirstActiveIsActive | lib/dvb/dvb.cpp:1044-1052 | a channel is found by its id iff there is an entry with it, and then it is the first one |
| ChannelLending.LentIffNoOthers | lib/dvb/dvb.cpp:1077-1160 | with two uses by each FCC service and by the ignored service, one by the cache, and others by others, a channel that these use gives up its frontend, once, iff there are no others |
| ChannelLending.LendAll | lib/dvb/dvb.cpp:1056-1168 | the loops lend exactly those counts |
| ChannelLending.Repay | lib/dvb/dvb.cpp:1187-1199 | giving everything back restores every use count |
| ChannelLending.AskWithSpares | lib/dvb/dvb.cpp:1053-1201 | the answer is the best score with the spare frontends free, and the state is unchanged on every exit |
| ChannelLending.AnswerIsEarly | lib/dvb/dvb.cpp:1034-1052 | the default is answered for a channel that is cached, unless this is a simulation, or active |
| ChannelLending.AnswerFrees | lib/dvb/dvb.cpp:1053-1201 | otherwise the best score in the state in which each frontend has as many uses less as channels without other users have it |
| ChannelLending.CanAllocateChannel | lib/dvb/dvb.cpp:1029-1202 | the same of the whole function, with its early answer for an active channel |
| Calendar.WeekdayMeans | timer.py:67-79 | tm_wday picks the mask's bit of the day, in weeks that begin on Monday on the zone's clock |
| Calendar.SomeDayFits | timer.py:79-84 | with a weekday selected, some day offset satisfies the loop's exit |
| Calendar.SomeDayFitsFirst | timer.py:79-84 | so there is a first one |
| Calendar.WeekdayComes | timer.py:67-79 | from any day on, every weekday comes within seven days |
| Calendar.NoDayNeverFits | timer.py:67-84 | without a bit in 0 to 6 no day offset ever satisfies it |
| Calendar.StaysPut | timer.py:79-88 | where the timer has been moved to, asking again moves nothing |
| TimerEntries.TimerEntry.FirstDayThatFits | timer.py:57-84 | the loop ends, on exactly the first day that fits |
| TimerEntries.TimerEntry.ProcessRepeated | timer.py:51-96 | begin and end move by k whole days, the least number after which the begin lies on a day of the mask and not before the first day of the repetition, and the end, or the begin, in the future; an empty interval becomes one second |
| TimerEntries.MayStayMeans | timer.py:79-84 | the loop goes on exactly while that is not so |
| TimerEntries.MovedLands | timer.py:79-96 | where a repeated entry is moved is the first such day |
| TimerEntries.MovedIsNotOver | timer.py:163-170 | after repetition a repeated entry is not over, so what is over, ended or disabled can be told before |
| TimerEntries.TimerEntry.DoBackoff | RecordTimer.py:226-232 | the next back-off, and nothing else changes |
| TimerEntries.TimerEntry.TryPrepare | RecordTimer.py:177-224 | accepted iff it is a zap timer or everything could be prepared; a refusal by the record service moves the preparation back, a missing service moves nothing |
| TimerEntries.TimerEntry.SetAutoincreaseEnd | RecordTimer.py:319-338 | prolonged iff allowed and the new end, cut by a conflict, lies in the future; otherwise nothing changes |
| TimerEntries.TimerEntry.Activate | RecordTimer.py:235-317 | a preparation is accepted iff it is a zap timer's or succeeds, a start iff the entry is cancelled, a zap timer or the recording starts, an end always; the entry changes as each of these says, with the back-off in seconds |
| TimerEntries.ActivatedMeans | RecordTimer.py:235-317 | the same of the specification |
| TimerEntries.TimerEntry.Advance | timer.py:247-259 | an entry that is over ends; one that is accepted, as above, goes on one state, and one that is refused stays in its state |
| TimerEntries.AdvancedMeans | timer.py:247-259 | the same of the specification, on which the work loop rests |
| TimerEntries.Backoffs | RecordTimer.py:226-232 | the tries are 5, 10, 20, 40, 80 and 100 seconds apart |
| TimerEntries.RefusalMovesOn | RecordTimer.py:177-224 | a refused activation of a due entry has its next one in the future iff the record service was there to refuse |
| TimerEntries.UnavailableStaysDue | RecordTimer.py:181-193 | without it the entry stays due, and asking again changes nothing |
| TimerEntries.AcceptedIsFurther | timer.py:255-259 | an accepted entry is one state further with its times, or is running with a prolonged end |
| TimerEntries.AdvancedDoesLess | timer.py:247-274 | a due entry ends or has strictly less left to do |
| TimerEntries.DoomedStaysDoomed | RecordTimer.py:738-748 | an aborted entry is due in every state, and each activation brings it to a later one, still aborted |
| TimerEntries.MovedIsUnique | timer.py:51-96 | the day that a repeated entry is moved to is determined by the entry |
| TimerEntries.EvolvesJoins | timer.py:247-282 | sequences of activations and revivals of an entry, one after the other, are one such sequence |
| TimerEntries.EvolvesMeans | timer.py:276-282 | such a sequence leaves alone an entry that is not due, and a finished one unless the clock was set back |
| Timers.Insort | timer.py:163-177 | in a sorted list, bisection finds the place behind all keys that are not larger |
| Timers.QueuedOk | timer.py:177 | inserting there keeps the list sorted and every entry in one list |
| Timers.TakenFromPending | timer.py:234-240 | taking an entry out keeps all that of the others |
| Timers.Place | timer.py:237-240 | an entry is in the list of pending ones or of finished ones as its state says |
| Timers.Once | timer.py:209-217 | no entry is twice in a list |
| Timers.WorkInserted | timer.py:247-274 | the work left in a list grows by the rank of what is inserted, wherever it goes |
| Timers.Timer.Enqueue | timer.py:163-177 | an entry goes to the pending ones iff, once repeated, it is neither over nor ended nor disabled; otherwise it is finished |
| Timers.Timer.DoActivate | RecordTimer.py:468-495 | the first due entry is ended or activated as its activation says; unless it ends and repeats, it has exactly that state and no other entry changes; if it does, nothing is due afterwards; the work left strictly falls |
| Timers.Timer.AddTimerEntry | timer.py:163-179 | queued iff it goes; then nothing is due, and the wake-up is the earlier of the first activation and now plus 100; otherwise nothing but the entry changes; the wake-up is within 100 seconds of now iff it goes or the wake-up was |
| Timers.WakeUpAfterClockSetBack | timer.py:163-177 | after the clock was set back, an entry that is over leaves the wake-up more than 100 seconds away |
| Timers.Timer.ReviveAll | timer.py:210-217 | after a clock set back every finished entry waits again iff it repeats or its end lies in the future, and is not disabled; pending ones are unchanged |
| Timers.Timer.CalcNextActivation | timer.py:209-232 | nothing is due, no pending activation comes before the wake-up, which is the earlier of the first one and now plus 100; every entry has come to its state by activations, and revivals if the clock was set back, and by nothing else |
| Timers.Timer.ProcessActivation | timer.py:276-282 | the loop ends for every finite set of entries, and then no pending entry is due; every entry has come to its state by a finite sequence of activations |
| Timers.Timer.WakeUpIs | timer.py:221-232 | the wake-up is now plus 100, or the first activation if that comes earlier |
| TimerEntries.RevivedMeans | timer.py:27-32 | a revived entry waits anew iff it is not disabled and repeats or ends in the future |
| TimerEntries.ChangedGoes | timer.py:234-245 | an edited entry goes iff it is prepared or running, or is not disabled and repeats or ends in the future |
| Timers.Timer.TimeChanged | timer.py:234-245 | an edited entry leaves its list, and is queued iff it goes once a finished one waits again; otherwise it is finished and nothing else changes; the wake-up as when adding |
| Timers.Timer.AbortEntry | RecordTimer.py:741-750 | whatever its state, the aborted entry has ended |
| Timers.Timer.ProlongBeside | RecordTimer.py:756-759 | prolonging another entry, and the work that follows, leaves it ended |
| Timers.Timer.RemoveEntry | RecordTimer.py:738-762 | the entry is in the list of finished ones when it is removed from there, whatever its state was and whatever else was prolonged, and is in no list afterwards |
| Threads.ControllerKeepsInv | lib/base/thread.cpp:34-126 | every controller step keeps the one token that is in the semaphore, held, or owed by the worker |
| Threads.WorkerKeepsInv | lib/base/thread.cpp:7-28 | every worker step keeps it |
| Threads.RunsKeepInv | lib/base/thread.cpp:7-133 | so does every interleaving |
| Threads.AtMostOneBody | lib/base/thread.cpp:62-77 | in every interleaving of every program, a thread is created only where there is none, so at most one body runs |
| Threads.DisciplinedIsSafe | lib/base/thread.cpp:92-103 | no check and no assertion fires, the semaphore is 0 or 1, sync returns 0 only with no body running and 1 only with a thread there, every start succeeds, run returns only after the worker has started or completed |
| Threads.CallsAreNotStuck | lib/base/elock.cpp:62-94 | a call never waits for ever on a worker that cannot move |
| Threads.UndisciplinedFails | lib/base/thread.cpp:34-77 | a start without a join is reached with the old worker between its two accesses, and then an assertion fires |
| Threads.SafeIffDisciplined | lib/base/thread.cpp:34-126 | a program of calls is safe in every interleaving iff it joins before every further start |
| SourceSpans.Align | lib/dvb/dvb.cpp:1575-1588 | the nearest multiple of 188 toward zero |
| SourceSpans.GetNextSourceSpan | lib/dvb/dvb.cpp:1769-1849 | the first span whose aligned end lies behind the aligned offset is handed out, from there or from its own beginning; of spans of whole packets, the first offset still to be played, within one span, and empty iff nothing is left |
| SourceSpans.PartIsClose | lib/dvb/dvb.cpp:1771-1797 | what is handed out of a span that is not made of whole packets begins and ends within a packet of it, and is empty iff it ends in the packet it begins in |
| SourceSpans.PartIsInside | lib/dvb/dvb.cpp:1771-1797 | it lies inside the span from every offset on iff the span begins at a packet or ends in the packet it begins in |
| SourceSpans.PartBeforeItsSpan | lib/dvb/dvb.cpp:1774-1783 | a span from 200 to 400 asked for at 188 is played from 188 |
| SourceSpans.PlayedSkips | lib/dvb/dvb.cpp:1769-1806 | moving over offsets outside all spans plays nothing |
| SourceSpans.StreamGrows | lib/base/filepush.cpp:283-289 | reading on inside one span continues what is to be played |
| SourceSpans.PlayedIsMonotone | lib/base/filepush.cpp:206-212 | what is to be played before an earlier offset is a prefix of what is to be played before a later one |
| FilePush.FilePushThread.WrittenIsPrefix | lib/base/filepush.cpp:99-296 | with a filter that drops nothing, as the default one, what has been written is at every moment a prefix of the concatenated spans |
| FilePush.FilePushThread.Filter | lib/base/filepush.cpp:126-142 | each byte is given to the filter once and in order, and what it keeps is next to be written |
| FilePush.FilePushThread.Write | lib/base/filepush.cpp:152-188 | exactly the bytes that the kernel has accepted are written and leave the buffer; an error that is not to be retried, or a write of nothing, ends the loop |
| FilePush.FilePushThread.NextSpan | lib/base/filepush.cpp:206-212 | asking for a span skips nothing that is to be played |
| FilePush.FilePushThread.Fill | lib/base/filepush.cpp:214-289 | a read is cut to whole packets, and the position moves by those; the rest is read again |
| FilePush.FilePushThread.Turn | lib/base/filepush.cpp:99-296 | what waits is filtered and written before more is read; a read below 188 bytes, or an error that is not retried, is taken for the end, a longer read iff nothing is left; and when the loop ends |
| SourceSpans.NothingLeftMeans | lib/base/filepush.cpp:248-276 | with less than a packet left of the file, or no span in it, all whole packets have been played |
| SourceSpans.CompleteIffNoPacketLeft | lib/base/filepush.cpp:244-276 | all whole packets in front of the end have been played iff none is left behind the position |
| FilePush.FilePushThread.Thread | lib/base/filepush.cpp:99-296 | every run, wherever it is stopped, has written a prefix; one that takes the end to be reached has written all it has read, which is everything iff no packet is left, as it is after a last read that was not cut short; a first read that is short or fails ends it with nothing written |
| FilePush.ShortReadEndsRun | lib/base/filepush.cpp:236-276 | two packets, a first read of 100 bytes, and the run ends with nothing written |
| Crc.TableIsEightSteps | lib/dvb/crc32.cpp:99-163 | each of the 256 entries is eight steps of the register from its index |
| Crc.TableStepOnBits | lib/dvb/crc32.h:16-18 | one look-up feeds the register with the eight bits of the byte, most significant first |
| Crc.TableLoopIsSerial | lib/dvb/crc32.h:12-20 | for every start value and string the table loop is the bit-serial register |
| Crc.SerialIsDivision | lib/dvb/crc32.h:12-20 | the register is the remainder of the message times x^32, with the start value added to its front, by the generator 0x04C11DB7 |
| Crc.TableLoopIsDivision | lib/dvb/crc32.h:12-20 | so the table loop is polynomial division |
| Crc.Crc32 | lib/dvb/crc32.h:12-20 | the method's result is that remainder |
| Crc.SerialIsLinear | lib/dvb/crc32.h:12-20 | the register is linear over GF(2) in contents and message |
| Crc.SerialIsInjective | lib/dvb/crc32.h:12-20 | the same message keeps different contents different |
| Crc.ZeroResidue | lib/dvb/demux.cpp:170-179 | up to 32 message bits drive the register to zero iff they are what it holds |
| Crc.PassesWithItsCrc | lib/dvb/demux.cpp:170-179 | a section has residue zero iff it has four bytes and the last four are the big-endian CRC of the rest |
| Crc.SectionRead | lib/dvb/demux.cpp:152-184 | a section is handed on iff it could be read, the reader is active and, if checked, its CRC is right |
| Crc.BurstIsDetected | lib/dvb/demux.cpp:170-179 | two accepted sections of one length never differ within 32 consecutive bits only |
| ChannelQuery.DecodeType | lib/dvb/db.cpp:1752-1771 | a text that is decoded is the name of that kind, and one that is not is no kind's name |
| ChannelQuery.DecodesItsName | lib/dvb/db.cpp:1752-1771 | every name of a kind is decoded to that kind |
| ChannelQuery.Names | lib/dvb/db.cpp:1752-1771 | the seven names, letter by letter |
| ChannelQuery.Tokenize | lib/dvb/db.cpp:1912-1946 | the loop yields the tokens of the specification |
| ChannelQuery.TokensAreTokenlike | lib/dvb/db.cpp:1912-1946 | no token is empty or contains a quote |
| ChannelQuery.PiecesAreTokens | lib/dvb/db.cpp:1912-1946 | any text of parentheses, spaces, separated words and quoted strings is cut into exactly those |
| ChannelQuery.OneCut | lib/dvb/db.cpp:1912-1946 | letters and digits are cut from other characters without a space between |
| ChannelQuery.EditTokens | lib/dvb/db.cpp:1953-1991 | the loop that erases from the list yields the specified clauses |
| ChannelQuery.EditLeavesNoClause | lib/dvb/db.cpp:1953-1991 | no ORDER or FROM is left, and what is left was there before |
| ChannelQuery.BadClauses | lib/dvb/db.cpp:1953-2000 | clauses that are cut short or unknown: which reject the query, which are dropped, and which read past the end |
| ChannelQuery.ParseExpression | lib/dvb/db.cpp:1773-1903 | the recursive parser yields the specified tree or error code |
| ChannelQuery.ComparisonsParse | lib/dvb/db.cpp:1834-1903 | three words are a comparison iff the first names a kind and the second is == or !=, and what is compared then; otherwise the error is 1 |
| ChannelQuery.UnclosedParses | lib/dvb/db.cpp:1780-1792 | a parenthesis that is not closed is error -1 |
| ChannelQuery.ClosedParses | lib/dvb/db.cpp:1794-1828 | the first one is closed by the first closing one, and anything but the two operators behind it is error 1 |
| ChannelQuery.EmptyQuery | lib/dvb/db.cpp:2006-2012 | no tokens at all are the query that everything passes |
| ChannelQuery.Compile | lib/dvb/db.cpp:1905-2021 | the whole compilation yields the specified outcome, errors included |
| ChannelQuery.CompiledValuesAreTokens | lib/dvb/db.cpp:1905-2021 | for every text, the values and the bouquet of the result are tokens of it and no clause words |
| ChannelQuery.PrintedTokens | lib/dvb/db.cpp:1912-1946 | a printed query is cut into the tokens it was printed from |
| ChannelQuery.EditsPrinted | lib/dvb/db.cpp:1953-1991 | the clauses of a printed query are recognized and removed, and nothing else |
| ChannelQuery.ParsesPrinted | lib/dvb/db.cpp:1773-1903 | a printed expression is parsed into its tree, or rejected iff a value is a closing parenthesis |
| ChannelQuery.PrintedQueryCompiles | lib/dvb/db.cpp:1905-2021 | compiling a printed query returns that query, sort order and bouquet iff its values can be understood |
| ChannelQuery.OneQuery | lib/dvb/db.cpp:1905-2021 | one query word by word: the names of kinds, operators and clauses |
| ChannelQuery.FlagsMean | lib/dvb/db.cpp:207-209 | all bits that are asked for must be there |
| ChannelQuery.DishMeans | lib/dvb/db.cpp:186-198 | the networks of Dish and their types for television, number by number |
| ChannelQuery.ChecksTree | lib/dvb/db.cpp:171-234 | checkFilter on the tree of an expression is its Boolean meaning |
| ChannelQuery.NegationNegates | lib/dvb/db.cpp:185-234 | != is the negation of == iff it is not type 1 asked of a Dish television service |
| ChannelQuery.PrintedQueryFilters | lib/dvb/db.cpp:171-234 | the services that a printed query lets through are those it means |
| ChannelQuery.NumbersAreUnderstood | lib/dvb/db.cpp:1900 | a printed number is one word and is read back by atoi |
| ChannelQuery.SatelliteFolderNarrows | lib/dvb/db.cpp:1687-1694 | putting a satellite position in front of a query narrows it to the services at that position |
| RawFile.PieceInConcat | lib/base/rawfile.cpp:187-201 | piece k of a regularly split file lies at k times the split size in the whole |
| RawFile.RawFile.Scan | lib/base/rawfile.cpp:155-185 | counts the pieces, at most 1000, and adds up their lengths |
| RawFile.RawFile.Open | lib/base/rawfile.cpp:28-46 | a freshly opened file is positioned at its start, and 0 or the descriptor is returned |
| RawFile.RawFile.Lseek | lib/base/rawfile.cpp:57-95 | every seek to an offset that is not negative gets there, with one piece or many; a negative one goes to 0, fails, or stays, as the pieces and the caching decide |
| RawFile.RawFile.SwitchOffset | lib/base/rawfile.cpp:187-222 | the piece that holds the offset is open and positioned at it |
| RawFile.RawFile.Read | lib/base/rawfile.cpp:114-145 | returns exactly the bytes of the concatenated file at the offset, and at least one before the end unless the kernel reports an error |
| RawFile.RawFile.Grow | lib/base/rawfile.cpp:66-76 | a single file may grow between calls |
| IoBuffer.IoBuffer.Write | lib/base/buffer.cpp:101-116 | appends, across block boundaries |
| IoBuffer.IoBuffer.Peek | lib/base/buffer.cpp:51-75 | returns the prefix, as much as there is |
| IoBuffer.IoBuffer.Skip | lib/base/buffer.cpp:77-91 | drops the prefix |
| IoBuffer.IoBuffer.Read | lib/base/buffer.cpp:93-99 | returns the prefix and keeps the rest |
| IoBuffer.IoBuffer.ToFile | lib/base/buffer.cpp:147-176 | whatever the kernel accepts, what was written plus what is left is what was there |
| IoBuffer.IoBuffer.Size | lib/base/buffer.cpp:37-44 | the length of the queue |
| IoBuffer.IoBuffer.Empty | lib/base/buffer.cpp:46-49 | true iff nothing is in the queue |
| IoBuffer.IoBuffer.SearchChr | lib/base/buffer.cpp:178-198 | the first place of a char, which no byte above 127 ever equals, or -1 |
| IoBuffer.JoinAppend | lib/base/buffer.cpp:17-24 | a block behind the others adds its bytes at the end |
| CData.CDataEscape | main/xmlgenerator.cpp:88-107 | the loop yields the escaped text of the specification |
| CData.EscapesOneEnd | main/xmlgenerator.cpp:88-107 | a section end inside the text, letter by letter |
| CData.ReadsBack | main/xmlgenerator.cpp:88-107 | a reader that ends each section at the first terminator and joins adjacent sections recovers every text |
| CData.EscapeThenCut | main/xmlgenerator.cpp:162 | cutting the escaped text at its first NUL is escaping the text cut there |
| CData.XmlGenerator.CDataFromString | main/xmlgenerator.cpp:155-166 | the file grows by exactly the tags and the sections, and tags and indentation are as before |
| CData.SectionsReadBack | main/xmlgenerator.cpp:155-166 | the sections are read back as a newline and the text before its first NUL |
| CData.TextComesBack | main/xmlgenerator.cpp:155-166 | so the text itself comes back iff it has no NUL |
| Decoder.Decoder.SetState | lib/dvb/decoder.cpp:708-830 | everything marked is applied, nothing else is restarted, what is replaced was stopped |
| Decoder.Decoder.MarkSounds | lib/dvb/decoder.cpp:712-719 | sound and teletext are marked iff they come or go with the state |
| Decoder.Decoder.SetUp | lib/dvb/decoder.cpp:803-824 | picture and sound are set up as the row of the state says |
| Decoder.Decoder.Set | lib/dvb/decoder.cpp:973-976 | everything is applied; doing it twice restarts nothing |
| Decoder.Decoder.StartPlay | lib/dvb/decoder.cpp:978-990 | everything is applied, also when playing already |
| Decoder.Decoder.StartPause | lib/dvb/decoder.cpp:992-999 | everything is applied iff it was already or the state changes |
| Decoder.Decoder.SetFastForward | lib/dvb/decoder.cpp:1001-1012 | the same, for a change of state or ratio |
| Decoder.Decoder.SetSlowMotion | lib/dvb/decoder.cpp:1014-1023 | the same, for a change of state or ratio |
| Decoder.Decoder.SetTrickmode | lib/dvb/decoder.cpp:1025-1033 | the same, for a change of state |
| Decoder.Decoder.StopAll | lib/dvb/decoder.cpp:892-900 | no device is left |
| Decoder.PictureFollowsState | lib/dvb/decoder.cpp:795-824 | also with changes pending, picture and sound move, stand, and run slowly or fast as the state says |
| Decoder.AppliedIsWanted | lib/dvb/decoder.cpp:708-830 | however an applied state was reached, the devices are exactly what PIDs and state ask for: which PIDs count, in which states there is sound, and how the picture moves, written out |

## Left out

- Devices, `ioctl` and `/proc`: results are arbitrary choices; proc files written when linking are not modelled.
- The score of a tuner: `canTune`, rotor and diseqc rules are one uninterpreted function of the state that does not change it.
- `allocateFrontendByIndex` on the heap, and for tuners that are linked or depend on others without FBC.
- Reconfiguring LNBs or tuners while the receiver runs.
- Use counts are unbounded integers, and slot masks are sets of slots (slots are at most 31).
- Frontend lists are looked up by slot instead of by walking them; the order of the loops is the list's.
- The `system` out-parameter of `canAllocateChannel`, and FCC service bookkeeping (`fcc.cpp`).
- Daylight saving: the civil clock has a fixed offset, `addOneDay` adds 86400 seconds; the comparison of time tuples is kept, with a moved time before an equal one.
- `PowerTimer.py`, notifications, EPG lookup, file names, saving and loading of timers.
- Timers.Timer.ProcessActivation: answers without a record service (`RecordTimer.py:181-193`) are left out of the loop, which does not end with them while the clock stands still.
- Saving timers in `removeEntry`; which entries prolonging changes, and how, is left open there.
- Editing a list while `processActivation` runs through callbacks on a state change.
- Threads: one controller, `hasStarted` called at most once by a body, `pthread_create` succeeding, and memory accesses in program order.
- The pump in skip mode, while seeking and in reverse play; negative filter results; the size limit without a hard disk; changes of `current_span_remaining` by a filter.
- FilePush.FilePushThread.Thread: the spans it plays are made of whole packets; what `GetNextSourceSpan` hands out of others is stated for one call, not for whole runs.
- Query texts that read past the end of the token list are an outcome of their own; numbers outside the range of `int`; how folder paths are cut out of other paths.
- Reopening a split file object, pieces that vanish while it is open, and the lock around its calls.
- `fromfile` of the byte queue: after a failed read it shortens the last block.
- The other elements of the XML generator, and reading of anything but character data.
- Video events, radio pictures, delays and fast channel change of the decoder.
- Skin, GUI, key mapping, HTTP, sockets, scripting glue and input drivers.
