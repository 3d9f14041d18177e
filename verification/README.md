# Kilix voice: a verified model of its hard parts

`voicelib` reads terminal text aloud and takes dictation. Most of its code is glue; a few
places carry arguments that are easy to get wrong: tearing down a process group for good,
closing a resource while other threads still use it, trusting a cached digest, cutting a
stream of text into clips, editing a shared settings file in place, and a handful of audio
state machines. This project models those places in Dafny and proves what they are relied
on for.

Protocols between threads, processes and files are state machines over values: a step is
one system call, one lock section or one unlocked field access, the steps of everybody else
come in between, and the theorems quantify over every run. Where the source also has a
sequential form (a loop, an object with fields), a method or a class is proved equal to the
same functions.

| module | what it models |
|---|---|
| `ProcessTable`, `MemberScan`, `MemberRounds` | the process table, and `_kill_members` racing with forks, exits and reaps; what a round does and when the call returns |
| `GroupOwner`, `OwnerAnswers` | `poll_exit`, `kill_group` and `GroupPopen.wait` against an outside reaper; what a mark and a refusal rest on |
| `Lifecycle`, `LifecycleRuns`, `CloseOutcomes` | the counters of `Lifecycle`, and every interleaving of threads that start, use, publish and close; what a closed state rests on |
| `Disk`, `DigestCache`, `HeldPayload` | files under a coarse clock, `fd_digest` with `_DIGESTS`, and `_HeldPayload` |
| `WholeUtterance` | a dictation turn with its provisional transcript |
| `Text`, `Escapes`, `Conditioning`, `Sentences`, `SentenceCuts` | text from a terminal to clips, and where it is cut |
| `Settings`, `SettingsUpdates`, `SettingsValues` | the settings document: parser, in-place editor, several changes at once, validation, `update` |
| `Wav` | the WAV parser and writer |
| `Reframing`, `CaptureQueue` | the capture reader and its drop-oldest queue |
| `Basics`, `Sequences` | options, results, bytes and subsequences |
| `Playback`, `PlaybackAnswers` | the player's queue, worker and sentinel; what becomes of a clip and what a close leaves |
| `DocumentReader` | the passage reader with background synthesis |
| `Vad` | the voice activity detector |

## Hypotheses

- **Process table.** A process that lives through a whole directory enumeration is listed
  (it is modelled as a cursor over pids). A fork attaches the child first and counts it
  second, and until it is counted neither parent nor child can fork again, leave the group
  or exit. Nobody joins the group from outside. A reused pid has a new start time. A group
  number stays taken while a process has it as its pid or group. One `/proc` read, pidfd
  call or signal is one step.
- **Outside reaper.** `waitid` and `waitpid` fail with ECHILD exactly when the leader has
  been reaped. A member scan that returns normally leaves the leader not running; that is
  what `MemberScan` proves. That the call does return is proved from the start of a round with
  the leader an unreaped zombie that leads its own group, no live member, nothing else moving,
  and a directory that hands out present processes (`MemberRounds.DeadGroupReturns`).
- **Lifecycle.** A condition's lock section is one step; a thread leaves its calls in the
  order opposite to entering them. What `_dispose_complete` answers is the owner's: a proven
  close is a full release exactly for owners that answer true only with empty handle fields
  (`LifecycleRuns.FullReleaseIff`). `Resource`'s own answer is always true, which `Player`
  and `MicCapture` inherit, and `_HeldPayload` asks only two of its fields; for them the
  theorem is `LifecycleRuns.CleanupCompleteIsFinal`.
- **Files.** The clock that stamps ctime never goes back and lags the one the program reads
  by less than `RACY_SECONDS`. Any change stamps ctime; mtime and contents may become
  anything, and an inode number may be reused. One fstat, one block read and one look into
  the cache are one step each. `fd_digest` reads its clock after the bytes, so its cache
  theorem needs that no rewrite falls on a file while it is hashed in the very tick its ctime
  shows; `DigestCache.RacyReaderPoisonsCache` shows that every such moment can poison the
  cache. `_hold` and `_require_unchanged` read the clock before the stats, and use the digest
  whatever the second fstat shows, so `HeldPayload` also needs that no rewrite falls on a held
  file while the holder itself hashes it; `HeldPayload.HalfReadFileVouches` shows that from
  every sound state in which a proper beginning of the consented bytes has been read of a
  file that has not shown them, with the other files as consented, one rewrite makes the
  check vouch wrongly. A change
  that leaves the bytes alone (an unlink, a replaced path, a chmod, a set timestamp) may fall
  anywhere.
- **Parameters.** The digest function, Unicode's letter class and lower-casing, the speech
  decoder (a function of the audio), the level of a frame, and whatever other threads,
  players and syntheses report. A timeout is an exceptional exit that may happen at any
  point; the theorems say what a normal return means.

## Where the code does less than it seems to

- `update` promises that every foreign key survives. The parser ends a line at a vertical
  tab, a form feed, U+001C to U+001E, U+0085, U+2028 and U+2029, the editor does not, and
  reading leaves them alone: an update of the key before such a break deletes the setting
  after it (`SettingsValues.UpdateLosesASetting`). `SettingsValues.UpdateIsExactIff` gives
  the exact condition for every file and any mapping of changes.
- `update` promises that comments and layout survive untouched. Reading turns every carriage
  return, with its newline if it has one, into a newline, so a document with CRLF line ends
  comes out with its lines intact and its carriage returns gone
  (`SettingsValues.CrlfDocumentsAreRewritten`); text is read verbatim exactly when it has no
  carriage return (`Settings.ReadingIsVerbatimIff`).
- `_overruns += 1` is a load and a store; two threads evicting at once can lose a count
  (`CaptureQueue.OverlappingCountsLoseOne`). `CaptureQueue.OverrunsAreExactIff` gives the
  exact condition.
- `overruns` is documented as frames dropped; it also counts an end marker that is dropped
  (`CaptureQueue.DroppedEndIsCounted`), and is the number of frames exactly when none was
  (`CaptureQueue.OverrunsAreFramesIff`).
- A provisional decode that is asked in one turn and returns in the next can hand the old
  turn's words to the new one (`WholeUtterance.OverlapReturnsOldText`), or, if it heard
  nothing, make the new turn's words disappear (`WholeUtterance.SilentOverlapLosesWords`);
  so can the second of two calls in one turn (`WholeUtterance.SecondAnswerLosesWords`).
  `WholeUtterance.EndIsExactIff` gives the exact condition, turn by turn.
- A resource that inherits `_dispose_complete` can prove its close and leave a handle
  (`LifecycleRuns.InheritedAnswerIsNoProof`).
- A file rewritten between two block reads can vouch for bytes it never held during the
  check (`HeldPayload.MixedReadVouches`).
- If the player's worker thread cannot be started, `play` raises once; later clips are queued
  for a worker that is not there (`Playback.UnstartedNeverPlays`). `stop` swallows a failure
  to signal the sink (`Playback.StopSilences`, `Playback.SignallingStopsSilence`).
- Removing a box-drawing rule can bring two shorter ones together, so conditioned text can
  still hold a run of three (`Conditioning.RulesCloseUp`), and conditioning again changes
  it exactly then.
- A synthesis that fails with an exception without a message is taken for a success, and
  the tick raises (`DocumentReader.RaisesIff`).

## Model

| member | source | states |
|---|---|---|
| ProcessTable.StepKeepsWellFormed | voicelib/processes.py:95-113 | every fork half, exit, reap and group change keeps the kernel facts: parents of uncounted children are held, and a group number that names a process names the group's creator |
| ProcessTable.IdentitiesNeverReturn | voicelib/processes.py:95-97 | a pid with its start time, once gone, dead or out of the group, is never present, live or a member again |
| ProcessTable.QuietIsForever | voicelib/processes.py:161-199 | a group with no live member can never gain one |
| ProcessTable.UnreapedLeaderPinsNumber | voicelib/processes.py:151-158 | while the leader is unreaped, showing its number as group means being in its group |
| MemberScan.NextKeepsInv | voicelib/processes.py:116-199 | any step of the scan loop or of the rest of the system keeps the invariant that every live member is watched, not yet reached, in hand, or listed, or is an uncounted child of one |
| MemberScan.RunKeepsInv | voicelib/processes.py:161-199 | the invariant holds at every moment of every interleaving |
| MemberScan.CompareProves | voicelib/processes.py:186-199 | a complete scan with an unchanged fork counter, all of whose members were dead before it began, proves that leader and group are dead |
| MemberScan.NormalReturnMeansGroupIsDead | voicelib/processes.py:161-199 | once `_kill_members` returns normally, then and at every later moment the leader is dead and no live process is in its group; while the leader is unreaped that covers every process that shows the group's number |
| MemberScan.JoinedWasMember | voicelib/processes.py:116-148 | a process the scan has confirmed was in the group at some moment of the call |
| MemberScan.OnlyMembersAreSignalled | voicelib/processes.py:116-199 | every process the scan signals was really a member at some moment, whatever pids and numbers were reused around it; that all of them are is `MemberRounds.EveryMemberIsSignalled` |
| MemberRounds.EveryMemberIsSignalled | voicelib/processes.py:186-189 | a round that does not end the call has signalled every member its scan listed, each in its turn, before the next round begins |
| MemberRounds.DeadGroupReturns | voicelib/processes.py:161-199 | from the start of any round, with a dead unreaped leader, a dead group and nothing else moving, the call never raises, begins at most one more round and is over within a stated number of its own steps |
| MemberRounds.NeverStuck | voicelib/processes.py:161-199 | and until it has returned it can always take one |
| GroupOwner.NextKeepsInv | voicelib/processes.py:210-316 | every step of any thread, of the leader and of an outside reaper keeps the marker fields, the lock, the return code and the history consistent |
| GroupOwner.RunKeepsInv | voicelib/processes.py:210-316 | the same over whole runs |
| GroupOwner.ReapFollowsFinalSignal | voicelib/processes.py:513-548 | the owner's reap comes after the recorded final signal, and after that record nothing is signalled and no second record is made; that the record means a signal sent is `OwnerAnswers.MarkMeansSent` |
| GroupOwner.NoSignalWithoutProof | voicelib/processes.py:250-316 | no signal follows a recorded outside reap or a final signal, none is ever sent with an unproven identity, and the bare group number is signalled only where no pidfd was ever obtained |
| GroupOwner.UnprovenCleanupNeverReturns | voicelib/processes.py:535-548 | if an outside reap or an unproven identity is ever recorded, no `wait` of the whole run returns and the return code is never set |
| GroupOwner.ReturnedWaitIsProof | voicelib/processes.py:521-548 | a `wait` that returns gives the status the leader really exited with, after the final signal and the owner's own reap |
| GroupOwner.ReturnCodeWasExit | voicelib/processes.py:521-533 | a set return code was the leader's exit status at some earlier moment |
| OwnerAnswers.MarkMeansSent | voicelib/processes.py:250-316 | in every run the step that recorded the final signal had just sent it to the whole group, through the pidfd or by number, unless the leader was no longer running when it was recorded |
| OwnerAnswers.KillIsRefusedIff | voicelib/processes.py:263-272 | a kill is refused exactly when the final signal, an outside reap, an unproven identity or a return code is recorded, and then changes nothing |
| OwnerAnswers.KillGroupConcludes | voicelib/processes.py:250-316 | a kill that ends without an error has recorded the final signal or an outside reap, and releases the lock |
| OwnerAnswers.SupportedKillSignals | voicelib/processes.py:276-286 | with a pidfd and a kernel that takes group signals, the first step under the lock sends one signal to the group and records it |
| OwnerAnswers.OutsideReapWasFound | voicelib/processes.py:210-316 | an outside reap is recorded only by a thread that finds the leader gone, or no group of a leader that has not exited; never for a leader that can still be waited for |
| OwnerAnswers.WaitReturnsTheStatus | voicelib/processes.py:521-548 | a `wait` that begins after the leader has exited, with no failing call and nobody else at work, returns its status within twelve steps |
| OwnerAnswers.WaitIsNeverStuck | voicelib/processes.py:521-548 | and until then always has a step |
| Lifecycle.LifecycleObject.EnterSection | voicelib/lifecycle.py:31-41 | refused exactly when a close was requested and the call is a start or its thread is not inside, and then nothing changes; otherwise the count of its thread and the total go up by one, the kind is right, nobody else's count moves, and the state shows whether anyone is starting |
| Lifecycle.LeaveUndoesEnter | voicelib/lifecycle.py:31-55 | leaving undoes entering: every counter, every thread's count and the thread table are as before, and so is the state unless a close was requested |
| Lifecycle.CloseIsExclusive | voicelib/lifecycle.py:57-82 | of any callers the first disposes and no other does before it has ended; after that another may exactly when the disposal did not prove itself |
| Lifecycle.RequestShutsTheDoor | voicelib/lifecycle.py:115-121 | after a request every start and every outsider is refused and nobody inside is; a proven close stays proven, and asking again changes nothing |
| LifecycleRuns.NextKeepsInv | voicelib/lifecycle.py:31-208 | every step of every thread keeps the invariant, including publishing, releasing, the unlocked disposal and whatever the owner answers about it |
| LifecycleRuns.RunKeepsInv | voicelib/lifecycle.py:31-208 | the same over whole runs |
| LifecycleRuns.CountersAreCalls | voicelib/lifecycle.py:31-55 | starters plus users are exactly the calls in progress, thread by thread, and at most one call is closing |
| LifecycleRuns.LeaveNeverUnderflows | voicelib/lifecycle.py:43-55 | whoever entered can leave: no counter goes below zero |
| LifecycleRuns.DrainedStep | voicelib/lifecycle.py:57-76 | "requested and drained" survives every step |
| LifecycleRuns.DrainedIsForever | voicelib/lifecycle.py:57-76 | so it is permanent, and no handle is allocated or overwritten after it |
| LifecycleRuns.DisposeRunsAlone | voicelib/lifecycle.py:70-76 | though the lock is dropped, while a disposal runs no call is inside, no other disposal runs, and every handle ever allocated has reached its field or was released or overwritten |
| LifecycleRuns.ClosedIsForever | voicelib/lifecycle.py:57-82 | a closed resource stays closed, and its fields stay as they are |
| LifecycleRuns.CleanupCompleteIsFinal | voicelib/lifecycle.py:105-110 | for every owner: `cleanup_complete` is permanent, nothing is inside or allocated any more, and every handle there ever was is released, or overwritten in its field, or still in a field |
| LifecycleRuns.RunKeepsApart | voicelib/lifecycle.py:140-160 | no handle is in two places: fields hold different handles, and none that is stored or in flight was released or overwritten |
| LifecycleRuns.ReleasedIffFieldsEmpty | voicelib/lifecycle.py:105-124 | at a proven close every handle is released, or overwritten in its field, if and only if no field holds one |
| LifecycleRuns.FullReleaseIff | voicelib/lifecycle.py:70-82 | in every run every proven close has left each handle released, or overwritten in its field, if and only if the owner's `_dispose_complete` is true only with empty fields |
| LifecycleRuns.CleanupCompleteIsProof | voicelib/lifecycle.py:105-110 | for such an owner `cleanup_complete` is a permanent proof that every handle is released, except one overwritten in its field; that it rests on a disposal that ended well is `CloseOutcomes.ClosedWasProven` |
| LifecycleRuns.LeavesAHandle | voicelib/lifecycle.py:70-82 | for any other owner, and any handles over which it answers true, there is a run that stores them, proves its close and leaves them |
| LifecycleRuns.InheritedAnswerIsNoProof | voicelib/lifecycle.py:123-124 | the answer that `Resource` gives by default is such a case |
| LifecycleRuns.NothingIsOverwritten | voicelib/lifecycle.py:140-160 | owners that publish only into an empty field lose no handle at all |
| CloseOutcomes.ClosedWasProven | voicelib/lifecycle.py:57-82 | a closed state was recorded by one call that waited until nobody was inside, then ran a disposal that did not raise and that the owner called complete, with nothing else in between |
| CloseOutcomes.FailedCloseIsRetried | voicelib/lifecycle.py:57-82 | after a wait that ran out, a disposal that raised or one the owner does not call complete, the state is unproven and the next close proceeds |
| CloseOutcomes.ApprovedCloseIsComplete | voicelib/lifecycle.py:57-82 | after a disposal that did not raise and is called complete, `cleanup_complete` holds and no further close proceeds |
| DigestCache.RememberIsSound | voicelib/consent.py:326-336 | what the racy rule lets into the cache is right for as long as the file shows its key |
| DigestCache.NextKeepsInv | voicelib/consent.py:289-336 | every write, timestamp change, replacement, tick and cache step, other than a rewrite of a file being hashed in the tick of its ctime, keeps every entry right |
| DigestCache.RunKeepsInv | voicelib/consent.py:289-336 | the same over whole runs without such a rewrite |
| DigestCache.HitEqualsFreshHash | voicelib/consent.py:306-336 | whatever the cache would answer for a file is what hashing it afresh gives, at every moment and under every label |
| DigestCache.RacyReaderPoisonsCache | voicelib/consent.py:306-336 | from every sound state in which a call reads a file that still shows its key in the tick of its ctime, one write of the same size with another digest leads to a wrong answer in the cache, because the clock is read after the bytes |
| DigestCache.RacyOverlapPoisonsCache | voicelib/consent.py:306-336 | so for any two equally long contents that the digest tells apart, any file and any label, there is a run that leaves the wrong digest in the cache |
| DigestCache.Digests.FdDigest | voicelib/consent.py:306-336 | on a file nobody changes meanwhile the answer is the fresh hash, cached or not, and the key is in the cache afterwards exactly when it was or is settled; nothing else is added |
| HeldPayload.NextKeepsInv | voicelib/stt.py:635-700 | every other thread's digest, every step of a hold or check, block by block, and every change to any file, unlinks and timestamps during a hash included, other than a rewrite of a file being hashed, keeps the snapshot meaningful |
| HeldPayload.RunKeepsInv | voicelib/stt.py:635-700 | the same over whole runs |
| HeldPayload.PartIsFresh | voicelib/consent.py:306-336 | each part that `fd_digest` gives the holder, from the cache or from the blocks read, is the true digest of the file as it is then |
| HeldPayload.LookedAtRealBytes | voicelib/stt.py:666-700 | every digest a call relies on was the true digest of that file's bytes at a moment no earlier than the call's first step |
| HeldPayload.VouchedMeansConsentedBytes | voicelib/stt.py:686-700 | when `_require_unchanged` returns, the bytes each held file had at a moment of that call combine to the payload recorded at `_hold`, whether equal stats, the cache or a re-hash vouched, and after any number of refreshed snapshots |
| HeldPayload.HashedCallsDecideByRealBytes | voicelib/stt.py:650-700 | a hold or check that hashed decides by digests each file truly had during the call: a hold succeeds exactly for the consented bytes, a check exactly when they still give the payload |
| HeldPayload.VouchedIsWhatWasConsented | voicelib/stt.py:635-700 | so whatever is vouched for, any time after a hold under consent, combines to the consented payload itself |
| HeldPayload.HalfReadFileVouches | voicelib/stt.py:686-700 | from every sound state in which a check has read a proper beginning of a held file that agrees with the consented bytes, which the file has not shown during the call, with the other files as consented, one rewrite of that file, with the cache undisturbed, leads to an acceptance of bytes the file never held during the check |
| HeldPayload.MixedReadVouches | voicelib/stt.py:686-700 | such a state is reached without any disturbance, so there is a whole run that ends in such an acceptance |
| HeldPayload.PayloadIsFixed | voicelib/stt.py:635-664 | the recorded payload never changes once held, in any run |
| HeldPayload.HeldModel.Hold | voicelib/stt.py:650-664 | refuses exactly when consent was given for other bytes |
| HeldPayload.HeldModel.RequireUnchanged | voicelib/stt.py:686-700 | accepts exactly when the held files' bytes still give the payload, whatever their timestamps |
| HeldPayload.HeldModel.HeldStats | voicelib/stt.py:666-672 | the stats of every held file, in order |
| HeldPayload.HeldModel.PayloadDigest | voicelib/consent.py:339-352 | the combined digest of every held file's bytes, in order, whatever the shared cache answers, and the cache stays right |
| HeldPayload.HeldModel.VouchedStats | voicelib/stt.py:674-684 | equal and settled stats mean equal bytes |
| HeldPayload.HeldModel.DiskMoves | voicelib/stt.py:686-693 | writes, unlinks, timestamp changes and time passing leave the snapshot's meaning intact |
| WholeUtterance.StepKeepsInv | voicelib/stt.py:727-780 | every call and every return keeps the buffer equal to the audio that counts without what a stray answer dropped, and the cached text equal to the decoding of its source |
| WholeUtterance.EndIsExactIff | voicelib/stt.py:754-780 | in any run the final text is right for every decoder with the same silences if and only if, in this turn, no answer about other audio as long as the buffer dropped it and no kept text about other audio is as long as the turn, or neither what is decoded nor what should be has words |
| WholeUtterance.FaithfulIff | voicelib/stt.py:768-780 | under exactly that condition the audio decoded is the audio that counts |
| WholeUtterance.EndDecodesTheTurn | voicelib/stt.py:768-780 | a turn in which no provisional returns that was asked before it, or before the buffer was last emptied in it, gives the decoding of exactly the audio since it began or since the last provisional that decoded everything to nothing, cached or not, whatever happened in earlier turns |
| WholeUtterance.BufferKeepsCeiling | voicelib/stt.py:738-752 | the buffer never exceeds its ceiling, in any run |
| WholeUtterance.OverlapReturnsOldText | voicelib/stt.py:754-780 | for any two equally long turns an answer with words that straddles them makes the second return the first one's words |
| WholeUtterance.SilentOverlapLosesWords | voicelib/stt.py:763-764 | and one without words makes the second return nothing |
| WholeUtterance.SecondAnswerLosesWords | voicelib/stt.py:763-764 | of two silent calls about the same audio in one turn, the second makes as much later audio return nothing |
| WholeUtterance.Utterance.StartUtterance | voicelib/stt.py:727-735 | nothing fed before counts in the new turn, and no text is kept; a closed engine refuses and changes nothing |
| WholeUtterance.Utterance.FeedFrame | voicelib/stt.py:737-751 | accepted exactly when live, open and within both limits, and then exactly the frame's whole samples count as well; a refusal changes nothing and names the first reason |
| WholeUtterance.Utterance.Provisional | voicelib/stt.py:753-765 | the text of the audio that counts, and audio without words counts no more |
| WholeUtterance.Utterance.EndUtterance | voicelib/stt.py:767-780 | the text of exactly the audio that counts, cached or not, and the turn is over in every case |
| Escapes.StripIsCleanAndIdempotent | voicelib/tts.py:449-459 | for every text no introducer survives, and stripping again changes nothing |
| Escapes.SkipComplete | voicelib/tts.py:399-446 | a complete control sequence, control string or escape sequence (sections 5.4 and 5.6 of ECMA-48, with the wider terminators of the code) disappears, whatever follows |
| Escapes.StripInvertsInsertion | voicelib/tts.py:449-459 | clean text with complete sequences inserted anywhere strips back to the text |
| Escapes.TruncatedStringLosesOnlyTheTail | voicelib/tts.py:399-407 | a control string cut off by the end takes the tail and nothing before it |
| Escapes.BrokenSequenceLosesOnlyItself | voicelib/tts.py:410-420 | a control sequence that breaks off loses only its introducer and parameters; what broke it off is read normally |
| Escapes.StrayEscapeGoesAlone | voicelib/tts.py:423-446 | an escape character that introduces nothing goes alone |
| Escapes.CutOffByTheEnd | voicelib/tts.py:410-446 | either of them at the end of the text goes whole |
| Escapes.SkipCsiLoop | voicelib/tts.py:410-420 | the loop ends where the control sequence does |
| Escapes.SkipSequenceLoop | voicelib/tts.py:423-446 | the loop ends past the sequence, always beyond its introducer |
| Escapes.FindIntroducer | voicelib/tts.py:449-459 | the first introducer at or after a position, or none |
| Escapes.StripEscapes | voicelib/tts.py:449-459 | the loop terminates and computes the stripped text |
| Conditioning.ConditionedIsNormal | voicelib/tts.py:473-503 | conditioned text has no introducer, no control character but the newline, no two white spaces in a row and none at its ends, and holds every other character that is left to speak, in order |
| Conditioning.WordsStayApart | voicelib/tts.py:473-503 | white space of any kind and length between two conditioned texts becomes one line break if there is one in it (a vertical tab, form feed or carriage return counts), else one space, and both texts stay as they were |
| Conditioning.ConditioningAgain | voicelib/tts.py:473-503 | conditioning conditioned text changes it exactly when it still has a run of three box-drawing characters |
| Conditioning.RulesCloseUp | voicelib/tts.py:364 | for any two box characters, a rule between two short ones leaves such a run |
| Conditioning.BudgetKeepsPrefix | voicelib/tts.py:462-503 | text within the budget is whole, a budget of nothing gives nothing, and any other text is cut exactly at the budget, without the white space before the cut, and gets the note |
| Conditioning.SpeechChunks | voicelib/tts.py:606-615 | the clips of a speech turn are the pieces of the conditioned text and its tail; they are stripped and bounded and together hold exactly its characters that are not white space |
| Sentences.StreamingEqualsBatch | voicelib/tts.py:539-578 | for all x and y, the pieces of x followed by the pieces of what was left of x plus y are the pieces of x + y, with the same remainder |
| Sentences.ClipsIgnoreFeeding | voicelib/tts.py:581-597 | the clips do not depend on how the text was divided between feeds |
| Sentences.ScanSplits | voicelib/tts.py:539-578 | the scan of a longer text is the scan of its beginning, resumed where that waited |
| Sentences.SplitConservesInk | voicelib/tts.py:533-578 | pieces plus remainder hold every character that is not white space, in order |
| Sentences.ClipsAreBounded | voicelib/tts.py:533-578 | every piece is non-empty, stripped, and at most `MAX_CHUNK_CHARS` plus the closers after a terminator; so is the flushed tail |
| Sentences.PassClosers | voicelib/tts.py:558-560 | the first position that is not a closer |
| Sentences.SplitSentences | voicelib/tts.py:539-578 | the loop terminates, though a forced cut moves its index back, and computes the split; where that cuts is `SentenceCuts.SplitCutsExactly` |
| SentenceCuts.SplitCutsExactly | voicelib/tts.py:539-578 | said of the characters alone: text is cut at its first sentence end, newline or forced cut and the rest is cut like any text; without one, or with a terminator whose next character is still to come first, all of it waits |
| SentenceCuts.ShortSentence | voicelib/tts.py:556-568 | the first clip of a short text ends behind a terminator and its closers when white space follows, but not behind the dot of an initial or a listed abbreviation |
| SentenceCuts.AbbreviationIsReadOn | voicelib/tts.py:522-530 | so "Dr. Smith left. He" is one clip and a rest, and likewise any text with an abbreviation before its first sentence end |
| SentenceCuts.DotsVanish | voicelib/tts.py:528 | the word is judged without its dots, and exactly those |
| Sentences.SentenceChunker.Feed | voicelib/tts.py:593-597 | all clips returned so far are the pieces of all text fed so far |
| Sentences.SentenceChunker.Flush | voicelib/tts.py:599-603 | the tail completes the text: clips and tail hold every character fed that is not white space; the chunker is as new |
| Settings.ParseText | voicelib/settings.py:104-111 | the loop computes the document's map, the last assignment of a key winning |
| Settings.ParseIsPieces | voicelib/settings.py:104-111 | parsing is the same if every line-break character ends a line of its own |
| Settings.AssignmentIsRead | voicelib/settings.py:86 | white space, a key, an equals sign and anything else assign the stripped rest to the key |
| Settings.OnlyAssignmentsAreRead | voicelib/settings.py:86-111 | and a line of any other form assigns nothing |
| Settings.SetValueInText | voicelib/settings.py:251-264 | the edit by match positions is the edit of the last assigning line, or the appended line |
| Settings.SetValueIsExact | voicelib/settings.py:251-264 | for every text, the edited document parses to the old map with exactly the key changed if and only if the edited line holds no other assignment that counts |
| Settings.PlainIsSafe | voicelib/settings.py:251-264 | a document with newline separators and space or tab indentation meets that condition for every key |
| Settings.OtherLinesSurvive | voicelib/settings.py:251-264 | for every text an edit rewrites one line, or appends after the document, of which only trailing empty lines go |
| Settings.SetAllIsExact | voicelib/settings.py:313-335 | any number of changes to a plain document, even to the same key, take effect exactly and leave it plain |
| SettingsUpdates.OneKey | voicelib/settings.py:251-264 | a line begins with at most one key, so different keys edit different lines |
| SettingsUpdates.AllParsed | voicelib/settings.py:313-335 | for every text and any changes to different keys, the result parses to its lines in order, each rewritten line giving its new assignment and every other what it gave, followed by the keys no line had |
| SettingsUpdates.SetAllIsExactIff | voicelib/settings.py:313-335 | for every text, the result parses to the old map with exactly the changed keys set if and only if the lines left alone give every other key the value it had, and none of them, behind the line rewritten for a key, gives that key another value |
| Settings.SetAllKeepsForeign | voicelib/settings.py:313-335 | for every text, all non-empty lines other than the section marker that no changed key owns survive verbatim and in order |
| Settings.OtherBreakLosesASetting | voicelib/settings.py:251-264 | for any two keys on one line divided by a break that is neither newline nor carriage return, editing the first deletes the second |
| Settings.ReadingKeepsSettings | voicelib/settings.py:114-121 | turning carriage returns into newlines changes no setting |
| Settings.ReadingIsVerbatimIff | voicelib/settings.py:114-121 | text is read as it is in the file if and only if it has no carriage return |
| Settings.CrlfIsTranslated | voicelib/settings.py:114-121 | a document with CRLF line ends is read as the same lines with newlines |
| SettingsValues.RenderedIsValid | voicelib/settings.py:227-248 | whatever is accepted for writing fits on a line of its own and survives parsing |
| SettingsValues.SwitchesKeepMeaning | voicelib/settings.py:94-96 | a switch is written as 0 exactly for the six false words, in any case and with white space around, and reads back with the meaning that was asked for |
| SettingsValues.StrictWhereReadsAreLenient | voicelib/settings.py:227-248 | any other value is refused exactly when a read would fall back to the default, and else is written as a read takes it |
| SettingsValues.ValueOfRendered | voicelib/settings.py:147-159 | reading back a rendered value gives that value |
| SettingsValues.UpdateIsExact | voicelib/settings.py:313-335 | an update of an absent file, or of one that reads as a plain document, is refused exactly when one of its values is, and else parses to the old settings with exactly the changed keys rendered |
| SettingsValues.UpdateIsExactIff | voicelib/settings.py:313-335 | for every file, plain or not, and every mapping of changes: an update is refused exactly when one of its values is, and else sets exactly the changed keys if and only if the text as read meets that condition |
| SettingsValues.UpdateOneIsExact | voicelib/settings.py:313-335 | for every file, one change takes effect exactly if and only if the edited line, as read, holds no other assignment that counts |
| SettingsValues.UpdateKeepsForeign | voicelib/settings.py:313-335 | for every file, the lines no changed key owns come out verbatim and in order, as they were read |
| SettingsValues.CrlfDocumentsAreRewritten | voicelib/settings.py:313-335 | a document with CRLF line ends is updated as the same lines with newlines |
| SettingsValues.UpdateLosesASetting | voicelib/settings.py:313-335 | an update deletes a foreign setting behind any other line break on the same line |
| SettingsValues.UpdateReadsBack | voicelib/settings.py:313-335 | each changed key then reads back as it was rendered |
| SettingsValues.InitialIsPlain | voicelib/settings.py:267-274 | the document written for an absent file is plain |
| Wav.ParseWavBytes | voicelib/util.py:81-158 | the chunk walk terminates on all bytes and gives the parse |
| Wav.ParseInvertsWrite | voicelib/util.py:161-174 | writing succeeds exactly for rates and sizes the header can hold, and what was written parses, strictly or not, to the whole samples and the rate |
| Wav.UnknownChunksAreInvisible | voicelib/util.py:103-158 | any padded unknown chunks before the data change nothing, whatever bytes follow (RIFF and WAVE, chapters 2 and 3 of Multimedia Programming Interface and Data Specifications 1.0) |
| Wav.ParseWalks | voicelib/util.py:103-158 | whole chunks before the tail leave only the last format behind |
| Wav.WalkOver | voicelib/util.py:103-158 | the walk passes whole chunks, padding included, wherever they stand |
| Wav.StrictSuccessIsLenientSuccess | voicelib/util.py:139-155 | what the strict mode accepts, the lenient mode reads the same |
| Wav.DataEndsWithItsChunk | voicelib/util.py:139-155 | the samples are those of the data chunk, to the last whole one, whatever follows it; half a sample is refused in strict mode |
| Wav.MissingSizeReadsAll | voicelib/util.py:77-155 | a size of zero or beyond the bytes that arrived means all of them; strict mode takes that only for the four placeholder sizes and whole samples |
| Wav.OtherFormatsAreRefused | voicelib/util.py:113-138 | a data chunk under no format, a rate of zero or anything but 16-bit mono PCM is refused, with the kind of refusal |
| Reframing.ReadStream | voicelib/audio.py:383-409 | the reader puts the fixed-size split of all bytes received before the end or a failed read, then the end marker |
| Reframing.FrameAt | voicelib/audio.py:383-396 | the i-th frame exists exactly when its bytes have arrived, and is those bytes, however the pipe cut them |
| Reframing.FramesCover | voicelib/audio.py:383-398 | frames and the dropped partial frame are the stream, and the part is shorter than a frame |
| Reframing.FramesAppend | voicelib/audio.py:389-396 | later bytes only extend the split, from what was left over |
| CaptureQueue.StepKeepsInv | voicelib/audio.py:411-422 | any interleaving of putting threads and a consumer keeps the queue within its bound and what was put equal to what left plus what is queued |
| CaptureQueue.RunKeepsInv | voicelib/audio.py:411-422 | the same over every schedule |
| CaptureQueue.NothingIsReordered | voicelib/audio.py:318-332 | delivered items and queue are an in-order subsequence of the items put, the queue keeps its bound, and every item is delivered, queued or dropped |
| CaptureQueue.EveryCallLands | voicelib/audio.py:411-422 | every call of `_put` has put its item once or is still at it, item by item |
| CaptureQueue.OneThreadPutsInOrder | voicelib/audio.py:411-422 | one thread's items are put in the order of its calls |
| CaptureQueue.NothingIsDroppedWithRoom | voicelib/audio.py:411-422 | where every attempt finds room, nothing is dropped or counted and what left and what is queued is all that was put |
| CaptureQueue.OverrunsAreExactIff | voicelib/audio.py:411-422 | the counter never exceeds the drops, and at rest equals them if and only if no two counts overlapped |
| CaptureQueue.OverrunsAreFramesIff | voicelib/audio.py:259-262 | at rest and with no overlapping counts the counter is the number of frames dropped if and only if no end marker was dropped |
| CaptureQueue.DroppedEndIsCounted | voicelib/audio.py:411-422 | one thread putting an end marker and a frame into a full queue leaves a count of one with no frame dropped |
| CaptureQueue.OneThreadCountsAll | voicelib/audio.py:411-422 | with one putting thread every missing item is counted or about to be |
| CaptureQueue.OverlappingCountsLoseOne | voicelib/audio.py:411-422 | two threads that evict at once can drop two items and count one |
| CaptureQueue.FrameQueue.Put | voicelib/audio.py:411-422 | the loop ends, the item is last, and exactly the oldest items in its way are out and counted |
| Playback.NextKeepsInv | voicelib/audio.py:473-620 | every step of `play`, `stop`, `close` and the worker keeps the invariant; what becomes of a clip is `PlaybackAnswers.FinishedClipWasPlayed` |
| Playback.RunKeepsInv | voicelib/audio.py:473-620 | the same over whole runs |
| Playback.PendingIsExact | voicelib/audio.py:492-511 | `_pending` is the clips queued plus the one in flight, and idle is set exactly when there is none |
| Playback.ClampNeverFires | voicelib/audio.py:565-569 | every clip dropped by a stop or finished by the worker takes exactly one from a count that had it |
| Playback.SentinelIsLast | voicelib/audio.py:532-544 | the close sentinel is always the last entry, and is there only when plays are over for good |
| Playback.StoppedClipsStaySilent | voicelib/audio.py:607-620 | in every run no clip queued before a stop starts a sink after it |
| Playback.StopSilences | voicelib/audio.py:499-519 | once no stop is in progress, a sink still running for a clip queued before one has been signalled, or signalling it failed |
| Playback.SignallingStopsSilence | voicelib/audio.py:499-519 | and if every stop so far could signal, every such sink has been signalled |
| Playback.UnstartedNeverPlays | voicelib/audio.py:559-563 | after the worker's thread was stored but could not be started, no sink starts before a close is requested |
| PlaybackAnswers.SinksStartInTurn | voicelib/audio.py:492-497 | sinks start in the order their clips were queued, and none twice for a clip |
| PlaybackAnswers.FinishedClipWasPlayed | voicelib/audio.py:571-620 | a clip the worker is done with has started its sink, unless its turn was refused after a close request, was left early, came after a stop, or its sink could not start |
| PlaybackAnswers.WorkerGetsOn | voicelib/audio.py:571-620 | each turn of the worker brings it nearer to an empty queue |
| PlaybackAnswers.WorkerHasATurn | voicelib/audio.py:571-620 | and with a clip in hand or in the queue it has one |
| PlaybackAnswers.WorkerLivesUntilClose | voicelib/audio.py:571-583 | a worker that no exception ended is there until a close has begun |
| PlaybackAnswers.JoinedWorkerLeaves | voicelib/audio.py:532-544 | a close that joins the worker joins one that is gone or has the sentinel in its queue |
| PlaybackAnswers.JoinTakes | voicelib/audio.py:532-544 | and that worker takes at most five turns for each entry, and four for the clip in hand, before it is gone |
| PlaybackAnswers.ClosedPlayerIsSilent | voicelib/audio.py:532-553 | once a close has ended in time there is no worker and no sink ever starts |
| Playback.DrainAllEmpties | voicelib/audio.py:503-511 | the drain loop leaves no clip queued and only the one in flight pending |
| Playback.Player.PlayLocked | voicelib/audio.py:492-497 | raises exactly when the first worker is needed and does not run, and then nothing is queued or counted; else the clip is last in the queue with the current generation and counted |
| Playback.Player.DrainQueue | voicelib/audio.py:503-511 | the loop ends, the sentinel is put back, every clip before it is accounted for |
| Playback.Player.Stop | voicelib/audio.py:499-519 | no clip stays queued, only the one in flight stays pending, and a running sink is signalled or marked as not |
| DocumentReader.StepKeepsInv | voicelib/document_reader.py:124-228 | every key, tick and end of a synthesis keeps the invariant |
| DocumentReader.OnlyTheCurrentPassage | voicelib/document_reader.py:176-228 | in every run the index stays in range, playing implies active with no job, a job not cancelled is for the current passage, and whatever was played was its passage's own clip |
| DocumentReader.PlaysWhereItStands | voicelib/document_reader.py:199-216 | a step plays at most one passage, the one the reader stands at, only in a tick and only while active |
| DocumentReader.RaisesIff | voicelib/document_reader.py:199-212 | a tick raises exactly when a synthesis still wanted failed with an empty message |
| DocumentReader.KeysMove | voicelib/document_reader.py:176-197 | next and back move by one passage within the document and undo each other, stop goes to the first, no other key moves |
| DocumentReader.PlayAsksWhereMoved | voicelib/document_reader.py:176-197 | playing after an interruption asks for the passage moved to |
| DocumentReader.LastReportIsTrue | voicelib/document_reader.py:171-228 | in every run the last report shows the state, index and passage the reader is at, with a message exactly for an error |
| DocumentReader.ReadsEachPassageOnce | voicelib/document_reader.py:199-228 | without interruption or error each passage from the one asked for is played exactly once and in order, and the reader stops only after the last, at index 0 |
| DocumentReader.CalmGetsOn | voicelib/document_reader.py:199-228 | such a run gets nearer to the end with every end of a synthesis and every tick that does not just wait |
| DocumentReader.CalmIsNeverStuck | voicelib/document_reader.py:199-228 | and has such a step until it is over |
| DocumentReader.InterruptionSilences | voicelib/document_reader.py:151-197 | after a pause, stop, next or back the synthesis in progress is cancelled and nothing is played until the reader is asked again, whatever that synthesis does |
| DocumentReader.EndingDecidesTick | voicelib/document_reader.py:134-149 | a synthesis still wanted is played where the reader stands, or reported, or without a message makes the tick raise; a cancelled one is dropped however it ends |
| DocumentReader.Reader.Press | voicelib/document_reader.py:176-197 | a key has exactly its effect on index, state, job, player and reports, and keeps the invariant |
| DocumentReader.Reader.OnTick | voicelib/document_reader.py:199-228 | the three parts of a tick, in order, and the invariant kept |
| Vad.EventsAreExact | voicelib/vad.py:124-158 | with resets and suppression anywhere, speech starts exactly when the loud frames in a row reach the sustain count then in force, and ends exactly at the `_end_frames`-th quiet frame in a row |
| Vad.EventsFollowGrammar | voicelib/vad.py:124-158 | without a reset the events are (silence or maybe)* start speech* end, repeated, however suppression is switched in between |
| Vad.LoudIsOverBoth | voicelib/vad.py:104-107 | a frame counts as loud exactly when its level is above the least level and above the margin over the floor |
| Vad.WhispersAreSilence | voicelib/vad.py:104-158 | a stream that never exceeds the least level is silence throughout, however low the floor sinks |
| Vad.WindowIsRecent | voicelib/vad.py:160-166 | the window is always the last levels fed, as many as fit |
| Vad.FloorIsBounded | voicelib/vad.py:160-166 | with rates in [0,1] the floor never exceeds any bound on its start and on the minimum of every full window, nor sinks under every level heard |
| Vad.SteadyNoiseCannotLatch | voicelib/vad.py:10-26 | with a margin over 1 and rates in [0,1], from any state: a window of one level, then enough frames to learn it, then the trailing silence, and the detector is in silence, however loud the level |
| Vad.SteadyIsNotLoud | voicelib/vad.py:104-107 | after that window and those frames the level does not exceed the threshold |
| Vad.VoiceDetector.Feed | voicelib/vad.py:124-158 | the event is the one that the log of earlier frames calls for, with this frame judged by the threshold before the floor adapts |
| Vad.VoiceDetector.AdaptFloor | voicelib/vad.py:160-166 | the window is the last levels fed; with rates in [0,1] the floor moves towards their minimum and not beyond it, falls at once and rises only when the window is full |
| Vad.VoiceDetector.Restart | voicelib/vad.py:113-122 | by the log no speech is open and no loud frame counts any more, and the threshold is what it was |
| Vad.VoiceDetector.SetSuppressed | voicelib/vad.py:109-111 | the sustain count in force is the one asked for; the threshold and what was counted stay |

## Left out

- DigestCache.HitEqualsFreshHash: a rewrite that overlaps a hash in the tick of the file's ctime is excluded by hypothesis; DigestCache.RacyReaderPoisonsCache is the converse.
- HeldPayload.VouchedMeansConsentedBytes: a rewrite of a held file while the holder hashes it is excluded by hypothesis; HeldPayload.HalfReadFileVouches is the converse.
- MemberScan.NormalReturnMeansGroupIsDead: a process is one thread as far as forking, leaving the group and exiting go; the deadline is an exit by error at any point.
- Playback.NextKeepsInv: an exception other than a failed signal inside the close body between marking and the sentinel, and the sink's exit status and error text, are not modelled.
- CaptureQueue.NothingIsReordered: one capture session; the drain and reset at a new start are not modelled.
- Sentences.StreamingEqualsBatch: Unicode's letter class and lower-casing are parameters.
- Conditioning.ConditionedIsNormal: lone surrogates, which Dafny characters cannot hold, and the coercion of values that are not text.
- SettingsValues.UpdateIsExact: the symlink refusal, bytes that are not UTF-8, and the atomic replacement of the file.
- Vad.FloorIsBounded: real arithmetic stands for floating point, and the level of a frame for its samples.
- Update in place by several threads at once: the state machines are over values; the classes show the fields and loops with nobody interfering.
- The gated launcher's nonce and handshake, failed-launch retries and `SynthesisOwner` (voicelib/processes.py:319-654), which only construct the owner that `GroupOwner` starts from.
- Real signals, pidfds and `/proc` text: kept only as steps and hypotheses.
- voicelib/owned.py, arbiter.py, protocol.py, jobs.py, cancel.py, accelerator.py, managed_audio.py and the daemon: not part of this model.
- Engines, subprocess contents, consent records, licensing, model setup, screens and D-Bus: not part of this model.
