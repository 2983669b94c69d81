# wlshare's state machines, verified

wlshare serves a Wayland desktop over RFB. This project models its state machines and index
structures in Dafny and proves what they promise over every input and every run:

- the framebuffer, its bounded log of damage, and the session that sends "what changed since";
- the walk that trades picture quality and frame rate against a link's lag;
- the one keyboard two clients type on;
- who is on which desk, and the density declarations that reconfigure outputs one at a time;
- the headless outputs made and unplugged to reach the count a client asked for;
- the camera's queue, which must never hand the decoder a delta unit across a loss;
- the tile experiments' flood fill and their least-recently-used cache.

Each state machine is given twice. A datatype holds its state, and functions say what each call
does to it; a class holds the same fields, and its methods change them in place with the branches
and loops of the source, each method ensuring that the fields end as the function says. What the
source promises is then proved of the functions, for all states or for all runs from the first.
Runs are lists of events, taken one at a time, in any order and any number; the environment (the
clients, the compositor, the keymap, the decoder, the link, the order a hash set is gone through
in) may do anything its event's `Enabled` or `CanHappen` does not rule out.

## What is proved, and where the code falls short of it

**The walk.** Over every run a verdict moves the walk exactly where an account of the verdicts
heard and the moves made says so, and by as much (`WalkHistory.EveryMoveIsRuled`). A constant lag
that is behind at all brings it to its floor (`WalkDescent.ReachesTheFloor`); clear verdicts bring
it back to its ceiling (`WalkRecovery.EveryWalkRecovers`).

**Damage.** `damage_since(n)` promises that what its answer leaves out has not changed. The log is
trimmed entry by entry, and the guard at `src/framebuffer.rs:261` looks at the front entry's
generation alone, so the generation right after `n` may be split: some of its rectangles dropped
and some kept, and the answer made of the rest (`DamageLog.GuardMissesASplitGeneration`,
`DamageLog.SplitIsOverflow`). The promise is kept, whatever the frames hold, if and only if no
dropped entry newer than `n` covers a pixel outside the answer:
`DamageExactness.SoundWhateverTheFramesHold`. The same condition is exact for a session's look at
the framebuffer, after every run but one whose last misled look has not been put right by a full
update: `UpdateExactness.LookIsExactWhateverTheFramesHold`. One frame of
513 rectangles breaks it (`DamageLog.SplitGenerationIsUnsound`), and leaves a client with a picture
that is not the framebuffer (`UpdateExactness.WrongCanvas`); the next full update puts that right
(`UpdateLoop.ExactSinceTheLastFullUpdate`). `DamageLog.StricterGuardSuffices` is a guard that would
do: the front's generation at most `n` once the log is full.

**Typed symbols.** A character goes down as itself exactly when `TypedSymbols.TypedAsMeant`
holds. The failing family is a lower-level character pressed while Shift is down only through
another key's correction, and a character above the second level; `TypedSymbols.HeldCapitalMistypes`
is `A` held and `b` pressed.

**Keys left down.** `release_all`, which `desk_left` ends with (`src/input.rs:385-388`), finds
nothing held: `KeyboardProofs.DeskLeftKeeps`.

**What sessions are told.** A session reads the seats whenever its task runs, so it sees the latest
and may miss what came between. Whenever one that took the desktop looks, it is told that it lost
it if and only if a newer client is on the desktop just then (`DeskSessions.ToldWhileANewerHolds`):
not when an older one took it (`DeskSessions.OlderTakerIsNotTold`), nor when the newer one has left
again (`DeskSessions.GoneTakerIsNotTold`). One displaced beside is told at every later look
(`DeskSessions.DisplacedBesideStaysTold`). `join_beside` looks at what had ended before it ends
the connection it replaces, so an older connection can be seated and told at once that it has
ended (`CompositorRuns.OlderJoinEndsBoth`). One seated is told the truth at every later look, in
whatever order others join, if and only if nobody newer was there before it
(`DeskSessions.SeatedBesideIsToldTheTruth`). With clients joining in the order of their numbers
everybody is told the truth: `DeskSessions.BesideIsToldTheTruth` and
`DeskSessions.HolderIsToldTheTruth`.

**Declarations.** Each one accepted is answered once, or dropped, and never both; it is dropped
only in a step after which its client is not on its desk, and replaced only by a newer one of the
same client there (`DeclarationFates.EveryDeclarationIsAccountedFor`,
`DeclarationFates.EveryDeclarationIsAnsweredOrStillToBe`).

**Virtual displays.** One step is in flight at a time by the daemon's own account, always. In
truth it is so, throughout a run and whatever may follow, if and only if no output that somebody
else made appears while `creating` is set (`VirtualDisplayRuns.OneStepInFlight`): such an output
passes for the one asked for (`VirtualDisplayRuns.AnothersOutputPassesForOurs`), and others do no
harm. The output
the desktop is on is never asked to go, but one the client moves to while it is going goes: a
desktop that stays on an output keeps it, whatever else happens, if and only if that output is
not the one `unplugging` names (`VirtualDisplayRuns.StaysIfAndOnlyIfNotGoing`).

## Files

| file | what it holds |
|---|---|
| `QualityWalk.dfy`, `WalkInvariants.dfy`, `WalkRecovery.dfy`, `WalkDescent.dfy`, `WalkLaws.dfy`, `WalkHistory.dfy` | the quality walk; its invariants; its way up; its way down; its moves in numbers; what it does told from what it has heard |
| `Rects.dfy`, `Framebuffer.dfy`, `DamageLog.dfy`, `DamageExactness.dfy`, `FramebufferLaws.dfy` | rectangles and merging; the framebuffer; what its log leaves out; when that matters; where each byte comes from, and what an answer says |
| `Session.dfy`, `UpdateLoop.dfy`, `UpdateExactness.dfy`, `SessionLaws.dfy`, `Capture.dfy` | the Raw update path; sessions and clients over runs; when their updates are exact; what a request is answered with; captured frames |
| `Keyboard.dfy`, `KeyboardProofs.dfy`, `KeyboardLaws.dfy`, `TypedSymbols.dfy` | the keyboard; no stuck key; what one event does and leaves alone; what a press types |
| `Compositor.dfy`, `CompositorClass.dfy`, `DeskProofs.dfy`, `DeclarationProofs.dfy`, `CompositorRuns.dfy`, `DeclarationFates.dfy`, `DeskSessions.dfy`, `CompositorLaws.dfy` | the compositor thread's state; its handlers; the desks; the account of the declarations; runs of both; how declarations end; what the sessions are told; the handlers in terms of the outputs |
| `VirtualDisplays.dfy` | the count of headless outputs |
| `Camera.dfy`, `CameraLaws.dfy` | the camera's two ends and the queue between them; what each step does |
| `TileGroups.dfy`, `TileCache.dfy` | the flood fill; the cache |
| `Options.dfy` | optional values |
| `dfyconfig.toml` | the project file: `dafny verify dfyconfig.toml` checks everything |

## Model

| member | source | states |
|---|---|---|
| `QualityWalks.QualityWalk.constructor` | src/walk.rs:322-342 | a new walk stands at its ceiling, clamped to the dial, with nothing heard |
| `QualityWalks.QualityWalk.Floor` | src/walk.rs:384-390 | the loop's least is the minimum of the deliveries kept, zero before one |
| `QualityWalks.QualityWalk.Fenced` | src/walk.rs:399-416 | popping, pushing and hearing in place end as `Fence` says; a walk that is not lag-aware stands still |
| `QualityWalks.QualityWalk.Written` | src/walk.rs:422-427 | a blocked write moves the walk as `Write` says, and not at all where the fence will report it |
| `QualityWalks.QualityWalk.Observe` | src/walk.rs:433-435 | a verdict with its lag known is heard as `Hear` says |
| `QualityWalks.QualityWalk.HearVerdict` | src/walk.rs:438-524 | a verdict, in place: the fields and the answer are those of `Hear` |
| `QualityWalks.QualityWalk.NoteVerdict` | src/walk.rs:445-464 | the counting half: the verdict bits, the clear run and the hold end as `Noted` says |
| `QualityWalks.QualityWalk.WaitsFor` | src/walk.rs:465-492 | a verdict waits between `REFUSAL_COOLDOWN` and `ADJUST_COOLDOWN` after a move: the least exactly when it is behind and the last move was the step up it answers, the most exactly when it is not, nor heavily behind after a step down, nor climbing |
| `QualityWalks.QualityWalk.ActOn` | src/walk.rs:465-524 | the deciding half ends as `Acted` says: waits, drains, gives up or takes back |
| `QualityWalks.QualityWalk.SettleTiles` | src/walk.rs:536-543 | a settle keeps the place and starts the verdicts and the cooldown over |
| `QualityWalks.QualityWalk.KeyframeSent` | src/walk.rs:547-552 | a keyframe holds the verdicts and starts them over |
| `QualityWalks.QualityWalk.GiveUpQuality` | src/walk.rs:558-597 | quality and frames given up as `GiveUp` says, which `WalkLaws.StepDownInNumbers` and `StepBackInNumbers` give in numbers; the cap's `u8` arithmetic as it is |
| `QualityWalks.QualityWalk.TakeBackQuality` | src/walk.rs:602-635 | frames, then quality, taken back as `TakeBack` says, in numbers `WalkLaws.StepUpInNumbers` |
| `WalkInvariants.ReachableWalk` | src/walk.rs:231-283 | every reachable walk: floor ≤ quality ≤ ceiling, at most three doublings, and a step up outstanding only over a lower quality with no frames given up |
| `WalkInvariants.StepInv` | src/walk.rs:399-552 | every call of any kind keeps the invariant, at any later time |
| `WalkInvariants.RunInv` | src/walk.rs:399-552 | so does every run of calls |
| `WalkInvariants.RunConstants` | src/walk.rs:231-283 | no run changes what the walk was made with |
| `WalkInvariants.RefusalMade` | src/walk.rs:566-579 | a step down soon after a step up returns to the quality the link bore, with a cap halfway to the one it would not take |
| `WalkInvariants.RefusalHolds` | src/walk.rs:171-187 | for `REFUSAL_HOLD` after a refusal no run takes the quality past its cap, and any later refusal has a strictly lower one |
| `WalkInvariants.MoveGap` | src/walk.rs:130-135 | a call moves the dial only when the last move is at least `REFUSAL_COOLDOWN` behind |
| `WalkInvariants.MovesAreBounded` | src/walk.rs:130-135 | so the moves of a run of length T are at most T over that cooldown, and one more |
| `WalkInvariants.BlindRun` | src/walk.rs:440-442 | a walk that is not lag-aware ends the same with all it was told of lag and fences taken out |
| `WalkInvariants.HeldWalkHearsPressureAlone` | src/walk.rs:418-427 | two runs of such a walk that differ only in fences and lags end in the same state |
| `WalkInvariants.PoppedIsRecent` | src/walk.rs:403-409 | under a clock that never falls, popping the front leaves exactly what the window holds |
| `WalkInvariants.FloorIsTheWindowsLeast` | src/walk.rs:381-390 | the baseline is the least of all the deliveries of the last `BASELINE_WINDOW`, and one of them |
| `WalkRecovery.TakeBackClimbs` | src/walk.rs:599-635 | each move up lowers `slow`, or leaves it at zero and raises the quality; none only at the top or under a cap still held |
| `WalkRecovery.ClearStands` | src/walk.rs:438-524 | a clear verdict climbs or stands: it never gives anything up |
| `WalkRecovery.ClearVerdict` | src/walk.rs:438-524 | a clear verdict in time keeps the deadline of the recovery |
| `WalkRecovery.Recovers` | src/walk.rs:438-635 | clear verdicts at most d apart bring `slow` to zero and the quality to the ceiling by the deadline, and keep them there |
| `WalkRecovery.DeadlineBound` | src/walk.rs:84-187 | the deadline is at most a keyframe's hold, a refusal's, and a fixed span and five verdicts for each step there is to climb |
| `WalkRecovery.EveryWalkRecovers` | src/walk.rs:438-635 | all of that from every state a session can bring a walk to |
| `WalkDescent.GiveUpGives` | src/walk.rs:554-597 | a step down on any lag with anything left gives some of it up and takes none back |
| `WalkDescent.BehindVerdict` | src/walk.rs:438-524 | a verdict that is behind by any lag, in time, keeps the deadline of the descent |
| `WalkDescent.ReachesTheFloor` | src/walk.rs:438-597 | a constant lag that is behind, severe or not, brings the walk to its floor and to `SLOW_MAX` by the deadline, and keeps it there |
| `WalkDescent.DownBound` | src/walk.rs:124-151 | that deadline, in terms of what is left to give up |
| `WalkDescent.DrainShrinks` | src/walk.rs:497-508 | each wait for a draining queue is on less than four fifths of the lag before, still behind, and moves nothing |
| `WalkDescent.DrainsAreFinite` | src/walk.rs:497-508 | so between two steps only so many waits occur, a number the first lag fixes |
| `WalkLaws.NewStandsAtItsCeiling` | src/walk.rs:322-342 | a new walk stands at its ceiling, brought within 1 and 100, over a floor of 20 or the ceiling, at the full frame rate |
| `WalkLaws.IntervalInNumbers` | src/walk.rs:369-371 | frames come the frame interval apart, or 2, 4 or 8 times that, with nought to three doublings |
| `WalkLaws.StepDownInNumbers` | src/walk.rs:558-597 | a step down that answers no step up gives up 10 of quality, 20 from a lag of 150 ms, 30 from 400 ms, down to the floor; and a doubling of the interval on the floor, or from 400 ms when the last move is not so recent |
| `WalkLaws.StepBackInNumbers` | src/walk.rs:566-579 | one within four seconds of a step up goes back to the quality before it, under a cap halfway |
| `WalkLaws.StepUpInNumbers` | src/walk.rs:602-635 | a step up takes back a doubling, or with none 3 of quality, then 6, 12 and 24, no further than the cap; one the cap cuts short is followed by 3 |
| `WalkLaws.EveryMoveIsTold` | src/walk.rs:514-523 | a call answers exactly when the walk has moved, and with where it then stands |
| `WalkLaws.SettleSettles` | src/walk.rs:536-543 | a settle leaves quality and frames, and forgets the verdicts, the draining lag and the step up |
| `WalkLaws.SettleHoldsTheDial` | src/walk.rs:526-543 | for a second after it no run of calls but another settle moves the walk |
| `WalkLaws.KeyframeHolds` | src/walk.rs:547-552 | a keyframe leaves quality and frames and holds the verdicts two seconds |
| `WalkLaws.KeyframeHoldsTheDial` | src/walk.rs:113-121 | for as long no run of calls but another, or a settle, changes anything but the deliveries kept |
| `WalkHistory.DecideIsRuling` | src/walk.rs:438-524 | what the fields decide is what an account of the verdicts heard and the moves made rules |
| `WalkHistory.StepAgrees` | src/walk.rs:399-552 | every call keeps the fields and that account in agreement |
| `WalkHistory.EveryMoveIsRuled` | src/walk.rs:438-597 | over every run, a verdict has the walk fall if and only if it is behind, another of the last four was, the wait the last look asks for is over and the lag is not falling by a fifth, while anything is left to give; rise if and only if it makes four clear ones over a second, or half of one after a step the link took, and the walk is under its cap; by how much, in numbers; and stand otherwise |
| `WalkHistory.AFenceIsHeardAsQueueing` | src/walk.rs:399-416 | a fence's verdict is what its delivery took over the least of the last minute's, over every run |
| `Rects.Rect.Clipped` | src/framebuffer.rs:46-58 | the clipped rectangle covers exactly the pixels inside the framebuffer the whole one covers, and is not empty |
| `Rects.UnionIsExact` | src/framebuffer.rs:67-78 | the casts to `u16` lose nothing exactly when the bounding box is under 65536 a side |
| `Rects.RetainNonEmpty` | src/framebuffer.rs:85 | the empty rectangles go, in place and in order |
| `Rects.FindPair` | src/framebuffer.rs:86-102 | the first two that touch, or a proof that none do |
| `Rects.BoundingBox` | src/framebuffer.rs:103-106 | the fold of the unions |
| `Rects.MergeRects` | src/framebuffer.rs:84-108 | the loop over pairs and its swap-remove end as `Merge` says, with the number of rectangles as its measure |
| `Rects.MergedKeeps` | src/framebuffer.rs:86-102 | merging pairs loses no pixel, leaves any box that holds the input, and ends with none touching |
| `Rects.BoundsKeeps` | src/framebuffer.rs:103-106 | nor does the bounding box lose or add to it |
| `Rects.MergeKeeps` | src/framebuffer.rs:80-108 | merging covers every pixel given, stays inside any box of at most 65535 a side that holds the input, returns rectangles no two of which touch, and respects the limit |
| `Framebuffers.Framebuffer.constructor` | src/framebuffer.rs:171-182 | a new framebuffer is blank, at generation one |
| `Framebuffers.Framebuffer.Resize` | src/framebuffer.rs:189-200 | a resize is blank, unpainted, of a new generation, with nothing in the log |
| `Framebuffers.Framebuffer.Apply` | src/framebuffer.rs:205-247 | a frame applied in place: pixels, generation, log and `painted` end as `Applied` says |
| `Framebuffers.Framebuffer.CopyDamage` | src/framebuffer.rs:208-235 | the damage is clipped and copied rectangle by rectangle, and what was copied is what is noted |
| `Framebuffers.Framebuffer.CopyRect` | src/framebuffer.rs:213-233 | one rectangle is painted from the frame and nothing else changes |
| `Framebuffers.Framebuffer.CopyRow` | src/framebuffer.rs:215-233 | one row copied, byte by byte or whole, as `Straightened` says, and nothing else; which bytes those are is `FramebufferLaws.BytesOfADamagedPixel` |
| `Framebuffers.Framebuffer.TrimLog` | src/framebuffer.rs:244-246 | the oldest entries are dropped one by one down to the limit |
| `Framebuffers.Framebuffer.DamageAfter` | src/framebuffer.rs:252-271 | what the log answers, with each of the source's four cases |
| `Framebuffers.AppliedAt` | src/framebuffer.rs:205-247 | after a frame each pixel is the frame's, flipped and permuted, where the reported damage covers it, and as it was elsewhere |
| `Framebuffers.NotedCovers` | src/framebuffer.rs:209-235 | clipping the damage loses no pixel of the framebuffer |
| `Framebuffers.PaintedAgain` | src/framebuffer.rs:209-235 | painting one rectangle after others is painting them all |
| `FramebufferLaws.BytesOfADamagedPixel` | src/framebuffer.rs:205-247 | after a frame each byte of a damaged pixel is the frame's at its row, or the row as far from the bottom in a flipped one, times the stride, and four times its column, in the layout's order |
| `FramebufferLaws.NewGenerationWhen` | src/framebuffer.rs:205-247 | a frame whose damage covers no pixel of the framebuffer changes nothing at all; any other makes the next generation of a painted one of the same size |
| `FramebufferLaws.BytesOfAReadyFrame` | src/capture.rs:186-243 | so is each of every pixel once a frame is ready, whatever damage came with it |
| `FramebufferLaws.TouchingShareAPoint` | src/framebuffer.rs:60-65 | two rectangles touch when they share a point, edges and corners counted |
| `FramebufferLaws.ApartIsLeft` | src/framebuffer.rs:80-108 | few rectangles that do not touch come out of a merge as they went in, the empty ones gone |
| `FramebufferLaws.MergeKeepsToTheEdges` | src/framebuffer.rs:80-108 | every edge a merge returns is an edge of a rectangle it was given |
| `DamageLog.ApplyInv` | src/framebuffer.rs:205-247 | a frame keeps the log's relation to the history: entries rise by generation, lie inside, and account for every pixel changed since each generation of this size |
| `DamageLog.ChangeInv` | src/framebuffer.rs:189-247 | so does any change, and no generation falls |
| `DamageLog.PastStays` | src/framebuffer.rs:189-247 | the picture at a generation is fixed once there |
| `DamageLog.AnswerIsCompleteWhenClean` | src/framebuffer.rs:252-271 | the answer counts every rectangle noted after n, dropped ones included, if and only if the newest dropped is no newer than n |
| `DamageLog.GuardMissesASplitGeneration` | src/framebuffer.rs:259-263 | the guard lets an incomplete answer through if and only if the generation after n is split |
| `DamageLog.StricterGuardSuffices` | src/framebuffer.rs:259-263 | a guard on the front's own generation, once the log is full, lets none through |
| `DamageLog.CleanIsRoom` | src/framebuffer.rs:114-119 | nothing newer than n was dropped if and only if at most `LOG_LIMIT` rectangles were noted since |
| `DamageLog.SplitIsOverflow` | src/framebuffer.rs:244-261 | the guard misleads if and only if the limit lies strictly between what was noted after the next generation and what was noted after n |
| `DamageLog.AnswerShape` | src/framebuffer.rs:252-271 | the answer's rectangles lie inside, are not empty, do not touch and are few |
| `FramebufferLaws.AnswerIsEverythingWhen` | src/framebuffer.rs:252-271 | the answer is everything if and only if the session has sent nothing, or nothing of this size, or its next generation has left the log |
| `FramebufferLaws.AnswerIsNothingWhen` | src/framebuffer.rs:252-271 | it is nothing if and only if the session has sent the newest generation |
| `FramebufferLaws.AnswerSaysNoMore` | src/framebuffer.rs:252-271 | an answer of rectangles goes no further than what was noted since: each edge is one of those, and few that do not touch are answered as they are |
| `DamageLog.OnlyASplitLoses` | src/framebuffer.rs:259-263 | an answer loses something only where the generation after n is split |
| `DamageLog.DamageIsSound` | src/framebuffer.rs:249-271 | where nothing dropped that is newer than n lies outside the answer, every pixel outside it is the same at generation n and now |
| `DamageLog.EveryRunIsSound` | src/framebuffer.rs:189-271 | that, for all runs of frames and resizes of any length, from a new framebuffer |
| `DamageLog.SplitGenerationIsUnsound` | src/framebuffer.rs:244-261 | one frame of 513 rectangles splits its generation and leaves a changed pixel outside the answer |
| `DamageExactness.SoundWhateverTheFramesHold` | src/framebuffer.rs:249-271 | after any run, the answer for n is sound in all runs of the same sizes and damage, whatever their frames hold, if and only if nothing dropped that is newer than n lies outside it |
| `DamageExactness.AlikeRun` | src/framebuffer.rs:205-247 | runs that differ only in what their frames hold end with the same log and the same losses |
| `DamageExactness.RecoloredRun` | src/framebuffer.rs:205-247 | every run has one of the same sizes and damage that is blank up to n and ones wherever an entry after it covers |
| `Sessions.RawSession.constructor` | src/session.rs:740-760 | a session that has sent nothing and knows the size it was told |
| `Sessions.RawSession.MaybeUpdate` | src/session.rs:1686-2067 | what the Raw path sends, and the state it is left in, are those of `Pumped`; when that is everything is `SessionLaws.EverythingIsSent`, and when it is exact `UpdateLoop.EveryUpdateIsExact` |
| `Sessions.RawSession.Announce` | src/session.rs:1696-1722 | each announcement owed is sent once, as an update of its own, in order; whether they answer the request is left to `MaybeUpdate` |
| `Sessions.RawSession.SendUpdate` | src/session.rs:1760-2067 | the rectangles sent carry the framebuffer's own pixels, and the session then counts the generation as seen |
| `Sessions.RawSession.TakeLimited` | src/session.rs:1760-1980 | past the limit on rectangles their bounding box is taken instead |
| `Sessions.RawSession.TakePieces` | src/session.rs:1760-1980 | each piece is cut from the framebuffer row by row |
| `Sessions.RawSession.Deliver` | src/session.rs:1980-2067 | a new size is told first, by whichever way the client knows, or the session ends; the update is fenced where it can be |
| `Sessions.RawSession.Request` | src/session.rs:1202-1212 | a full request is not weakened by an incremental one after it |
| `Sessions.RawSession.Echo` | src/session.rs:1257-1265 | a fence come back leaves none outstanding |
| `Sessions.DamageInside` | src/session.rs:1760-1980 | what is sent lies inside the framebuffer, and the log's answer is never past the limit |
| `SessionLaws.EverythingIsSent` | src/session.rs:1686-2067 | with room, a painted framebuffer and a request for everything, nothing sent yet or a size the client does not know, an update goes out whose one rectangle is the whole of the framebuffer with its pixels, unless the client cannot be told the size and is let go of |
| `SessionLaws.WholeIsEverything` | src/session.rs:1861 | that rectangle covers every pixel of the framebuffer |
| `SessionLaws.AnnouncementsAreSent` | src/session.rs:1696-1722 | each announcement owed is sent, ahead of any pixels, and owed no more; with none owed and nothing changed nothing is sent |
| `SessionLaws.RequestStands` | src/session.rs:1202-1212 | over any run a request stands until something is sent, and one for everything is not weakened by any that come after it |
| `SessionLaws.AFullRequestIsAnsweredInFull` | src/session.rs:1861 | a client that asks for everything, and for whatever else after that, is sent every pixel by the first look that can send any, over every run in which nothing was sent between |
| `SessionLaws.ARequestIsHeard` | src/session.rs:1202-1212 | one that has asked at all is still asking when that look comes |
| `UpdateLoop.CutDrawn` | src/session.rs:1686-2067 | pieces cut from one picture and drawn on another leave the first under the rectangles and the other elsewhere |
| `UpdateLoop.DrawnIsFramebuffer` | src/session.rs:1686-2067 | drawn wherever it changed, a canvas is the framebuffer |
| `UpdateLoop.PumpInv` | src/session.rs:1686-2067 | a look that is not misled keeps the canvas the framebuffer as it was at `seen` |
| `UpdateLoop.PumpLoose` | src/session.rs:1686-2067 | any look keeps sizes, generations and fences in agreement, and one that tells all puts the canvas in step |
| `UpdateLoop.NextInv` | src/session.rs:1202-2067 | every event keeps that, but for a misled look; and even after one, sizes, generations and fences agree |
| `UpdateLoop.RunInStep` | src/session.rs:1202-2067 | over any run the canvas is in step unless a misled look has not yet been put right by a full update |
| `UpdateLoop.PumpIsExact` | src/session.rs:1686-2067 | an update leaves the canvas equal to the framebuffer; none, with room to send, means that it already was |
| `UpdateLoop.NothingToSend` | src/session.rs:1760-1980 | empty damage is a client that has the framebuffer already |
| `UpdateLoop.EveryUpdateIsExact` | src/session.rs:27-38 | after every interleaving of captures, resizes, requests and fences with no look misled, a look that is not misled is exact; and none sends while a fence is unanswered |
| `UpdateLoop.ExactSinceTheLastFullUpdate` | src/session.rs:27-38 | from a full update on, whatever run led to it and however misled, every look is exact while none is misled |
| `UpdateExactness.LookIsExactWhateverTheFramesHold` | src/session.rs:27-38 | after any run whose misled looks a full update has since put right, the next look is exact in all runs alike but for what their frames hold if and only if it is not misled |
| `UpdateExactness.LostPixelStaysWrong` | src/session.rs:1686-2067 | a pixel that has changed and lies outside the answer is wrong on the canvas after the look |
| `UpdateExactness.WrongCanvas` | src/session.rs:1686-2067 | one client sent a frame whole and then the damage of a splitting frame, whose canvas is then not the framebuffer |
| `Captures.Capture.FrameReady` | src/capture.rs:186-219 | a ready frame resizes the framebuffer where its size is new, credits the resize that asked for it, and is applied whole or by its damage |
| `Captures.FrameShows` | src/capture.rs:227-243 | after a ready frame every pixel is that frame's, flipped and permuted by its layout |
| `FramebufferLaws.ResizeIsCredited` | src/capture.rs:193-205 | a frame of the very size a resize asked for is its client's doing and ends it; any other leaves it pending and is the server's own |
| `Captures.NextInv` | src/capture.rs:186-243 | a painted framebuffer is the last frame, whatever output or size comes next |
| `Captures.EveryFrameIsShown` | src/capture.rs:186-243 | that over every run of frames, resizes and output switches: no blank pixel survives in a painted framebuffer |
| `Keyboards.Keys.constructor` | src/input.rs:292-326 | a keyboard with nothing held or down |
| `Keyboards.Keys.SendOne` | src/input.rs:483-496 | a transition is sent only where it changes what the compositor believes is down |
| `Keyboards.Keys.CorrectShift` | src/input.rs:400-441 | Shift pressed or let go of for a key, noted as that key's correction; never for what is no character (`KeyboardLaws.NoCharacterIsSentAsItIs`) |
| `Keyboards.Keys.SendEachUp` | src/input.rs:422-435 | the Shifts held are let go of one by one, in order |
| `Keyboards.Keys.PressEachHeld` | src/input.rs:461-467 | the Shifts let go of are pressed again, those still held alone |
| `Keyboards.Keys.ReleaseKey` | src/input.rs:443-470 | a key goes up and its correction is undone, but for what another still needs |
| `Keyboards.Keys.LetGoOf` | src/input.rs:346-354 | a key no longer held is released |
| `Keyboards.Keys.PressOrRelease` | src/input.rs:329-371 | a desk's key event, as transitions: repeats and releases of keys never held send nothing |
| `Keyboards.Keys.Leave` | src/input.rs:379-390 | a client leaving, whatever order its keys are gone through in |
| `Keyboards.Keys.LetGoOfAll` | src/input.rs:379-390 | every key in a set is let go of, in some order that is all of it |
| `Keyboards.Keys.ReleaseHeld` | src/input.rs:499-504 | every key still held is released, in some order that is all of them |
| `KeyboardProofs.FixKeeps` | src/input.rs:400-441 | a correction keeps the account of what is down and what is held, all but the key it is for |
| `KeyboardProofs.ReleaseKeeps` | src/input.rs:443-470 | undoing it restores the account, that key included |
| `KeyboardProofs.LetGoKeeps` | src/input.rs:346-354 | so does letting a key go |
| `KeyboardProofs.DeskKeyKeeps` | src/input.rs:359-371 | a key event keeps the invariant: held is what the owners hold, and down differs from it only by corrections |
| `KeyboardProofs.DeskLeftKeeps` | src/input.rs:379-390 | so does a client leaving, in any order; once both have, nothing is down, and the second pass finds nothing held |
| `KeyboardProofs.RunKeeps` | src/input.rs:329-504 | so does every two-desk run |
| `KeyboardProofs.NoStuckKey` | src/input.rs:329-504 | over every run and whatever the keymap says: with no correction down is held; with no owner nothing is down; and replaying what was sent gives what is down, alternating key by key |
| `KeyboardLaws.NoCharacterIsSentAsItIs` | src/input.rs:395-402 | a keysym that is no character, on a key nobody holds, sends its own key going down and nothing else, in any state and whatever the keymap says; no correction is made or undone, and the key is left down |
| `KeyboardLaws.UnknownIsDropped` | src/input.rs:329-335 | a keysym no key has changes nothing |
| `KeyboardLaws.RepeatSendsNothing` | src/input.rs:336-344 | pressing a key either client holds sends nothing and corrects nothing |
| `KeyboardLaws.PressedIsDown` | src/input.rs:329-344 | a key pressed is its desk's, held and down |
| `KeyboardLaws.ReleasedGoesUp` | src/input.rs:346-371 | a key released goes up, first of all and only if it was down, unless the other desk's client holds it: then nothing is sent |
| `KeyboardLaws.AReleaseEndsCorrections` | src/input.rs:443-470 | a key let go of ends its own correction and, being a Shift, every correction it was pressed for; the rest stand as they were |
| `KeyboardLaws.OnlyItsKeyAndShiftsMove` | src/input.rs:359-371 | a key event moves its own key and Shifts alone |
| `KeyboardLaws.RunFixesShifts` | src/input.rs:400-470 | over every run corrections are of Shifts alone |
| `KeyboardLaws.LeavingMovesOnlyItsKeys` | src/input.rs:379-390 | a client leaving leaves held what its neighbour holds, and moves its own keys and Shifts alone |
| `TypedSymbols.BuildTable` | src/input.rs:292-308 | the scan over keycodes and levels builds `TableOf`; it is handed the keysyms in the order the source meets them, so layouts, and several keysyms on one level, are places in that list and nothing more |
| `TypedSymbols.TableIsLowest` | src/input.rs:292-308 | the table has exactly the keysyms there are, each at the first place of its lowest level |
| `TypedSymbols.BuiltTableFits` | src/input.rs:292-313 | so a keysym's place yields it, and no lower level of that key does |
| `TypedSymbols.StrayIsAnothersFix` | src/input.rs:400-441 | a Shift down that nobody holds is one another key's correction pressed |
| `TypedSymbols.TypedSymbol` | src/input.rs:400-441 | a character freshly pressed goes down while its keycode yields exactly that keysym if and only if it can be typed as meant |
| `TypedSymbols.PressGoesDown` | src/input.rs:329-344 | the press leaves the key down, and sends it going down last, unless a correction had it down |
| `TypedSymbols.CapitalPressed` | src/input.rs:400-441 | `A` without a Shift of the client's is Shift and the key, the Shift noted as its correction |
| `TypedSymbols.HeldCapitalMistypes` | src/input.rs:400-441 | `A` held and `b` pressed does not type `b` |
| `Cameras.Link.Send` | src/camera.rs:145-166 | a unit goes into the queue in order, unless the thread is gone |
| `Cameras.Camera.Offer` | src/camera.rs:145-166 | the session's end: units dropped through a gap, and the keyframe asked for, as `Offered` says |
| `Cameras.Feed.Take` | src/camera.rs:221-256 | the thread's end: what is decoded, refused and reported, as `Fed` says; one is delivered exactly when the camera is open, has not failed and makes a picture of it |
| `Cameras.Feed.OnSample` | src/camera.rs:409-413 | a unit off the queue makes room, is decoded, and is delivered on the same terms |
| `Cameras.Feed.StateChanged` | src/camera.rs:334-359 | an application opening the camera owes a keyframe; the same state twice says nothing |
| `CameraProofs.NextInv` | src/camera.rs:145-256 | every step keeps the queue within its depth and each delta unit in it behind its predecessor |
| `CameraProofs.NeverAcrossALoss` | src/camera.rs:145-256 | every delta unit decoded ends an unbroken stretch of the client's sequence, decoded without error from a keyframe |
| `CameraProofs.AskedOncePerGap` | src/camera.rs:145-166 | over any run a keyframe is asked for once a gap opens, once more for each keyframe lost to the full queue, once for each unit refused, and for nothing else |
| `CameraProofs.OnlyAKeyframeClosesAGap` | src/camera.rs:145-166 | a gap closes only on a keyframe that finds room |
| `CameraProofs.AFailedCameraStaysFailed` | src/camera.rs:221-256 | after a picture of another size nothing more is decoded |
| `CameraLaws.UnitGoesInWhen` | src/camera.rs:145-166 | a unit goes into the queue if and only if there is room, the thread is there and no gap keeps it out; and what a dropped one asks for |
| `CameraLaws.UnitIsDecodedWhen` | src/camera.rs:221-230 | the oldest is taken, and decoded if and only if the camera has not failed and it is a keyframe or none is owed |
| `CameraLaws.DecodingGoesOn` | src/camera.rs:221-256 | after a picture the next unit is decoded, whatever it is; after a refusal no delta unit is until a keyframe |
| `CameraLaws.OpeningOwesAKeyframe` | src/camera.rs:334-359 | opened, no delta unit is decoded first |
| `CameraLaws.TheClientIsToldOfTheStream` | src/camera.rs:334-359 | over every run starts and stops alternate, the last saying how the stream stands, and a failure is told once |
| `TileGroups.Carried` | examples/tile-recurrence.rs:263-290 | the tiles carried are exactly those in 4-connected groups of at least `MIN_STREAM_CELLS`, in whatever order the set is gone through |
| `TileGroups.FloodFill` | examples/tile-recurrence.rs:266-288 | one fill finds exactly one group, each tile once, none seen before, and stops |
| `TileGroups.LookAround` | examples/tile-recurrence.rs:272-284 | looking at the four tiles beside one shrinks what is unseen, or the stack |
| `TileGroups.SameGroup` | examples/tile-recurrence.rs:263-290 | tiles that reach each other have the one group |
| `TileGroups.ClosedIsGroup` | examples/tile-recurrence.rs:263-290 | what is closed under stepping and reached from one of its tiles is that tile's group |
| `TileGroups.BesideOnAPicture` | examples/tile-recurrence.rs:273-278 | on any picture the wrapping steps are the plain ones: a row or a column away |
| `TileCaches.Lru.constructor` | examples/tile-recurrence.rs:301-308 | an empty cache |
| `TileCaches.Lru.Clear` | examples/tile-recurrence.rs:310-313 | nothing held and nothing remembered |
| `TileCaches.Lru.Touch` | examples/tile-recurrence.rs:315-331 | a hit if and only if the hash was touched since `clear` with fewer distinct others since than slots; both maps within the slots |
| `TileCaches.Lru.MakeMostRecent` | examples/tile-recurrence.rs:316-331 | both maps end inverse to each other, in the order of last touches |
| `TileCaches.Lru.DropOldest` | examples/tile-recurrence.rs:324-329 | the one dropped is the one touched longest ago |
| `TileCaches.HoldsTheLastDistinct` | examples/tile-recurrence.rs:293-332 | the cache holds the last distinct hashes touched, as many as it has slots |
| `TileCaches.RecencyBehind` | examples/tile-recurrence.rs:293-332 | behind a hash in the recency come exactly those touched since |
| `TileCaches.HitWhenRecent` | examples/tile-recurrence.rs:315-331 | so it holds a hash exactly when fewer distinct others than slots were touched since |
| `TileCaches.SizesAgree` | examples/tile-recurrence.rs:293-299 | the two maps are the same size |
| `CompositorThread.Compositor.constructor` | src/compositor.rs:182-265 | nobody on a desk, nothing declared, the first desk on the output chosen; and so valid |
| `CompositorThread.Compositor.LetGoOf` | src/compositor.rs:615-624 | a client's resize and whatever waits on its desk are dropped |
| `CompositorThread.Compositor.EndDisplayBeside` | src/compositor.rs:683-702 | the display beside ends: desk, seat, output and what waited |
| `CompositorThread.Compositor.EndSeat` | src/shared.rs:285-292 | what has ended beside never falls, and the seat is given up by its own client alone |
| `CompositorThread.Compositor.FindFirst` | src/outputs.rs:297-316 | the search over the outputs finds the first listed by name, leaving one out |
| `CompositorThread.Compositor.FindSelectable` | src/outputs.rs:332-337 | the search finds the output of a number where it can be shared |
| `CompositorThread.Compositor.Share` | src/compositor.rs:778-799 | a desk takes an output; the first desk ends a display beside that was on it |
| `CompositorThread.Compositor.Adopt` | src/compositor.rs:809-832 | the configured output where it is listed, the first listed otherwise |
| `CompositorThread.Compositor.Gone` | src/compositor.rs:836-847 | the first desk moves on; a display beside ends |
| `CompositorThread.Compositor.Joined` | src/compositor.rs:423-437 | a client takes the desktop, and what was beside the one before it ends; both invariants hold after |
| `CompositorThread.Compositor.JoinedBeside` | src/compositor.rs:636-678 | a connection beside is seated on another output, or refused, in the source's order of tests; both invariants hold after |
| `CompositorThread.Compositor.Left` | src/compositor.rs:440-455 | a client leaving gives up its desk, and the desktop's client the one beside too; both invariants hold after |
| `CompositorThread.Compositor.Select` | src/compositor.rs:746-768 | only the desktop's client moves it, to an output that can be shared and is not the one it is on; both invariants hold after |
| `CompositorThread.Compositor.SendConfiguration` | src/outputs.rs:397-451 | a configuration goes out if and only if there is a manager and the output is headless; its number is none still unanswered, and no unanswered one is forgotten for it |
| `CompositorThread.Compositor.Resize` | src/compositor.rs:707-730 | a resize is pending while its configuration is out, and not otherwise |
| `CompositorThread.Compositor.ClientResized` | src/compositor.rs:500-508 | a desk's client's size is asked for; both invariants hold after |
| `CompositorThread.Compositor.DeclareOn` | src/compositor.rs:871-926 | a declaration waits behind the one out or is configured |
| `CompositorThread.Compositor.PutBehind` | src/compositor.rs:880-892 | a newer declaration of a desk replaces the one waiting, which is answered |
| `CompositorThread.Compositor.ConfigureFor` | src/compositor.rs:893-926 | nothing to change, or no way to, is answered at once; otherwise it is the one out; when that is, in terms of the output, is `CompositorLaws.DeclaredIsConfiguredUnlessTheSame` |
| `CompositorThread.Compositor.ClientDeclared` | src/compositor.rs:509-518 | only a desk's client is heard; both invariants hold after |
| `CompositorThread.Compositor.RunWaiting` | src/compositor.rs:930-941 | with none out, what waits runs, one desk after the other, if its client is still there |
| `CompositorThread.Compositor.Done` | src/outputs.rs:575-601 | every head whose scale changed settles the declaration out for a desk it is on; both invariants hold after |
| `CompositorThread.Compositor.Answered` | src/outputs.rs:683-781 | the three answers: a round trip awaited, asked again once, or refused; both invariants hold after |
| `CompositorThread.Compositor.AskAgain` | src/outputs.rs:710-751 | a cancelled configuration is asked once more for the same client |
| `CompositorThread.Compositor.Refused` | src/outputs.rs:752-778 | a refused one is answered with the output as it is, and the next runs |
| `CompositorThread.Compositor.Synced` | src/outputs.rs:784-806 | the round trip settles the declaration it was for, if that is still out; both invariants hold after |
| `CompositorThread.Compositor.OutputIsDone` | src/outputs.rs:491-520 | an output arrived is adopted where none is shared, or where it is the configured one and new; both invariants hold after |
| `CompositorThread.Compositor.OutputIsGone` | src/compositor.rs:962-988 | an output gone moves the desks that were on it; both invariants hold after |
| `CompositorThread.Compositor.TakeFrame` | src/capture.rs:193-199 | a frame of the size a resize asked for ends it; both invariants hold after |
| `CompositorThread.Compositor.Handle` | src/compositor.rs:421-546 | whatever can happen next is handled in place, ends in the state it leads to, and leaves the desks' and the declarations' invariants holding |
| `CompositorThread.Compositor.HandleAll` | src/compositor.rs:421-546 | so does any run of events, one after another |
| `DeskProofs.FirstEntryIsAnother` | src/compositor.rs:655-668 | the output picked beside is listed, is not the desktop's, and is the first of those by name |
| `DeskProofs.EndBesideDesks` | src/compositor.rs:683-702 | ending the display beside leaves that desk empty, the other as it was, and its client counted as ended |
| `DeskProofs.AdoptKeeps` | src/compositor.rs:809-832 | adopting an output keeps the desks' invariant |
| `DeskProofs.JoinedKeeps` | src/compositor.rs:423-437 | a join keeps it, seats the client and leaves nobody beside |
| `DeskProofs.JoinBesideKeeps` | src/compositor.rs:636-678 | a join beside keeps it, refused or not, in whatever order clients come |
| `DeskProofs.LeftKeeps` | src/compositor.rs:440-455 | a client leaving keeps it, and is on no desk after |
| `DeskProofs.SelectKeeps` | src/compositor.rs:746-768 | moving the desktop keeps it |
| `DeskProofs.GoneKeeps` | src/compositor.rs:836-847 | losing an output keeps it |
| `CompositorLaws.SharingMoves` | src/compositor.rs:778-799 | the desktop on another output drops its resize, and ends a display beside exactly where that is on it |
| `CompositorLaws.SelectingMoves` | src/compositor.rs:746-768 | the desktop's client moves it to the output it names if that is complete and another; nobody else, and nowhere else |
| `CompositorLaws.AdoptingPrefers` | src/compositor.rs:809-832 | the desktop goes to the configured output where that is complete, to the first complete one by name where not, and stays where there is none |
| `CompositorLaws.GoneMoves` | src/compositor.rs:836-847 | the desktop's output gone it goes where it belongs, from none; the one beside's gone that ends, and the desktop stays |
| `CompositorLaws.DoneMoves` | src/outputs.rs:491-520 | an output done moves the desktop exactly where it is on none, or where that output is the configured one, new, and another |
| `CompositorLaws.SaidIsListed` | src/outputs.rs:455-520 | what is said of an output takes the place of what was said before, or is listed last, and the others stay as and where they are |
| `CompositorLaws.RemovingMoves` | src/compositor.rs:962-988 | an output unplugged is listed no more; a display beside that was on it ends, a desktop that was goes where it belongs, and a desk that was not stays |
| `CompositorLaws.SeatedBesideWhen` | src/compositor.rs:636-678 | a connection is seated beside if and only if it is newer than all that ended there, the desktop's client is no newer, and there is a complete output that is not the desktop's; and then on the first of those by name |
| `DeclarationProofs.QueueCore` | src/compositor.rs:880-892 | queueing keeps the account: both declarations have one line each, that says where they are |
| `DeclarationProofs.ConfigureCore` | src/compositor.rs:893-926 | configuring keeps the account, and an answer to whatever is out is still to come |
| `DeclarationProofs.SettledInv` | src/compositor.rs:930-941 | after settling nothing is left waiting with none out |
| `DeclarationProofs.AnsweredInv` | src/outputs.rs:683-781 | any answer to any configuration, late or not, keeps the account of the declarations |
| `DeclarationProofs.SyncInv` | src/outputs.rs:784-806 | so does any round trip's end |
| `DeclarationProofs.ManagerInv` | src/outputs.rs:575-601 | so does any change of heads |
| `DeclarationProofs.LeftInv` | src/compositor.rs:440-455 | a client leaving keeps the account |
| `CompositorLaws.DeclaredIsConfiguredUnlessTheSame` | src/compositor.rs:893-926 | with none out, a manager and a headless output, a declaration is answered at once if and only if the output has its width and height and a scale under 0.005 from it; otherwise exactly one new configuration is out, with the client, width, height and scale declared, and it is the one out |
| `CompositorLaws.DeclaredInVainIsAnswered` | src/compositor.rs:905-926 | where the output cannot be configured, or there is none, it is answered at once and nothing is sent |
| `CompositorLaws.WaitedIsConfiguredUnlessTheSame` | src/compositor.rs:930-941 | the same of one that waited, its client still there |
| `CompositorLaws.AskedAgainIsConfiguredUnlessTheSame` | src/outputs.rs:728-749 | the same of one asked again after its layout changed, marked as the retry |
| `CompositorLaws.AnswersSettle` | src/outputs.rs:683-781 | a success to what is out waits for the round trip, a failure or a second cancellation answers it, and an answer to anything else changes nothing |
| `CompositorLaws.AnswersEndResizes` | src/outputs.rs:710-778 | a resize refused is pending no more, and one cancelled is asked for once more where its client still is |
| `CompositorLaws.RoundTripSettles` | src/outputs.rs:784-806 | a round trip answers the declaration it was for if that is out, and changes nothing else |
| `CompositorLaws.HeadsSettle` | src/outputs.rs:575-601 | heads changed answer what is out if and only if one is its desk's, and change nothing otherwise |
| `CompositorLaws.ResizingConfigures` | src/compositor.rs:707-730 | a resize with a size, on an output that can be configured, is pending and its one configuration out; with none nothing changes, and on any other nothing is pending |
| `CompositorLaws.FrameEndsItsResize` | src/capture.rs:193-199 | a frame ends the resize of its own width and height and no other |
| `DeclarationFates.QueueFate` | src/compositor.rs:880-892 | the one a newer declaration replaces is answered, once, and was the same client's for the same desk |
| `DeclarationFates.ConfigureFate` | src/compositor.rs:893-926 | one configured is out or answered, and nothing else's end changes |
| `DeclarationFates.OutSettledFate` | src/outputs.rs:575-601 | the declaration out is answered when it settles, whoever is on its desk, and stays so when what waited runs |
| `DeclarationFates.RunQueuedFate` | src/compositor.rs:930-941 | what waited is configured or answered, unless its client is off its desk |
| `DeclarationFates.AskedDeclareFate` | src/outputs.rs:728-749 | so is one asked again |
| `DeclarationFates.LetGoDrops` | src/compositor.rs:615-624 | what a client had waiting is dropped when it goes, and nothing else ends or changes, what it has out included |
| `DeclarationFates.EndBesideDrops` | src/compositor.rs:683-702 | the same of the display beside |
| `DeclarationFates.NextFate` | src/compositor.rs:860-941 | in every step of every kind: a declaration stays its client's and its desk's; one that has ended stays as it ended; one turns dropped only with its client then off its desk; one turns replaced only with a newer of the same client and desk |
| `DeclarationFates.EndedStaysEnded` | src/compositor.rs:860-941 | so over every run one that was answered or dropped never changes again |
| `DeclarationFates.EveryReplacedHasANewer` | src/compositor.rs:880-892 | in every reachable state one replaced has a newer declaration of the same client and desk |
| `DeclarationFates.NotDroppedWhileItsClientStays` | src/compositor.rs:930-941 | no run drops a declaration while its client stays on its desk |
| `DeclarationFates.EveryDeclarationIsAnsweredOrStillToBe` | src/compositor.rs:860-866 | one accepted in any reachable state, from a client that stays: after any later run it is out or waiting, or has been answered, once |
| `CompositorRuns.EveryRunKeepsTheDesks` | src/compositor.rs:421-455 | in every reachable state the seats mirror the desks, a display beside has an older client on the desktop and another output, what is pending on a desk is its own client's, and what has ended beside never un-ends |
| `DeclarationFates.EveryDeclarationIsAccountedFor` | src/compositor.rs:860-941 | in every reachable state each declaration accepted is exactly one of out, waiting, answered, replaced and answered, or dropped; at most one is out, for the desk it was declared on, and its answer is still to come; none waits with none out, or off its own desk; each is configured at most twice and answered at most once; one replaced has a newer of its client's; and no step drops one whose client is then on its desk, or changes one that has ended |
| `CompositorRuns.NextInv` | src/outputs.rs:555-806 | every event of every kind keeps both invariants, and moves nobody off or onto a desk but by a join, its client's leaving, or the end of the display beside, which counts its client as ended and nobody newer |
| `CompositorRuns.TakenDesktopIsTold` | src/session.rs:471-490 | in the seats a join leaves, the session it displaced is told if and only if the taker is newer; what it reads later is `ToldWhileANewerHolds` |
| `DeskSessions.ToldWhileANewerHolds` | src/session.rs:471-490 | in every reachable state a session that took the desktop and looks is told that it lost it if and only if a newer client is on the desktop just then |
| `DeskSessions.OlderTakerIsNotTold` | src/session.rs:471-490 | one way not to be told: an older client took the desktop |
| `DeskSessions.GoneTakerIsNotTold` | src/session.rs:471-490 | the other: a newer one did and has left |
| `DeskSessions.DisplacedBesideStaysTold` | src/session.rs:471-490 | over every run a connection beside is there or told that it ended, and once told is told at every later look |
| `DeskSessions.AskedBesideIsThereOrTold` | src/compositor.rs:636-678 | so is every connection that asked to be beside, seated or refused |
| `DeskSessions.SeatedBesideIsToldTheTruth` | src/compositor.rs:636-678 | one seated beside that asks once is told, at every later look of every run in any order of numbers, that it ended exactly when it is not there, if and only if nobody newer was there before it |
| `DeskSessions.RunToldTheTruth` | src/session.rs:471-490 | told the truth once, it is told the truth over every run |
| `DeskSessions.BesideIsToldTheTruth` | src/session.rs:471-490 | with joins in the order of numbers, a connection that asked to be beside is told that it ended if and only if it is not there, at every later look |
| `DeskSessions.HolderIsToldTheTruth` | src/session.rs:471-490 | with joins in that order, a client that took the desktop is told that it lost it if and only if another has it, at every later look |
| `CompositorRuns.SeatedBesideIsLive` | src/compositor.rs:636-678 | in the seats its join leaves, a connection seated beside has not ended if and only if nobody newer was there before it; at later looks, `SeatedBesideIsToldTheTruth` |
| `CompositorRuns.OlderJoinEndsBoth` | src/compositor.rs:636-678 | three joins out of order after which both connections beside have been told they ended |
| `VirtualDisplayCounts.NumberOfName` | src/sway.rs:274-280 | a name ending in a dash and a number, a plus before it or not, has that number, and zero where it is past 32 bits |
| `VirtualDisplayCounts.NoNumberOfName` | src/sway.rs:274-280 | one that ends in anything but digits, or in nothing, has none |
| `VirtualDisplayCounts.FirstToGo` | src/sway.rs:257-271 | of the outputs not shared, the one that goes is first by the sort's key, and the first listed of equals |
| `VirtualDisplayCounts.StepMeans` | src/sway.rs:241-272 | one is made if and only if there are too few; nothing is done if and only if there are enough or only the shared one could go; what goes is not shared, is the configured one only where it is alone, and otherwise has the highest number |
| `VirtualDisplayCounts.SomethingCanGo` | src/sway.rs:245-272 | past what is wanted, of at least one, something can always go |
| `VirtualDisplayCounts.VirtualDisplays.constructor` | src/sway.rs:171-184 | nothing asked and nothing in flight |
| `VirtualDisplayCounts.VirtualDisplays.Next` | src/sway.rs:201-228 | a step that landed is noted, and the next named only when none is in flight |
| `VirtualDisplayCounts.VirtualDisplays.Creating` | src/sway.rs:231-233 | the outputs there were are remembered |
| `VirtualDisplayCounts.VirtualDisplays.Unplugging` | src/sway.rs:236-238 | the output going is remembered |
| `VirtualDisplayCounts.VirtualDisplays.Reconcile` | src/compositor.rs:576-612 | what is asked of sway and the account kept of it; a request refused ends the asking |
| `VirtualDisplayCounts.VirtualDisplays.Want` | src/compositor.rs:553-571 | a count that is not one or two, or asked without sway, changes nothing; the numbers are `VirtualDisplayRuns.WantInNumbers` |
| `VirtualDisplayRuns.NextInv` | src/compositor.rs:553-612 | every event keeps the account and what is in flight in step, and leaves nothing undone |
| `VirtualDisplayRuns.OneStepAtATime` | src/sway.rs:164-184 | over every run the account holds at most one step; what is in flight is at most one and one for each output that others made; and with none in flight there are as many as wanted; the exact condition for one is `OneStepInFlight` |
| `VirtualDisplayRuns.OneStepInFlight` | src/sway.rs:164-184 | over every run from the start: at most one step is in flight at each point and whatever follows it but another's output, if and only if no output of another's appears while `creating` is set |
| `VirtualDisplayRuns.OneThroughoutIffNoneIntrudes` | src/sway.rs:164-184 | that, from every state whose account is true |
| `VirtualDisplayRuns.NextTruthful` | src/sway.rs:201-228 | the account of the creation in flight stays true through every event but such an output |
| `VirtualDisplayRuns.IntruderPassesForOurs` | src/sway.rs:207-213 | after such an output a second step is in flight at once, or as soon as the client wants another count |
| `VirtualDisplayRuns.AskedForWhenIdle` | src/sway.rs:201-228 | a step is asked for if and only if the account holds none and the count is not what is wanted |
| `VirtualDisplayRuns.AnothersOutputPassesForOurs` | src/sway.rs:207-213 | another's output passing for the one asked for, after which two creations are in flight |
| `VirtualDisplayRuns.SharedStays` | src/sway.rs:241-244 | an output the desktop stays on, not asked to go when it moved there, is never asked to and is there throughout any run |
| `VirtualDisplayRuns.StaysIfAndOnlyIfNotGoing` | src/sway.rs:179-184 | in every reachable state a desktop that stays on an output keeps it through whatever else happens if and only if `unplugging` does not name it |
| `VirtualDisplayRuns.ChosenOutputCanGo` | src/sway.rs:241-272 | a run in which it does name it, and the output goes |
| `VirtualDisplayRuns.CarriedOutIsOnTheWay` | src/compositor.rs:573-612 | a step carried out brings the count one nearer, and asks for one more if there is need |
| `VirtualDisplayRuns.StepsAreExact` | src/compositor.rs:573-612 | with each step carried out and nothing else changing, the count is what is wanted after exactly as many steps as it was away, and not before |
| `VirtualDisplayRuns.AskingStarts` | src/compositor.rs:553-571 | asking for a count from rest puts the daemon on that way |
| `VirtualDisplayRuns.EveryWishIsOnItsWay` | src/compositor.rs:553-612 | in every run without others' outputs a wish is met, or on its way once the one step in flight is carried out |
| `VirtualDisplayRuns.WantInNumbers` | src/compositor.rs:553-571 | in every reachable state one display or two may be asked for, and of sway alone; the wish then stands unless its request was refused, and a request is made if and only if none is in flight and there are more or fewer than that |
| `VirtualDisplayRuns.NothingForAClientGone` | src/sway.rs:171-175 | after the client has gone no run asks anything of sway until somebody asks again |

## Left out

- The video, tiles, ZRLE, PNG and H.264 encodings: a rectangle is sent with its own pixels, as Raw does. With them go the walk's coupling to the encoders, the frame pacing and the tiles' owed streams.
- The wire: messages are values, so byte order, pixel formats, message lengths and the client's refusals of them are not here. A session's cursor, size and audio announcements are updates without pixels.
- Sockets, shared memory, PipeWire, the Wayland objects themselves, PAM, configuration and logging: only the events they deliver.
- Threads and tasks: each handler is one atomic step, and the session reads the framebuffer under its lock. Time is a number passed in, which never falls.
- Counters that are `u64` or `u32` in the source (generations, client and declaration numbers, cache stamps, the count of a clear run) are unbounded. The walk's `u8` arithmetic and the rectangles' `u16` casts are written out.
- Pixels are kept as rows of four-byte pixels, one sequence, where the source has one flat buffer; the captured frame is the flat buffer, with its stride, that the source reads.
- `Sessions.RawSession.MaybeUpdate`: does not model the wait of a slowed link's frame or an encoder that makes no frame, because both belong to the video path; a fence echoed is taken as the one outstanding, as the source takes it.
- `UpdateLoop.EveryUpdateIsExact`: does not cover a misled look, because the code need not be exact there (`UpdateExactness.LookIsExactWhateverTheFramesHold` is the exact condition); a client answers only fences it was sent.
- `Captures.EveryFrameIsShown`: does not assume damage is right where the whole frame was asked for; a frame asked for by damage is taken to report all that differs from the frame before. The buffer's format and allocation, the retries and the pacing of captures are not here.
- `Keyboards.Keys.PressOrRelease`: does not model xkb's own state; what a keycode yields and whether Shift is active are any functions of the transitions sent. `TypedSymbols` reads them off a keymap with Shift alone: no Caps Lock, no groups, no third-level shift.
- Pointers, scrolling and `aim`: they rest on wlroots' floating-point arithmetic.
- Scales are reals, and an output's size and scale are what the compositor last gave it; how they follow from modes, transforms and heads is not here, nor are cursors, clipboards, geometry messages and the published list.
- Output names in `Compositors` are their places in the order of names; in `VirtualDisplayCounts` they are strings.
- The numbers declarations carry and the ledger of what became of each are bookkeeping of this model: the source keeps only the one out and the ones waiting.
- `DeclarationFates.EveryDeclarationIsAccountedFor`: does not say that the compositor answers a configuration, because it may not; while one is out, an answer that would settle it is still possible.
- `VirtualDisplayRuns.OneStepAtATime`: does not bound what is in flight by one where others make outputs appear, because it need not be (`VirtualDisplayRuns.OneStepInFlight` is the exact condition); an output appears under a name not seen before, as wlroots counts up, and its arrival and the look that follows are one step.
- `CameraProofs.NeverAcrossALoss`: does not model what the decoder makes of a unit; its outcome is any of the ones `take` tells apart.
- `TileCaches.Lru.Touch`: does not model the hash, so two tiles of one hash are one tile.
- `examples/wlcap.rs`, the churn counter and the reports of `examples/tile-recurrence.rs`, the audio queue and its jitter, the state socket and its watcher: a branch or two each.
