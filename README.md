# VLMC clip workflow and library lookup, modelled in Dafny

VLMC is a video editor built on LibVLC. This project models two pieces of it.

The first is the **clip workflow** (`ClipWorkflow`). It drives one clip's media
player and tracks its state. That state is set through a two-slot handshake:
the current state, plus a pending ("required") state that `checkStateChange`
applies and then clears. The number of computed frame buffers decides pauses:
a full buffer stack asks for a pause, and a drained stack asks a paused
workflow to resume. The player's pause and unpause callbacks record how long
each pause lasted. `computePtsDiff` then shifts frame timestamps (PTS) by that
duration, so the output timeline keeps running.

The second is the **library's keyed lookup** (`Library::getElementByUuid`).
Media and clips are kept in two separate tables keyed by UUID. A lookup returns
the stored element, or NULL when the key is absent.

Files:

- `ClipWorkflowSpec.dfy` (module `ClipWorkflowSpec`): the workflow's fields as
  a value (`Fields`) and each operation as a function on it. It also holds the
  lemmas about single operations, short sequences of them, and traces of PTS
  events.
- `ClipWorkflow.dfy` (module `Workflow`): class `ClipWorkflow`, whose fields
  the methods update in place. Each method's `ensures` ties the new fields
  (`Snapshot()`) to the matching `ClipWorkflowSpec` function of the old ones.
- `MediaLibrary.dfy` (module `MediaLibrary`): the two UUID-keyed tables and
  `GetElementByUuid` over a `map`.
- `Optional.dfy`: the `Option` datatype, which stands in for a pointer that
  may be NULL.

Inputs and environment:

- The computed-buffer count and its maximum (`getNbComputedBuffers`,
  `getMaxComputedBuffers`) are parameters of `CommonUnlock` and
  `PostGetOutput`.
- The clock `mdate()` is the `now` parameter of the two player callbacks.
- The media player is modelled only by whether one is held
  (`hasMediaPlayer`).

Two notes on what the code does:

- The first statement of `computePtsDiff` fills an unset previous PTS with
  `pts`. Both branches that follow overwrite the previous PTS, so that
  statement has no visible effect. The model keeps it in the method and leaves
  it out of the specification function.
- `commonUnlock` and `postGetOutput` call `pause()` on the media player without
  checking that it exists. So the class methods require a player on exactly
  those branches.

## Model

| member | source | states |
|---|---|---|
| `Workflow.ClipWorkflow.constructor` | src/Workflow/ClipWorkflow.cpp:33-47 | a new workflow is `Stopped`, has no pending state (`None`) and holds no media player |
| `Workflow.ClipWorkflow.CheckStateChange` | src/Workflow/ClipWorkflow.cpp:60-70 | the new fields are `ClipWorkflowSpec.CheckStateChange` of the old ones |
| `ClipWorkflowSpec.CheckStateChange` | src/Workflow/ClipWorkflow.cpp:60-70 | the pending state is `None` afterwards; a pending state becomes the current state; with nothing pending, nothing changes; no other field changes |
| `ClipWorkflowSpec.CheckStateChangeIdempotent` | src/Workflow/ClipWorkflow.cpp:60-70 | a second consecutive `checkStateChange` is a no-op |
| `Workflow.ClipWorkflow.QueryStateChange` | src/Workflow/ClipWorkflow.cpp:170-174 | the new fields are `ClipWorkflowSpec.QueryStateChange` of the old ones |
| `ClipWorkflowSpec.QueryStateChange` | src/Workflow/ClipWorkflow.cpp:170-174 | only the pending state changes, to the requested state; the current state is untouched |
| `ClipWorkflowSpec.QueryThenCheck` | src/Workflow/ClipWorkflow.cpp:170-174 | a queried state (other than `None`), once checked, is the current state and nothing is pending |
| `Workflow.ClipWorkflow.SetState` | src/Workflow/ClipWorkflow.cpp:163-168 | the new fields are `ClipWorkflowSpec.SetState` of the old ones |
| `ClipWorkflowSpec.SetState` | src/Workflow/ClipWorkflow.cpp:163-168 | only the current state changes, to the given state; the pending state is untouched |
| `Workflow.ClipWorkflow.IsEndReached` | src/Workflow/ClipWorkflow.cpp:107-111 | true exactly when the state is `EndReached` |
| `Workflow.ClipWorkflow.IsStopped` | src/Workflow/ClipWorkflow.cpp:113-117 | true exactly when the state is `Stopped` |
| `Workflow.ClipWorkflow.IsRendering` | src/Workflow/ClipWorkflow.cpp:157-161 | true exactly when the state is `Rendering` |
| `Workflow.ClipWorkflow.GetState` | src/Workflow/ClipWorkflow.cpp:119-122 | returns the current state and changes nothing |
| `ClipWorkflowSpec.StatusAfterCallbacks` | src/Workflow/ClipWorkflow.cpp:90-149 | after loading completes the workflow reports rendering and neither stopped nor end reached; after the end is reached it reports end reached and neither rendering nor stopped; after a stop that found a player it reports stopped and neither rendering nor end reached |
| `Workflow.ClipWorkflow.Initialize` | src/Workflow/ClipWorkflow.cpp:72-88 | the new fields are `ClipWorkflowSpec.Initialize` of the old ones |
| `ClipWorkflowSpec.Initialize` | src/Workflow/ClipWorkflow.cpp:78-82 | the current PTS, previous PTS and pause duration are reset to the unset value -1 and a media player is held; the state, pending state and pause start are untouched |
| `Workflow.ClipWorkflow.LoadingComplete` | src/Workflow/ClipWorkflow.cpp:90-99 | the new fields are `ClipWorkflowSpec.LoadingComplete` of the old ones |
| `ClipWorkflowSpec.LoadingComplete` | src/Workflow/ClipWorkflow.cpp:90-99 | the state becomes `Rendering`; nothing else changes |
| `Workflow.ClipWorkflow.ClipEndReached` | src/Workflow/ClipWorkflow.cpp:124-127 | the new fields are `ClipWorkflowSpec.ClipEndReached` of the old ones |
| `ClipWorkflowSpec.ClipEndReached` | src/Workflow/ClipWorkflow.cpp:124-127 | the state becomes `EndReached`; nothing else changes |
| `Workflow.ClipWorkflow.Stop` | src/Workflow/ClipWorkflow.cpp:134-149 | the new fields are `ClipWorkflowSpec.Stop` of the old ones |
| `ClipWorkflowSpec.Stop` | src/Workflow/ClipWorkflow.cpp:134-149 | with a player: the state is `Stopped`, nothing is pending and no player is held; without a player: nothing changes; the PTS fields never change |
| `ClipWorkflowSpec.StopIdempotent` | src/Workflow/ClipWorkflow.cpp:134-149 | a second stop changes nothing |
| `Workflow.ClipWorkflow.CommonUnlock` | src/Workflow/ClipWorkflow.cpp:230-248 | with a player held whenever the stack is full, the new fields are `ClipWorkflowSpec.CommonUnlock` of the old ones |
| `ClipWorkflowSpec.CommonUnlock` | src/Workflow/ClipWorkflow.cpp:230-248 | nothing is pending afterwards; the final state is the pending state if one was queued, else `PauseRequired` if the computed-buffer count equals the maximum, else unchanged; no other field changes |
| `Workflow.ClipWorkflow.PostGetOutput` | src/Workflow/ClipWorkflow.cpp:212-228 | with a player held whenever the unpause branch runs, the new fields are `ClipWorkflowSpec.PostGetOutput` of the old ones |
| `ClipWorkflowSpec.PostGetOutput` | src/Workflow/ClipWorkflow.cpp:212-228 | the state changes exactly when it is `Paused` and the count is below the maximum divided by 3 (rounded down), and then it becomes `UnpauseRequired`; no other field changes |
| `Workflow.ClipWorkflow.MediaPlayerPaused` | src/Workflow/ClipWorkflow.cpp:266-272 | the new fields are `ClipWorkflowSpec.MediaPlayerPaused` of the old ones |
| `ClipWorkflowSpec.MediaPlayerPaused` | src/Workflow/ClipWorkflow.cpp:266-272 | the state becomes `Paused` and the pause start is the clock reading; nothing else changes |
| `Workflow.ClipWorkflow.MediaPlayerUnpaused` | src/Workflow/ClipWorkflow.cpp:274-279 | the new fields are `ClipWorkflowSpec.MediaPlayerUnpaused` of the old ones |
| `ClipWorkflowSpec.MediaPlayerUnpaused` | src/Workflow/ClipWorkflow.cpp:274-279 | the state becomes `Rendering` and the pause duration is the clock reading minus the pause start; nothing else changes |
| `Workflow.ClipWorkflow.ComputePtsDiff` | src/Workflow/ClipWorkflow.cpp:250-264 | the new fields are `ClipWorkflowSpec.ComputePtsDiff` of the old ones |
| `ClipWorkflowSpec.ComputePtsDiff` | src/Workflow/ClipWorkflow.cpp:250-264 | afterwards the pause duration is unset and the current PTS is at least the previous PTS and at least `pts`, and equal to one of them; the previous PTS is the prior current PTS (`pts` while unset), plus the pending pause duration if one was set; no other field changes |
| `ClipWorkflowSpec.FirstFrameAfterInitialize` | src/Workflow/ClipWorkflow.cpp:250-264 | the first frame after initialize sets both the current and the previous PTS to its own timestamp |
| `ClipWorkflowSpec.PauseCycle` | src/Workflow/ClipWorkflow.cpp:212-279 | a full pause cycle (full stack, player paused at t0, drained stack, player resumed at t1, next frame) moves the state through `PauseRequired`, `Paused`, `UnpauseRequired` and `Rendering`; when t1 - t0 is not -1 (which the code would take for "no pause pending"), the next frame's previous PTS is the old current PTS plus t1 - t0 |
| `ClipWorkflowSpec.RunAppend` | src/Workflow/ClipWorkflow.cpp:250-279 | running a trace of PTS events in two parts gives the same fields as running it in one |
| `ClipWorkflowSpec.ApplyKeepsSane` | src/Workflow/ClipWorkflow.cpp:250-279 | one frame or player callback keeps the PTS fields consistent with a clock that never runs backwards, never lowers a set current PTS, and leaves a frame's current PTS at least its timestamp |
| `ClipWorkflowSpec.WellTimedSplit` | src/Workflow/ClipWorkflow.cpp:266-279 | a trace whose clock never runs backwards, cut in two, gives two such traces, the second starting at the clock reading the first ends at |
| `ClipWorkflowSpec.PtsNeverGoesBackwards` | src/Workflow/ClipWorkflow.cpp:250-279 | over any trace of frames and pause/unpause callbacks with a clock that never runs backwards (and non-negative frame timestamps), the PTS fields stay consistent with the clock, the final current PTS is not below its value at the start of the trace, and it is at least every frame's timestamp |
| `ClipWorkflowSpec.PtsNeverDecreasesAtAnyStep` | src/Workflow/ClipWorkflow.cpp:250-279 | along such a trace, no single event lowers a current PTS that has been set, and once set it stays set |
| `ClipWorkflowSpec.RunningMaximum` | src/Workflow/ClipWorkflow.cpp:250-264 | after initialize (which resets the PTS fields, src/Workflow/ClipWorkflow.cpp:78-80), with non-negative frame timestamps and no pauses, the current PTS is the largest timestamp so far and the previous PTS the largest before the last frame |
| `Workflow.LifeCycle` | src/Workflow/ClipWorkflow.cpp:33-149 | a caller's view: construct, initialize, one frame, stop twice ends stopped, with nothing pending, no player, and both PTS fields equal to the frame's timestamp |
| `MediaLibrary.GetElementByUuid` | src/Library/Library.h:56-63 | the result is present exactly when the key is in the table, and then it is the element stored under that key (absent stands for NULL); the table is a value and is unchanged |
| `MediaLibrary.LookupMatchesItems` | src/Library/Library.h:56-63 | a lookup returns `x` for a key exactly when the pair (key, `x`) is an entry of the table |
| `MediaLibrary.LookupAfterStore` | src/Library/Library.h:56-63 | an element just stored under a key is found under it; lookups of other keys are unaffected |
| `MediaLibrary.LookupAfterRemove` | src/Library/Library.h:56-63 | a key just removed is not found |
| `MediaLibrary.TablesAreSeparate` | src/Library/Library.h:53-54 | the media and clip tables are separate maps: replacing one never changes a lookup in the other |

## Left out

- Locking and waiting (`QReadWriteLock`, `QMutex`, `WaitCondition`) are left out. The model is sequential. So are `preGetOutput`, `waitForCompleteInit`, the wake-up in `loadingComplete`, and the wake-up on a single computed buffer in `commonUnlock`. They exist only for concurrency.
- What LibVLC and the memory pool do is left out: creating the media in `initialize` (`fake:///` or `file:///` by file type), `initVlcOutput`, `play`/`pause`/`stop` on the player, releasing it, deleting the media, and `setTime` with `flushComputedBuffers`. The player is modelled only as held or not held.
- `adjustBegin` is left out because it divides by a floating-point frame rate.
- Qt signal and slot wiring (`connect`, `disconnect`) and the `qDebug`/`qWarning` logging are left out.
- The clip pointer held by the workflow, and the accessors `getClip`, `getMediaPlayer` and `getStateLock`, are left out. They return a pointer and need no proof.
- PTS fields are timestamps of type `qint64`. The model uses unbounded integers: the sums in `computePtsDiff` and `mediaPlayerUnpaused` are not checked for 64-bit overflow.
- The unset value -1 is also a possible timestamp. `PtsNeverGoesBackwards`, `PtsNeverDecreasesAtAnyStep` and `RunningMaximum` assume non-negative frame timestamps, so the sentinel never collides with a real one.
- `Library::getMedia` and `Library::getClip` are declared at src/Library/Library.h:48-49. Their bodies are in Library.cpp, which is not part of this model. The model gives the lookup helper and the two tables it is applied to.
- Workflow.ClipWorkflow.CommonUnlock: requires a media player when the buffer stack is full. On that branch the source calls `pause()` on the player without a NULL check (src/Workflow/ClipWorkflow.cpp:238), so a call without a player crashes. That crash is not modelled.
- Workflow.ClipWorkflow.PostGetOutput: requires a media player when a paused workflow is to be unpaused. On that branch the source calls `pause()` on the player without a NULL check (src/Workflow/ClipWorkflow.cpp:223), so a call without a player crashes. That crash is not modelled.
- MediaLibrary.GetElementByUuid: a stored element is modelled as a value that is never NULL. The source also returns NULL when the key is present but the stored pointer is NULL. The model then returns `Some` of that element, so "present exactly when the key is in the table" assumes that stored pointers are never NULL.
- The library slots `newMediaLoadingAsked`, `removingMediaAsked` and `metaDataComputed` are declared without bodies in the header and are not modelled. The same goes for its signals and its singleton construction.
