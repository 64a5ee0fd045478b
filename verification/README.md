# Frame-Player in Dafny

A model of the core of Frame-Player, a browser widget that imitates video
playback. It downloads a list of sprite-sheet images one after the other,
cuts each sheet into a 5x5 grid of 128x72 frames, and steps through the
frames at 10 frames per second on a canvas. It has play/pause/seek
controls and dispatches `play`, `pause`, `resume`, `end` and
`downloadcomplete` events.

The model has four modules:

- `Sprites` (sprites.dfy) is the slicer `parseJPG`. A sheet is an opaque
  `Blob` token. A `Frame` records its sheet and the offset of its cell.
  `SheetFrames` is the reference definition of the 25 cells in row-major
  order. `ParseJpg` is the source's nested row/column loop, proved to
  append exactly that list.
- `Downloader` (download.dfy) is the accumulation loop of `download`.
  Each fetch result is an `Option<Blob>`, and `None` stands for a falsy
  response. `Loaded` is the list of sheets that arrived, in URL order.
  `Sheets` is the list of frames those sheets contribute. `Download` is the
  loop, proved to build exactly `frames + Sheets(Loaded(results))`.
- `Playback` (playback.dfy) is the playback state machine. The state is
  `{currentFrame, startFrame, paused, thenTime}`, where `thenTime` is the
  loop's `then`. Every operation is a pure step that returns the new state,
  the events it dispatches and the effects it requests (`DrawFrame`,
  `StartDownload`). A step also records whether it threw. The one
  exception is `drawFrame`'s TypeError when the frame to draw is missing
  from the list (`Drawable` fails). `Tick` is one `processFrame` call at
  time `now`. It takes the `videoFramesNum` snapshot made when `render`
  started, and the length of the frame list when the tick runs. `Run`
  folds `Tick` over a sequence of times and stops at a tick that throws,
  because such a tick never schedules the next one.
- `Player` (player.dfy) joins the frame list and the playback state. It
  models the constructor and what `play` does once the download has
  finished. `PlayCompleted` appends the same frames that `Downloader.Download`
  builds.

All arithmetic is on integers. `Date.now()` returns whole milliseconds.
The interval `1000 / fps` with `fps = 10` is exactly 100. `Tick` takes the
interval as a positive integer parameter, and `Playback.Interval` is the
source's value. The remainder `delta % interval` is only taken when
`delta > interval > 0`. For positive operands JavaScript's truncating `%`
and Dafny's Euclidean `%` agree.

Four behaviours of the code are kept exactly as written:

- A new player is not paused. The constructor sets `paused = false`.
- The end of the sequence is detected when `currentFrame + 1 >=
  videoFramesNum`, where `videoFramesNum` is the frame count minus one.
  So the last frame is never drawn by the loop.
  `Playback.TickNeverDrawsLastFrame` states this, and the model keeps the
  behaviour as written.
- A wrap calls `pause()` before dispatching `end`. It therefore emits
  `[Pause, End]`.
- A redraw of a missing frame throws. A seek with frames loaded to a
  value outside the list then stops before `pause()`, so `paused` keeps
  its old value. A paused `play` whose current frame is missing never emits
  `play`. A tick that draws a missing frame ends the animation loop.

## Model

| member | source | states |
|---|---|---|
| Sprites.CellAt | src/js/frame-player.js:188-194 | position `5*row + col` of a sheet's frames is the cell with `x = 128*col` and `y = 72*row` |
| Sprites.SheetShape | src/js/frame-player.js:186-199 | a sheet yields exactly 25 frames; all come from that sheet, have offsets on the 128x72 grid inside the 5x5 sheet, and are pairwise distinct |
| Sprites.ParseJpg | src/js/frame-player.js:186-199 | the nested loop appends exactly the 25 row-major cells; the earlier frames stay unchanged as a prefix |
| Downloader.LoadedLength | src/js/frame-player.js:204-209 | the number of loaded sheets is the number of results minus the number of falsy ones |
| Downloader.LoadedAppend | src/js/frame-player.js:204-209 | loading two consecutive runs of results loads the first run's sheets, then the second run's |
| Downloader.LoadedSkipsFalsy | src/js/frame-player.js:206-208 | a falsy result contributes nothing, wherever it stands |
| Downloader.LoadedAllTruthy | src/js/frame-player.js:204-209 | when every fetch succeeds, every sheet is loaded, in URL order |
| Downloader.SheetsLength | src/js/frame-player.js:204-209 | each loaded sheet adds exactly 25 frames |
| Downloader.SheetsAt | src/js/frame-player.js:204-209 | frame `25*m + k` of the accumulated list is cell `k` of the `m`-th loaded sheet |
| Downloader.Download | src/js/frame-player.js:201-209 | the loop appends the sheets of the truthy results in URL order; the list grows by 25 per loaded sheet and keeps the old frames as a prefix |
| Downloader.DownloadedCount | src/js/frame-player.js:204-209 | after a download the list holds 25 more frames per truthy result, and none for a falsy one |
| Playback.Redraw | src/js/frame-player.js:64-70 | `drawFrame` requests a redraw when the frame exists and throws otherwise; state and events are unchanged |
| Playback.IntervalValue | src/js/frame-player.js:30 | the frame interval `1000 / fps` is the positive integer 100 |
| Playback.PausePlayer | src/js/frame-player.js:97-102 | `pause` sets `paused` to true, changes nothing else and emits `pause` |
| Playback.ResumePlayer | src/js/frame-player.js:90-95 | `resume` sets `paused` to false, changes nothing else and emits `resume` |
| Playback.TogglePlayer | src/js/frame-player.js:104-111 | toggling negates `paused`, changes nothing else, emits `resume` when it was paused and `pause` otherwise, and requests no redraw or download |
| Playback.Run | src/js/frame-player.js:34-61 | the rescheduled loop never touches `startFrame` and never moves the reference time backwards; it can only throw after at least one tick |
| Playback.ToggleTwice | src/js/frame-player.js:104-111 | toggling twice restores the state and emits the two opposite events |
| Playback.GotoFrame | src/js/frame-player.js:113-126 | a seek sets `currentFrame` and `startFrame` to the value. With no frames loaded it starts the download, pauses and emits `pause`. With frames loaded and the value inside the list it redraws, pauses and emits `pause`. With the value outside the list the redraw throws, nothing is emitted and `paused` is unchanged |
| Playback.GotoFrameIdempotent | src/js/frame-player.js:113-126 | seeking twice to the same frame gives the same state as seeking once |
| Playback.Tick | src/js/frame-player.js:34-56 | a tick that does not fire changes nothing, emits nothing and does not throw; a firing tick leaves `now` less than one interval past the new reference time; `startFrame` is never touched |
| Playback.TickDrift | src/js/frame-player.js:36-39 | a firing tick advances the reference time by the whole number of elapsed intervals, which is at least one, and keeps the remainder |
| Playback.TickPausedOnlyClock | src/js/frame-player.js:38-41 | a firing tick on a paused player changes only the reference time, emits nothing and does not throw |
| Playback.TickAdvances | src/js/frame-player.js:41-54 | a firing tick on a running player moves to the next frame when that is below `videoFramesNum`, and otherwise rewinds to 0, pauses and emits `end` exactly once; it then redraws, and throws exactly when the new frame is missing from the list |
| Playback.TickMonotone | src/js/frame-player.js:42-46 | the frame index stays, moves up by one, or rewinds to 0 together with an `end` event |
| Playback.TickKeepsBound | src/js/frame-player.js:32-54 | a tick keeps `0 <= currentFrame < videoFramesNum`, and does not throw while the list holds at least `videoFramesNum` frames |
| Playback.TickNeverDrawsLastFrame | src/js/frame-player.js:32-54 | with two or more frames, a frame a tick draws is never the last frame of the list |
| Playback.TickAfterGotoFrame | src/js/frame-player.js:113-126 | after a completed seek the next tick leaves the player paused at the frame sought. After a seek that threw on a running player, a firing tick past the end rewinds, pauses and emits `end`, and one below frame -1 throws |
| Playback.RunKeepsBound | src/js/frame-player.js:34-61 | over any sequence of ticks the frame index stays in `[0, videoFramesNum)`, and the loop never stops while the list holds at least `videoFramesNum` frames |
| Playback.RunWhilePaused | src/js/frame-player.js:38-58 | a paused player stays paused at the same frame and emits, draws and throws nothing, however many ticks run |
| Playback.RunEndsAtMostOnce | src/js/frame-player.js:41-58 | without outside calls the loop emits `end` at most once, and after it the player is paused at frame 0 |
| Player.Constructed | src/js/frame-player.js:4-13 | a new player has no frames, stands at frame 0 with start frame 0, and is not paused |
| Player.PlayCompleted | src/js/frame-player.js:73-88 | the frame list becomes the old list followed by the 25 frames of each loaded sheet in URL order. With no URL only `downloadcomplete` is emitted and nothing else changes. Otherwise the loop starts with snapshot frame count minus one at the given time. A paused player redraws and throws exactly when its frame is missing. `play` follows `downloadcomplete` exactly when nothing threw |
| Player.PlayAfterConstruction | src/js/frame-player.js:73-88 | the first `play` of a new player leaves it running from frame 0 with a loop snapshot of 25 frames per loaded sheet minus one, and emits `downloadcomplete` then `play` without redrawing |
| Player.PlayThenRun | src/js/frame-player.js:30-88 | the loop the first `play` starts keeps the frame index below the snapshot and never throws once a sheet has loaded; with every fetch falsy its first firing tick throws on the missing frame 0 |
| Player.SeekBeforeLoad | src/js/frame-player.js:113-126 | a seek before anything is loaded starts the download and pauses; after the download the player is still paused at the frame sought, and `play` is emitted and the frame redrawn exactly when that frame exists |
| Player.SevenSheets | src/js/frame-player.js:3 | with all seven stock sheets a new player holds 175 frames with a loop snapshot of 174, and the running tick past frame 173 rewinds, pauses, emits `end` and redraws frame 0 |

## Left out

- DOM work is not modelled: the canvas, the control bar, the toggle icon
  (`updateToggleButton`) and the progress bar's `value` and `max`. It is
  user interface wiring. The model assumes every element it looks up
  exists.
- Playback.GotoFrame: assumes the page defines a global `player` with a
  progress bar. Line 122 reads that undeclared global. Without one,
  `gotoFrame` throws a ReferenceError after its redraw or download and
  before `pause()`.
- The HTTP fetch (`downloadSingleImage`), `URL.createObjectURL` and the
  `performance.now` timing carried by `downloadcomplete` are browser I/O.
  The fetch results are an input in URL order. A frame records its sheet
  itself, not a fresh object URL for it. The elapsed-time detail is not
  modelled.
- `requestAnimationFrame` scheduling is not modelled. The never-ending loop
  is a pure `Tick` per call, and `Run` is a finite prefix of the loop.
- `drawFrame` is modelled only as the `DrawFrame` effect, or as the
  TypeError it throws when the frame is missing. The canvas blitting and
  the asynchronous image reload are graphics side effects.
- The progress-bar click that computes the seek target is not modelled.
  That computation is floating-point geometry. `GotoFrame` takes the
  resulting integer.
- The `on` and `dispatchEvent` plumbing is replaced by the event list of
  each step. Listeners that pile up when `play` is called repeatedly are
  not modelled. Neither is the extra animation loop that each completed
  download starts.
- Player.PlayCompleted: the download is treated as finishing atomically. A `pause`,
  `resume` or seek made while the fetches are still in flight is not
  interleaved. The contract covers the state once the `downloadcomplete`
  handler has run. With no URL, the handler registered after the
  synchronous completion stays registered for a later download; that
  later firing is not modelled.
