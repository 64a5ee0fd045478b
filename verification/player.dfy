/** The player as a whole: its frame list together with its playback state,
    what the constructor sets up, and what `play` does once the sequential
    download has finished. */
module Player {
  import opened Sprites
  import opened Downloader
  import opened Playback

  datatype PlayerState = PlayerState(frames: seq<Frame>, playback: State)

  /** A freshly constructed player: no frames, frame 0, not paused. The
      reference time is only set when the animation loop starts. */
  function Constructed(): (p: PlayerState)
    ensures |p.frames| == 0
    ensures p.playback.currentFrame == p.playback.startFrame == 0 && !p.playback.paused
  {
    PlayerState([], State(0, 0, false, 0))
  }

  /** What `play` leaves behind: the player, the `videoFramesNum` snapshot of
      the animation loop when one was started, the events and effects, and
      whether the completion handler threw. */
  datatype PlayResult = PlayResult(player: PlayerState, loop: Option<int>, events: seq<Event>, effects: seq<Effect>, threw: bool)

  /** `play`, from the download to the `play` event. The fetch results are
      given in URL order and `now` is the time at which the completion
      handler runs. With no URL at all the download completes before the
      handler is registered, so nothing starts. Otherwise the handler starts
      the animation loop and, for a paused player, redraws the current frame,
      which throws before `play` is emitted when that frame is missing. */
  function PlayCompleted(p: PlayerState, results: seq<Option<Blob>>, now: int): (r: PlayResult)
    ensures r.player.frames == p.frames + Sheets(Loaded(results))
    ensures r.player.frames[..|p.frames|] == p.frames
    ensures |r.player.frames| == |p.frames| + FramesPerSheet * |Loaded(results)|
    ensures |results| == 0 ==> r.player == p && r.loop == None && r.effects == [] && !r.threw
    ensures |results| > 0 ==> r.loop == Some(|r.player.frames| - 1)
    ensures |results| > 0 ==> r.player.playback == p.playback.(thenTime := now)
    ensures r.threw <==> |results| > 0 && p.playback.paused && !Drawable(|r.player.frames|, p.playback.currentFrame)
    ensures r.events == [DownloadComplete] + (if |results| > 0 && !r.threw then [Play] else [])
    ensures DrawFrame in r.effects <==> |results| > 0 && p.playback.paused && !r.threw
    ensures r.effects == (if |results| > 0 && p.playback.paused && !r.threw then [DrawFrame] else [])
  {
    SheetsLength(Loaded(results));
    if |results| == 0 then PlayResult(p, None, [DownloadComplete], [], false)
    else
      var frames := p.frames + Sheets(Loaded(results));
      var started := PlayerState(frames, p.playback.(thenTime := now));
      var loop := Some(|frames| - 1);
      if p.playback.paused then
        var drawn := Redraw(Step(started.playback, [], [], false), |frames|);
        if drawn.threw then PlayResult(started, loop, [DownloadComplete], [], true)
        else PlayResult(started, loop, [DownloadComplete, Play], drawn.effects, false)
      else PlayResult(started, loop, [DownloadComplete, Play], [], false)
  }

  /** The first `play` of a new player starts it running from frame 0, with a
      loop snapshot of 25 frames per loaded sheet minus one, and emits
      `downloadcomplete` and `play` without redrawing. */
  lemma PlayAfterConstruction(results: seq<Option<Blob>>, now: int)
    ensures var r := PlayCompleted(Constructed(), results, now);
            |results| > 0 ==>
              && r.player.playback == State(0, 0, false, now)
              && r.loop == Some(FramesPerSheet * |Loaded(results)| - 1)
              && r.events == [DownloadComplete, Play]
              && r.effects == [] && !r.threw
  {
  }

  /** The state the first `play` leaves behind meets the loop invariant: once
      at least one sheet has loaded, the animation loop it starts keeps the
      frame index below the snapshot and never throws, however many ticks
      run. When every fetch was falsy the snapshot is -1 and the loop's
      first firing tick throws on the missing frame 0. */
  lemma PlayThenRun(results: seq<Option<Blob>>, now: int, nows: seq<int>)
    ensures var r := PlayCompleted(Constructed(), results, now);
            |results| > 0 && |Loaded(results)| > 0 ==>
              var run := Run(r.player.playback, nows, Interval, r.loop.value, |r.player.frames|);
              0 <= run.state.currentFrame < |r.player.frames| - 1 && !run.threw
    ensures var r := PlayCompleted(Constructed(), results, now);
            |results| > 0 && |Loaded(results)| == 0 && 0 < |nows| && Fires(r.player.playback, nows[0], Interval) ==>
              Run(r.player.playback, nows, Interval, r.loop.value, |r.player.frames|).threw
  {
    var r := PlayCompleted(Constructed(), results, now);
    if |results| > 0 && |Loaded(results)| > 0 {
      RunKeepsBound(r.player.playback, nows, Interval, r.loop.value, |r.player.frames|);
    }
  }

  /** A seek before anything is loaded starts the download and pauses; once
      the sheets have arrived the player is still paused at the frame sought,
      and `play` is emitted exactly when that frame exists. */
  lemma SeekBeforeLoad(value: int, results: seq<Option<Blob>>, now: int)
    ensures var g := GotoFrame(Constructed().playback, 0, value);
            && g.effects == [StartDownload] && g.state.paused && !g.threw
    ensures var g := GotoFrame(Constructed().playback, 0, value);
            var r := PlayCompleted(PlayerState([], g.state), results, now);
            && r.player.playback.paused && r.player.playback.currentFrame == value
            && (|results| > 0 ==>
                  && (Play in r.events <==> 0 <= value < FramesPerSheet * |Loaded(results)|)
                  && (DrawFrame in r.effects <==> 0 <= value < FramesPerSheet * |Loaded(results)|))
  {
  }

  /** The seven sheets of the stock configuration: when all seven arrive a new
      player holds 175 frames with a loop snapshot of 174, and a running tick
      past frame 173 is the one that rewinds, pauses and emits `end`. */
  lemma SevenSheets(results: seq<Option<Blob>>, s: State, now: int, later: int)
    requires |results| == 7 && forall i :: 0 <= i < |results| ==> results[i].Some?
    requires s.currentFrame == 173 && !s.paused && Fires(s, later, Interval)
    ensures var r := PlayCompleted(Constructed(), results, now);
            |r.player.frames| == 175 && r.loop == Some(174)
    ensures var r := Tick(s, later, Interval, 174, 175);
            r.state.currentFrame == 0 && r.state.paused && r.events == [Pause, End]
            && r.effects == [DrawFrame]
  {
    LoadedAllTruthy(results);
    SheetsLength(Loaded(results));
  }
}
