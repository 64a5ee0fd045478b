/** The playback state machine: one tick of the animation loop, and the
    transport operations pause, resume, toggle and seek. Every operation is a
    pure step returning the new state together with the events it emits and
    the side effects it asks for. */
module Playback {

  /** The events the player dispatches on its container. */
  datatype Event = Play | Pause | Resume | End | DownloadComplete

  /** Side effects outside the state: redrawing the current frame on the
      canvas, or starting the sequential download of the sheets. */
  datatype Effect = DrawFrame | StartDownload

  /** The playback state. `thenTime` (the source's `then`) is the reference time of the animation
      loop, in whole milliseconds. */
  datatype State = State(currentFrame: int, startFrame: int, paused: bool, thenTime: int)

  /** The outcome of one operation. `threw` records that the operation
      stopped with an exception after producing `state`, `events` and
      `effects`. The only exception the player raises is `drawFrame`'s
      TypeError when the frame to draw is missing from the list. */
  datatype Step = Step(state: State, events: seq<Event>, effects: seq<Effect>, threw: bool)

  /** `drawFrame` finds a frame at `index` in a list of `frameCount` frames. */
  predicate Drawable(frameCount: int, index: int) {
    0 <= index < frameCount
  }

  /** Ends `step` with `drawFrame` on its current frame: the redraw is
      requested when the frame exists, and the step throws otherwise. */
  function Redraw(step: Step, frameCount: int): (r: Step)
    requires !step.threw
    ensures r.state == step.state && r.events == step.events
    ensures r.threw <==> !Drawable(frameCount, step.state.currentFrame)
    ensures r.effects == step.effects + (if r.threw then [] else [DrawFrame])
  {
    if Drawable(frameCount, step.state.currentFrame) then step.(effects := step.effects + [DrawFrame])
    else step.(threw := true)
  }

  const Fps: int := 10

  /** Milliseconds between frames; `1000 / 10` is exact, so no floating point
      is involved. */
  const Interval: int := 1000 / Fps

  lemma IntervalValue()
    ensures Interval == 100 && 0 < Interval
  {
  }

  /** A tick at time `now` fires when more than one interval has elapsed
      since the reference time. */
  predicate Fires(s: State, now: int, interval: int) {
    now - s.thenTime > interval
  }

  /** `pause`: the player is paused and says so. */
  function PausePlayer(s: State): (r: Step)
    ensures r.state.paused && r.state.(paused := s.paused) == s
    ensures r.events == [Pause] && r.effects == [] && !r.threw
  {
    Step(s.(paused := true), [Pause], [], false)
  }

  /** `resume`: the player is running and says so. */
  function ResumePlayer(s: State): (r: Step)
    ensures !r.state.paused && r.state.(paused := s.paused) == s
    ensures r.events == [Resume] && r.effects == [] && !r.threw
  {
    Step(s.(paused := false), [Resume], [], false)
  }

  /** `togglePlayer`: resumes a paused player and pauses a running one. */
  function TogglePlayer(s: State): (r: Step)
    ensures r.state.paused == !s.paused
    ensures r.state.(paused := s.paused) == s
    ensures r.events == [if s.paused then Resume else Pause]
    ensures r.effects == [] && !r.threw
  {
    if s.paused then ResumePlayer(s) else PausePlayer(s)
  }

  /** Toggling twice restores the state, emitting the two opposite events. */
  lemma ToggleTwice(s: State)
    ensures TogglePlayer(TogglePlayer(s).state).state == s
    ensures TogglePlayer(s).events + TogglePlayer(TogglePlayer(s).state).events
            == (if s.paused then [Resume, Pause] else [Pause, Resume])
  {
  }

  /** A seek reaches its final `pause`: either nothing is loaded yet, or the
      frame sought exists and `drawFrame` succeeds. */
  predicate SeekLands(frameCount: nat, value: int) {
    frameCount == 0 || Drawable(frameCount, value)
  }

  /** `gotoFrame`: seeks to `value` and pauses there. With no frames loaded
      yet it starts the download; otherwise it redraws the frame, and when
      that frame is missing the redraw throws before the player pauses. The
      page is assumed to hold the global `player` the seek reads. */
  function GotoFrame(s: State, frameCount: nat, value: int): (r: Step)
    ensures r.state.currentFrame == r.state.startFrame == value
    ensures r.state.thenTime == s.thenTime
    ensures r.threw <==> !SeekLands(frameCount, value)
    ensures r.state.paused <==> SeekLands(frameCount, value) || s.paused
    ensures r.events == (if SeekLands(frameCount, value) then [Pause] else [])
    ensures StartDownload in r.effects <==> frameCount == 0
    ensures DrawFrame in r.effects <==> Drawable(frameCount, value)
    ensures r.effects == (if frameCount == 0 then [StartDownload]
                          else if Drawable(frameCount, value) then [DrawFrame] else [])
  {
    var seeked := s.(currentFrame := value, startFrame := value);
    if frameCount == 0 then
      var p := PausePlayer(seeked);
      Step(p.state, p.events, [StartDownload], false)
    else
      var drawn := Redraw(Step(seeked, [], [], false), frameCount);
      if drawn.threw then drawn
      else
        var p := PausePlayer(drawn.state);
        Step(p.state, p.events, drawn.effects, false)
  }

  /** Seeking twice to the same frame is the same as seeking once. */
  lemma GotoFrameIdempotent(s: State, frameCount: nat, value: int)
    ensures GotoFrame(GotoFrame(s, frameCount, value).state, frameCount, value).state
            == GotoFrame(s, frameCount, value).state
  {
  }

  /** One tick of the animation loop at time `now`. `videoFramesNum` is the
      frame count minus one, taken when the loop started; `frameCount` is the
      length of the frame list when the tick runs. */
  function Tick(s: State, now: int, interval: int, videoFramesNum: int, frameCount: int): (r: Step)
    requires 0 < interval
    ensures r.state.startFrame == s.startFrame
    ensures !Fires(s, now, interval) ==> r == Step(s, [], [], false)
    ensures Fires(s, now, interval) ==> 0 <= now - r.state.thenTime < interval
  {
    var delta := now - s.thenTime;
    if delta <= interval then Step(s, [], [], false)
    else
      var clocked := s.(thenTime := now - delta % interval);
      if clocked.paused then Step(clocked, [], [], false)
      else if clocked.currentFrame + 1 >= videoFramesNum then
        var p := PausePlayer(clocked.(currentFrame := 0));
        Redraw(Step(p.state, p.events + [End], [], false), frameCount)
      else
        Redraw(Step(clocked.(currentFrame := clocked.currentFrame + 1), [], [], false), frameCount)
  }

  /** Drift compensation: a firing tick moves the reference time forward by
      the whole intervals elapsed, keeping the overshoot, so that `now` lies
      less than one interval past the new reference time. */
  lemma TickDrift(s: State, now: int, interval: int, videoFramesNum: int, frameCount: int)
    requires 0 < interval && Fires(s, now, interval)
    ensures var r := Tick(s, now, interval, videoFramesNum, frameCount);
            var elapsed := (now - s.thenTime) / interval;
            && 1 <= elapsed
            && r.state.thenTime == s.thenTime + interval * elapsed
            && 0 <= now - r.state.thenTime < interval
  {
    var delta := now - s.thenTime;
    assert delta == interval * (delta / interval) + delta % interval;
  }

  /** A firing tick on a paused player only moves the reference time. */
  lemma TickPausedOnlyClock(s: State, now: int, interval: int, videoFramesNum: int, frameCount: int)
    requires 0 < interval && s.paused && Fires(s, now, interval)
    ensures var r := Tick(s, now, interval, videoFramesNum, frameCount);
            r.state.(thenTime := s.thenTime) == s && r.events == [] && r.effects == [] && !r.threw
  {
  }

  /** A firing tick on a running player advances one frame, or, when the next
      frame reaches `videoFramesNum`, rewinds to frame 0, pauses and emits
      `end` exactly once. It then redraws, and throws when the frame it moved
      to is missing. */
  lemma TickAdvances(s: State, now: int, interval: int, videoFramesNum: int, frameCount: int)
    requires 0 < interval && !s.paused && Fires(s, now, interval)
    ensures var r := Tick(s, now, interval, videoFramesNum, frameCount);
            && (s.currentFrame + 1 < videoFramesNum ==>
                  r.state.currentFrame == s.currentFrame + 1 && !r.state.paused && r.events == [])
            && (s.currentFrame + 1 >= videoFramesNum ==>
                  r.state.currentFrame == 0 && r.state.paused && r.events == [Pause, End])
            && (End in r.events <==> s.currentFrame + 1 >= videoFramesNum)
            && multiset(r.events)[End] <= 1
            && (r.threw <==> !Drawable(frameCount, r.state.currentFrame))
            && r.effects == (if r.threw then [] else [DrawFrame])
  {
  }

  /** The frame index only moves forward by one, except when it rewinds to 0
      at the end of the sequence. */
  lemma TickMonotone(s: State, now: int, interval: int, videoFramesNum: int, frameCount: int)
    requires 0 < interval
    ensures var r := Tick(s, now, interval, videoFramesNum, frameCount);
            r.state.currentFrame in {s.currentFrame, s.currentFrame + 1}
            || (r.state.currentFrame == 0 && End in r.events)
  {
  }

  /** A tick keeps the frame index within `[0, videoFramesNum)`, and cannot
      throw while the list still holds the frames counted by the snapshot. */
  lemma TickKeepsBound(s: State, now: int, interval: int, videoFramesNum: int, frameCount: int)
    requires 0 < interval && 0 <= s.currentFrame < videoFramesNum
    ensures var r := Tick(s, now, interval, videoFramesNum, frameCount);
            && 0 <= r.state.currentFrame < videoFramesNum
            && (videoFramesNum <= frameCount ==> !r.threw)
  {
  }

  /** Since `videoFramesNum` is the frame count minus one, a tick never draws
      the last frame of a list of at least two frames. */
  lemma TickNeverDrawsLastFrame(s: State, now: int, interval: int, frameCount: int)
    requires 0 < interval && 2 <= frameCount
    ensures var r := Tick(s, now, interval, frameCount - 1, frameCount);
            DrawFrame in r.effects ==> 0 <= r.state.currentFrame < frameCount - 1
  {
  }

  /** A completed seek is not undone by the animation loop: the next tick
      leaves the player paused at the frame sought. A seek that threw leaves a
      running player running at the value sought: past the end, its next
      firing tick rewinds, pauses and emits `end`; below -1, the tick throws
      on the missing frame. */
  lemma TickAfterGotoFrame(s: State, frameCount: nat, value: int, now: int, interval: int, videoFramesNum: int)
    requires 0 < interval
    ensures var g := GotoFrame(s, frameCount, value);
            var r := Tick(g.state, now, interval, videoFramesNum, frameCount);
            && (!g.threw ==> r.state.currentFrame == value && r.state.paused && r.events == [] && !r.threw)
            && (g.threw && !s.paused && Fires(g.state, now, interval) && videoFramesNum <= frameCount <= value ==>
                  r.state.currentFrame == 0 && r.state.paused && r.events == [Pause, End] && !r.threw)
            && (g.threw && !s.paused && Fires(g.state, now, interval) && value + 1 < 0 && value + 1 < videoFramesNum ==>
                  r.threw && !r.state.paused)
  {
  }

  /** The animation loop run over the successive times `nows`; the events and
      effects of the ticks are concatenated in order. A tick that throws never
      schedules the next one, so the loop stops there. */
  function Run(s: State, nows: seq<int>, interval: int, videoFramesNum: int, frameCount: int): (r: Step)
    requires 0 < interval
    ensures r.state.startFrame == s.startFrame
    ensures r.state.thenTime >= s.thenTime
    ensures r.threw ==> 0 < |nows|
    decreases |nows|
  {
    if |nows| == 0 then Step(s, [], [], false)
    else
      var first := Tick(s, nows[0], interval, videoFramesNum, frameCount);
      if first.threw then first
      else
        var rest := Run(first.state, nows[1..], interval, videoFramesNum, frameCount);
        Step(rest.state, first.events + rest.events, first.effects + rest.effects, rest.threw)
  }

  /** The bound on the frame index is an invariant of the animation loop, and
      the loop never stops while the list holds the frames of the snapshot. */
  lemma {:induction false} RunKeepsBound(s: State, nows: seq<int>, interval: int, videoFramesNum: int, frameCount: int)
    requires 0 < interval && 0 <= s.currentFrame < videoFramesNum
    ensures var r := Run(s, nows, interval, videoFramesNum, frameCount);
            && 0 <= r.state.currentFrame < videoFramesNum
            && (videoFramesNum <= frameCount ==> !r.threw)
    decreases |nows|
  {
    if |nows| > 0 {
      var first := Tick(s, nows[0], interval, videoFramesNum, frameCount);
      TickKeepsBound(s, nows[0], interval, videoFramesNum, frameCount);
      if !first.threw {
        RunKeepsBound(first.state, nows[1..], interval, videoFramesNum, frameCount);
      }
    }
  }

  /** Only resume and toggle clear `paused`: a paused player stays paused at
      the same frame, silently, however long the loop runs. */
  lemma {:induction false} RunWhilePaused(s: State, nows: seq<int>, interval: int, videoFramesNum: int, frameCount: int)
    requires 0 < interval && s.paused
    ensures var r := Run(s, nows, interval, videoFramesNum, frameCount);
            r.state.paused && r.state.currentFrame == s.currentFrame && r.events == [] && r.effects == [] && !r.threw
    decreases |nows|
  {
    if |nows| > 0 {
      var first := Tick(s, nows[0], interval, videoFramesNum, frameCount);
      RunWhilePaused(first.state, nows[1..], interval, videoFramesNum, frameCount);
    }
  }

  /** Left to itself the loop reaches the end at most once: the rewind pauses
      the player, which then stays at frame 0. */
  lemma {:induction false} RunEndsAtMostOnce(s: State, nows: seq<int>, interval: int, videoFramesNum: int, frameCount: int)
    requires 0 < interval
    ensures var r := Run(s, nows, interval, videoFramesNum, frameCount);
            && multiset(r.events)[End] <= 1
            && (End in r.events ==> r.state.paused && r.state.currentFrame == 0)
    decreases |nows|
  {
    if |nows| > 0 {
      var first := Tick(s, nows[0], interval, videoFramesNum, frameCount);
      if !first.threw {
        var rest := Run(first.state, nows[1..], interval, videoFramesNum, frameCount);
        assert multiset(first.events + rest.events) == multiset(first.events) + multiset(rest.events);
        if End in first.events {
          RunWhilePaused(first.state, nows[1..], interval, videoFramesNum, frameCount);
        } else {
          RunEndsAtMostOnce(first.state, nows[1..], interval, videoFramesNum, frameCount);
        }
      }
    }
  }
}
