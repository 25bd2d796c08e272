/** The stage machine of reveal() in code/s4_gender_reveal.py. Each round
    of its endless loop draws one slice of frames and then counts the round;
    a stage is complete when its counter reaches a multiple of the stage's
    period, and the machine moves to the next stage or, after
    back_to_regular, returns. Within the frames, build_up moves on to
    reveal by itself once the blend is full, and reveal resets the width
    and the counter on every frame. The colours drawn are not modelled. */
module Reveal {
  import opened Text

  const StageRegular := 0
  const StageBluePink := 1
  const StageBuildUp := 2
  const StageReveal := 3
  const StageBackToRegular := 4

  const MaxClick := 4
  const ImageHeight := 1920
  const StartWidth := 300
  const Acceleration := 150

  /** stage_complete: regular and back_to_regular last 8 rounds, blue_pink
      and reveal 2, and build_up (the remaining case) 4. */
  predicate StageComplete(stage: int, counter: int)
  {
    if stage == StageRegular || stage == StageBackToRegular then counter % 8 == 0
    else if stage == StageBluePink then counter % 2 == 0
    else if stage == StageReveal then counter % 2 == 0
    else counter % 4 == 0
  }

  /** The period of each stage. */
  function Period(stage: int): (p: int)
    ensures p in {2, 4, 8}
  {
    if stage == StageRegular || stage == StageBackToRegular then 8
    else if stage == StageBluePink || stage == StageReveal then 2
    else 4
  }

  lemma StageCompletePeriod(stage: int, counter: int)
    ensures StageComplete(stage, counter) <==> counter % Period(stage) == 0
    ensures StageComplete(stage, 0)
  {
  }

  /** The loop variables of reveal that the stage logic reads. blend is
      the float the colour blending uses, taken as an exact real. */
  datatype RevealState = RevealState(stage: int, counter: int, blend: real, width: int, click: int)

  const Initial := RevealState(StageRegular, 0, 0.0, StartWidth, 0)

  /** What holds of every state reveal reaches at the top of its loop. */
  predicate Reachable(s: RevealState)
  {
    && StageRegular <= s.stage <= StageBackToRegular
    && 0 <= s.click < MaxClick
    && s.width >= StartWidth
    && s.counter >= 0
    && s.blend >= 0.0
  }

  function BlendUp(s: RevealState): RevealState
  {
    if s.blend < 1.0 then s.(blend := s.blend + 0.02) else s
  }

  /** One frame of the inner loop, as far as the stage logic goes. */
  function FrameStep(s: RevealState): (t: RevealState)
    ensures t.click == s.click
  {
    var s1 := if s.stage == StageReveal then s.(width := StartWidth, counter := 0) else s;
    if s1.stage == StageBluePink then BlendUp(s1)
    else if s1.stage == StageBuildUp then
      if s1.width > ImageHeight && s1.blend < 1.0 then s1.(blend := s1.blend + 0.02)
      else if s1.blend >= 1.0 then s1.(stage := s1.stage + 1, blend := 0.0, counter := 0)
      else s1
    else if s1.stage == StageBackToRegular then BlendUp(s1)
    else s1
  }

  /** The frames i = lo, lo + step, ... below hi, one after another. */
  function Frames(s: RevealState, lo: int, hi: int, step: int): RevealState
    requires step > 0
    decreases hi - lo
  {
    if lo >= hi then s else Frames(FrameStep(s), lo + step, hi, step)
  }

  /** The slice of frames a round draws: click_size = int(width * 2 / 4),
      from click * click_size to (click + 1) * click_size in steps of
      width // 150. */
  function ClickSize(width: int): int
  {
    Trunc((width * 2) as real / MaxClick as real)
  }

  /** The round after the frames: the counter goes up, and a complete stage
      either ends reveal (back_to_regular) or moves on with blend and
      counter reset. */
  function Finish(s: RevealState): (RevealState, bool)
  {
    var counted := s.(counter := s.counter + 1);
    if StageComplete(counted.stage, counted.counter) then
      if counted.stage == StageBackToRegular then (counted, true)
      else (counted.(blend := 0.0, counter := 0, stage := counted.stage + 1), false)
    else (counted, false)
  }

  /** The start of a round: build_up widens the band by half; the click
      moves on. */
  function Prepare(s: RevealState): RevealState
  {
    var width := if s.stage == StageBuildUp then Trunc(1.5 * s.width as real) else s.width;
    s.(width := width, click := (s.click + 1) % MaxClick)
  }

  /** One pass of the loop of reveal: the new state, and whether it
      returned. */
  function Round(s: RevealState): (RevealState, bool)
    requires Reachable(s)
  {
    var p := Prepare(s);
    var speed := p.width / Acceleration;
    var size := ClickSize(p.width);
    Finish(Frames(p, p.click * size, (p.click + 1) * size, speed))
  }

  /** One pass of the loop of reveal, with its inner loop over the frames. */
  method RevealRound(s: RevealState) returns (next: RevealState, done: bool)
    requires Reachable(s)
    ensures (next, done) == Round(s)
  {
    var stage, counter, blend, width, click := s.stage, s.counter, s.blend, s.width, s.click;
    if stage == StageBuildUp {
      width := Trunc(1.5 * width as real);
    }
    click := click + 1;
    click := click % MaxClick;
    var speed := width / Acceleration;
    var clickSize := Trunc((width * 2) as real / MaxClick as real);
    var start := click * clickSize;
    var end := (click + 1) * clickSize;
    ghost var p := Prepare(s);
    assert p == RevealState(stage, counter, blend, width, click);
    var i := start;
    while i < end
      invariant Frames(RevealState(stage, counter, blend, width, click), i, end, speed) == Frames(p, start, end, speed)
      decreases end - i
    {
      if stage == StageReveal {
        width := StartWidth;
        counter := 0;
      }
      if stage == StageBluePink {
        if blend < 1.0 {
          blend := blend + 0.02;
        }
      } else if stage == StageBuildUp {
        if width > ImageHeight && blend < 1.0 {
          blend := blend + 0.02;
        } else if blend >= 1.0 {
          stage := stage + 1;
          blend := 0.0;
          counter := 0;
        }
      } else if stage == StageBackToRegular {
        if blend < 1.0 {
          blend := blend + 0.02;
        }
      }
      i := i + speed;
    }
    counter := counter + 1;
    done := false;
    if StageComplete(stage, counter) {
      if stage == StageBackToRegular {
        next, done := RevealState(stage, counter, blend, width, click), true;
        return;
      }
      blend := 0.0;
      counter := 0;
      stage := stage + 1;
    }
    next := RevealState(stage, counter, blend, width, click);
  }

  /** Frames outside build_up and reveal leave the stage, the counter, the
      width and the click alone. */
  lemma {:induction false} FramesKeepStage(s: RevealState, lo: int, hi: int, step: int)
    requires step > 0 && s.stage != StageBuildUp && s.stage != StageReveal && s.blend >= 0.0
    ensures var t := Frames(s, lo, hi, step);
      t.stage == s.stage && t.counter == s.counter && t.width == s.width && t.click == s.click && t.blend >= 0.0
    decreases hi - lo
  {
    if lo < hi {
      FramesKeepStage(FrameStep(s), lo + step, hi, step);
    }
  }

  /** In reveal every frame resets the width to 300 and the counter to 0,
      and the blend stays as it is. */
  lemma {:induction false} FramesInReveal(s: RevealState, lo: int, hi: int, step: int)
    requires step > 0 && s.stage == StageReveal && lo < hi && s.blend >= 0.0
    ensures var t := Frames(s, lo, hi, step);
      t.stage == StageReveal && t.counter == 0 && t.width == StartWidth && t.click == s.click && t.blend == s.blend
    decreases hi - lo
  {
    if lo + step < hi {
      FramesInReveal(FrameStep(s), lo + step, hi, step);
    }
  }

  /** In build_up the frames either stay in build_up, keeping the counter
      and the width, or move on to reveal, leaving the counter at 0. */
  lemma {:induction false} FramesInBuildUp(s: RevealState, lo: int, hi: int, step: int)
    requires step > 0 && s.stage == StageBuildUp && s.blend >= 0.0 && s.width >= StartWidth
    ensures var t := Frames(s, lo, hi, step);
      && t.click == s.click && t.blend >= 0.0
      && ((t.stage == StageBuildUp && t.counter == s.counter && t.width == s.width)
          || (t.stage == StageReveal && t.counter == 0 && t.width >= StartWidth && t.blend == 0.0))
    decreases hi - lo
  {
    if lo < hi {
      var u := FrameStep(s);
      if u.stage == StageBuildUp {
        FramesInBuildUp(u, lo + step, hi, step);
      } else if lo + step < hi {
        FramesInReveal(u, lo + step, hi, step);
      }
    }
  }

  /** Every round draws at least one frame, in steps of at least 2. */
  lemma RoundHasFrames(s: RevealState)
    requires Reachable(s)
    ensures var p := Prepare(s);
      p.width >= StartWidth && p.width / Acceleration >= 2
      && p.click * ClickSize(p.width) < (p.click + 1) * ClickSize(p.width)
  {
    var p := Prepare(s);
    assert ClickSize(p.width) >= 150;
  }

  /** A round keeps the loop's invariant, moves on by at most one stage,
      and returns only from back_to_regular when its period is up. A new
      stage starts with blend 0 and a counter of 0, or of 1 when build_up
      gave way to reveal during the frames. */
  lemma RoundSpec(s: RevealState)
    requires Reachable(s)
    ensures var (t, done) := Round(s);
      && (done <==> s.stage == StageBackToRegular && StageComplete(StageBackToRegular, s.counter + 1))
      && (!done ==> Reachable(t))
      && (t.stage == s.stage || t.stage == s.stage + 1)
      && (t.stage == s.stage + 1 ==> t.blend == 0.0 && t.counter <= 1)
  {
    RoundHasFrames(s);
    var p := Prepare(s);
    var size := ClickSize(p.width);
    var speed := p.width / Acceleration;
    if s.stage == StageBuildUp {
      FramesInBuildUp(p, p.click * size, (p.click + 1) * size, speed);
    } else if s.stage == StageReveal {
      FramesInReveal(p, p.click * size, (p.click + 1) * size, speed);
    } else {
      FramesKeepStage(p, p.click * size, (p.click + 1) * size, speed);
    }
  }

  /** Reveal is never left: its frames reset the counter to 0, so after the
      round it is 1, never a multiple of 2. */
  lemma RevealIsFinal(s: RevealState)
    requires Reachable(s) && s.stage == StageReveal
    ensures Round(s).0.stage == StageReveal && !Round(s).1 && Round(s).0.counter == 1
  {
    RoundHasFrames(s);
    var p := Prepare(s);
    var size := ClickSize(p.width);
    FramesInReveal(p, p.click * size, (p.click + 1) * size, p.width / Acceleration);
  }

  /** The state after n rounds from s, stopping where reveal returns. */
  function Rounds(s: RevealState, n: nat): RevealState
    requires Reachable(s)
    decreases n
  {
    if n == 0 then s
    else
      RoundSpec(s);
      var (t, done) := Round(s);
      if done then t else Rounds(t, n - 1)
  }

  /** From the start, reveal never gets past the reveal stage, so it never
      reaches back_to_regular and never returns. */
  lemma {:induction false} NeverReturns(s: RevealState, n: nat)
    requires Reachable(s) && s.stage <= StageReveal
    ensures Rounds(s, n).stage <= StageReveal
    ensures n > 0 ==> !Round(s).1
    decreases n
  {
    RoundSpec(s);
    if s.stage == StageReveal {
      RevealIsFinal(s);
    }
    if n > 0 {
      var t := Round(s).0;
      NeverReturns(t, n - 1);
    }
  }

  lemma InitialNeverReturns(n: nat)
    ensures Reachable(Initial) && Rounds(Initial, n).stage <= StageReveal
  {
    NeverReturns(Initial, n);
  }
}
