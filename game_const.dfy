/** code/treehero/const.py: the screen geometry of the Tree Hero highway
    and the score/streak state of a game. */
module GameConst {
  const LaneCount := 5
  const NoteWidth := 32
  const LaneOutsidePadding := 50
  const LaneInternalPadding := 10
  const FramePadding := 250
  const HeaderHeight := 100
  const LaneHeight := 500
  const LaneTargetToEnd := 100
  const NoteHitBoxHeight := 15

  /** highway_width: both outside paddings, five notes and the four gaps. */
  const HighwayWidth := LaneOutsidePadding * 2 + NoteWidth * LaneCount + LaneInternalPadding * (LaneCount - 1)
  const FrameWidth := HighwayWidth + FramePadding * 2

  const LaneStartY := HeaderHeight
  const LaneEndY := LaneStartY + LaneHeight
  const NoteTargetY := LaneEndY - LaneTargetToEnd
  const NoteHitBoxMin := NoteTargetY - NoteHitBoxHeight
  const NoteHitBoxMax := NoteTargetY + NoteHitBoxHeight

  lemma DerivedConstants()
    ensures HighwayWidth == 300 && FrameWidth == 800
    ensures NoteTargetY == 500 && NoteHitBoxMin == 485 && NoteHitBoxMax == 515
  {
  }

  /** lane_x: the left edge of a lane on screen. */
  function LaneX(laneId: int): int
  {
    FramePadding + LaneOutsidePadding + (NoteWidth + LaneInternalPadding) * laneId
  }

  /** lane_x_center: half a note to the right of the edge. */
  function LaneXCenter(laneId: int): (x: int)
    ensures x == LaneX(laneId) + 16
  {
    LaneX(laneId) + NoteWidth / 2
  }

  /** Lanes run left to right, a note in one lane ends before the next lane
      starts, and the five lanes fill the highway inside its outside
      padding exactly. */
  lemma LaneGeometry(i: int, j: int)
    ensures i < j ==> LaneX(i) < LaneX(j)
    ensures i < j ==> LaneX(i) + NoteWidth + LaneInternalPadding <= LaneX(j)
    ensures LaneX(0) == FramePadding + LaneOutsidePadding
    ensures LaneX(LaneCount - 1) + NoteWidth == FramePadding + HighwayWidth - LaneOutsidePadding
  {
    if i < j {
      assert (NoteWidth + LaneInternalPadding) * j - (NoteWidth + LaneInternalPadding) * i
          == (NoteWidth + LaneInternalPadding) * (j - i);
    }
  }

  /** The score of a sequence of outcomes (true for a hit): hits minus
      misses. */
  function NetScore(outcomes: seq<bool>): int
  {
    if outcomes == [] then 0
    else NetScore(outcomes[..|outcomes| - 1]) + (if outcomes[|outcomes| - 1] then 1 else -1)
  }

  function Hits(outcomes: seq<bool>): nat
  {
    if outcomes == [] then 0
    else Hits(outcomes[..|outcomes| - 1]) + (if outcomes[|outcomes| - 1] then 1 else 0)
  }

  /** The number of hits since the last miss. */
  function Streak(outcomes: seq<bool>): nat
  {
    if outcomes == [] then 0
    else if outcomes[|outcomes| - 1] then Streak(outcomes[..|outcomes| - 1]) + 1
    else 0
  }

  /** The score is hits minus misses, and the streak never exceeds the hits;
      a miss leaves a streak of 0. */
  lemma {:induction false} ScoreAndStreak(outcomes: seq<bool>)
    ensures NetScore(outcomes) == 2 * Hits(outcomes) - |outcomes|
    ensures 0 <= Streak(outcomes) <= Hits(outcomes)
    ensures outcomes != [] && !outcomes[|outcomes| - 1] ==> Streak(outcomes) == 0
    ensures forall i | 0 <= i < |outcomes| && !outcomes[i] :: Streak(outcomes) <= |outcomes| - 1 - i
  {
    if outcomes != [] {
      var front := outcomes[..|outcomes| - 1];
      ScoreAndStreak(front);
      forall i | 0 <= i < |outcomes| && !outcomes[i]
        ensures Streak(outcomes) <= |outcomes| - 1 - i
      {
        if i < |front| {
          assert front[i] == outcomes[i];
        }
      }
    }
  }

  /** State: the current streak and the net score of a game. The outcomes
      so far are kept as a ghost history. */
  class State {
    var currentStreak: int
    var netScore: int
    ghost var outcomes: seq<bool>

    ghost predicate Valid()
      reads this
    {
      currentStreak == Streak(outcomes) && netScore == NetScore(outcomes)
    }

    constructor ()
      ensures Valid() && outcomes == []
      ensures currentStreak == 0 && netScore == 0
    {
      currentStreak := 0;
      netScore := 0;
      outcomes := [];
    }

    /** note_hit: one more in the streak and one more point. */
    method NoteHit()
      requires Valid()
      modifies this
      ensures Valid() && outcomes == old(outcomes) + [true]
      ensures currentStreak == old(currentStreak) + 1 && netScore == old(netScore) + 1
    {
      currentStreak := currentStreak + 1;
      netScore := netScore + 1;
      outcomes := outcomes + [true];
      assert outcomes[..|outcomes| - 1] == old(outcomes);
    }

    /** note_miss: the streak is broken and a point is lost. */
    method NoteMiss()
      requires Valid()
      modifies this
      ensures Valid() && outcomes == old(outcomes) + [false]
      ensures currentStreak == 0 && netScore == old(netScore) - 1
    {
      currentStreak := 0;
      netScore := netScore - 1;
      outcomes := outcomes + [false];
      assert outcomes[..|outcomes| - 1] == old(outcomes);
    }
  }
}
