/** code/treehero/note.py: a falling note of Tree Hero and what one frame
    does to it. The note moves down; below 500 it is marked for removal,
    and while it crosses the hit box with its lane key held it is marked
    as hit, provided the key was not already held before the note reached
    the box. */
module HeroNote {
  import opened GameConst

  /** The lane's colour, the miss colour or the hit colour. */
  datatype NoteColor = LaneColor | MissColor | HitColor

  /** The part of a note that update changes: rect.y, color and the three
      flags. */
  datatype NoteState = NoteState(y: int, color: NoteColor, markedForDeath: bool, markedAsHit: bool, hittable: bool)

  const OffScreenY := 500

  /** One update(keys, events, dt): the note moves by dy (note_speed * dt)
      and the branches run on the new y; keyHeld is whether the lane's key
      is down. */
  function Updated(s: NoteState, keyHeld: bool, dy: int): (r: NoteState)
    ensures r.y == s.y + dy
  {
    var y := s.y + dy;
    if y > OffScreenY then s.(y := y, markedForDeath := true)
    else if y > NoteHitBoxMax then s.(y := y, color := MissColor)
    else if s.hittable && NoteHitBoxMin < y < NoteHitBoxMax && keyHeld then s.(y := y, color := HitColor, markedAsHit := true)
    else if NoteHitBoxMin > y then s.(y := y, color := LaneColor, hittable := !keyHeld)
    else s.(y := y, color := LaneColor)
  }

  /** The hit box is 485..515 and the removal line 500, so a note is only
      ever hit between 486 and 500, it is marked for removal exactly when
      it ends below 500, and the miss colour is never set. Above the box
      (y < 485) the note is hittable exactly when the key is not held; from
      the box down the flag is kept. */
  lemma UpdateSpec(s: NoteState, keyHeld: bool, dy: int)
    ensures var r := Updated(s, keyHeld, dy);
      && (r.markedForDeath <==> s.markedForDeath || r.y > 500)
      && (r.markedAsHit <==> s.markedAsHit || (s.hittable && keyHeld && 485 < r.y <= 500))
      && (r.y <= 500 ==> (r.color == HitColor <==> s.hittable && keyHeld && 485 < r.y))
      && (r.y > 500 ==> r.color == s.color)
      && (r.color == MissColor ==> s.color == MissColor)
      && (r.hittable != s.hittable ==> r.y < 485 && r.hittable == !keyHeld)
      && (r.y < 485 ==> r.hittable == !keyHeld)
      && (r.y >= 485 ==> r.hittable == s.hittable)
  {
    DerivedConstants();
  }

  /** The states after each frame of a run, given the key state and the
      move of every frame. */
  function Run(s: NoteState, frames: seq<(bool, int)>): NoteState
  {
    if frames == [] then s
    else Updated(Run(s, frames[..|frames| - 1]), frames[|frames| - 1].0, frames[|frames| - 1].1)
  }

  /** No frame ever clears either mark. */
  lemma {:induction false} MarksStay(s: NoteState, frames: seq<(bool, int)>)
    ensures s.markedForDeath ==> Run(s, frames).markedForDeath
    ensures s.markedAsHit ==> Run(s, frames).markedAsHit
  {
    if frames != [] {
      MarksStay(s, frames[..|frames| - 1]);
      var last := frames[|frames| - 1];
      UpdateSpec(Run(s, frames[..|frames| - 1]), last.0, last.1);
    }
  }

  /** A note on screen: the sprite's rect.y, colour and flags. */
  class Note {
    var y: int
    var color: NoteColor
    var markedForDeath: bool
    var markedAsHit: bool
    var hittable: bool

    function State(): NoteState
      reads this
    {
      NoteState(y, color, markedForDeath, markedAsHit, hittable)
    }

    /** update(keys, events, dt) */
    method Update(keyHeld: bool, dy: int)
      modifies this
      ensures State() == Updated(old(State()), keyHeld, dy)
    {
      y := y + dy;
      if y > OffScreenY {
        markedForDeath := true;
      } else if y > NoteHitBoxMax {
        // The miss branch: never taken, as the hit box ends below the
        // removal line.
        assert false;
      } else if hittable && NoteHitBoxMin < y < NoteHitBoxMax && keyHeld {
        color := HitColor;
        markedAsHit := true;
      } else {
        color := LaneColor;
        if NoteHitBoxMin > y {
          hittable := !keyHeld;
        }
      }
    }
  }
}
