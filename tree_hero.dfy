/** code/tree_hero.py: the first prototype of the game, lanes of falling
    notes. Each lane keeps the list of its notes; a note falls and is marked
    for removal once it is past 500, and a lane's clean-up drops the marked
    notes. */
module TreeHeroPrototype {
  const LaneCount := 5
  const NoteWidth := 32
  const LanePadding := 32
  const OffScreenY := 500

  /** The lane's own colour or the colour shown while both arrows are held. */
  datatype ActorColor = LaneColor(laneId: int) | PressColor

  /** lane_x: the note's column on screen. */
  function LaneX(laneId: int): (x: int)
    ensures x == 32 + 64 * laneId
  {
    LanePadding + (NoteWidth + LanePadding) * laneId
  }

  /** A falling note. */
  class Actor {
    const laneId: int
    var x: int
    var y: int
    var color: ActorColor
    var markedForDeath: bool

    /** Actor(lane_id): at the top of its column; notes_colors[lane_id]
        needs one of the five lanes. */
    constructor (laneId: int)
      requires 0 <= laneId < LaneCount
      ensures this.laneId == laneId && x == LaneX(laneId) && y == 0
      ensures color == LaneColor(laneId) && !markedForDeath
    {
      this.laneId := laneId;
      x := LaneX(laneId);
      y := 0;
      color := LaneColor(laneId);
      markedForDeath := false;
    }

    /** update(keys, events, dt): the note falls by dy (note_speed * dt). */
    method Update(bothArrowsHeld: bool, dy: int)
      modifies this
      ensures y == old(y) + dy && x == old(x)
      ensures markedForDeath == (old(markedForDeath) || y > OffScreenY)
      ensures color == if bothArrowsHeld then PressColor else LaneColor(laneId)
    {
      y := y + dy;
      if y > OffScreenY {
        markedForDeath := true;
      }
      if bothArrowsHeld {
        color := PressColor;
      } else {
        color := LaneColor(laneId);
      }
    }
  }

  /** The elements of s that are in dead, in order. */
  function DeadOf<T>(s: seq<T>, dead: set<T>): (r: seq<T>)
    ensures forall x | x in r :: x in s && x in dead
  {
    if s == [] then [] else (if s[0] in dead then [s[0]] else []) + DeadOf(s[1..], dead)
  }

  /** The elements of s that are not in dead, in order. */
  function Survivors<T>(s: seq<T>, dead: set<T>): (r: seq<T>)
    ensures forall x | x in r :: x in s && x !in dead
  {
    if s == [] then [] else (if s[0] in dead then [] else [s[0]]) + Survivors(s[1..], dead)
  }

  /** The survivors are exactly the elements outside dead, and with the
      dead ones they account for every element. */
  lemma {:induction false} SurvivorsSpec<T>(s: seq<T>, dead: set<T>)
    ensures forall x :: x in Survivors(s, dead) <==> x in s && x !in dead
    ensures |Survivors(s, dead)| + |DeadOf(s, dead)| == |s|
  {
    if s != [] {
      SurvivorsSpec(s[1..], dead);
      assert s == [s[0]] + s[1..];
    }
  }

  /** list.remove(x): drop the first occurrence; ValueError when absent. */
  function RemoveFirst<T(==)>(s: seq<T>, x: T): (r: seq<T>)
    requires x in s
    ensures |r| == |s| - 1
  {
    if s[0] == x then s[1..] else [s[0]] + RemoveFirst(s[1..], x)
  }

  /** s after removing the first n of its elements that are in dead. */
  function WithoutFirstDead<T>(s: seq<T>, dead: set<T>, n: nat): seq<T>
  {
    if s == [] then []
    else if s[0] in dead && n > 0 then WithoutFirstDead(s[1..], dead, n - 1)
    else [s[0]] + WithoutFirstDead(s[1..], dead, n)
  }

  lemma {:induction false} WithoutNoneDead<T>(s: seq<T>, dead: set<T>)
    ensures WithoutFirstDead(s, dead, 0) == s
  {
    if s != [] {
      WithoutNoneDead(s[1..], dead);
    }
  }

  lemma {:induction false} WithoutAllDead<T>(s: seq<T>, dead: set<T>)
    ensures WithoutFirstDead(s, dead, |DeadOf(s, dead)|) == Survivors(s, dead)
  {
    if s != [] {
      WithoutAllDead(s[1..], dead);
    }
  }

  /** Removing the next dead element with list.remove takes out exactly
      that one: it is still there, and no live element equals it. */
  lemma {:induction false} RemoveNextDead<T>(s: seq<T>, dead: set<T>, n: nat)
    requires n < |DeadOf(s, dead)|
    ensures DeadOf(s, dead)[n] in WithoutFirstDead(s, dead, n)
    ensures RemoveFirst(WithoutFirstDead(s, dead, n), DeadOf(s, dead)[n]) == WithoutFirstDead(s, dead, n + 1)
  {
    var t := s[1..];
    if s[0] in dead {
      assert DeadOf(s, dead) == [s[0]] + DeadOf(t, dead);
      if n == 0 {
        WithoutNoneDead(t, dead);
        assert WithoutFirstDead(s, dead, 0) == [s[0]] + t;
      } else {
        RemoveNextDead(t, dead, n - 1);
      }
    } else {
      assert DeadOf(s, dead) == DeadOf(t, dead);
      RemoveNextDead(t, dead, n);
      assert DeadOf(t, dead)[n] in DeadOf(t, dead);
    }
  }

  /** A lane of notes. */
  class Lane {
    const laneNumber: int
    var notes: seq<Actor>

    constructor (laneNumber: int)
      ensures this.laneNumber == laneNumber && notes == []
    {
      this.laneNumber := laneNumber;
      notes := [];
    }

    /** add_note(id_num): one new note, in lane id_num, at the end. */
    method AddNote(idNum: int) returns (note: Actor)
      requires 0 <= idNum < LaneCount
      modifies this
      ensures fresh(note) && note.laneId == idNum && !note.markedForDeath
      ensures notes == old(notes) + [note]
    {
      note := new Actor(idNum);
      notes := notes + [note];
    }

    /** The set of notes currently marked. */
    ghost function Marked(): set<Actor>
      reads this, set i | 0 <= i < |notes| :: notes[i]
    {
      set i | 0 <= i < |notes| && notes[i].markedForDeath :: notes[i]
    }

    /** cleanup(): removes each dead note with list.remove, so the lane keeps
        exactly its unmarked notes, in order. */
    method Cleanup()
      modifies this
      ensures notes == Survivors(old(notes), old(Marked()))
    {
      var dead := DeadNotesOf(notes);
      ghost var start := notes;
      ghost var marked := Marked();
      DeadNotesAgree(start, marked);
      WithoutNoneDead(start, marked);
      for i := 0 to |dead|
        invariant notes == WithoutFirstDead(start, marked, i)
      {
        RemoveNextDead(start, marked, i);
        notes := RemoveFirst(notes, dead[i]);
      }
      WithoutAllDead(start, marked);
    }
  }

  /** [x for x in notes if x.marked_for_death] */
  function DeadNotesOf(s: seq<Actor>): seq<Actor>
    reads set i | 0 <= i < |s| :: s[i]
  {
    if s == [] then [] else (if s[0].markedForDeath then [s[0]] else []) + DeadNotesOf(s[1..])
  }

  /** The comprehension picks the notes of the marked set, in order. */
  lemma {:induction false} DeadNotesAgree(s: seq<Actor>, marked: set<Actor>)
    requires forall i | 0 <= i < |s| :: s[i] in marked <==> s[i].markedForDeath
    ensures DeadNotesOf(s) == DeadOf(s, marked)
  {
    if s != [] {
      DeadNotesAgree(s[1..], marked);
    }
  }
}
