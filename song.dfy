/** code/treehero/song.py: a song's chart as the game uses it. The guitar
    notes of each difficulty, and a sync track of tempo changes that turns
    a time in milliseconds into a position in ticks. Reading the chart file
    is the chparse library's and is not modelled: a chart is given as a
    value. */
module Song {
  import opened Wrappers

  const MsPerMin := 60 * 1000

  datatype Difficulty = Easy | Medium | Hard | Expert

  /** The order get_difficulties lists difficulties in. */
  function Rank(d: Difficulty): nat
  {
    match d
    case Easy => 0
    case Medium => 1
    case Hard => 2
    case Expert => 3
  }

  datatype Instrument = GuitarPart | OtherPart(name: string)

  /** An event of a chart track: a note, or anything else chparse reads
      (star power, events), which the game does not play. */
  datatype ChartEvent = NoteEvent(time: int, fret: int, length: int) | OtherEvent(time: int)

  /** The notes of a track, in order: the list comprehension of get_guitar
      that keeps the chparse Note entries. */
  function NotesOnly(events: seq<ChartEvent>): (notes: seq<ChartEvent>)
    ensures |notes| <= |events|
    ensures forall i | 0 <= i < |notes| :: notes[i].NoteEvent? && notes[i] in events
  {
    if events == [] then []
    else
      var front := NotesOnly(events[..|events| - 1]);
      var last := events[|events| - 1];
      if last.NoteEvent? then front + [last] else front
  }

  /** Filtering works piecewise, so a track of notes is kept whole and
      everything else is dropped. */
  lemma {:induction false} NotesOnlyAppend(a: seq<ChartEvent>, b: seq<ChartEvent>)
    ensures NotesOnly(a + b) == NotesOnly(a) + NotesOnly(b)
    decreases |b|
  {
    if b == [] {
      assert a + b == a;
    } else {
      var b' := b[..|b| - 1];
      assert (a + b)[..|a + b| - 1] == a + b';
      NotesOnlyAppend(a, b');
    }
  }

  lemma {:induction false} NotesOnlyKeepsNotes(events: seq<ChartEvent>)
    ensures (forall i | 0 <= i < |events| :: events[i].NoteEvent?) ==> NotesOnly(events) == events
    ensures (forall i | 0 <= i < |events| :: events[i].OtherEvent?) ==> NotesOnly(events) == []
  {
    if events != [] {
      NotesOnlyKeepsNotes(events[..|events| - 1]);
      assert events[..|events| - 1] + [events[|events| - 1]] == events;
    }
  }

  /** get_guitar: None for a difficulty with no instruments; the guitar
      notes otherwise, and a KeyError (Err) when there is no guitar part. */
  function GetGuitar(instruments: map<Instrument, seq<ChartEvent>>): (r: Result<Option<seq<ChartEvent>>>)
    ensures r.Ok? && r.value.None? <==> |instruments| == 0
    ensures r.Err? <==> |instruments| > 0 && GuitarPart !in instruments
    ensures r.Ok? && r.value.Some? ==> r.value.value == NotesOnly(instruments[GuitarPart])
  {
    if |instruments| == 0 then Ok(None)
    else if GuitarPart !in instruments then Err("KeyError")
    else Ok(Some(NotesOnly(instruments[GuitarPart])))
  }

  /** Guitar: the notes of each difficulty, None where the chart has none. */
  datatype Guitar = Guitar(expert: Option<seq<ChartEvent>>, hard: Option<seq<ChartEvent>>,
                           medium: Option<seq<ChartEvent>>, easy: Option<seq<ChartEvent>>)

  /** Python's truth value of a note list: None and [] are false. */
  predicate Truthy(notes: Option<seq<ChartEvent>>)
  {
    notes.Some? && notes.value != []
  }

  /** get_difficulty: easy, medium and hard by name, expert otherwise. */
  function GetDifficulty(g: Guitar, d: Difficulty): Option<seq<ChartEvent>>
  {
    if d == Easy then g.easy
    else if d == Medium then g.medium
    else if d == Hard then g.hard
    else g.expert
  }

  /** get_difficulties: the difficulties whose notes are non-empty. */
  function GetDifficulties(g: Guitar): seq<Difficulty>
  {
    (if Truthy(g.easy) then [Easy] else [])
    + (if Truthy(g.medium) then [Medium] else [])
    + (if Truthy(g.hard) then [Hard] else [])
    + (if Truthy(g.expert) then [Expert] else [])
  }

  /** A difficulty is listed exactly when it has notes, and the list runs
      from easy to expert. */
  lemma DifficultiesSpec(g: Guitar)
    ensures forall d :: d in GetDifficulties(g) <==> Truthy(GetDifficulty(g, d))
    ensures forall i, j | 0 <= i < j < |GetDifficulties(g)| :: Rank(GetDifficulties(g)[i]) < Rank(GetDifficulties(g)[j])
  {
  }

  /** The kind of a sync track event; only BPM changes are used. */
  datatype SyncKind = Bpm | OtherSync

  /** A sync track event: its tick, kind and value (milli-BPM for a tempo
      change). */
  datatype SyncEvent = SyncEvent(time: int, kind: SyncKind, value: int)

  /** SyncFrame(time_ms, time_ticks, milli_bpm) */
  datatype SyncFrame = SyncFrame(timeMs: real, timeTicks: int, milliBpm: int)

  /** ticks per minute at a tempo: milli_bpm * resolution / 1000. */
  function TicksPerMinute(milliBpm: int, resolution: int): real
  {
    (milliBpm * resolution) as real / 1000.0
  }

  /** ms_to_ticks */
  function MsToTicks(ms: real, milliBpm: int, resolution: int): real
  {
    TicksPerMinute(milliBpm, resolution) * ms / MsPerMin as real
  }

  /** ticks_to_ms; the division raises for a tempo or resolution of 0. */
  function TicksToMs(ticks: real, milliBpm: int, resolution: int): real
    requires milliBpm != 0 && resolution != 0
  {
    ticks / TicksPerMinute(milliBpm, resolution) * MsPerMin as real
  }

  /** The two conversions undo each other. */
  lemma ConversionRoundTrip(ms: real, ticks: real, milliBpm: int, resolution: int)
    requires milliBpm != 0 && resolution != 0
    ensures TicksToMs(MsToTicks(ms, milliBpm, resolution), milliBpm, resolution) == ms
    ensures MsToTicks(TicksToMs(ticks, milliBpm, resolution), milliBpm, resolution) == ticks
  {
    var tpm := TicksPerMinute(milliBpm, resolution);
    assert tpm != 0.0 by {
      assert milliBpm * resolution != 0;
    }
    var m := MsPerMin as real;
    assert tpm * ms / m == tpm * (ms / m);
    MulDivCancel(tpm, ms / m);
    var u := ticks / tpm;
    assert tpm * (u * m) == (tpm * u) * m;
    MulDivCancel(tpm, ticks);
  }

  lemma MulDivCancel(a: real, q: real)
    requires a != 0.0
    ensures a * q / a == q && a * (q / a) == q
  {
  }

  /** At a positive tempo a non-negative number of ticks lasts a
      non-negative time. */
  lemma TicksToMsNonNegative(ticks: real, milliBpm: int, resolution: int)
    requires milliBpm > 0 && resolution > 0 && ticks >= 0.0
    ensures TicksToMs(ticks, milliBpm, resolution) >= 0.0
  {
    assert milliBpm * resolution > 0;
  }

  /** Which event compute_sync_track measures the gap from. As written,
      `i - 1 > 0` makes event 1 measure from itself; the evident intent is
      the event before it. */
  datatype PrevRule = AsWritten | Intended

  function PrevIndex(i: nat, rule: PrevRule): (p: nat)
    ensures p <= i
  {
    match rule
    case AsWritten => if i - 1 > 0 then i - 1 else i
    case Intended => if i - 1 >= 0 then i - 1 else i
  }

  /** Among the first n events, every BPM event's gap is converted at a
      non-zero ticks-per-minute: the event it measures from has a non-zero
      tempo and the resolution is not zero. ticks_to_ms divides by that
      rate, so anything else raises ZeroDivisionError. */
  predicate ConvertibleUpTo(track: seq<SyncEvent>, n: nat, resolution: int, rule: PrevRule)
    requires n <= |track|
  {
    forall i | 0 <= i < n && IsBpmAt(track, i) :: track[PrevIndex(i, rule)].value != 0 && resolution != 0
  }

  predicate IsBpmAt(track: seq<SyncEvent>, i: nat)
    requires i < |track|
  {
    track[i].kind == Bpm
  }

  /** A track compute_sync_track runs through without raising. */
  predicate Convertible(track: seq<SyncEvent>, resolution: int, rule: PrevRule)
  {
    ConvertibleUpTo(track, |track|, resolution, rule)
  }

  /** The frames after the first n events. */
  function SyncFrames(track: seq<SyncEvent>, n: nat, resolution: int, rule: PrevRule): seq<SyncFrame>
    requires n <= |track| && ConvertibleUpTo(track, n, resolution, rule)
  {
    if n == 0 then []
    else
      var frames := SyncFrames(track, n - 1, resolution, rule);
      var curr := track[n - 1];
      var prev := track[PrevIndex(n - 1, rule)];
      if curr.kind != Bpm then frames
      else
        var deltaMs := TicksToMs((curr.time - prev.time) as real, prev.value, resolution);
        var prevMs := if frames != [] then frames[|frames| - 1].timeMs else 0.0;
        frames + [SyncFrame(prevMs + deltaMs, curr.time, curr.value)]
  }

  /** compute_sync_track: one frame per BPM event, its time the running
      sum of the gaps converted at the tempo of the event measured from;
      Err exactly when some BPM event's gap would be divided by a zero
      rate. */
  method ComputeSyncTrack(track: seq<SyncEvent>, resolution: int, rule: PrevRule) returns (r: Result<seq<SyncFrame>>)
    ensures r.Err? <==> !Convertible(track, resolution, rule)
    ensures r.Ok? ==> r.value == SyncFrames(track, |track|, resolution, rule)
  {
    var frames := [];
    for i := 0 to |track|
      invariant ConvertibleUpTo(track, i, resolution, rule)
      invariant frames == SyncFrames(track, i, resolution, rule)
    {
      var curr := track[i];
      var prev := track[PrevIndex(i, rule)];
      if curr.kind != Bpm {
        continue;
      }
      if prev.value == 0 || resolution == 0 {
        return Err("ZeroDivisionError");
      }
      var deltaTicks := curr.time - prev.time;
      var deltaMs := TicksToMs(deltaTicks as real, prev.value, resolution);
      var prevMs := if frames != [] then frames[|frames| - 1].timeMs else 0.0;
      frames := frames + [SyncFrame(prevMs + deltaMs, curr.time, curr.value)];
    }
    r := Ok(frames);
  }

  /** The BPM events among the first n. */
  function BpmEvents(track: seq<SyncEvent>, n: nat): seq<SyncEvent>
    requires n <= |track|
  {
    if n == 0 then []
    else BpmEvents(track, n - 1) + (if track[n - 1].kind == Bpm then [track[n - 1]] else [])
  }

  /** One frame per BPM event, in order, at its tick and tempo. */
  lemma {:induction false} SyncFramesFollowBpm(track: seq<SyncEvent>, n: nat, resolution: int, rule: PrevRule)
    requires n <= |track| && Convertible(track, resolution, rule)
    ensures |SyncFrames(track, n, resolution, rule)| == |BpmEvents(track, n)|
    ensures forall k | 0 <= k < |BpmEvents(track, n)| ::
      SyncFrames(track, n, resolution, rule)[k].timeTicks == BpmEvents(track, n)[k].time
      && SyncFrames(track, n, resolution, rule)[k].milliBpm == BpmEvents(track, n)[k].value
  {
    if n > 0 {
      SyncFramesFollowBpm(track, n - 1, resolution, rule);
    }
  }

  /** A track whose ticks never go back and whose tempos and resolution
      are positive. */
  predicate Forward(track: seq<SyncEvent>, resolution: int)
  {
    && resolution > 0
    && (forall i | 0 <= i < |track| :: track[i].value > 0)
    && (forall i, j | 0 <= i <= j < |track| :: track[i].time <= track[j].time)
  }

  /** Frame times from 0 on, never decreasing. */
  predicate TimesOrdered(frames: seq<SyncFrame>)
  {
    && (forall k | 0 <= k < |frames| :: frames[k].timeMs >= 0.0)
    && (forall k, l | 0 <= k <= l < |frames| :: frames[k].timeMs <= frames[l].timeMs)
  }

  /** On such a track the frame times start at 0 or later and never
      decrease, whichever event the gaps are measured from. */
  lemma {:induction false} SyncTimesNonDecreasing(track: seq<SyncEvent>, n: nat, resolution: int, rule: PrevRule)
    requires n <= |track| && Forward(track, resolution)
    ensures TimesOrdered(SyncFrames(track, n, resolution, rule))
  {
    if n > 0 {
      SyncTimesNonDecreasing(track, n - 1, resolution, rule);
      var frames := SyncFrames(track, n - 1, resolution, rule);
      var curr := track[n - 1];
      var prev := track[PrevIndex(n - 1, rule)];
      if curr.kind == Bpm {
        assert prev.time <= curr.time;
        var deltaMs := TicksToMs((curr.time - prev.time) as real, prev.value, resolution);
        TicksToMsNonNegative((curr.time - prev.time) as real, prev.value, resolution);
        var prevMs := if frames != [] then frames[|frames| - 1].timeMs else 0.0;
        if frames != [] {
          forall k | 0 <= k < |frames|
            ensures frames[k].timeMs <= prevMs
          {
            assert frames[k].timeMs <= frames[|frames| - 1].timeMs;
          }
        }
        assert SyncFrames(track, n, resolution, rule) == frames + [SyncFrame(prevMs + deltaMs, curr.time, curr.value)];
      }
    }
  }

  /** With the intended rule, on a track of tempo changes only, each frame
      adds the gap since the previous event at the previous tempo. */
  lemma IntendedCountsEveryGap(track: seq<SyncEvent>, resolution: int, k: nat)
    requires Convertible(track, resolution, Intended) && 1 <= k < |track|
    requires forall i | 0 <= i < |track| :: track[i].kind == Bpm
    ensures PrevIndex(k, Intended) == k - 1
    ensures var frames := SyncFrames(track, |track|, resolution, Intended);
      |frames| == |track|
      && frames[k].timeMs == frames[k - 1].timeMs + TicksToMs((track[k].time - track[k - 1].time) as real, track[k - 1].value, resolution)
  {
    AllBpmPrefix(track, |track|, resolution, Intended);
    AllBpmPrefix(track, k + 1, resolution, Intended);
    AllBpmPrefix(track, k, resolution, Intended);
    SyncFramesPrefix(track, k + 1, |track|, resolution, Intended);
    var before := SyncFrames(track, k, resolution, Intended);
    var after := SyncFrames(track, k + 1, resolution, Intended);
    assert after == before + [SyncFrame(before[k - 1].timeMs + TicksToMs((track[k].time - track[k - 1].time) as real, track[k - 1].value, resolution), track[k].time, track[k].value)];
  }

  /** On a track of tempo changes only there is a frame per event. */
  lemma {:induction false} AllBpmPrefix(track: seq<SyncEvent>, n: nat, resolution: int, rule: PrevRule)
    requires n <= |track| && Convertible(track, resolution, rule)
    requires forall i | 0 <= i < |track| :: track[i].kind == Bpm
    ensures |SyncFrames(track, n, resolution, rule)| == n
  {
    if n > 0 {
      AllBpmPrefix(track, n - 1, resolution, rule);
    }
  }

  /** Later events only append frames. */
  lemma {:induction false} SyncFramesPrefix(track: seq<SyncEvent>, m: nat, n: nat, resolution: int, rule: PrevRule)
    requires m <= n <= |track| && Convertible(track, resolution, rule)
    ensures SyncFrames(track, m, resolution, rule) <= SyncFrames(track, n, resolution, rule)
    decreases n - m
  {
    if m < n {
      SyncFramesPrefix(track, m, n - 1, resolution, rule);
    }
  }

  /** As written, the gap between the first two tempo changes is lost:
      with 120 BPM from tick 0 and 140 BPM from tick 192 at 192 ticks per
      beat, the second change is placed at 0 ms instead of 500 ms. */
  lemma AsWrittenDropsFirstGap()
    ensures var track := [SyncEvent(0, Bpm, 120000), SyncEvent(192, Bpm, 140000)];
      && SyncFrames(track, 2, 192, AsWritten)[1].timeMs == 0.0
      && SyncFrames(track, 2, 192, Intended)[1].timeMs == 500.0
  {
    var track := [SyncEvent(0, Bpm, 120000), SyncEvent(192, Bpm, 140000)];
    assert TicksToMs(0.0, 120000, 192) == 0.0;
    assert TicksToMs(0.0, 140000, 192) == 0.0;
    assert TicksPerMinute(120000, 192) == 23040.0;
    assert TicksToMs(192.0, 120000, 192) == 500.0;
  }

  /** The number of leading frames, from index i on, that start at or
      before t; the loop of to_ticks stops at the first that does not. */
  function LeadFrom(frames: seq<SyncFrame>, t: real, i: nat): (j: nat)
    requires i <= |frames|
    ensures i <= j <= |frames|
    decreases |frames| - i
  {
    if i < |frames| && frames[i].timeMs <= t then LeadFrom(frames, t, i + 1) else i
  }

  /** The frame to_ticks uses: the last one it passed, or the first. */
  function SyncIndex(frames: seq<SyncFrame>, t: real): (k: nat)
    requires frames != []
    ensures k < |frames|
  {
    var j := LeadFrom(frames, t, 0);
    if j == 0 then 0 else j - 1
  }

  /** to_ticks(t): the tick of that frame plus the time since it at its
      tempo; None when there is no frame, where `sync_data[0]` raises
      IndexError. */
  function TicksAt(frames: seq<SyncFrame>, resolution: int, t: real): Option<real>
  {
    if frames == [] then None
    else
      var f := frames[SyncIndex(frames, t)];
      Some(f.timeTicks as real + MsToTicks(t - f.timeMs, f.milliBpm, resolution))
  }

  /** to_ticks. */
  method ToTicks(frames: seq<SyncFrame>, resolution: int, t: real) returns (ticks: Option<real>)
    ensures ticks == TicksAt(frames, resolution, t)
  {
    if frames == [] {
      return None;
    }
    var f := frames[0];
    var i := 0;
    while i < |frames|
      invariant 0 <= i <= |frames|
      invariant LeadFrom(frames, t, i) == LeadFrom(frames, t, 0)
      invariant f == frames[if i == 0 then 0 else i - 1]
    {
      if frames[i].timeMs > t {
        break;
      }
      f := frames[i];
      i := i + 1;
    }
    ticks := Some(f.timeTicks as real + MsToTicks(t - f.timeMs, f.milliBpm, resolution));
  }

  /** The frame used starts at or before t and the next one after t, or t
      comes before every frame and the first is used. */
  lemma {:induction false} LeadFromSpec(frames: seq<SyncFrame>, t: real, i: nat)
    requires i <= |frames|
    ensures forall j | i <= j < LeadFrom(frames, t, i) :: frames[j].timeMs <= t
    ensures LeadFrom(frames, t, i) < |frames| ==> frames[LeadFrom(frames, t, i)].timeMs > t
    decreases |frames| - i
  {
    if i < |frames| && frames[i].timeMs <= t {
      LeadFromSpec(frames, t, i + 1);
    }
  }

  /** With frame times strictly increasing, the position of a frame's own
      start time is that frame's tick. */
  lemma TicksAtFrameStart(frames: seq<SyncFrame>, resolution: int, k: nat)
    requires k < |frames|
    requires forall i, j | 0 <= i < j < |frames| :: frames[i].timeMs < frames[j].timeMs
    ensures TicksAt(frames, resolution, frames[k].timeMs) == Some(frames[k].timeTicks as real)
  {
    LeadFromSorted(frames, k, 0);
  }

  /** Scanning strictly increasing frame times for a frame's own start
      time stops right after that frame. */
  lemma {:induction false} LeadFromSorted(frames: seq<SyncFrame>, k: nat, i: nat)
    requires k < |frames| && i <= k + 1
    requires forall i, j | 0 <= i < j < |frames| :: frames[i].timeMs < frames[j].timeMs
    ensures LeadFrom(frames, frames[k].timeMs, i) == k + 1
    decreases k + 1 - i
  {
    if i <= k {
      assert frames[i].timeMs <= frames[k].timeMs;
      LeadFromSorted(frames, k, i + 1);
    } else if k + 1 < |frames| {
      assert frames[k + 1].timeMs > frames[k].timeMs;
    }
  }

  /** TreeChart: the chart's metadata, the guitar notes of each difficulty
      and the sync track. */
  datatype TreeChart = TreeChart(name: string, artist: string, resolution: int, offset: int,
                                 guitar: Guitar, syncData: seq<SyncFrame>)

  /** A chart as chparse reads it: one instrument table per difficulty and
      the sync track. */
  datatype Chart = Chart(name: string, artist: string, resolution: int, offset: int,
                         instruments: map<Difficulty, map<Instrument, seq<ChartEvent>>>,
                         syncTrack: seq<SyncEvent>)

  /** chart.instruments[difficulty]; chparse keeps a table for every
      difficulty, so a missing one reads as empty. */
  function InstrumentsOf(c: Chart, d: Difficulty): map<Instrument, seq<ChartEvent>>
  {
    if d in c.instruments then c.instruments[d] else map[]
  }

  /** TreeChart(c): Err when a difficulty has instruments but no guitar, or
      when the sync track cannot be converted. */
  method NewTreeChart(c: Chart, rule: PrevRule) returns (r: Result<TreeChart>)
    ensures r.Err? <==> (exists d :: GetGuitar(InstrumentsOf(c, d)).Err?) || !Convertible(c.syncTrack, c.resolution, rule)
    ensures r.Ok? ==> r.value.name == c.name && r.value.resolution == c.resolution
    ensures r.Ok? ==> forall d :: GetDifficulty(r.value.guitar, d) == GetGuitar(InstrumentsOf(c, d)).value
    ensures r.Ok? ==> r.value.syncData == SyncFrames(c.syncTrack, |c.syncTrack|, c.resolution, rule)
  {
    var expert := GetGuitar(InstrumentsOf(c, Expert));
    var hard := GetGuitar(InstrumentsOf(c, Hard));
    var medium := GetGuitar(InstrumentsOf(c, Medium));
    var easy := GetGuitar(InstrumentsOf(c, Easy));
    if expert.Err? || hard.Err? || medium.Err? || easy.Err? {
      var d := if expert.Err? then Expert else if hard.Err? then Hard else if medium.Err? then Medium else Easy;
      assert GetGuitar(InstrumentsOf(c, d)).Err?;
      return Err("KeyError");
    }
    forall d
      ensures GetGuitar(InstrumentsOf(c, d)).Ok?
    {
      match d
      case Easy => assert GetGuitar(InstrumentsOf(c, d)) == easy;
      case Medium => assert GetGuitar(InstrumentsOf(c, d)) == medium;
      case Hard => assert GetGuitar(InstrumentsOf(c, d)) == hard;
      case Expert => assert GetGuitar(InstrumentsOf(c, d)) == expert;
    }
    var sync := ComputeSyncTrack(c.syncTrack, c.resolution, rule);
    if sync.Err? {
      return Err(sync.error);
    }
    r := Ok(TreeChart(c.name, c.artist, c.resolution, c.offset,
                      Guitar(expert.value, hard.value, medium.value, easy.value), sync.value));
  }
}
