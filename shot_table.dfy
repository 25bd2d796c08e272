/** parse_data_file in code/s3_coordinate_processing.py: groups the
    detections of the data file by light id, dropping the ones without a
    position or with too little confidence. */
module ShotTable {
  import opened Wrappers
  import opened Reconstruction

  /** The smallest brightness a detection needs to be kept. */
  const ConfidenceFloor := 100

  /** One line of the data file once its JSON object has been decoded. */
  datatype Record = Record(id: int, angle: int, x: int, y: int, v: int)

  predicate Keep(r: Record)
  {
    r.x != 0 && r.y != 0 && r.v >= ConfidenceFloor
  }

  function ToSnap(r: Record): (s: Snap)
    ensures s.ledId == r.id && s.angle == r.angle && s.x == r.x && s.y == r.y
  {
    Snap(r.id, r.angle, r.x, r.y)
  }

  /** The kept detections of light `id`, in file order. */
  function ShotsOf(records: seq<Record>, id: int): (shots: seq<Snap>)
    ensures |shots| <= |records|
    ensures forall s | s in shots :: s.ledId == id && s.x != 0 && s.y != 0
  {
    if records == [] then []
    else
      var last := records[|records| - 1];
      ShotsOf(records[..|records| - 1], id) + (if Keep(last) && last.id == id then [ToSnap(last)] else [])
  }

  /** Grouping respects file order: it distributes over concatenation. */
  lemma {:induction false} ShotsOfAppend(a: seq<Record>, b: seq<Record>, id: int)
    ensures ShotsOf(a + b, id) == ShotsOf(a, id) + ShotsOf(b, id)
    decreases |b|
  {
    if b == [] {
      assert a + b == a;
    } else {
      var b' := b[..|b| - 1];
      assert (a + b)[..|a + b| - 1] == a + b';
      ShotsOfAppend(a, b', id);
    }
  }

  /** A detection is grouped under `id` exactly when a kept record of that
      light carries it. */
  lemma {:induction false} ShotsOfMembers(records: seq<Record>, id: int, s: Snap)
    ensures s in ShotsOf(records, id) <==>
      exists r | r in records :: Keep(r) && r.id == id && ToSnap(r) == s
  {
    if records != [] {
      var front := records[..|records| - 1];
      var last := records[|records| - 1];
      ShotsOfMembers(front, id, s);
      assert records == front + [last];
      if s in ShotsOf(front, id) {
        var r :| r in front && Keep(r) && r.id == id && ToSnap(r) == s;
        assert r in records;
      }
      if exists r | r in records :: Keep(r) && r.id == id && ToSnap(r) == s {
        var r :| r in records && Keep(r) && r.id == id && ToSnap(r) == s;
        if r != last {
          assert r in front;
        }
      }
    }
  }

  /** The ids that end up in the table: those with at least one kept record. */
  function KeptIds(records: seq<Record>): set<int>
  {
    set r | r in records && Keep(r) :: r.id
  }

  lemma {:induction false} ShotsOfEmpty(records: seq<Record>, id: int)
    ensures ShotsOf(records, id) == [] <==> id !in KeptIds(records)
  {
    if records != [] {
      var front := records[..|records| - 1];
      var last := records[|records| - 1];
      ShotsOfEmpty(front, id);
      assert records == front + [last];
      assert KeptIds(records) == KeptIds(front) + (if Keep(last) then {last.id} else {});
    }
  }

  /** The ids of the kept records in order of first appearance: the order
      in which parse_data_file inserts them into its dictionary. */
  function KeptOrder(records: seq<Record>): (ids: seq<int>)
    ensures Enumerates(ids, KeptIds(records))
  {
    if records == [] then []
    else
      var front := records[..|records| - 1];
      var last := records[|records| - 1];
      assert records == front + [last];
      assert KeptIds(records) == KeptIds(front) + (if Keep(last) then {last.id} else {});
      var ids := KeptOrder(front);
      if Keep(last) && last.id !in ids then ids + [last.id] else ids
  }

  /** The dictionary parse_data_file builds, one record at a time. */
  function Table(records: seq<Record>): map<int, seq<Snap>>
  {
    if records == [] then map[]
    else
      var table := Table(records[..|records| - 1]);
      var last := records[|records| - 1];
      if Keep(last) then
        table[last.id := (if last.id in table then table[last.id] else []) + [ToSnap(last)]]
      else table
  }

  /** The table holds, for each light with a kept record, exactly that
      light's kept records in file order, and nothing else. */
  lemma {:induction false} TableGroups(records: seq<Record>)
    ensures Table(records).Keys == KeptIds(records)
    ensures forall id | id in Table(records) :: Table(records)[id] == ShotsOf(records, id) && |Table(records)[id]| > 0
  {
    if records != [] {
      var front := records[..|records| - 1];
      var last := records[|records| - 1];
      TableGroups(front);
      assert records == front + [last];
      assert KeptIds(records) == KeptIds(front) + (if Keep(last) then {last.id} else {});
      if Keep(last) && last.id !in Table(front) {
        ShotsOfEmpty(front, last.id);
      }
    }
  }

  /** json.loads of one line followed by int() of its id, angle, x, y and v;
      None where either raises. The JSON decoder is not part of this model. */
  type RecordDecoder = string -> Option<Record>

  predicate AllDecoded(lines: seq<string>, decode: RecordDecoder)
  {
    forall i | 0 <= i < |lines| :: decode(lines[i]).Some?
  }

  /** The records of a data file every line of which decodes. */
  function Records(lines: seq<string>, decode: RecordDecoder): (records: seq<Record>)
    requires AllDecoded(lines, decode)
    ensures |records| == |lines|
    ensures forall i | 0 <= i < |lines| :: Some(records[i]) == decode(lines[i])
  {
    if lines == [] then []
    else Records(lines[..|lines| - 1], decode) + [decode(lines[|lines| - 1]).value]
  }

  /** Decoding one more line appends its record. */
  lemma RecordsStep(lines: seq<string>, decode: RecordDecoder, i: nat)
    requires i < |lines| && AllDecoded(lines[..i], decode) && decode(lines[i]).Some?
    ensures AllDecoded(lines[..i + 1], decode)
    ensures Records(lines[..i + 1], decode) == Records(lines[..i], decode) + [decode(lines[i]).value]
  {
    assert lines[..i + 1][..i] == lines[..i];
  }

  /** One more record updates the table as the loop body does. */
  lemma TableSnoc(records: seq<Record>, rec: Record)
    ensures var table := Table(records);
      Table(records + [rec]) ==
        if Keep(rec) then table[rec.id := (if rec.id in table then table[rec.id] else []) + [ToSnap(rec)]]
        else table
    ensures KeptOrder(records + [rec]) ==
      if Keep(rec) && rec.id !in KeptOrder(records) then KeptOrder(records) + [rec.id] else KeptOrder(records)
  {
    assert (records + [rec])[..|records|] == records;
  }

  datatype DataFile = DataFile(shots: map<int, seq<Snap>>, ids: seq<int>)

  /** parse_data_file: each line is decoded and, when kept,
      `shot.setdefault(led_id, []).append(...)` files it under its light. A
      line that does not decode raises, and nothing is returned. Otherwise
      every light in the table has at least one shot, its shots are exactly
      its kept records in file order, and the table's keys are listed in
      order of first appearance. */
  method ParseDataFile(lines: seq<string>, decode: RecordDecoder) returns (r: Option<DataFile>)
    ensures r.None? <==> !AllDecoded(lines, decode)
    ensures r.Some? ==> AllDecoded(lines, decode)
    ensures r.Some? ==> r.value.shots == Table(Records(lines, decode)) && r.value.ids == KeptOrder(Records(lines, decode))
    ensures r.Some? ==> r.value.shots.Keys == KeptIds(Records(lines, decode)) && Enumerates(r.value.ids, r.value.shots.Keys)
    ensures r.Some? ==> forall id | id in r.value.shots ::
      r.value.shots[id] == ShotsOf(Records(lines, decode), id) && |r.value.shots[id]| > 0
  {
    var shots: map<int, seq<Snap>> := map[];
    var ids: seq<int> := [];
    var records: seq<Record> := [];
    var i := 0;
    while i < |lines|
      invariant 0 <= i <= |lines|
      invariant AllDecoded(lines[..i], decode) && records == Records(lines[..i], decode)
      invariant shots == Table(records) && ids == KeptOrder(records)
    {
      var decoded := decode(lines[i]);
      if decoded.None? {
        return None;
      }
      var rec := decoded.value;
      RecordsStep(lines, decode, i);
      TableGroups(records);
      TableSnoc(records, rec);
      records := records + [rec];
      i := i + 1;
      if rec.x == 0 || rec.y == 0 {
        continue;
      }
      if rec.v < ConfidenceFloor {
        continue;
      }
      if rec.id !in shots {
        ids := ids + [rec.id];
      }
      var group := if rec.id in shots then shots[rec.id] else [];
      shots := shots[rec.id := group + [ToSnap(rec)]];
    }
    assert lines[..i] == lines;
    TableGroups(records);
    r := Some(DataFile(shots, ids));
  }
}
