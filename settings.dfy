/** code/treehero/settings.py: the key bindings of the game, five fret keys
    and two strum keys, and their saved form. The settings file holds the
    document json.dumps writes; reading and writing the file and the JSON
    text are not modelled, the document is. */
module Settings {
  import opened Wrappers
  import opened Inputs

  /** a, s, d, f, g */
  const DefaultKeys := [KbInput(KeyA), KbInput(KeyS), KbInput(KeyD), KbInput(KeyF), KbInput(KeyG)]

  /** up, down */
  const DefaultStrumKeys := [KbInput(ArrowUp), KbInput(ArrowDown)]

  /** A JSON value of a saved input. */
  datatype Value = Text(s: string) | Number(n: int)

  /** A saved input: dataclasses.asdict of a ControlInput. */
  type Record = map<string, Value>

  /** The saved document: {"keys": [...], "strum_keys": [...]}. */
  type Document = map<string, seq<Record>>

  function SourceName(s: Source): string
  {
    if s == Keyboard then "KEYBOARD" else "CONTROLLER"
  }

  /** dataclasses.asdict(k) */
  function AsDict(c: ControlInput): Record
  {
    map["source" := Text(SourceName(c.source)), "controller_id" := Number(c.controllerId), "button" := Number(c.button)]
  }

  /** ControlInput(**c): exactly the three fields, else TypeError. */
  function FromRecord(r: Record): Option<ControlInput>
  {
    if r.Keys != {"source", "controller_id", "button"} then None
    else
      match (r["source"], r["controller_id"], r["button"])
      case (Text(s), Number(id), Number(b)) =>
        if s == "KEYBOARD" then Some(ControlInput(Keyboard, id, b))
        else if s == "CONTROLLER" then Some(ControlInput(Controller, id, b))
        else None
      case _ => None
  }

  /** A saved input reads back as itself. */
  lemma RecordRoundTrip(c: ControlInput)
    ensures FromRecord(AsDict(c)) == Some(c)
  {
    assert AsDict(c).Keys == {"source", "controller_id", "button"};
  }

  /** list(map(asdict, inputs)) */
  function AsDicts(inputs: seq<ControlInput>): (records: seq<Record>)
    ensures |records| == |inputs|
    ensures forall i | 0 <= i < |inputs| :: records[i] == AsDict(inputs[i])
  {
    if inputs == [] then [] else [AsDict(inputs[0])] + AsDicts(inputs[1..])
  }

  /** list(map(lambda c: ControlInput(**c), records)): None when any record
      is not an input. */
  function FromRecords(records: seq<Record>): (r: Option<seq<ControlInput>>)
    ensures r.Some? <==> forall i | 0 <= i < |records| :: FromRecord(records[i]).Some?
    ensures r.Some? ==> |r.value| == |records| && forall i | 0 <= i < |records| :: r.value[i] == FromRecord(records[i]).value
  {
    if records == [] then Some([])
    else
      match (FromRecord(records[0]), FromRecords(records[1..]))
      case (Some(c), Some(rest)) => Some([c] + rest)
      case _ => None
  }

  /** A saved list reads back in order. */
  lemma RecordsRoundTrip(inputs: seq<ControlInput>)
    ensures FromRecords(AsDicts(inputs)) == Some(inputs)
  {
    forall i | 0 <= i < |inputs|
      ensures FromRecord(AsDicts(inputs)[i]) == Some(inputs[i])
    {
      RecordRoundTrip(inputs[i]);
    }
    assert FromRecords(AsDicts(inputs)).value == inputs;
  }

  /** The bindings load() ends with: those of the file when it exists,
      holds a document with both lists and every entry is an input; the
      defaults otherwise (no file, or any exception). */
  function LoadedBindings(file: Option<Option<Document>>): (b: (seq<ControlInput>, seq<ControlInput>))
  {
    match file
    case None => (DefaultKeys, DefaultStrumKeys)
    case Some(None) => (DefaultKeys, DefaultStrumKeys)
    case Some(Some(doc)) =>
      if "keys" !in doc || "strum_keys" !in doc then (DefaultKeys, DefaultStrumKeys)
      else
        match (FromRecords(doc["keys"]), FromRecords(doc["strum_keys"]))
        case (Some(keys), Some(strum)) => (keys, strum)
        case _ => (DefaultKeys, DefaultStrumKeys)
  }

  /** Python's index into a list of length n: a negative index counts from
      the end. */
  function PyIndex(i: int, n: nat): (k: nat)
    requires -(n as int) <= i < n
    ensures k < n && (i >= 0 ==> k == i) && (i < 0 ==> k == n + i)
  {
    if i < 0 then n + i else i
  }

  class Settings {
    var keys: seq<ControlInput>
    var strumKeys: seq<ControlInput>

    /** Settings(): the default bindings. */
    constructor ()
      ensures keys == DefaultKeys && strumKeys == DefaultStrumKeys
      ensures |keys| == 5 && |strumKeys| == 2
    {
      keys := DefaultKeys;
      strumKeys := DefaultStrumKeys;
    }

    /** Settings.load(): the bindings of the file, or the defaults. */
    constructor Load(file: Option<Option<Document>>)
      ensures (keys, strumKeys) == LoadedBindings(file)
    {
      var b := LoadedBindings(file);
      keys := b.0;
      strumKeys := b.1;
    }

    /** bind_fret_input: replaces the one fret key. An index outside the
        list raises IndexError (ok is false) and changes nothing. */
    method BindFretInput(fretIndex: int, c: ControlInput) returns (ok: bool)
      modifies this
      ensures ok <==> -|old(keys)| <= fretIndex < |old(keys)|
      ensures ok ==> keys == old(keys)[PyIndex(fretIndex, |old(keys)|) := c]
      ensures !ok ==> keys == old(keys)
      ensures strumKeys == old(strumKeys)
    {
      ok := -|keys| <= fretIndex < |keys|;
      if ok {
        keys := keys[PyIndex(fretIndex, |keys|) := c];
      }
    }

    /** bind_strum_input as written: it assigns into the fret keys, so the
        strum keys never change. */
    method BindStrumInput(fretIndex: int, c: ControlInput) returns (ok: bool)
      modifies this
      ensures ok <==> -|old(keys)| <= fretIndex < |old(keys)|
      ensures ok ==> keys == old(keys)[PyIndex(fretIndex, |old(keys)|) := c]
      ensures !ok ==> keys == old(keys)
      ensures strumKeys == old(strumKeys)
    {
      ok := -|keys| <= fretIndex < |keys|;
      if ok {
        keys := keys[PyIndex(fretIndex, |keys|) := c];
      }
    }

    /** bind_strum_input as its name intends: replaces the one strum key. */
    method BindStrumInputIntended(strumIndex: int, c: ControlInput) returns (ok: bool)
      modifies this
      ensures ok <==> -|old(strumKeys)| <= strumIndex < |old(strumKeys)|
      ensures ok ==> strumKeys == old(strumKeys)[PyIndex(strumIndex, |old(strumKeys)|) := c]
      ensures !ok ==> strumKeys == old(strumKeys)
      ensures keys == old(keys)
    {
      ok := -|strumKeys| <= strumIndex < |strumKeys|;
      if ok {
        strumKeys := strumKeys[PyIndex(strumIndex, |strumKeys|) := c];
      }
    }

    /** __dict__(): the two lists of saved inputs, in order. */
    function Dict(): (d: Document)
      reads this
      ensures d.Keys == {"keys", "strum_keys"}
      ensures d["keys"] == AsDicts(keys) && d["strum_keys"] == AsDicts(strumKeys)
    {
      map["keys" := AsDicts(keys), "strum_keys" := AsDicts(strumKeys)]
    }
  }

  /** Saving and loading gives back the bindings. */
  lemma SaveLoadRoundTrip(keys: seq<ControlInput>, strumKeys: seq<ControlInput>)
    ensures LoadedBindings(Some(Some(map["keys" := AsDicts(keys), "strum_keys" := AsDicts(strumKeys)]))) == (keys, strumKeys)
  {
    RecordsRoundTrip(keys);
    RecordsRoundTrip(strumKeys);
  }

  /** Without a file, or with one that is not a settings document, the
      defaults are loaded. */
  lemma LoadFallsBack(doc: Document)
    requires "keys" !in doc
    ensures LoadedBindings(None) == (DefaultKeys, DefaultStrumKeys)
    ensures LoadedBindings(Some(None)) == (DefaultKeys, DefaultStrumKeys)
    ensures LoadedBindings(Some(Some(doc))) == (DefaultKeys, DefaultStrumKeys)
  {
  }

  /** As written, binding a strum input on fresh settings rebinds the first
      fret and leaves both strum keys at their defaults. */
  method StrumBindingExample() returns (keys: seq<ControlInput>, strumKeys: seq<ControlInput>)
    ensures keys == DefaultKeys[0 := JbInput(0, 3)] && strumKeys == DefaultStrumKeys
  {
    var s := new Settings();
    var ok := s.BindStrumInput(0, JbInput(0, 3));
    keys, strumKeys := s.keys, s.strumKeys;
  }

  /** The intended binding changes the strum key and no fret key. */
  method IntendedStrumBindingExample() returns (keys: seq<ControlInput>, strumKeys: seq<ControlInput>)
    ensures keys == DefaultKeys && strumKeys == [JbInput(0, 3), KbInput(ArrowDown)]
  {
    var s := new Settings();
    var ok := s.BindStrumInputIntended(0, JbInput(0, 3));
    keys, strumKeys := s.keys, s.strumKeys;
  }
}
