/** Completion states as they are stored in a JSON column (db/repository.py). */
module Persistence {
  import opened Wrappers
  import opened Ordering
  import opened Completion

  datatype Json =
    | Null
    | Number(n: int)
    | Text(s: string)
    | Array(items: seq<Json>)
    | Object(fields: map<string, Json>)

  function FactsJson(files: seq<FileFact>): seq<Json> {
    if |files| == 0 then []
    else [Object(map["path" := Text(files[0].path), "size" := Number(files[0].size)])] + FactsJson(files[1..])
  }

  function PairsJson(files: seq<FileFact>): seq<Json> {
    if |files| == 0 then [] else [Array([Text(files[0].path), Number(files[0].size)])] + PairsJson(files[1..])
  }

  function TextsJson(texts: seq<string>): seq<Json> {
    if |texts| == 0 then [] else [Text(texts[0])] + TextsJson(texts[1..])
  }

  /** `_serialize_snapshot`. */
  function SnapshotJson(s: Snapshot): Json {
    Object(map["files" := Array(FactsJson(s))])
  }

  /** `_serialize_completion_state`. */
  function StateJson(c: CompletionState): Json {
    Object(map["baseline" := SnapshotJson(c.baseline),
               "destination_path" := Text(c.destination),
               "required_stable_observations" := Number(c.required),
               "owned_paths" := Array(TextsJson(c.owned)),
               "last_fingerprint" := Array(PairsJson(c.lastFingerprint)),
               "stable_observations" := Number(c.stable)])
  }

  // ---- Reading: a missing key or a value of the wrong kind is an error ----

  datatype ReadError = Malformed | Refused

  function Field(j: Json, name: string): Result<Json, ReadError> {
    if j.Object? && name in j.fields then Ok(j.fields[name]) else Err(Malformed)
  }

  function ReadFact(path: Json, size: Json): Result<FileFact, ReadError> {
    if path.Text? && size.Number? && size.n >= 0 then Ok(FileFact(path.s, size.n)) else Err(Malformed)
  }

  /** A file fact refuses a path that is not absolute. */
  function ReadObject(j: Json): Result<FileFact, ReadError> {
    var path, size := Field(j, "path"), Field(j, "size");
    if path.Err? || size.Err? then Err(Malformed)
    else
      var f := ReadFact(path.value, size.value);
      if f.Ok? && !("/" <= f.value.path) then Err(Refused) else f
  }

  function ReadPair(j: Json): Result<FileFact, ReadError> {
    if j.Array? && |j.items| >= 2 then ReadFact(j.items[0], j.items[1]) else Err(Malformed)
  }

  function ReadAll<T>(items: seq<Json>, read: Json -> Result<T, ReadError>): Result<seq<T>, ReadError> {
    if |items| == 0 then Ok([])
    else
      var first := read(items[0]);
      var rest := ReadAll(items[1..], read);
      if first.Err? then Err(first.error) else if rest.Err? then rest else Ok([first.value] + rest.value)
  }

  function ReadText(j: Json): Result<string, ReadError> {
    if j.Text? then Ok(j.s) else Err(Malformed)
  }

  function ReadNumber(j: Json): Result<nat, ReadError> {
    if j.Number? && j.n >= 0 then Ok(j.n) else Err(Malformed)
  }

  function ReadArray<T>(j: Result<Json, ReadError>, read: Json -> Result<T, ReadError>): Result<seq<T>, ReadError> {
    if j.Ok? && j.value.Array? then ReadAll(j.value.items, read) else Err(Malformed)
  }

  /** `_deserialize_snapshot`: constructing a snapshot sorts it again. */
  function ReadSnapshot(j: Result<Json, ReadError>): Result<Snapshot, ReadError> {
    if j.Err? then Err(j.error)
    else
      var files := ReadArray(Field(j.value, "files"), ReadObject);
      if files.Ok? then Ok(MakeSnapshot(files.value)) else Err(files.error)
  }

  /** `_deserialize_completion_state`: the constructor may refuse the values. */
  function ReadState(j: Json): Result<CompletionState, ReadError> {
    var baseline := ReadSnapshot(Field(j, "baseline"));
    var destination := if Field(j, "destination_path").Ok? then ReadText(Field(j, "destination_path").value)
                       else Ok("/");
    var required := ReadField(j, "required_stable_observations");
    var owned := ReadArray(Field(j, "owned_paths"), ReadText);
    var fingerprint := ReadArray(Field(j, "last_fingerprint"), ReadPair);
    var stable := ReadField(j, "stable_observations");
    if baseline.Err? || destination.Err? || required.Err? || owned.Err? || fingerprint.Err? || stable.Err? then
      Err(Malformed)
    else if !Constructible(destination.value, required.value) then Err(Refused)
    else Ok(CompletionState(baseline.value, destination.value, required.value, owned.value, fingerprint.value,
                            stable.value))
  }

  function ReadField(j: Json, name: string): Result<nat, ReadError> {
    if Field(j, name).Ok? then ReadNumber(Field(j, name).value) else Err(Malformed)
  }

  // ---- Round trips ----

  /** What the constructor of a file fact checked when the snapshot was taken. */
  ghost predicate Absolute(files: seq<FileFact>) {
    forall i :: 0 <= i < |files| ==> "/" <= files[i].path
  }

  lemma {:induction false} FactsRoundTrip(files: seq<FileFact>)
    requires Absolute(files)
    ensures ReadAll(FactsJson(files), ReadObject) == Ok(files)
  {
    if |files| != 0 {
      FactsRoundTrip(files[1..]);
      assert FactsJson(files)[1..] == FactsJson(files[1..]);
      assert |"path"| == 4 && "path"[0] != "size"[0];
      assert files == [files[0]] + files[1..];
    }
  }

  lemma {:induction false} PairsRoundTrip(files: seq<FileFact>)
    ensures ReadAll(PairsJson(files), ReadPair) == Ok(files)
  {
    if |files| != 0 {
      PairsRoundTrip(files[1..]);
      assert PairsJson(files)[1..] == PairsJson(files[1..]);
      assert files == [files[0]] + files[1..];
    }
  }

  lemma {:induction false} TextsRoundTrip(texts: seq<string>)
    ensures ReadAll(TextsJson(texts), ReadText) == Ok(texts)
  {
    if |texts| != 0 {
      TextsRoundTrip(texts[1..]);
      assert TextsJson(texts)[1..] == TextsJson(texts[1..]);
      assert texts == [texts[0]] + texts[1..];
    }
  }

  /** A stored snapshot reads back as itself: it is sorted already, and the sort on reading is stable. */
  lemma SnapshotRoundTrip(s: Snapshot)
    requires Absolute(s)
    ensures ReadSnapshot(Ok(SnapshotJson(s))) == Ok(s)
  {
    FactsRoundTrip(s);
    SortIdempotent(s, PathLe);
  }

  lemma StateFields(c: CompletionState)
    ensures var j := StateJson(c);
            && Field(j, "baseline") == Ok(SnapshotJson(c.baseline))
            && Field(j, "destination_path") == Ok(Text(c.destination))
            && Field(j, "required_stable_observations") == Ok(Number(c.required))
            && Field(j, "owned_paths") == Ok(Array(TextsJson(c.owned)))
            && Field(j, "last_fingerprint") == Ok(Array(PairsJson(c.lastFingerprint)))
            && Field(j, "stable_observations") == Ok(Number(c.stable))
  {
    assert "destination_path"[0] != "last_fingerprint"[0];
  }

  /**
   * Storing and reading back a completion state is the identity, exactly on the states that can be
   * constructed at all.
   */
  lemma StateRoundTrip(c: CompletionState)
    requires Absolute(c.baseline)
    ensures ReadState(StateJson(c)) == if Constructible(c.destination, c.required) then Ok(c) else Err(Refused)
  {
    hide StateJson, SnapshotJson, FactsJson, PairsJson, TextsJson, ReadAll, ReadSnapshot, Constructible, Field;
    StateFields(c);
    SnapshotRoundTrip(c.baseline);
    TextsRoundTrip(c.owned);
    PairsRoundTrip(c.lastFingerprint);
  }

  /** A state stored without a directory reads back as one of the root directory. */
  lemma OldStateRoundTrip(c: CompletionState)
    requires Absolute(c.baseline)
    ensures ReadState(Object(StateJson(c).fields - {"destination_path"}))
            == if c.required >= 2 then Ok(c.(destination := "/")) else Err(Refused)
  {
    hide SnapshotJson, FactsJson, PairsJson, TextsJson, ReadAll, ReadSnapshot;
    StateFields(c);
    var fields := StateJson(c).fields - {"destination_path"};
    assert "destination_path"[0] != "last_fingerprint"[0];
    SnapshotRoundTrip(c.baseline);
    TextsRoundTrip(c.owned);
    PairsRoundTrip(c.lastFingerprint);
  }
}
