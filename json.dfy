/**
 * The parsed metadata document, as the engine's JSON reader hands it over: a tree
 * of values whose objects are lists of named entries (a map from field name to
 * value, iterated in its own order). The accessors are the lenient ones the
 * loader uses: a missing field or a value of the wrong kind reads as an empty
 * object, an empty array, the empty string or zero.
 */
module Json {
  import opened Wrappers

  datatype Json =
    | JNull
    | JBool(b: bool)
    | JNumber(n: int)
    | JString(s: string)
    | JArray(items: seq<Json>)
    | JObject(fields: seq<(string, Json)>)

  /** The names of an object's entries are pairwise distinct, as the keys of a TMap are. */
  ghost predicate DistinctNames(fields: seq<(string, Json)>)
  {
    forall i, j :: 0 <= i < j < |fields| ==> fields[i].0 != fields[j].0
  }

  /**
   * A value the reader can produce: every object in it, at any depth, names its
   * entries distinctly (the reader stores an object's entries in a TMap, so a
   * repeated name keeps only one entry).
   */
  ghost predicate WellFormed(j: Json)
  {
    match j
    case JArray(items) => forall i :: 0 <= i < |items| ==> WellFormed(items[i])
    case JObject(fields) => DistinctNames(fields) && forall i :: 0 <= i < |fields| ==> WellFormed(fields[i].1)
    case _ => true
  }

  /** HasField / TryGetField: the value of the first entry named `name`, if any. */
  function Field(fields: seq<(string, Json)>, name: string): (r: Option<Json>)
    ensures r.None? <==> forall i :: 0 <= i < |fields| ==> fields[i].0 != name
    ensures r.Some? ==> exists i :: 0 <= i < |fields| && fields[i] == (name, r.value)
  {
    if fields == [] then None
    else if fields[0].0 == name then Some(fields[0].1)
    else
      var r := Field(fields[1..], name);
      assert r.Some? ==> exists i :: 0 <= i < |fields| - 1 && fields[1..][i] == (name, r.value);
      r
  }

  /** In a uniquely named object, looking up an entry's name gives that entry's value. */
  lemma {:induction false} FieldDistinct(fields: seq<(string, Json)>, i: int)
    requires DistinctNames(fields) && 0 <= i < |fields|
    ensures Field(fields, fields[i].0) == Some(fields[i].1)
  {
    if i > 0 {
      assert fields[0].0 != fields[i].0;
      assert fields[1..][i - 1] == fields[i];
      FieldDistinct(fields[1..], i - 1);
    }
  }

  /** A field of a well-formed object holds a well-formed value, so its entries are uniquely named. */
  lemma ObjectFieldWellFormed(fields: seq<(string, Json)>, name: string)
    requires WellFormed(JObject(fields))
    ensures WellFormed(JObject(GetObjectField(fields, name)))
  {
    var r := Field(fields, name);
    if r.Some? && r.value.JObject? {
      var i :| 0 <= i < |fields| && fields[i] == (name, r.value);
      assert WellFormed(fields[i].1);
    }
  }

  /** AsObject: the entries of an object; anything else reads as the empty object. */
  function AsObject(j: Json): seq<(string, Json)>
  {
    if j.JObject? then j.fields else []
  }

  /** AsArray: the items of an array; anything else reads as the empty array. */
  function AsArray(j: Json): seq<Json>
  {
    if j.JArray? then j.items else []
  }

  /** AsString: the text of a string; anything else reads as "". */
  function AsString(j: Json): string
  {
    if j.JString? then j.s else ""
  }

  /** AsNumber (and the integer getters): the value of a number; anything else reads as 0. */
  function AsInt(j: Json): int
  {
    if j.JNumber? then j.n else 0
  }

  function GetObjectField(fields: seq<(string, Json)>, name: string): seq<(string, Json)>
  {
    match Field(fields, name)
    case Some(v) => AsObject(v)
    case None => []
  }

  function GetArrayField(fields: seq<(string, Json)>, name: string): seq<Json>
  {
    match Field(fields, name)
    case Some(v) => AsArray(v)
    case None => []
  }

  function GetIntegerField(fields: seq<(string, Json)>, name: string): int
  {
    match Field(fields, name)
    case Some(v) => AsInt(v)
    case None => 0
  }

  function GetStringField(fields: seq<(string, Json)>, name: string): string
  {
    match Field(fields, name)
    case Some(v) => AsString(v)
    case None => ""
  }
}
