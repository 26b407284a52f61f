/** Parsed YAML/JSON values, as the Python code sees them after
    `yaml.safe_load` or `json.loads`: None, bools, ints, strings, lists and
    dicts. A dict keeps its keys in insertion order, because the order in
    which Python iterates a dict fixes the order of the back end's results. */
module Json {
  import opened Wrappers

  datatype Json =
    | JNull
    | JBool(b: bool)
    | JInt(i: int)
    | JString(s: string)
    | JArray(items: seq<Json>)
    | JObject(fields: seq<(string, Json)>)

  /** The keys of a dict, in iteration order. */
  function Keys(fields: seq<(string, Json)>): (ks: seq<string>)
    ensures |ks| == |fields|
    ensures forall i {:trigger ks[i]} :: 0 <= i < |fields| ==> ks[i] == fields[i].0
  {
    if fields == [] then [] else [fields[0].0] + Keys(fields[1..])
  }

  /** `d[key]` on a dict: the value stored under the first occurrence of
      `key` (a parsed dict holds each key once). */
  function Lookup(fields: seq<(string, Json)>, key: string): (r: Option<Json>)
    ensures r.None? <==> key !in Keys(fields)
  {
    if fields == [] then None
    else if fields[0].0 == key then Some(fields[0].1)
    else Lookup(fields[1..], key)
  }

  /** A value found under a key is one of the dict's entries. */
  lemma {:induction false} LookupIn(fields: seq<(string, Json)>, key: string)
    requires Lookup(fields, key).Some?
    ensures exists i :: 0 <= i < |fields| && fields[i] == (key, Lookup(fields, key).value)
  {
    if fields[0].0 == key {
      assert fields[0] == (key, Lookup(fields, key).value);
    } else {
      LookupIn(fields[1..], key);
      var i :| 0 <= i < |fields[1..]| && fields[1..][i] == (key, Lookup(fields, key).value);
      assert fields[i + 1] == fields[1..][i];
    }
  }

  /** `d.get(key)`: None both when the key is absent and when it holds None. */
  function GetOrNull(fields: seq<(string, Json)>, key: string): (r: Json)
    ensures key !in Keys(fields) ==> r == JNull
    ensures key in Keys(fields) ==> Some(r) == Lookup(fields, key)
  {
    match Lookup(fields, key)
    case Some(v) => v
    case None => JNull
  }

  /** `d[key] = v` on a dict: an existing key keeps its position and gets
      the new value; a new key goes at the end (UpdateLookup, UpdateKeys). */
  function Update(fields: seq<(string, Json)>, key: string, v: Json): (r: seq<(string, Json)>)
    ensures |r| == if key in Keys(fields) then |fields| else |fields| + 1
  {
    if fields == [] then [(key, v)]
    else if fields[0].0 == key then [(key, v)] + fields[1..]
    else [fields[0]] + Update(fields[1..], key, v)
  }

  lemma {:induction false} UpdateLookup(fields: seq<(string, Json)>, key: string, v: Json)
    ensures Lookup(Update(fields, key, v), key) == Some(v)
    ensures forall k :: k != key ==> Lookup(Update(fields, key, v), k) == Lookup(fields, k)
  {
    if fields != [] && fields[0].0 != key {
      UpdateLookup(fields[1..], key, v);
      var r := Update(fields, key, v);
      assert r[1..] == Update(fields[1..], key, v);
    } else if fields != [] {
      var r := Update(fields, key, v);
      assert r[1..] == fields[1..];
    }
  }

  lemma {:induction false} UpdateKeys(fields: seq<(string, Json)>, key: string, v: Json)
    ensures Keys(Update(fields, key, v)) == if key in Keys(fields) then Keys(fields) else Keys(fields) + [key]
  {
    if fields != [] && fields[0].0 != key {
      UpdateKeys(fields[1..], key, v);
      var r := Update(fields, key, v);
      assert r[1..] == Update(fields[1..], key, v);
      assert Keys(fields) == [fields[0].0] + Keys(fields[1..]);
    } else if fields != [] {
      var r := Update(fields, key, v);
      assert r[1..] == fields[1..];
    }
  }

  /** `isinstance(j, dict) and j.get('class') == 'File'`. */
  predicate IsFileObject(j: Json) {
    j.JObject? && GetOrNull(j.fields, "class") == JString("File")
  }

  /** `j[key]` on any value: only a dict holding the key answers. */
  function Field(j: Json, key: string): (r: Result<Json>)
    ensures r.Ok? <==> j.JObject? && Lookup(j.fields, key).Some?
    ensures r.Ok? ==> Lookup(j.fields, key) == Some(r.value)
    ensures j.JObject? && Lookup(j.fields, key).None? ==> r == Err(KeyMissing(key))
  {
    match j
    case JObject(fields) =>
      (match Lookup(fields, key)
       case Some(v) => Ok(v)
       case None => Err(KeyMissing(key)))
    case _ => Err(WrongType)
  }

  /** `j[key] = v` on any value: only a dict accepts it. */
  function SetField(j: Json, key: string, v: Json): (r: Result<Json>)
    ensures r.Ok? <==> j.JObject?
    ensures r.Ok? ==> r.value.JObject? && Lookup(r.value.fields, key) == Some(v)
    ensures r.Ok? ==> forall k :: k != key ==> Lookup(r.value.fields, k) == Lookup(j.fields, k)
  {
    match j
    case JObject(fields) =>
      UpdateLookup(fields, key, v);
      Ok(JObject(Update(fields, key, v)))
    case _ => Err(WrongType)
  }

  /** `j[i]` with a non-negative int: a list gives its element, a string
      its one-character substring; anything else raises. */
  function Item(j: Json, i: nat): (r: Result<Json>)
    ensures j.JArray? && i < |j.items| ==> r == Ok(j.items[i])
    ensures j.JString? && i < |j.s| ==> r == Ok(JString([j.s[i]]))
    ensures r.Ok? <==> (j.JArray? && i < |j.items|) || (j.JString? && i < |j.s|)
  {
    match j
    case JArray(items) => if i < |items| then Ok(items[i]) else Err(IndexOutOfRange(i))
    case JString(s) => if i < |s| then Ok(JString([s[i]])) else Err(IndexOutOfRange(i))
    case _ => Err(WrongType)
  }

  /** `j[i] = v` on a list. */
  function SetItem(j: Json, i: nat, v: Json): (r: Result<Json>)
    ensures r.Ok? <==> j.JArray? && i < |j.items|
    ensures r.Ok? ==> r.value == JArray(j.items[i := v])
  {
    match j
    case JArray(items) => if i < |items| then Ok(JArray(items[i := v])) else Err(IndexOutOfRange(i))
    case _ => Err(WrongType)
  }

  lemma {:induction false} LookupFirst(fields: seq<(string, Json)>, key: string, i: nat)
    requires i < |fields| && fields[i].0 == key
    requires forall j :: 0 <= j < i ==> fields[j].0 != key
    ensures Lookup(fields, key) == Some(fields[i].1)
  {
    if i > 0 {
      LookupFirst(fields[1..], key, i - 1);
    }
  }
}
