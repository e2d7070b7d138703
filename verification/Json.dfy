/**
 Unstructured objects: JSON values and the nested-field helpers of
 k8s.io/apimachinery/pkg/apis/meta/v1/unstructured that the manifest code calls.
 */
module Json {
  import opened GoText

  datatype Json =
    | Null
    | Bool(b: bool)
    | Number(n: int)
    | Text(text: string)
    | List(items: seq<Json>)
    | Object(fields: map<string, Json>)

  /** What a nested lookup finds; Bad is the error for a step through something that is no map. */
  datatype Lookup = Bad | Missing | Found(value: Json)

  /** NestedFieldNoCopy */
  function GetPath(v: Json, path: seq<string>): Lookup {
    if path == [] then Found(v)
    else if v.Null? then Missing
    else if !v.Object? then Bad
    else if path[0] !in v.fields then Missing
    else GetPath(v.fields[path[0]], path[1..])
  }

  /** SetNestedField, which creates the maps that are missing on the way. */
  function SetPath(v: Json, path: seq<string>, x: Json): Result<Json>
    decreases path
  {
    if path == [] then Ok(x)
    else if !v.Object? then Err
    else
      var child := if path[0] in v.fields then v.fields[path[0]] else Object(map[]);
      match SetPath(child, path[1..], x)
      case Err => Err
      case Ok(c) => Ok(Object(v.fields[path[0] := c]))
  }

  /** RemoveNestedField, which does nothing when the field is not there. */
  function RemovePath(v: Json, path: seq<string>): Json
    requires path != []
  {
    if !v.Object? || path[0] !in v.fields then v
    else if |path| == 1 then Object(v.fields - {path[0]})
    else Object(v.fields[path[0] := RemovePath(v.fields[path[0]], path[1..])])
  }

  /** Neither path is a prefix of the other. */
  predicate Apart(p: seq<string>, q: seq<string>) {
    p != [] && q != [] && (p[0] != q[0] || Apart(p[1..], q[1..]))
  }

  lemma {:induction false} GetAfterSet(v: Json, path: seq<string>, x: Json)
    requires SetPath(v, path, x).Ok?
    ensures GetPath(SetPath(v, path, x).value, path) == Found(x)
    decreases path
  {
    if path != [] {
      GetAfterSet(if path[0] in v.fields then v.fields[path[0]] else Object(map[]), path[1..], x);
    }
  }

  /** Writing one path changes no lookup apart from it. */
  lemma {:induction false} SetKeepsApart(v: Json, path: seq<string>, x: Json, q: seq<string>)
    requires SetPath(v, path, x).Ok? && Apart(path, q)
    ensures GetPath(SetPath(v, path, x).value, q) == GetPath(v, q)
    decreases path
  {
    if path[0] == q[0] {
      SetKeepsApart(if path[0] in v.fields then v.fields[path[0]] else Object(map[]), path[1..], x, q[1..]);
    }
  }

  lemma {:induction false} RemoveKeepsApart(v: Json, path: seq<string>, q: seq<string>)
    requires Apart(path, q)
    ensures GetPath(RemovePath(v, path), q) == GetPath(v, q)
  {
    if v.Object? && path[0] in v.fields && path[0] == q[0] {
      RemoveKeepsApart(v.fields[path[0]], path[1..], q[1..]);
    }
  }

  lemma {:induction false} GetAfterRemove(v: Json, path: seq<string>)
    requires path != []
    ensures GetPath(RemovePath(v, path), path) == if GetPath(v, path).Found? then Missing else GetPath(v, path)
  {
    if v.Object? && path[0] in v.fields && |path| > 1 {
      GetAfterRemove(v.fields[path[0]], path[1..]);
    }
  }

  /** Writing what is there already changes nothing. */
  lemma {:induction false} SetFound(v: Json, path: seq<string>, x: Json)
    requires GetPath(v, path) == Found(x)
    ensures SetPath(v, path, x) == Ok(v)
  {
    if path != [] {
      SetFound(v.fields[path[0]], path[1..], x);
      assert v.fields[path[0] := v.fields[path[0]]] == v.fields;
    }
  }

  /** Removing what is not there changes nothing. */
  lemma {:induction false} RemoveMissing(v: Json, path: seq<string>)
    requires path != [] && !GetPath(v, path).Found?
    ensures RemovePath(v, path) == v
  {
    if v.Object? && path[0] in v.fields {
      RemoveMissing(v.fields[path[0]], path[1..]);
      assert v.fields[path[0] := v.fields[path[0]]] == v.fields;
    }
  }
}
