/** JSON values as the Go code holds them after decoding into `any`. */
module Json {
  import opened Wrappers

  datatype Value =
    | Null
    | Bool(b: bool)
    | Num(n: int)
    | Str(s: string)
    | Arr(items: seq<Value>)
    | Obj(fields: Fields)

  // A decoded JSON object: map[string]any.
  type Fields = map<string, Value>

  function Get(m: Fields, k: string): Option<Value> {
    if k in m then Some(m[k]) else None
  }

  // What the object holds at a path of member names. None when a name is missing
  // or when the path leads through something that is not an object.
  function Lookup(m: Fields, path: seq<string>): Option<Value>
    decreases |path|
  {
    if path == [] then Some(Obj(m))
    else if path[0] !in m then None
    else if |path| == 1 then Some(m[path[0]])
    else if m[path[0]].Obj? then Lookup(m[path[0]].fields, path[1..])
    else None
  }

  lemma SameMembers(a: Fields, b: Fields)
    requires forall k :: Get(a, k) == Get(b, k)
    ensures a == b
  {
    forall k ensures k in a <==> k in b {
      assert Get(a, k) == Get(b, k);
    }
    forall k | k in a ensures a[k] == b[k] {
      assert Get(a, k) == Get(b, k);
    }
  }

  lemma SameButOne(a: Fields, b: Fields, k: string, v: Value)
    requires forall j :: Get(b, j) == if j == k then Some(v) else Get(a, j)
    ensures b == a[k := v]
  {
    forall j ensures Get(b, j) == Get(a[k := v], j) {}
    SameMembers(b, a[k := v]);
  }
}
