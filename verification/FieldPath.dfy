/**
 Reading and writing the JSON projection of a resource by field path, and what
 substituting observed values into a spec comes to.
 */
module FieldPath {
  import opened Wrappers
  import opened Json

  type Path = seq<string>

  datatype Read = Found(value: Value) | NotFound | NotAnObject

  function GetValue(v: Value, path: Path): Read
    decreases |path|
  {
    if path == [] then Found(v)
    else
      match v
      case Obj(fields) => if path[0] in fields then GetValue(fields[path[0]], path[1..]) else NotFound
      case Null => NotFound
      case _ => NotAnObject
  }

  // Missing objects on the way are created; anything else that is not an object is
  // an error.
  function SetValue(v: Value, path: Path, x: Value): Result<Value, ()>
    decreases |path|
  {
    if path == [] then Success(x)
    else
      match v
      case Obj(fields) =>
        var inner := SetValue(if path[0] in fields then fields[path[0]] else Obj(map[]), path[1..], x);
        if inner.Success? then Success(Obj(fields[path[0] := inner.value])) else inner
      case _ => Failure(())
  }

  // ---------------------------------------------------------------- reading what was written

  lemma {:induction false} GetAfterSet(v: Value, path: Path, x: Value)
    requires SetValue(v, path, x).Success?
    ensures GetValue(SetValue(v, path, x).value, path) == Found(x)
    decreases |path|
  {
    if path != [] {
      GetAfterSet(if path[0] in v.fields then v.fields[path[0]] else Obj(map[]), path[1..], x);
    }
  }

  lemma {:induction false} SetSpares(v: Value, path: Path, x: Value, q: Path)
    requires SetValue(v, path, x).Success? && Apart(path, q)
    ensures GetValue(SetValue(v, path, x).value, q) == GetValue(v, q)
    decreases |path|
  {
    ApartBelow(path, q);
    if path[0] == q[0] {
      SetSpares(if path[0] in v.fields then v.fields[path[0]] else Obj(map[]), path[1..], x, q[1..]);
    }
  }

  // Writing fails exactly where a value that is no object is in the way.
  lemma {:induction false} SetFailsExactly(v: Value, path: Path, x: Value)
    ensures SetValue(v, path, x).Success? <==> Admits(Some(v), path)
    decreases |path|
  {
    if path != [] && v.Obj? {
      SetFailsExactly(if path[0] in v.fields then v.fields[path[0]] else Obj(map[]), path[1..], x);
    }
  }

  // Reading finds what looking the names up one by one finds.
  lemma {:induction false} GetIsLookup(m: Fields, path: Path, v: Value)
    requires path != []
    ensures GetValue(Obj(m), path) == Found(v) <==> Lookup(m, path) == Some(v)
    decreases |path|
  {
    if path[0] in m && |path| > 1 && m[path[0]].Obj? {
      GetIsLookup(m[path[0]].fields, path[1..], v);
    }
  }

  // What stops a read is a value on the way that is neither an object nor null; null and a
  // missing member read as nothing there.
  predicate StopsAt(v: Value, path: Path, i: nat) {
    && i < |path|
    && GetValue(v, path[..i]).Found?
    && !GetValue(v, path[..i]).value.Obj?
    && !GetValue(v, path[..i]).value.Null?
  }

  lemma {:induction false} NotAnObjectExactly(v: Value, path: Path)
    ensures GetValue(v, path).NotAnObject? <==> exists i: nat :: StopsAt(v, path, i)
    decreases |path|
  {
    if path == [] {
    } else if v.Obj? && path[0] in v.fields {
      var inner := v.fields[path[0]];
      NotAnObjectExactly(inner, path[1..]);
      forall i: nat | i < |path| - 1 ensures StopsAt(inner, path[1..], i) <==> StopsAt(v, path, i + 1) {
        assert path[..i + 1][1..] == path[1..][..i];
      }
      assert !StopsAt(v, path, 0);
      if i: nat :| StopsAt(v, path, i) {
        assert i > 0 && StopsAt(inner, path[1..], i - 1);
      }
    } else {
      assert path[..0] == [] && GetValue(v, path[..0]) == Found(v);
      if !v.Obj? && !v.Null? {
        assert StopsAt(v, path, 0);
      }
      forall i: nat | 0 < i < |path| ensures !StopsAt(v, path, i) {
        assert path[..i][0] == path[0];
      }
    }
  }

  predicate Apart(p: Path, q: Path) {
    !(p <= q) && !(q <= p)
  }

  lemma ApartBelow(p: Path, q: Path)
    requires Apart(p, q)
    ensures p != [] && q != [] && (p[0] == q[0] ==> Apart(p[1..], q[1..]))
  {
    assert p == [] ==> p <= q;
    assert q == [] ==> q <= p;
    if p != [] && q != [] && p[0] == q[0] {
      assert p == [p[0]] + p[1..] && q == [q[0]] + q[1..];
    }
  }

  // ---------------------------------------------------------------- overlay

  function Members(v: Option<Value>): Fields {
    if v.Some? && v.value.Obj? then v.value.fields else map[]
  }

  function Heads(paths: set<Path>): set<string> {
    set p | p in paths && p != [] :: p[0]
  }

  function Below(paths: set<Path>, k: string): set<Path> {
    set p | p in paths && p != [] && p[0] == k :: p[1..]
  }

  // The spec with the observed subtree at each of the paths: what substitution is
  // meant to produce, said without any order.
  function Overlay(spec: Option<Value>, observed: Value, paths: set<Path>): Option<Value>
    decreases observed, 1
  {
    if paths == {} then spec
    else if [] in paths || !observed.Obj? then Some(observed)
    else Some(Obj(
      map k | k in Members(spec).Keys + Heads(paths) && OverlayMember(spec, observed.fields, paths, k).Some? ::
        OverlayMember(spec, observed.fields, paths, k).value))
  }

  function OverlayMember(spec: Option<Value>, observed: Fields, paths: set<Path>, k: string): Option<Value>
    decreases Obj(observed), 0
  {
    var inSpec := Get(Members(spec), k);
    if k in observed then Overlay(inSpec, observed[k], Below(paths, k)) else inSpec
  }

  // The observed tree reports every path of the set.
  predicate Reports(observed: Value, paths: set<Path>) {
    forall p :: p in paths ==> GetValue(observed, p).Found?
  }

  // The spec has no plain value where the path needs an object.
  predicate Admits(spec: Option<Value>, path: Path)
    decreases |path|
  {
    path == [] || spec.None? ||
    (spec.value.Obj? && Admits(Get(spec.value.fields, path[0]), path[1..]))
  }

  // ---------------------------------------------------------------- one substitution

  lemma {:induction false} SetSameValue(observed: Value, path: Path)
    requires GetValue(observed, path).Found?
    ensures SetValue(observed, path, GetValue(observed, path).value) == Success(observed)
    decreases |path|
  {
    if path != [] {
      SetSameValue(observed.fields[path[0]], path[1..]);
      assert observed.fields[path[0] := observed.fields[path[0]]] == observed.fields;
    }
  }

  function OrObject(v: Option<Value>): Value {
    if v.Some? then v.value else Obj(map[])
  }

  lemma BelowOfAdded(paths: set<Path>, q: Path, k: string)
    requires q != []
    ensures Below(paths + {q}, k) == if k == q[0] then Below(paths, k) + {q[1..]} else Below(paths, k)
    ensures Heads(paths + {q}) == Heads(paths) + {q[0]}
  {}

  lemma OverlayIsObject(spec: Option<Value>, observed: Value, paths: set<Path>)
    requires Reports(observed, paths) && [] !in paths && observed.Obj?
    requires spec.Some? ==> spec.value.Obj?
    ensures var o := OrObject(Overlay(spec, observed, paths));
      o.Obj? && forall k :: Get(o.fields, k) == OverlayMember(spec, observed.fields, paths, k)
  {
    var o := OrObject(Overlay(spec, observed, paths));
    if paths == {} {
      assert forall k :: Below(paths, k) == {};
    }
    forall k ensures Get(o.fields, k) == OverlayMember(spec, observed.fields, paths, k) {
      if k !in Heads(paths) {
        assert Below(paths, k) == {};
      }
    }
  }

  // One more path below member k changes that member only.
  lemma OverlayOneMore(spec: Option<Value>, observed: Value, paths: set<Path>, q: Path)
    requires Reports(observed, paths + {q}) && [] !in paths + {q} && observed.Obj? && q[0] in observed.fields
    requires spec.Some? ==> spec.value.Obj?
    ensures
      var had, next := OrObject(Overlay(spec, observed, paths)), OrObject(Overlay(spec, observed, paths + {q}));
      var more := Overlay(Get(Members(spec), q[0]), observed.fields[q[0]], Below(paths, q[0]) + {q[1..]});
      && had.Obj? && next == Obj(had.fields[q[0] := OrObject(more)])
      && Get(had.fields, q[0]) == Overlay(Get(Members(spec), q[0]), observed.fields[q[0]], Below(paths, q[0]))
  {
    var had, next := OrObject(Overlay(spec, observed, paths)), OrObject(Overlay(spec, observed, paths + {q}));
    OverlayIsObject(spec, observed, paths);
    OverlayIsObject(spec, observed, paths + {q});
    var more := Overlay(Get(Members(spec), q[0]), observed.fields[q[0]], Below(paths, q[0]) + {q[1..]});
    assert Below(paths, q[0]) + {q[1..]} != {};
    forall j ensures Get(next.fields, j) == if j == q[0] then Some(OrObject(more)) else Get(had.fields, j) {
      BelowOfAdded(paths, q, j);
    }
    SameButOne(had.fields, next.fields, q[0], OrObject(more));
  }

  // Writing one more observed value over an overlay is the overlay of one more path.
  lemma {:induction false} SetOnOverlay(spec: Option<Value>, observed: Value, paths: set<Path>, q: Path)
    requires Reports(observed, paths + {q})
    requires forall p :: p in paths + {q} ==> Admits(spec, p)
    ensures SetValue(OrObject(Overlay(spec, observed, paths)), q, GetValue(observed, q).value)
         == Success(OrObject(Overlay(spec, observed, paths + {q})))
    decreases |q|
  {
    if q == [] {
    } else if [] in paths {
      SetSameValue(observed, q);
    } else {
      var k := q[0];
      SetOnOverlay(Get(Members(spec), k), observed.fields[k], Below(paths, k), q[1..]);
      OverlayOneMore(spec, observed, paths, q);
    }
  }

  // ---------------------------------------------------------------- any order

  // The SetValue loop over observed paths, in the order given.
  function SetAll(spec: Value, observed: Value, order: seq<Path>): Result<Value, ()>
    requires forall p :: p in order ==> GetValue(observed, p).Found?
  {
    if order == [] then Success(spec)
    else
      var last := order[|order| - 1];
      var before := SetAll(spec, observed, order[..|order| - 1]);
      if before.Failure? then before else SetValue(before.value, last, GetValue(observed, last).value)
  }

  // Every order of the loop, over paths that may overlap, gives the same tree.
  lemma {:induction false} AnyOrderGivesOverlay(spec: Value, observed: Value, order: seq<Path>)
    requires forall p :: p in order ==> GetValue(observed, p).Found? && Admits(Some(spec), p)
    ensures SetAll(spec, observed, order) == Success(OrObject(Overlay(Some(spec), observed, set p | p in order)))
  {
    if order != [] {
      var q := order[|order| - 1];
      var rest := order[..|order| - 1];
      AnyOrderGivesOverlay(spec, observed, rest);
      LastOfOrder(order, rest, q);
      SetOnOverlay(Some(spec), observed, (set p | p in rest), q);
    }
  }

  lemma LastOfOrder(order: seq<Path>, rest: seq<Path>, q: Path)
    requires order == rest + [q]
    ensures (set p | p in order) == (set p | p in rest) + {q}
  {}

  // ---------------------------------------------------------------- point by point

  function ReadAt(v: Option<Value>, path: Path): Read {
    if v.None? then NotFound else GetValue(v.value, path)
  }

  // At and below an overlaid path the result reads as the observation does.
  lemma {:induction false} OverlayCovers(spec: Option<Value>, observed: Value, paths: set<Path>, p: Path, q: Path)
    requires Reports(observed, paths) && p in paths && p <= q
    ensures ReadAt(Overlay(spec, observed, paths), q) == GetValue(observed, q)
    decreases |p|
  {
    if [] !in paths {
      var k := p[0];
      assert Reports(observed.fields[k], Below(paths, k));
      OverlayCovers(Get(Members(spec), k), observed.fields[k], Below(paths, k), p[1..], q[1..]);
    }
  }

  lemma ReadsMember(spec: Option<Value>, observed: Value, paths: set<Path>, q: Path)
    requires q != [] && Reports(observed, paths) && paths != {} && [] !in paths && observed.Obj?
    requires spec.Some? ==> spec.value.Obj?
    ensures ReadAt(Overlay(spec, observed, paths), q) == ReadAt(OverlayMember(spec, observed.fields, paths, q[0]), q[1..])
  {
    OverlayIsObject(spec, observed, paths);
    assert Overlay(spec, observed, paths).Some?;
  }

  // Away from the overlaid paths it reads as the spec does.
  lemma {:induction false} OverlaySpares(spec: Option<Value>, observed: Value, paths: set<Path>, q: Path)
    requires Reports(observed, paths)
    requires forall p :: p in paths ==> Admits(spec, p) && Apart(p, q)
    ensures ReadAt(Overlay(spec, observed, paths), q) == ReadAt(spec, q)
    decreases |q|
  {
    if paths != {} {
      var p :| p in paths;
      ApartBelow(p, q);
      forall r | r in paths ensures r != [] && Apart(r, q) {
        ApartBelow(r, q);
      }
      var k := q[0];
      ReadsMember(spec, observed, paths, q);
      if k in observed.fields {
        BelowSpares(spec, observed, paths, q);
        OverlaySpares(Get(Members(spec), k), observed.fields[k], Below(paths, k), q[1..]);
      }
    }
  }

  lemma BelowSpares(spec: Option<Value>, observed: Value, paths: set<Path>, q: Path)
    requires q != [] && observed.Obj? && q[0] in observed.fields && Reports(observed, paths)
    requires forall p :: p in paths ==> p != [] && Admits(spec, p) && Apart(p, q)
    ensures forall r :: r in Below(paths, q[0]) ==>
      GetValue(observed.fields[q[0]], r).Found? && Admits(Get(Members(spec), q[0]), r) && Apart(r, q[1..])
  {
    forall r | r in Below(paths, q[0])
      ensures GetValue(observed.fields[q[0]], r).Found? && Admits(Get(Members(spec), q[0]), r) && Apart(r, q[1..])
    {
      var p :| p in paths && p != [] && p[0] == q[0] && p[1..] == r;
      ApartBelow(p, q);
    }
  }
}
