/**
 JSON merge patches: how the API server applies one (section 2 of RFC 7386), and
 how the client computes one from an object before and after a change.
 */
module MergePatch {
  import opened Wrappers
  import opened Json

  // ---------------------------------------------------------------- applying

  function Merge(base: Fields, patch: Fields): Fields
    decreases Obj(patch)
  {
    map k | k in base.Keys + patch.Keys && !(k in patch && patch[k].Null?) ::
      if k !in patch then base[k]
      else if patch[k].Obj? then Obj(Merge(SubObject(base, k), patch[k].fields))
      else patch[k]
  }

  // The object a nested patch is merged into: an empty one where the base holds none.
  function SubObject(base: Fields, k: string): Fields {
    if k in base && base[k].Obj? then base[k].fields else map[]
  }

  // One pass over the members of the patch, in whatever order the map yields them.
  method ApplyMergePatch(base: Fields, patch: Fields) returns (result: Fields)
    ensures result == Merge(base, patch)
    decreases Obj(patch)
  {
    result := base;
    var todo := patch.Keys;
    while todo != {}
      invariant todo <= patch.Keys
      invariant forall k :: k in patch.Keys - todo ==> Get(result, k) == Get(Merge(base, patch), k)
      invariant forall k :: k !in patch || k in todo ==> Get(result, k) == Get(base, k)
      decreases todo
    {
      var k :| k in todo;
      match patch[k] {
        case Null =>
          result := result - {k};
        case Obj(fields) =>
          var sub := if k in result && result[k].Obj? then result[k].fields else map[];
          assert sub == SubObject(base, k) by {
            assert Get(result, k) == Get(base, k);
          }
          var merged := ApplyMergePatch(sub, fields);
          result := result[k := Obj(merged)];
        case _ =>
          result := result[k := patch[k]];
      }
      todo := todo - {k};
    }
    SameMembers(result, Merge(base, patch));
  }

  // ---------------------------------------------------------------- computing

  // The merge patch between two objects: changed and new members, null for removed
  // ones, nothing for a nested object that did not change.
  function Diff(before: Fields, after: Fields): Fields
    decreases Obj(after), 0
  {
    map k | k in before.Keys + after.Keys && (k in before && k in after ==> MemberDiff(before[k], after[k]).Some?) ::
      if k !in after then Null
      else if k !in before then after[k]
      else MemberDiff(before[k], after[k]).value
  }

  // The patch for a member present on both sides; None leaves it out of the patch.
  function MemberDiff(before: Value, after: Value): Option<Value>
    decreases after, 1
  {
    if before.Obj? && after.Obj? then
      var nested := Diff(before.fields, after.fields);
      if nested == map[] then None else Some(Obj(nested))
    else if before == after then None
    else Some(after)
  }

  // ---------------------------------------------------------------- round trip

  // Every null member of `after` is one `before` already held. A patch cannot write
  // a null: the server reads it as a removal.
  predicate NullsKept(before: Fields, after: Fields)
    decreases Obj(after), 1
  {
    forall k :: k in after ==> NullsKeptAt(before, after, k)
  }

  predicate NullsKeptAt(before: Fields, after: Fields, k: string)
    requires k in after
    decreases Obj(after), 0
  {
    match after[k]
    case Null => k in before && before[k].Null?
    case Obj(fields) => NullsKept(SubObject(before, k), fields)
    case _ => true
  }

  // Nothing is sent exactly when nothing changed.
  lemma {:induction false} DiffEmptyIffEqual(before: Fields, after: Fields)
    ensures Diff(before, after) == map[] <==> before == after
    decreases Obj(after), 1
  {
    var d := Diff(before, after);
    forall k ensures k in d <==> Get(before, k) != Get(after, k) {
      DiffMembers(before, after, k);
    }
    assert before == after ==> d.Keys == {};
    if d == map[] {
      SameMembers(before, after);
    }
  }

  // The patch mentions exactly the members that changed.
  lemma {:induction false} DiffMembers(before: Fields, after: Fields, k: string)
    ensures k in Diff(before, after) <==> Get(before, k) != Get(after, k)
    decreases Obj(after), 0
  {
    if k in before && k in after && before[k].Obj? && after[k].Obj? {
      assert after[k] == Obj(after[k].fields);
      DiffEmptyIffEqual(before[k].fields, after[k].fields);
      assert MemberDiff(before[k], after[k]).None? <==> before[k] == after[k];
    }
  }

  // A patch computed against the empty object writes the object itself, so it comes
  // back exactly when no member of it, at any depth, is null.
  lemma {:induction false} FreshObject(after: Fields)
    ensures Merge(map[], after) == after <==> NullsKept(map[], after)
    decreases Obj(after)
  {
    var m := Merge(map[], after);
    forall k | k in after && after[k].Obj?
      ensures SubObject(map[], k) == map[]
      ensures Merge(map[], after[k].fields) == after[k].fields <==> NullsKept(map[], after[k].fields)
    {
      FreshObject(after[k].fields);
    }
    if m == after {
      forall k | k in after ensures NullsKeptAt(map[], after, k) {
        assert k in m && m[k] == after[k];
      }
    } else if NullsKept(map[], after) {
      forall k ensures Get(m, k) == Get(after, k) {
        assert k in after ==> NullsKeptAt(map[], after, k);
      }
      SameMembers(m, after);
    }
  }

  // Applying the computed patch to the object it was computed from gives the changed
  // object, exactly when no null had to be written.
  lemma {:induction false} RoundTrip(before: Fields, after: Fields)
    ensures Merge(before, Diff(before, after)) == after <==> NullsKept(before, after)
    decreases Obj(after)
  {
    var m := Merge(before, Diff(before, after));
    forall k
      ensures Get(m, k) == Get(after, k) <==> (k in after ==> NullsKeptAt(before, after, k))
    {
      RoundTripMember(before, after, k);
    }
    if m == after {
      forall k | k in after ensures Get(m, k) == Get(after, k) {}
    } else if NullsKept(before, after) {
      SameMembers(m, after);
    }
  }

  lemma {:induction false} RoundTripMember(before: Fields, after: Fields, k: string)
    ensures Get(Merge(before, Diff(before, after)), k) == Get(after, k) <==> (k in after ==> NullsKeptAt(before, after, k))
    decreases Obj(after), 0
  {
    var d := Diff(before, after);
    if k in after && after[k].Obj? {
      if k in before && before[k].Obj? {
        RoundTrip(before[k].fields, after[k].fields);
        DiffEmptyIffEqual(before[k].fields, after[k].fields);
        if before[k] == after[k] {
          assert Diff(before[k].fields, after[k].fields) == map[];
          assert Merge(before[k].fields, map[]) == before[k].fields;
        }
      } else {
        FreshObject(after[k].fields);
      }
    }
  }

  // Applying a patch twice is applying it once.
  lemma {:induction false} Idempotent(base: Fields, patch: Fields)
    ensures Merge(Merge(base, patch), patch) == Merge(base, patch)
    decreases Obj(patch)
  {
    var once := Merge(base, patch);
    forall k ensures Get(Merge(once, patch), k) == Get(once, k) {
      if k in patch && patch[k].Obj? {
        Idempotent(SubObject(base, k), patch[k].fields);
      }
    }
    SameMembers(Merge(once, patch), once);
  }

  // ---------------------------------------------------------------- locality

  // The change leaves this path alone: the two objects agree at some prefix of it.
  // Replacing or removing an object touches every path below it.
  predicate Untouched(before: Fields, after: Fields, path: seq<string>)
    decreases |path|
  {
    if path == [] then before == after
    else
      var k := path[0];
      || Get(before, k) == Get(after, k)
      || (k in before && k in after && before[k].Obj? && after[k].Obj?
          && Untouched(before[k].fields, after[k].fields, path[1..]))
  }

  // A server object that has moved on keeps whatever it holds at untouched paths.
  lemma {:induction false} PatchIsLocal(server: Fields, before: Fields, after: Fields, path: seq<string>)
    requires path != [] && Untouched(before, after, path)
    ensures Lookup(Merge(server, Diff(before, after)), path) == Lookup(server, path)
    decreases |path|
  {
    var k := path[0];
    DiffMembers(before, after, k);
    if Get(before, k) == Get(after, k) {
      assert Get(Merge(server, Diff(before, after)), k) == Get(server, k);
    } else {
      NestedPatch(server, before, after, k);
      if |path| > 1 {
        PatchIsLocal(SubObject(server, k), before[k].fields, after[k].fields, path[1..]);
      }
    }
  }

  // How a changed nested object reaches the server: as a patch of its own.
  lemma NestedPatch(server: Fields, before: Fields, after: Fields, k: string)
    requires k in before && k in after && before[k].Obj? && after[k].Obj? && before[k] != after[k]
    ensures var merged := Merge(server, Diff(before, after));
            k in merged && merged[k] == Obj(Merge(SubObject(server, k), Diff(before[k].fields, after[k].fields)))
  {
    DiffMembers(before, after, k);
    assert Diff(before, after)[k] == Obj(Diff(before[k].fields, after[k].fields));
  }

  // Where the change wrote a plain value, or removed what was there, the server ends
  // with what the change says.
  lemma {:induction false} PatchWrites(server: Fields, before: Fields, after: Fields, path: seq<string>)
    requires path != [] && !Untouched(before, after, path)
    requires match Lookup(after, path)
             case Some(v) => !v.Obj? && !v.Null?
             case None => Lookup(before, path).Some?
    ensures Lookup(Merge(server, Diff(before, after)), path) == Lookup(after, path)
    decreases |path|
  {
    var k := path[0];
    DiffMembers(before, after, k);
    if k in before && k in after && before[k].Obj? && after[k].Obj? {
      NestedPatch(server, before, after, k);
      if |path| > 1 {
        PatchWrites(SubObject(server, k), before[k].fields, after[k].fields, path[1..]);
      }
    } else if k in after && after[k].Obj? && |path| > 1 {
      MergeWrites(SubObject(server, k), after[k].fields, path[1..]);
    }
  }

  lemma {:induction false} MergeWrites(base: Fields, patch: Fields, path: seq<string>)
    requires path != [] && Lookup(patch, path).Some?
    requires var v := Lookup(patch, path).value; !v.Obj? && !v.Null?
    ensures Lookup(Merge(base, patch), path) == Lookup(patch, path)
    decreases |path|
  {
    if |path| > 1 {
      MergeWrites(SubObject(base, path[0]), patch[path[0]].fields, path[1..]);
    }
  }
}
