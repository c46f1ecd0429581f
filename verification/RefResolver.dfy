/**
 The reference resolver: fills reference fields of a managed resource and sends what
 changed as one merge patch, so that fields it did not change are left as they are.
 */
module RefResolver {
  import opened Wrappers
  import opened Json
  import opened FieldPath
  import opened MergePatch

  datatype Error = CannotResolve | CannotPatch

  // What a generated ResolveReferences leaves in the object, and whether it failed.
  datatype Resolution = Resolution(content: Fields, ok: bool)

  // A managed resource. `content` is its JSON projection: an absent member is a nil
  // pointer. `resolve` stands for the generated method of its kind.
  class Managed {
    var content: Fields
    const hasReferences: bool
    const resolve: Fields -> Resolution

    constructor (content: Fields, hasReferences: bool, resolve: Fields -> Resolution)
      ensures this.content == content && this.hasReferences == hasReferences && this.resolve == resolve
    {
      this.content, this.hasReferences, this.resolve := content, hasReferences, resolve;
    }
  }

  // The API server, holding its own copy of the resource.
  class Server {
    var stored: Fields
    var patches: seq<Fields>
    const refuses: bool

    constructor (stored: Fields, refuses: bool)
      ensures this.stored == stored && this.patches == [] && this.refuses == refuses
    {
      this.stored, this.patches, this.refuses := stored, [], refuses;
    }

    method Patch(patch: Fields) returns (ok: bool)
      modifies this
      ensures ok == !refuses
      ensures stored == if ok then Merge(old(stored), patch) else old(stored)
      ensures patches == if ok then old(patches) + [patch] else old(patches)
    {
      if refuses {
        return false;
      }
      patches := patches + [patch];
      stored := ApplyMergePatch(stored, patch);
      return true;
    }
  }

  // ---------------------------------------------------------------- slots

  // Writing through the address of a field. If the object the field lies in has gone, the
  // write does not reach the resource.
  function Put(m: Fields, path: Path, v: Value): Fields
    decreases |path|
  {
    if path == [] then m
    else if |path| == 1 then m[path[0] := v]
    else if path[0] in m && m[path[0]].Obj? then m[path[0] := Obj(Put(m[path[0]].fields, path[1..], v))]
    else m
  }

  // The object the field lies in is there.
  predicate HasParent(m: Fields, path: Path)
    decreases |path|
  {
    path != [] && (|path| == 1 || (path[0] in m && m[path[0]].Obj? && HasParent(m[path[0]].fields, path[1..])))
  }

  predicate IsEmpty(content: Fields, slot: Path) {
    Lookup(content, slot) == Some(Str(""))
  }

  // The slots that hold the empty string, in order.
  function Empties(content: Fields, slots: seq<Path>): seq<Path> {
    if slots == [] then []
    else
      var last := slots[|slots| - 1];
      Empties(content, slots[..|slots| - 1]) + if IsEmpty(content, last) then [last] else []
  }

  // Every one of these slots that is nil set to the empty string.
  function Restored(m: Fields, kept: seq<Path>): Fields {
    if kept == [] then m
    else
      var last := kept[|kept| - 1];
      var before := Restored(m, kept[..|kept| - 1]);
      if Lookup(before, last).None? then Put(before, last, Str("")) else before
  }

  // The resolved object, with every slot that was the empty string and became nil set back
  // to the empty string.
  function KeepEmpty(before: Fields, resolved: Fields, slots: seq<Path>): Fields {
    Restored(resolved, Empties(before, slots))
  }

  // What a pass that resolves does to the resource.
  function PassOver(resolve: Fields -> Resolution, slots: seq<Path>, before: Fields): Fields {
    KeepEmpty(before, resolve(before).content, slots)
  }

  class Resolver {
    // Where the optional string fields are that keep an empty value; the address list of
    // WithKeptEmpty. Empty without that option.
    const slots: seq<Path>

    constructor (slots: seq<Path>)
      ensures this.slots == slots
    {
      this.slots := slots;
    }

    method EmptySlots(mg: Managed) returns (kept: seq<Path>)
      ensures kept == Empties(mg.content, slots)
    {
      kept := [];
      for i := 0 to |slots|
        invariant kept == Empties(mg.content, slots[..i])
      {
        assert slots[..i + 1][..i] == slots[..i];
        if Lookup(mg.content, slots[i]) == Some(Str("")) {
          kept := kept + [slots[i]];
        }
      }
      assert slots[..|slots|] == slots;
    }

    // Sets the kept slots that resolution turned into nil back to the empty string.
    method RestoreEmpty(mg: Managed, kept: seq<Path>)
      modifies mg
      ensures mg.content == Restored(old(mg.content), kept)
    {
      for i := 0 to |kept|
        invariant mg.content == Restored(old(mg.content), kept[..i])
      {
        assert kept[..i + 1][..i] == kept[..i];
        if Lookup(mg.content, kept[i]).None? {
          mg.content := Put(mg.content, kept[i], Str(""));
        }
      }
      assert kept[..|kept|] == kept;
    }

    // Sends what changed; an empty difference is not sent at all.
    method Send(before: Fields, after: Fields, server: Server) returns (ok: bool)
      modifies server
      ensures ok == (before == after || !server.refuses)
      ensures server.patches == old(server.patches) + if ok && before != after then [Diff(before, after)] else []
      ensures server.stored == if ok then Merge(old(server.stored), Diff(before, after)) else old(server.stored)
    {
      var patch := Diff(before, after);
      DiffEmptyIffEqual(before, after);
      if patch == map[] {
        SameMembers(Merge(server.stored, map[]), server.stored);
        return true;
      }
      ok := server.Patch(patch);
    }

    method ResolveReferences(mg: Managed, server: Server) returns (result: Result<(), Error>)
      modifies mg, server
      ensures !mg.hasReferences ==>
        && result == Success(()) && mg.content == old(mg.content)
        && server.patches == old(server.patches) && server.stored == old(server.stored)
      ensures mg.hasReferences && !mg.resolve(old(mg.content)).ok ==>
        && result == Failure(CannotResolve) && mg.content == mg.resolve(old(mg.content)).content
        && server.patches == old(server.patches) && server.stored == old(server.stored)
      ensures mg.hasReferences && mg.resolve(old(mg.content)).ok ==>
        var before, after := old(mg.content), mg.content;
        && after == KeepEmpty(before, mg.resolve(before).content, slots)
        && result == (if before != after && server.refuses then Failure(CannotPatch) else Success(()))
        && server.patches == old(server.patches) + (if result.Success? && before != after then [Diff(before, after)] else [])
        && server.stored == if result.Success? then Merge(old(server.stored), Diff(before, after)) else old(server.stored)
    {
      if !mg.hasReferences {
        DiffEmptyIffEqual(mg.content, mg.content);
        SameMembers(Merge(server.stored, map[]), server.stored);
        return Success(());
      }
      var existing := mg.content;
      var kept := EmptySlots(mg);

      var resolution := mg.resolve(mg.content);
      mg.content := resolution.content;
      if !resolution.ok {
        return Failure(CannotResolve);
      }

      RestoreEmpty(mg, kept);

      var ok := Send(existing, mg.content, server);
      return if ok then Success(()) else Failure(CannotPatch);
    }
  }

  // ---------------------------------------------------------------- writing slots

  lemma {:induction false} PutReads(m: Fields, p: Path, v: Value, q: Path)
    requires q == p || Apart(p, q)
    ensures Lookup(Put(m, p, v), q) == if q == p && HasParent(m, p) then Some(v) else Lookup(m, q)
    ensures HasParent(Put(m, p, v), q) <==> HasParent(m, q)
    decreases |p|
  {
    if q != p {
      ApartBelow(p, q);
    }
    if |p| > 1 && p[0] in m && m[p[0]].Obj? && q[0] == p[0] {
      PutReads(m[p[0]].fields, p[1..], v, q[1..]);
    }
  }

  // Paths to strings do not run through each other.
  lemma {:induction false} StringsApart(m: Fields, p: Path, q: Path)
    requires p != q && Lookup(m, p).Some? && Lookup(m, p).value.Str? && Lookup(m, q).Some? && Lookup(m, q).value.Str?
    ensures Apart(p, q)
    decreases |p|
  {
    if p[0] == q[0] && |p| > 1 && |q| > 1 {
      StringsApart(m[p[0]].fields, p[1..], q[1..]);
      assert p == [p[0]] + p[1..] && q == [q[0]] + q[1..];
    }
  }

  lemma {:induction false} EmptiesAre(content: Fields, slots: seq<Path>)
    ensures forall p :: p in Empties(content, slots) <==> p in slots && IsEmpty(content, p)
  {
    if slots != [] {
      var front, last := slots[..|slots| - 1], slots[|slots| - 1];
      EmptiesAre(content, front);
      assert slots == front + [last];
    }
  }

  // Slot by slot, what restoring does: a nil slot whose object is there becomes the empty
  // string, and nothing apart from the slots changes.
  lemma {:induction false} RestoredReads(m: Fields, kept: seq<Path>, q: Path)
    requires forall p :: p in kept ==> p == q || Apart(p, q)
    ensures Lookup(Restored(m, kept), q) ==
      if q in kept && Lookup(m, q).None? && HasParent(m, q) then Some(Str("")) else Lookup(m, q)
    ensures HasParent(Restored(m, kept), q) <==> HasParent(m, q)
  {
    if kept != [] {
      var front, last := kept[..|kept| - 1], kept[|kept| - 1];
      assert kept == front + [last];
      RestoredReads(m, front, q);
      PutReads(Restored(m, front), last, Str(""), q);
    }
  }

  // ---------------------------------------------------------------- what a pass may do

  // What a patch says of a plain member, at any depth.
  lemma {:induction false} SentAt(before: Fields, after: Fields, path: Path)
    requires HasParent(before, path) && HasParent(after, path)
    requires Lookup(before, path).Some? ==> !Lookup(before, path).value.Obj?
    ensures Lookup(Diff(before, after), path) ==
      if Lookup(before, path) == Lookup(after, path) then None
      else if Lookup(after, path).None? then Some(Null)
      else Lookup(after, path)
    decreases |path|
  {
    var k := path[0];
    DiffMembers(before, after, k);
    if |path| > 1 {
      SentAt(before[k].fields, after[k].fields, path[1..]);
      DiffEmptyIffEqual(before[k].fields, after[k].fields);
    }
  }

  lemma {:induction false} FoundHasParent(m: Fields, path: Path)
    requires path != [] && Lookup(m, path).Some?
    ensures HasParent(m, path)
    decreases |path|
  {
    if |path| > 1 {
      FoundHasParent(m[path[0]].fields, path[1..]);
    }
  }

  // A slot the user set to the empty string is never sent as a removal: it is left out of
  // the patch, or the patch fills it with the value its reference gives. The slot is a
  // string or nil, and the object it lies in is still there.
  lemma KeptSlotIsNotRemoved(before: Fields, resolved: Fields, slots: seq<Path>, slot: Path)
    requires slot in slots && IsEmpty(before, slot) && HasParent(resolved, slot)
    requires Lookup(resolved, slot).Some? ==> Lookup(resolved, slot).value.Str?
    ensures var sent := Lookup(Diff(before, KeepEmpty(before, resolved, slots)), slot);
      && sent != Some(Null)
      && sent == if Lookup(resolved, slot) in [None, Some(Str(""))] then None else Lookup(resolved, slot)
  {
    EmptiesAre(before, slots);
    forall p | p in Empties(before, slots) ensures p == slot || Apart(p, slot) {
      if p != slot {
        StringsApart(before, p, slot);
      }
    }
    RestoredReads(resolved, Empties(before, slots), slot);
    FoundHasParent(before, slot);
    SentAt(before, KeepEmpty(before, resolved, slots), slot);
  }

  // Without the option the same slot is removed as soon as resolution empties it.
  lemma UnkeptSlotIsRemoved(before: Fields, resolved: Fields, slot: Path)
    requires slot != [] && IsEmpty(before, slot) && HasParent(resolved, slot) && Lookup(resolved, slot).None?
    ensures Lookup(Diff(before, KeepEmpty(before, resolved, [])), slot) == Some(Null)
  {
    FoundHasParent(before, slot);
    SentAt(before, resolved, slot);
  }

  // ---------------------------------------------------------------- the next pass

  // The same object, except that at some of these paths the other one may have nothing.
  predicate SameBut(m: Fields, r: Fields, paths: set<Path>)
    decreases Obj(m), 1
  {
    forall k :: k in m.Keys + r.Keys ==> SameMember(m, r, paths, k)
  }

  predicate SameMember(m: Fields, r: Fields, paths: set<Path>, k: string)
    decreases Obj(m), 0
  {
    if [k] in paths then k in m && (k !in r || r[k] == m[k])
    else if Below(paths, k) == {} then Get(r, k) == Get(m, k)
    else k in m && k in r && m[k].Obj? && r[k].Obj? && SameBut(m[k].fields, r[k].fields, Below(paths, k))
  }

  lemma {:induction false} PutKeepsSame(m: Fields, r: Fields, paths: set<Path>, p: Path)
    requires SameBut(m, r, paths) && p in paths && forall q :: q in paths ==> IsEmpty(m, q)
    ensures SameBut(m, Put(r, p, Str("")), paths)
    decreases Obj(m)
  {
    var k, put := p[0], Put(r, p, Str(""));
    assert SameMember(m, r, paths, k) && IsEmpty(m, p);
    if |p| > 1 {
      assert p[1..] in Below(paths, k);
      assert [k] in paths ==> IsEmpty(m, [k]);
      EmptyBelow(m, paths, k);
      PutKeepsSame(m[k].fields, r[k].fields, Below(paths, k), p[1..]);
    } else {
      assert p == [k];
    }
    forall j | j in m.Keys + put.Keys ensures SameMember(m, put, paths, j) {
      assert j != k ==> SameMember(m, r, paths, j);
    }
  }

  lemma EmptyBelow(m: Fields, paths: set<Path>, k: string)
    requires k in m && m[k].Obj? && forall q :: q in paths ==> IsEmpty(m, q)
    ensures forall q :: q in Below(paths, k) ==> IsEmpty(m[k].fields, q)
  {
    forall q | q in Below(paths, k) ensures IsEmpty(m[k].fields, q) {
      var p :| p in paths && p != [] && p[0] == k && p[1..] == q;
      assert IsEmpty(m, p);
      assert p == [k] + q;
    }
  }

  lemma {:induction false} SameEverywhere(m: Fields, r: Fields, paths: set<Path>)
    requires SameBut(m, r, paths) && forall p :: p in paths ==> p != [] && Lookup(r, p) == Lookup(m, p)
    ensures r == m
    decreases Obj(m)
  {
    forall k ensures Get(r, k) == Get(m, k) {
      if k in m.Keys + r.Keys {
        assert SameMember(m, r, paths, k);
        if [k] in paths {
          assert Lookup(r, [k]) == Lookup(m, [k]);
        } else if Below(paths, k) != {} {
          forall q | q in Below(paths, k) ensures q != [] && Lookup(r[k].fields, q) == Lookup(m[k].fields, q) {
            var p :| p in paths && p != [] && p[0] == k && p[1..] == q;
            assert p == [k] + q && (q == [] ==> p == [k]) && Lookup(r, p) == Lookup(m, p);
          }
          SameEverywhere(m[k].fields, r[k].fields, Below(paths, k));
        }
      }
    }
    SameMembers(r, m);
  }

  lemma {:induction false} RestoredKeepsSame(m: Fields, r: Fields, kept: seq<Path>, paths: set<Path>)
    requires SameBut(m, r, paths) && forall p :: p in paths ==> IsEmpty(m, p)
    requires forall p :: p in kept ==> p in paths
    ensures SameBut(m, Restored(r, kept), paths)
  {
    if kept != [] {
      RestoredKeepsSame(m, r, kept[..|kept| - 1], paths);
      PutKeepsSame(m, Restored(r, kept[..|kept| - 1]), paths, kept[|kept| - 1]);
    }
  }

  // Resolving again gives what is there, except that the generated code may turn any slot
  // that is kept empty into nil once more.
  predicate ResolvesToItself(resolve: Fields -> Resolution, slots: seq<Path>, content: Fields) {
    resolve(content).ok && SameBut(content, resolve(content).content, set p | p in Empties(content, slots))
  }

  // Then the next pass changes nothing.
  lemma SecondPassChangesNothing(resolve: Fields -> Resolution, slots: seq<Path>, content: Fields)
    requires ResolvesToItself(resolve, slots, content)
    ensures PassOver(resolve, slots, content) == content
  {
    var kept, again := Empties(content, slots), resolve(content).content;
    var paths := set p | p in kept;
    EmptiesAre(content, slots);
    RestoredKeepsSame(content, again, kept, paths);
    forall p | p in paths ensures p != [] && Lookup(Restored(again, kept), p) == Lookup(content, p) {
      assert IsEmpty(content, p);
      FoundHasParent(content, p);
      SameParent(content, again, paths, p);
      forall q | q in kept ensures q == p || Apart(q, p) {
        if q != p {
          StringsApart(content, q, p);
        }
      }
      RestoredReads(again, kept, p);
    }
    SameEverywhere(content, Restored(again, kept), paths);
  }

  lemma {:induction false} SameParent(m: Fields, r: Fields, paths: set<Path>, p: Path)
    requires SameBut(m, r, paths) && p in paths && forall q :: q in paths ==> IsEmpty(m, q)
    ensures HasParent(r, p) && Lookup(r, p) in [None, Lookup(m, p)]
    decreases |p|
  {
    assert IsEmpty(m, p);
    var k := p[0];
    assert SameMember(m, r, paths, k);
    if |p| > 1 {
      assert p[1..] in Below(paths, k);
      assert [k] in paths ==> IsEmpty(m, [k]);
      EmptyBelow(m, paths, k);
      SameParent(m[k].fields, r[k].fields, Below(paths, k), p[1..]);
    } else {
      assert p == [k];
    }
  }

  // A server that still holds the object the pass started from ends up with exactly the
  // resolved object. The next pass over that, if it resolves to itself, sends nothing.
  lemma PassPersistsResolution(resolve: Fields -> Resolution, slots: seq<Path>, before: Fields)
    requires var after := PassOver(resolve, slots, before);
      NullsKept(before, after) && ResolvesToItself(resolve, slots, after)
    ensures var after := PassOver(resolve, slots, before);
      && Merge(before, Diff(before, after)) == after
      && PassOver(resolve, slots, after) == after && Diff(after, PassOver(resolve, slots, after)) == map[]
  {
    var after := PassOver(resolve, slots, before);
    RoundTrip(before, after);
    SecondPassChangesNothing(resolve, slots, after);
    DiffEmptyIffEqual(after, after);
  }

  // ---------------------------------------------------------------- many passes

  // One write to the stored object: a resolver pass that read `before` some time ago,
  // or another client writing a whole new object.
  datatype Write = Pass(before: Fields, after: Fields) | Other(next: Fields)

  function AfterWrite(stored: Fields, w: Write): Fields {
    match w
    case Pass(before, after) => Merge(stored, Diff(before, after))
    case Other(next) => next
  }

  function AfterWrites(stored: Fields, writes: seq<Write>): Fields
    decreases |writes|
  {
    if writes == [] then stored else AfterWrites(AfterWrite(stored, writes[0]), writes[1..])
  }

  // No write of the sequence means to change this path.
  predicate LeaveAlone(stored: Fields, writes: seq<Write>, path: seq<string>)
    decreases |writes|
  {
    writes == [] ||
    (&& (match writes[0]
         case Pass(before, after) => Untouched(before, after, path)
         case Other(next) => Lookup(next, path) == Lookup(stored, path))
     && LeaveAlone(AfterWrite(stored, writes[0]), writes[1..], path))
  }

  // Whatever the passes resolve elsewhere, and however old the object they read is, a
  // path none of them changes keeps its stored value.
  lemma {:induction false} UnchangedFieldsSurvive(stored: Fields, writes: seq<Write>, path: seq<string>)
    requires path != [] && LeaveAlone(stored, writes, path)
    ensures Lookup(AfterWrites(stored, writes), path) == Lookup(stored, path)
    decreases |writes|
  {
    if writes != [] {
      if writes[0].Pass? {
        PatchIsLocal(stored, writes[0].before, writes[0].after, path);
      }
      UnchangedFieldsSurvive(AfterWrite(stored, writes[0]), writes[1..], path);
    }
  }

  // A field one pass fills is still filled after any later passes that resolve others.
  lemma FilledFieldSurvives(stored: Fields, fill: Write, later: seq<Write>, path: seq<string>)
    requires fill.Pass? && path != [] && !Untouched(fill.before, fill.after, path)
    requires Lookup(fill.after, path).Some?
    requires var v := Lookup(fill.after, path).value; !v.Obj? && !v.Null?
    requires LeaveAlone(AfterWrite(stored, fill), later, path)
    ensures Lookup(AfterWrites(stored, [fill] + later), path) == Lookup(fill.after, path)
  {
    PatchWrites(stored, fill.before, fill.after, path);
    UnchangedFieldsSurvive(AfterWrite(stored, fill), later, path);
    assert ([fill] + later)[1..] == later;
  }
}
