/**
 Which ignore paths a kind accepts. The check walks the Go types of the resource by JSON
 name, never a value: a value would hide an omitted zero field.
 */
module Eligibility {
  import opened Wrappers
  import opened Json
  import opened FieldPath

  datatype GoType =
    | StringType
    | BoolType
    | IntType
    | SliceType(elem: GoType)
    | PointerType(target: GoType)
    | StructType(fields: seq<GoField>)

  // `name` is the JSON tag up to the comma: "" for an untagged field, "-" for a skipped one.
  datatype GoField = GoField(name: string, anonymous: bool, typ: GoType)

  function Deref(t: GoType): (r: GoType)
    ensures !r.PointerType? && (r == t || r < t)
  {
    if t.PointerType? then Deref(t.target) else t
  }

  // ---------------------------------------------------------------- the walk

  function Direct(fields: seq<GoField>, name: string): Option<GoType> {
    if fields == [] then None
    else if fields[0].name != "-" && fields[0].name == name then Some(fields[0].typ)
    else Direct(fields[1..], name)
  }

  predicate Embeds(f: GoField) {
    f.name == "" && f.anonymous && Deref(f.typ).StructType?
  }

  // The first embedded struct, in declaration order, that has the name at any depth.
  function Embedded(fields: seq<GoField>, name: string): Option<GoType>
    decreases fields, 0
  {
    if fields == [] then None
    else
      var here := if Embeds(fields[0]) then StructField(Deref(fields[0].typ).fields, name) else None;
      if here.Some? then here else Embedded(fields[1..], name)
  }

  function StructField(fields: seq<GoField>, name: string): Option<GoType>
    decreases fields, 1
  {
    var direct := Direct(fields, name);
    if direct.Some? then direct else Embedded(fields, name)
  }

  method StructFieldByJSONName(fields: seq<GoField>, name: string) returns (found: Option<GoType>)
    ensures found == StructField(fields, name)
    decreases fields
  {
    var embedded: seq<GoField> := [];
    assert embedded + fields[0..] == fields;
    for i := 0 to |fields|
      invariant Direct(fields, name) == Direct(fields[i..], name)
      invariant Embedded(fields, name) == Embedded(embedded + fields[i..], name)
      invariant forall j :: 0 <= j < |embedded| ==> embedded[j] in fields
    {
      var f := fields[i];
      EmbeddedStep(embedded, fields, i, name);
      if f.name == "-" {
        continue;
      }
      if f.name == name {
        return Some(f.typ);
      }
      if f.name == "" && f.anonymous {
        embedded := embedded + [f];
      }
    }
    assert embedded + fields[|fields|..] == embedded;
    for i := 0 to |embedded|
      invariant Embedded(fields, name) == Embedded(embedded[i..], name)
    {
      assert embedded[i..][1..] == embedded[i + 1..];
      if Embeds(embedded[i]) {
        var at :| 0 <= at < |fields| && fields[at] == embedded[i];
        found := StructFieldByJSONName(Deref(fields[at].typ).fields, name);
        if found.Some? {
          return;
        }
      }
    }
    return None;
  }

  function FieldType(t: GoType, segs: seq<string>): Option<GoType>
    decreases |segs|
  {
    if segs == [] then Some(t)
    else if !Deref(t).StructType? then None
    else
      match StructField(Deref(t).fields, segs[0])
      case None => None
      case Some(next) => FieldType(next, segs[1..])
  }

  // Field i goes to the collected ones or, if nothing is embedded by it, can be passed over.
  lemma EmbeddedStep(collected: seq<GoField>, fields: seq<GoField>, i: nat, name: string)
    requires i < |fields|
    ensures fields[i..][1..] == fields[i + 1..]
    ensures collected + fields[i..] == (collected + [fields[i]]) + fields[i + 1..]
    ensures !Embeds(fields[i]) ==>
      Embedded(collected + fields[i..], name) == Embedded(collected + fields[i + 1..], name)
  {
    assert fields[i..] == [fields[i]] + fields[i + 1..];
    if !Embeds(fields[i]) {
      DropPlain(collected, fields[i], fields[i + 1..], name);
    }
  }

  lemma {:induction false} DropPlain(before: seq<GoField>, f: GoField, after: seq<GoField>, name: string)
    requires !Embeds(f)
    ensures Embedded(before + ([f] + after), name) == Embedded(before + after, name)
  {
    if before == [] {
      assert [] + ([f] + after) == [f] + after && [] + after == after;
    } else {
      assert (before + ([f] + after))[1..] == before[1..] + ([f] + after);
      assert (before + after)[1..] == before[1..] + after;
      DropPlain(before[1..], f, after, name);
    }
  }

  method WalkType(root: GoType, segs: seq<string>) returns (found: Option<GoType>)
    ensures found == FieldType(root, segs)
  {
    var t := root;
    for i := 0 to |segs|
      invariant FieldType(root, segs) == FieldType(t, segs[i..])
    {
      ghost var from := t;
      while t.PointerType?
        invariant Deref(t) == Deref(from)
        decreases t
      {
        t := t.target;
      }
      if !t.StructType? {
        return None;
      }
      var next := StructFieldByJSONName(t.fields, segs[i]);
      if next.None? {
        return None;
      }
      assert segs[i..][1..] == segs[i + 1..];
      t := next.value;
    }
    return Some(t);
  }

  // ---------------------------------------------------------------- typed values

  // Every field encoding/json may write under a name: the tagged ones and those
  // promoted from embedded structs.
  function Candidates(fields: seq<GoField>, name: string): seq<GoType>
    decreases fields
  {
    if fields == [] then []
    else
      (if fields[0].name == "-" then []
       else if fields[0].name == name then [fields[0].typ]
       else if Embeds(fields[0]) then Candidates(Deref(fields[0].typ).fields, name)
       else [])
      + Candidates(fields[1..], name)
  }

  // The fields of a name at the least embedding depth that has any.
  datatype Level = Absent | Level(depth: nat, types: seq<GoType>)

  function Shallower(a: Level, b: Level): Level {
    if a.Absent? then b
    else if b.Absent? || a.depth < b.depth then a
    else if b.depth < a.depth then b
    else Level(a.depth, a.types + b.types)
  }

  function LevelOf(f: GoField, name: string): (l: Level)
    ensures l.Level? ==> forall u :: u in l.types ==> (f decreases to u)
    decreases f
  {
    if f.name == "-" then Absent
    else if f.name == name && name != "" then Level(0, [f.typ])
    else if Embeds(f) then
      match Shallowest(Deref(f.typ).fields, name)
      case Absent => Absent
      case Level(depth, types) => Level(depth + 1, types)
    else Absent
  }

  function Shallowest(fields: seq<GoField>, name: string): (l: Level)
    ensures l.Level? ==> forall u :: u in l.types ==> (fields decreases to u)
    decreases fields
  {
    if fields == [] then Absent else Shallower(LevelOf(fields[0], name), Shallowest(fields[1..], name))
  }

  // The field encoding/json writes under a name: the only one at the least depth. Several
  // at that depth hide each other and all deeper ones, and nothing is written.
  function Dominant(fields: seq<GoField>, name: string): (t: Option<GoType>)
    ensures t.Some? ==> (fields decreases to t.value)
  {
    var l := Shallowest(fields, name);
    if l.Level? && |l.types| == 1 then
      assert l.types[0] in l.types;
      Some(l.types[0])
    else None
  }

  // All fields of a name at one embedding depth, in the order they are declared.
  function AtDepth(fields: seq<GoField>, name: string, d: nat): seq<GoType>
    decreases fields
  {
    if fields == [] then []
    else
      (if fields[0].name == "-" then []
       else if fields[0].name == name && name != "" then (if d == 0 then [fields[0].typ] else [])
       else if Embeds(fields[0]) && d > 0 then AtDepth(Deref(fields[0].typ).fields, name, d - 1)
       else [])
      + AtDepth(fields[1..], name, d)
  }

  // The search by depth finds the least depth that has the name, and all fields there.
  lemma {:induction false} ShallowestIsLeast(fields: seq<GoField>, name: string, d: nat)
    ensures match Shallowest(fields, name)
            case Absent => AtDepth(fields, name, d) == []
            case Level(depth, types) =>
              types != [] && (d < depth ==> AtDepth(fields, name, d) == []) && (d == depth ==> AtDepth(fields, name, d) == types)
    decreases fields
  {
    if fields != [] {
      ShallowestIsLeast(fields[1..], name, d);
      if Embeds(fields[0]) {
        ShallowestIsLeast(Deref(fields[0].typ).fields, name, if d == 0 then 0 else d - 1);
      }
    }
  }

  // So exactly a field that is alone at its depth, with none above it, is the dominant one.
  lemma DominantIsAlone(fields: seq<GoField>, name: string, t: GoType)
    ensures Dominant(fields, name) == Some(t) <==>
      exists depth: nat :: AtDepth(fields, name, depth) == [t] && forall d: nat :: d < depth ==> AtDepth(fields, name, d) == []
  {
    var found := Shallowest(fields, name);
    forall d: nat
      ensures found.Absent? || d < found.depth ==> AtDepth(fields, name, d) == []
      ensures found.Level? && d == found.depth ==> AtDepth(fields, name, d) == found.types != []
    {
      ShallowestIsLeast(fields, name, d);
    }
    if found.Level? {
      assert AtDepth(fields, name, found.depth) == found.types;
    }
  }

  // The JSON a value of the type encodes to. A nil pointer and an omitted zero field
  // leave no member.
  predicate WellTyped(v: Value, t: GoType)
    decreases v
  {
    match Deref(t)
    case StringType => v.Str?
    case BoolType => v.Bool?
    case IntType => v.Num?
    case SliceType(elem) => v.Arr? && forall i :: 0 <= i < |v.items| ==> WellTyped(v.items[i], elem)
    case StructType(fields) =>
      v.Obj? && forall k :: k in v.fields ==> Dominant(fields, k).Some? && WellTyped(v.fields[k], Dominant(fields, k).value)
    case PointerType(_) => false
  }

  lemma {:induction false} WalkIsCandidate(fields: seq<GoField>, name: string)
    ensures var found := StructField(fields, name);
      if found.Some? then found.value in Candidates(fields, name) else Candidates(fields, name) == []
    decreases fields, 1
  {
    DirectIsCandidate(fields, name);
    EmbeddedIsCandidate(fields, name);
  }

  lemma {:induction false} DirectIsCandidate(fields: seq<GoField>, name: string)
    ensures Direct(fields, name).Some? ==> Direct(fields, name).value in Candidates(fields, name)
  {
    if fields != [] {
      DirectIsCandidate(fields[1..], name);
    }
  }

  lemma {:induction false} EmbeddedIsCandidate(fields: seq<GoField>, name: string)
    ensures Embedded(fields, name).Some? && Direct(fields, name).None? ==> Embedded(fields, name).value in Candidates(fields, name)
    ensures Embedded(fields, name).None? && Direct(fields, name).None? ==> Candidates(fields, name) == []
    decreases fields, 0
  {
    if fields != [] {
      EmbeddedIsCandidate(fields[1..], name);
      if Embeds(fields[0]) {
        WalkIsCandidate(Deref(fields[0].typ).fields, name);
      }
    }
  }

  // What is written is found: the search misses no field that encoding/json lets dominate.
  lemma DominantIsFound(fields: seq<GoField>, name: string)
    requires Dominant(fields, name).Some?
    ensures StructField(fields, name).Some?
  {
    LevelsAreCandidates(fields, name);
    WalkIsCandidate(fields, name);
  }

  lemma {:induction false} LevelsAreCandidates(fields: seq<GoField>, name: string)
    ensures Shallowest(fields, name).Level? <==> name != "" && Candidates(fields, name) != []
    ensures Shallowest(fields, name).Level? ==> Shallowest(fields, name).types != []
    decreases fields
  {
    if fields != [] {
      LevelsAreCandidates(fields[1..], name);
      if Embeds(fields[0]) {
        LevelsAreCandidates(Deref(fields[0].typ).fields, name);
      }
    }
  }

  // ---------------------------------------------------------------- types that fit

  // Whatever the one type encodes to, the other could have encoded to.
  ghost predicate Fits(t: GoType, u: GoType)
    decreases t
  {
    match Deref(t)
    case StringType => Deref(u).StringType?
    case BoolType => Deref(u).BoolType?
    case IntType => Deref(u).IntType?
    case SliceType(elem) => Deref(u).SliceType? && Fits(elem, Deref(u).elem)
    case StructType(fields) => Deref(u).StructType? && forall name :: MemberFits(fields, Deref(u).fields, name)
    case PointerType(_) => true
  }

  ghost predicate MemberFits(fields: seq<GoField>, others: seq<GoField>, name: string)
    decreases fields
  {
    var mine, other := Dominant(fields, name), Dominant(others, name);
    mine.Some? ==> other.Some? && Fits(mine.value, other.value)
  }

  function Sample(t: GoType): (v: Value)
    ensures WellTyped(v, t)
  {
    match Deref(t)
    case StringType => Str("")
    case BoolType => Bool(false)
    case IntType => Num(0)
    case SliceType(_) => Arr([])
    case StructType(_) => Obj(map[])
    case PointerType(_) => assert false; Null
  }

  lemma {:induction false} FittingValue(v: Value, t: GoType, u: GoType)
    requires Fits(t, u) && WellTyped(v, t)
    ensures WellTyped(v, u)
    decreases v
  {
    match Deref(t) {
      case SliceType(elem) =>
        forall i | 0 <= i < |v.items| ensures WellTyped(v.items[i], Deref(u).elem) {
          FittingValue(v.items[i], elem, Deref(u).elem);
        }
      case StructType(fields) =>
        var others := Deref(u).fields;
        forall k | k in v.fields ensures Dominant(others, k).Some? && WellTyped(v.fields[k], Dominant(others, k).value) {
          assert MemberFits(fields, others, k);
          FittingValue(v.fields[k], Dominant(fields, k).value, Dominant(others, k).value);
        }
      case _ =>
    }
  }

  lemma {:induction false} MisfitValue(t: GoType, u: GoType) returns (v: Value)
    requires !Fits(t, u)
    ensures WellTyped(v, t) && !WellTyped(v, u)
    decreases t
  {
    v := Sample(t);
    if Deref(t).SliceType? && Deref(u).SliceType? {
      var item := MisfitValue(Deref(t).elem, Deref(u).elem);
      v := Arr([item]);
      assert v.items[0] == item;
    } else if Deref(t).StructType? && Deref(u).StructType? {
      var fields, others := Deref(t).fields, Deref(u).fields;
      var name :| !MemberFits(fields, others, name);
      var member := Sample(Dominant(fields, name).value);
      if Dominant(others, name).Some? {
        member := MisfitValue(Dominant(fields, name).value, Dominant(others, name).value);
      }
      v := Obj(map[name := member]);
      assert v.fields[name] == member;
    }
  }

  lemma FitsIsExact(t: GoType, u: GoType)
    ensures Fits(t, u) <==> forall v :: WellTyped(v, t) ==> WellTyped(v, u)
  {
    if Fits(t, u) {
      forall v | WellTyped(v, t) ensures WellTyped(v, u) {
        FittingValue(v, t, u);
      }
    } else {
      var v := MisfitValue(t, u);
    }
  }

  lemma FitsItself(t: GoType)
    ensures Fits(t, t)
  {
    FitsIsExact(t, t);
  }

  // ---------------------------------------------------------------- the walk and the values

  // Where a path leads in the values of a type, by the fields that are written.
  datatype Reach = Reaches(typ: GoType) | NeverWritten | Stuck

  function Written(t: GoType, segs: Path): Reach
    decreases |segs|
  {
    if segs == [] then Reaches(t)
    else if !Deref(t).StructType? then Stuck
    else
      match Dominant(Deref(t).fields, segs[0])
      case None => NeverWritten
      case Some(next) => Written(next, segs[1..])
  }

  // What the walk resolves holds of the values: where the field it finds is not the one
  // written, it might as well be.
  ghost predicate Readable(t: GoType, segs: Path) {
    FieldType(t, segs).Some? &&
    match Written(t, segs)
    case Reaches(u) => Fits(u, FieldType(t, segs).value)
    case NeverWritten => true
    case Stuck => false
  }

  // Reading finds a value of the resolved type or nothing, and never runs into something
  // that is no object.
  ghost predicate ReadsAs(v: Value, segs: Path, u: GoType) {
    match GetValue(v, segs)
    case Found(w) => WellTyped(w, u)
    case NotFound => true
    case NotAnObject => false
  }

  // A value read by a path that is written has the type written there.
  lemma {:induction false} ReadsWritten(v: Value, t: GoType, segs: Path)
    requires WellTyped(v, t)
    ensures match GetValue(v, segs)
            case Found(w) => Written(t, segs).Reaches? && WellTyped(w, Written(t, segs).typ)
            case NotFound => true
            case NotAnObject => Written(t, segs).Stuck?
    ensures !Written(t, segs).Stuck? ==> Admits(Some(v), segs)
    decreases |segs|
  {
    if segs != [] && Deref(t).StructType? && segs[0] in v.fields {
      ReadsWritten(v.fields[segs[0]], Dominant(Deref(t).fields, segs[0]).value, segs[1..]);
    }
  }

  // A readable path can be read from any value of the type, and the same path can be
  // written.
  lemma ResolvedPathIsReadable(v: Value, t: GoType, segs: Path)
    requires Readable(t, segs) && WellTyped(v, t)
    ensures ReadsAs(v, segs, FieldType(t, segs).value)
    ensures Admits(Some(v), segs)
  {
    ReadsWritten(v, t, segs);
    if GetValue(v, segs).Found? {
      FittingValue(GetValue(v, segs).value, Written(t, segs).typ, FieldType(t, segs).value);
    }
  }

  // A value that holds w at a path.
  lemma {:induction false} Holder(t: GoType, segs: Path, w: Value) returns (v: Value)
    requires Written(t, segs).Reaches? && WellTyped(w, Written(t, segs).typ)
    ensures WellTyped(v, t) && GetValue(v, segs) == Found(w)
    decreases |segs|
  {
    v := w;
    if segs != [] {
      var inner := Holder(Dominant(Deref(t).fields, segs[0]).value, segs[1..], w);
      v := Obj(map[segs[0] := inner]);
      assert v.fields[segs[0]] == inner;
    }
  }

  // A value in which the path runs into something that is no object.
  lemma {:induction false} Blocker(t: GoType, segs: Path) returns (v: Value)
    requires Written(t, segs).Stuck?
    ensures WellTyped(v, t) && GetValue(v, segs).NotAnObject?
    decreases |segs|
  {
    v := Sample(t);
    if Deref(t).StructType? {
      var inner := Blocker(Dominant(Deref(t).fields, segs[0]).value, segs[1..]);
      v := Obj(map[segs[0] := inner]);
      assert v.fields[segs[0]] == inner;
    }
  }

  // The walk is sound for a path on every value of the type exactly where the fields it
  // finds are, as far as values can tell, the ones encoding/json lets dominate.
  lemma WalkIsSoundExactly(t: GoType, segs: Path)
    requires FieldType(t, segs).Some?
    ensures (forall v :: WellTyped(v, t) ==> ReadsAs(v, segs, FieldType(t, segs).value)) <==> Readable(t, segs)
  {
    if Readable(t, segs) {
      forall v | WellTyped(v, t) ensures ReadsAs(v, segs, FieldType(t, segs).value) {
        ResolvedPathIsReadable(v, t, segs);
      }
    } else if Written(t, segs).Stuck? {
      var v := Blocker(t, segs);
      assert !ReadsAs(v, segs, FieldType(t, segs).value);
    } else {
      var w := MisfitValue(Written(t, segs).typ, FieldType(t, segs).value);
      var v := Holder(t, segs, w);
      assert !ReadsAs(v, segs, FieldType(t, segs).value);
    }
  }

  // Every step of the walk finds the dominant field.
  predicate StepsDominate(t: GoType, segs: Path)
    decreases |segs|
  {
    segs == [] ||
    (&& Deref(t).StructType?
     && StructField(Deref(t).fields, segs[0]).Some?
     && StructField(Deref(t).fields, segs[0]) == Dominant(Deref(t).fields, segs[0])
     && StepsDominate(StructField(Deref(t).fields, segs[0]).value, segs[1..]))
  }

  lemma {:induction false} DominantStepsAreReadable(t: GoType, segs: Path)
    requires StepsDominate(t, segs)
    ensures Readable(t, segs)
  {
    SameSteps(t, segs);
    FitsItself(FieldType(t, segs).value);
  }

  lemma {:induction false} SameSteps(t: GoType, segs: Path)
    requires StepsDominate(t, segs)
    ensures FieldType(t, segs).Some? && Written(t, segs) == Reaches(FieldType(t, segs).value)
    decreases |segs|
  {
    if segs != [] {
      SameSteps(StructField(Deref(t).fields, segs[0]).value, segs[1..]);
    }
  }

  // A field named directly, and by no other direct field, is the one written, whatever the
  // embedded structs hold: the search is right to look at direct fields first.
  lemma {:induction false} DirectFieldDominates(fields: seq<GoField>, name: string, i: nat)
    requires i < |fields| && name != "" && name != "-"
    requires forall j :: 0 <= j < |fields| ==> (fields[j].name == name <==> j == i)
    ensures StructField(fields, name) == Dominant(fields, name) == Some(fields[i].typ)
  {
    DirectAt(fields, name, i);
    ShallowAt(fields, name, i);
  }

  // A field of one embedded struct only, found there as it is written there, is the one
  // written, whatever other structs are embedded beside it.
  lemma {:induction false} EmbeddedFieldDominates(fields: seq<GoField>, name: string, i: nat)
    requires i < |fields| && name != "" && Embeds(fields[i])
    requires forall j :: 0 <= j < |fields| && j != i ==> LevelOf(fields[j], name).Absent?
    requires var sub := Deref(fields[i].typ).fields;
      Dominant(sub, name).Some? && StructField(sub, name) == Dominant(sub, name)
    ensures StructField(fields, name) == Dominant(fields, name) == Dominant(Deref(fields[i].typ).fields, name)
  {
    var sub := Deref(fields[i].typ).fields;
    if i > 0 {
      AbsentIsNotFound(fields[0], name);
      EmbeddedFieldDominates(fields[1..], name, i - 1);
    } else {
      NoneElsewhere(fields[1..], name);
      LevelsAreCandidates(sub, name);
      assert LevelOf(fields[0], name).types == Shallowest(sub, name).types;
      assert Direct(fields, name) == Direct(fields[1..], name);
      assert StructField(fields, name) == StructField(sub, name);
    }
  }

  lemma AbsentIsNotFound(f: GoField, name: string)
    requires name != "" && LevelOf(f, name).Absent?
    ensures f.name == "-" || f.name != name
    ensures Embeds(f) ==> StructField(Deref(f.typ).fields, name).None?
  {
    if Embeds(f) {
      LevelsAreCandidates(Deref(f.typ).fields, name);
      WalkIsCandidate(Deref(f.typ).fields, name);
    }
  }

  lemma {:induction false} NoneElsewhere(fields: seq<GoField>, name: string)
    requires name != "" && forall j :: 0 <= j < |fields| ==> LevelOf(fields[j], name).Absent?
    ensures Shallowest(fields, name).Absent? && Direct(fields, name).None? && Embedded(fields, name).None?
  {
    if fields != [] {
      AbsentIsNotFound(fields[0], name);
      NoneElsewhere(fields[1..], name);
    }
  }

  lemma {:induction false} DirectAt(fields: seq<GoField>, name: string, i: nat)
    requires i < |fields| && name != "-" && fields[i].name == name && forall j :: 0 <= j < i ==> fields[j].name != name
    ensures Direct(fields, name) == Some(fields[i].typ)
  {
    if i > 0 {
      DirectAt(fields[1..], name, i - 1);
    }
  }

  lemma {:induction false} ShallowAt(fields: seq<GoField>, name: string, i: nat)
    requires i < |fields| && name != "" && name != "-"
    requires forall j :: 0 <= j < |fields| ==> (fields[j].name == name <==> j == i)
    ensures Shallowest(fields, name) == Level(0, [fields[i].typ])
  {
    if i > 0 {
      ShallowAt(fields[1..], name, i - 1);
    } else {
      NotAtTop(fields[1..], name);
    }
  }

  lemma {:induction false} NotAtTop(fields: seq<GoField>, name: string)
    requires forall j :: 0 <= j < |fields| ==> fields[j].name != name
    ensures Shallowest(fields, name).Absent? || Shallowest(fields, name).depth > 0
  {
    if fields != [] {
      NotAtTop(fields[1..], name);
    }
  }

  // ---------------------------------------------------------------- the gate

  // The types of a kind's configurable and observed fields.
  datatype Kind = Kind(forProvider: GoType, atProvider: GoType)

  datatype Ineligible = IdentityField | NoSuchField | WriteOnly

  const IDENTITY_FIELDS: set<string> := {"host"}

  // `path` is relative to forProvider and not empty.
  method CheckEligible(kind: Kind, path: Path) returns (refused: Option<Ineligible>)
    requires path != []
    ensures refused == Refusal(kind, path)
  {
    if path[|path| - 1] in IDENTITY_FIELDS {
      return Some(IdentityField);
    }
    var inSpec := WalkType(kind.forProvider, path);
    if inSpec.None? {
      return Some(NoSuchField);
    }
    var inStatus := WalkType(kind.atProvider, path);
    if inStatus.None? {
      return Some(WriteOnly);
    }
    return None;
  }

  function Refusal(kind: Kind, path: Path): Option<Ineligible>
    requires path != []
  {
    if path[|path| - 1] in IDENTITY_FIELDS then Some(IdentityField)
    else if FieldType(kind.forProvider, path).None? then Some(NoSuchField)
    else if FieldType(kind.atProvider, path).None? then Some(WriteOnly)
    else None
  }

  // Nothing is refused exactly when the path does not end in the identity field and names a
  // field of spec and of status. Of several reasons the identity comes first, then spec.
  lemma RefusalIsExact(kind: Kind, path: Path)
    requires path != []
    ensures Refusal(kind, path) == None <==>
      path[|path| - 1] != "host" && FieldType(kind.forProvider, path).Some? && FieldType(kind.atProvider, path).Some?
    ensures Refusal(kind, path) == Some(IdentityField) <==> path[|path| - 1] == "host"
    ensures Refusal(kind, path) == Some(NoSuchField) <==>
      path[|path| - 1] != "host" && FieldType(kind.forProvider, path).None?
    ensures Refusal(kind, path) == Some(WriteOnly) <==>
      path[|path| - 1] != "host" && FieldType(kind.forProvider, path).Some? && FieldType(kind.atProvider, path).None?
  {}
}
