/**
 One platform package: loading it, and giving it the base layer of another one.

 File contents are opaque strings. Hashing, unpacking and the two document formats are
 parameters.
 */
module Packages {
  import opened Wrappers
  import Json

  // ---------------------------------------------------------------- packages

  // `header` is everything the archive keeps about an entry besides name and size.
  datatype Entry = Entry(header: string, name: string, body: string)

  type Package = seq<Entry>

  datatype Manifest = Manifest(config: string, repoTags: seq<string>, layers: seq<string>)

  datatype File = File(name: string, body: string)

  // What a layer blob unpacks to, and the stream it was compressed from.
  datatype Layer = Layer(files: seq<File>, uncompressed: string)

  datatype Tools = Tools(
    sha: string -> string,
    unpack: string -> Option<Layer>,
    documents: string -> Option<seq<Json.Value>>,
    readManifest: string -> Option<seq<Manifest>>,
    writeManifest: Manifest -> string)

  const MANIFEST := "manifest.json"
  const BASE_FILE := "package.yaml"
  const SHA_PREFIX := "sha256:"
  const LABEL_PREFIX := "io.crossplane.xpkg:"

  datatype Base = Base(name: string, raw: string, diffID: string, digest: string, docs: seq<Json.Value>)

  datatype Platform = Platform(path: string, entries: Package, manifest: Manifest, configRaw: string, base: Base)

  datatype Error =
    | NoManifest | BadManifest | NoConfig
    | NoLayer(name: string) | BadLayer(name: string) | NoBase
    | OtherDocuments | DiffIDNotUnique | LabelNotUnique

  // ---------------------------------------------------------------- loading

  // The entry a name stands for: the last one with it.
  function BodyOf(entries: Package, name: string): Option<string> {
    if entries == [] then None
    else
      var last := entries[|entries| - 1];
      if last.name == name then Some(last.body) else BodyOf(entries[..|entries| - 1], name)
  }

  function Digest(t: Tools, body: string): string {
    SHA_PREFIX + t.sha(body)
  }

  // A layer whose only content is the package file is a base layer.
  function ReadLayer(t: Tools, name: string, body: string): Result<Option<Base>, Error> {
    match t.unpack(body)
    case None => Failure(BadLayer(name))
    case Some(layer) =>
      if |layer.files| != 1 || layer.files[0].name != BASE_FILE then Success(None)
      else
        match t.documents(layer.files[0].body)
        case None => Failure(BadLayer(name))
        case Some(docs) => Success(Some(Base(name, body, Digest(t, layer.uncompressed), Digest(t, body), docs)))
  }

  function LayerNamed(t: Tools, entries: Package, name: string): Result<Option<Base>, Error> {
    match BodyOf(entries, name)
    case None => Failure(NoLayer(name))
    case Some(body) => ReadLayer(t, name, body)
  }

  // The last base layer among the layers, or the first error.
  function FindBase(t: Tools, entries: Package, layers: seq<string>): Result<Option<Base>, Error> {
    if layers == [] then Success(None)
    else
      match LayerNamed(t, entries, layers[0])
      case Failure(e) => Failure(e)
      case Success(first) =>
        match FindBase(t, entries, layers[1..])
        case Failure(e) => Failure(e)
        case Success(rest) => Success(if rest.Some? then rest else first)
  }

  function Load(t: Tools, path: string, entries: Package): Result<Platform, Error> {
    match BodyOf(entries, MANIFEST)
    case None => Failure(NoManifest)
    case Some(raw) =>
      match t.readManifest(raw)
      case None => Failure(BadManifest)
      case Some(manifests) =>
        if |manifests| != 1 then Failure(BadManifest)
        else
          match BodyOf(entries, manifests[0].config)
          case None => Failure(NoConfig)
          case Some(configRaw) =>
            match FindBase(t, entries, manifests[0].layers)
            case Failure(e) => Failure(e)
            case Success(None) => Failure(NoBase)
            case Success(Some(base)) =>
              if base.name == "" then Failure(NoBase) else Success(Platform(path, entries, manifests[0], configRaw, base))
  }

  method LoadPlatform(t: Tools, path: string, archive: Package) returns (result: Result<Platform, Error>)
    ensures result == Load(t, path, archive)
  {
    var entries: Package := [];
    var byName: map<string, nat> := map[];
    for i := 0 to |archive|
      invariant entries == archive[..i]
      invariant forall n :: n in byName ==> byName[n] < i
      invariant forall n :: BodyOf(entries, n) == if n in byName then Some(entries[byName[n]].body) else None
    {
      byName := byName[archive[i].name := |entries|];
      entries := entries + [archive[i]];
      assert entries[..|entries| - 1] == archive[..i];
    }
    assert entries == archive;

    if MANIFEST !in byName {
      return Failure(NoManifest);
    }
    var manifests := t.readManifest(entries[byName[MANIFEST]].body);
    if manifests.None? || |manifests.value| != 1 {
      return Failure(BadManifest);
    }
    var manifest := manifests.value[0];
    if manifest.config !in byName {
      return Failure(NoConfig);
    }
    var base: Option<Base> := None;
    for i := 0 to |manifest.layers|
      invariant FindBase(t, archive, manifest.layers) ==
        match FindBase(t, archive, manifest.layers[i..])
        case Failure(e) => Failure(e)
        case Success(rest) => Success(if rest.Some? then rest else base)
    {
      var name := manifest.layers[i];
      assert manifest.layers[i..][1..] == manifest.layers[i + 1..];
      if name !in byName {
        return Failure(NoLayer(name));
      }
      var read := ReadLayer(t, name, entries[byName[name]].body);
      if read.Failure? {
        return Failure(read.error);
      }
      if read.value.Some? {
        base := read.value;
      }
    }
    if base.None? || base.value.name == "" {
      return Failure(NoBase);
    }
    return Success(Platform(path, entries, manifest, entries[byName[manifest.config]].body, base.value));
  }

  // ---------------------------------------------------------------- what loading needs

  // The content of an entry: that of the last entry of the name.
  lemma {:induction false} BodyIsLast(entries: Package, name: string)
    ensures match BodyOf(entries, name)
            case None => forall i :: 0 <= i < |entries| ==> entries[i].name != name
            case Some(body) =>
              exists i :: 0 <= i < |entries| && entries[i] == Entry(entries[i].header, name, body)
                          && forall j :: i < j < |entries| ==> entries[j].name != name
  {
    if entries != [] {
      var last := |entries| - 1;
      BodyIsLast(entries[..last], name);
      if entries[last].name == name {
        assert entries[last] == Entry(entries[last].header, name, entries[last].body);
      } else if BodyOf(entries[..last], name).Some? {
        var body := BodyOf(entries[..last], name).value;
        var i :| 0 <= i < last && entries[..last][i] == Entry(entries[..last][i].header, name, body)
                 && forall j :: i < j < last ==> entries[..last][j].name != name;
        assert entries[i] == Entry(entries[i].header, name, body);
        forall j | i < j < |entries| ensures entries[j].name != name {
          assert j < last ==> entries[..last][j] == entries[j];
        }
      }
    }
  }

  // A layer blob that unpacks to package.yaml and nothing else.
  predicate IsBaseLayer(t: Tools, body: string) {
    t.unpack(body).Some? && |t.unpack(body).value.files| == 1 && t.unpack(body).value.files[0].name == "package.yaml"
  }

  // A layer reads unless it does not unpack, or is a base layer whose documents do not
  // decode. A base layer is known by the hash of its content and by that of its blob.
  lemma LayerReads(t: Tools, name: string, body: string)
    ensures match ReadLayer(t, name, body)
            case Failure(e) =>
              e == BadLayer(name)
              && (t.unpack(body).None? || (IsBaseLayer(t, body) && t.documents(t.unpack(body).value.files[0].body).None?))
            case Success(None) => t.unpack(body).Some? && !IsBaseLayer(t, body)
            case Success(Some(base)) =>
              && IsBaseLayer(t, body)
              && base.name == name && base.raw == body
              && base.diffID == "sha256:" + t.sha(t.unpack(body).value.uncompressed)
              && base.digest == "sha256:" + t.sha(body)
              && Some(base.docs) == t.documents(t.unpack(body).value.files[0].body)
  {}

  // Among layers that all read, the last base layer is taken.
  lemma {:induction false} LastBaseIsTaken(t: Tools, entries: Package, layers: seq<string>)
    ensures FindBase(t, entries, layers).Success? <==> forall l :: l in layers ==> LayerNamed(t, entries, l).Success?
    ensures FindBase(t, entries, layers).Success? ==>
      match FindBase(t, entries, layers).value
      case None => forall l :: l in layers ==> LayerNamed(t, entries, l) == Success(None)
      case Some(base) =>
        exists i :: 0 <= i < |layers| && LayerNamed(t, entries, layers[i]) == Success(Some(base))
                    && forall j :: i < j < |layers| ==> LayerNamed(t, entries, layers[j]) == Success(None)
  {
    if layers != [] {
      var rest := layers[1..];
      LastBaseIsTaken(t, entries, rest);
      assert forall l :: l in layers <==> l == layers[0] || l in rest;
      if FindBase(t, entries, layers).Success? {
        if FindBase(t, entries, rest).value.Some? {
          var base := FindBase(t, entries, rest).value.value;
          var i :| 0 <= i < |rest| && LayerNamed(t, entries, rest[i]) == Success(Some(base))
                   && forall j :: i < j < |rest| ==> LayerNamed(t, entries, rest[j]) == Success(None);
          assert layers[i + 1] == rest[i];
          forall j | i + 1 < j < |layers| ensures LayerNamed(t, entries, layers[j]) == Success(None) {
            assert layers[j] == rest[j - 1];
          }
        } else {
          forall j | 0 < j < |layers| ensures LayerNamed(t, entries, layers[j]) == Success(None) {
            assert layers[j] == rest[j - 1] && rest[j - 1] in rest;
          }
        }
      }
    }
  }

  // One manifest, the config and all layers of it are there, all layers read, and the base
  // layer among them has a name.
  predicate LoadsFrom(t: Tools, entries: Package, manifest: Manifest, config: string, base: Base) {
    && BodyOf(entries, "manifest.json").Some?
    && t.readManifest(BodyOf(entries, "manifest.json").value) == Some([manifest])
    && BodyOf(entries, manifest.config) == Some(config)
    && FindBase(t, entries, manifest.layers) == Success(Some(base))
    && base.name != ""
  }

  lemma LoadIsExact(t: Tools, path: string, entries: Package, manifest: Manifest, config: string, base: Base)
    ensures Load(t, path, entries) == Success(Platform(path, entries, manifest, config, base))
      <==> LoadsFrom(t, entries, manifest, config, base)
    ensures Load(t, path, entries).Success? ==>
      Load(t, path, entries).value.path == path && Load(t, path, entries).value.entries == entries
    ensures Load(t, path, entries) == Failure(NoManifest) <==> BodyOf(entries, "manifest.json").None?
  {
    if BodyOf(entries, "manifest.json").Some? {
      var manifests := t.readManifest(BodyOf(entries, "manifest.json").value);
      if manifests.Some? && |manifests.value| == 1 {
        assert manifests.value == [manifests.value[0]];
        BaseErrors(t, entries, manifests.value[0].layers);
      }
    }
  }

  // A layer that is missing or does not read is named.
  lemma {:induction false} BaseErrors(t: Tools, entries: Package, layers: seq<string>)
    ensures match FindBase(t, entries, layers)
            case Failure(e) => (e.NoLayer? || e.BadLayer?) && e.name in layers
            case Success(_) => true
  {
    if layers != [] {
      BaseErrors(t, entries, layers[1..]);
    }
  }

  // Of several layers that cannot be read the first is reported.
  predicate FailsAt(t: Tools, entries: Package, layers: seq<string>, i: nat, e: Error) {
    && i < |layers| && LayerNamed(t, entries, layers[i]) == Failure(e)
    && forall j :: 0 <= j < i ==> LayerNamed(t, entries, layers[j]).Success?
  }

  lemma {:induction false} FirstBadLayerIsReported(t: Tools, entries: Package, layers: seq<string>, e: Error)
    ensures FindBase(t, entries, layers) == Failure(e) <==> exists i: nat :: FailsAt(t, entries, layers, i, e)
  {
    if layers != [] {
      FirstBadLayerIsReported(t, entries, layers[1..], e);
      FailsBelow(t, entries, layers, 0, e);
      if i: nat :| FailsAt(t, entries, layers, i, e) {
        FailsBelow(t, entries, layers, i, e);
      }
      if i: nat :| FailsAt(t, entries, layers[1..], i, e) {
        FailsBelow(t, entries, layers, i + 1, e);
      }
    }
  }

  lemma FailsBelow(t: Tools, entries: Package, layers: seq<string>, i: nat, e: Error)
    requires layers != []
    ensures FailsAt(t, entries, layers, i, e) <==>
      if i == 0 then LayerNamed(t, entries, layers[0]) == Failure(e)
      else LayerNamed(t, entries, layers[0]).Success? && FailsAt(t, entries, layers[1..], i - 1, e)
  {
    if 0 < i < |layers| {
      assert layers[1..][i - 1] == layers[i];
      assert forall j :: 0 <= j < i - 1 ==> layers[1..][j] == layers[j + 1];
      assert forall j :: 0 < j < i ==> layers[j] == layers[1..][j - 1];
    }
  }

  // And such an error is what loading reports.
  lemma LoadReportsBadLayer(t: Tools, path: string, entries: Package, manifest: Manifest, i: nat, e: Error)
    requires BodyOf(entries, "manifest.json").Some?
    requires t.readManifest(BodyOf(entries, "manifest.json").value) == Some([manifest])
    requires BodyOf(entries, manifest.config).Some? && FailsAt(t, entries, manifest.layers, i, e)
    ensures Load(t, path, entries) == Failure(e)
  {
    FirstBadLayerIsReported(t, entries, manifest.layers, e);
  }

  // ---------------------------------------------------------------- text in the config

  predicate OccursAt(s: string, sub: string, i: nat) {
    i + |sub| <= |s| && forall k :: 0 <= k < |sub| ==> s[i + k] == sub[k]
  }

  predicate NoneIn(s: string, sub: string, from: nat, to: nat) {
    forall j: nat :: from <= j < to ==> !OccursAt(s, sub, j)
  }

  // The first occurrence from an index on.
  function IndexFrom(s: string, sub: string, from: nat): (i: Option<nat>)
    requires from <= |s|
    ensures match i
            case None => NoneIn(s, sub, from, |s| + 1)
            case Some(n) => from <= n && OccursAt(s, sub, n) && NoneIn(s, sub, from, n)
    decreases |s| - from
  {
    if OccursAt(s, sub, from) then Some(from)
    else if from == |s| then None
    else IndexFrom(s, sub, from + 1)
  }

  // bytes.Count: occurrences that do not overlap.
  function CountFrom(s: string, sub: string, from: nat): nat
    requires sub != "" && from <= |s|
    decreases |s| - from
  {
    match IndexFrom(s, sub, from)
    case None => 0
    case Some(i) => 1 + CountFrom(s, sub, i + |sub|)
  }

  function Count(s: string, sub: string): nat
    requires sub != ""
  {
    CountFrom(s, sub, 0)
  }

  function ReplaceFirst(s: string, was: string, now: string): string {
    match IndexFrom(s, was, 0)
    case None => s
    case Some(i) => s[..i] + now + s[i + |was|..]
  }

  function Quoted(text: string): string {
    "\"" + text + "\""
  }

  // The config with the base layer's diffID and its annotation label moved to the donor's.
  // Either string has to occur exactly once.
  function PatchConfig(config: string, was: Base, now: Base): Result<string, Error> {
    if Count(config, Quoted(was.diffID)) != 1 then Failure(DiffIDNotUnique)
    else
      var once := ReplaceFirst(config, Quoted(was.diffID), Quoted(now.diffID));
      var key := Quoted(LABEL_PREFIX + was.digest);
      if Count(once, key) != 1 then Failure(LabelNotUnique)
      else Success(ReplaceFirst(once, key, Quoted(LABEL_PREFIX + now.digest)))
  }

  // `after` is `before` with one occurrence of `was` turned into `now`, and any other
  // occurrence overlaps that one.
  ghost predicate OneChange(before: string, was: string, now: string, after: string)
    requires was != ""
  {
    exists i :: OccursAt(before, was, i) && ChangedAt(before, was, now, after, i)
  }

  ghost predicate ChangedAt(before: string, was: string, now: string, after: string, i: nat)
    requires was != "" && OccursAt(before, was, i)
  {
    && after == before[..i] + now + before[i + |was|..]
    && forall j: nat :: OccursAt(before, was, j) ==> i <= j < i + |was|
  }

  // Every occurrence of a string counted once overlaps the first.
  lemma CountedOnce(s: string, sub: string, i: nat)
    requires sub != "" && Count(s, sub) == 1 && IndexFrom(s, sub, 0) == Some(i)
    ensures OccursAt(s, sub, i) && NoneIn(s, sub, 0, i) && NoneIn(s, sub, i + |sub|, |s| + 1)
  {
    assert CountFrom(s, sub, i + |sub|) == 0;
  }

  lemma OccursIsSlice(s: string, sub: string, i: nat)
    ensures OccursAt(s, sub, i) <==> i + |sub| <= |s| && s[i..i + |sub|] == sub
  {
    if i + |sub| <= |s| {
      var part := s[i..i + |sub|];
      assert forall k :: 0 <= k < |part| ==> part[k] == s[i + k];
    }
  }

  lemma NoneFrom(s: string, sub: string, from: nat)
    requires sub != "" && from <= |s|
    ensures CountFrom(s, sub, from) == 0 <==> NoneIn(s, sub, from, |s| + 1)
  {
    var found := IndexFrom(s, sub, from);
    if found.Some? {
      assert OccursAt(s, sub, found.value);
    }
  }

  predicate AloneAt(s: string, sub: string, i: nat) {
    OccursAt(s, sub, i) && NoneIn(s, sub, 0, i) && NoneIn(s, sub, i + |sub|, |s| + 1)
  }

  // Counted once means there is one and every other overlaps it; counted not at all, that
  // there is none.
  lemma CountIsExact(s: string, sub: string)
    requires sub != ""
    ensures Count(s, sub) == 0 <==> NoneIn(s, sub, 0, |s| + 1)
    ensures Count(s, sub) == 1 <==> exists i: nat :: AloneAt(s, sub, i)
  {
    var first := IndexFrom(s, sub, 0);
    if first.Some? {
      assert Count(s, sub) == 1 + CountFrom(s, sub, first.value + |sub|);
      NoneFrom(s, sub, first.value + |sub|);
      assert Count(s, sub) == 1 ==> AloneAt(s, sub, first.value);
    }
  }

  lemma ReplaceIsOneChange(s: string, was: string, now: string)
    requires was != "" && Count(s, was) == 1
    ensures OneChange(s, was, now, ReplaceFirst(s, was, now))
  {
    var i := IndexFrom(s, was, 0).value;
    CountedOnce(s, was, i);
    assert ChangedAt(s, was, now, ReplaceFirst(s, was, now), i);
  }

  // Two occurrences of one quoted text overlap only by a quote: the end of the first is the
  // start of the second.
  lemma QuotedOverlap(s: string, text: string, i: nat, j: nat)
    requires '"' !in text && OccursAt(s, Quoted(text), i) && OccursAt(s, Quoted(text), j)
    requires i < j < i + |Quoted(text)|
    ensures j == i + |Quoted(text)| - 1
  {
    assert s[j + 0] == Quoted(text)[0];
    if j < i + |text| + 1 {
      NoQuoteInside(s, text, i, j);
    }
  }

  lemma NoQuoteInside(s: string, text: string, i: nat, j: nat)
    requires '"' !in text && OccursAt(s, Quoted(text), i) && i < j < i + |text| + 1
    ensures s[j] != '"'
  {
    assert s[i + (j - i)] == Quoted(text)[j - i] == text[j - i - 1];
  }

  // So a quoted text counted once is the only one, unless another begins with its closing
  // quote. In a JSON document none does: no value begins right where one ends.
  lemma QuotedIsUnique(s: string, text: string, i: nat)
    requires '"' !in text && Count(s, Quoted(text)) == 1 && IndexFrom(s, Quoted(text), 0) == Some(i)
    ensures (forall j: nat :: OccursAt(s, Quoted(text), j) ==> j == i) <==> !OccursAt(s, Quoted(text), i + |text| + 1)
  {
    CountedOnce(s, Quoted(text), i);
    OnlyOverlapsByQuote(s, text, i);
  }

  lemma OnlyOverlapsByQuote(s: string, text: string, i: nat)
    requires '"' !in text && OccursAt(s, Quoted(text), i)
    requires NoneIn(s, Quoted(text), 0, i) && NoneIn(s, Quoted(text), i + |Quoted(text)|, |s| + 1)
    ensures forall j: nat :: OccursAt(s, Quoted(text), j) ==> j == i || j == i + |text| + 1
  {
    forall j: nat | OccursAt(s, Quoted(text), j) ensures j == i || j == i + |text| + 1 {
      if i < j {
        QuotedOverlap(s, text, i, j);
      }
    }
  }

  // `after` is `config` with the diffID and the label of one base layer turned into those of
  // another, each in the one place it was counted, and with nothing else changed.
  ghost predicate TwoChanges(config: string, was: Base, now: Base, after: string) {
    exists once ::
      && OneChange(config, Quoted(was.diffID), Quoted(now.diffID), once)
      && OneChange(once, Quoted(LABEL_PREFIX + was.digest), Quoted(LABEL_PREFIX + now.digest), after)
  }

  lemma PatchChangesTwoStrings(config: string, was: Base, now: Base)
    requires PatchConfig(config, was, now).Success?
    ensures TwoChanges(config, was, now, PatchConfig(config, was, now).value)
  {
    var once := ReplaceFirst(config, Quoted(was.diffID), Quoted(now.diffID));
    ReplaceIsOneChange(config, Quoted(was.diffID), Quoted(now.diffID));
    ReplaceIsOneChange(once, Quoted(LABEL_PREFIX + was.digest), Quoted(LABEL_PREFIX + now.digest));
  }

  // ---------------------------------------------------------------- rewriting

  function Renamed(layers: seq<string>, was: string, now: string): seq<string> {
    seq(|layers|, i requires 0 <= i < |layers| => if layers[i] == was then now else layers[i])
  }

  function NewManifest(t: Tools, pf: Platform, donor: Platform, config: string): Manifest {
    pf.manifest.(config := Digest(t, config), layers := Renamed(pf.manifest.layers, pf.base.name, donor.base.name))
  }

  // What becomes of one entry, given the new config.
  function NewEntry(t: Tools, pf: Platform, donor: Platform, config: string, e: Entry): Entry {
    if e.name == MANIFEST then e.(body := t.writeManifest(NewManifest(t, pf, donor, config)))
    else if e.name == pf.manifest.config then e.(name := Digest(t, config), body := config)
    else if e.name == pf.base.name then e.(name := donor.base.name, body := donor.base.raw)
    else e
  }

  function NewEntries(t: Tools, pf: Platform, donor: Platform, config: string): Package {
    seq(|pf.entries|, i requires 0 <= i < |pf.entries| => NewEntry(t, pf, donor, config, pf.entries[i]))
  }

  function Rewrite(t: Tools, pf: Platform, donor: Platform): Result<Package, Error> {
    if donor.base.docs != pf.base.docs then Failure(OtherDocuments)
    else
      match PatchConfig(pf.configRaw, pf.base, donor.base)
      case Failure(e) => Failure(e)
      case Success(config) => Success(NewEntries(t, pf, donor, config))
  }

  method VerifySemanticEquivalence(donor: Base, pf: Base) returns (same: bool)
    ensures same <==> donor.docs == pf.docs
  {
    if |donor.docs| != |pf.docs| {
      return false;
    }
    for i := 0 to |donor.docs|
      invariant donor.docs[..i] == pf.docs[..i]
    {
      if donor.docs[i] != pf.docs[i] {
        return false;
      }
    }
    return true;
  }

  method RewriteWithDonorBase(t: Tools, pf: Platform, donor: Platform) returns (result: Result<Package, Error>)
    requires donor.base.docs == pf.base.docs
    ensures result == Rewrite(t, pf, donor)
  {
    var patched := PatchConfig(pf.configRaw, pf.base, donor.base);
    if patched.Failure? {
      return Failure(patched.error);
    }
    var config := patched.value;

    var layers := RenameLayer(pf.manifest.layers, pf.base.name, donor.base.name);
    var manifest := pf.manifest.(config := Digest(t, config), layers := layers);

    var out := RewriteEntries(t, pf, donor, config, manifest);
    return Success(out);
  }

  method RewriteEntries(t: Tools, pf: Platform, donor: Platform, config: string, manifest: Manifest) returns (out: Package)
    requires manifest == NewManifest(t, pf, donor, config)
    ensures out == NewEntries(t, pf, donor, config)
  {
    out := [];
    for i := 0 to |pf.entries|
      invariant |out| == i
      invariant forall j :: 0 <= j < i ==> out[j] == NewEntry(t, pf, donor, config, pf.entries[j])
    {
      var e := pf.entries[i];
      if e.name == MANIFEST {
        e := e.(body := t.writeManifest(manifest));
      } else if e.name == pf.manifest.config {
        e := e.(name := Digest(t, config), body := config);
      } else if e.name == pf.base.name {
        e := e.(name := donor.base.name, body := donor.base.raw);
      }
      out := out + [e];
    }
  }

  method RenameLayer(given: seq<string>, was: string, now: string) returns (layers: seq<string>)
    ensures layers == Renamed(given, was, now)
  {
    layers := given;
    for i := 0 to |layers|
      invariant |layers| == |given|
      invariant forall j :: 0 <= j < |layers| ==> layers[j] == if j < i && given[j] == was then now else given[j]
    {
      if layers[i] == was {
        layers := layers[i := now];
      }
    }
  }

  // ---------------------------------------------------------------- well-formed packages

  // Names are content hashes that do not collide: a name stands for one content wherever
  // it occurs, and the digest of a body for that body.
  ghost predicate ContentAddressed(t: Tools, contentOf: string -> string) {
    forall body :: contentOf(Digest(t, body)) == body
  }

  ghost predicate Addressed(contentOf: string -> string, entries: Package) {
    forall i :: 0 <= i < |entries| && entries[i].name != MANIFEST ==> entries[i].body == contentOf(entries[i].name)
  }

  // A loaded package as the packaging tools emit it: config and layers are separate blobs
  // named by content, beside the manifest.
  ghost predicate WellFormed(contentOf: string -> string, pf: Platform) {
    && Addressed(contentOf, pf.entries)
    && pf.manifest.config != MANIFEST && MANIFEST !in pf.manifest.layers
    && pf.manifest.config !in pf.manifest.layers
  }

  predicate HasName(entries: Package, name: string) {
    exists i :: 0 <= i < |entries| && entries[i].name == name
  }

  lemma {:induction false} BodyOfAddressed(contentOf: string -> string, entries: Package, name: string)
    requires Addressed(contentOf, entries) && name != MANIFEST
    ensures BodyOf(entries, name) == if HasName(entries, name) then Some(contentOf(name)) else None
  {
    if entries != [] {
      var rest := entries[..|entries| - 1];
      BodyOfAddressed(contentOf, rest, name);
      if HasName(rest, name) {
        var i :| 0 <= i < |rest| && rest[i].name == name;
        assert entries[i].name == name;
      }
      if HasName(entries, name) && entries[|entries| - 1].name != name {
        var i :| 0 <= i < |entries| && entries[i].name == name;
        assert rest[i].name == name;
      }
    }
  }

  lemma {:induction false} BodyOfUniform(entries: Package, name: string, body: string)
    requires HasName(entries, name) && forall i :: 0 <= i < |entries| && entries[i].name == name ==> entries[i].body == body
    ensures BodyOf(entries, name) == Some(body)
  {
    if entries[|entries| - 1].name != name {
      var i :| 0 <= i < |entries| && entries[i].name == name;
      assert entries[..|entries| - 1][i].name == name;
      BodyOfUniform(entries[..|entries| - 1], name, body);
    }
  }

  lemma {:induction false} BodyMeansName(entries: Package, name: string)
    requires BodyOf(entries, name).Some?
    ensures HasName(entries, name)
  {
    var last := |entries| - 1;
    if entries[last].name != name {
      BodyMeansName(entries[..last], name);
      var i :| 0 <= i < last && entries[..last][i].name == name;
      assert entries[i].name == name;
    } else {
      assert entries[last].name == name;
    }
  }

  // ---------------------------------------------------------------- reloading

  // Everything the loader checked about a platform.
  predicate Loaded(t: Tools, pf: Platform) {
    Load(t, pf.path, pf.entries) == Success(pf)
  }

  lemma DigestIsNotManifest(t: Tools, body: string)
    ensures Digest(t, body) != MANIFEST
  {
    assert Digest(t, body)[0] == 's' && MANIFEST[0] == 'm';
  }

  lemma {:induction false} BaseIsLayer(t: Tools, entries: Package, layers: seq<string>)
    requires FindBase(t, entries, layers).Success? && FindBase(t, entries, layers).value.Some?
    ensures var base := FindBase(t, entries, layers).value.value;
      base.name in layers && LayerNamed(t, entries, base.name) == Success(Some(base))
  {
    if FindBase(t, entries, layers[1..]).value.Some? {
      BaseIsLayer(t, entries, layers[1..]);
    }
  }

  // What the loader found in a well-formed package.
  lemma LoadedBlobs(t: Tools, contentOf: string -> string, pf: Platform)
    requires Loaded(t, pf) && WellFormed(contentOf, pf)
    ensures HasName(pf.entries, MANIFEST) && HasName(pf.entries, pf.manifest.config) && HasName(pf.entries, pf.base.name)
    ensures pf.base.name in pf.manifest.layers && pf.base.name != MANIFEST && pf.base.name != pf.manifest.config
    ensures pf.base.raw == contentOf(pf.base.name) && pf.base.name != ""
    ensures ReadLayer(t, pf.base.name, pf.base.raw) == Success(Some(pf.base))
  {
    BaseIsLayer(t, pf.entries, pf.manifest.layers);
    BodyMeansName(pf.entries, MANIFEST);
    BodyMeansName(pf.entries, pf.manifest.config);
    BodyMeansName(pf.entries, pf.base.name);
    BodyOfAddressed(contentOf, pf.entries, pf.base.name);
  }

  lemma NewEntriesAddressed(t: Tools, contentOf: string -> string, pf: Platform, donor: Platform, config: string)
    requires ContentAddressed(t, contentOf) && Addressed(contentOf, pf.entries) && donor.base.raw == contentOf(donor.base.name)
    ensures Addressed(contentOf, NewEntries(t, pf, donor, config))
  {}

  lemma NameBecomes(t: Tools, pf: Platform, donor: Platform, config: string, name: string)
    requires HasName(pf.entries, name)
    ensures HasName(NewEntries(t, pf, donor, config),
                    if name == MANIFEST then MANIFEST
                    else if name == pf.manifest.config then Digest(t, config)
                    else if name == pf.base.name then donor.base.name
                    else name)
  {
    var i :| 0 <= i < |pf.entries| && pf.entries[i].name == name;
    assert NewEntries(t, pf, donor, config)[i] == NewEntry(t, pf, donor, config, pf.entries[i]);
  }

  // The new package, name by name: the manifest, the config and the base layer resolve to
  // what was written for them, and every other layer to what it was.
  lemma RewrittenBlob(t: Tools, contentOf: string -> string, pf: Platform, donor: Platform, config: string, name: string)
    requires ContentAddressed(t, contentOf) && Addressed(contentOf, pf.entries) && donor.base.raw == contentOf(donor.base.name)
    requires name != MANIFEST && HasName(NewEntries(t, pf, donor, config), name)
    ensures BodyOf(NewEntries(t, pf, donor, config), name) == Some(contentOf(name))
  {
    NewEntriesAddressed(t, contentOf, pf, donor, config);
    BodyOfAddressed(contentOf, NewEntries(t, pf, donor, config), name);
  }

  lemma RewrittenManifest(t: Tools, pf: Platform, donor: Platform, config: string)
    requires HasName(pf.entries, MANIFEST) && donor.base.name != MANIFEST
    ensures BodyOf(NewEntries(t, pf, donor, config), MANIFEST) == Some(t.writeManifest(NewManifest(t, pf, donor, config)))
  {
    DigestIsNotManifest(t, config);
    NameBecomes(t, pf, donor, config, MANIFEST);
    BodyOfUniform(NewEntries(t, pf, donor, config), MANIFEST, t.writeManifest(NewManifest(t, pf, donor, config)));
  }

  // A layer of the package after the rewrite: the donor's base layer, or the one it was.
  lemma RewrittenLayer(t: Tools, contentOf: string -> string, pf: Platform, donor: Platform, config: string, name: string)
    requires ContentAddressed(t, contentOf) && Loaded(t, pf) && Loaded(t, donor)
    requires WellFormed(contentOf, pf) && WellFormed(contentOf, donor)
    requires name in pf.manifest.layers && LayerNamed(t, pf.entries, name).Success?
    ensures var out := NewEntries(t, pf, donor, config);
      if name == pf.base.name then LayerNamed(t, out, donor.base.name) == Success(Some(donor.base))
      else LayerNamed(t, out, name) == LayerNamed(t, pf.entries, name)
  {
    LoadedBlobs(t, contentOf, pf);
    LoadedBlobs(t, contentOf, donor);
    BodyMeansName(pf.entries, name);
    NameBecomes(t, pf, donor, config, name);
    RewrittenBlob(t, contentOf, pf, donor, config, if name == pf.base.name then donor.base.name else name);
    BodyOfAddressed(contentOf, pf.entries, name);
  }

  // Layer by layer, the base layer of one package becomes that of another.
  predicate LayerMoves(t: Tools, entries: Package, out: Package, was: Base, now: Base, l: string) {
    LayerNamed(t, entries, l).Success? ==>
      if l == was.name then LayerNamed(t, out, now.name) == Success(Some(now))
      else LayerNamed(t, out, l) == LayerNamed(t, entries, l)
  }

  lemma {:induction false} BaseMoves(t: Tools, entries: Package, out: Package, was: Base, now: Base, layers: seq<string>)
    requires forall i :: 0 <= i < |layers| ==> LayerMoves(t, entries, out, was, now, layers[i])
    requires LayerNamed(t, entries, was.name) == Success(Some(was))
    requires var found := FindBase(t, entries, layers); found.Success? && (found.value.Some? ==> found.value.value == was)
    ensures FindBase(t, out, Renamed(layers, was.name, now.name))
         == Success(if FindBase(t, entries, layers).value.Some? then Some(now) else None)
  {
    if layers != [] {
      assert LayerMoves(t, entries, out, was, now, layers[0]);
      BaseMoves(t, entries, out, was, now, layers[1..]);
      assert Renamed(layers, was.name, now.name)[1..] == Renamed(layers[1..], was.name, now.name);
    }
  }

  lemma RewrittenBase(t: Tools, contentOf: string -> string, pf: Platform, donor: Platform, config: string)
    requires ContentAddressed(t, contentOf) && Loaded(t, pf) && Loaded(t, donor)
    requires WellFormed(contentOf, pf) && WellFormed(contentOf, donor)
    ensures FindBase(t, NewEntries(t, pf, donor, config), Renamed(pf.manifest.layers, pf.base.name, donor.base.name))
         == Success(Some(donor.base))
    ensures donor.base.name != ""
  {
    var out := NewEntries(t, pf, donor, config);
    forall i | 0 <= i < |pf.manifest.layers|
      ensures LayerMoves(t, pf.entries, out, pf.base, donor.base, pf.manifest.layers[i])
    {
      if LayerNamed(t, pf.entries, pf.manifest.layers[i]).Success? {
        RewrittenLayer(t, contentOf, pf, donor, config, pf.manifest.layers[i]);
      }
    }
    LoadedBlobs(t, contentOf, donor);
    BaseIsLayer(t, pf.entries, pf.manifest.layers);
    BaseMoves(t, pf.entries, out, pf.base, donor.base, pf.manifest.layers);
  }

  // A rewritten package loads again: with the donor's base layer, the patched config, and
  // a manifest whose config and layers all resolve.
  lemma RewrittenLoads(t: Tools, contentOf: string -> string, pf: Platform, donor: Platform)
    requires ContentAddressed(t, contentOf) && Loaded(t, pf) && Loaded(t, donor)
    requires WellFormed(contentOf, pf) && WellFormed(contentOf, donor)
    requires forall m :: t.readManifest(t.writeManifest(m)) == Some([m])
    requires Rewrite(t, pf, donor).Success?
    ensures var config := PatchConfig(pf.configRaw, pf.base, donor.base).value;
      Load(t, pf.path, Rewrite(t, pf, donor).value) ==
        Success(Platform(pf.path, Rewrite(t, pf, donor).value, NewManifest(t, pf, donor, config), config, donor.base))
  {
    RewriteGives(t, pf, donor);
    var config := PatchConfig(pf.configRaw, pf.base, donor.base).value;
    RewrittenResolves(t, contentOf, pf, donor, config);
    RewrittenBase(t, contentOf, pf, donor, config);
    LoadsRewritten(t, pf, donor, config);
  }

  lemma RewriteGives(t: Tools, pf: Platform, donor: Platform)
    requires Rewrite(t, pf, donor).Success?
    ensures PatchConfig(pf.configRaw, pf.base, donor.base).Success?
    ensures Rewrite(t, pf, donor).value == NewEntries(t, pf, donor, PatchConfig(pf.configRaw, pf.base, donor.base).value)
  {}

  lemma LoadsRewritten(t: Tools, pf: Platform, donor: Platform, config: string)
    requires var out := NewEntries(t, pf, donor, config);
      && BodyOf(out, MANIFEST) == Some(t.writeManifest(NewManifest(t, pf, donor, config)))
      && BodyOf(out, Digest(t, config)) == Some(config)
      && FindBase(t, out, Renamed(pf.manifest.layers, pf.base.name, donor.base.name)) == Success(Some(donor.base))
    requires donor.base.name != "" && forall m :: t.readManifest(t.writeManifest(m)) == Some([m])
    ensures Load(t, pf.path, NewEntries(t, pf, donor, config)) ==
      Success(Platform(pf.path, NewEntries(t, pf, donor, config), NewManifest(t, pf, donor, config), config, donor.base))
  {
    var out, manifest := NewEntries(t, pf, donor, config), NewManifest(t, pf, donor, config);
    assert t.readManifest(t.writeManifest(manifest)) == Some([manifest]);
    LoadsAs(t, pf.path, out, manifest, config, donor.base);
  }

  lemma RewrittenResolves(t: Tools, contentOf: string -> string, pf: Platform, donor: Platform, config: string)
    requires ContentAddressed(t, contentOf) && Loaded(t, pf) && Loaded(t, donor)
    requires WellFormed(contentOf, pf) && WellFormed(contentOf, donor)
    ensures var out := NewEntries(t, pf, donor, config);
      && BodyOf(out, MANIFEST) == Some(t.writeManifest(NewManifest(t, pf, donor, config)))
      && BodyOf(out, Digest(t, config)) == Some(config)
  {
    LoadedBlobs(t, contentOf, pf);
    LoadedBlobs(t, contentOf, donor);
    RewrittenManifest(t, pf, donor, config);
    NameBecomes(t, pf, donor, config, pf.manifest.config);
    DigestIsNotManifest(t, config);
    RewrittenBlob(t, contentOf, pf, donor, config, Digest(t, config));
  }

  lemma LoadsAs(t: Tools, path: string, entries: Package, manifest: Manifest, config: string, base: Base)
    requires BodyOf(entries, MANIFEST).Some? && t.readManifest(BodyOf(entries, MANIFEST).value) == Some([manifest])
    requires BodyOf(entries, manifest.config) == Some(config)
    requires FindBase(t, entries, manifest.layers) == Success(Some(base)) && base.name != ""
    ensures Load(t, path, entries) == Success(Platform(path, entries, manifest, config, base))
  {}

  // `out` has the entries of the package in order, and those that are not the manifest, the
  // config or the base layer exactly as they were.
  predicate Kept(pf: Platform, out: Package) {
    && |out| == |pf.entries|
    && forall i :: 0 <= i < |out| ==>
         && out[i].header == pf.entries[i].header
         && (out[i] != pf.entries[i] ==> pf.entries[i].name in [MANIFEST, pf.manifest.config, pf.base.name])
  }

  // A package is rewritten exactly if its documents are the donor's and each of the two
  // strings to move is counted once, the second one after the first was moved.
  lemma RewriteIsExact(t: Tools, pf: Platform, donor: Platform)
    ensures Rewrite(t, pf, donor).Success? <==>
      && donor.base.docs == pf.base.docs
      && Count(pf.configRaw, "\"" + pf.base.diffID + "\"") == 1
      && var once := ReplaceFirst(pf.configRaw, "\"" + pf.base.diffID + "\"", "\"" + donor.base.diffID + "\"");
         Count(once, "\"" + ("io.crossplane.xpkg:" + pf.base.digest) + "\"") == 1
    ensures donor.base.docs != pf.base.docs ==> Rewrite(t, pf, donor) == Failure(OtherDocuments)
  {}

  // The new manifest: another config, the base layer under the donor's name wherever it
  // stood, and nothing else changed.
  lemma NewManifestKeepsRest(t: Tools, pf: Platform, donor: Platform, config: string)
    ensures var was, now := pf.manifest, NewManifest(t, pf, donor, config);
      && now.repoTags == was.repoTags && |now.layers| == |was.layers|
      && now.config == "sha256:" + t.sha(config)
      && forall i :: 0 <= i < |was.layers| ==>
           now.layers[i] == if was.layers[i] == pf.base.name then donor.base.name else was.layers[i]
  {}

  lemma OtherEntriesSurvive(t: Tools, pf: Platform, donor: Platform)
    requires Rewrite(t, pf, donor).Success?
    ensures Kept(pf, Rewrite(t, pf, donor).value)
  {}
}
