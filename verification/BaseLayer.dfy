/**
 Converging the base layer of all platform packages on that of one of them.
 */
module BaseLayer {
  import opened Wrappers
  import opened Packages

  type Files = map<string, Package>

  // ---------------------------------------------------------------- order of paths

  predicate Less(a: string, b: string) {
    b != "" && (a == "" || a[0] < b[0] || (a[0] == b[0] && Less(a[1..], b[1..])))
  }

  lemma {:induction false} LessIsTotal(a: string, b: string)
    ensures a == b || Less(a, b) || Less(b, a)
  {
    if a != "" && b != "" && a[0] == b[0] {
      LessIsTotal(a[1..], b[1..]);
      assert a == [a[0]] + a[1..] && b == [b[0]] + b[1..];
    }
  }

  lemma {:induction false} LessIsTransitive(a: string, b: string, c: string)
    requires Less(a, b) && Less(b, c)
    ensures Less(a, c)
  {
    if a != "" && a[0] == b[0] && b[0] == c[0] {
      LessIsTransitive(a[1..], b[1..], c[1..]);
    }
  }

  lemma {:induction false} LessIsStrict(a: string)
    ensures !Less(a, a)
  {
    if a != "" {
      LessIsStrict(a[1..]);
    }
  }

  // The two agree up to an index, where the one ends or has the smaller character.
  predicate BeforeAt(a: string, b: string, i: nat) {
    i <= |a| && i < |b| && (forall k :: 0 <= k < i ==> a[k] == b[k]) && (i < |a| ==> a[i] < b[i])
  }

  // The order of Go strings.
  lemma LessIsLexicographic(a: string, b: string)
    ensures Less(a, b) <==> exists i :: BeforeAt(a, b, i)
  {
    if Less(a, b) {
      var i := FirstDifference(a, b);
    } else if exists i :: BeforeAt(a, b, i) {
      var i :| BeforeAt(a, b, i);
      DifferenceDecides(a, b, i);
    }
  }

  lemma {:induction false} FirstDifference(a: string, b: string) returns (i: nat)
    requires Less(a, b)
    ensures BeforeAt(a, b, i)
  {
    i := 0;
    if a != "" && a[0] == b[0] {
      i := FirstDifference(a[1..], b[1..]);
      i := i + 1;
    }
  }

  lemma {:induction false} DifferenceDecides(a: string, b: string, i: nat)
    requires BeforeAt(a, b, i)
    ensures Less(a, b)
  {
    if i > 0 {
      DifferenceDecides(a[1..], b[1..], i - 1);
    }
  }

  predicate Sorted(pfs: seq<Platform>) {
    forall i, j :: 0 <= i < j < |pfs| ==> Less(pfs[i].path, pfs[j].path)
  }

  predicate DistinctPaths(pfs: seq<Platform>) {
    forall i, j :: 0 <= i < j < |pfs| ==> pfs[i].path != pfs[j].path
  }

  function Insert(pf: Platform, pfs: seq<Platform>): seq<Platform> {
    if pfs == [] || !Less(pfs[0].path, pf.path) then [pf] + pfs else [pfs[0]] + Insert(pf, pfs[1..])
  }

  // sort.Slice by path.
  function SortByPath(pfs: seq<Platform>): seq<Platform> {
    if pfs == [] then [] else Insert(pfs[0], SortByPath(pfs[1..]))
  }

  lemma {:induction false} InsertKeepsAll(pf: Platform, pfs: seq<Platform>)
    ensures |Insert(pf, pfs)| == |pfs| + 1
    ensures forall p :: p in Insert(pf, pfs) <==> p == pf || p in pfs
  {
    if pfs != [] {
      InsertKeepsAll(pf, pfs[1..]);
    }
  }

  lemma {:induction false} SortKeepsAll(pfs: seq<Platform>)
    ensures |SortByPath(pfs)| == |pfs| && forall p :: p in SortByPath(pfs) <==> p in pfs
  {
    if pfs != [] {
      SortKeepsAll(pfs[1..]);
      InsertKeepsAll(pfs[0], SortByPath(pfs[1..]));
    }
  }

  lemma {:induction false} InsertSorts(pf: Platform, pfs: seq<Platform>)
    requires Sorted(pfs) && forall p :: p in pfs ==> p.path != pf.path
    ensures Sorted(Insert(pf, pfs))
  {
    var out := Insert(pf, pfs);
    if pfs == [] {
    } else if !Less(pfs[0].path, pf.path) {
      LessIsTotal(pfs[0].path, pf.path);
      assert pfs[0] in pfs;
      forall j | 0 < j < |pfs| ensures Less(pf.path, pfs[j].path) {
        LessIsTransitive(pf.path, pfs[0].path, pfs[j].path);
      }
    } else {
      InsertSorts(pf, pfs[1..]);
      InsertKeepsAll(pf, pfs[1..]);
      forall j | 0 < j < |out| ensures Less(pfs[0].path, out[j].path) {
        assert out[j] == Insert(pf, pfs[1..])[j - 1];
        assert out[j] in Insert(pf, pfs[1..]);
        if out[j] != pf {
          var k :| 0 <= k < |pfs[1..]| && pfs[1..][k] == out[j];
          assert pfs[k + 1] == out[j];
        }
      }
    }
  }

  lemma {:induction false} SortSorts(pfs: seq<Platform>)
    requires DistinctPaths(pfs)
    ensures Sorted(SortByPath(pfs))
  {
    if pfs != [] {
      SortSorts(pfs[1..]);
      SortKeepsAll(pfs[1..]);
      forall p | p in SortByPath(pfs[1..]) ensures p.path != pfs[0].path {
        var k :| 0 <= k < |pfs[1..]| && pfs[1..][k] == p;
        assert pfs[k + 1] == p;
      }
      InsertSorts(pfs[0], SortByPath(pfs[1..]));
    }
  }

  // A sorted list of platforms is determined by which platforms it lists.
  lemma {:induction false} SortedIsUnique(a: seq<Platform>, b: seq<Platform>)
    requires Sorted(a) && Sorted(b) && forall p :: p in a <==> p in b
    ensures a == b
  {
    assert a != [] ==> a[0] in a;
    assert b != [] ==> b[0] in b;
    if a != [] {
      SameHead(a, b);
      forall p ensures p in a[1..] <==> p in b[1..] {
        TailMembers(a, p);
        TailMembers(b, p);
      }
      SortedIsUnique(a[1..], b[1..]);
      assert a == [a[0]] + a[1..] && b == [b[0]] + b[1..];
    }
  }

  lemma SameHead(a: seq<Platform>, b: seq<Platform>)
    requires Sorted(a) && Sorted(b) && a != [] && b != [] && a[0] in b && b[0] in a
    ensures a[0] == b[0]
  {
    var i :| 0 <= i < |b| && b[i] == a[0];
    var j :| 0 <= j < |a| && a[j] == b[0];
    if i > 0 && j > 0 {
      LessIsTransitive(a[0].path, a[j].path, a[0].path);
      LessIsStrict(a[0].path);
    }
  }

  lemma TailMembers(a: seq<Platform>, p: Platform)
    requires Sorted(a) && a != []
    ensures p in a[1..] <==> p in a && p != a[0]
  {
    if p in a[1..] {
      var k :| 0 <= k < |a[1..]| && a[1..][k] == p;
      assert a[k + 1] == p;
      LessIsStrict(p.path);
    }
    if p in a && p != a[0] {
      var k :| 0 <= k < |a| && a[k] == p;
      assert a[1..][k - 1] == p;
    }
  }

  // ---------------------------------------------------------------- the tool

  datatype Outcome = Outcome(files: Files, ok: bool)

  // All packages are loaded before any is written; the first failure ends the run.
  function LoadAll(t: Tools, files: Files, args: seq<string>): Option<seq<Platform>> {
    if args == [] then Some([])
    else if args[0] !in files then None
    else
      match Load(t, args[0], files[args[0]])
      case Failure(_) => None
      case Success(pf) =>
        match LoadAll(t, files, args[1..])
        case None => None
        case Some(rest) => Some([pf] + rest)
  }

  predicate Diverged(donor: Platform, pfs: seq<Platform>) {
    exists i :: 0 <= i < |pfs| && pfs[i].base.diffID != donor.base.diffID
  }

  // Platforms that agree with the donor are skipped; a failure keeps what was written.
  function RewriteAll(t: Tools, files: Files, donor: Platform, pfs: seq<Platform>): Outcome
    decreases |pfs|
  {
    if pfs == [] then Outcome(files, true)
    else if pfs[0].base.diffID == donor.base.diffID then RewriteAll(t, files, donor, pfs[1..])
    else
      match Rewrite(t, pfs[0], donor)
      case Failure(_) => Outcome(files, false)
      case Success(out) => RewriteAll(t, files[pfs[0].path := out], donor, pfs[1..])
  }

  function Normalize(t: Tools, files: Files, args: seq<string>): Outcome {
    if |args| < 2 then Outcome(files, true)
    else
      match LoadAll(t, files, args)
      case None => Outcome(files, false)
      case Some(pfs) => Converge(t, files, SortByPath(pfs))
  }

  function Converge(t: Tools, files: Files, sorted: seq<Platform>): Outcome {
    if sorted == [] || !Diverged(sorted[0], sorted[1..]) then Outcome(files, true)
    else RewriteAll(t, files, sorted[0], sorted[1..])
  }

  class Disk {
    var files: Files

    constructor (files: Files)
      ensures this.files == files
    {
      this.files := files;
    }
  }

  method NormalizeAll(t: Tools, disk: Disk, args: seq<string>) returns (ok: bool)
    modifies disk
    ensures Outcome(disk.files, ok) == Normalize(t, old(disk.files), args)
  {
    if |args| < 2 {
      return true;
    }
    var loaded := LoadEach(t, disk.files, args);
    if loaded.None? {
      return false;
    }
    var pfs := SortByPath(loaded.value);
    if pfs == [] {
      return true;
    }
    ok := ConvergeOnFirst(t, disk, pfs);
  }

  method LoadEach(t: Tools, files: Files, args: seq<string>) returns (loaded: Option<seq<Platform>>)
    ensures loaded == LoadAll(t, files, args)
  {
    var pfs: seq<Platform> := [];
    LoadAllNeeds(t, files, args);
    for i := 0 to |args|
      invariant |pfs| == i
      invariant forall j :: 0 <= j < i ==> args[j] in files && Load(t, args[j], files[args[j]]) == Success(pfs[j])
    {
      assert args[i] in args;
      if args[i] !in files {
        return None;
      }
      var pf := LoadPlatform(t, args[i], files[args[i]]);
      if pf.Failure? {
        return None;
      }
      pfs := pfs + [pf.value];
    }
    LoadAllOf(t, files, args, pfs);
    return Some(pfs);
  }

  method HasDiverged(donor: Platform, pfs: seq<Platform>) returns (diverged: bool)
    ensures diverged == Diverged(donor, pfs)
  {
    for i := 0 to |pfs|
      invariant forall j :: 0 <= j < i ==> pfs[j].base.diffID == donor.base.diffID
    {
      if pfs[i].base.diffID != donor.base.diffID {
        return true;
      }
    }
    return false;
  }

  method ConvergeOnFirst(t: Tools, disk: Disk, pfs: seq<Platform>) returns (ok: bool)
    requires pfs != []
    modifies disk
    ensures Outcome(disk.files, ok) == Converge(t, old(disk.files), pfs)
  {
    var donor := pfs[0];
    var diverged := HasDiverged(donor, pfs[1..]);
    if !diverged {
      return true;
    }
    var rest := pfs[1..];
    for i := 0 to |rest|
      invariant RewriteAll(t, old(disk.files), donor, rest) == RewriteAll(t, disk.files, donor, rest[i..])
    {
      var pf := rest[i];
      assert rest[i..][1..] == rest[i + 1..];
      if pf.base.diffID == donor.base.diffID {
        continue;
      }
      var same := VerifySemanticEquivalence(donor.base, pf.base);
      if !same {
        return false;
      }
      var out := RewriteWithDonorBase(t, pf, donor);
      if out.Failure? {
        return false;
      }
      disk.files := disk.files[pf.path := out.value];
    }
    return true;
  }

  // ---------------------------------------------------------------- what a run leaves

  lemma {:induction false} LoadAllLoads(t: Tools, files: Files, args: seq<string>)
    requires LoadAll(t, files, args).Some?
    ensures var pfs := LoadAll(t, files, args).value;
      |pfs| == |args| && forall i :: 0 <= i < |args| ==>
        args[i] in files && Load(t, args[i], files[args[i]]) == Success(pfs[i]) && pfs[i].path == args[i]
  {
    if args != [] {
      LoadAllLoads(t, files, args[1..]);
    }
  }

  lemma {:induction false} LoadAllOf(t: Tools, files: Files, args: seq<string>, pfs: seq<Platform>)
    requires |pfs| == |args|
    requires forall i :: 0 <= i < |args| ==> args[i] in files && Load(t, args[i], files[args[i]]) == Success(pfs[i])
    ensures LoadAll(t, files, args) == Some(pfs)
  {
    if args != [] {
      LoadAllOf(t, files, args[1..], pfs[1..]);
      assert [pfs[0]] + pfs[1..] == pfs;
    }
  }

  predicate Skipped(t: Tools, donor: Platform, pf: Platform) {
    pf.base.diffID == donor.base.diffID || Rewrite(t, pf, donor).Failure?
  }

  // The files once the loop is past one platform.
  function AfterOne(t: Tools, files: Files, donor: Platform, pf: Platform): Files {
    if Skipped(t, donor, pf) then files else files[pf.path := Rewrite(t, pf, donor).value]
  }

  // What the loop leaves of one file: a listed platform is rewritten if it can be and need
  // be, and every other file stays as it is.
  lemma {:induction false} RewriteAllLeaves(t: Tools, files: Files, donor: Platform, pfs: seq<Platform>, path: string)
    requires DistinctPaths(pfs) && path in files
    ensures var outcome := RewriteAll(t, files, donor, pfs);
      && path in outcome.files
      && (outcome.files[path] == files[path] ||
          exists i :: 0 <= i < |pfs| && pfs[i].path == path && !Skipped(t, donor, pfs[i])
                      && Rewrite(t, pfs[i], donor) == Success(outcome.files[path]))
    decreases |pfs|
  {
    if pfs != [] && !(pfs[0].base.diffID != donor.base.diffID && Rewrite(t, pfs[0], donor).Failure?) {
      RewriteAllLeaves(t, AfterOne(t, files, donor, pfs[0]), donor, pfs[1..], path);
    }
  }

  lemma RewriteAllStep(t: Tools, files: Files, donor: Platform, pfs: seq<Platform>)
    requires pfs != [] && RewriteAll(t, files, donor, pfs).ok
    ensures RewriteAll(t, files, donor, pfs) == RewriteAll(t, AfterOne(t, files, donor, pfs[0]), donor, pfs[1..])
    ensures pfs[0].base.diffID != donor.base.diffID ==> Rewrite(t, pfs[0], donor).Success?
  {}

  lemma AfterOneLeaves(t: Tools, files: Files, donor: Platform, pf: Platform)
    requires pf.path in files && (pf.base.diffID != donor.base.diffID ==> Rewrite(t, pf, donor).Success?)
    ensures var after := AfterOne(t, files, donor, pf);
      && pf.path in after
      && if pf.base.diffID == donor.base.diffID then after[pf.path] == files[pf.path]
         else Rewrite(t, pf, donor) == Success(after[pf.path])
  {}

  // A run of the loop that ends well has rewritten every platform it did not skip.
  lemma {:induction false} RewriteAllConverges(t: Tools, files: Files, donor: Platform, pfs: seq<Platform>, i: nat)
    requires DistinctPaths(pfs) && i < |pfs| && RewriteAll(t, files, donor, pfs).ok && pfs[i].path in files
    ensures var after := RewriteAll(t, files, donor, pfs).files;
      && pfs[i].path in after
      && if pfs[i].base.diffID == donor.base.diffID then after[pfs[i].path] == files[pfs[i].path]
         else Rewrite(t, pfs[i], donor) == Success(after[pfs[i].path])
    decreases |pfs|
  {
    var next := AfterOne(t, files, donor, pfs[0]);
    RewriteAllStep(t, files, donor, pfs);
    if i > 0 {
      assert pfs[1..][i - 1] == pfs[i];
      RewriteAllConverges(t, next, donor, pfs[1..], i - 1);
    } else {
      AfterOneLeaves(t, files, donor, pfs[0]);
      RewriteAllLeaves(t, next, donor, pfs[1..], pfs[0].path);
    }
  }

  // ---------------------------------------------------------------- the promises

  ghost predicate Sane(t: Tools, contentOf: string -> string) {
    ContentAddressed(t, contentOf) && forall m :: t.readManifest(t.writeManifest(m)) == Some([m])
  }

  predicate DistinctArgs(args: seq<string>) {
    forall i, j :: 0 <= i < j < |args| ==> args[i] != args[j]
  }

  // The platforms of a run, sorted; the first is the donor.
  function Platforms(t: Tools, files: Files, args: seq<string>): seq<Platform> {
    match LoadAll(t, files, args)
    case None => []
    case Some(pfs) => SortByPath(pfs)
  }

  lemma PlatformsAre(t: Tools, files: Files, args: seq<string>)
    requires LoadAll(t, files, args).Some? && DistinctArgs(args)
    ensures var pfs := Platforms(t, files, args);
      && |pfs| == |args| && Sorted(pfs) && DistinctPaths(pfs)
      && (forall p :: p in pfs ==> p.path in args && p.path in files && Load(t, p.path, files[p.path]) == Success(p))
      && (forall a :: a in args ==> exists p :: p in pfs && p.path == a)
  {
    var loaded, pfs := LoadAll(t, files, args).value, Platforms(t, files, args);
    LoadAllLoads(t, files, args);
    SortKeepsAll(loaded);
    SortSorts(loaded);
    forall i, j | 0 <= i < j < |pfs| ensures pfs[i].path != pfs[j].path {
      LessIsStrict(pfs[i].path);
    }
    forall a | a in args ensures exists p :: p in pfs && p.path == a {
      var i :| 0 <= i < |args| && args[i] == a;
      assert loaded[i] in pfs;
    }
    forall p | p in pfs ensures p.path in args && p.path in files && Load(t, p.path, files[p.path]) == Success(p) {
      var i :| 0 <= i < |loaded| && loaded[i] == p;
    }
  }

  // After a run that succeeds every package loads with the donor's base layer content. Its
  // layer digest is the donor's too, except where the content agreed from the start under
  // another compression: such a package is skipped. Its other entries are kept, and its
  // config differs in the two strings that name the base layer, if at all.
  lemma EveryPackageConverges(t: Tools, contentOf: string -> string, files: Files, args: seq<string>, pf: Platform)
    requires Sane(t, contentOf) && DistinctArgs(args) && |args| >= 2 && Normalize(t, files, args).ok
    requires forall p :: p in Platforms(t, files, args) ==> WellFormed(contentOf, p)
    requires pf in Platforms(t, files, args)
    ensures var donor, after := Platforms(t, files, args)[0], Normalize(t, files, args).files;
      pf.path in after && Kept(pf, after[pf.path]) && Converged(t, pf, donor, Load(t, pf.path, after[pf.path]))
  {
    PlatformsAre(t, files, args);
    var donor := Platforms(t, files, args)[0];
    assert donor in Platforms(t, files, args);
    PackageAfter(t, files, args, pf);
    LoadedFrom(t, pf.path, files[pf.path], pf);
    LoadedFrom(t, donor.path, files[donor.path], donor);
    LoadsConverged(t, contentOf, pf, donor, Normalize(t, files, args).files[pf.path]);
  }

  ghost predicate Converged(t: Tools, pf: Platform, donor: Platform, now: Result<Platform, Error>) {
    && now.Success?
    && now.value.base.diffID == donor.base.diffID
    && (now.value.base.digest == donor.base.digest <==>
          (pf.base.diffID == donor.base.diffID ==> pf.base.digest == donor.base.digest))
    && (now.value == pf || TwoChanges(pf.configRaw, pf.base, donor.base, now.value.configRaw))
  }

  // A package that agreed with the donor and was left alone, or did not and was rewritten.
  predicate Settled(t: Tools, pf: Platform, donor: Platform, now: Package) {
    if pf.base.diffID == donor.base.diffID then now == pf.entries else Rewrite(t, pf, donor) == Success(now)
  }

  lemma LoadsConverged(t: Tools, contentOf: string -> string, pf: Platform, donor: Platform, now: Package)
    requires Sane(t, contentOf) && Loaded(t, pf) && Loaded(t, donor)
    requires WellFormed(contentOf, pf) && WellFormed(contentOf, donor) && Settled(t, pf, donor, now)
    ensures Kept(pf, now) && Converged(t, pf, donor, Load(t, pf.path, now))
  {
    if pf.base.diffID != donor.base.diffID {
      RewrittenLoads(t, contentOf, pf, donor);
      OtherEntriesSurvive(t, pf, donor);
      RewriteGives(t, pf, donor);
      PatchChangesTwoStrings(pf.configRaw, pf.base, donor.base);
    }
  }

  // What a run that ends well leaves of a listed package.
  lemma PackageAfter(t: Tools, files: Files, args: seq<string>, pf: Platform)
    requires DistinctArgs(args) && |args| >= 2 && Normalize(t, files, args).ok && pf in Platforms(t, files, args)
    ensures var donor, after := Platforms(t, files, args)[0], Normalize(t, files, args).files;
      pf.path in after && Settled(t, pf, donor, after[pf.path])
  {
    var pfs := Platforms(t, files, args);
    PlatformsAre(t, files, args);
    LoadedFrom(t, pf.path, files[pf.path], pf);
    var i :| 0 <= i < |pfs| && pfs[i] == pf;
    if Diverged(pfs[0], pfs[1..]) {
      ConvergedAt(t, files, pfs, i);
    } else {
      assert i > 0 ==> pfs[1..][i - 1] == pf;
    }
  }

  lemma ConvergedAt(t: Tools, files: Files, pfs: seq<Platform>, i: nat)
    requires i < |pfs| && DistinctPaths(pfs) && pfs[i].path in files && files[pfs[i].path] == pfs[i].entries
    requires RewriteAll(t, files, pfs[0], pfs[1..]).ok
    ensures var after := RewriteAll(t, files, pfs[0], pfs[1..]).files;
      pfs[i].path in after && Settled(t, pfs[i], pfs[0], after[pfs[i].path])
  {
    if i == 0 {
      DonorStays(t, files, pfs);
    } else {
      OtherConverges(t, files, pfs, i);
    }
  }

  lemma OtherConverges(t: Tools, files: Files, pfs: seq<Platform>, i: nat)
    requires 0 < i < |pfs| && DistinctPaths(pfs) && pfs[i].path in files
    requires RewriteAll(t, files, pfs[0], pfs[1..]).ok
    ensures var after := RewriteAll(t, files, pfs[0], pfs[1..]).files;
      && pfs[i].path in after
      && if pfs[i].base.diffID == pfs[0].base.diffID then after[pfs[i].path] == files[pfs[i].path]
         else Rewrite(t, pfs[i], pfs[0]) == Success(after[pfs[i].path])
  {
    TailDistinct(pfs);
    assert pfs[1..][i - 1] == pfs[i];
    RewriteAllConverges(t, files, pfs[0], pfs[1..], i - 1);
  }

  lemma TailDistinct(pfs: seq<Platform>)
    requires pfs != [] && DistinctPaths(pfs)
    ensures DistinctPaths(pfs[1..]) && forall k :: 0 <= k < |pfs[1..]| ==> pfs[1..][k].path != pfs[0].path
  {
    forall k | 0 <= k < |pfs[1..]| ensures pfs[1..][k].path != pfs[0].path {
      assert pfs[1..][k] == pfs[k + 1];
    }
  }

  lemma DonorStays(t: Tools, files: Files, pfs: seq<Platform>)
    requires pfs != [] && DistinctPaths(pfs) && pfs[0].path in files
    ensures var after := RewriteAll(t, files, pfs[0], pfs[1..]).files;
      pfs[0].path in after && after[pfs[0].path] == files[pfs[0].path]
  {
    TailDistinct(pfs);
    RewriteAllLeaves(t, files, pfs[0], pfs[1..], pfs[0].path);
  }

  lemma LoadedFrom(t: Tools, path: string, entries: Package, pf: Platform)
    requires Load(t, path, entries) == Success(pf)
    ensures pf.path == path && pf.entries == entries && Loaded(t, pf)
  {}

  // Fewer than two packages are not looked at.
  lemma FewPackagesAreLeftAlone(t: Tools, files: Files, args: seq<string>)
    requires |args| < 2
    ensures Normalize(t, files, args) == Outcome(files, true)
  {}

  // A run of two or more succeeds exactly if every package loads and every one whose base
  // layer content is not the donor's can be rewritten.
  lemma NormalizeSucceedsExactly(t: Tools, files: Files, args: seq<string>)
    requires DistinctArgs(args) && |args| >= 2
    ensures Normalize(t, files, args).ok <==>
      && (forall a :: a in args ==> a in files && Load(t, a, files[a]).Success?)
      && forall p :: p in Platforms(t, files, args) && p.base.diffID != Platforms(t, files, args)[0].base.diffID ==>
           Rewrite(t, p, Platforms(t, files, args)[0]).Success?
  {
    LoadAllNeeds(t, files, args);
    if LoadAll(t, files, args).Some? {
      var pfs := Platforms(t, files, args);
      PlatformsAre(t, files, args);
      RewriteAllSucceeds(t, files, pfs[0], pfs[1..]);
      assert pfs == [pfs[0]] + pfs[1..];
    }
  }

  lemma {:induction false} RewriteAllSucceeds(t: Tools, files: Files, donor: Platform, pfs: seq<Platform>)
    ensures RewriteAll(t, files, donor, pfs).ok <==>
      forall p :: p in pfs && p.base.diffID != donor.base.diffID ==> Rewrite(t, p, donor).Success?
    decreases |pfs|
  {
    if pfs != [] {
      assert forall p :: p in pfs <==> p == pfs[0] || p in pfs[1..];
      if pfs[0].base.diffID == donor.base.diffID || Rewrite(t, pfs[0], donor).Success? {
        RewriteAllSucceeds(t, AfterOne(t, files, donor, pfs[0]), donor, pfs[1..]);
      }
    }
  }

  // A second run finds nothing to do.
  lemma SecondRunWritesNothing(t: Tools, contentOf: string -> string, files: Files, args: seq<string>)
    requires Sane(t, contentOf) && DistinctArgs(args) && Normalize(t, files, args).ok
    requires forall p :: p in Platforms(t, files, args) ==> WellFormed(contentOf, p)
    ensures var after := Normalize(t, files, args).files;
      Normalize(t, after, args) == Outcome(after, true)
  {
    if |args| >= 2 {
      var after := Normalize(t, files, args).files;
      var diffID := Platforms(t, files, args)[0].base.diffID;
      PlatformsAre(t, files, args);
      forall a | a in args ensures LoadsWith(t, after, a, diffID) {
        var pf :| pf in Platforms(t, files, args) && pf.path == a;
        EveryPackageConverges(t, contentOf, files, args, pf);
      }
      ConsistentIsLeftAlone(t, after, args, diffID);
    }
  }

  predicate LoadsWith(t: Tools, files: Files, path: string, diffID: string) {
    path in files && Load(t, path, files[path]).Success? && Load(t, path, files[path]).value.base.diffID == diffID
  }

  // Packages that agree on the base layer's content are not touched.
  lemma ConsistentIsLeftAlone(t: Tools, files: Files, args: seq<string>, diffID: string)
    requires forall a :: a in args ==> LoadsWith(t, files, a, diffID)
    ensures Normalize(t, files, args) == Outcome(files, true)
  {
    LoadAllNeeds(t, files, args);
    var pfs := LoadAll(t, files, args).value;
    LoadAllLoads(t, files, args);
    SortKeepsAll(pfs);
    var sorted := SortByPath(pfs);
    forall i | 0 <= i < |sorted| ensures sorted[i].base.diffID == diffID {
      assert sorted[i] in sorted;
      var j :| 0 <= j < |pfs| && pfs[j] == sorted[i];
      assert args[j] in args && LoadsWith(t, files, args[j], diffID);
    }
  }

  // The smallest package with a given config and base layer blob.
  function Pack(t: Tools, config: string, layer: string): Package {
    [Entry("", MANIFEST, t.writeManifest(PackManifest(t, config, layer))),
     Entry("", Digest(t, config), config),
     Entry("", Digest(t, layer), layer)]
  }

  function PackManifest(t: Tools, config: string, layer: string): Manifest {
    Manifest(Digest(t, config), [], [Digest(t, layer)])
  }

  lemma PackLoads(t: Tools, contentOf: string -> string, path: string, config: string, layer: string, base: Base)
    requires Sane(t, contentOf) && ReadLayer(t, Digest(t, layer), layer) == Success(Some(base))
    ensures Load(t, path, Pack(t, config, layer))
         == Success(Platform(path, Pack(t, config, layer), PackManifest(t, config, layer), config, base))
  {
    var pack, manifest := Pack(t, config, layer), PackManifest(t, config, layer);
    DigestIsNotManifest(t, config);
    DigestIsNotManifest(t, layer);
    assert Digest(t, layer) == Digest(t, config) ==> contentOf(Digest(t, layer)) == config;
    PackBodies(pack);
    assert t.readManifest(t.writeManifest(manifest)) == Some([manifest]);
    assert manifest.layers[1..] == [] && FindBase(t, pack, []) == Success(None);
    LoadsAs(t, path, pack, manifest, config, base);
  }

  lemma PackBodies(pack: Package)
    requires |pack| == 3
    ensures BodyOf(pack, pack[2].name) == Some(pack[2].body)
    ensures pack[1].name != pack[2].name ==> BodyOf(pack, pack[1].name) == Some(pack[1].body)
    ensures pack[0].name !in [pack[1].name, pack[2].name] ==> BodyOf(pack, pack[0].name) == Some(pack[0].body)
  {
    var two, one := pack[..2], pack[..1];
    assert two[..1] == one && one[..0] == [];
    assert pack[0].name != pack[2].name ==> BodyOf(pack, pack[0].name) == BodyOf(two, pack[0].name);
    assert pack[0].name != pack[1].name ==> BodyOf(two, pack[0].name) == BodyOf(one, pack[0].name);
  }

  // The exception is real. Two packages whose base layers are the same content compressed
  // in two ways pass as consistent and keep two different layer digests.
  lemma RecompressedLayerIsSkipped(t: Tools, contentOf: string -> string, config: string, a: Base, b: Base)
    requires Sane(t, contentOf) && a.raw != b.raw && a.diffID == b.diffID
    requires ReadLayer(t, Digest(t, a.raw), a.raw) == Success(Some(a))
    requires ReadLayer(t, Digest(t, b.raw), b.raw) == Success(Some(b))
    ensures var files := map["amd64" := Pack(t, config, a.raw), "arm64" := Pack(t, config, b.raw)];
      && Normalize(t, files, ["amd64", "arm64"]) == Outcome(files, true)
      && Load(t, "amd64", files["amd64"]).Success? && Load(t, "arm64", files["arm64"]).Success?
      && Load(t, "amd64", files["amd64"]).value.base.digest != Load(t, "arm64", files["arm64"]).value.base.digest
  {
    var files := map["amd64" := Pack(t, config, a.raw), "arm64" := Pack(t, config, b.raw)];
    PackLoads(t, contentOf, "amd64", config, a.raw, a);
    PackLoads(t, contentOf, "arm64", config, b.raw, b);
    assert "amd64"[1] != "arm64"[1];
    ConsistentIsLeftAlone(t, files, ["amd64", "arm64"], a.diffID);
    assert contentOf(a.digest) == a.raw && contentOf(b.digest) == b.raw;
  }

  // The order of the arguments does not matter, whether the run succeeds or not.
  lemma ArgumentOrderDoesNotMatter(t: Tools, files: Files, a: seq<string>, b: seq<string>)
    requires DistinctArgs(a) && DistinctArgs(b) && |a| == |b| && forall x :: x in a <==> x in b
    ensures Normalize(t, files, a) == Normalize(t, files, b)
  {
    LoadAllNeeds(t, files, a);
    LoadAllNeeds(t, files, b);
    if LoadAll(t, files, a).Some? {
      PlatformsAre(t, files, a);
      PlatformsAre(t, files, b);
      SamePlatforms(t, files, a, b);
      SamePlatforms(t, files, b, a);
      SortedIsUnique(Platforms(t, files, a), Platforms(t, files, b));
    }
  }

  lemma {:induction false} LoadAllNeeds(t: Tools, files: Files, args: seq<string>)
    ensures LoadAll(t, files, args).Some? <==> forall a :: a in args ==> a in files && Load(t, a, files[a]).Success?
  {
    if args != [] {
      LoadAllNeeds(t, files, args[1..]);
      assert forall a :: a in args <==> a == args[0] || a in args[1..];
    }
  }

  lemma SamePlatforms(t: Tools, files: Files, a: seq<string>, b: seq<string>)
    requires DistinctArgs(a) && DistinctArgs(b) && forall x :: x in a ==> x in b
    requires LoadAll(t, files, a).Some? && LoadAll(t, files, b).Some?
    ensures forall p :: p in Platforms(t, files, a) ==> p in Platforms(t, files, b)
  {
    PlatformsAre(t, files, a);
    PlatformsAre(t, files, b);
    forall p | p in Platforms(t, files, a) ensures p in Platforms(t, files, b) {
      var q :| q in Platforms(t, files, b) && q.path == p.path;
    }
  }

  // Nothing but the listed packages is ever written, and of these neither the donor's nor
  // any whose documents are not the donor's, however the run ends.
  lemma OthersAreNeverAltered(t: Tools, files: Files, args: seq<string>, path: string)
    requires DistinctArgs(args) && path in files
    requires path in args ==> forall p :: p in Platforms(t, files, args) && p.path == path ==>
      p == Platforms(t, files, args)[0] || p.base.docs != Platforms(t, files, args)[0].base.docs
    ensures path in Normalize(t, files, args).files && Normalize(t, files, args).files[path] == files[path]
  {
    if |args| >= 2 && LoadAll(t, files, args).Some? {
      PlatformsAre(t, files, args);
      var pfs := Platforms(t, files, args);
      if Diverged(pfs[0], pfs[1..]) {
        RewriteAllLeaves(t, files, pfs[0], pfs[1..], path);
        forall i | 0 <= i < |pfs[1..]| && pfs[1..][i].path == path ensures Skipped(t, pfs[0], pfs[1..][i]) {
          assert pfs[1..][i] == pfs[i + 1] && pfs[i + 1] in pfs;
        }
      }
    }
  }
}
