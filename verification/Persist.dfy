/**
 Recording what was last applied: a read-modify-write of one annotation, retried while
 other clients keep winning the race on the object's resource version.
 */
module Persist {
  // ---------------------------------------------------------------- the API server

  // A stored resource. Its version changes with every write.
  datatype Stored<S> = Stored(spec: S, annotations: map<string, string>, version: nat)

  // A write by another client.
  datatype Foreign<S> = SetSpec(spec: S) | Annotate(key: string, text: string) | Unannotate(key: string)

  function After<S>(o: Stored<S>, w: Foreign<S>): Stored<S> {
    var bumped := o.(version := o.version + 1);
    match w
    case SetSpec(spec) => bumped.(spec := spec)
    case Annotate(key, text) => bumped.(annotations := o.annotations[key := text])
    case Unannotate(key) => bumped.(annotations := o.annotations - {key})
  }

  // Another client changes the spec, or one annotation, and nothing else; and the version.
  lemma ForeignWriteIs<S>(o: Stored<S>, w: Foreign<S>)
    ensures var next := After(o, w);
      && next.version == o.version + 1
      && next.spec == (if w.SetSpec? then w.spec else o.spec)
      && forall k :: Annotation(next.annotations, k) ==
           if w.Annotate? && k == w.key then w.text
           else if w.Unannotate? && k == w.key then ""
           else Annotation(o.annotations, k)
  {}

  function AfterAll<S>(o: Stored<S>, ws: seq<Foreign<S>>): Stored<S>
    decreases |ws|
  {
    if ws == [] then o else AfterAll(After(o, ws[0]), ws[1..])
  }

  // A missing annotation reads as the empty string.
  function Annotation(m: map<string, string>, key: string): string {
    if key in m then m[key] else ""
  }

  // What goes on around one attempt: whether the read fails, what other clients write
  // between the read and the write, and whether the write is answered. An unanswered
  // write may still have reached the server.
  datatype Attempt<S> = Attempt(getFails: bool, meanwhile: seq<Foreign<S>>, put: Answer)

  datatype Answer = Answered | Lost(landed: bool)

  class Api<S> {
    var o: Stored<S>
    var puts: nat

    constructor (o: Stored<S>)
      ensures this.o == o && puts == 0
    {
      this.o, puts := o, 0;
    }

    method Interfere(ws: seq<Foreign<S>>)
      modifies this
      ensures o == AfterAll(old(o), ws) && puts == old(puts)
    {
      for i := 0 to |ws|
        invariant AfterAll(o, ws[i..]) == AfterAll(old(o), ws) && puts == old(puts)
      {
        o := After(o, ws[i]);
        assert ws[i..][1..] == ws[i + 1..];
      }
    }

    // A whole-object write, refused when the object has changed since it was read.
    method Update(latest: Stored<S>) returns (conflict: bool)
      modifies this
      ensures conflict == (latest.version != old(o).version)
      ensures o == if conflict then old(o) else latest.(version := latest.version + 1)
      ensures puts == if conflict then old(puts) else old(puts) + 1
    {
      conflict := latest.version != o.version;
      if !conflict {
        o, puts := latest.(version := latest.version + 1), puts + 1;
      }
    }
  }

  // ---------------------------------------------------------------- the loop

  // retry.DefaultBackoff.
  const STEPS := 4

  datatype Outcome<S> = Outcome(ok: bool, o: Stored<S>, puts: nat)

  // The attempts of one persist, in order; running out of them is an error.
  function Run<S>(o: Stored<S>, key: string, value: string, attempts: seq<Attempt<S>>): Outcome<S>
    decreases |attempts|
  {
    if attempts == [] then Outcome(false, o, 0)
    else
      var now := attempts[0];
      var current := AfterAll(o, now.meanwhile);
      var written := o.(annotations := o.annotations[key := value], version := o.version + 1);
      if now.getFails then Outcome(false, o, 0)
      else if Annotation(o.annotations, key) == value then Outcome(true, current, 0)
      else if now.put.Lost? && !now.put.landed then Outcome(false, current, 0)
      else if current.version != o.version then
        if now.put.Lost? then Outcome(false, current, 0) else Run(current, key, value, attempts[1..])
      else Outcome(now.put.Answered?, written, 1)
  }

  // The metadata of the in-memory object.
  class ObjectMeta {
    var annotations: map<string, string>

    constructor (annotations: map<string, string>)
      ensures this.annotations == annotations
    {
      this.annotations := annotations;
    }
  }

  method PersistAnnotation<S>(api: Api<S>, cr: ObjectMeta, key: string, value: string, attempts: seq<Attempt<S>>)
    returns (ok: bool)
    requires |attempts| == STEPS
    modifies api, cr
    ensures var run := Run(old(api.o), key, value, attempts);
      ok == run.ok && api.o == run.o && api.puts == old(api.puts) + run.puts
    ensures ok <==> exists i :: SucceedsFirst(old(api.o), key, value, attempts, i)
    ensures cr.annotations == if ok then old(cr.annotations)[key := value] else old(cr.annotations)
  {
    SuccessIsExact(api.o, key, value, attempts);
    for i := 0 to STEPS
      invariant cr.annotations == old(cr.annotations)
      invariant api.puts == old(api.puts)
      invariant Run(old(api.o), key, value, attempts) == Run(api.o, key, value, attempts[i..])
    {
      var now := attempts[i];
      assert attempts[i..][1..] == attempts[i + 1..];
      if now.getFails {
        return false;
      }
      var latest := api.o;
      api.Interfere(now.meanwhile);
      if Annotation(latest.annotations, key) != value {
        if now.put == Lost(false) {
          return false;
        }
        var conflict := api.Update(latest.(annotations := latest.annotations[key := value]));
        if now.put.Lost? {
          return false;
        }
        if conflict {
          continue;
        }
      }
      cr.annotations := cr.annotations[key := value];
      return true;
    }
    return false;
  }

  // ---------------------------------------------------------------- when it succeeds

  // What the i-th attempt reads: the object after everything written during the earlier ones.
  function ReadBy<S>(o: Stored<S>, attempts: seq<Attempt<S>>, i: nat): Stored<S>
    requires i <= |attempts|
  {
    if i == 0 then o else AfterAll(ReadBy(o, attempts, i - 1), attempts[i - 1].meanwhile)
  }

  // The attempt read something else, and its write was answered with a conflict, because
  // somebody else had written.
  predicate LosesRace<S>(o: Stored<S>, key: string, value: string, attempts: seq<Attempt<S>>, i: nat)
    requires i < |attempts|
  {
    var now := attempts[i];
    !now.getFails && Annotation(ReadBy(o, attempts, i).annotations, key) != value && now.put.Answered? && now.meanwhile != []
  }

  // The attempt found the value there, or nobody else wrote and its own write was answered.
  predicate Succeeds<S>(o: Stored<S>, key: string, value: string, attempts: seq<Attempt<S>>, i: nat)
    requires i < |attempts|
  {
    var now := attempts[i];
    !now.getFails &&
    (Annotation(ReadBy(o, attempts, i).annotations, key) == value || (now.put.Answered? && now.meanwhile == []))
  }

  predicate SucceedsFirst<S>(o: Stored<S>, key: string, value: string, attempts: seq<Attempt<S>>, i: nat) {
    i < |attempts| && Succeeds(o, key, value, attempts, i) && forall j :: 0 <= j < i ==> LosesRace(o, key, value, attempts, j)
  }

  lemma {:induction false} ReadByLater<S>(o: Stored<S>, attempts: seq<Attempt<S>>, i: nat)
    requires 0 < i <= |attempts|
    ensures ReadBy(o, attempts, i) == ReadBy(AfterAll(o, attempts[0].meanwhile), attempts[1..], i - 1)
  {
    if i > 1 {
      ReadByLater(o, attempts, i - 1);
    }
  }

  // An attempt that loses the race leaves the rest to the later ones.
  lemma LaterSucceeds<S>(o: Stored<S>, key: string, value: string, attempts: seq<Attempt<S>>, i: nat)
    requires 0 < i <= |attempts| && LosesRace(o, key, value, attempts, 0)
    ensures SucceedsFirst(o, key, value, attempts, i)
      <==> SucceedsFirst(AfterAll(o, attempts[0].meanwhile), key, value, attempts[1..], i - 1)
  {
    var next, rest := AfterAll(o, attempts[0].meanwhile), attempts[1..];
    forall j | 0 < j < |attempts|
      ensures LosesRace(o, key, value, attempts, j) <==> LosesRace(next, key, value, rest, j - 1)
      ensures Succeeds(o, key, value, attempts, j) <==> Succeeds(next, key, value, rest, j - 1)
    {
      ReadByLater(o, attempts, j);
    }
    if SucceedsFirst(next, key, value, rest, i - 1) {
      forall j | 0 <= j < i ensures LosesRace(o, key, value, attempts, j) {
        assert j > 0 ==> LosesRace(next, key, value, rest, j - 1);
      }
    }
    if SucceedsFirst(o, key, value, attempts, i) {
      forall j | 0 <= j < i - 1 ensures LosesRace(next, key, value, rest, j) {
        assert LosesRace(o, key, value, attempts, j + 1);
      }
    }
  }

  // What success in the i-th attempt leaves: the object as the others made it if the value
  // was there, else the object read with the annotation set, in one write.
  lemma {:induction false} SuccessLeaves<S>(o: Stored<S>, key: string, value: string, attempts: seq<Attempt<S>>, i: nat)
    requires SucceedsFirst(o, key, value, attempts, i)
    ensures var read := ReadBy(o, attempts, i);
      Run(o, key, value, attempts) ==
        if Annotation(read.annotations, key) == value then Outcome(true, AfterAll(read, attempts[i].meanwhile), 0)
        else Outcome(true, Stored(read.spec, read.annotations[key := value], read.version + 1), 1)
    decreases |attempts|
  {
    if i > 0 {
      assert LosesRace(o, key, value, attempts, 0);
      VersionsCount(o, attempts[0].meanwhile);
      LaterSucceeds(o, key, value, attempts, i);
      ReadByLater(o, attempts, i);
      SuccessLeaves(AfterAll(o, attempts[0].meanwhile), key, value, attempts[1..], i - 1);
    }
  }

  lemma {:induction false} SuccessHasAttempt<S>(o: Stored<S>, key: string, value: string, attempts: seq<Attempt<S>>)
    returns (i: nat)
    requires Run(o, key, value, attempts).ok
    ensures SucceedsFirst(o, key, value, attempts, i)
    decreases |attempts|
  {
    VersionsCount(o, attempts[0].meanwhile);
    if Succeeds(o, key, value, attempts, 0) {
      i := 0;
    } else {
      assert LosesRace(o, key, value, attempts, 0);
      i := SuccessHasAttempt(AfterAll(o, attempts[0].meanwhile), key, value, attempts[1..]);
      i := i + 1;
      LaterSucceeds(o, key, value, attempts, i);
    }
  }

  // The first attempt that neither succeeds nor loses the race ends the loop: its read failed,
  // or its write was not answered, and then it may still have been stored.
  lemma {:induction false} FailureLeaves<S>(o: Stored<S>, key: string, value: string, attempts: seq<Attempt<S>>, i: nat)
    requires i < |attempts| && forall j :: 0 <= j < i ==> LosesRace(o, key, value, attempts, j)
    requires !Succeeds(o, key, value, attempts, i) && !LosesRace(o, key, value, attempts, i)
    ensures var read, now := ReadBy(o, attempts, i), attempts[i];
      Run(o, key, value, attempts) ==
        if now.getFails then Outcome(false, read, 0)
        else if now.put == Lost(true) && now.meanwhile == [] then
          Outcome(false, Stored(read.spec, read.annotations[key := value], read.version + 1), 1)
        else Outcome(false, AfterAll(read, now.meanwhile), 0)
    decreases |attempts|
  {
    VersionsCount(o, attempts[0].meanwhile);
    if i > 0 {
      var next, rest := AfterAll(o, attempts[0].meanwhile), attempts[1..];
      forall j | 0 < j < |attempts|
        ensures LosesRace(o, key, value, attempts, j) <==> LosesRace(next, key, value, rest, j - 1)
        ensures Succeeds(o, key, value, attempts, j) <==> Succeeds(next, key, value, rest, j - 1)
      {
        ReadByLater(o, attempts, j);
      }
      assert LosesRace(o, key, value, attempts, 0);
      forall j | 0 <= j < i - 1 ensures LosesRace(next, key, value, rest, j) {
        assert LosesRace(o, key, value, attempts, j + 1);
      }
      ReadByLater(o, attempts, i);
      FailureLeaves(next, key, value, rest, i - 1);
    }
  }

  // The loop succeeds exactly if some attempt does after all earlier ones lost the race.
  lemma SuccessIsExact<S>(o: Stored<S>, key: string, value: string, attempts: seq<Attempt<S>>)
    ensures Run(o, key, value, attempts).ok <==> exists i :: SucceedsFirst(o, key, value, attempts, i)
  {
    if Run(o, key, value, attempts).ok {
      var i := SuccessHasAttempt(o, key, value, attempts);
    } else if exists i :: SucceedsFirst(o, key, value, attempts, i) {
      var i :| SucceedsFirst(o, key, value, attempts, i);
      SuccessLeaves(o, key, value, attempts, i);
    }
  }

  // Three attempts may lose the race: a free fourth one still writes the annotation.
  lemma FourthAttemptSucceeds<S>(o: Stored<S>, key: string, value: string, attempts: seq<Attempt<S>>)
    requires |attempts| == STEPS && Annotation(o.annotations, key) != value
    requires forall i :: 0 <= i < 3 ==> !attempts[i].getFails && attempts[i].put.Answered? && attempts[i].meanwhile != []
    requires forall a, w :: a in attempts && w in a.meanwhile ==> SparesKey(w, key)
    requires attempts[3] == Attempt(false, [], Answered)
    ensures var run := Run(o, key, value, attempts);
      run.ok && run.puts == 1 && Annotation(run.o.annotations, key) == value
  {
    forall i | 0 <= i <= 3 ensures Annotation(ReadBy(o, attempts, i).annotations, key) == Annotation(o.annotations, key) {
      SparedReads(o, key, attempts, i);
    }
    assert SucceedsFirst(o, key, value, attempts, 3);
    SuccessLeaves(o, key, value, attempts, 3);
  }

  lemma {:induction false} SparedReads<S>(o: Stored<S>, key: string, attempts: seq<Attempt<S>>, i: nat)
    requires i <= |attempts| && forall a, w :: a in attempts && w in a.meanwhile ==> SparesKey(w, key)
    ensures Annotation(ReadBy(o, attempts, i).annotations, key) == Annotation(o.annotations, key)
  {
    if i > 0 {
      SparedReads(o, key, attempts, i - 1);
      SparedKeyKept(ReadBy(o, attempts, i - 1), attempts[i - 1].meanwhile, key);
    }
  }

  // ---------------------------------------------------------------- what it promises

  // The writes other clients got in while the loop ran.
  function Interference<S>(o: Stored<S>, key: string, value: string, attempts: seq<Attempt<S>>): seq<Foreign<S>>
    decreases |attempts|
  {
    if attempts == [] || attempts[0].getFails then []
    else
      var now := attempts[0];
      var retried := Annotation(o.annotations, key) != value && now.put.Answered? && now.meanwhile != [];
      now.meanwhile + if retried then Interference(AfterAll(o, now.meanwhile), key, value, attempts[1..]) else []
  }

  lemma {:induction false} AfterAllConcat<S>(o: Stored<S>, a: seq<Foreign<S>>, b: seq<Foreign<S>>)
    ensures AfterAll(o, a + b) == AfterAll(AfterAll(o, a), b)
    decreases |a|
  {
    if a == [] {
      assert a + b == b;
    } else {
      assert (a + b)[1..] == a[1..] + b;
      AfterAllConcat(After(o, a[0]), a[1..], b);
    }
  }

  lemma {:induction false} VersionsCount<S>(o: Stored<S>, ws: seq<Foreign<S>>)
    ensures AfterAll(o, ws).version == o.version + |ws|
    decreases |ws|
  {
    if ws != [] {
      VersionsCount(After(o, ws[0]), ws[1..]);
    }
  }

  // Whatever the others write and whichever call fails, nothing of theirs is lost: the
  // stored object is the one their writes alone produce, except that the annotation may
  // hold the value as well, and it was written at most once.
  lemma {:induction false} NoLostUpdate<S>(o: Stored<S>, key: string, value: string, attempts: seq<Attempt<S>>)
    ensures var run, alone := Run(o, key, value, attempts), AfterAll(o, Interference(o, key, value, attempts));
      && run.puts <= 1
      && run.o.spec == alone.spec
      && run.o.annotations == (if run.puts == 1 then alone.annotations[key := value] else alone.annotations)
      && run.o.version == alone.version + run.puts
    decreases |attempts|
  {
    if attempts != [] && !attempts[0].getFails {
      var now := attempts[0];
      VersionsCount(o, now.meanwhile);
      var current := AfterAll(o, now.meanwhile);
      if Annotation(o.annotations, key) != value && now.put.Answered? && now.meanwhile != [] {
        NoLostUpdate(current, key, value, attempts[1..]);
        AfterAllConcat(o, now.meanwhile, Interference(current, key, value, attempts[1..]));
      } else {
        assert now.meanwhile + [] == now.meanwhile;
      }
    }
  }

  predicate HeldAfter<S>(o: Stored<S>, ws: seq<Foreign<S>>, n: nat, key: string, value: string) {
    n <= |ws| && Annotation(AfterAll(o, ws[..n]).annotations, key) == value
  }

  // At some moment while these writes came in, the annotation held the value.
  ghost predicate HeldDuring<S>(o: Stored<S>, ws: seq<Foreign<S>>, key: string, value: string) {
    exists n: nat :: HeldAfter(o, ws, n, key, value)
  }

  lemma HeldLater<S>(o: Stored<S>, before: seq<Foreign<S>>, ws: seq<Foreign<S>>, key: string, value: string)
    requires HeldDuring(AfterAll(o, before), ws, key, value)
    ensures HeldDuring(o, before + ws, key, value)
  {
    var n: nat :| HeldAfter(AfterAll(o, before), ws, n, key, value);
    AfterAllConcat(o, before, ws[..n]);
    assert (before + ws)[..|before| + n] == before + ws[..n];
    assert HeldAfter(o, before + ws, |before| + n, key, value);
  }

  // Success means that the value was stored at some moment: by the loop's own write, which
  // is then the last one, or because a read found it there, and then nothing is written.
  lemma {:induction false} SuccessMeansStored<S>(o: Stored<S>, key: string, value: string, attempts: seq<Attempt<S>>)
    requires Run(o, key, value, attempts).ok
    ensures var run := Run(o, key, value, attempts);
      if run.puts == 1 then Annotation(run.o.annotations, key) == value
      else HeldDuring(o, Interference(o, key, value, attempts), key, value)
    decreases |attempts|
  {
    var now := attempts[0];
    VersionsCount(o, now.meanwhile);
    if Annotation(o.annotations, key) == value {
      assert HeldAfter(o, Interference(o, key, value, attempts), 0, key, value);
    } else if now.meanwhile != [] {
      var current := AfterAll(o, now.meanwhile);
      SuccessMeansStored(current, key, value, attempts[1..]);
      if Run(current, key, value, attempts[1..]).puts != 1 {
        HeldLater(o, now.meanwhile, Interference(current, key, value, attempts[1..]), key, value);
      }
    }
  }

  // An annotation that already holds the value is not written.
  lemma EqualAnnotationIsNotWritten<S>(o: Stored<S>, key: string, value: string, attempts: seq<Attempt<S>>)
    requires attempts != [] && Annotation(o.annotations, key) == value
    ensures var run := Run(o, key, value, attempts);
      run.puts == 0 && (run.ok <==> !attempts[0].getFails)
  {}

  // When other clients get a write in during every attempt, and none of these writes the
  // annotation, the loop gives up and has written nothing.
  lemma {:induction false} GivesUpUnderContention<S>(o: Stored<S>, key: string, value: string, attempts: seq<Attempt<S>>)
    requires forall a :: a in attempts ==> !a.getFails && a.put.Answered? && a.meanwhile != []
    requires forall a, w :: a in attempts && w in a.meanwhile ==> SparesKey(w, key)
    requires Annotation(o.annotations, key) != value
    ensures !Run(o, key, value, attempts).ok && Run(o, key, value, attempts).puts == 0
    decreases |attempts|
  {
    if attempts != [] {
      VersionsCount(o, attempts[0].meanwhile);
      SparedKeyKept(o, attempts[0].meanwhile, key);
      GivesUpUnderContention(AfterAll(o, attempts[0].meanwhile), key, value, attempts[1..]);
    }
  }

  // When nobody else writes the annotation, the loop either leaves it alone or sets it, and
  // sets it whenever it reports success: the record steps of the ownership protocol.
  lemma {:induction false} OnlyWriterRecords<S>(o: Stored<S>, key: string, value: string, attempts: seq<Attempt<S>>)
    requires forall a, w :: a in attempts && w in a.meanwhile ==> SparesKey(w, key)
    ensures var run := Run(o, key, value, attempts);
      Annotation(run.o.annotations, key) == if run.ok || run.puts == 1 then value else Annotation(o.annotations, key)
    decreases |attempts|
  {
    if attempts != [] {
      VersionsCount(o, attempts[0].meanwhile);
      SparedKeyKept(o, attempts[0].meanwhile, key);
      OnlyWriterRecords(AfterAll(o, attempts[0].meanwhile), key, value, attempts[1..]);
    }
  }

  // It writes exactly if the annotation does not hold the value, as far as it gets to.
  lemma {:induction false} OnlyWriterPuts<S>(o: Stored<S>, key: string, value: string, attempts: seq<Attempt<S>>)
    requires forall a, w :: a in attempts && w in a.meanwhile ==> SparesKey(w, key)
    ensures var run := Run(o, key, value, attempts);
      && run.puts <= 1
      && (run.puts == 1 ==> Annotation(o.annotations, key) != value)
      && (run.ok && run.puts == 0 ==> Annotation(o.annotations, key) == value)
    decreases |attempts|
  {
    if attempts != [] {
      SparedKeyKept(o, attempts[0].meanwhile, key);
      OnlyWriterPuts(AfterAll(o, attempts[0].meanwhile), key, value, attempts[1..]);
    }
  }

  predicate SparesKey<S>(w: Foreign<S>, key: string) {
    w.SetSpec? || w.key != key
  }

  lemma {:induction false} SparedKeyKept<S>(o: Stored<S>, ws: seq<Foreign<S>>, key: string)
    requires forall w :: w in ws ==> SparesKey(w, key)
    ensures Annotation(AfterAll(o, ws).annotations, key) == Annotation(o.annotations, key)
    decreases |ws|
  {
    if ws != [] {
      assert SparesKey(ws[0], key);
      SparedKeyKept(After(o, ws[0]), ws[1..], key);
    }
  }
}
