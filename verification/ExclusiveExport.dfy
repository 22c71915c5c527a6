/** Saving an export of several parts, all or none (desktop/app.go). */
module ExclusiveExport {
  // Every part is staged in a private temporary file beside its target, then published
  // under its name.  Either all parts are published, or none; nothing that existed is
  // overwritten.
  //
  // The file system maps paths to files and files to contents.  The faults of a call are a
  // parameter, part by part; Lstat and Remove while cleaning up do not fail.

  import opened Wrappers

  type Bytes = seq<bv8>

  datatype Path = Path(dir: string, name: string)

  datatype File = File(bytes: Bytes, mode: nat)

  const TEMP_ATTEMPTS := 100
  const PRIVATE_MODE := 0x180

  datatype Failure = Invalid | Exists | NotInspected | NotDecoded | NotStaged | NotSaved | Unstatted(target: Path)

  datatype Staged = Staged(target: Path, temp: Path)

  datatype Committed = Committed(path: Path, file: nat)

  /** `names` is `base` and, beside it, the given new names. */
  ghost predicate Extends(base: map<Path, nat>, names: map<Path, nat>, added: set<Path>)
  {
    && names.Keys == base.Keys + added && base.Keys !! added
    && forall p :: p in base ==> names[p] == base[p]
  }

  // ---- Faults ----

  datatype Opening = Opens | NotOpened | NotNarrowed

  /** One attempt at a temporary file: no random name, or a name and what opening does. */
  datatype Attempt = NoRandom | Named(suffix: string, opening: Opening)

  /** What may go wrong while one part is published: taking the staged file's identity,
      linking, checking the link, and, if linking fails, reading the staged file, creating
      the copy, taking its identity, and filling it (`copyStops` after that many bytes). */
  datatype Publication = Publication(
    stagedSeen: bool, links: bool, linkSeen: bool, readable: bool, copyCreated: bool, copySeen: bool,
    copyStops: Option<nat>)

  /** What may go wrong with one part; `fillStops` ends staging after that many bytes. */
  datatype Part = Part(inspected: bool, attempt: nat -> Attempt, fillStops: Option<nat>, publication: Publication)

  predicate Publishes(f: Publication)
  {
    f.stagedSeen && if f.links then f.linkSeen else f.readable && f.copyCreated && f.copySeen && f.copyStops.None?
  }

  /** Publishing reaches the exclusive copy and cannot take its identity. */
  predicate LeavesCopy(f: Publication)
  {
    f.stagedSeen && !f.links && f.readable && f.copyCreated && !f.copySeen
  }

  function TempPath(dir: string, suffix: string): Path
  {
    Path(dir, ".reasonix-export-" + suffix)
  }

  /** The temporary file that the attempts from the k-th on come to. */
  function TempAt(names: set<Path>, dir: string, attempt: nat -> Attempt, k: nat): (r: Option<Path>)
    ensures r.Some? ==> r.value !in names
    decreases TEMP_ATTEMPTS - k
  {
    if k >= TEMP_ATTEMPTS then None
    else
      match attempt(k)
      case NoRandom => None
      case Named(suffix, opening) =>
        if TempPath(dir, suffix) in names then TempAt(names, dir, attempt, k + 1)
        else if opening.Opens? then Some(TempPath(dir, suffix)) else None
  }

  /** The temporary files of the first n parts, if each comes to one. */
  function Reserved(names: set<Path>, targets: seq<Path>, parts: seq<Part>, n: nat): (r: Option<seq<Path>>)
    requires n <= |targets| == |parts|
    ensures r.Some? ==> |r.value| == n
  {
    if n == 0 then Some([])
    else
      match Reserved(names, targets, parts, n - 1)
      case None => None
      case Some(temps) =>
        match TempAt(names + Elements(temps), targets[n - 1].dir, parts[n - 1].attempt, 0)
        case None => None
        case Some(temp) => Some(temps + [temp])
  }

  function Elements(paths: seq<Path>): set<Path>
  {
    set p | p in paths
  }

  lemma {:induction false} ReservedSoFar(names: set<Path>, targets: seq<Path>, parts: seq<Part>, k: nat, n: nat)
    requires k <= n <= |targets| == |parts|
    ensures Reserved(names, targets, parts, n).Some? ==> Reserved(names, targets, parts, k).Some?
  {
    if k < n {
      ReservedSoFar(names, targets, parts, k, n - 1);
    }
  }

  /** Every part is decoded and staged. */
  ghost predicate Stages(names: set<Path>, targets: seq<Path>, payloads: seq<Option<Bytes>>, parts: seq<Part>)
  {
    && |targets| == |payloads| == |parts|
    && Reserved(names, targets, parts, |targets|).Some?
    && forall i :: 0 <= i < |targets| ==> payloads[i].Some? && parts[i].fillStops.None?
  }

  /** The first n targets are free, differ, and are published. */
  ghost predicate Commits(taken: set<Path>, targets: seq<Path>, parts: seq<Part>, n: nat)
  {
    && n <= |targets| == |parts|
    && forall i :: 0 <= i < n ==> IsFree(taken, targets, i) && Publishes(parts[i].publication)
  }

  /** Target i is neither taken nor one of the targets before it. */
  predicate IsFree(taken: set<Path>, targets: seq<Path>, i: nat)
    requires i < |targets|
  {
    targets[i] !in taken && targets[i] !in targets[..i]
  }

  /** Part i is reached, and its copy is left behind. */
  ghost predicate LeavesAt(taken: set<Path>, targets: seq<Path>, parts: seq<Part>, i: nat)
  {
    i < |targets| && Commits(taken, targets, parts, i) && IsFree(taken, targets, i) && LeavesCopy(parts[i].publication)
  }

  /** There is something to save, and every target is found free. */
  predicate Ready(names: set<Path>, targets: seq<Path>, parts: seq<Part>)
  {
    targets != [] && |parts| == |targets|
      && forall i :: 0 <= i < |targets| ==> parts[i].inspected && targets[i] !in names
  }

  /** Staging and publishing come to their end. */
  ghost predicate Completes(names: set<Path>, targets: seq<Path>, payloads: seq<Option<Bytes>>, parts: seq<Part>)
  {
    && Stages(names, targets, payloads, parts)
    && Commits(names + Elements(Reserved(names, targets, parts, |targets|).value), targets, parts, |targets|)
  }

  /** Publishing stops at a copy whose identity cannot be taken. */
  ghost predicate StopsAtCopy(names: set<Path>, targets: seq<Path>, payloads: seq<Option<Bytes>>, parts: seq<Part>)
  {
    && Stages(names, targets, payloads, parts)
    && exists i: nat :: LeavesAt(names + Elements(Reserved(names, targets, parts, |targets|).value), targets, parts, i)
  }

  /** Exactly when saving succeeds. */
  ghost predicate Succeeds(names: set<Path>, targets: seq<Path>, payloads: seq<Option<Bytes>>, parts: seq<Part>)
  {
    Ready(names, targets, parts) && Completes(names, targets, payloads, parts)
  }

  /** Exactly when a failure leaves a name behind. */
  ghost predicate Leaves(names: set<Path>, targets: seq<Path>, payloads: seq<Option<Bytes>>, parts: seq<Part>)
  {
    Ready(names, targets, parts) && StopsAtCopy(names, targets, payloads, parts)
  }

  /** No file of `was` has changed or gone. */
  ghost predicate Kept(was: map<nat, File>, files: map<nat, File>)
  {
    forall n :: n in was ==> n in files && files[n] == was[n]
  }

  /** Part i lies staged in full under its temporary name. */
  ghost predicate IsStaged(names: map<Path, nat>, files: map<nat, File>, temp: Path, payload: Option<Bytes>, mode: nat)
  {
    payload.Some? && temp in names && names[temp] in files && files[names[temp]] == File(payload.value, mode)
  }

  ghost predicate AllStaged(names: map<Path, nat>, files: map<nat, File>, staged: seq<Staged>,
                            payloads: seq<Option<Bytes>>, mode: nat)
  {
    |staged| <= |payloads| && forall k :: 0 <= k < |staged| ==>
      IsStaged(names, files, staged[k].temp, payloads[k], mode)
  }

  /** The first n parts lie published in full under their targets, which differ. */
  ghost predicate AllSaved(names: map<Path, nat>, files: map<nat, File>, targets: seq<Path>,
                           payloads: seq<Option<Bytes>>, mode: nat, n: nat)
  {
    && n <= |targets| == |payloads|
    && (forall k :: 0 <= k < n ==> IsStaged(names, files, targets[k], payloads[k], mode))
    && (forall j, k :: 0 <= j < k < n ==> targets[j] != targets[k])
  }

  /** The file itself, or its bytes in a file with the given mode. */
  predicate Copies(file: File, copy: File, mode: nat)
  {
    copy == file || copy == File(file.bytes, mode)
  }

  function TargetsOf(staged: seq<Staged>): (r: seq<Path>)
    ensures |r| == |staged|
  {
    seq(|staged|, i requires 0 <= i < |staged| => staged[i].target)
  }

  function TempsOf(staged: seq<Staged>): (r: seq<Path>)
    ensures |r| == |staged|
  {
    seq(|staged|, i requires 0 <= i < |staged| => staged[i].temp)
  }

  lemma SamePaths(staged: seq<Staged>)
    ensures Elements(TempsOf(staged)) == Temps(staged)
  {
    forall p ensures p in Elements(TempsOf(staged)) <==> p in Temps(staged) {
      if p in TempsOf(staged) {
        var k :| 0 <= k < |staged| && TempsOf(staged)[k] == p;
        assert staged[k] in staged;
      }
      if p in Temps(staged) {
        var s :| s in staged && s.temp == p;
        var k :| 0 <= k < |staged| && staged[k] == s;
        assert TempsOf(staged)[k] == p;
      }
    }
  }

  function Temps(staged: seq<Staged>): set<Path>
  {
    set s | s in staged :: s.temp
  }

  function Targets(staged: seq<Staged>): set<Path>
  {
    set s | s in staged :: s.target
  }

  class FileSystem {
    var names: map<Path, nat>
    var files: map<nat, File>
    var next: nat
    /** The mode a new file gets, after the umask. */
    const created: nat

    ghost predicate Valid()
      reads this
    {
      (forall p :: p in names ==> names[p] in files) && (forall n :: n in files ==> n < next)
    }

    constructor (mode: nat)
      ensures Valid() && names == map[] && created == mode
    {
      names, files, next, created := map[], map[], 0, mode;
    }

    /** os.OpenFile with O_CREATE and O_EXCL: an empty new file, or no change. */
    method CreateExclusive(path: Path, fails: bool) returns (r: Option<nat>)
      requires Valid()
      modifies this
      ensures Valid() && Kept(old(files), files) && next >= old(next)
      ensures r.Some? <==> path !in old(names) && !fails
      ensures r.Some? ==> r.value !in old(files) && names == old(names)[path := r.value]
                          && files == old(files)[r.value := File([], created)]
      ensures r.None? ==> names == old(names) && files == old(files)
    {
      if path in names || fails {
        return None;
      }
      r := Some(next);
      names, files, next := names[path := next], files[next := File([], created)], next + 1;
    }

    /** os.Link. */
    method Link(from: Path, to: Path, fails: bool) returns (ok: bool)
      requires Valid()
      modifies this
      ensures Valid() && files == old(files) && next == old(next)
      ensures ok <==> from in old(names) && to !in old(names) && !fails
      ensures names == if ok then old(names)[to := old(names)[from]] else old(names)
    {
      ok := from in names && to !in names && !fails;
      if ok {
        names := names[to := names[from]];
      }
    }

    /** os.Remove. */
    method Remove(path: Path)
      requires Valid()
      modifies this
      ensures Valid() && names == old(names) - {path} && files == old(files) && next == old(next)
    {
      names := names - {path};
    }

    /** removeExportFileIfSame. */
    method RemoveIfSame(path: Path, file: nat)
      requires Valid()
      modifies this
      ensures Valid() && files == old(files) && next == old(next)
      ensures names == if path in old(names) && old(names)[path] == file then old(names) - {path} else old(names)
    {
      if path in names && names[path] == file {
        Remove(path);
      }
    }

    /** Writing, syncing and closing an open file; a fault leaves part of it. */
    method Fill(file: nat, bytes: Bytes, mode: nat, stops: Option<nat>) returns (ok: bool)
      requires Valid() && file in files
      modifies this
      ensures Valid() && names == old(names) && next == old(next) && files.Keys == old(files).Keys
      ensures forall n :: n in files && n != file ==> files[n] == old(files)[n]
      ensures ok <==> stops.None?
      ensures ok ==> files[file] == File(bytes, mode)
    {
      ok := stops.None?;
      if ok {
        files := files[file := File(bytes, mode)];
      } else {
        files := files[file := File(if stops.value < |bytes| then bytes[..stops.value] else bytes, files[file].mode)];
      }
    }

    /** createExportTempFile: a new private file under the first random name that is free. */
    method CreateTemp(dir: string, attempt: nat -> Attempt) returns (r: Option<(Path, nat)>)
      requires Valid()
      modifies this
      ensures Valid() && Kept(old(files), files) && next >= old(next)
      ensures match TempAt(old(names).Keys, dir, attempt, 0)
              case None => r.None? && names == old(names)
              case Some(temp) =>
                && r.Some? && r.value.0 == temp && temp !in old(names)
                && names == old(names)[temp := r.value.1]
      ensures r.Some? ==> r.value.1 !in old(files) && r.value.1 in files && files[r.value.1] == File([], PRIVATE_MODE)
    {
      for k := 0 to TEMP_ATTEMPTS
        invariant Valid() && names == old(names) && files == old(files) && next == old(next)
        invariant TempAt(names.Keys, dir, attempt, k) == TempAt(names.Keys, dir, attempt, 0)
      {
        if attempt(k).NoRandom? {
          return None;
        }
        var path := TempPath(dir, attempt(k).suffix);
        if path in names {
          continue;
        }
        var file := CreateExclusive(path, attempt(k).opening.NotOpened?);
        if file.None? {
          return None;
        }
        if attempt(k).opening.NotNarrowed? {
          Remove(path);
          assert names == old(names);
          return None;
        }
        files := files[file.value := files[file.value].(mode := PRIVATE_MODE)];
        return Some((path, file.value));
      }
      return None;
    }

    /** One part of the staging loop; the temporary name stands even if filling it stops. */
    method StagePart(target: Path, payload: Bytes, part: Part) returns (temp: Option<Path>, ok: bool)
      requires Valid()
      modifies this
      ensures Valid() && Kept(old(files), files)
      ensures temp == TempAt(old(names).Keys, target.dir, part.attempt, 0)
      ensures if temp.None? then names == old(names)
              else temp.value in names && names == old(names)[temp.value := names[temp.value]]
      ensures ok <==> temp.Some? && part.fillStops.None?
      ensures ok ==> IsStaged(names, files, temp.value, Some(payload), created)
    {
      var file := CreateTemp(target.dir, part.attempt);
      if file.None? {
        return None, false;
      }
      temp := Some(file.value.0);
      ok := Fill(file.value.1, payload, created, part.fillStops);
    }

    /** One turn of the staging loop. */
    method StageNext(targets: seq<Path>, payloads: seq<Option<Bytes>>, parts: seq<Part>, before: seq<Staged>, i: nat,
                     ghost base: map<Path, nat>)
      returns (staged: seq<Staged>, failure: Option<Failure>)
      requires Valid() && i < |targets|
      requires Staging(base, names, files, targets, payloads, parts, created, before, i)
      modifies this
      ensures Valid() && Kept(old(files), files)
      ensures failure.None? ==> Staging(base, names, files, targets, payloads, parts, created, staged, i + 1)
      ensures failure.Some? ==> Extends(base, names, Temps(staged)) && !Stages(base.Keys, targets, payloads, parts)
      ensures failure.Some? ==> failure.value.NotDecoded? || failure.value.NotStaged?
    {
      if payloads[i].None? {
        StagingStops(base, names, files, targets, payloads, parts, created, before, i);
        return before, Some(NotDecoded);
      }
      TakenSoFar(base, names, before);
      ghost var names0, files0 := names, files;
      var temp, ok := StagePart(targets[i], payloads[i].value, parts[i]);
      if !ok {
        StagingStops(base, names0, files0, targets, payloads, parts, created, before, i);
      }
      if temp.None? {
        return before, Some(NotStaged);
      }
      staged := before + [Staged(targets[i], temp.value)];
      if !ok {
        LeftUnfilled(base, names0, before, Staged(targets[i], temp.value), names);
        return staged, Some(NotStaged);
      }
      StageOne(base, names0, files0, targets, payloads, parts, created, before, i, temp.value, names, files);
      failure := None;
    }

    /** The staging loop: each part in full under a temporary name of its own.  The parts
        staged before a failure are in `staged` all the same. */
    method StageAll(targets: seq<Path>, payloads: seq<Option<Bytes>>, parts: seq<Part>)
      returns (staged: seq<Staged>, failure: Option<Failure>)
      requires Valid() && |targets| == |payloads| == |parts|
      modifies this
      ensures Valid() && Kept(old(files), files)
      ensures Extends(old(names), names, Temps(staged))
      ensures failure.None? <==> Stages(old(names).Keys, targets, payloads, parts)
      ensures failure.Some? ==> failure.value.NotDecoded? || failure.value.NotStaged?
      ensures failure.None? ==> |staged| == |targets| && AllStaged(names, files, staged, payloads, created)
      ensures failure.None? ==> Reserved(old(names).Keys, targets, parts, |targets|) == Some(TempsOf(staged))
      ensures failure.None? ==> TargetsOf(staged) == targets
    {
      staged, failure := [], None;
      ghost var base := names;
      for i := 0 to |targets|
        invariant Valid() && Kept(old(files), files)
        invariant Staging(base, names, files, targets, payloads, parts, created, staged, i)
        invariant failure.None?
      {
        staged, failure := StageNext(targets, payloads, parts, staged, i, base);
        if failure.Some? {
          return;
        }
      }
      StagedAll(base, names, files, targets, payloads, parts, created, staged);
    }

    /** commitStagedExportFile: a hard link, or an exclusive copy if linking fails.  The
        new file's identity is returned; `unstatted` says that it could not be taken, so
        that the new name stays behind. */
    method CommitStaged(temp: Path, target: Path, f: Publication) returns (r: Option<nat>, unstatted: bool)
      requires Valid() && temp in names
      modifies this
      ensures Valid() && Kept(old(files), files)
      ensures r.Some? <==> target !in old(names) && Publishes(f)
      ensures unstatted <==> target !in old(names) && LeavesCopy(f)
      ensures r.Some? ==> names == old(names)[target := r.value]
      ensures r.Some? ==> r.value in files && Copies(old(files)[old(names)[temp]], files[r.value], created)
      ensures r.None? && !unstatted ==> names == old(names)
      ensures unstatted ==> target in names && names == old(names)[target := names[target]]
    {
      unstatted := false;
      if !f.stagedSeen {
        return None, false;
      }
      var stagedFile := names[temp];
      var linked := Link(temp, target, !f.links);
      if linked {
        if !f.linkSeen {
          RemoveIfSame(target, stagedFile);
          assert names == old(names);
          return None, false;
        }
        return Some(stagedFile), false;
      }
      if !f.readable {
        return None, false;
      }
      var file := CreateExclusive(target, !f.copyCreated);
      if file.None? {
        return None, false;
      }
      if !f.copySeen {
        return None, true;
      }
      var ok := Fill(file.value, files[stagedFile].bytes, created, f.copyStops);
      if !ok {
        RemoveIfSame(target, file.value);
        assert names == old(names);
        return None, false;
      }
      return file, false;
    }

    /** The commit loop.  Its failure rolls back the names published so far. */
    method CommitAll(staged: seq<Staged>, parts: seq<Part>, ghost base: map<Path, nat>,
                     ghost payloads: seq<Option<Bytes>>)
      returns (failure: Option<Failure>)
      requires Valid() && Extends(base, names, Temps(staged)) && |staged| == |payloads| == |parts|
      requires AllStaged(names, files, staged, payloads, created)
      modifies this
      ensures Valid() && Kept(old(files), files)
      ensures failure.None? <==> Commits(base.Keys + Temps(staged), TargetsOf(staged), parts, |staged|)
      ensures failure.Some? && failure.value.Unstatted?
              <==> exists i: nat :: LeavesAt(base.Keys + Temps(staged), TargetsOf(staged), parts, i)
      ensures failure.None? ==> Extends(base, names, Temps(staged) + Targets(staged))
      ensures failure.None? ==> Temps(staged) !! Targets(staged)
      ensures failure.None? ==> AllSaved(names, files, TargetsOf(staged), payloads, created, |staged|)
      ensures failure.Some? && !failure.value.Unstatted? ==> Extends(base, names, Temps(staged))
      ensures failure.Some? && failure.value.Unstatted? ==> Extends(base, names, Temps(staged) + {failure.value.target})
      ensures failure.Some? && failure.value.Unstatted? ==> failure.value.target in Targets(staged) - Temps(staged)
      ensures failure.Some? ==> failure.value.NotSaved? || failure.value.Unstatted?
    {
      ghost var taken, targets := base.Keys + Temps(staged), TargetsOf(staged);
      var committed;
      committed, failure := PublishAll(staged, parts, base, payloads);
      if failure.None? {
        PublishedAll(staged, committed);
        StopsNowhere(taken, targets, parts);
      } else {
        StopsAt(taken, targets, parts, |committed|);
        assert staged[|committed|] in staged;
        RollBack(committed, base, Temps(staged) + LeftBehind(failure.value));
        assert Temps(staged) + {} == Temps(staged);
      }
    }

    /** The commit loop up to its first failure, which is still to be rolled back. */
    method PublishAll(staged: seq<Staged>, parts: seq<Part>, ghost base: map<Path, nat>,
                      ghost payloads: seq<Option<Bytes>>)
      returns (committed: seq<Committed>, failure: Option<Failure>)
      requires Valid() && Extends(base, names, Temps(staged)) && |staged| == |payloads| == |parts|
      requires AllStaged(names, files, staged, payloads, created)
      modifies this
      ensures Valid() && Kept(old(files), files) && |committed| <= |staged|
      ensures Commits(base.Keys + Temps(staged), TargetsOf(staged), parts, |committed|)
      ensures failure.None? ==> |committed| == |staged|
      ensures failure.None? ==> Publishing(base, names, files, staged, payloads, created, committed)
      ensures failure.Some? ==> Halted(base, names, staged, parts, committed, failure.value)
    {
      committed, failure := [], None;
      for i := 0 to |staged|
        invariant Valid() && Kept(old(files), files) && |committed| == i
        invariant Publishing(base, names, files, staged, payloads, created, committed)
        invariant Commits(base.Keys + Temps(staged), TargetsOf(staged), parts, i)
      {
        assert staged[i] in staged;
        ghost var names0, files0 := names, files;
        FreeMeansFree(base, names0, files0, staged, payloads, created, committed);
        var file, unstatted := CommitStaged(staged[i].temp, staged[i].target, parts[i].publication);
        if file.None? {
          failure := Some(if unstatted then Unstatted(staged[i].target) else NotSaved);
          Halts(base, names0, files0, staged, payloads, created, parts, committed, names, failure.value);
          return;
        }
        PublishOne(base, names0, files0, staged, payloads, created, committed, names, files, file.value);
        CommitsMore(base.Keys + Temps(staged), TargetsOf(staged), parts, i);
        committed := committed + [Committed(staged[i].target, file.value)];
      }
    }

    /** rollbackCommittedExportFiles. */
    method RollBack(committed: seq<Committed>, ghost base: map<Path, nat>, ghost others: set<Path>)
      requires Valid() && Extends(base, names, others + Published(committed)) && others !! Published(committed)
      requires Standing(names, committed)
      modifies this
      ensures Valid() && files == old(files) && Extends(base, names, others)
    {
      ghost var all := Published(committed);
      for i := 0 to |committed|
        invariant Valid() && files == old(files)
        invariant names == old(names) - Published(committed[..i])
      {
        assert committed[i] in committed;
        assert Published(committed[..i + 1]) == Published(committed[..i]) + {committed[i].path};
        RemoveIfSame(committed[i].path, committed[i].file);
      }
      assert committed[..|committed|] == committed;
      assert Extends(base, names, others);
    }

    /** The deferred removal of the temporary names. */
    method CleanUp(staged: seq<Staged>, ghost base: map<Path, nat>, ghost others: set<Path>)
      requires Valid() && Extends(base, names, Temps(staged) + others) && Temps(staged) !! others
      modifies this
      ensures Valid() && files == old(files) && Extends(base, names, others)
      ensures forall p :: p in others ==> names[p] == old(names)[p]
    {
      for i := 0 to |staged|
        invariant Valid() && files == old(files)
        invariant names == old(names) - Temps(staged[..i])
      {
        assert Temps(staged[..i + 1]) == Temps(staged[..i]) + {staged[i].temp};
        Remove(staged[i].temp);
      }
      assert staged[..|staged|] == staged;
    }

    /** saveExclusiveExportPayloads.  Exactly when it succeeds, and what is there then: the
        targets are added, each with its payload, and were free before.  Exactly when a
        failure leaves the names as they were: otherwise the one target whose copy could
        not be inspected stays behind.  No file there was changes either way. */
    method Save(targets: seq<Path>, payloads: seq<Option<Bytes>>, parts: seq<Part>) returns (failure: Option<Failure>)
      requires Valid() && |parts| == |targets|
      modifies this
      ensures Valid() && Kept(old(files), files)
      ensures failure.None? <==> Succeeds(old(names).Keys, targets, payloads, parts)
      ensures failure.Some? ==> (names != old(names) <==> Leaves(old(names).Keys, targets, payloads, parts))
      ensures failure.Some? ==> (failure.value.Unstatted? <==> Leaves(old(names).Keys, targets, payloads, parts))
      ensures failure.None? ==> Extends(old(names), names, set p | p in targets)
      ensures failure.None? ==> AllSaved(names, files, targets, payloads, created, |targets|)
      ensures failure.Some? && failure.value.Unstatted? ==> Extends(old(names), names, {failure.value.target})
      ensures failure.Some? && failure.value.Unstatted? ==> failure.value.target in targets
      ensures failure.Some? ==> (failure.value.Invalid? <==> targets == [] || |targets| != |payloads|)
    {
      if |targets| == 0 || |targets| != |payloads| {
        return Some(Invalid);
      }
      for i := 0 to |targets|
        invariant forall k :: 0 <= k < i ==> parts[k].inspected && targets[k] !in names
      {
        if !parts[i].inspected {
          return Some(NotInspected);
        }
        if targets[i] in names {
          return Some(Exists);
        }
      }
      failure := StageAndCommit(targets, payloads, parts);
    }

    /** What follows once every target has been found free. */
    method StageAndCommit(targets: seq<Path>, payloads: seq<Option<Bytes>>, parts: seq<Part>)
      returns (failure: Option<Failure>)
      requires Valid() && |targets| == |payloads| == |parts|
      modifies this
      ensures Valid() && Kept(old(files), files)
      ensures failure.None? <==> Completes(old(names).Keys, targets, payloads, parts)
      ensures failure.Some? && failure.value.Unstatted? <==> StopsAtCopy(old(names).Keys, targets, payloads, parts)
      ensures failure.Some? && !failure.value.Unstatted? ==> names == old(names) && !failure.value.Invalid?
      ensures failure.None? ==> Extends(old(names), names, set p | p in targets)
      ensures failure.None? ==> AllSaved(names, files, targets, payloads, created, |targets|)
      ensures failure.Some? && failure.value.Unstatted? ==> Extends(old(names), names, {failure.value.target})
      ensures failure.Some? && failure.value.Unstatted? ==> failure.value.target in targets
    {
      ghost var base := names;
      var staged;
      staged, failure := StageAll(targets, payloads, parts);
      if failure.Some? {
        assert Temps(staged) + {} == Temps(staged);
        CleanUp(staged, base, {});
        SameOrMore(base, names, {});
        return;
      }
      AllTargets(staged, targets);
      CompletesMeans(base.Keys, targets, payloads, parts, staged);
      failure := CommitAll(staged, parts, base, payloads);
      ghost var others := if failure.None? then Targets(staged) else LeftBehind(failure.value);
      assert Temps(staged) + {} == Temps(staged);
      CleanUp(staged, base, others);
      SameOrMore(base, names, others);
    }
  }

  /** The staging loop's state: the first i parts staged, and nothing else new. */
  ghost predicate Staging(base: map<Path, nat>, names: map<Path, nat>, files: map<nat, File>, targets: seq<Path>,
                          payloads: seq<Option<Bytes>>, parts: seq<Part>, mode: nat, staged: seq<Staged>, i: nat)
  {
    && |staged| == i <= |targets| == |payloads| == |parts|
    && Extends(base, names, Temps(staged))
    && Reserved(base.Keys, targets, parts, i) == Some(TempsOf(staged))
    && (forall k :: 0 <= k < i ==> payloads[k].Some? && parts[k].fillStops.None? && staged[k].target == targets[k])
    && AllStaged(names, files, staged, payloads, mode)
  }

  lemma TakenSoFar(base: map<Path, nat>, names: map<Path, nat>, staged: seq<Staged>)
    requires Extends(base, names, Temps(staged))
    ensures names.Keys == base.Keys + Elements(TempsOf(staged))
  {
    SamePaths(staged);
  }

  lemma StagingStops(base: map<Path, nat>, names: map<Path, nat>, files: map<nat, File>, targets: seq<Path>,
                     payloads: seq<Option<Bytes>>, parts: seq<Part>, mode: nat, staged: seq<Staged>, i: nat)
    requires Staging(base, names, files, targets, payloads, parts, mode, staged, i) && i < |targets|
    requires payloads[i].None? || parts[i].fillStops.Some?
             || TempAt(base.Keys + Elements(TempsOf(staged)), targets[i].dir, parts[i].attempt, 0).None?
    ensures !Stages(base.Keys, targets, payloads, parts)
  {
    ReservedSoFar(base.Keys, targets, parts, i + 1, |targets|);
    assert Reserved(base.Keys, targets, parts, i) == Some(TempsOf(staged));
  }

  lemma StageOne(base: map<Path, nat>, names: map<Path, nat>, files: map<nat, File>, targets: seq<Path>,
                 payloads: seq<Option<Bytes>>, parts: seq<Part>, mode: nat, staged: seq<Staged>, i: nat, temp: Path,
                 names': map<Path, nat>, files': map<nat, File>)
    requires Staging(base, names, files, targets, payloads, parts, mode, staged, i) && i < |targets|
    requires TempAt(base.Keys + Elements(TempsOf(staged)), targets[i].dir, parts[i].attempt, 0) == Some(temp)
    requires temp !in names && temp in names' && names' == names[temp := names'[temp]] && Kept(files, files')
    requires IsStaged(names', files', temp, payloads[i], mode) && parts[i].fillStops.None?
    ensures Staging(base, names', files', targets, payloads, parts, mode, staged + [Staged(targets[i], temp)], i + 1)
  {
    var more := staged + [Staged(targets[i], temp)];
    AppendStaged(staged, Staged(targets[i], temp));
    AddName(base, names, Temps(staged), temp, names'[temp]);
    StagedMore(names, files, staged, payloads, mode, Staged(targets[i], temp), names', files');
    assert Reserved(base.Keys, targets, parts, i + 1) == Some(TempsOf(more));
  }

  lemma StagedMore(names: map<Path, nat>, files: map<nat, File>, staged: seq<Staged>, payloads: seq<Option<Bytes>>,
                   mode: nat, s: Staged, names': map<Path, nat>, files': map<nat, File>)
    requires |staged| < |payloads| && AllStaged(names, files, staged, payloads, mode)
    requires s.temp !in names && s.temp in names' && names' == names[s.temp := names'[s.temp]] && Kept(files, files')
    requires IsStaged(names', files', s.temp, payloads[|staged|], mode)
    ensures AllStaged(names', files', staged + [s], payloads, mode)
  {
  }

  /** A part that was not filled keeps its temporary name. */
  lemma LeftUnfilled(base: map<Path, nat>, names: map<Path, nat>, staged: seq<Staged>, s: Staged,
                     names': map<Path, nat>)
    requires Extends(base, names, Temps(staged)) && s.temp !in names && s.temp in names'
    requires names' == names[s.temp := names'[s.temp]]
    ensures Extends(base, names', Temps(staged + [s]))
  {
    AppendStaged(staged, s);
    AddName(base, names, Temps(staged), s.temp, names'[s.temp]);
  }

  lemma StagedAll(base: map<Path, nat>, names: map<Path, nat>, files: map<nat, File>, targets: seq<Path>,
                  payloads: seq<Option<Bytes>>, parts: seq<Part>, mode: nat, staged: seq<Staged>)
    requires Staging(base, names, files, targets, payloads, parts, mode, staged, |targets|)
    ensures Stages(base.Keys, targets, payloads, parts) && TargetsOf(staged) == targets
  {
  }

  /** The staged parts decide how the call ends. */
  lemma CompletesMeans(names: set<Path>, targets: seq<Path>, payloads: seq<Option<Bytes>>, parts: seq<Part>,
                       staged: seq<Staged>)
    requires Stages(names, targets, payloads, parts) && TargetsOf(staged) == targets
    requires Reserved(names, targets, parts, |targets|) == Some(TempsOf(staged))
    ensures Completes(names, targets, payloads, parts)
            <==> Commits(names + Temps(staged), TargetsOf(staged), parts, |staged|)
    ensures StopsAtCopy(names, targets, payloads, parts)
            <==> exists i: nat :: LeavesAt(names + Temps(staged), TargetsOf(staged), parts, i)
  {
    SamePaths(staged);
  }

  lemma SameOrMore(base: map<Path, nat>, names: map<Path, nat>, added: set<Path>)
    requires Extends(base, names, added)
    ensures names == base <==> added == {}
  {
    if added == {} {
      assert names.Keys == base.Keys;
    } else {
      var p :| p in added;
      assert p in names && p !in base;
    }
  }

  lemma AllTargets(staged: seq<Staged>, targets: seq<Path>)
    ensures TargetsOf(staged) == targets ==> Targets(staged) == set p | p in targets
  {
    if TargetsOf(staged) == targets {
      forall p ensures p in Targets(staged) <==> p in targets {
        if p in targets {
          var k :| 0 <= k < |staged| && targets[k] == p;
          assert staged[k] in staged;
        }
        if p in Targets(staged) {
          var s :| s in staged && s.target == p;
          var k :| 0 <= k < |staged| && staged[k] == s;
          assert targets[k] == p;
        }
      }
    }
  }

  lemma AppendStaged(before: seq<Staged>, s: Staged)
    ensures Temps(before + [s]) == Temps(before) + {s.temp} && TempsOf(before + [s]) == TempsOf(before) + [s.temp]
  {
    assert s in before + [s];
  }

  /** The name a failure leaves behind. */
  function LeftBehind(failure: Failure): set<Path>
  {
    if failure.Unstatted? then {failure.target} else {}
  }

  /** How the commit loop stops at part i. */
  ghost predicate Stopped(taken: set<Path>, targets: seq<Path>, parts: seq<Part>, i: nat, failure: Failure)
    requires i < |targets| == |parts|
  {
    && !(IsFree(taken, targets, i) && Publishes(parts[i].publication))
    && failure == if IsFree(taken, targets, i) && LeavesCopy(parts[i].publication)
                  then Unstatted(targets[i]) else NotSaved
  }

  /** The commit loop's state at a failure: the names still to be rolled back. */
  ghost predicate Halted(base: map<Path, nat>, names: map<Path, nat>, staged: seq<Staged>, parts: seq<Part>,
                         committed: seq<Committed>, failure: Failure)
  {
    && |committed| < |staged| == |parts|
    && Stopped(base.Keys + Temps(staged), TargetsOf(staged), parts, |committed|, failure)
    && Extends(base, names, Temps(staged) + LeftBehind(failure) + Published(committed))
    && Temps(staged) + LeftBehind(failure) !! Published(committed) && Temps(staged) !! LeftBehind(failure)
    && Standing(names, committed)
  }

  lemma Halts(base: map<Path, nat>, names: map<Path, nat>, files: map<nat, File>, staged: seq<Staged>,
              payloads: seq<Option<Bytes>>, mode: nat, parts: seq<Part>, committed: seq<Committed>,
              names': map<Path, nat>, failure: Failure)
    requires Publishing(base, names, files, staged, payloads, mode, committed) && |committed| < |staged| == |parts|
    requires var target, f := staged[|committed|].target, parts[|committed|].publication;
      && !(target !in names && Publishes(f))
      && failure == (if target !in names && LeavesCopy(f) then Unstatted(target) else NotSaved)
      && if failure.Unstatted? then target in names' && names' == names[target := names'[target]] else names' == names
    ensures Halted(base, names', staged, parts, committed, failure)
  {
    FreeMeansFree(base, names, files, staged, payloads, mode, committed);
    ReadyToRollBack(base, names, files, staged, payloads, mode, committed, names', LeftBehind(failure));
  }

  lemma CommitsMore(taken: set<Path>, targets: seq<Path>, parts: seq<Part>, i: nat)
    requires i < |targets| && Commits(taken, targets, parts, i) && IsFree(taken, targets, i)
             && Publishes(parts[i].publication)
    ensures Commits(taken, targets, parts, i + 1)
  {
  }

  /** The loop stops at its first part that is not published. */
  lemma StopsAt(taken: set<Path>, targets: seq<Path>, parts: seq<Part>, i: nat)
    requires i < |targets| == |parts| && Commits(taken, targets, parts, i)
    requires !(IsFree(taken, targets, i) && Publishes(parts[i].publication))
    ensures !Commits(taken, targets, parts, |targets|)
    ensures (exists k: nat :: LeavesAt(taken, targets, parts, k))
            <==> IsFree(taken, targets, i) && LeavesCopy(parts[i].publication)
  {
    forall k: nat | LeavesAt(taken, targets, parts, k) ensures k == i {
      assert LeavesCopy(parts[k].publication) && !Publishes(parts[k].publication);
    }
    assert LeavesAt(taken, targets, parts, i) <==> IsFree(taken, targets, i) && LeavesCopy(parts[i].publication);
  }

  lemma StopsNowhere(taken: set<Path>, targets: seq<Path>, parts: seq<Part>)
    requires Commits(taken, targets, parts, |targets|)
    ensures !exists k: nat :: LeavesAt(taken, targets, parts, k)
  {
    forall k | 0 <= k < |targets| ensures !LeavesAt(taken, targets, parts, k) {
      assert Publishes(parts[k].publication);
    }
  }

  /** What is taken when a part's turn comes: everything there was, the temporary names,
      and the targets before. */
  lemma FreeMeansFree(base: map<Path, nat>, names: map<Path, nat>, files: map<nat, File>, staged: seq<Staged>,
                      payloads: seq<Option<Bytes>>, mode: nat, committed: seq<Committed>)
    requires Publishing(base, names, files, staged, payloads, mode, committed) && |committed| < |staged|
    ensures staged[|committed|].target !in names
            <==> IsFree(base.Keys + Temps(staged), TargetsOf(staged), |committed|)
  {
    PublishedTargets(TargetsOf(staged), committed);
  }

  lemma PublishedTargets(targets: seq<Path>, committed: seq<Committed>)
    requires |committed| <= |targets| && forall k :: 0 <= k < |committed| ==> committed[k].path == targets[k]
    ensures forall p :: p in targets[..|committed|] <==> p in Published(committed)
  {
    var n := |committed|;
    forall p ensures p in targets[..n] <==> p in Published(committed) {
      if p in targets[..n] {
        var k :| 0 <= k < n && targets[..n][k] == p;
        assert committed[k] in committed && committed[k].path == p;
      }
      if p in Published(committed) {
        var c :| c in committed && c.path == p;
        var k :| 0 <= k < n && committed[k] == c;
        assert targets[..n][k] == p;
      }
    }
  }

  /** Every published name still denotes the file it was published for. */
  ghost predicate Standing(names: map<Path, nat>, committed: seq<Committed>)
  {
    forall k :: 0 <= k < |committed| ==> committed[k].path in names && names[committed[k].path] == committed[k].file
  }

  /** The commit loop's state: temporary names for all parts, published ones for the
      first few, and nothing else new. */
  ghost predicate Publishing(base: map<Path, nat>, names: map<Path, nat>, files: map<nat, File>, staged: seq<Staged>,
                             payloads: seq<Option<Bytes>>, mode: nat, committed: seq<Committed>)
  {
    && |committed| <= |staged| == |payloads|
    && (forall k :: 0 <= k < |committed| ==> committed[k].path == staged[k].target)
    && Extends(base, names, Temps(staged) + Published(committed)) && Temps(staged) !! Published(committed)
    && Standing(names, committed)
    && AllStaged(names, files, staged, payloads, mode)
    && AllSaved(names, files, TargetsOf(staged), payloads, mode, |committed|)
  }

  lemma PublishOne(base: map<Path, nat>, names: map<Path, nat>, files: map<nat, File>, staged: seq<Staged>,
                   payloads: seq<Option<Bytes>>, mode: nat, committed: seq<Committed>, names': map<Path, nat>,
                   files': map<nat, File>, file: nat)
    requires Publishing(base, names, files, staged, payloads, mode, committed) && |committed| < |staged|
    requires var s := staged[|committed|];
      && s.target !in names && names' == names[s.target := file] && Kept(files, files') && file in files'
      && s.temp in names && names[s.temp] in files && Copies(files[names[s.temp]], files'[file], mode)
    ensures Publishing(base, names', files', staged, payloads, mode,
            committed + [Committed(staged[|committed|].target, file)])
  {
    var target := staged[|committed|].target;
    var more := committed + [Committed(target, file)];
    assert Published(more) == Published(committed) + {target} by {
      assert more[|committed|] in more;
    }
    assert target !in Temps(staged) + Published(committed);
    AddName(base, names, Temps(staged) + Published(committed), target, file);
    assert Temps(staged) + Published(more) == Temps(staged) + Published(committed) + {target};
    assert IsStaged(names', files', target, payloads[|committed|], mode);
    SavedOneMore(names, files, staged, payloads, mode, committed, names', files');
  }

  lemma AddName(base: map<Path, nat>, names: map<Path, nat>, added: set<Path>, path: Path, file: nat)
    requires Extends(base, names, added) && path !in names
    ensures Extends(base, names[path := file], added + {path})
  {
  }

  lemma SavedOneMore(names: map<Path, nat>, files: map<nat, File>, staged: seq<Staged>, payloads: seq<Option<Bytes>>,
                     mode: nat, committed: seq<Committed>, names': map<Path, nat>,
                     files': map<nat, File>)
    requires |committed| < |staged| && AllSaved(names, files, TargetsOf(staged), payloads, mode, |committed|)
    requires var target := staged[|committed|].target;
      target !in names && target in names' && names' == names[target := names'[target]] && Kept(files, files')
      && IsStaged(names', files', target, payloads[|committed|], mode)
    ensures AllSaved(names', files', TargetsOf(staged), payloads, mode, |committed| + 1)
  {
  }

  lemma ReadyToRollBack(base: map<Path, nat>, names: map<Path, nat>, files: map<nat, File>, staged: seq<Staged>,
                        payloads: seq<Option<Bytes>>, mode: nat, committed: seq<Committed>, names': map<Path, nat>,
                        others: set<Path>)
    requires Publishing(base, names, files, staged, payloads, mode, committed) && |committed| < |staged|
    requires var target := staged[|committed|].target;
      || (others == {} && names' == names)
      || (others == {target} && target !in names && target in names' && names' == names[target := names'[target]])
    ensures Extends(base, names', Temps(staged) + others + Published(committed))
    ensures Temps(staged) + others !! Published(committed) && Temps(staged) !! others
    ensures Standing(names', committed)
  {
    var all := Temps(staged) + Published(committed);
    if others == {} {
      assert Temps(staged) + others + Published(committed) == all;
    } else {
      var target := staged[|committed|].target;
      AddName(base, names, all, target, names'[target]);
      assert Temps(staged) + others + Published(committed) == all + {target};
    }
  }

  lemma PublishedAll(staged: seq<Staged>, committed: seq<Committed>)
    requires |committed| == |staged| && forall k :: 0 <= k < |committed| ==> committed[k].path == staged[k].target
    ensures Published(committed) == Targets(staged)
  {
    forall p | p in Published(committed) ensures p in Targets(staged) {
      var c :| c in committed && c.path == p;
      var k :| 0 <= k < |committed| && committed[k] == c;
      assert staged[k] in staged;
    }
    forall p | p in Targets(staged) ensures p in Published(committed) {
      var s :| s in staged && s.target == p;
      var k :| 0 <= k < |staged| && staged[k] == s;
      assert committed[k] in committed;
    }
  }

  function Published(committed: seq<Committed>): set<Path>
  {
    set c | c in committed :: c.path
  }

  // ---- Two calls ----

  /** A part without a fault, staged under its first name; whether linking works is left
      open, since a copy stands in for it. */
  predicate Faultless(part: Part)
  {
    var f := part.publication;
    && part.inspected && part.fillStops.None? && part.attempt(0).Named? && part.attempt(0).opening.Opens?
    && f.stagedSeen && f.linkSeen && f.readable && f.copyCreated && f.copySeen && f.copyStops.None?
  }

  /** A fault that ends the part it strikes: before staging, in staging, or in publishing by
      the link or by the copy, whichever it comes to. */
  predicate Faulty(payload: Option<Bytes>, part: Part)
  {
    var f := part.publication;
    || !part.inspected || payload.None? || part.fillStops.Some? || part.attempt(0).NoRandom?
    || !f.stagedSeen || (f.links && !f.linkSeen)
    || (!f.links && (!f.readable || !f.copyCreated || !f.copySeen || f.copyStops.Some?))
  }

  /** One such fault anywhere, and the call fails. */
  lemma AFaultFails(names: set<Path>, targets: seq<Path>, payloads: seq<Option<Bytes>>, parts: seq<Part>, i: nat)
    requires i < |targets| == |payloads| == |parts| && Faulty(payloads[i], parts[i])
    ensures !Succeeds(names, targets, payloads, parts)
  {
    if Succeeds(names, targets, payloads, parts) && parts[i].attempt(0).NoRandom? {
      ReservedSoFar(names, targets, parts, i + 1, |targets|);
      NoRandomNoName(names, targets, parts, i);
    }
  }

  /** A failure leaves a name only if nothing was amiss with the targets beforehand, and a
      part was staged, could not be linked, and was copied as far as a new file whose
      identity could not be taken, under a free name. */
  lemma LeavesMeans(names: set<Path>, targets: seq<Path>, payloads: seq<Option<Bytes>>, parts: seq<Part>)
    requires Leaves(names, targets, payloads, parts)
    ensures targets != [] && forall i :: 0 <= i < |targets| ==> parts[i].inspected && targets[i] !in names
    ensures exists i :: 0 <= i < |targets| && payloads[i].Some? && targets[i] !in targets[..i]
              && var f := parts[i].publication; f.stagedSeen && !f.links && f.readable && f.copyCreated && !f.copySeen
  {
    var taken := names + Elements(Reserved(names, targets, parts, |targets|).value);
    var i: nat :| LeavesAt(taken, targets, parts, i);
    assert IsFree(taken, targets, i) && LeavesCopy(parts[i].publication);
  }

  lemma NoRandomNoName(names: set<Path>, targets: seq<Path>, parts: seq<Part>, i: nat)
    requires i < |targets| == |parts| && parts[i].attempt(0).NoRandom?
    ensures Reserved(names, targets, parts, i + 1).None?
  {
  }

  /** The attempts before k find their names taken. */
  predicate TakenUpTo(names: set<Path>, dir: string, attempt: nat -> Attempt, from: nat, k: nat)
  {
    forall j: nat :: from <= j < k ==> attempt(j).Named? && Path(dir, ".reasonix-export-" + attempt(j).suffix) in names
  }

  /** A temporary file gets the first name among a hundred random ones that is free, beside
      the target, if everything before and the opening itself goes well. */
  lemma {:induction false} TempAtExactly(names: set<Path>, dir: string, attempt: nat -> Attempt, from: nat, p: Path)
    ensures TempAt(names, dir, attempt, from) == Some(p)
       <==> exists k: nat :: from <= k < 100 && TakenUpTo(names, dir, attempt, from, k)
              && attempt(k).Named? && attempt(k).opening.Opens?
              && p == Path(dir, ".reasonix-export-" + attempt(k).suffix) && p !in names
    decreases 100 - from
  {
    if from < 100 {
      TempAtExactly(names, dir, attempt, from + 1, p);
    }
  }

  function FirstTemp(target: Path, part: Part): Path
  {
    match part.attempt(0)
    case NoRandom => target
    case Named(suffix, _) => TempPath(target.dir, suffix)
  }

  /** Without faults, with random names that are new, saving succeeds if and only if there is
      something to save and the targets are free and differ. */
  lemma SucceedsWithoutFaults(names: set<Path>, targets: seq<Path>, payloads: seq<Option<Bytes>>, parts: seq<Part>)
    requires |targets| == |payloads| == |parts|
             && forall i :: 0 <= i < |targets| ==> payloads[i].Some? && Faultless(parts[i])
    requires forall i :: 0 <= i < |targets| ==>
               FirstTemp(targets[i], parts[i]) !in names && FirstTemp(targets[i], parts[i]) !in targets
    requires forall i, j :: 0 <= i < j < |targets| ==>
             FirstTemp(targets[i], parts[i]) != FirstTemp(targets[j], parts[j])
    ensures Succeeds(names, targets, payloads, parts)
            <==> targets != [] && forall i :: 0 <= i < |targets| ==> targets[i] !in names && targets[i] !in targets[..i]
  {
    FirstTemps(names, targets, parts, |targets|);
    var temps := Reserved(names, targets, parts, |targets|).value;
    assert forall k :: 0 <= k < |temps| ==> temps[k] == FirstTemp(targets[k], parts[k]) && temps[k] !in targets;
    assert forall i :: 0 <= i < |targets| ==>
      (IsFree(names + Elements(temps), targets, i) <==> targets[i] !in names && targets[i] !in targets[..i]);
  }

  lemma {:induction false} FirstTemps(names: set<Path>, targets: seq<Path>, parts: seq<Part>, n: nat)
    requires n <= |targets| == |parts| && forall i :: 0 <= i < |targets| ==> Faultless(parts[i])
    requires forall i :: 0 <= i < |targets| ==> FirstTemp(targets[i], parts[i]) !in names
    requires forall i, j :: 0 <= i < j < |targets| ==>
             FirstTemp(targets[i], parts[i]) != FirstTemp(targets[j], parts[j])
    ensures Reserved(names, targets, parts, n).Some?
    ensures forall i :: 0 <= i < n ==> Reserved(names, targets, parts, n).value[i] == FirstTemp(targets[i], parts[i])
  {
    if n > 0 {
      FirstTemps(names, targets, parts, n - 1);
      var temps := Reserved(names, targets, parts, n - 1).value;
      assert FirstTemp(targets[n - 1], parts[n - 1]) !in temps;
    }
  }

  /** One part whose link fails and whose copy cannot be inspected: its target is left. */
  lemma CopyIsLeft(target: Path, bytes: Bytes, part: Part)
    requires part.inspected && part.fillStops.None? && part.attempt(0).Named? && part.attempt(0).opening.Opens?
    requires part.publication == Publication(true, false, true, true, true, false, None)
             && FirstTemp(target, part) != target
    ensures Leaves({}, [target], [Some(bytes)], [part]) && !Succeeds({}, [target], [Some(bytes)], [part])
  {
    var targets, parts := [target], [part];
    var no: set<Path>, temp := {}, FirstTemp(target, part);
    assert Reserved(no, targets, parts, 0) == Some([]);
    assert no + Elements([]) == no;
    assert TempAt(no, target.dir, part.attempt, 0) == Some(temp);
    assert Reserved(no, targets, parts, 0 + 1) == Some([] + [temp]);
    assert LeavesAt(no + Elements([] + [temp]), targets, parts, 0);
    assert !Publishes(parts[0].publication);
  }
}
