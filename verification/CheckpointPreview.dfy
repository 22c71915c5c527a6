/** The rewind points of a conversation (desktop/app.go). */
module CheckpointPreview {
  // What restoring the code of each would affect, computed in one backward pass that keeps
  // a bounded sorted preview.

  import opened StringOrder

  const PREVIEW_LIMIT := 60

  datatype Path = Path(text: string)

  predicate Before(p: Path, q: Path)
  {
    Less(p.text, q.text)
  }

  ghost predicate Sorted(files: seq<Path>)
  {
    forall i, j :: 0 <= i < j < |files| ==> Before(files[i], files[j])
  }

  /** `files` lists the `limit` smallest of `all` in order, or all of them if fewer. */
  ghost predicate IsPreview(files: seq<Path>, all: set<Path>, limit: nat)
  {
    && Sorted(files)
    && |files| <= limit
    && (forall p :: p in files ==> p in all)
    && (forall p, k :: p in all && p !in files && 0 <= k < |files| ==> Before(files[k], p))
    && (|files| < limit ==> forall p :: p in all ==> p in files)
  }

  /** sort.SearchStrings. */
  method Search(files: seq<Path>, path: Path) returns (idx: nat)
    requires Sorted(files)
    ensures idx <= |files|
    ensures forall k :: 0 <= k < idx ==> Before(files[k], path)
    ensures forall k :: idx <= k < |files| ==> !Before(files[k], path)
  {
    var hi := |files|;
    idx := 0;
    while idx < hi
      invariant 0 <= idx <= hi <= |files|
      invariant forall k :: 0 <= k < idx ==> Before(files[k], path)
      invariant forall k :: hi <= k < |files| ==> !Before(files[k], path)
    {
      var h := (idx + hi) / 2;
      if Before(files[h], path) {
        BelowToo(files, path, h);
        idx := h + 1;
      } else {
        AboveToo(files, path, h);
        hi := h;
      }
    }
  }

  lemma BelowToo(files: seq<Path>, path: Path, h: nat)
    requires Sorted(files) && h < |files| && Before(files[h], path)
    ensures forall k :: 0 <= k <= h ==> Before(files[k], path)
  {
    forall k | 0 <= k < h ensures Before(files[k], path) {
      Transitive(files[k].text, files[h].text, path.text);
    }
  }

  lemma AboveToo(files: seq<Path>, path: Path, h: nat)
    requires Sorted(files) && h < |files| && !Before(files[h], path)
    ensures forall k :: h <= k < |files| ==> !Before(files[k], path)
  {
    forall k | h < k < |files| ensures !Before(files[k], path) {
      if Before(files[k], path) {
        Transitive(files[h].text, files[k].text, path.text);
      }
    }
  }

  /** What the search says of a path the preview does not have. */
  lemma Around(files: seq<Path>, path: Path, idx: nat)
    requires Sorted(files) && idx <= |files|
    requires forall k :: 0 <= k < idx ==> Before(files[k], path)
    requires forall k :: idx <= k < |files| ==> !Before(files[k], path)
    requires idx == |files| || files[idx] != path
    ensures path !in files
    ensures forall k :: idx <= k < |files| ==> Before(path, files[k])
  {
    if idx < |files| {
      Trichotomy(files[idx].text, path.text);
    }
    forall k | idx <= k < |files| ensures Before(path, files[k]) {
      if k > idx {
        Transitive(path.text, files[idx].text, files[k].text);
      }
    }
    forall k | 0 <= k < |files| ensures files[k] != path {
      Asymmetric(if k < idx then files[k].text else path.text, if k < idx then path.text else files[k].text);
    }
  }

  /** insertCheckpointFilePreview.  `all` holds the paths offered so far; a path offered
      again, even one already evicted, changes nothing. */
  method Insert(preview: seq<Path>, path: Path, limit: int, ghost all: set<Path>) returns (r: seq<Path>)
    requires limit > 0 ==> IsPreview(preview, all, limit)
    ensures limit <= 0 || path.text == "" ==> r == preview
    ensures limit > 0 && path.text != "" ==> IsPreview(r, all + {path}, limit)
    ensures path in all ==> r == preview
  {
    r := preview;
    if limit <= 0 || path.text == "" {
      return;
    }
    var idx := Search(preview, path);
    if idx < |preview| && preview[idx] == path {
      return;
    }
    Around(preview, path, idx);
    if |preview| < limit {
      r := r + [Path("")];
      r := r[..idx + 1] + preview[idx..];
      r := r[idx := path];
      assert r == preview[..idx] + [path] + preview[idx..];
      Grows(preview, path, idx, limit, all);
      return;
    }
    if idx >= limit {
      return;
    }
    r := r[..idx + 1] + preview[idx..limit - 1];
    r := r[idx := path];
    assert r == preview[..idx] + [path] + preview[idx..limit - 1];
    Evicts(preview, path, idx, limit, all);
  }

  lemma Grows(preview: seq<Path>, path: Path, idx: nat, limit: nat, all: set<Path>)
    requires IsPreview(preview, all, limit) && idx <= |preview| < limit && path !in preview
    requires forall k :: 0 <= k < idx ==> Before(preview[k], path)
    requires forall k :: idx <= k < |preview| ==> Before(path, preview[k])
    ensures IsPreview(preview[..idx] + [path] + preview[idx..], all + {path}, limit)
  {
    var r := preview[..idx] + [path] + preview[idx..];
    forall p | p in all + {path} ensures p in r {
      if p != path {
        var k :| 0 <= k < |preview| && preview[k] == p;
        assert r[if k < idx then k else k + 1] == p;
      }
    }
  }

  lemma OnlyLastGoes(preview: seq<Path>, path: Path, idx: nat, p: Path)
    requires idx < |preview| && p in preview
    ensures p == preview[|preview| - 1] || p in preview[..idx] + [path] + preview[idx..|preview| - 1]
  {
    var j :| 0 <= j < |preview| && preview[j] == p;
    if j < |preview| - 1 {
      var r := preview[..idx] + [path] + preview[idx..|preview| - 1];
      assert r[if j < idx then j else j + 1] == p;
    }
  }

  lemma Evicts(preview: seq<Path>, path: Path, idx: nat, limit: nat, all: set<Path>)
    requires IsPreview(preview, all, limit) && idx < |preview| == limit && path !in preview
    requires forall k :: 0 <= k < idx ==> Before(preview[k], path)
    requires forall k :: idx <= k < |preview| ==> Before(path, preview[k])
    ensures path !in all
    ensures IsPreview(preview[..idx] + [path] + preview[idx..limit - 1], all + {path}, limit)
  {
    var r := preview[..idx] + [path] + preview[idx..limit - 1];
    if path in all {
      Asymmetric(path.text, preview[idx].text);
    }
    forall p, k | p in all + {path} && p !in r && 0 <= k < |r| ensures Before(r[k], p) {
      if p in preview {
        OnlyLastGoes(preview, path, idx, p);
      } else if k == idx {
        Transitive(path.text, preview[idx].text, p.text);
      }
    }
  }

  // ---- The backward pass ----

  datatype Checkpoint = Checkpoint(turn: int, prompt: string, paths: seq<Path>, time: int, boundary: bool)

  datatype Meta = Meta(
    turn: int, prompt: string, files: seq<Path>, fileCount: nat, truncated: bool, turnFileCount: nat, time: int,
    canCode: bool, canConversation: bool)

  /** The paths restoring the code from checkpoint i on would affect. */
  ghost function Affected(metas: seq<Checkpoint>, i: nat): set<Path>
  {
    set j, p | i <= j < |metas| && p in metas[j].paths :: p
  }

  ghost predicate Describes(meta: Meta, metas: seq<Checkpoint>, i: nat)
    requires i < |metas|
  {
    var all, c := Affected(metas, i), metas[i];
    && meta.turn == c.turn && meta.prompt == c.prompt && meta.time == c.time
    && meta.canConversation == c.boundary && meta.turnFileCount == |c.paths|
    && meta.fileCount == |all|
    && IsPreview(meta.files, all - {Path("")}, PREVIEW_LIMIT)
    && (meta.canCode <==> all != {})
    && (meta.truncated <==> meta.fileCount > |meta.files|)
  }

  /** CheckpointsForTab, of a tab with a controller. */
  method Checkpoints(metas: seq<Checkpoint>) returns (out: seq<Meta>)
    ensures |out| == |metas|
    ensures forall i :: 0 <= i < |metas| ==> Describes(out[i], metas, i)
  {
    out := seq(|metas|, i requires 0 <= i < |metas| =>
      var c := metas[i];
      Meta(c.turn, c.prompt, c.paths, 0, false, |c.paths|, c.time, c.paths != [], c.boundary));
    ghost var first := out;
    var codeAfter, seen: set<Path>, preview: seq<Path> := false, {}, [];
    for i := |metas| downto 0
      invariant |out| == |metas|
      invariant forall k :: 0 <= k < i ==> out[k] == first[k]
      invariant seen == Affected(metas, i)
      invariant codeAfter <==> seen != {}
      invariant IsPreview(preview, seen - {Path("")}, PREVIEW_LIMIT)
      invariant forall k :: i <= k < |metas| ==> Describes(out[k], metas, k)
    {
      if out[i].files != [] {
        codeAfter := true;
      }
      ghost var paths := metas[i].paths;
      assert out[i].files == paths;
      assert paths != [] ==> paths[0] in paths && paths[0] in Affected(metas, i);
      seen, preview := OfferAll(seen, preview, out[i].files);
      assert seen == Affected(metas, i);
      out := out[i := out[i].(canCode := codeAfter, fileCount := |seen|, files := preview,
        truncated := |seen| > |preview|)];
    }
  }

  /** The pass over one checkpoint's paths. */
  method OfferAll(seen: set<Path>, preview: seq<Path>, files: seq<Path>) returns (seen': set<Path>, preview': seq<Path>)
    requires IsPreview(preview, seen - {Path("")}, PREVIEW_LIMIT)
    ensures seen' == seen + set p | p in files
    ensures IsPreview(preview', seen' - {Path("")}, PREVIEW_LIMIT)
  {
    seen', preview' := seen, preview;
    for j := 0 to |files|
      invariant seen' == seen + set p | p in files[..j]
      invariant IsPreview(preview', seen' - {Path("")}, PREVIEW_LIMIT)
    {
      assert files[..j + 1] == files[..j] + [files[j]];
      if files[j] in seen' {
        continue;
      }
      ghost var all := seen' - {Path("")};
      preview' := Insert(preview', files[j], PREVIEW_LIMIT, all);
      seen' := seen' + {files[j]};
      assert seen' - {Path("")} == if files[j] == Path("") then all else all + {files[j]};
    }
    assert files[..|files|] == files;
  }

  // ---- What the description means ----

  /** A preview is as long as the bound and the paths allow, and no other list is one. */
  lemma PreviewIsUnique(files: seq<Path>, other: seq<Path>, all: set<Path>, limit: nat)
    requires IsPreview(files, all, limit) && IsPreview(other, all, limit)
    ensures files == other
  {
    PreviewLength(files, all, limit);
    PreviewLength(other, all, limit);
    SamePrefix(files, other, all, limit, |files|);
  }

  lemma PreviewLength(files: seq<Path>, all: set<Path>, limit: nat)
    requires IsPreview(files, all, limit)
    ensures |files| == if |all| < limit then |all| else limit
  {
    var listed := set p | p in files;
    DistinctCount(files);
    assert listed <= all;
    Subset(listed, all);
    if |files| < limit {
      assert listed == all;
    }
  }

  lemma {:induction false} Subset<T>(a: set<T>, b: set<T>)
    requires a <= b
    ensures |a| <= |b|
  {
    assert b == a + (b - a);
  }

  lemma {:induction false} DistinctCount(files: seq<Path>)
    requires Sorted(files)
    ensures |set p | p in files| == |files|
  {
    if files != [] {
      var front, last := files[..|files| - 1], files[|files| - 1];
      DistinctCount(front);
      LastIsNew(files);
      OneMoreMember(front, last);
      assert files == front + [last];
    }
  }

  lemma LastIsNew(files: seq<Path>)
    requires Sorted(files) && files != []
    ensures files[|files| - 1] !in files[..|files| - 1]
  {
    var front, last := files[..|files| - 1], files[|files| - 1];
    if last in front {
      var k :| 0 <= k < |front| && front[k] == last;
      Asymmetric(files[k].text, last.text);
    }
  }

  lemma OneMoreMember(front: seq<Path>, last: Path)
    requires last !in front
    ensures |set p | p in front + [last]| == |set p | p in front| + 1
  {
    assert (set p | p in front + [last]) == (set p | p in front) + {last};
  }

  lemma {:induction false} SamePrefix(files: seq<Path>, other: seq<Path>, all: set<Path>, limit: nat, n: nat)
    requires IsPreview(files, all, limit) && IsPreview(other, all, limit) && |files| == |other| && n <= |files|
    ensures files[..n] == other[..n]
  {
    if n > 0 {
      SamePrefix(files, other, all, limit, n - 1);
      NotBefore(files, other, all, limit, n - 1);
      NotBefore(other, files, all, limit, n - 1);
      Trichotomy(files[n - 1].text, other[n - 1].text);
    }
  }

  lemma NotBefore(files: seq<Path>, other: seq<Path>, all: set<Path>, limit: nat, n: nat)
    requires IsPreview(files, all, limit) && IsPreview(other, all, limit) && |files| == |other| && n < |files|
    requires files[..n] == other[..n]
    ensures !Before(files[n], other[n])
  {
    if Before(files[n], other[n]) {
      var p := files[n];
      if p in other {
        var k :| 0 <= k < |other| && other[k] == p;
        if k < n {
          assert files[..n][k] == files[k];
          Asymmetric(files[k].text, p.text);
        } else if k > n {
          Asymmetric(other[n].text, p.text);
        }
        Asymmetric(p.text, other[n].text);
      } else {
        Asymmetric(p.text, other[n].text);
      }
    }
  }

  /** A checkpoint is marked truncated if and only if restoring from it would affect a
      path the preview does not list. */
  lemma TruncatedMeansUnlisted(meta: Meta, metas: seq<Checkpoint>, i: nat)
    requires i < |metas| && Describes(meta, metas, i)
    ensures meta.truncated <==> exists p :: p in Affected(metas, i) && p !in meta.files
  {
    Unlisted(meta.files, Affected(metas, i));
  }

  lemma Unlisted(files: seq<Path>, all: set<Path>)
    requires Sorted(files) && forall p :: p in files ==> p in all
    ensures |all| > |files| <==> exists p :: p in all && p !in files
  {
    var listed := set p | p in files;
    DistinctCount(files);
    assert all == listed + (all - listed);
    assert |all| == |files| + |all - listed|;
    if all - listed != {} {
      var p :| p in all - listed;
    }
  }

  /** The count includes an empty path, the preview never does: the count is that of the
      paths a preview may list if and only if no checkpoint from i on has an empty path. */
  lemma CountIncludesEmptyPath(meta: Meta, metas: seq<Checkpoint>, i: nat)
    requires i < |metas| && Describes(meta, metas, i)
    ensures var all := Affected(metas, i);
            && (meta.fileCount == |all - {Path("")}| <==> Path("") !in all)
            && Path("") !in meta.files
  {
    var all := Affected(metas, i);
    if Path("") in all {
      assert all == (all - {Path("")}) + {Path("")};
    } else {
      assert all - {Path("")} == all;
    }
  }

  /** An earlier checkpoint can restore code whenever a later one can, and affects at
      least as many files. */
  lemma EarlierRestoresMore(a: Meta, b: Meta, metas: seq<Checkpoint>, i: nat, j: nat)
    requires i <= j < |metas| && Describes(a, metas, i) && Describes(b, metas, j)
    ensures b.canCode ==> a.canCode
    ensures b.fileCount <= a.fileCount
  {
    assert Affected(metas, j) <= Affected(metas, i);
    Subset(Affected(metas, j), Affected(metas, i));
  }

  /** A checkpoint lists 60 of the paths it affects, or all of them if they are fewer, not
      counting an empty one. */
  lemma ListsUpToSixty(meta: Meta, metas: seq<Checkpoint>, i: nat)
    requires i < |metas| && Describes(meta, metas, i)
    ensures var paths := |Affected(metas, i) - {Path("")}|; |meta.files| == if paths < 60 then paths else 60
  {
    PreviewLength(meta.files, Affected(metas, i) - {Path("")}, PREVIEW_LIMIT);
  }
}
