/** Snapshots and the working tree. A snapshot maps each tracked file name
    to its blob fingerprint; the working tree maps each file name in the
    current directory to its content. These are the loops Commands.java
    runs over those maps: building a commit's snapshot (commit and
    mergecommit), the untracked-file check and the file writes and deletes
    of branch checkout and reset. */
module Trees {
  import opened Blobs

  type Snap = map<string, BlobId>
  type Tree = map<string, string>

  /** Every entry is a fingerprint computed for its own file name, as add and
      writeConflict compute them. */
  ghost predicate Named(m: Snap)
  {
    forall f :: f in m ==> m[f].name == f
  }

  /** The snapshot of a new commit: the parent's, with every staged entry
      put and then every name staged for removal deleted. */
  function Snapshot(base: Snap, staged: Snap, removed: map<string, string>): Snap
  {
    (base + staged) - removed.Keys
  }

  /** What a new commit tracks: a staged version wins over the parent's, a
      name staged for removal is untracked, and every other name keeps the
      parent's entry. Named snapshots stay named. */
  lemma SnapshotEntries(base: Snap, staged: Snap, removed: map<string, string>, f: string)
    ensures f in staged && f !in removed ==> Snapshot(base, staged, removed)[f] == staged[f]
    ensures f in removed ==> f !in Snapshot(base, staged, removed)
    ensures f !in staged && f !in removed ==>
      (f in Snapshot(base, staged, removed) <==> f in base)
      && (f in base ==> Snapshot(base, staged, removed)[f] == base[f])
    ensures Named(base) && Named(staged) ==> Named(Snapshot(base, staged, removed))
  {
  }

  /** The first loop of commit (Commands.java:210-214): put every staged
      entry into the parent's snapshot. */
  method PutEach(base: Snap, staged: Snap) returns (r: Snap)
    ensures r == base + staged
  {
    r := base;
    var todo := staged.Keys;
    while todo != {}
      invariant todo <= staged.Keys
      invariant forall f :: f in r <==> f in base || (f in staged && f !in todo)
      invariant forall f :: f in r ==> r[f] == if f in staged && f !in todo then staged[f] else base[f]
      decreases todo
    {
      var f :| f in todo;
      r := r[f := staged[f]];
      todo := todo - {f};
    }
  }

  /** The second loop of commit (Commands.java:215-217): remove every name
      staged for removal. */
  method RemoveEach(m: Snap, removed: map<string, string>) returns (r: Snap)
    ensures r == m - removed.Keys
  {
    r := m;
    var gone := removed.Keys;
    while gone != {}
      invariant gone <= removed.Keys
      invariant forall f :: f in r <==> f in m && (f !in removed || f in gone)
      invariant forall f :: f in r ==> r[f] == m[f]
      decreases gone
    {
      var f :| f in gone;
      r := r - {f};
      gone := gone - {f};
    }
  }

  /** Both loops, as commit runs them and mergecommit runs them after its
      putAll (Commands.java:679-686). */
  method ApplyStage(base: Snap, staged: Snap, removed: map<string, string>) returns (r: Snap)
    ensures r == Snapshot(base, staged, removed)
  {
    r := PutEach(base, staged);
    r := RemoveEach(r, removed);
  }

  /** A working file that the current commit does not track and that is not
      staged, but that the target snapshot would overwrite. */
  predicate Obstructs(working: Tree, head: Snap, staged: Snap, target: Snap, f: string)
  {
    f in working && f !in head && f !in staged && f in target
  }

  /** The untracked-file check of branch checkout, reset and merge
      (Commands.java:491-500, 577-585, 720-728): scan the working tree for a
      file in the way. */
  method FindUntracked(working: Tree, head: Snap, staged: Snap, target: Snap) returns (found: bool)
    ensures found <==> exists f :: Obstructs(working, head, staged, target, f)
  {
    var todo := working.Keys;
    while todo != {}
      invariant todo <= working.Keys
      invariant forall f :: f in working && f !in todo ==> !Obstructs(working, head, staged, target, f)
      decreases todo
    {
      var f :| f in todo;
      if f !in head && f !in staged && f in target {
        assert Obstructs(working, head, staged, target, f);
        return true;
      }
      todo := todo - {f};
    }
    return false;
  }

  /** Every blob of the snapshot can be read from the blob store. */
  predicate Readable(target: Snap, blobStore: set<BlobId>)
  {
    forall f :: f in target ==> target[f] in blobStore
  }

  /** The working tree after deleting the files the current commit tracks
      and the target does not. */
  function Pruned(working: Tree, head: Snap, target: Snap): Tree
  {
    map f | f in working && (f !in head || f in target) :: working[f]
  }

  /** The working tree after writing the content of every file of the
      target snapshot. */
  function Written(working: Tree, target: Snap): Tree
  {
    map f | f in working.Keys + target.Keys :: if f in target then target[f].content else working[f]
  }

  /** The deletion loop of branch checkout (Commands.java:501-506) and of
      reset (Commands.java:591-596): delete every file tracked by the
      current commit and not by the target. Reset walks the current commit's
      names as this loop does; branch checkout walks the working directory's
      names instead, which deletes the same files. */
  method DeleteDropped(working: Tree, head: Snap, target: Snap) returns (w: Tree)
    ensures w == Pruned(working, head, target)
  {
    w := working;
    var todo := head.Keys;
    while todo != {}
      invariant todo <= head.Keys
      invariant forall f :: f in w <==> f in working && (f !in head || f in target || f in todo)
      invariant forall f :: f in w ==> w[f] == working[f]
      decreases todo
    {
      var f :| f in todo;
      if f !in target {
        w := w - {f};
      }
      todo := todo - {f};
    }
  }

  /** The write loop of branch checkout (Commands.java:507-511) and of reset
      (Commands.java:586-590): write every file of the target snapshot with
      its blob's content. */
  method WriteFiles(working: Tree, target: Snap) returns (w: Tree)
    ensures w == Written(working, target)
  {
    w := working;
    var todo := target.Keys;
    while todo != {}
      invariant todo <= target.Keys
      invariant forall f :: f in w <==> f in working || (f in target && f !in todo)
      invariant forall f :: f in w ==> w[f] == if f in target && f !in todo then target[f].content else working[f]
      decreases todo
    {
      var f :| f in todo;
      w := w[f := target[f].content];
      todo := todo - {f};
    }
  }

  /** Branch checkout deletes before it writes and reset writes before it
      deletes; both orders give the same tree. */
  lemma PruneWriteCommute(working: Tree, head: Snap, target: Snap)
    ensures Written(Pruned(working, head, target), target) == Pruned(Written(working, target), head, target)
  {
  }

  /** The tree a checkout of `target` leaves: every target file holds its
      blob's content, every file the current commit tracks and the target
      does not is gone, and every other file is as it was. */
  lemma CheckedOut(working: Tree, head: Snap, target: Snap, f: string)
    ensures var r := Written(Pruned(working, head, target), target);
      && (f in target ==> f in r && r[f] == target[f].content)
      && (f in head && f !in target ==> f !in r)
      && (f !in head && f !in target ==> (f in r <==> f in working) && (f in r ==> r[f] == working[f]))
  {
  }
}
