/** Commands.java: the repository engine. A Repository holds the list of
    commit ids, the branch table, HEAD, the staging area and in-memory
    stand-ins for the three on-disk stores: commits by id, the set of blob
    files written and the working directory. Every command either fails
    before changing anything or performs the update stated in its
    postcondition. */
module Commands {
  import opened Wrappers
  import opened Blobs
  import opened Commits
  import opened StagingArea
  import opened History
  import opened Trees
  import opened MergeRules

  /** Length of a hexadecimal SHA-1 id. */
  const IdLength := 40
  const Master := "master"
  const InitialMessage := "initial commit"
  /** The value rm stores for a file staged for removal. */
  const RemovedMark := "randomhash"

  /** The failures of the commands, one per message the source prints
      before exiting. MissingBlob stands for reading a blob file that was
      never written (a conflict blob is staged but never stored). */
  datatype Error =
    | FileDoesNotExist
    | NoChanges
    | EmptyMessage
    | NoReasonToRemove
    | NoCommitWithId
    | FileNotInCommit
    | NoSuchBranch
    | AlreadyOnBranch
    | UntrackedInTheWay
    | BranchExists
    | BranchDoesNotExist
    | CannotRemoveCurrent
    | UncommittedChanges
    | MergeWithSelf
    | MissingBlob

  datatype Outcome = Ok | Err(error: Error)

  /** How merge ends: with a merge commit (reporting whether a conflict was
      written), as a fast-forward, with nothing to do, or with a failure. */
  datatype MergeOutcome =
    | Merged(conflict: bool)
    | FastForwarded
    | GivenIsAncestor
    | MergeFailed(error: Error)

  /** Every field of a repository, to state what a command leaves alone. */
  datatype RepoState = RepoState(
    commits: seq<string>,
    branches: map<string, string>,
    headcommit: string,
    headbranch: string,
    commitStore: map<string, Commit>,
    blobStore: set<BlobId>,
    working: Tree,
    staged: Snap,
    removed: map<string, string>)

  /** What every command keeps: the commit list is well formed and made of
      full-length ids, every stored snapshot is named, HEAD is the tip of
      the current branch, every branch points at a listed commit and no
      file is staged both for addition and for removal. */
  ghost predicate Consistent(s: RepoState)
  {
    && WellFormed(s.commitStore, s.commits)
    && (forall i :: 0 <= i < |s.commits| ==> |s.commits[i]| == IdLength)
    && (forall id :: id in s.commitStore ==> Named(s.commitStore[id].blobs))
    && s.headbranch in s.branches && s.branches[s.headbranch] == s.headcommit
    && (forall b :: b in s.branches ==> s.branches[b] in s.commits)
    && s.staged.Keys !! s.removed.Keys
    && Named(s.staged)
  }

  /** Storing and listing a commit under a fresh full-length id, moving the
      current branch and HEAD to it and clearing the stage keeps a
      repository consistent, when the commit's snapshot is named and its
      parents are listed. */
  lemma RecordCommit(s: RepoState, newId: string, c: Commit)
    requires Consistent(s) && newId !in s.commitStore && |newId| == IdLength
    requires c.parent.Some? && (forall p :: p in Parents(c) ==> p in s.commits)
    requires Named(c.blobs)
    ensures Consistent(s.(commits := s.commits + [newId], branches := s.branches[s.headbranch := newId],
                          headcommit := newId, commitStore := s.commitStore[newId := c],
                          staged := map[], removed := map[]))
  {
    AppendCommit(s.commitStore, s.commits, newId, c);
    var next := s.commits + [newId];
    assert forall i :: 0 <= i < |s.commits| ==> next[i] == s.commits[i];
  }

  /** Moving the current branch and HEAD to a listed commit, with any
      working tree and an empty stage, keeps a repository consistent. */
  lemma MoveHead(s: RepoState, id: string, w: Tree)
    requires Consistent(s) && id in s.commits
    ensures Consistent(s.(branches := s.branches[s.headbranch := id], headcommit := id, working := w,
                          staged := map[], removed := map[]))
  {
  }

  /** Switching HEAD to an existing branch, with any working tree and an
      empty stage, keeps a repository consistent. */
  lemma SwitchBranch(s: RepoState, b: string, w: Tree)
    requires Consistent(s) && b in s.branches
    ensures Consistent(s.(headcommit := s.branches[b], headbranch := b, working := w,
                          staged := map[], removed := map[]))
  {
  }

  /** Changing only the stage, the working tree and the blob store keeps a
      repository consistent while the stage stays disjoint and named. */
  lemma ChangeStage(s: RepoState, staged: Snap, removed: map<string, string>, w: Tree, blobs: set<BlobId>)
    requires Consistent(s) && staged.Keys !! removed.Keys && Named(staged)
    ensures Consistent(s.(staged := staged, removed := removed, working := w, blobStore := blobs))
  {
  }

  /** Ids of one fixed length have the same length. */
  lemma IdsSameLength(ids: seq<string>)
    requires forall i :: 0 <= i < |ids| ==> |ids[i]| == IdLength
    ensures SameLength(ids)
  {
  }

  /** The content writeConflict reads for one side (Commands.java:801-811):
      the blob's content when its file exists, "" otherwise. A side the
      snapshot does not track also reads as "". */
  function ReadSide(v: Version, blobStore: set<BlobId>): (r: string)
    ensures v.Some? && v.value in blobStore ==> r == v.value.content
    ensures v.None? || v.value !in blobStore ==> r == ""
  {
    if v.Some? && v.value in blobStore then v.value.content else ""
  }

  /** The conflict file merge writes for f. */
  function ConflictFor(f: string, C: Snap, G: Snap, blobStore: set<BlobId>): string
  {
    ConflictText(ReadSide(Get(C, f), blobStore), ReadSide(Get(G, f), blobStore))
  }

  /** What merge does to f, given the split, current and given snapshots. */
  function ActionOf(S: Snap, C: Snap, G: Snap, f: string): Action
  {
    Resolve(Get(S, f), Get(C, f), Get(G, f))
  }

  /** The files merge looks at. */
  function Files(S: Snap, C: Snap, G: Snap): set<string>
  {
    S.Keys + C.Keys + G.Keys
  }

  /** Merge writes the file: it takes the given version or writes a conflict. */
  predicate Writes(a: Action)
  {
    a == TakeGiven || a == Conflict
  }

  /** The blob merge stages for a file it writes: the given side's, or that
      of the conflict text. */
  function StagedEntry(S: Snap, C: Snap, G: Snap, blobStore: set<BlobId>, f: string): BlobId
    requires Writes(ActionOf(S, C, G, f))
  {
    if ActionOf(S, C, G, f) == TakeGiven then G[f] else Sha1(f, ConflictFor(f, C, G, blobStore))
  }

  /** The additions staged once the files in H have been merged, starting
      from an empty stage. */
  function StagedAfter(S: Snap, C: Snap, G: Snap, blobStore: set<BlobId>, H: set<string>): Snap
  {
    map f | f in H && Writes(ActionOf(S, C, G, f)) :: StagedEntry(S, C, G, blobStore, f)
  }

  /** The removals staged once the files in H have been merged. */
  function RemovedAfter(S: Snap, C: Snap, G: Snap, H: set<string>): map<string, string>
  {
    map f | f in H && ActionOf(S, C, G, f) == StageRemoval :: RemovedMark
  }

  /** The contents of the blobs of a snapshot. */
  function Contents(m: Snap): Tree
  {
    map f | f in m :: m[f].content
  }

  /** The working tree once the files in H have been merged, starting from
      W: removed files are deleted and every staged blob's content written. */
  function WorkingAfter(W: Tree, S: Snap, C: Snap, G: Snap, blobStore: set<BlobId>, H: set<string>): Tree
  {
    (W - RemovedAfter(S, C, G, H).Keys) + Contents(StagedAfter(S, C, G, blobStore, H))
  }

  /** Merging one more file it writes stages that file's blob. */
  lemma StagedGrow(S: Snap, C: Snap, G: Snap, blobStore: set<BlobId>, H: set<string>, f: string)
    requires Writes(ActionOf(S, C, G, f))
    ensures StagedAfter(S, C, G, blobStore, H + {f})
              == StagedAfter(S, C, G, blobStore, H)[f := StagedEntry(S, C, G, blobStore, f)]
  {
    var l := StagedAfter(S, C, G, blobStore, H + {f});
    var r := StagedAfter(S, C, G, blobStore, H)[f := StagedEntry(S, C, G, blobStore, f)];
    forall x
      ensures x in l <==> x in r
      ensures x in l ==> l[x] == r[x]
    {
      if x != f {
        assert x in l <==> x in H && Writes(ActionOf(S, C, G, x));
      }
    }
    assert l.Keys == r.Keys;
  }

  /** Merging one more file it does not write leaves the additions alone. */
  lemma StagedSame(S: Snap, C: Snap, G: Snap, blobStore: set<BlobId>, H: set<string>, f: string)
    requires !Writes(ActionOf(S, C, G, f))
    ensures f !in StagedAfter(S, C, G, blobStore, H)
    ensures StagedAfter(S, C, G, blobStore, H + {f}) == StagedAfter(S, C, G, blobStore, H)
  {
    var l := StagedAfter(S, C, G, blobStore, H + {f});
    var r := StagedAfter(S, C, G, blobStore, H);
    assert l.Keys == r.Keys;
  }

  /** Merging one more file changes the removals at that file only. */
  lemma RemovedGrow(S: Snap, C: Snap, G: Snap, H: set<string>, f: string)
    ensures ActionOf(S, C, G, f) == StageRemoval ==>
      RemovedAfter(S, C, G, H + {f}) == RemovedAfter(S, C, G, H)[f := RemovedMark]
    ensures ActionOf(S, C, G, f) != StageRemoval ==>
      f !in RemovedAfter(S, C, G, H) && RemovedAfter(S, C, G, H + {f}) == RemovedAfter(S, C, G, H)
  {
    var l := RemovedAfter(S, C, G, H + {f});
    var r := RemovedAfter(S, C, G, H);
    assert forall x :: x != f ==> (x in l <==> x in r);
  }

  /** Writing one blob writes its content. */
  lemma ContentsPut(m: Snap, f: string, id: BlobId)
    ensures Contents(m[f := id]) == Contents(m)[f := id.content]
  {
    var l := Contents(m[f := id]);
    var r := Contents(m)[f := id.content];
    assert l.Keys == r.Keys;
  }

  /** A later write overrides. */
  lemma OverlayPut(A: Tree, B: Tree, f: string, v: string)
    ensures A + B[f := v] == (A + B)[f := v]
  {
  }

  /** Deleting one more file that nothing writes. */
  lemma OverlayDrop(W: Tree, R: set<string>, B: Tree, f: string)
    requires f !in B
    ensures (W - (R + {f})) + B == ((W - R) + B) - {f}
  {
    var l := (W - (R + {f})) + B;
    var r := ((W - R) + B) - {f};
    assert l.Keys == r.Keys;
  }

  /** Some file of H conflicts. */
  predicate ConflictIn(S: Snap, C: Snap, G: Snap, H: set<string>)
  {
    exists f :: f in H && ActionOf(S, C, G, f) == Conflict
  }

  /** Merging one more file adds a conflict exactly when that file conflicts. */
  lemma ConflictGrow(S: Snap, C: Snap, G: Snap, H: set<string>, f: string)
    ensures ConflictIn(S, C, G, H + {f}) <==> ConflictIn(S, C, G, H) || ActionOf(S, C, G, f) == Conflict
  {
    if ConflictIn(S, C, G, H + {f}) {
      var x :| x in H + {f} && ActionOf(S, C, G, x) == Conflict;
      assert x == f || x in H;
    }
  }

  /** Every version merge takes from the given side can be read. */
  predicate TakenReadable(S: Snap, C: Snap, G: Snap, blobStore: set<BlobId>)
  {
    forall f :: f in G && ActionOf(S, C, G, f) == TakeGiven ==> G[f] in blobStore
  }

  /** Once every file that some loop acts on is merged, the stage and the
      working tree are those of merging all files. */
  lemma AfterCovers(W: Tree, S: Snap, C: Snap, G: Snap, blobStore: set<BlobId>, H: set<string>)
    requires forall f :: f in Files(S, C, G) && ActionOf(S, C, G, f) != Keep ==> f in H
    ensures StagedAfter(S, C, G, blobStore, H) == StagedAfter(S, C, G, blobStore, Files(S, C, G))
    ensures RemovedAfter(S, C, G, H) == RemovedAfter(S, C, G, Files(S, C, G))
    ensures WorkingAfter(W, S, C, G, blobStore, H) == WorkingAfter(W, S, C, G, blobStore, Files(S, C, G))
    ensures ConflictIn(S, C, G, H) <==> ConflictIn(S, C, G, Files(S, C, G))
  {
    forall f | ActionOf(S, C, G, f) != Keep
      ensures f in H
    {
      ActedOnIsTracked(S, C, G, f);
    }
    StagedCovers(S, C, G, blobStore, H);
    RemovedCovers(S, C, G, H);
  }

  /** The additions depend only on which acted-on files are merged. */
  lemma StagedCovers(S: Snap, C: Snap, G: Snap, blobStore: set<BlobId>, H: set<string>)
    requires forall f :: ActionOf(S, C, G, f) != Keep ==> f in H
    ensures StagedAfter(S, C, G, blobStore, H) == StagedAfter(S, C, G, blobStore, Files(S, C, G))
  {
    var l := StagedAfter(S, C, G, blobStore, H);
    var r := StagedAfter(S, C, G, blobStore, Files(S, C, G));
    forall f
      ensures f in l <==> f in r
    {
      if Writes(ActionOf(S, C, G, f)) {
        ActedOnIsTracked(S, C, G, f);
      }
    }
    assert l.Keys == r.Keys;
  }

  /** The removals depend only on which acted-on files are merged. */
  lemma RemovedCovers(S: Snap, C: Snap, G: Snap, H: set<string>)
    requires forall f :: ActionOf(S, C, G, f) != Keep ==> f in H
    ensures RemovedAfter(S, C, G, H) == RemovedAfter(S, C, G, Files(S, C, G))
  {
    forall f | ActionOf(S, C, G, f) != Keep
      ensures f in Files(S, C, G)
    {
      ActedOnIsTracked(S, C, G, f);
    }
    assert RemovedAfter(S, C, G, H).Keys == RemovedAfter(S, C, G, Files(S, C, G)).Keys;
  }

  /** Merge acts only on files some snapshot tracks. */
  lemma ActedOnIsTracked(S: Snap, C: Snap, G: Snap, f: string)
    requires ActionOf(S, C, G, f) != Keep
    ensures f in Files(S, C, G)
  {
  }

  /** The snapshot of the merge commit, file by file: the current version
      where merge keeps it, the given version where merge takes it, nothing
      where merge removes the file and the conflict file's blob where the
      sides conflict. */
  lemma MergedSnapshotEntries(S: Snap, C: Snap, G: Snap, blobStore: set<BlobId>, f: string)
    ensures var snap := Snapshot(C, StagedAfter(S, C, G, blobStore, Files(S, C, G)), RemovedAfter(S, C, G, Files(S, C, G)));
      && (ActionOf(S, C, G, f) == Keep ==> Get(snap, f) == Get(C, f))
      && (ActionOf(S, C, G, f) == TakeGiven ==> Get(snap, f) == Get(G, f))
      && (ActionOf(S, C, G, f) == StageRemoval ==> f !in snap)
      && (ActionOf(S, C, G, f) == Conflict ==> Get(snap, f) == Some(Sha1(f, ConflictFor(f, C, G, blobStore))))
  {
    ActionFacts(Get(S, f), Get(C, f), Get(G, f));
  }

  /** Without conflicts the merge commit follows the three-way rule: a file
      keeps the current version where the given side left the split version
      alone, and takes the given side's version (or its absence) elsewhere. */
  lemma ThreeWayMerge(S: Snap, C: Snap, G: Snap, blobStore: set<BlobId>, f: string)
    requires ActionOf(S, C, G, f) != Conflict
    ensures var snap := Snapshot(C, StagedAfter(S, C, G, blobStore, Files(S, C, G)), RemovedAfter(S, C, G, Files(S, C, G)));
      Get(snap, f) == if Get(G, f) == Get(S, f) then Get(C, f) else Get(G, f)
  {
    MergedSnapshotEntries(S, C, G, blobStore, f);
  }

  /** Where merge's file passes start: a consistent repository with an
      empty stage, C the snapshot of HEAD, G that of the listed commit tip,
      and every version merge takes from G readable. */
  ghost predicate MergeStart(base: RepoState, S: Snap, C: Snap, G: Snap, tip: string)
  {
    && Consistent(base) && base.staged == map[] && base.removed == map[]
    && base.headcommit in base.commitStore && tip in base.commitStore && tip in base.commits
    && C == base.commitStore[base.headcommit].blobs && G == base.commitStore[tip].blobs
    && TakenReadable(S, C, G, base.blobStore)
  }

  /** The repository once the files of H have been merged: only the stage
      and the working tree differ from where the passes started. */
  ghost function MergedSoFar(base: RepoState, S: Snap, C: Snap, G: Snap, H: set<string>): RepoState
  {
    base.(staged := StagedAfter(S, C, G, base.blobStore, H),
          removed := RemovedAfter(S, C, G, H),
          working := WorkingAfter(base.working, S, C, G, base.blobStore, H))
  }

  /** The repository after merging branch b, whose tip is `tip`, into HEAD
      with split snapshot S: every file merged, then the merge commit made
      from the resulting stage, with parents HEAD and tip, under newId. */
  ghost function MergeResult(base: RepoState, b: string, timestamp: string, newId: string,
                             S: Snap, C: Snap, G: Snap, tip: string): RepoState
  {
    var m := MergedSoFar(base, S, C, G, Files(S, C, G));
    m.(commits := base.commits + [newId],
       branches := base.branches[base.headbranch := newId],
       headcommit := newId,
       commitStore := base.commitStore[newId := Commit("Merged " + b + " into " + base.headbranch + ".", timestamp,
                        Some(base.headcommit), Some(tip), Snapshot(C, m.staged, m.removed))],
       staged := map[], removed := map[])
  }

  /** A merge in progress keeps the repository consistent. */
  lemma SoFarConsistent(base: RepoState, S: Snap, C: Snap, G: Snap, tip: string, H: set<string>)
    requires MergeStart(base, S, C, G, tip)
    ensures Consistent(MergedSoFar(base, S, C, G, H))
  {
    var staged := StagedAfter(S, C, G, base.blobStore, H);
    var removed := RemovedAfter(S, C, G, H);
    forall f | f in staged
      ensures staged[f].name == f
    {
      ActionFacts(Get(S, f), Get(C, f), Get(G, f));
      assert Named(G);
    }
    ChangeStage(base, staged, removed, WorkingAfter(base.working, S, C, G, base.blobStore, H), base.blobStore);
  }

  /** What merge's rule for taking the given version says of f: G has it,
      readable, under its own fingerprint, and HEAD's version differs. */
  lemma TakeFacts(base: RepoState, S: Snap, C: Snap, G: Snap, tip: string, f: string)
    requires MergeStart(base, S, C, G, tip) && ActionOf(S, C, G, f) == TakeGiven
    ensures f in G && G[f] in base.blobStore && Sha1(f, G[f].content) == G[f]
    ensures f in C ==> C[f] != G[f]
    ensures StagedEntry(S, C, G, base.blobStore, f) == G[f]
  {
    ActionFacts(Get(S, f), Get(C, f), Get(G, f));
    assert Named(G);
  }

  /** Taking the given version of f: its checkout writes the blob's content,
      and add stages the blob, which is G's own, readable and different from
      HEAD's. */
  lemma TakeStep(base: RepoState, S: Snap, C: Snap, G: Snap, tip: string, H: set<string>, f: string)
    requires MergeStart(base, S, C, G, tip) && ActionOf(S, C, G, f) == TakeGiven
    ensures f in G && G[f] in base.blobStore && Sha1(f, G[f].content) == G[f]
    ensures f in C ==> C[f] != G[f]
    ensures var s := MergedSoFar(base, S, C, G, H);
      MergedSoFar(base, S, C, G, H + {f})
        == s.(working := s.working[f := G[f].content], staged := s.staged[f := G[f]], removed := s.removed - {f})
  {
    TakeFacts(base, S, C, G, tip, f);
    WriteStep(base, S, C, G, H, f);
    var s := MergedSoFar(base, S, C, G, H);
    RemoveAbsent(s.removed, f);
  }

  /** Dropping a name a map does not hold leaves the map unchanged. */
  lemma RemoveAbsent(m: map<string, string>, f: string)
    requires f !in m
    ensures m - {f} == m
  {
    assert forall g :: g in m - {f} <==> g in m;
  }

  /** Merging one more file the merge writes: its blob is staged and its
      content written, and it is not staged for removal. */
  lemma WriteStep(base: RepoState, S: Snap, C: Snap, G: Snap, H: set<string>, f: string)
    requires Writes(ActionOf(S, C, G, f))
    ensures var s := MergedSoFar(base, S, C, G, H);
      var e := StagedEntry(S, C, G, base.blobStore, f);
      && f !in s.removed
      && MergedSoFar(base, S, C, G, H + {f})
           == s.(working := s.working[f := e.content], staged := s.staged[f := e])
  {
    var staged := StagedAfter(S, C, G, base.blobStore, H);
    var removed := RemovedAfter(S, C, G, H);
    var e := StagedEntry(S, C, G, base.blobStore, f);
    StagedGrow(S, C, G, base.blobStore, H, f);
    RemovedGrow(S, C, G, H, f);
    ContentsPut(staged, f, e);
    OverlayPut(base.working - removed.Keys, Contents(staged), f, e.content);
  }

  /** Writing the conflict file for f and staging its blob. */
  lemma ConflictStep(base: RepoState, S: Snap, C: Snap, G: Snap, H: set<string>, f: string)
    requires ActionOf(S, C, G, f) == Conflict
    ensures var s := MergedSoFar(base, S, C, G, H);
      var text := ConflictFor(f, C, G, base.blobStore);
      && f !in s.removed
      && MergedSoFar(base, S, C, G, H + {f})
           == s.(working := s.working[f := text], staged := s.staged[f := Sha1(f, text)])
  {
    WriteStep(base, S, C, G, H, f);
  }

  /** rm of f: a file HEAD tracks and nothing stages for addition. */
  lemma RemoveStep(base: RepoState, S: Snap, C: Snap, G: Snap, H: set<string>, f: string)
    requires ActionOf(S, C, G, f) == StageRemoval
    ensures var s := MergedSoFar(base, S, C, G, H);
      && f in C && f !in s.staged
      && MergedSoFar(base, S, C, G, H + {f})
           == s.(working := s.working - {f}, removed := s.removed[f := RemovedMark])
  {
    ActionFacts(Get(S, f), Get(C, f), Get(G, f));
    var staged := StagedAfter(S, C, G, base.blobStore, H);
    var removed := RemovedAfter(S, C, G, H);
    StagedSame(S, C, G, base.blobStore, H, f);
    RemovedGrow(S, C, G, H, f);
    assert removed[f := RemovedMark].Keys == removed.Keys + {f};
    OverlayDrop(base.working, removed.Keys, Contents(staged), f);
  }

  class Repository {
    /** Every commit id, in creation order. */
    var commits: seq<string>
    /** Branch name to the id of its tip. */
    var branches: map<string, string>
    var headcommit: string
    var headbranch: string
    const stage: Staging
    /** The commit folder: id to commit. */
    var commitStore: map<string, Commit>
    /** The blob folder: the fingerprints whose blob file was written. */
    var blobStore: set<BlobId>
    /** The working directory: file name to content. */
    var working: Tree

    /** What every command keeps; see Consistent. */
    ghost predicate Valid()
      reads this, stage
    {
      Consistent(State())
    }

    ghost function State(): RepoState
      reads this, stage
    {
      RepoState(commits, branches, headcommit, headbranch, commitStore, blobStore, working,
                stage.staged, stage.removed)
    }

    /** The snapshot of the HEAD commit. */
    function HeadFiles(): Snap
      reads this, stage
      requires Valid()
    {
      commitStore[headcommit].blobs
    }

    /** The snapshot of the tip of branch b. */
    function BranchFiles(b: string): Snap
      reads this, stage
      requires Valid() && b in branches
    {
      commitStore[branches[b]].blobs
    }

    /** A working file not tracked by HEAD and not staged would be
        overwritten by the target snapshot. */
    ghost predicate InTheWay(target: Snap)
      reads this, stage
      requires Valid()
    {
      exists f :: Obstructs(working, HeadFiles(), stage.staged, target, f)
    }

    /** init (Commands.java:67-89): one root commit with the initial message
        and no files, the branch master pointing at it and checked out, and
        an empty stage. The root id and the clock reading are parameters. */
    constructor Init(rootId: string, timestamp: string, files: Tree)
      requires |rootId| == IdLength
      ensures Valid()
      ensures commits == [rootId]
      ensures commitStore == map[rootId := Commit(InitialMessage, timestamp, None, None, map[])]
      ensures branches == map[Master := rootId] && headbranch == Master && headcommit == rootId
      ensures stage.staged == map[] && stage.removed == map[]
      ensures blobStore == {} && working == files
    {
      commits := [rootId];
      commitStore := map[rootId := Commit(InitialMessage, timestamp, None, None, map[])];
      branches := map[Master := rootId];
      headcommit := rootId;
      headbranch := Master;
      stage := new Staging();
      blobStore := {};
      working := files;
    }

    /** add (Commands.java:108-147). A missing file fails. A file whose
        blob is the one HEAD tracks is unstaged from both maps. Any other
        file has its blob written and staged, and is no longer staged for
        removal. */
    method Add(f: string) returns (out: Outcome)
      requires Valid()
      modifies this, stage
      ensures Valid()
      ensures f !in old(working) ==> out == Err(FileDoesNotExist) && State() == old(State())
      ensures f in old(working) ==>
        var id := Blob(f, old(working)[f]).Id();
        && out == Ok
        && if f in old(HeadFiles()) && old(HeadFiles())[f] == id then
             State() == old(State()).(staged := old(stage.staged) - {f}, removed := old(stage.removed) - {f})
           else
             State() == old(State()).(staged := old(stage.staged)[f := id], removed := old(stage.removed) - {f},
                                      blobStore := old(blobStore) + {id})
    {
      if f !in working {
        return Err(FileDoesNotExist);
      }
      var blob := Blob(f, working[f]);
      var id := blob.Id();
      var head := commitStore[headcommit].blobs;
      ghost var before := State();
      if f in head && head[f] == id {
        ChangeStage(before, before.staged - {f}, before.removed - {f}, before.working, before.blobStore);
        stage.removed := stage.removed - {f};
        stage.staged := stage.staged - {f};
        assert State() == before.(staged := before.staged - {f}, removed := before.removed - {f});
      } else {
        ChangeStage(before, before.staged[f := id], before.removed - {f}, before.working, before.blobStore + {id});
        stage.removed := stage.removed - {f};
        blobStore := blobStore + {id};
        stage.AddStaged(f, id);
        assert State() == before.(staged := before.staged[f := id], removed := before.removed - {f},
                                  blobStore := before.blobStore + {id});
      }
      out := Ok;
    }

    /** The state one add of f leaves, as Add states it. */
    ghost function AddedState(f: string): RepoState
      reads this, stage
      requires Valid()
    {
      if f !in working then State()
      else
        var id := Blob(f, working[f]).Id();
        if f in HeadFiles() && HeadFiles()[f] == id then
          State().(staged := stage.staged - {f}, removed := stage.removed - {f})
        else
          State().(staged := stage.staged[f := id], removed := stage.removed - {f}, blobStore := blobStore + {id})
    }

    /** add is idempotent: adding the same unchanged file twice reports the
        same outcome and leaves the state one add leaves. */
    method AddTwice(f: string) returns (first: Outcome, second: Outcome)
      requires Valid()
      modifies this, stage
      ensures Valid()
      ensures first == second
      ensures State() == old(AddedState(f))
    {
      ghost var once := AddedState(f);
      first := Add(f);
      assert State() == once;
      assert AddedState(f) == once;
      second := Add(f);
    }

    /** The round trip of add, commit and checkout of HEAD's version: a
        working file that differs from HEAD's version, added and committed,
        is restored by `checkout -- f` with the content add read. A file
        equal to HEAD's version is only unstaged by add, so the condition on
        it is needed. */
    method AddCommitCheckout(f: string, message: string, timestamp: string, newId: string)
      returns (added: Outcome, committed: Outcome, restored: Outcome)
      requires Valid() && newId !in commitStore && |newId| == IdLength && message != ""
      requires f in working && !(f in HeadFiles() && HeadFiles()[f] == Blob(f, working[f]).Id())
      modifies this, stage
      ensures Valid()
      ensures added == Ok && committed == Ok && restored == Ok
      ensures headcommit == newId && f in HeadFiles() && HeadFiles()[f] == Blob(f, old(working)[f]).Id()
      ensures f in working && working[f] == old(working)[f]
    {
      ghost var content := working[f];
      added := Add(f);
      committed := CommitChanges(message, timestamp, newId);
      SnapshotEntries(old(HeadFiles()), old(AddedState(f)).staged, old(AddedState(f)).removed, f);
      restored := CheckoutHeadFile(f);
    }

    /** commit (Commands.java:198-227). An empty stage fails first, an empty
        message next. Otherwise a commit whose parent is HEAD and whose
        snapshot is HEAD's with the stage applied is stored under the fresh
        id, listed, and made the tip of the current branch; the stage is
        cleared and the working tree is not touched. */
    method CommitChanges(message: string, timestamp: string, newId: string) returns (out: Outcome)
      requires Valid() && newId !in commitStore && |newId| == IdLength
      modifies this, stage
      ensures Valid()
      ensures old(stage.IsEmpty()) ==> out == Err(NoChanges) && State() == old(State())
      ensures !old(stage.IsEmpty()) && message == "" ==> out == Err(EmptyMessage) && State() == old(State())
      ensures !old(stage.IsEmpty()) && message != "" ==>
        && out == Ok
        && State() == old(State()).(
             commits := old(commits) + [newId],
             branches := old(branches)[old(headbranch) := newId],
             headcommit := newId,
             commitStore := old(commitStore)[newId := Commit(message, timestamp, Some(old(headcommit)), None,
                              Snapshot(old(HeadFiles()), old(stage.staged), old(stage.removed)))],
             staged := map[], removed := map[])
    {
      if stage.removed == map[] && stage.staged == map[] {
        return Err(NoChanges);
      }
      if message == "" {
        return Err(EmptyMessage);
      }
      var blobs := ApplyStage(commitStore[headcommit].blobs, stage.staged, stage.removed);
      StoreCommit(newId, Commit(message, timestamp, Some(headcommit), None, blobs));
      out := Ok;
    }

    /** The tail of commit and mergecommit: store c under the fresh id, list
        it, move the current branch and HEAD to it, and clear the stage. */
    method StoreCommit(newId: string, c: Commit)
      requires Valid() && newId !in commitStore && |newId| == IdLength
      requires c.parent.Some? && (forall p :: p in Parents(c) ==> p in commits) && Named(c.blobs)
      modifies this, stage
      ensures Valid()
      ensures State() == old(State()).(
        commits := old(commits) + [newId], branches := old(branches)[old(headbranch) := newId],
        headcommit := newId, commitStore := old(commitStore)[newId := c], staged := map[], removed := map[])
    {
      ghost var before := State();
      RecordCommit(before, newId, c);
      stage.ClearStages();
      commitStore := commitStore[newId := c];
      commits := commits + [newId];
      branches := branches[headbranch := newId];
      headcommit := newId;
      assert State() == before.(commits := before.commits + [newId], branches := before.branches[before.headbranch := newId],
        headcommit := newId, commitStore := before.commitStore[newId := c], staged := map[], removed := map[]);
    }

    /** rm (Commands.java:235-259). A file staged for addition is only
        unstaged. Otherwise a file HEAD tracks is staged for removal and
        deleted from the working tree. Otherwise rm fails. */
    method Rm(f: string) returns (out: Outcome)
      requires Valid()
      modifies this, stage
      ensures Valid()
      ensures f in old(stage.staged) ==>
        out == Ok && State() == old(State()).(staged := old(stage.staged) - {f})
      ensures f !in old(stage.staged) && f in old(HeadFiles()) ==>
        out == Ok && State() == old(State()).(removed := old(stage.removed)[f := RemovedMark],
                                              working := old(working) - {f})
      ensures f !in old(stage.staged) && f !in old(HeadFiles()) ==>
        out == Err(NoReasonToRemove) && State() == old(State())
    {
      var head := commitStore[headcommit].blobs;
      ghost var before := State();
      if f in stage.staged {
        ChangeStage(before, before.staged - {f}, before.removed, before.working, before.blobStore);
        stage.staged := stage.staged - {f};
        assert State() == before.(staged := before.staged - {f});
      } else if f in head {
        ChangeStage(before, before.staged, before.removed[f := RemovedMark], before.working - {f}, before.blobStore);
        stage.AddRemoved(f, RemovedMark);
        working := working - {f};
        assert State() == before.(removed := before.removed[f := RemovedMark], working := before.working - {f});
      } else {
        return Err(NoReasonToRemove);
      }
      out := Ok;
    }

    /** checkout [commit id] -- [file name] (Commands.java:438-469): the id
        resolves to the first listed id starting with the argument. Nothing
        matching fails, a file the commit does not track fails, and a blob
        that was never written fails; otherwise only the working file f
        changes, to the blob's content. */
    method CheckoutFile(arg: string, f: string) returns (out: Outcome)
      requires Valid()
      modifies this
      ensures Valid()
      ensures FirstWithPrefix(commits, arg).None? ==> out == Err(NoCommitWithId) && State() == old(State())
      ensures FirstWithPrefix(commits, arg).Some? ==>
        var snap := commitStore[FirstWithPrefix(commits, arg).value].blobs;
        && (f !in snap ==> out == Err(FileNotInCommit) && State() == old(State()))
        && (f in snap && snap[f] !in blobStore ==> out == Err(MissingBlob) && State() == old(State()))
        && (f in snap && snap[f] in blobStore ==>
              out == Ok && State() == old(State()).(working := old(working)[f := snap[f].content]))
    {
      var id, check := ResolveId(commits, arg);
      if check == 0 {
        return Err(NoCommitWithId);
      }
      IdsSameLength(commits);
      var snap := commitStore[id].blobs;
      if f !in snap {
        return Err(FileNotInCommit);
      }
      if snap[f] !in blobStore {
        return Err(MissingBlob);
      }
      working := working[f := snap[f].content];
      out := Ok;
    }

    /** checkout -- [file name] (Commands.java:430-437): the same with the
        HEAD id, which resolves to itself. */
    method CheckoutHeadFile(f: string) returns (out: Outcome)
      requires Valid()
      modifies this
      ensures Valid()
      ensures f !in old(HeadFiles()) ==> out == Err(FileNotInCommit) && State() == old(State())
      ensures f in old(HeadFiles()) && old(HeadFiles())[f] !in blobStore ==>
        out == Err(MissingBlob) && State() == old(State())
      ensures f in old(HeadFiles()) && old(HeadFiles())[f] in blobStore ==>
        out == Ok && State() == old(State()).(working := old(working)[f := old(HeadFiles())[f].content])
    {
      IdsSameLength(commits);
      FullIdResolvesToItself(commits, headcommit);
      out := CheckoutFile(headcommit, f);
    }

    /** The state after a successful checkout of branch b. */
    ghost function CheckedOutState(b: string): RepoState
      reads this, stage
      requires Valid() && b in branches
    {
      State().(headcommit := branches[b], headbranch := b,
               working := Written(Pruned(working, HeadFiles(), BranchFiles(b)), BranchFiles(b)),
               staged := map[], removed := map[])
    }

    /** checkout [branch name] (Commands.java:474-516). An unknown branch,
        the current branch and an untracked file in the way fail, in that
        order, as does a blob that was never written. Otherwise files HEAD
        tracks and the branch does not are deleted, the branch's files are
        written, the stage is cleared and the branch becomes HEAD; the branch
        table is unchanged. */
    method BranchCheckout(b: string) returns (out: Outcome)
      requires Valid()
      modifies this, stage
      ensures Valid()
      ensures b !in old(branches) ==> out == Err(NoSuchBranch) && State() == old(State())
      ensures b in old(branches) && b == old(headbranch) ==> out == Err(AlreadyOnBranch) && State() == old(State())
      ensures b in old(branches) && b != old(headbranch) ==>
        && (old(InTheWay(BranchFiles(b))) ==> out == Err(UntrackedInTheWay) && State() == old(State()))
        && (!old(InTheWay(BranchFiles(b))) && !Readable(old(BranchFiles(b)), old(blobStore)) ==>
              out == Err(MissingBlob) && State() == old(State()))
        && (!old(InTheWay(BranchFiles(b))) && Readable(old(BranchFiles(b)), old(blobStore)) ==>
              out == Ok && State() == old(CheckedOutState(b)))
    {
      if b !in branches {
        return Err(NoSuchBranch);
      }
      if b == headbranch {
        return Err(AlreadyOnBranch);
      }
      var target := commitStore[branches[b]].blobs;
      var head := commitStore[headcommit].blobs;
      var blocked := FindUntracked(working, head, stage.staged, target);
      if blocked {
        ghost var g :| Obstructs(working, head, stage.staged, target, g);
        assert Obstructs(working, HeadFiles(), stage.staged, target, g);
        return Err(UntrackedInTheWay);
      }
      if !Readable(target, blobStore) {
        return Err(MissingBlob);
      }
      ghost var before := State();
      var w := DeleteDropped(working, head, target);
      w := WriteFiles(w, target);
      stage.ClearStages();
      working := w;
      headcommit := branches[b];
      headbranch := b;
      out := Ok;
      SwitchBranch(before, b, w);
      assert State() == before.(headcommit := before.branches[b], headbranch := b, working := w,
                                staged := map[], removed := map[]);
    }

    /** branch (Commands.java:527-535): a new name fails if taken, else it
        points at HEAD; nothing else changes. */
    method Branch(b: string) returns (out: Outcome)
      requires Valid()
      modifies this
      ensures Valid()
      ensures b in old(branches) ==> out == Err(BranchExists) && State() == old(State())
      ensures b !in old(branches) ==>
        out == Ok && State() == old(State()).(branches := old(branches)[b := old(headcommit)])
    {
      if b in branches {
        return Err(BranchExists);
      }
      branches := branches[b := headcommit];
      out := Ok;
    }

    /** rm-branch (Commands.java:542-553): an unknown branch fails, the
        current branch fails, else the name alone is deleted. */
    method RmBranch(b: string) returns (out: Outcome)
      requires Valid()
      modifies this
      ensures Valid()
      ensures b !in old(branches) ==> out == Err(BranchDoesNotExist) && State() == old(State())
      ensures b in old(branches) && b == old(headbranch) ==>
        out == Err(CannotRemoveCurrent) && State() == old(State())
      ensures b in old(branches) && b != old(headbranch) ==>
        out == Ok && State() == old(State()).(branches := old(branches) - {b})
    {
      if b !in branches {
        return Err(BranchDoesNotExist);
      }
      if b == headbranch {
        return Err(CannotRemoveCurrent);
      }
      branches := branches - {b};
      out := Ok;
    }

    /** reset (Commands.java:565-601). Only an exact listed id is accepted.
        An untracked file in the way fails, as does a blob that was never
        written. Otherwise the commit's files are written, files HEAD tracks
        and the commit does not are deleted, the current branch and HEAD
        move to the commit and the stage is cleared. */
    method Reset(id: string) returns (out: Outcome)
      requires Valid()
      modifies this, stage
      ensures Valid()
      ensures id !in old(commits) ==> out == Err(NoCommitWithId) && State() == old(State())
      ensures id in old(commits) ==>
        var target := old(commitStore)[id].blobs;
        && (old(InTheWay(target)) ==> out == Err(UntrackedInTheWay) && State() == old(State()))
        && (!old(InTheWay(target)) && !Readable(target, old(blobStore)) ==>
              out == Err(MissingBlob) && State() == old(State()))
        && (!old(InTheWay(target)) && Readable(target, old(blobStore)) ==>
              out == Ok && State() == old(State()).(
                branches := old(branches)[old(headbranch) := id],
                headcommit := id,
                working := Pruned(Written(old(working), target), old(HeadFiles()), target),
                staged := map[], removed := map[]))
    {
      if id !in commits {
        return Err(NoCommitWithId);
      }
      var head := commitStore[headcommit].blobs;
      var target := commitStore[id].blobs;
      var blocked := FindUntracked(working, head, stage.staged, target);
      if blocked {
        ghost var g :| Obstructs(working, head, stage.staged, target, g);
        assert Obstructs(working, HeadFiles(), stage.staged, target, g);
        return Err(UntrackedInTheWay);
      }
      if !Readable(target, blobStore) {
        return Err(MissingBlob);
      }
      ghost var before := State();
      var w := WriteFiles(working, target);
      w := DeleteDropped(w, head, target);
      stage.ClearStages();
      working := w;
      branches := branches[headbranch := id];
      headcommit := id;
      out := Ok;
      MoveHead(before, id, w);
      assert State() == before.(branches := before.branches[before.headbranch := id], headcommit := id, working := w,
                                staged := map[], removed := map[]);
    }

    /** The failure mergecheck reports (Commands.java:700-728), in its
        order, or None when merge goes on. */
    ghost function MergeCheck(b: string): (r: Option<Error>)
      reads this, stage
      requires Valid()
      ensures r.None? <==> stage.IsEmpty() && b in branches && b != headbranch && !InTheWay(BranchFiles(b))
      ensures r == Some(UncommittedChanges) <==> !stage.IsEmpty()
    {
      if !stage.IsEmpty() then Some(UncommittedChanges)
      else if b !in branches then Some(BranchDoesNotExist)
      else if b == headbranch then Some(MergeWithSelf)
      else if InTheWay(BranchFiles(b)) then Some(UntrackedInTheWay)
      else None
    }

    /** The split point of HEAD and the tip of branch b. */
    ghost function SplitOf(b: string): string
      reads this, stage
      requires Valid() && b in branches
    {
      SplitPointFound(commitStore, commits, headcommit, branches[b]);
      SplitPointOf(commitStore, commits, headcommit, branches[b]).value
    }

    /** The state after merging branch b into HEAD with a merge commit. */
    ghost function MergedState(b: string, timestamp: string, newId: string): RepoState
      reads this, stage
      requires Valid() && b in branches
    {
      MergeResult(State(), b, timestamp, newId, commitStore[SplitOf(b)].blobs, HeadFiles(), BranchFiles(b), branches[b])
    }

    /** merge (Commands.java:605-663 with mergecheck at 700-739). The checks
        of mergecheck fail in order with nothing changed. If the split point
        is HEAD the branch is checked out (fast-forward); if it is the given
        tip nothing happens. Otherwise every file is merged by the three-way
        rule and a merge commit with parents HEAD and the given tip records
        the result; the stage ends empty. */
    method Merge(b: string, timestamp: string, newId: string) returns (out: MergeOutcome)
      requires Valid() && newId !in commitStore && |newId| == IdLength
      modifies this, stage
      ensures Valid()
      ensures old(MergeCheck(b)).Some? ==>
        out == MergeFailed(old(MergeCheck(b)).value) && State() == old(State())
      ensures old(MergeCheck(b)).None? && old(SplitOf(b)) == old(headcommit) ==>
        if Readable(old(BranchFiles(b)), old(blobStore)) then
          out == FastForwarded && State() == old(CheckedOutState(b))
        else
          out == MergeFailed(MissingBlob) && State() == old(State())
      ensures old(MergeCheck(b)).None? && old(SplitOf(b)) != old(headcommit) && old(SplitOf(b)) == old(branches[b]) ==>
        out == GivenIsAncestor && State() == old(State())
      ensures old(MergeCheck(b)).None? && old(SplitOf(b)) != old(headcommit) && old(SplitOf(b)) != old(branches[b]) ==>
        var S := old(commitStore[SplitOf(b)].blobs);
        if TakenReadable(S, old(HeadFiles()), old(BranchFiles(b)), old(blobStore)) then
          && out == Merged(ConflictIn(S, old(HeadFiles()), old(BranchFiles(b)), Files(S, old(HeadFiles()), old(BranchFiles(b)))))
          && State() == old(MergedState(b, timestamp, newId))
        else
          out == MergeFailed(MissingBlob) && State() == old(State())
    {
      if !(stage.staged == map[] && stage.removed == map[]) {
        return MergeFailed(UncommittedChanges);
      }
      if b !in branches {
        return MergeFailed(BranchDoesNotExist);
      }
      if b == headbranch {
        return MergeFailed(MergeWithSelf);
      }
      var tip := branches[b];
      var C := commitStore[headcommit].blobs;
      var G := commitStore[tip].blobs;
      var blocked := FindUntracked(working, C, stage.staged, G);
      if blocked {
        ghost var g :| Obstructs(working, C, stage.staged, G, g);
        assert Obstructs(working, HeadFiles(), stage.staged, G, g);
        return MergeFailed(UntrackedInTheWay);
      }
      var split := SplitPoint(commitStore, commits, headcommit, tip);
      SplitPointFound(commitStore, commits, headcommit, tip);
      if split.value == headcommit {
        var r := BranchCheckout(b);
        if r.Err? {
          return MergeFailed(r.error);
        }
        return FastForwarded;
      }
      if split.value == tip {
        return GivenIsAncestor;
      }
      var S := commitStore[split.value].blobs;
      if !TakenReadable(S, C, G, blobStore) {
        return MergeFailed(MissingBlob);
      }
      var conflict := MergeAndCommit(b, timestamp, newId, S, C, G, tip);
      out := Merged(conflict);
    }

    /** The body of merge past its checks: the three file passes, then
        mergecommit. */
    method MergeAndCommit(b: string, timestamp: string, newId: string, S: Snap, C: Snap, G: Snap, tip: string)
      returns (conflict: bool)
      requires MergeStart(State(), S, C, G, tip) && newId !in commitStore && |newId| == IdLength
      modifies this, stage
      ensures Valid()
      ensures State() == MergeResult(old(State()), b, timestamp, newId, S, C, G, tip)
      ensures conflict <==> ConflictIn(S, C, G, Files(S, C, G))
    {
      ghost var base := State();
      conflict := MergeFiles(S, C, G, tip, base);
      SoFarConsistent(base, S, C, G, tip, Files(S, C, G));
      MergeCommit(tip, b, timestamp, newId);
    }

    /** The three file passes of merge (Commands.java:616-660): every file
        of the split, current and given snapshots merged. */
    method MergeFiles(S: Snap, C: Snap, G: Snap, tip: string, ghost base: RepoState) returns (conflict: bool)
      requires MergeStart(base, S, C, G, tip) && State() == base
      modifies this, stage
      ensures State() == MergedSoFar(base, S, C, G, Files(S, C, G))
      ensures conflict <==> ConflictIn(S, C, G, Files(S, C, G))
    {
      ghost var H: set<string> := {};
      conflict, H := CurrentPass(S, C, G, tip, base, H, false);
      conflict, H := GivenPass(S, C, G, tip, base, H, conflict);
      H := SplitPass(S, C, G, tip, base, H);
      AllActionsApplied(S, C, G, H);
      AfterCovers(base.working, S, C, G, base.blobStore, H);
    }

    /** The loop of merge over the current snapshot (Commands.java:616-638). */
    method CurrentPass(S: Snap, C: Snap, G: Snap, tip: string, ghost base: RepoState, ghost H0: set<string>, conflict0: bool)
      returns (conflict: bool, ghost H: set<string>)
      requires MergeStart(base, S, C, G, tip) && State() == MergedSoFar(base, S, C, G, H0)
      requires conflict0 <==> ConflictIn(S, C, G, H0)
      modifies this, stage
      ensures State() == MergedSoFar(base, S, C, G, H) && H0 <= H
      ensures conflict <==> ConflictIn(S, C, G, H)
      ensures forall f :: f in C && CurrentLoop(Get(S, f), Get(C, f), Get(G, f)) != Keep ==> f in H
    {
      H := H0;
      conflict := conflict0;
      var todo := C.Keys;
      while todo != {}
        invariant todo <= C.Keys && H0 <= H
        invariant State() == MergedSoFar(base, S, C, G, H)
        invariant conflict <==> ConflictIn(S, C, G, H)
        invariant forall f :: CurrentActs(S, C, G, f) && f !in todo ==> f in H
        decreases todo
      {
        var f :| f in todo;
        var a := CurrentLoop(Get(S, f), Get(C, f), Get(G, f));
        if a != Keep {
          LoopPicksResolve(Get(S, f), Get(C, f), Get(G, f));
          conflict := MergeOne(f, a, S, C, G, tip, base, H, conflict);
          H := H + {f};
        }
        todo := todo - {f};
      }
      assert forall f :: f in C && CurrentLoop(Get(S, f), Get(C, f), Get(G, f)) != Keep ==> CurrentActs(S, C, G, f);
    }

    /** The loop over HEAD's files acts on f. */
    ghost predicate CurrentActs(S: Snap, C: Snap, G: Snap, f: string)
    {
      f in C && CurrentLoop(Get(S, f), Get(C, f), Get(G, f)) != Keep
    }

    /** The loop over the given tip's files acts on f. */
    ghost predicate GivenActs(S: Snap, C: Snap, G: Snap, f: string)
    {
      f in G && GivenLoop(Get(S, f), Get(C, f), Get(G, f)) != Keep
    }

    /** Merging one file a loop acts on, keeping the conflict flag in step. */
    method MergeOne(f: string, a: Action, S: Snap, C: Snap, G: Snap, tip: string, ghost base: RepoState, ghost H: set<string>, conflict0: bool)
      returns (conflict: bool)
      requires MergeStart(base, S, C, G, tip) && State() == MergedSoFar(base, S, C, G, H)
      requires conflict0 <==> ConflictIn(S, C, G, H)
      requires a == ActionOf(S, C, G, f) && a != Keep
      modifies this, stage
      ensures State() == MergedSoFar(base, S, C, G, H + {f})
      ensures conflict <==> ConflictIn(S, C, G, H + {f})
    {
      ConflictGrow(S, C, G, H, f);
      ApplyAction(f, a, S, C, G, tip, base, H);
      conflict := conflict0 || a == Conflict;
    }

    /** The loop of merge over the given snapshot (Commands.java:639-656). */
    method GivenPass(S: Snap, C: Snap, G: Snap, tip: string, ghost base: RepoState, ghost H0: set<string>, conflict0: bool)
      returns (conflict: bool, ghost H: set<string>)
      requires MergeStart(base, S, C, G, tip) && State() == MergedSoFar(base, S, C, G, H0)
      requires conflict0 <==> ConflictIn(S, C, G, H0)
      modifies this, stage
      ensures State() == MergedSoFar(base, S, C, G, H) && H0 <= H
      ensures conflict <==> ConflictIn(S, C, G, H)
      ensures forall f :: f in G && GivenLoop(Get(S, f), Get(C, f), Get(G, f)) != Keep ==> f in H
    {
      H := H0;
      conflict := conflict0;
      var todo := G.Keys;
      while todo != {}
        invariant todo <= G.Keys && H0 <= H
        invariant State() == MergedSoFar(base, S, C, G, H)
        invariant conflict <==> ConflictIn(S, C, G, H)
        invariant forall f :: GivenActs(S, C, G, f) && f !in todo ==> f in H
        decreases todo
      {
        var f :| f in todo;
        var a := GivenLoop(Get(S, f), Get(C, f), Get(G, f));
        if a != Keep {
          LoopPicksResolve(Get(S, f), Get(C, f), Get(G, f));
          conflict := MergeOne(f, a, S, C, G, tip, base, H, conflict);
          H := H + {f};
        }
        todo := todo - {f};
      }
      assert forall f :: f in G && GivenLoop(Get(S, f), Get(C, f), Get(G, f)) != Keep ==> GivenActs(S, C, G, f);
    }

    /** mergeremove (Commands.java:665-675): the loop over the split
        point's snapshot. */
    method SplitPass(S: Snap, C: Snap, G: Snap, tip: string, ghost base: RepoState, ghost H0: set<string>)
      returns (ghost H: set<string>)
      requires MergeStart(base, S, C, G, tip) && State() == MergedSoFar(base, S, C, G, H0)
      modifies this, stage
      ensures State() == MergedSoFar(base, S, C, G, H) && H0 <= H
      ensures ConflictIn(S, C, G, H) <==> ConflictIn(S, C, G, H0)
      ensures forall f :: f in S && SplitLoop(Get(S, f), Get(C, f), Get(G, f)) != Keep ==> f in H
    {
      H := H0;
      var todo := S.Keys;
      while todo != {}
        invariant todo <= S.Keys && H0 <= H
        invariant State() == MergedSoFar(base, S, C, G, H)
        invariant ConflictIn(S, C, G, H) <==> ConflictIn(S, C, G, H0)
        invariant forall f :: f in S && f !in todo && SplitLoop(Get(S, f), Get(C, f), Get(G, f)) != Keep ==> f in H
        decreases todo
      {
        var f :| f in todo;
        var a := SplitLoop(Get(S, f), Get(C, f), Get(G, f));
        if a != Keep {
          LoopPicksResolve(Get(S, f), Get(C, f), Get(G, f));
          ConflictGrow(S, C, G, H, f);
          ApplyAction(f, a, S, C, G, tip, base, H);
          H := H + {f};
        }
        todo := todo - {f};
      }
    }

    /** Every file some loop acts on has been handled. */
    lemma AllActionsApplied(S: Snap, C: Snap, G: Snap, H: set<string>)
      requires forall f :: f in C && CurrentLoop(Get(S, f), Get(C, f), Get(G, f)) != Keep ==> f in H
      requires forall f :: f in G && GivenLoop(Get(S, f), Get(C, f), Get(G, f)) != Keep ==> f in H
      requires forall f :: f in S && SplitLoop(Get(S, f), Get(C, f), Get(G, f)) != Keep ==> f in H
      ensures forall f :: f in Files(S, C, G) && ActionOf(S, C, G, f) != Keep ==> f in H
    {
    }

    /** One file's action, done by the calls the loops make: checkout of the
        given tip's version and add, writeConflict, or rm. The action a loop
        picks is the file's merge action, since at most one loop acts on a
        file. */
    method ApplyAction(f: string, a: Action, S: Snap, C: Snap, G: Snap, tip: string, ghost base: RepoState, ghost H: set<string>)
      requires MergeStart(base, S, C, G, tip) && State() == MergedSoFar(base, S, C, G, H)
      requires a == ActionOf(S, C, G, f) && a != Keep
      modifies this, stage
      ensures State() == MergedSoFar(base, S, C, G, H + {f})
    {
      SoFarConsistent(base, S, C, G, tip, H);
      match a {
        case TakeGiven =>
          TakeFile(f, S, C, G, tip, base, H);
        case Conflict =>
          ConflictStep(base, S, C, G, H, f);
          WriteConflict(C, f, G);
        case StageRemoval =>
          RemoveStep(base, S, C, G, H, f);
          var r := Rm(f);
      }
    }

    /** checkout of the given tip's version of f followed by add
        (Commands.java:621-623, 642-644). */
    method TakeFile(f: string, S: Snap, C: Snap, G: Snap, tip: string, ghost base: RepoState, ghost H: set<string>)
      requires MergeStart(base, S, C, G, tip) && State() == MergedSoFar(base, S, C, G, H)
      requires ActionOf(S, C, G, f) == TakeGiven && Valid()
      modifies this, stage
      ensures State() == MergedSoFar(base, S, C, G, H + {f})
    {
      TakeStep(base, S, C, G, tip, H, f);
      CheckoutGiven(f, G, tip);
      StageGiven(f, C, G[f]);
    }

    /** The checkout of a file from the listed commit tip whose blob can be
        read: the working file takes the blob's content. */
    method CheckoutGiven(f: string, G: Snap, tip: string)
      requires Valid() && tip in commits && G == commitStore[tip].blobs && f in G && G[f] in blobStore
      modifies this
      ensures Valid() && State() == old(State()).(working := old(working)[f := G[f].content])
    {
      IdsSameLength(commits);
      FullIdResolvesToItself(commits, tip);
      var r := CheckoutFile(tip, f);
    }

    /** The add of a working file whose stored blob differs from HEAD's:
        the blob is staged and the file is no longer staged for removal. */
    method StageGiven(f: string, C: Snap, id: BlobId)
      requires Valid() && C == HeadFiles() && f in working && Sha1(f, working[f]) == id
      requires (f in C ==> C[f] != id) && id in blobStore
      modifies this, stage
      ensures State() == old(State()).(staged := old(stage.staged)[f := id], removed := old(stage.removed) - {f})
    {
      assert blobStore + {id} == blobStore;
      var r := Add(f);
    }

    /** writeConflict (Commands.java:794-819): write the conflict text for f
        and stage its blob, without writing the blob file. The caller keeps
        f out of the removals, as merge does. */
    method WriteConflict(current: Snap, f: string, given: Snap)
      requires Valid() && f !in stage.removed
      modifies this, stage
      ensures Valid()
      ensures var text := ConflictText(ReadSide(Get(current, f), blobStore), ReadSide(Get(given, f), blobStore));
        State() == old(State()).(working := old(working)[f := text], staged := old(stage.staged)[f := Sha1(f, text)])
    {
      var headContent := "";
      var branchContent := "";
      if f in current && current[f] in blobStore {
        headContent := current[f].content;
      }
      if f in given {
        if given[f] in blobStore {
          branchContent := given[f].content;
        }
      }
      assert headContent == ReadSide(Get(current, f), blobStore);
      assert branchContent == ReadSide(Get(given, f), blobStore);
      var text := ConflictText(headContent, branchContent);
      ghost var before := State();
      ChangeStage(before, before.staged[f := Sha1(f, text)], before.removed, before.working[f := text], before.blobStore);
      working := working[f := text];
      var blob := Blob(f, text);
      stage.AddStaged(f, blob.Id());
      assert State() == before.(working := before.working[f := text], staged := before.staged[f := Sha1(f, text)]);
    }

    /** mergecommit (Commands.java:677-698): the merge commit's snapshot is
        HEAD's with the stage applied, its parents are HEAD and the given
        tip and its message names both branches; it becomes the tip of the
        current branch and the stage is cleared. */
    method MergeCommit(tip: string, b: string, timestamp: string, newId: string)
      requires Valid() && tip in commits && newId !in commitStore && |newId| == IdLength
      modifies this, stage
      ensures Valid()
      ensures State() == old(State()).(
        commits := old(commits) + [newId],
        branches := old(branches)[old(headbranch) := newId],
        headcommit := newId,
        commitStore := old(commitStore)[newId := Commit("Merged " + b + " into " + old(headbranch) + ".", timestamp,
                         Some(old(headcommit)), Some(tip),
                         Snapshot(old(HeadFiles()), old(stage.staged), old(stage.removed)))],
        staged := map[], removed := map[])
    {
      var blobs := RemoveEach(commitStore[headcommit].blobs + stage.staged, stage.removed);
      StoreCommit(newId, Commit("Merged " + b + " into " + headbranch + ".", timestamp, Some(headcommit), Some(tip), blobs));
    }
  }
}
