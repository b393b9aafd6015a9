# Gitlet in Dafny

A model of the engine of Gitlet, a small version-control system. The model
covers these commands:

- `init`, `add`, `commit` and `rm`;
- `log` and `find`;
- the three forms of `checkout`;
- `branch`, `rm-branch` and `reset`;
- `merge`, with its split-point search, per-file three-way rules, conflict
  files and merge commit.

It also covers the records these commands manipulate: the staging area,
commits and blobs.

The repository is a class, `Commands.Repository`. Its fields are the same as
those of `Commands.java`:

- `commits`: the append-only list of commit ids;
- `branches`: the branch table;
- `headcommit` and `headbranch`;
- `stage`: a `StagingArea.Staging` object with its two maps.

Three in-memory stand-ins replace the on-disk stores:

- `commitStore`: commit id to commit;
- `blobStore`: the set of blob fingerprints whose blob file was written;
- `working`: the working directory, file name to content.

Every command is a method. It either returns an error and leaves the whole
state unchanged, or it performs the update its postcondition states in full,
through the value `State()`. Each command also keeps the invariant
`Commands.Consistent`:

- the commit list is well formed, meaning every parent of a commit was
  created earlier and only the root has no parent;
- every commit id has full length;
- HEAD is the tip of the current branch;
- every branch points at a listed commit;
- no file is staged both for addition and for removal;
- every staged or committed fingerprint was computed for its own file name.

The modules are:

- `Blobs` and `Commits`: the immutable records.
- `StagingArea`: the mutable staging area.
- `History`: the graph traversals.
  - `log` is the first-parent chain.
  - `find` selects commits by message.
  - Abbreviated ids are resolved as checkout does it.
  - `getsplitpoint` is modelled as written: its queue expands the parents of
    the variable that last received a parent, not those of the dequeued
    commit. `History.SplitPointWithoutMerges` shows that on histories without
    merge commits this gives the nearest common first-parent ancestor.
    `History.MissedFastForward` shows a history with a merge commit where
    HEAD is an ancestor of the given tip, yet the split point is an older
    commit, so merge does not fast-forward.
- `MergeRules`: what each of merge's three loops does to one file, and the
  conflict text.
- `Trees`: the loops over snapshots and the working tree.
- `Commands`: the repository.

Merge's passes are proved against ghost specification functions:

- `StagedAfter`, `RemovedAfter` and `WorkingAfter` describe the stage and the
  working tree once a given set of files has been merged;
- `MergeResult` describes the state after the merge commit.

Each loop iteration calls the same methods the source calls (checkout and
`add`, `writeConflict`, `rm`), and the loop invariant ties the repository to
those functions.

## Model

| member | source | states |
|---|---|---|
| Blobs.Blob.Id | proj3/gitlet/Blobs.java:19 | A blob's fingerprint is taken from its name and its content together. |
| Blobs.IdsEqualIffSameBlob | proj3/gitlet/Blobs.java:16-20 | Two blobs have the same fingerprint exactly when they have the same name and content. |
| StagingArea.Staging.constructor | proj3/gitlet/Staging.java:16-19 | A new staging area has both maps empty. |
| StagingArea.Staging.AddStaged | proj3/gitlet/Staging.java:29-31 | Puts or overwrites one addition entry; the removal map is unchanged. |
| StagingArea.Staging.AddRemoved | proj3/gitlet/Staging.java:33-35 | Puts one removal entry; the addition map is unchanged. |
| StagingArea.Staging.ClearStages | proj3/gitlet/Staging.java:37-40 | Both maps end empty, whatever they held before. |
| History.ParentsBefore | proj3/gitlet/Commands.java:218-223 | In a well-formed commit list, every parent of a listed commit is listed at an earlier position. |
| History.OnlyRootIsParentless | proj3/gitlet/Commands.java:79-87 | The only listed commit without a parent is the first one, the root made by init. |
| History.AppendCommit | proj3/gitlet/Commands.java:218-224 | Appending a fresh id whose commit has a first parent and only listed parents keeps the commit list well formed. |
| History.Log | proj3/gitlet/Commands.java:296-318 | The ids log prints start at the given commit, end at the root and are all listed. |
| History.LogStep | proj3/gitlet/Commands.java:309-316 | Each log step moves to the first parent, which is listed earlier, so the walk terminates. |
| History.LogIds | proj3/gitlet/Commands.java:296-318 | The loop that follows first-parent links from HEAD collects exactly the chain `Log` from HEAD to the root. |
| History.WithMessage | proj3/gitlet/Commands.java:343-358 | An id is selected exactly when it is among the given ids and its commit's message equals the query. |
| History.Find | proj3/gitlet/Commands.java:343-358 | find reports "no commit" exactly when no listed commit has the message; otherwise it returns the matching ids in creation order. |
| History.FirstWithPrefix | proj3/gitlet/Commands.java:439-450 | Resolves to nothing exactly when no id starts with the argument; otherwise the result is a listed id with that prefix. |
| History.FirstWithPrefixAt | proj3/gitlet/Commands.java:439-450 | The resolved id is the first matching one in creation order. |
| History.FullIdResolvesToItself | proj3/gitlet/Commands.java:430-437 | Among ids of equal length, a full listed id resolves to itself. This is what makes `checkout -- f` read HEAD. |
| History.ResolveId | proj3/gitlet/Commands.java:439-454 | The loop counts no match exactly when no id has the prefix. Otherwise it returns a listed id with the prefix, and with equal-length ids the first such id. Ambiguity is never reported. |
| History.Order | proj3/gitlet/Commands.java:750-762 | The chain getsplitpoint enqueues after a commit consists of listed commits. It is empty exactly at the root, and otherwise ends at the root. |
| History.Visit | proj3/gitlet/Commands.java:742-764 | One side's dequeue order starts at its own commit and ends at the root. |
| History.FirstIn | proj3/gitlet/Commands.java:767-790 | Nothing is found exactly when no element is in the set; otherwise the result is an element of both. |
| History.FirstInAfter | proj3/gitlet/Commands.java:767-790 | After a prefix that avoids the set, the first element found is the next one that is in it. |
| History.RootIsMarked | proj3/gitlet/Commands.java:741-792 | The last commit the head side dequeues, the root, is marked by the given side. |
| History.HeadSideStep | proj3/gitlet/Commands.java:767-789 | One iteration of the second loop: a marked front is the first marked commit of the head side, and an unmarked one is skipped while the invariant is kept. |
| History.Parents | proj3/gitlet/Commands.java:750-755 | The parents getsplitpoint collects are none exactly for the root, and at most two. |
| History.OrderStep | proj3/gitlet/Commands.java:750-762 | Expanding a commit enqueues its parents, then continues from its last parent, which is listed earlier. |
| History.QueueStep | proj3/gitlet/Commands.java:746-763 | Dequeuing the front and enqueuing the chain variable's parents leaves the whole dequeue order unchanged. |
| History.MarkGivenSide | proj3/gitlet/Commands.java:742-764 | The first loop marks exactly the commits of the given side's dequeue order. |
| History.SplitPoint | proj3/gitlet/Commands.java:741-792 | The loops return the first head-side commit the given side marked. |
| History.SplitPointFound | proj3/gitlet/Commands.java:741-792 | With well-formed parents a split point always exists (null is never returned), and both sides dequeue it. |
| History.SplitPointIsHead | proj3/gitlet/Commands.java:729-733 | When the given side reaches HEAD, the split point is HEAD, and merge then fast-forwards. |
| History.ForkedWellFormed | proj3/gitlet/Commands.java:218-223 | The five-commit history r; p, x children of r; a child of p; m merging a with x, is a well-formed commit list. |
| History.ForkedLog | proj3/gitlet/Commands.java:296-318 | In that history the first-parent chain from m is m, a, p, r. |
| History.ForkedOrderX | proj3/gitlet/Commands.java:750-762 | In that history the chain enqueued after x is r. |
| History.ForkedGivenSide | proj3/gitlet/Commands.java:742-764 | In that history the given side from m dequeues m, a, x, r: it expands only the last parent enqueued, so p is never marked. |
| History.ForkedHeadSide | proj3/gitlet/Commands.java:767-790 | In that history the head side from p dequeues p, r. |
| History.MissedFastForward | proj3/gitlet/Commands.java:729-733 | Although p is on m's first-parent chain, the split point of HEAD p and given tip m is r, not p, so merging m into p does not fast-forward. |
| History.VisitIsLogWithoutMerges | proj3/gitlet/Commands.java:741-764 | Without merge commits, a side's dequeue order is the first-parent chain that log prints. |
| History.SplitPointWithoutMerges | proj3/gitlet/Commands.java:741-792 | Without merge commits, the split point is the first commit on HEAD's first-parent chain that is on the given branch's chain. |
| MergeRules.CurrentLoop | proj3/gitlet/Commands.java:616-637 | The loop over HEAD's files acts only on files HEAD tracks and never removes. It takes the given version only when HEAD kept the split version and the given side changed it. It conflicts only when HEAD changed the split version and the two sides differ. |
| MergeRules.GivenLoop | proj3/gitlet/Commands.java:639-655 | The loop over the given tip's files acts only on files the given side tracks with a version different from HEAD's, and never removes. It takes the given version only for a file neither the split point nor HEAD tracks. It conflicts only when the given version differs from both the split and HEAD versions. |
| MergeRules.SplitLoop | proj3/gitlet/Commands.java:665-675 | mergeremove removes a file exactly when HEAD kept the split version and the given side dropped it, and does nothing else. |
| MergeRules.LoopsExclusive | proj3/gitlet/Commands.java:616-675 | At most one of the current-side loop, the given-side loop and mergeremove acts on any file. |
| MergeRules.LoopPicksResolve | proj3/gitlet/Commands.java:616-675 | The action any loop takes on a file is that file's combined merge action. |
| MergeRules.Resolve | proj3/gitlet/Commands.java:616-675 | The combined action is the three-way rule: Keep when the given side is unchanged or both sides agree; take the given version (or remove the file) when only the given side changed; conflict when both changed differently. |
| MergeRules.ResolveIsThreeWay | proj3/gitlet/Commands.java:616-675 | The three loops agree with the three-way table, case by case. |
| MergeRules.ActionFacts | proj3/gitlet/Commands.java:616-675 | A taken version exists and differs from the current one, so add stages it. A removed file is tracked by HEAD and not by the given side. A conflict has differing sides. |
| MergeRules.ConflictText | proj3/gitlet/Commands.java:813-814 | The conflict text is the two sides' contents plus 29 characters of markers. |
| MergeRules.ConflictTextParts | proj3/gitlet/Commands.java:813-814 | The conflict text is the head marker, the current side, the separator, the given side and the end marker, in that order. |
| MergeRules.ConflictTextInjective | proj3/gitlet/Commands.java:813-814 | Given the current side's length, the conflict text determines both sides. |
| Trees.SnapshotEntries | proj3/gitlet/Commands.java:207-217 | A new commit's snapshot: a staged entry wins, a name staged for removal is untracked, other names keep the parent's entry. Named snapshots stay named. |
| Trees.PutEach | proj3/gitlet/Commands.java:210-214 | The put loop yields the parent snapshot overlaid with every staged entry. |
| Trees.RemoveEach | proj3/gitlet/Commands.java:215-217 | The remove loop deletes exactly the names staged for removal. |
| Trees.ApplyStage | proj3/gitlet/Commands.java:207-217 | Both loops together yield the commit snapshot. |
| Trees.FindUntracked | proj3/gitlet/Commands.java:491-500 | The scan reports a file exactly when some working file is untracked, unstaged and tracked by the target. |
| Trees.DeleteDropped | proj3/gitlet/Commands.java:501-506 | The delete loop removes exactly the files HEAD tracks and the target does not. |
| Trees.WriteFiles | proj3/gitlet/Commands.java:507-511 | The write loop gives every target file its blob's content and leaves other files alone. |
| Trees.PruneWriteCommute | proj3/gitlet/Commands.java:586-596 | Delete-then-write (branch checkout) and write-then-delete (reset) give the same tree. |
| Trees.CheckedOut | proj3/gitlet/Commands.java:501-511 | After a checkout, target files hold their content, files dropped from HEAD are gone, and others are untouched. |
| Commands.RecordCommit | proj3/gitlet/Commands.java:218-225 | Storing and listing a new commit, moving the current branch and HEAD to it and clearing the stage keeps the repository consistent. |
| Commands.MoveHead | proj3/gitlet/Commands.java:597-599 | Moving the current branch and HEAD to a listed commit, with an empty stage, keeps the repository consistent. |
| Commands.SwitchBranch | proj3/gitlet/Commands.java:512-514 | Switching HEAD to an existing branch, with an empty stage, keeps the repository consistent. |
| Commands.ChangeStage | proj3/gitlet/Commands.java:122-138 | Changing only the stage, the working tree and the blob store keeps the repository consistent while the stage stays disjoint and named. |
| Commands.ConflictGrow | proj3/gitlet/Commands.java:629-654 | Merging one more file sets the conflict flag exactly when that file conflicts. |
| Commands.ActedOnIsTracked | proj3/gitlet/Commands.java:616-675 | Merge acts only on files that some of the three snapshots track. |
| Commands.AfterCovers | proj3/gitlet/Commands.java:616-675 | Once every file some loop acts on is merged, the stage, the working tree and the conflict flag are those of merging every file. |
| Commands.MergedSnapshotEntries | proj3/gitlet/Commands.java:677-689 | Per file, the merge commit keeps HEAD's version, takes the given version, drops the file, or tracks the conflict text's blob, as the file's action says. |
| Commands.ThreeWayMerge | proj3/gitlet/Commands.java:616-689 | Without a conflict on a file, the merge commit has the current version where the given side left the split version alone, and the given side's version (or absence) otherwise. |
| Commands.SoFarConsistent | proj3/gitlet/Commands.java:616-657 | Part-way through merge's passes the repository stays consistent. |
| Commands.TakeFacts | proj3/gitlet/Commands.java:619-623 | A file merge takes from the given side is tracked there, readable, named and different from HEAD's version. |
| Commands.TakeStep | proj3/gitlet/Commands.java:621-623 | Taking the given version writes its content and stages its blob, and nothing else changes. |
| Commands.WriteStep | proj3/gitlet/Commands.java:621-654 | Merging a file that merge writes stages its blob and writes its content; the file is not staged for removal. |
| Commands.ReadSide | proj3/gitlet/Commands.java:801-811 | A side reads as its blob's content when the blob is stored, and as "" when the file is absent or its blob is missing. |
| Commands.ConflictStep | proj3/gitlet/Commands.java:625-654 | A conflicted file gets the conflict text, and the text's blob is staged. |
| Commands.RemoveStep | proj3/gitlet/Commands.java:667-672 | A removed file is tracked by HEAD and not staged; merging it stages the removal and deletes the working file. |
| Commands.Repository.Init | proj3/gitlet/Commands.java:67-90 | One root commit with message "initial commit", no parent and no files; branch master points at it and is HEAD; the stage is empty. |
| Commands.Repository.Add | proj3/gitlet/Commands.java:108-147 | A missing file fails with nothing changed. A file matching HEAD's blob leaves both stage maps. Otherwise its blob is written and staged and it is no longer staged for removal. HEAD, branches and commits never change. |
| Commands.Repository.AddTwice | proj3/gitlet/Commands.java:108-147 | add is idempotent: a second add of the same file gives the same outcome and leaves the repository as the first left it. |
| Commands.Repository.CommitChanges | proj3/gitlet/Commands.java:198-227 | An empty stage fails first, then an empty message. Otherwise the new commit has parent HEAD, no second parent and snapshot HEAD+staged−removed. It is listed and becomes HEAD and the current branch's tip. The stage ends empty and the working tree is untouched. |
| Commands.Repository.StoreCommit | proj3/gitlet/Commands.java:218-225 | A commit is stored under the fresh id, which is appended to the list. The current branch and HEAD move to it and the stage ends empty. Nothing else changes. |
| Commands.Repository.AddCommitCheckout | proj3/gitlet/Commands.java:108-147 | add of a changed file, then commit (Commands.java:198-227), then checkout of that file from HEAD (Commands.java:430-437) all succeed. The new HEAD tracks the file's added blob, and the working file ends with the content it was added with. |
| Commands.Repository.Rm | proj3/gitlet/Commands.java:235-259 | A file staged for addition is only unstaged. Otherwise a HEAD-tracked file is staged for removal and deleted. Otherwise rm fails with nothing changed. |
| Commands.Repository.CheckoutFile | proj3/gitlet/Commands.java:438-469 | The id resolves to the first listed id with the prefix. No match, and a file the commit does not track, fail. On success only working file f changes, to the blob's content. |
| Commands.Repository.CheckoutHeadFile | proj3/gitlet/Commands.java:430-437 | The same with HEAD's id, so the HEAD version of f is written. |
| Commands.Repository.BranchCheckout | proj3/gitlet/Commands.java:474-516 | Fails, in this order, for an unknown branch, the current branch and an untracked file in the way, changing nothing. Otherwise dropped files are deleted, target files are written, the stage is cleared and the branch becomes HEAD; the branch table is unchanged. |
| Commands.Repository.Branch | proj3/gitlet/Commands.java:527-535 | A taken name fails; otherwise the new branch points at HEAD and nothing else changes. |
| Commands.Repository.RmBranch | proj3/gitlet/Commands.java:542-553 | An unknown branch fails, then the current branch fails; otherwise only that name is deleted. |
| Commands.Repository.Reset | proj3/gitlet/Commands.java:565-601 | Only an exact listed id is accepted; an untracked file in the way fails. Otherwise target files are written, dropped files are deleted, the current branch and HEAD move to the commit, headbranch is kept and the stage is cleared. |
| Commands.Repository.MergeCheck | proj3/gitlet/Commands.java:700-728 | mergecheck passes exactly when the stage is empty, the branch exists and is not the current one, and no untracked file is in the way; a non-empty stage is reported first. |
| Commands.Repository.Merge | proj3/gitlet/Commands.java:605-663 | mergecheck's failures come in order (non-empty stage, unknown branch, self-merge, untracked file) and change nothing. A split at HEAD is a branch checkout. A split at the given tip changes nothing. Otherwise every file is merged and a merge commit recorded, and the result reports whether a conflict occurred. |
| Commands.Repository.MergeAndCommit | proj3/gitlet/Commands.java:614-661 | The passes and mergecommit produce exactly `MergeResult`, and the flag reports a conflict. |
| Commands.Repository.MergeFiles | proj3/gitlet/Commands.java:616-657 | After the three passes every file of the split, current and given snapshots is merged. |
| Commands.Repository.CurrentPass | proj3/gitlet/Commands.java:616-638 | The loop over HEAD's files handles every file it acts on; the state tracks the merge specification and the flag tracks conflicts. |
| Commands.Repository.GivenPass | proj3/gitlet/Commands.java:639-656 | The same for the loop over the given tip's files. |
| Commands.Repository.SplitPass | proj3/gitlet/Commands.java:665-675 | The same for mergeremove's loop over the split point's files, which adds no conflicts. |
| Commands.Repository.AllActionsApplied | proj3/gitlet/Commands.java:616-675 | After the three loops every acted-on file is handled. |
| Commands.Repository.ApplyAction | proj3/gitlet/Commands.java:621-672 | Checkout plus add, writeConflict, or rm advances the state by exactly one merged file. |
| Commands.Repository.MergeOne | proj3/gitlet/Commands.java:621-654 | Handling one file a loop acts on advances the state by that file and sets the conflict flag exactly when some merged file conflicts. |
| Commands.Repository.TakeFile | proj3/gitlet/Commands.java:621-623 | Checkout of the given tip's version followed by add merges one more file. |
| Commands.Repository.CheckoutGiven | proj3/gitlet/Commands.java:621-622 | Checkout of a readable file from a listed commit changes only that working file. |
| Commands.Repository.StageGiven | proj3/gitlet/Commands.java:623 | add of a file whose stored blob differs from HEAD's stages the blob and clears any removal. |
| Commands.Repository.WriteConflict | proj3/gitlet/Commands.java:794-819 | The working file gets the conflict text, with an unreadable or absent side read as "". The text's blob is staged but not written to the blob store. |
| Commands.Repository.MergeCommit | proj3/gitlet/Commands.java:677-698 | The merge commit has message "Merged B into H.", parents HEAD and the given tip, and snapshot HEAD+staged−removed. It becomes the current branch's tip and the stage ends empty. |

## Left out

- Argument dispatch, operand checks and exiting, which live in Main.java, are
  not part of this model. Each printed error is an `Error` value.
- Persistence is not modelled: the variables file, `savevariables`, object
  serialization and the directory creation of `init`. The stores live in
  memory.
- Filesystem calls go through `Utils`. Utils.java is not part of this model.
  The working directory is a map from file name to content.
- SHA-1 is modelled as collision-free. A blob fingerprint is the pair (name,
  content), and commit ids are fresh parameters of length 40, not hashes of
  the serialized commit.
- The clock is a `timestamp` parameter, including for the root commit.
- The printed text of `log`, `find`, `global-log` and `status` is not
  modelled. `global-log` and `status` compute nothing beyond printing, so
  they are not modelled either.
- `init`'s "already exists" check is not modelled. It depends on the
  filesystem, and the constructor always builds a new repository.
- The model checks for an unwritten blob up front, before any change, in
  checkout, branch checkout, reset and merge. A conflict blob is staged but
  never written, so a later checkout of it reads a missing blob file, and
  the source's behaviour then depends on `Utils`. The model reports
  `MissingBlob` instead of failing part-way.
- Commands.Repository.WriteConflict: a current side the snapshot lacks, or
  whose blob file is missing, is read as "". The source passes a null name
  to `Utils.join` in the first case.
- Commands.Repository.WriteConflict: it requires f not to be staged for
  removal, which the source does not check. Merge never writes a conflict
  for a file it removes, and this requirement keeps the two stage maps
  disjoint.
- getsplitpoint's inner `while` over the collected parents is modelled as
  appending the parents to the queue.
- merge computes the split point once. The source computes it in
  `mergecheck` and again in `merge`, with the same result.
- The delete loop of branch checkout runs over HEAD's tracked names, not
  over the files listed in the working directory as the source does
  (Commands.java:501-506). Deleting a name that is absent changes nothing,
  so the result is the same. Reset's delete loop already runs over HEAD's
  names (Commands.java:591-596).
- In commit and mergecommit the stage is cleared before the new commit is
  recorded. The order is not observable.
- log and find are functions and methods over the commit store in
  `History`, not methods of the repository class.
