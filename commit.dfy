/** Commit.java: an immutable commit record. */
module Commits {
  import opened Wrappers
  import opened Blobs

  /** A commit as the constructor at Commit.java:26-35 builds it: the
      message, the clock reading taken at construction, the parent and
      second-parent ids (None for Java's null) and the snapshot mapping each
      tracked file name to its blob fingerprint. There are no setters, so the
      datatype's destructors are the getters. The commit's own id is not a
      field of this value: a repository stores each commit under its id. */
  datatype Commit = Commit(
    message: string,
    timestamp: string,
    parent: Option<string>,
    secondParent: Option<string>,
    blobs: map<string, BlobId>)
}
