/** Staging.java: the staging area with its two mutable maps. */
module StagingArea {
  import opened Blobs

  class Staging {
    /** Files staged for addition: name to blob fingerprint. */
    var staged: map<string, BlobId>
    /** Files staged for removal: name to a placeholder value. */
    var removed: map<string, string>

    /** A new staging area has nothing staged. */
    constructor ()
      ensures staged == map[] && removed == map[]
    {
      staged := map[];
      removed := map[];
    }

    /** Nothing is staged for addition or for removal. */
    predicate IsEmpty()
      reads this
    {
      staged == map[] && removed == map[]
    }

    /** addstaged: put or overwrite one addition entry. */
    method AddStaged(name: string, id: BlobId)
      modifies this
      ensures staged == old(staged)[name := id]
      ensures removed == old(removed)
    {
      staged := staged[name := id];
    }

    /** addremoved: put one removal entry. The addition map is left alone:
        keeping the two maps disjoint is the caller's business. */
    method AddRemoved(name: string, mark: string)
      modifies this
      ensures removed == old(removed)[name := mark]
      ensures staged == old(staged)
    {
      removed := removed[name := mark];
    }

    /** clearstages: empty both maps. */
    method ClearStages()
      modifies this
      ensures staged == map[] && removed == map[]
    {
      staged := map[];
      removed := map[];
    }
  }
}
