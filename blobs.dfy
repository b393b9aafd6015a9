/** Blobs.java: an immutable (name, content) record and its fingerprint. */
module Blobs {

  /** The fingerprint sha1(name, content) of a blob (Blobs.java:19).
      SHA-1 is modelled as collision-free: a fingerprint is determined by,
      and determines, the name and content it was computed from. */
  datatype BlobId = Sha1(name: string, content: string)

  /** A blob as the constructor at Blobs.java:16-20 builds it. The fields
      are never reassigned, so `name` and `content` are the getters. */
  datatype Blob = Blob(name: string, content: string)
  {
    /** getId: the fingerprint computed once from the name and content. */
    function Id(): (id: BlobId)
      ensures id.name == name && id.content == content
    {
      Sha1(name, content)
    }
  }

  /** Two blobs have the same fingerprint exactly when they have the same
      name and content; add relies on the "if" direction to recognise an
      unchanged file. */
  lemma IdsEqualIffSameBlob(a: Blob, b: Blob)
    ensures a.Id() == b.Id() <==> (a.name == b.name && a.content == b.content)
  {
  }
}
