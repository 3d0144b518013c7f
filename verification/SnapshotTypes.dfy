/** Content-addressed names of the filesystem snapshot store
    (src/filesystem-snapshot-store.ts). SHA-256 is taken to be injective, so a
    manifest ref is identified with the manifest it addresses, and a blob hash
    with its shard directory (the first two hex digits) and the rest. */
module SnapshotTypes {

  type Shard = n: nat | n < 256

  datatype Hash = Hash(shard: Shard, rest: nat)

  datatype ManifestEntry =
    | File(path: string, sha256: Hash)
    | Symlink(path: string, target: string)

  /** A manifest, and the ref that addresses it. */
  datatype Ref = Ref(entries: seq<ManifestEntry>)

  /** The blobs a manifest names; symlinks carry their target inline. */
  function Blobs(ref: Ref): set<Hash> {
    set e | e in ref.entries && e.File? :: e.sha256
  }

  ghost predicate Distinct<T>(s: seq<T>) {
    forall i, j :: 0 <= i < j < |s| ==> s[i] != s[j]
  }

  /** A directory listing yields each name of the directory once, in some order. */
  ghost predicate IsListing<T(!new)>(names: seq<T>, directory: set<T>) {
    Distinct(names) && forall x :: x in names <==> x in directory
  }
}
