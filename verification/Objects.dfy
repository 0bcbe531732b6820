/** What Git and Git LFS store, as values.  Hashes are taken to be injective, so an object
    identifier is represented by the content it names: two blobs, trees or commits have the
    same identifier exactly when they are equal. */
module Objects {

  datatype Option<+T> = None | Some(value: T)

  type Path = string

  type Branch = string

  /** A blob's bytes.  `Pointer` is a Git LFS pointer text: the object it names, the size it
      claims for it, and the length of the text itself. */
  datatype Content =
    | Raw(tag: nat, size: nat)
    | Pointer(target: Content, claimed: nat, length: nat)
  {
    function Size(): nat {
      if Raw? then size else length
    }
  }

  /** A Git LFS object as a pointer names it.  The oid is the SHA-256 of the payload. */
  datatype LfsObject = LfsObject(oid: Content, size: nat)
  {
    /** A payload with this hash has this size: what every verified read checks. */
    predicate Genuine() {
      oid.Size() == size
    }
  }

  function ObjectIds(objects: seq<LfsObject>): set<Content> {
    set o | o in objects :: o.oid
  }

  const POINTER_LIMIT := 1024

  /** Only a blob of at most 1024 bytes is ever read as a pointer. */
  function ParsePointer(blob: Content): Option<LfsObject> {
    if blob.Pointer? && blob.length <= POINTER_LIMIT then Some(LfsObject(blob.target, blob.claimed)) else None
  }

  datatype Mode = Regular | Executable | Symlink

  datatype Entry = Entry(mode: Mode, blob: Content)

  /** A tree, an index or a worktree, by path. */
  type Tree = map<Path, Entry>

  function At(tree: Tree, path: Path): Option<Entry> {
    if path in tree then Some(tree[path]) else None
  }

  datatype Commit = Commit(tree: Tree, parents: seq<Commit>, message: string)
}
