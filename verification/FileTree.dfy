/** Directory trees as rattan's layers hold them: a finite map from paths to entries.
    The root directory itself is implicit, as it is in a manifest. */
module FileTree {

  type Path = seq<string>

  type Byte = x: int | 0 <= x < 256

  /** The permission bits of a mode, without the file-type bits. */
  type Perm = x: int | 0 <= x < 4096

  datatype SpecialKind = Whiteout | Fifo | Socket | Device

  /** `hidesLower` is overlayfs's opaque attribute; `toDir` says that the host
      resolves the symbolic link to a directory. */
  datatype Entry =
    | Dir(perm: Perm, hidesLower: bool)
    | File(perm: Perm, data: seq<Byte>)
    | Link(target: string, toDir: bool)
    | Special(kind: SpecialKind)

  type Tree = map<Path, Entry>

  function Parent(p: Path): Path
    requires p != []
  {
    p[..|p| - 1]
  }

  ghost predicate ValidName(n: string) {
    n != "" && '/' !in n && '\0' !in n
  }

  ghost predicate ValidPath(p: Path) {
    p != [] && forall i | 0 <= i < |p| :: ValidName(p[i])
  }

  /** Every entry has a valid path and sits in a real directory. */
  ghost predicate WellFormed(t: Tree) {
    forall p | p in t ::
      ValidPath(p) && (|p| > 1 ==> Parent(p) in t && t[Parent(p)].Dir?)
  }

  /** Symbolic-link targets hold no newline: the manifest ends a record with one. */
  ghost predicate PlainTargets(t: Tree) {
    forall p | p in t && t[p].Link? :: '\n' !in t[p].target
  }

  /** Every proper ancestor of an entry is a directory of the tree. */
  lemma {:induction false} AncestorsAreDirs(t: Tree, p: Path, k: nat)
    requires WellFormed(t) && p in t && 0 < k < |p|
    ensures p[..k] in t && t[p[..k]].Dir?
    decreases |p|
  {
    if k < |p| - 1 {
      AncestorsAreDirs(t, Parent(p), k);
      assert Parent(p)[..k] == p[..k];
    } else {
      assert Parent(p) == p[..k];
    }
  }
}
