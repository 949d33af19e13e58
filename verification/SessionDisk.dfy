/** A session's own directory, by paths below its root: the upper directory, and for each
    background job a directory that holds the job's upper and its snapshot. */
module SessionDisk {
  import opened FileTree

  const UPPER: Path := ["upper"]

  function JobUpper(job: string): Path {
    ["jobs", job, "upper"]
  }

  function JobSnapshot(job: string): Path {
    ["jobs", job, "snapshot"]
  }

  predicate Inside(dir: Path, q: Path) {
    dir <= q && |dir| < |q|
  }

  function Rels(disk: Tree, dir: Path): (rels: set<Path>)
    ensures [] !in rels
  {
    set q | q in disk && Inside(dir, q) :: q[|dir|..]
  }

  /** The tree in a directory, by paths relative to it. */
  function TreeAt(disk: Tree, dir: Path): (t: Tree)
    ensures [] !in t
  {
    map p | p in Rels(disk, dir) && dir + p in disk :: disk[dir + p]
  }

  /** The disk with a directory's contents replaced. */
  function PutTree(disk: Tree, dir: Path, t: Tree): Tree {
    (map q | q in disk && !Inside(dir, q) :: disk[q]) +
    map q | q in (set p | p in t :: dir + p) && q[|dir|..] in t :: t[q[|dir|..]]
  }

  /** Neither directory lies in the other. */
  predicate Apart(a: Path, b: Path) {
    !(a <= b) && !(b <= a)
  }

  lemma ReadAt(disk: Tree, dir: Path, p: Path)
    requires p != []
    ensures p in TreeAt(disk, dir) <==> dir + p in disk
    ensures p in TreeAt(disk, dir) ==> TreeAt(disk, dir)[p] == disk[dir + p]
  {
    assert (dir + p)[|dir|..] == p && Inside(dir, dir + p);
    forall q | q in disk && Inside(dir, q) && q[|dir|..] == p ensures q == dir + p {
      assert q == dir + q[|dir|..];
    }
  }

  /** Two disks hold the same tree in a directory if they have the same entries inside it. */
  lemma SameTreeAt(a: Tree, b: Tree, dir: Path)
    requires forall q | Inside(dir, q) :: (q in a <==> q in b) && (q in a ==> a[q] == b[q])
    ensures TreeAt(a, dir) == TreeAt(b, dir)
  {
    forall p ensures (p in TreeAt(a, dir) <==> p in TreeAt(b, dir)) &&
                     (p in TreeAt(a, dir) ==> TreeAt(a, dir)[p] == TreeAt(b, dir)[p])
    {
      if p != [] {
        ReadAt(a, dir, p);
        ReadAt(b, dir, p);
        assert Inside(dir, dir + p);
      }
    }
  }

  /** A disk entry after a directory's contents were replaced. */
  lemma PutRead(disk: Tree, dir: Path, t: Tree, q: Path)
    requires [] !in t
    ensures Inside(dir, q) ==>
      (q in PutTree(disk, dir, t) <==> q[|dir|..] in t) &&
      (q in PutTree(disk, dir, t) ==> PutTree(disk, dir, t)[q] == t[q[|dir|..]])
    ensures !Inside(dir, q) ==>
      (q in PutTree(disk, dir, t) <==> q in disk) && (q in disk ==> PutTree(disk, dir, t)[q] == disk[q])
  {
    if Inside(dir, q) {
      assert q == dir + q[|dir|..];
    } else {
      forall p | p in t ensures dir + p != q {
        assert Inside(dir, dir + p);
      }
    }
    forall p | p in t && dir + p == q ensures p == q[|dir|..] {
    }
  }

  /** A directory holds what was put there. */
  lemma PutGet(disk: Tree, dir: Path, t: Tree)
    requires [] !in t
    ensures TreeAt(PutTree(disk, dir, t), dir) == t
  {
    var a := TreeAt(PutTree(disk, dir, t), dir);
    forall p ensures (p in a <==> p in t) && (p in t ==> a[p] == t[p]) {
      if p != [] {
        ReadAt(PutTree(disk, dir, t), dir, p);
        PutRead(disk, dir, t, dir + p);
        assert (dir + p)[|dir|..] == p;
      }
    }
  }

  lemma ApartInside(a: Path, b: Path, q: Path)
    requires Apart(a, b) && Inside(b, q)
    ensures !Inside(a, q)
  {
  }

  /** And nothing changes in a directory apart from it. */
  lemma PutApart(disk: Tree, dir: Path, t: Tree, other: Path)
    requires [] !in t && Apart(dir, other)
    ensures TreeAt(PutTree(disk, dir, t), other) == TreeAt(disk, other)
  {
    forall q | Inside(other, q)
      ensures (q in PutTree(disk, dir, t) <==> q in disk) && (q in disk ==> PutTree(disk, dir, t)[q] == disk[q])
    {
      ApartInside(dir, other, q);
      PutRead(disk, dir, t, q);
    }
    SameTreeAt(PutTree(disk, dir, t), disk, other);
  }

  // ---- The directories of a session and its jobs lie apart ----

  lemma UpperApart(job: string)
    ensures Apart(JobUpper(job), UPPER) && Apart(UPPER, JobUpper(job))
    ensures Apart(JobSnapshot(job), UPPER) && Apart(UPPER, JobSnapshot(job))
  {
    assert UPPER[0] != JobUpper(job)[0] && UPPER[0] != JobSnapshot(job)[0];
  }

  lemma SnapshotApart(a: string, b: string)
    ensures Apart(JobUpper(a), JobSnapshot(b)) && Apart(JobSnapshot(b), JobUpper(a))
  {
    assert JobUpper(a)[2] != JobSnapshot(b)[2];
  }

  lemma JobsApart(a: string, b: string)
    requires a != b
    ensures Apart(JobUpper(a), JobUpper(b)) && Apart(JobSnapshot(a), JobSnapshot(b))
  {
    assert JobUpper(a)[1] == a && JobUpper(b)[1] == b && JobSnapshot(a)[1] == a && JobSnapshot(b)[1] == b;
  }

  /** Writing a job's upper. */
  lemma PutJobUpper(disk: Tree, job: string, t: Tree, other: string)
    requires [] !in t
    ensures var disk' := PutTree(disk, JobUpper(job), t);
      TreeAt(disk', UPPER) == TreeAt(disk, UPPER)
      && TreeAt(disk', JobSnapshot(other)) == TreeAt(disk, JobSnapshot(other))
      && TreeAt(disk', JobUpper(other)) == if other == job then t else TreeAt(disk, JobUpper(other))
  {
    UpperApart(job);
    SnapshotApart(job, other);
    PutApart(disk, JobUpper(job), t, UPPER);
    PutApart(disk, JobUpper(job), t, JobSnapshot(other));
    if other == job {
      PutGet(disk, JobUpper(job), t);
    } else {
      JobsApart(job, other);
      PutApart(disk, JobUpper(job), t, JobUpper(other));
    }
  }

  /** Taking a job's snapshot. */
  lemma PutJobSnapshot(disk: Tree, job: string, t: Tree, other: string)
    requires [] !in t
    ensures var disk' := PutTree(disk, JobSnapshot(job), t);
      TreeAt(disk', UPPER) == TreeAt(disk, UPPER)
      && TreeAt(disk', JobUpper(other)) == TreeAt(disk, JobUpper(other))
      && TreeAt(disk', JobSnapshot(other)) == if other == job then t else TreeAt(disk, JobSnapshot(other))
  {
    UpperApart(job);
    SnapshotApart(other, job);
    PutApart(disk, JobSnapshot(job), t, UPPER);
    PutApart(disk, JobSnapshot(job), t, JobUpper(other));
    if other == job {
      PutGet(disk, JobSnapshot(job), t);
    } else {
      JobsApart(job, other);
      PutApart(disk, JobSnapshot(job), t, JobSnapshot(other));
    }
  }

  /** Writing the session's upper. */
  lemma PutUpper(disk: Tree, t: Tree, job: string)
    requires [] !in t
    ensures var disk' := PutTree(disk, UPPER, t);
      TreeAt(disk', UPPER) == t && TreeAt(disk', JobUpper(job)) == TreeAt(disk, JobUpper(job))
      && TreeAt(disk', JobSnapshot(job)) == TreeAt(disk, JobSnapshot(job))
  {
    UpperApart(job);
    PutGet(disk, UPPER, t);
    PutApart(disk, UPPER, t, JobUpper(job));
    PutApart(disk, UPPER, t, JobSnapshot(job));
  }
}
