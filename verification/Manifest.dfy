/** The manifest text a commit id is the hash of, and how much of a tree it determines.
    SHA-256 is idealised as an injective function: of file contents as a hex dump,
    of the manifest as the wrapper `CommitId`. */
module Manifest {
  import opened FileTree
  import opened Text
  import opened Seqs

  datatype CommitId = CommitId(manifest: string)

  datatype Record = Record(rel: string, mode: nat, kind: char, payload: string)

  // ---- One record ----

  function RelPath(p: Path): string
    requires p != []
  {
    if |p| == 1 then p[0] else p[0] + ['/'] + RelPath(p[1..])
  }

  function Octal(n: nat): string {
    if n < 8 then ["01234567"[n]] else Octal(n / 8) + ["01234567"[n % 8]]
  }

  /** The idealised content digest. */
  function Sha(data: seq<Byte>): string {
    if data == [] then ""
    else ["0123456789abcdef"[data[0] / 16], "0123456789abcdef"[data[0] % 16]] + Sha(data[1..])
  }

  const S_IFDIR := 0x4000
  const S_IFREG := 0x8000
  const LINK_MODE := 0xA1FF

  /** The line written for an entry. A link the host resolves to a directory arrives
      among the directory names and is written as one, without its target. */
  function RecordOf(p: Path, e: Entry): Record
    requires p != [] && !e.Special?
  {
    match e
    case Dir(perm, _) => Record(RelPath(p), S_IFDIR + perm, 'd', "")
    case File(perm, data) => Record(RelPath(p), S_IFREG + perm, 'f', Sha(data))
    case Link(target, toDir) =>
      if toDir then Record(RelPath(p), LINK_MODE, 'd', "") else Record(RelPath(p), LINK_MODE, 'l', target)
  }

  function RecordText(r: Record): string {
    r.rel + ['\0'] + ("0o" + Octal(r.mode)) + ['\0'] + [r.kind] + ['\0'] + r.payload + ['\n']
  }

  function Join(lines: seq<string>): string {
    if lines == [] then "" else lines[0] + Join(lines[1..])
  }

  function Texts(rs: seq<Record>): seq<string> {
    if rs == [] then [] else [RecordText(rs[0])] + Texts(rs[1..])
  }

  // ---- The walk ----

  ghost function Below(t: Tree, p: Path): set<Path> {
    set q | q in t && p < q
  }

  ghost function Children(t: Tree, p: Path): set<string> {
    set q | q in t && |q| == |p| + 1 && p < q :: q[|p|]
  }

  lemma ChildrenAre(t: Tree, p: Path, n: string)
    ensures n in Children(t, p) <==> p + [n] in t
  {
    if n in Children(t, p) {
      var q :| q in t && |q| == |p| + 1 && p < q && q[|p|] == n;
      assert q == p + [n];
    } else {
      var q := p + [n];
      assert q[|p|] == n && p < q;
    }
  }

  predicate ListedAsDir(e: Entry) {
    e.Dir? || (e.Link? && e.toDir)
  }

  ghost function DirNames(t: Tree, p: Path): set<string> {
    set n | n in Children(t, p) && p + [n] in t && ListedAsDir(t[p + [n]])
  }

  ghost function FileNames(t: Tree, p: Path): set<string> {
    set n | n in Children(t, p) && p + [n] in t && !ListedAsDir(t[p + [n]])
  }

  function Lines(t: Tree, p: Path, names: seq<string>): seq<Record> {
    if names == [] then []
    else
      var q := p + [names[0]];
      (if q in t && !t[q].Special? then [RecordOf(q, t[q])] else []) + Lines(t, p, names[1..])
  }

  /** `os.walk` top-down with both name lists sorted, the directory names first. */
  ghost function Walk(t: Tree, p: Path): seq<Record>
    decreases Below(t, p), 1, 0
  {
    Lines(t, p, Sorted(DirNames(t, p))) + Lines(t, p, Sorted(FileNames(t, p))) +
    Descend(t, p, Sorted(DirNames(t, p)))
  }

  ghost function Descend(t: Tree, p: Path, names: seq<string>): seq<Record>
    decreases Below(t, p), 0, |names|
  {
    if names == [] then []
    else
      var q := p + [names[0]];
      (if q in t && t[q].Dir? then BelowShrinks(t, p, names[0]); Walk(t, q) else []) +
      Descend(t, p, names[1..])
  }

  lemma BelowShrinks(t: Tree, p: Path, n: string)
    requires p + [n] in t
    ensures Below(t, p + [n]) < Below(t, p)
  {
    assert p + [n] in Below(t, p);
    assert p + [n] !in Below(t, p + [n]);
  }

  ghost function ManifestText(t: Tree): string {
    Join(Texts(Walk(t, [])))
  }

  ghost function CommitIdOf(t: Tree): CommitId {
    CommitId(ManifestText(t))
  }

  // ---- What the manifest does not see ----

  function ErasedEntry(e: Entry): Entry {
    match e
    case Dir(perm, _) => Dir(perm, false)
    case Link(_, true) => Link("", true)
    case _ => e
  }

  function Erase(t: Tree): Tree {
    map p | p in t && !t[p].Special? :: ErasedEntry(t[p])
  }

  /** Trees the manifest covers fully. */
  ghost predicate Covered(t: Tree) {
    forall p | p in t :: !t[p].Special? && ErasedEntry(t[p]) == t[p]
  }

  lemma CoveredIsErased(t: Tree)
    ensures Covered(t) <==> Erase(t) == t
  {
    if Erase(t) == t {
      forall p | p in t ensures !t[p].Special? && ErasedEntry(t[p]) == t[p] {
        assert p in Erase(t);
      }
    }
  }

  // ---- Records determine entries ----

  lemma {:induction false} RelPathHasNoNul(p: Path)
    requires ValidPath(p)
    ensures '\0' !in RelPath(p)
  {
    if |p| > 1 { RelPathHasNoNul(p[1..]); }
  }

  lemma {:induction false} RelPathInjective(p: Path, q: Path)
    requires ValidPath(p) && ValidPath(q) && RelPath(p) == RelPath(q)
    ensures p == q
  {
    assert |p| > 1 ==> RelPath(p)[|p[0]|] == '/';
    assert |q| > 1 ==> RelPath(q)[|q[0]|] == '/';
    if |p| > 1 && |q| > 1 {
      FieldUnique(p[0], q[0], '/', RelPath(p[1..]), RelPath(q[1..]));
      RelPathInjective(p[1..], q[1..]);
      assert p == [p[0]] + p[1..] && q == [q[0]] + q[1..];
    } else {
      assert |p| == |q| == 1;
      assert p == [p[0]] && q == [q[0]];
    }
  }

  lemma HexDigits(a: nat, b: nat)
    requires a < 16 && b < 16 && "0123456789abcdef"[a] == "0123456789abcdef"[b]
    ensures a == b
  {
  }

  lemma SameByte(a: Byte, b: Byte)
    requires a / 16 == b / 16 && a % 16 == b % 16
    ensures a == b
  {
  }

  lemma ShaFirst(a: seq<Byte>)
    requires a != []
    ensures |Sha(a)| >= 2 && Sha(a)[2..] == Sha(a[1..])
    ensures Sha(a)[0] == "0123456789abcdef"[a[0] / 16] && Sha(a)[1] == "0123456789abcdef"[a[0] % 16]
  {
  }

  lemma {:induction false} ShaInjective(a: seq<Byte>, b: seq<Byte>)
    requires Sha(a) == Sha(b)
    ensures a == b
  {
    if a != [] && b != [] {
      ShaFirst(a);
      ShaFirst(b);
      HexDigits(a[0] / 16, b[0] / 16);
      HexDigits(a[0] % 16, b[0] % 16);
      SameByte(a[0], b[0]);
      ShaInjective(a[1..], b[1..]);
      Uncons(a, []);
      Uncons(b, []);
    }
  }

  lemma {:induction false} ShaIsPlain(a: seq<Byte>)
    ensures '\n' !in Sha(a)
  {
    if a != [] { ShaIsPlain(a[1..]); }
  }

  lemma RecordDetermines(p: Path, e: Entry, q: Path, f: Entry)
    requires ValidPath(p) && ValidPath(q) && !e.Special? && !f.Special?
    requires RecordOf(p, e) == RecordOf(q, f)
    ensures p == q && ErasedEntry(e) == ErasedEntry(f)
  {
    RelPathInjective(p, q);
    if e.File? && f.File? { ShaInjective(e.data, f.data); }
  }

  // ---- The text determines the records ----

  lemma {:induction false} OctalDigits(n: nat)
    ensures Octal(n) != "" && '\0' !in Octal(n)
    ensures n < 8 <==> |Octal(n)| == 1
  {
    if n >= 8 { OctalDigits(n / 8); }
  }

  lemma {:induction false} OctalInjective(m: nat, n: nat)
    requires Octal(m) == Octal(n)
    ensures m == n
  {
    OctalDigits(m);
    OctalDigits(n);
    var a, b := Octal(m), Octal(n);
    if m >= 8 {
      assert a[|a| - 1] == b[|b| - 1] && a[..|a| - 1] == b[..|b| - 1];
      assert a[..|a| - 1] == Octal(m / 8) && b[..|b| - 1] == Octal(n / 8);
      OctalInjective(m / 8, n / 8);
      assert m % 8 == n % 8;
    }
  }

  ghost predicate Decodable(r: Record) {
    '\0' !in r.rel && '\n' !in r.payload
  }

  /** The fields of a record with what comes after it, one delimiter after the other. */
  lemma RecordFields(r: Record, x: string)
    ensures RecordText(r) + x ==
            r.rel + ['\0'] + ("0o" + Octal(r.mode) + ['\0'] + ([r.kind] + ['\0'] + (r.payload + ['\n'] + x)))
  {
    var mode := "0o" + Octal(r.mode);
    var tail := r.payload + ['\n'] + x;
    Assoc(r.rel + ['\0'] + mode + ['\0'] + [r.kind] + ['\0'] + r.payload, ['\n'], x);
    Assoc(r.rel + ['\0'] + mode + ['\0'] + [r.kind] + ['\0'], r.payload, ['\n'] + x);
    Assoc(r.payload, ['\n'], x);
    Assoc(r.rel + ['\0'] + mode + ['\0'] + [r.kind], ['\0'], tail);
    Assoc(r.rel + ['\0'] + mode + ['\0'], [r.kind], ['\0'] + tail);
    Assoc([r.kind], ['\0'], tail);
    Assoc(r.rel + ['\0'] + mode, ['\0'], [r.kind] + ['\0'] + tail);
    Assoc(r.rel + ['\0'], mode, ['\0'] + ([r.kind] + ['\0'] + tail));
    Assoc(mode, ['\0'], [r.kind] + ['\0'] + tail);
  }

  lemma ModeUnique(m: nat, n: nat, x: string, y: string)
    requires "0o" + Octal(m) + ['\0'] + x == "0o" + Octal(n) + ['\0'] + y
    ensures m == n && x == y
  {
    OctalDigits(m);
    OctalDigits(n);
    FieldUnique("0o" + Octal(m), "0o" + Octal(n), '\0', x, y);
    assert ("0o" + Octal(m))[2..] == Octal(m) && ("0o" + Octal(n))[2..] == Octal(n);
    OctalInjective(m, n);
  }

  lemma KindUnique(a: char, b: char, x: string, y: string)
    requires [a] + ['\0'] + x == [b] + ['\0'] + y
    ensures a == b && x == y
  {
    assert ([a] + ['\0'] + x)[0] == a && ([b] + ['\0'] + y)[0] == b;
    assert ([a] + ['\0'] + x)[2..] == x && ([b] + ['\0'] + y)[2..] == y;
  }

  /** The record format is a prefix code: the NUL-terminated fields and the newline
      end each record unambiguously, even where a file name holds newlines. */
  lemma {:induction false} RecordTextUnique(r: Record, s: Record, x: string, y: string)
    requires Decodable(r) && Decodable(s)
    requires RecordText(r) + x == RecordText(s) + y
    ensures r == s && x == y
  {
    RecordFields(r, x);
    RecordFields(s, y);
    var r3, s3 := r.payload + ['\n'] + x, s.payload + ['\n'] + y;
    var r2, s2 := [r.kind] + ['\0'] + r3, [s.kind] + ['\0'] + s3;
    FieldUnique(r.rel, s.rel, '\0', "0o" + Octal(r.mode) + ['\0'] + r2, "0o" + Octal(s.mode) + ['\0'] + s2);
    ModeUnique(r.mode, s.mode, r2, s2);
    KindUnique(r.kind, s.kind, r3, s3);
    FieldUnique(r.payload, s.payload, '\n', x, y);
  }

  lemma {:induction false} JoinedTextsUnique(rs: seq<Record>, ss: seq<Record>)
    requires forall r | r in rs :: Decodable(r)
    requires forall s | s in ss :: Decodable(s)
    requires Join(Texts(rs)) == Join(Texts(ss))
    ensures rs == ss
  {
    if rs != [] && ss != [] {
      RecordTextUnique(rs[0], ss[0], Join(Texts(rs[1..])), Join(Texts(ss[1..])));
      JoinedTextsUnique(rs[1..], ss[1..]);
      assert rs == [rs[0]] + rs[1..] && ss == [ss[0]] + ss[1..];
    }
  }

  // ---- The walk visits exactly the entries the manifest sees ----

  lemma {:induction false} LinesCover(t: Tree, p: Path, names: seq<string>, n: string)
    requires n in names && p + [n] in t && !t[p + [n]].Special?
    ensures RecordOf(p + [n], t[p + [n]]) in Lines(t, p, names)
  {
    if names[0] != n { LinesCover(t, p, names[1..], n); }
  }

  lemma {:induction false} LinesOnly(t: Tree, p: Path, names: seq<string>, r: Record)
    requires r in Lines(t, p, names)
    ensures exists q | q in t :: q != [] && !t[q].Special? && r == RecordOf(q, t[q])
  {
    var q := p + [names[0]];
    if !(q in t && !t[q].Special? && r == RecordOf(q, t[q])) {
      LinesOnly(t, p, names[1..], r);
    }
  }

  lemma {:induction false} DescendCovers(t: Tree, p: Path, names: seq<string>, n: string, r: Record)
    requires n in names && p + [n] in t && t[p + [n]].Dir? && r in Walk(t, p + [n])
    ensures r in Descend(t, p, names)
    decreases |names|
  {
    if names[0] != n { DescendCovers(t, p, names[1..], n, r); }
  }

  lemma {:induction false} WalkCovers(t: Tree, p: Path, q: Path)
    requires WellFormed(t) && q in t && p < q && !t[q].Special?
    ensures RecordOf(q, t[q]) in Walk(t, p)
    decreases |q| - |p|
  {
    var n := q[|p|];
    var c := p + [n];
    assert c == q[..|p| + 1];
    if |q| == |p| + 1 {
      assert c == q;
      ChildrenAre(t, p, n);
      if ListedAsDir(t[q]) {
        assert n in Elements(Sorted(DirNames(t, p)));
        LinesCover(t, p, Sorted(DirNames(t, p)), n);
      } else {
        assert n in Elements(Sorted(FileNames(t, p)));
        LinesCover(t, p, Sorted(FileNames(t, p)), n);
      }
    } else {
      AncestorsAreDirs(t, q, |p| + 1);
      ChildrenAre(t, p, n);
      assert n in Elements(Sorted(DirNames(t, p)));
      WalkCovers(t, c, q);
      DescendCovers(t, p, Sorted(DirNames(t, p)), n, RecordOf(q, t[q]));
    }
  }

  lemma {:induction false} WalkOnly(t: Tree, p: Path, r: Record)
    requires r in Walk(t, p)
    ensures exists q | q in t :: q != [] && !t[q].Special? && r == RecordOf(q, t[q])
    decreases Below(t, p), 1, 0
  {
    if r in Lines(t, p, Sorted(DirNames(t, p))) {
      LinesOnly(t, p, Sorted(DirNames(t, p)), r);
    } else if r in Lines(t, p, Sorted(FileNames(t, p))) {
      LinesOnly(t, p, Sorted(FileNames(t, p)), r);
    } else {
      DescendOnly(t, p, Sorted(DirNames(t, p)), r);
    }
  }

  lemma {:induction false} DescendOnly(t: Tree, p: Path, names: seq<string>, r: Record)
    requires r in Descend(t, p, names)
    ensures exists q | q in t :: q != [] && !t[q].Special? && r == RecordOf(q, t[q])
    decreases Below(t, p), 0, |names|
  {
    var q := p + [names[0]];
    if q in t && t[q].Dir? && r in Walk(t, q) {
      BelowShrinks(t, p, names[0]);
      WalkOnly(t, q, r);
    } else {
      DescendOnly(t, p, names[1..], r);
    }
  }

  // ---- The walk depends on nothing else ----

  function SeenNames(t: Tree, p: Path, names: seq<string>): seq<string> {
    if names == [] then []
    else
      var q := p + [names[0]];
      (if q in t && !t[q].Special? then [names[0]] else []) + SeenNames(t, p, names[1..])
  }

  lemma {:induction false} SeenNamesSorted(t: Tree, p: Path, names: seq<string>)
    requires Ascending(names)
    ensures IsSortedListing(SeenNames(t, p, names),
                            set n | n in names && p + [n] in t && !t[p + [n]].Special?)
  {
    if names != [] {
      SeenNamesSorted(t, p, names[1..]);
      var rest := SeenNames(t, p, names[1..]);
      assert forall x :: x in rest <==> x in Elements(rest);
      assert forall x | x in rest :: Less(names[0], x);
      assert forall n :: n in names <==> n == names[0] || n in names[1..];
      var here := SeenNames(t, p, names);
      assert here == rest || here == [names[0]] + rest;
    }
  }

  lemma {:induction false} LinesErased(t: Tree, p: Path, names: seq<string>)
    ensures Lines(t, p, names) == Lines(Erase(t), p, SeenNames(t, p, names))
  {
    if names != [] {
      LinesErased(t, p, names[1..]);
      var q := p + [names[0]];
      if q in t && !t[q].Special? {
        assert q in Erase(t) && RecordOf(q, t[q]) == RecordOf(q, Erase(t)[q]);
        assert SeenNames(t, p, names)[1..] == SeenNames(t, p, names[1..]);
      } else {
        assert SeenNames(t, p, names) == SeenNames(t, p, names[1..]);
      }
    }
  }

  lemma NamesErased(t: Tree, p: Path)
    ensures DirNames(Erase(t), p) == DirNames(t, p)
    ensures FileNames(Erase(t), p) ==
            set n | n in FileNames(t, p) && p + [n] in t && !t[p + [n]].Special?
  {
    forall n
      ensures n in DirNames(Erase(t), p) <==> n in DirNames(t, p)
      ensures n in FileNames(Erase(t), p) <==>
              n in FileNames(t, p) && p + [n] in t && !t[p + [n]].Special?
    {
      ChildrenAre(t, p, n);
      ChildrenAre(Erase(t), p, n);
    }
  }

  lemma {:induction false} WalkErased(t: Tree, p: Path)
    ensures Walk(t, p) == Walk(Erase(t), p)
    decreases Below(t, p), 1, 0
  {
    NamesErased(t, p);
    var ds, fs := Sorted(DirNames(t, p)), Sorted(FileNames(t, p));
    SeenNamesSorted(t, p, ds);
    SeenNamesSorted(t, p, fs);
    LinesErased(t, p, ds);
    LinesErased(t, p, fs);
    assert Elements(SeenNames(t, p, ds)) == Elements(ds) by {
      assert forall n | n in ds :: n in Elements(ds);
    }
    SortedListingUnique(SeenNames(t, p, ds), ds);
    assert Elements(SeenNames(t, p, fs)) == FileNames(Erase(t), p) by {
      assert forall n :: n in fs <==> n in Elements(fs);
    }
    SortedListingUnique(SeenNames(t, p, fs), Sorted(FileNames(Erase(t), p)));
    DescendErased(t, p, ds);
  }

  lemma {:induction false} DescendErased(t: Tree, p: Path, names: seq<string>)
    ensures Descend(t, p, names) == Descend(Erase(t), p, names)
    decreases Below(t, p), 0, |names|
  {
    if names != [] {
      var q := p + [names[0]];
      if q in t && t[q].Dir? {
        BelowShrinks(t, p, names[0]);
        WalkErased(t, q);
      }
      DescendErased(t, p, names[1..]);
    }
  }

  // ---- Main results ----

  lemma RecordDecodable(p: Path, e: Entry)
    requires ValidPath(p) && !e.Special? && (e.Link? ==> '\n' !in e.target)
    ensures Decodable(RecordOf(p, e))
  {
    RelPathHasNoNul(p);
    if e.File? { ShaIsPlain(e.data); }
  }

  lemma WalkDecodable(t: Tree, r: Record)
    requires WellFormed(t) && PlainTargets(t) && r in Walk(t, [])
    ensures Decodable(r)
  {
    WalkOnly(t, [], r);
    var q :| q in t && q != [] && !t[q].Special? && r == RecordOf(q, t[q]);
    RecordDecodable(q, t[q]);
  }

  lemma SameWalkSameEntries(t: Tree, u: Tree, p: Path)
    requires WellFormed(t) && WellFormed(u) && Walk(t, []) == Walk(u, []) && p in Erase(t)
    ensures p in Erase(u) && Erase(u)[p] == Erase(t)[p]
  {
    WalkCovers(t, [], p);
    WalkOnly(u, [], RecordOf(p, t[p]));
    var q :| q in u && q != [] && !u[q].Special? && RecordOf(p, t[p]) == RecordOf(q, u[q]);
    RecordDetermines(p, t[p], q, u[q]);
  }

  /** The manifest is canonical: two upper trees have the same commit id if and only
      if they are equal once special files, opaque marks and the targets of links to
      directories are erased. */
  lemma {:induction false} ManifestCanonical(t: Tree, u: Tree)
    requires WellFormed(t) && PlainTargets(t)
    requires WellFormed(u) && PlainTargets(u)
    ensures CommitIdOf(t) == CommitIdOf(u) <==> Erase(t) == Erase(u)
  {
    WalkErased(t, []);
    WalkErased(u, []);
    if CommitIdOf(t) == CommitIdOf(u) {
      forall r | r in Walk(t, []) ensures Decodable(r) { WalkDecodable(t, r); }
      forall r | r in Walk(u, []) ensures Decodable(r) { WalkDecodable(u, r); }
      JoinedTextsUnique(Walk(t, []), Walk(u, []));
      forall p | p in Erase(t) ensures p in Erase(u) && Erase(u)[p] == Erase(t)[p] {
        SameWalkSameEntries(t, u, p);
      }
      forall p | p in Erase(u) ensures p in Erase(t) {
        SameWalkSameEntries(u, t, p);
      }
    }
  }
}
