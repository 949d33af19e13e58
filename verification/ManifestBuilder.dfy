/** The manifest as the program builds it: a list of lines appended to while the walk
    sorts each directory's names, whatever order the listings arrive in. Beside it,
    the trees a manifest fails to tell apart. */
module ManifestBuilder {
  import opened FileTree
  import opened Text
  import opened Manifest
  import opened Seqs

  function Mode(e: Entry): nat
    requires !e.Special?
  {
    match e
    case Dir(perm, _) => S_IFDIR + perm
    case File(perm, _) => S_IFREG + perm
    case Link(_, _) => LINK_MODE
  }

  function JoinRel(rel: string, n: string): string {
    if rel == "" then n else rel + ['/'] + n
  }

  function RelOf(p: Path): string {
    if p == [] then "" else RelPath(p)
  }

  lemma {:induction false} RelOfChild(p: Path, n: string)
    requires p == [] || ValidPath(p)
    ensures JoinRel(RelOf(p), n) == RelPath(p + [n])
  {
    if |p| > 1 {
      RelOfChild(p[1..], n);
      assert (p + [n])[1..] == p[1..] + [n];
    }
  }

  lemma {:induction false} TextsOfConcat(a: seq<Record>, b: seq<Record>)
    ensures Texts(a + b) == Texts(a) + Texts(b)
  {
    if a == [] {
      assert a + b == b;
    } else {
      TextsOfConcat(a[1..], b);
      assert (a + b)[1..] == a[1..] + b;
    }
  }

  /** `listing` holds what reading each directory returns: its names, each once. */
  ghost predicate IsListing(t: Tree, listing: map<Path, seq<string>>) {
    forall p | p == [] || (p in t && t[p].Dir?) ::
      p in listing && Distinct(listing[p]) && Elements(listing[p]) == Children(t, p)
  }

  lemma ListedName(t: Tree, listing: map<Path, seq<string>>, p: Path, n: string)
    requires IsListing(t, listing) && (p == [] || (p in t && t[p].Dir?)) && n in listing[p]
    ensures p + [n] in t
  {
    assert n in Elements(listing[p]);
    ChildrenAre(t, p, n);
  }

  /** Splits a listing the way `os.walk` does, then sorts both halves. */
  method SortedNames(t: Tree, listing: map<Path, seq<string>>, p: Path)
    returns (dirnames: seq<string>, filenames: seq<string>)
    requires IsListing(t, listing) && (p == [] || (p in t && t[p].Dir?))
    ensures dirnames == Sorted(DirNames(t, p)) && filenames == Sorted(FileNames(t, p))
  {
    var names := listing[p];
    dirnames, filenames := [], [];
    for i := 0 to |names|
      invariant Distinct(dirnames) && Distinct(filenames)
      invariant forall n :: n in dirnames <==>
                n in names[..i] && p + [n] in t && ListedAsDir(t[p + [n]])
      invariant forall n :: n in filenames <==>
                n in names[..i] && p + [n] in t && !ListedAsDir(t[p + [n]])
    {
      ListedName(t, listing, p, names[i]);
      if ListedAsDir(t[p + [names[i]]]) {
        dirnames := dirnames + [names[i]];
      } else {
        filenames := filenames + [names[i]];
      }
    }
    assert names[..|names|] == names;
    assert forall n :: n in names <==> n in Children(t, p) by {
      assert forall n :: n in names <==> n in Elements(names);
    }
    assert Elements(dirnames) == DirNames(t, p);
    assert Elements(filenames) == FileNames(t, p);
    SortNamesSorts(dirnames);
    SortNamesSorts(filenames);
    dirnames, filenames := SortNames(dirnames), SortNames(filenames);
    SortedListingUnique(dirnames, Sorted(DirNames(t, p)));
    SortedListingUnique(filenames, Sorted(FileNames(t, p)));
  }

  lemma ListedNames(t: Tree, p: Path)
    ensures forall n | n in Sorted(DirNames(t, p)) :: p + [n] in t && ListedAsDir(t[p + [n]])
    ensures forall n | n in Sorted(FileNames(t, p)) :: p + [n] in t && !ListedAsDir(t[p + [n]])
  {
    forall n | n in Sorted(DirNames(t, p)) ensures p + [n] in t && ListedAsDir(t[p + [n]]) {
      assert n in Elements(Sorted(DirNames(t, p)));
    }
    forall n | n in Sorted(FileNames(t, p)) ensures p + [n] in t && !ListedAsDir(t[p + [n]]) {
      assert n in Elements(Sorted(FileNames(t, p)));
    }
  }

  function LineText(t: Tree, p: Path, n: string): seq<string>
    requires p + [n] in t
  {
    var e := t[p + [n]];
    if e.Special? then [] else [RecordText(RecordOf(p + [n], e))]
  }

  lemma LinesStep(t: Tree, p: Path, names: seq<string>, i: nat)
    requires i < |names| && p + [names[i]] in t
    ensures Texts(Lines(t, p, names[i..])) ==
            LineText(t, p, names[i]) + Texts(Lines(t, p, names[i + 1..]))
  {
    var q := p + [names[i]];
    assert names[i..][1..] == names[i + 1..];
    var rest := Lines(t, p, names[i + 1..]);
    if !t[q].Special? {
      assert ([RecordOf(q, t[q])] + rest)[1..] == rest;
    } else {
      assert [] + rest == rest;
    }
  }

  function DirLineText(t: Tree, p: Path, rel: string, n: string): string
    requires p + [n] in t && ListedAsDir(t[p + [n]])
  {
    RecordText(Record(JoinRel(rel, n), Mode(t[p + [n]]), 'd', ""))
  }

  lemma DirLineIs(t: Tree, p: Path, n: string)
    requires (p == [] || ValidPath(p)) && p + [n] in t && ListedAsDir(t[p + [n]])
    ensures [DirLineText(t, p, RelOf(p), n)] == LineText(t, p, n)
  {
    RelOfChild(p, n);
  }

  method AppendDirLines(lines: seq<string>, t: Tree, p: Path, rel: string, dirnames: seq<string>)
    returns (out: seq<string>)
    requires (p == [] || ValidPath(p)) && rel == RelOf(p)
    requires forall n | n in dirnames :: p + [n] in t && ListedAsDir(t[p + [n]])
    ensures out == lines + Texts(Lines(t, p, dirnames))
  {
    out := lines;
    for i := 0 to |dirnames|
      invariant lines + Texts(Lines(t, p, dirnames)) == out + Texts(Lines(t, p, dirnames[i..]))
    {
      LinesStep(t, p, dirnames, i);
      DirLineIs(t, p, dirnames[i]);
      Assoc(out, LineText(t, p, dirnames[i]), Texts(Lines(t, p, dirnames[i + 1..])));
      out := out + [DirLineText(t, p, rel, dirnames[i])];
    }
    assert dirnames[|dirnames|..] == [];
  }

  function FileLineText(t: Tree, p: Path, rel: string, n: string): seq<string>
    requires p + [n] in t && !ListedAsDir(t[p + [n]])
  {
    var e, frel := t[p + [n]], JoinRel(rel, n);
    if e.Link? then [RecordText(Record(frel, Mode(e), 'l', e.target))]
    else if e.File? then [RecordText(Record(frel, Mode(e), 'f', Sha(e.data)))]
    else []
  }

  lemma FileLineIs(t: Tree, p: Path, n: string)
    requires (p == [] || ValidPath(p)) && p + [n] in t && !ListedAsDir(t[p + [n]])
    ensures FileLineText(t, p, RelOf(p), n) == LineText(t, p, n)
  {
    RelOfChild(p, n);
  }

  method AppendFileLines(lines: seq<string>, t: Tree, p: Path, rel: string, filenames: seq<string>)
    returns (out: seq<string>)
    requires (p == [] || ValidPath(p)) && rel == RelOf(p)
    requires forall n | n in filenames :: p + [n] in t && !ListedAsDir(t[p + [n]])
    ensures out == lines + Texts(Lines(t, p, filenames))
  {
    out := lines;
    for i := 0 to |filenames|
      invariant lines + Texts(Lines(t, p, filenames)) == out + Texts(Lines(t, p, filenames[i..]))
    {
      LinesStep(t, p, filenames, i);
      FileLineIs(t, p, filenames[i]);
      Assoc(out, LineText(t, p, filenames[i]), Texts(Lines(t, p, filenames[i + 1..])));
      out := out + FileLineText(t, p, rel, filenames[i]);
    }
    assert filenames[|filenames|..] == [];
  }

  ghost function ChildText(t: Tree, p: Path, n: string): seq<string>
    requires p + [n] in t
  {
    if t[p + [n]].Dir? then Texts(Walk(t, p + [n])) else []
  }

  lemma DescendStep(t: Tree, p: Path, names: seq<string>, i: nat)
    requires i < |names| && p + [names[i]] in t
    ensures Texts(Descend(t, p, names[i..])) ==
            ChildText(t, p, names[i]) + Texts(Descend(t, p, names[i + 1..]))
  {
    var q := p + [names[i]];
    assert names[i..][1..] == names[i + 1..];
    BelowShrinks(t, p, names[i]);
    if t[q].Dir? {
      TextsOfConcat(Walk(t, q), Descend(t, p, names[i + 1..]));
    } else {
      assert [] + Descend(t, p, names[i + 1..]) == Descend(t, p, names[i + 1..]);
    }
  }

  /** One turn of the walk's recursion: links to directories are not entered. */
  method WalkChild(t: Tree, listing: map<Path, seq<string>>, p: Path, rel: string, n: string)
    returns (deeper: seq<string>)
    requires WellFormed(t) && IsListing(t, listing)
    requires (p == [] || (p in t && t[p].Dir?)) && rel == RelOf(p) && p + [n] in t
    ensures deeper == ChildText(t, p, n)
    decreases Below(t, p), 0
  {
    deeper := [];
    if t[p + [n]].Dir? {
      BelowShrinks(t, p, n);
      RelOfChild(p, n);
      deeper := WalkDir(t, listing, p + [n], JoinRel(rel, n));
    }
  }

  method WalkChildren(lines: seq<string>, t: Tree, listing: map<Path, seq<string>>, p: Path,
                      rel: string, dirnames: seq<string>)
    returns (out: seq<string>)
    requires WellFormed(t) && IsListing(t, listing)
    requires (p == [] || (p in t && t[p].Dir?)) && rel == RelOf(p)
    requires forall n | n in dirnames :: p + [n] in t
    ensures out == lines + Texts(Descend(t, p, dirnames))
    decreases Below(t, p), 1
  {
    out := lines;
    for i := 0 to |dirnames|
      invariant lines + Texts(Descend(t, p, dirnames)) == out + Texts(Descend(t, p, dirnames[i..]))
    {
      var deeper := WalkChild(t, listing, p, rel, dirnames[i]);
      DescendStep(t, p, dirnames, i);
      Assoc(out, deeper, Texts(Descend(t, p, dirnames[i + 1..])));
      out := out + deeper;
    }
    assert dirnames[|dirnames|..] == [];
  }

  lemma WalkTexts(t: Tree, p: Path)
    ensures var ds, fs := Sorted(DirNames(t, p)), Sorted(FileNames(t, p));
            Texts(Walk(t, p)) ==
            Texts(Lines(t, p, ds)) + Texts(Lines(t, p, fs)) + Texts(Descend(t, p, ds))
  {
    var ds, fs := Sorted(DirNames(t, p)), Sorted(FileNames(t, p));
    TextsOfConcat(Lines(t, p, ds), Lines(t, p, fs));
    TextsOfConcat(Lines(t, p, ds) + Lines(t, p, fs), Descend(t, p, ds));
  }

  method WalkDir(t: Tree, listing: map<Path, seq<string>>, p: Path, rel: string)
    returns (lines: seq<string>)
    requires WellFormed(t) && IsListing(t, listing)
    requires (p == [] || (p in t && t[p].Dir?)) && rel == RelOf(p)
    ensures lines == Texts(Walk(t, p))
    decreases Below(t, p), 2
  {
    var dirnames, filenames := SortedNames(t, listing, p);
    ListedNames(t, p);
    WalkTexts(t, p);
    lines := AppendDirLines([], t, p, rel, dirnames);
    assert lines == Texts(Lines(t, p, dirnames));
    lines := AppendFileLines(lines, t, p, rel, filenames);
    lines := WalkChildren(lines, t, listing, p, rel, dirnames);
  }

  /** Whatever order the directory listings arrive in, the text is the manifest of the
      tree and nothing else. */
  method ComputeManifest(t: Tree, listing: map<Path, seq<string>>) returns (text: string)
    requires WellFormed(t) && IsListing(t, listing)
    ensures text == ManifestText(t)
  {
    var lines := WalkDir(t, listing, [], "");
    text := Join(lines);
  }

  // ---- Trees the manifest does not tell apart ----

  function TwoLinks(a: string, x: string, b: string, y: string): Tree {
    map[[a] := Link(x, false), [b] := Link(y, false)]
  }

  lemma TwoLinksNames(a: string, x: string, b: string, y: string)
    requires Less(a, b)
    ensures DirNames(TwoLinks(a, x, b, y), []) == {} && FileNames(TwoLinks(a, x, b, y), []) == {a, b}
  {
    var t := TwoLinks(a, x, b, y);
    LessIsTotal(a, b);
    assert [a][0] == a && [b][0] == b;
    forall n ensures n in Children(t, []) <==> n == a || n == b {
      ChildrenAre(t, [], n);
      assert ([] + [n])[0] == n;
    }
    assert [] + [a] == [a] && [] + [b] == [b];
  }

  lemma TwoLinksLines(a: string, x: string, b: string, y: string)
    requires a != b
    ensures Lines(TwoLinks(a, x, b, y), [], [a, b]) ==
            [Record(a, LINK_MODE, 'l', x), Record(b, LINK_MODE, 'l', y)]
  {
    var t := TwoLinks(a, x, b, y);
    assert [] + [a] == [a] && [] + [b] == [b] && [a][0] == a && [b][0] == b;
    assert [a, b][1..] == [b] && [b][1..] == [];
    Nothing([Record(b, LINK_MODE, 'l', y)]);
    assert Lines(t, [], [b]) == [Record(b, LINK_MODE, 'l', y)];
  }

  lemma TwoLinksWalk(a: string, x: string, b: string, y: string)
    requires Less(a, b)
    ensures Walk(TwoLinks(a, x, b, y), []) ==
            [Record(a, LINK_MODE, 'l', x), Record(b, LINK_MODE, 'l', y)]
  {
    var t := TwoLinks(a, x, b, y);
    LessIsTotal(a, b);
    TwoLinksNames(a, x, b, y);
    SortedListingUnique(Sorted(DirNames(t, [])), []);
    assert Elements([a, b]) == {a, b};
    SortedListingUnique(Sorted(FileNames(t, [])), [a, b]);
    TwoLinksLines(a, x, b, y);
    Nothing(Lines(t, [], [a, b]));
  }

  lemma TwoLinksShape(a: string, x: string, b: string, y: string)
    requires ValidName(a) && ValidName(b) && a != b
    ensures var t := TwoLinks(a, x, b, y);
            WellFormed(t) && Covered(t) && t[[a]] == Link(x, false) &&
            (PlainTargets(t) <==> '\n' !in x && '\n' !in y)
  {
    var t := TwoLinks(a, x, b, y);
    assert [a][0] != [b][0];
    assert [a] in t && [b] in t && t[[b]] == Link(y, false);
  }

  function LinkFields(): string {
    ['\0'] + ("0o" + Octal(LINK_MODE)) + ['\0'] + ['l'] + ['\0']
  }

  lemma LinkText(a: string, x: string)
    ensures RecordText(Record(a, LINK_MODE, 'l', x)) == a + (LinkFields() + (x + ['\n']))
  {
  }

  lemma TwoTexts(r: Record, q: Record)
    ensures Join(Texts([r, q])) == RecordText(r) + RecordText(q)
  {
    assert [r, q][1..] == [q];
    assert Texts([q]) == [RecordText(q)];
    assert [RecordText(r), RecordText(q)][1..] == [RecordText(q)];
    assert Join([RecordText(q)]) == RecordText(q);
  }

  /** A line break in the first target, or in the second name: the text is the same. */
  lemma ShiftedText(a: string, fields: string, x: string, b: string, c: string, rest: string)
    ensures (a + (fields + (x + ['\n'] + b + ['\n']))) + (c + rest) ==
            (a + (fields + (x + ['\n']))) + (b + ['\n'] + c + rest)
  {
    var front := a + (fields + (x + ['\n']));
    Assoc(x + ['\n'], b, ['\n']);
    Assoc(fields, x + ['\n'], b + ['\n']);
    Assoc(a, fields + (x + ['\n']), b + ['\n']);
    Assoc(front, b + ['\n'], c + rest);
    Assoc(b + ['\n'], c, rest);
  }

  lemma ShiftedTreesCollide(a: string, x: string, b: string, c: string, y: string)
    requires Less(a, c) && Less(a, b + ['\n'] + c)
    ensures CommitIdOf(TwoLinks(a, x + ['\n'] + b, c, y)) == CommitIdOf(TwoLinks(a, x, b + ['\n'] + c, y))
  {
    var x', c' := x + ['\n'] + b, b + ['\n'] + c;
    TwoLinksWalk(a, x', c, y);
    TwoLinksWalk(a, x, c', y);
    TwoTexts(Record(a, LINK_MODE, 'l', x'), Record(c, LINK_MODE, 'l', y));
    TwoTexts(Record(a, LINK_MODE, 'l', x), Record(c', LINK_MODE, 'l', y));
    LinkText(a, x');
    LinkText(c, y);
    LinkText(a, x);
    LinkText(c', y);
    ShiftedText(a, LinkFields(), x, b, c, LinkFields() + (y + ['\n']));
  }

  /** The documented format is not injective: a newline inside a link target shifts
      the record boundary, and two different trees get one commit id. */
  lemma NewlineTargetsCollide(a: string, x: string, b: string, c: string, y: string)
    requires ValidName(a) && ValidName(c) && ValidName(b + ['\n'] + c)
    requires Less(a, c) && Less(a, b + ['\n'] + c) && '\n' !in x + y
    ensures var t, u := TwoLinks(a, x + ['\n'] + b, c, y), TwoLinks(a, x, b + ['\n'] + c, y);
      WellFormed(t) && WellFormed(u) && Covered(t) && Covered(u) && PlainTargets(u) && !PlainTargets(t)
      && t != u && CommitIdOf(t) == CommitIdOf(u)
  {
    var x' := x + ['\n'] + b;
    ShiftedTreesCollide(a, x, b, c, y);
    LessIsTotal(a, c);
    LessIsTotal(a, b + ['\n'] + c);
    TwoLinksShape(a, x', c, y);
    TwoLinksShape(a, x, b + ['\n'] + c, y);
    assert x'[|x|] == '\n' && '\n' !in x;
    assert TwoLinks(a, x', c, y)[[a]] != TwoLinks(a, x, b + ['\n'] + c, y)[[a]];
  }
}
