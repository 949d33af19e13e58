/** The manifest of a small tree, character by character. */
module ManifestExample {
  import opened FileTree
  import opened Overlay
  import opened Text
  import opened Seqs
  import opened Manifest

  /** A file and a directory at the top, and a link in the directory. */
  function Sample(file: string, dir: string, link: string, byte: Byte): Tree {
    map[[file] := File(0x1A4, [byte]), [dir] := Dir(0x1ED, false), [dir, link] := Link("x", false)]
  }

  lemma Octals()
    ensures Octal(0x41ED) == "40755" && Octal(0x81A4) == "100644" && Octal(0xA1FF) == "120777"
  {
    OctalStep(0x41ED, 0x83D); OctalStep(0x83D, 0x107); OctalStep(0x107, 0x20); OctalStep(0x20, 4);
    OctalStep(0x81A4, 0x1034); OctalStep(0x1034, 0x206); OctalStep(0x206, 0x40); OctalStep(0x40, 8); OctalStep(8, 1);
    OctalStep(0xA1FF, 0x143F); OctalStep(0x143F, 0x287); OctalStep(0x287, 0x50); OctalStep(0x50, 10); OctalStep(10, 1);
  }

  lemma OctalStep(n: nat, k: nat)
    requires n >= 8 && k == n / 8
    ensures Octal(n) == Octal(k) + ["01234567"[n % 8]]
    ensures n < 64 ==> Octal(k) == ["01234567"[k]]
  {
  }

  lemma DirSpelled(dir: string)
    ensures RecordText(RecordOf([dir], Dir(0x1ED, false))) == dir + "\0" + "0o40755" + "\0" + "d" + "\0" + "" + "\n"
    ensures RecordText(RecordOf([dir], Link("x", true))) == dir + "\0" + "0o120777" + "\0" + "d" + "\0" + "" + "\n"
  {
    Octals();
    assert "0o" + "40755" == "0o40755" && "0o" + "120777" == "0o120777";
  }

  lemma FileSpelled(file: string)
    ensures RecordText(RecordOf([file], File(0x1A4, [0xAB])))
            == file + "\0" + "0o100644" + "\0" + "f" + "\0" + "ab" + "\n"
  {
    Octals();
    assert "0o" + "100644" == "0o100644";
    assert [0xAB][1..] == [] && Sha([0xAB]) == "ab" by { assert Sha([]) == ""; }
  }

  lemma LinkSpelled(dir: string, link: string)
    ensures RecordText(RecordOf([dir, link], Link("x", false)))
            == dir + "/" + link + "\0" + "0o120777" + "\0" + "l" + "\0" + "x" + "\n"
  {
    Octals();
    assert "0o" + "120777" == "0o120777";
    assert [dir, link][1..] == [link];
    assert RelPath([link]) == link && RelPath([dir, link]) == dir + "/" + link;
  }

  lemma SampleNames(file: string, dir: string, link: string, byte: Byte)
    requires file != dir
    ensures var t := Sample(file, dir, link, byte);
      DirNames(t, []) == {dir} && FileNames(t, []) == {file}
      && DirNames(t, [dir]) == {} && FileNames(t, [dir]) == {link}
  {
    var t := Sample(file, dir, link, byte);
    assert [file][0] == file && [dir][0] == dir && [dir, link][0] == dir && [dir, link][1] == link;
    forall n ensures n in Children(t, []) <==> n == file || n == dir {
      ChildrenAre(t, [], n);
      assert ([] + [n])[0] == n && |[] + [n]| == 1;
    }
    assert [] + [file] == [file] && [] + [dir] == [dir];
    forall n ensures n in Children(t, [dir]) <==> n == link {
      ChildrenAre(t, [dir], n);
      assert ([dir] + [n])[1] == n && |[dir] + [n]| == 2;
      assert [dir] + [link] == [dir, link];
    }
    assert [dir] + [link] == [dir, link];
  }

  lemma OneListed(n: string)
    ensures Sorted({n}) == [n] && Sorted({}) == []
  {
    assert Elements([n]) == {n};
    SortedListingUnique(Sorted({n}), [n]);
    assert Elements([]) == {};
    SortedListingUnique(Sorted({}), []);
  }

  lemma InnerWalk(file: string, dir: string, link: string, byte: Byte)
    requires file != dir
    ensures var t := Sample(file, dir, link, byte); Walk(t, [dir]) == [RecordOf([dir, link], Link("x", false))]
  {
    var t := Sample(file, dir, link, byte);
    SampleNames(file, dir, link, byte);
    OneListed(link);
    assert [dir] + [link] == [dir, link] && [link][1..] == [];
    assert Lines(t, [dir], [link]) == [RecordOf([dir, link], Link("x", false))];
  }

  lemma OuterWalk(file: string, dir: string, link: string, byte: Byte)
    requires file != dir
    ensures Walk(Sample(file, dir, link, byte), []) ==
      [RecordOf([dir], Dir(0x1ED, false)), RecordOf([file], File(0x1A4, [byte])),
       RecordOf([dir, link], Link("x", false))]
  {
    var t := Sample(file, dir, link, byte);
    SampleNames(file, dir, link, byte);
    OneListed(dir);
    OneListed(file);
    InnerWalk(file, dir, link, byte);
    assert [] + [dir] == [dir] && [] + [file] == [file] && [dir][1..] == [] && [file][1..] == [];
    assert [dir][0] == dir && [file][0] == file;
    assert Lines(t, [], [dir]) == [RecordOf([dir], Dir(0x1ED, false))];
    assert Lines(t, [], [file]) == [RecordOf([file], File(0x1A4, [byte]))];
    assert Descend(t, [], [dir]) == Walk(t, [dir]);
  }

  /** The directory first, then the file, then what is in the directory: paths relative, modes in octal with
      their type bits, a kind, and a digest or target, each record ended by a line break. */
  lemma {:induction false} SampleManifest(file: string, dir: string, link: string)
    requires file != dir
    ensures ManifestText(Sample(file, dir, link, 0xAB)) ==
      (dir + "\0" + "0o40755" + "\0" + "d" + "\0" + "" + "\n") +
      ((file + "\0" + "0o100644" + "\0" + "f" + "\0" + "ab" + "\n") +
       (dir + "/" + link + "\0" + "0o120777" + "\0" + "l" + "\0" + "x" + "\n"))
  {
    OuterWalk(file, dir, link, 0xAB);
    DirSpelled(dir);
    FileSpelled(file);
    LinkSpelled(dir, link);
    ThreeTexts(RecordOf([dir], Dir(0x1ED, false)), RecordOf([file], File(0x1A4, [0xAB])),
               RecordOf([dir, link], Link("x", false)));
  }

  lemma ThreeTexts(a: Record, b: Record, c: Record)
    ensures Join(Texts([a, b, c])) == RecordText(a) + (RecordText(b) + RecordText(c))
  {
    assert [a, b, c][1..] == [b, c] && [b, c][1..] == [c] && [c][1..] == [];
    assert Texts([c]) == [RecordText(c)] && Texts([b, c]) == [RecordText(b)] + Texts([c]);
    assert Texts([a, b, c]) == [RecordText(a)] + Texts([b, c]);
    JoinFirst(RecordText(a), Texts([b, c]));
    JoinFirst(RecordText(b), Texts([c]));
    JoinFirst(RecordText(c), []);
    assert Texts([c]) == [RecordText(c)] + [];
    Nothing(RecordText(c));
  }

  lemma JoinFirst(line: string, lines: seq<string>)
    ensures Join([line] + lines) == line + Join(lines)
  {
    assert ([line] + lines)[1..] == lines;
  }

  function TwoDirs(a: string, b: string): Tree {
    map[[a] := Dir(0x1ED, false), [b] := Dir(0x1ED, false)]
  }

  lemma TwoDirNames(a: string, b: string)
    ensures var t := TwoDirs(a, b);
      DirNames(t, []) == {a, b} && FileNames(t, []) == {} && Children(t, [a]) == {} && Children(t, [b]) == {}
  {
    var t := TwoDirs(a, b);
    assert [a][0] == a && [b][0] == b;
    forall n ensures n in Children(t, []) <==> n == a || n == b {
      ChildrenAre(t, [], n);
      assert [] + [n] == [n] && [n][0] == n;
    }
    assert [] + [a] == [a] && [] + [b] == [b];
  }

  lemma LeafWalk(t: Tree, p: Path)
    requires Children(t, p) == {}
    ensures Walk(t, p) == []
  {
    assert DirNames(t, p) == {} && FileNames(t, p) == {};
    OneListed("");
  }

  lemma TwoDirsWalk(a: string, b: string)
    requires Less(a, b)
    ensures Walk(TwoDirs(a, b), []) == [RecordOf([a], Dir(0x1ED, false)), RecordOf([b], Dir(0x1ED, false))]
  {
    var t := TwoDirs(a, b);
    TwoDirNames(a, b);
    OneListed("");
    LessIsTotal(a, b);
    var names := [a, b];
    assert Elements(names) == {a, b};
    SortedListingUnique(Sorted({a, b}), names);
    TwoDirsLines(a, b);
    TwoDirsDescend(a, b);
  }

  lemma TwoDirsLines(a: string, b: string)
    ensures Lines(TwoDirs(a, b), [], [a, b])
            == [RecordOf([a], Dir(0x1ED, false)), RecordOf([b], Dir(0x1ED, false))]
  {
    var t := TwoDirs(a, b);
    assert [] + [a] == [a] && [] + [b] == [b] && [a][0] == a && [b][0] == b;
    assert [a, b][1..] == [b] && [b][1..] == [];
    assert Lines(t, [], [b]) == [RecordOf([b], Dir(0x1ED, false))];
  }

  lemma TwoDirsDescend(a: string, b: string)
    ensures Descend(TwoDirs(a, b), [], [a, b]) == []
  {
    var t := TwoDirs(a, b);
    TwoDirNames(a, b);
    LeafWalk(t, [a]);
    LeafWalk(t, [b]);
    assert [] + [a] == [a] && [] + [b] == [b] && [a, b][1..] == [b] && [b][1..] == [];
    assert Descend(t, [], [b]) == [];
  }

  /** A fresh upper: two directories with mode 755, `tmp` before `workspace`. */
  lemma SeedManifest()
    ensures ManifestText(Seeds()) ==
      ("tmp" + "\0" + "0o40755" + "\0" + "d" + "\0" + "" + "\n") +
      ("workspace" + "\0" + "0o40755" + "\0" + "d" + "\0" + "" + "\n")
  {
    var a, b := "tmp", "workspace";
    assert Less(a, b);
    assert Seeds() == TwoDirs(a, b);
    TwoDirsWalk(a, b);
    DirSpelled(a);
    DirSpelled(b);
    TwoJoined(RecordOf([a], Dir(0x1ED, false)), RecordOf([b], Dir(0x1ED, false)));
  }

  lemma TwoJoined(a: Record, b: Record)
    ensures Join(Texts([a, b])) == RecordText(a) + RecordText(b)
  {
    assert [a, b][1..] == [b] && [b][1..] == [];
    assert Texts([b]) == [RecordText(b)] && Texts([a, b]) == [RecordText(a)] + Texts([b]);
    JoinFirst(RecordText(a), Texts([b]));
    JoinFirst(RecordText(b), []);
    assert Texts([b]) == [RecordText(b)] + [];
    Nothing(RecordText(b));
  }
}
