/** String facts the rest of the project needs: Python's code-point ordering, sorted
    name listings, and reading delimited fields back. */
module Text {

  predicate Less(a: string, b: string) {
    b != "" && (a == "" || a[0] < b[0] || (a[0] == b[0] && Less(a[1..], b[1..])))
  }

  /** The first difference decides: there the first text has ended or has the smaller character. */
  predicate DiffersAt(a: string, b: string, k: nat) {
    k <= |a| && k < |b| && a[..k] == b[..k] && (k == |a| || a[k] < b[k])
  }

  lemma {:induction false} LessAt(a: string, b: string) returns (k: nat)
    requires Less(a, b)
    ensures DiffersAt(a, b, k)
  {
    k := 0;
    if a != "" && a[0] == b[0] {
      var j := LessAt(a[1..], b[1..]);
      k := j + 1;
      assert a[..k] == [a[0]] + a[1..][..j] && b[..k] == [b[0]] + b[1..][..j];
    }
  }

  lemma {:induction false} AtLess(a: string, b: string, k: nat)
    requires DiffersAt(a, b, k)
    ensures Less(a, b)
    decreases k
  {
    if k > 0 {
      assert a[0] == a[..k][0] == b[..k][0] == b[0];
      assert a[1..][..k - 1] == a[..k][1..] && b[1..][..k - 1] == b[..k][1..];
      AtLess(a[1..], b[1..], k - 1);
    }
  }

  /** The order of names: by the first character that differs, a text coming before those it begins. */
  lemma LessIff(a: string, b: string)
    ensures Less(a, b) <==> exists k: nat :: DiffersAt(a, b, k)
  {
    if Less(a, b) {
      var k := LessAt(a, b);
    }
    forall k: nat | DiffersAt(a, b, k) ensures Less(a, b) { AtLess(a, b, k); }
  }

  lemma {:induction false} LessIsTotal(a: string, b: string)
    ensures a == b || Less(a, b) || Less(b, a)
    ensures !(Less(a, b) && Less(b, a))
    ensures !Less(a, a)
  {
    if a != "" {
      LessIsTotal(a[1..], a[1..]);
      if b != "" {
        LessIsTotal(a[1..], b[1..]);
        if a[0] == b[0] && a[1..] == b[1..] {
          assert a == [a[0]] + a[1..] == b;
        }
      }
    }
  }

  lemma {:induction false} LessIsTransitive(a: string, b: string, c: string)
    requires Less(a, b) && Less(b, c)
    ensures Less(a, c)
  {
    if a != "" && a[0] == b[0] == c[0] {
      LessIsTransitive(a[1..], b[1..], c[1..]);
    }
  }

  ghost predicate Ascending(s: seq<string>) {
    forall i, j | 0 <= i < j < |s| :: Less(s[i], s[j])
  }

  ghost predicate Distinct(s: seq<string>) {
    forall i, j | 0 <= i < j < |s| :: s[i] != s[j]
  }

  ghost function Elements(s: seq<string>): set<string> {
    set x | x in s
  }

  ghost predicate IsSortedListing(s: seq<string>, names: set<string>) {
    Ascending(s) && Elements(s) == names
  }

  lemma {:induction false} SortedListingUnique(s: seq<string>, t: seq<string>)
    requires Ascending(s) && Ascending(t) && Elements(s) == Elements(t)
    ensures s == t
  {
    assert t != [] ==> t[0] in Elements(s);
    if s != [] {
      assert s[0] in Elements(t);
      assert t[0] in Elements(s);
      var i :| 0 <= i < |t| && t[i] == s[0];
      var j :| 0 <= j < |s| && s[j] == t[0];
      LessIsTotal(s[0], t[0]);
      assert s[0] == t[0];
      forall x
        ensures x in s[1..] <==> x in t[1..]
      {
        LessIsTotal(s[0], s[0]);
        assert x in s[1..] <==> x in Elements(s) && x != s[0];
        assert x in t[1..] <==> x in Elements(t) && x != t[0];
      }
      SortedListingUnique(s[1..], t[1..]);
      assert s == [s[0]] + s[1..] && t == [t[0]] + t[1..];
    }
  }

  function Insert(x: string, s: seq<string>): seq<string> {
    if s == [] || Less(x, s[0]) then [x] + s else [s[0]] + Insert(x, s[1..])
  }

  lemma {:induction false} InsertKeepsSorted(x: string, s: seq<string>)
    requires Ascending(s) && x !in s
    ensures IsSortedListing(Insert(x, s), Elements(s) + {x})
  {
    if s == [] {
    } else if Less(x, s[0]) {
      forall j | 0 < j < |s| ensures Less(x, s[j]) {
        LessIsTransitive(x, s[0], s[j]);
      }
    } else {
      LessIsTotal(x, s[0]);
      InsertKeepsSorted(x, s[1..]);
      var r := Insert(x, s[1..]);
      forall j | 0 <= j < |r| ensures Less(s[0], r[j]) {
        assert r[j] in Elements(s[1..]) + {x};
      }
      assert s == [s[0]] + s[1..];
      assert Elements([s[0]] + r) == {s[0]} + Elements(r);
    }
  }

  /** `list.sort()` on a list of names. */
  function SortNames(s: seq<string>): seq<string> {
    if s == [] then [] else Insert(s[0], SortNames(s[1..]))
  }

  lemma {:induction false} SortNamesSorts(s: seq<string>)
    requires Distinct(s)
    ensures IsSortedListing(SortNames(s), Elements(s))
  {
    if s != [] {
      SortNamesSorts(s[1..]);
      assert s[0] !in Elements(s[1..]);
      InsertKeepsSorted(s[0], SortNames(s[1..]));
      assert s == [s[0]] + s[1..];
      assert Elements(s) == Elements(s[1..]) + {s[0]};
    }
  }

  /** The one sorted listing of a set of names. */
  ghost function Sorted(names: set<string>): (s: seq<string>)
    ensures IsSortedListing(s, names)
  {
    if names == {} then []
    else
      var x :| x in names;
      var rest := Sorted(names - {x});
      assert x !in Elements(rest);
      InsertKeepsSorted(x, rest);
      Insert(x, rest)
  }

  /** The field at the front of `s`, up to the first delimiter. */
  function UpTo(s: string, d: char): string {
    if s == "" || s[0] == d then "" else [s[0]] + UpTo(s[1..], d)
  }

  lemma {:induction false} UpToReadsField(a: string, d: char, x: string)
    requires d !in a
    ensures UpTo(a + [d] + x, d) == a
  {
    if a == "" {
      assert a + [d] + x == [d] + x;
    } else {
      UpToReadsField(a[1..], d, x);
      assert (a + [d] + x)[1..] == a[1..] + [d] + x;
    }
  }

  /** A field that ends at its first delimiter can be read back. */
  lemma FieldUnique(a: string, b: string, d: char, x: string, y: string)
    requires d !in a && d !in b
    requires a + [d] + x == b + [d] + y
    ensures a == b && x == y
  {
    UpToReadsField(a, d, x);
    UpToReadsField(b, d, y);
    assert x == (a + [d] + x)[|a| + 1..] == (b + [d] + y)[|b| + 1..] == y;
  }
}
