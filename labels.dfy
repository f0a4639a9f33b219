/** The label vocabulary (`get_labels_from_filenames`): every class name
    found in the given annotation files, sorted, numbered from 0. */
module Labels {
  import opened Strings
  import opened Paths
  import opened Annotation

  /** A Python dict from class name to id, as its entries in insertion order. */
  type LabelDict = seq<(string, nat)>

  /** Key lookup in the dict; a later entry for the same key wins. */
  function AsMap(d: LabelDict): map<string, nat>
  {
    if d == [] then map[] else AsMap(d[..|d| - 1])[d[|d| - 1].0 := d[|d| - 1].1]
  }

  /** The union of the class names of `files`. */
  function ClassesOf(files: seq<Path>, read: Path -> seq<Box>): set<string>
  {
    if files == [] then {} else ClassesOf(files[..|files| - 1], read) + ClassSet(read(files[|files| - 1]))
  }

  lemma {:induction false} ClassesOfMembership(files: seq<Path>, read: Path -> seq<Box>, c: string)
    ensures c in ClassesOf(files, read) <==> exists f :: f in files && c in ClassSet(read(f))
  {
    if files != [] {
      var init := files[..|files| - 1];
      ClassesOfMembership(init, read, c);
      if exists f :: f in files && c in ClassSet(read(f)) {
        var f :| f in files && c in ClassSet(read(f));
        if f != files[|files| - 1] {
          var i :| 0 <= i < |files| && files[i] == f;
          assert init[i] == f;
        }
      }
    }
  }

  /** The class names seen depend on which files are given, not on their
      order or on repetitions. */
  lemma ClassesOfDependsOnFileSet(files1: seq<Path>, files2: seq<Path>, read: Path -> seq<Box>)
    requires forall f :: f in files1 <==> f in files2
    ensures ClassesOf(files1, read) == ClassesOf(files2, read)
  {
    forall c ensures c in ClassesOf(files1, read) <==> c in ClassesOf(files2, read) {
      ClassesOfMembership(files1, read, c);
      ClassesOfMembership(files2, read, c);
    }
  }

  predicate StrictlySorted(r: seq<string>)
  {
    forall i, j :: 0 <= i < j < |r| ==> Less(r[i], r[j])
  }

  function Elements(r: seq<string>): set<string>
  {
    set x | x in r
  }

  /** Reference definition of an id: how many names of `names` sort
      before `a`. */
  function Rank(names: set<string>, a: string): nat
  {
    |set b | b in names && Less(b, a)|
  }

  /** Reference definition of the vocabulary as a lookup table. */
  function RankMap(names: set<string>): map<string, nat>
  {
    map a | a in names :: Rank(names, a)
  }

  /** `{label: i for i, label in enumerate(sorted_names)}`. */
  function Enumerate(sortedNames: seq<string>): (d: LabelDict)
    ensures |d| == |sortedNames|
  {
    seq(|sortedNames|, i requires 0 <= i < |sortedNames| => (sortedNames[i], i))
  }

  /** `d` is the dict built from the sorted listing of `names`. */
  ghost predicate IsVocabulary(d: LabelDict, names: set<string>)
  {
    exists r :: StrictlySorted(r) && Elements(r) == names && d == Enumerate(r)
  }

  /** The smallest name of a non-empty set. */
  method MinName(s: set<string>) returns (m: string)
    requires s != {}
    ensures m in s
    ensures forall x :: x in s && x != m ==> Less(m, x)
  {
    m :| m in s;
    var rest := s - {m};
    while rest != {}
      invariant rest <= s && m in s && m !in rest
      invariant forall x :: x in s - rest && x != m ==> Less(m, x)
      decreases rest
    {
      var x :| x in rest;
      if Less(x, m) {
        forall y | y in s - rest && y != x ensures Less(x, y) {
          if y != m { LessTransitive(x, m, y); }
        }
        m := x;
      } else {
        LessTotal(x, m);
      }
      rest := rest - {x};
    }
  }

  /** Python's `sorted` applied to a set of names. */
  method SortNames(s: set<string>) returns (r: seq<string>)
    ensures StrictlySorted(r)
    ensures Elements(r) == s
  {
    r := [];
    var rest := s;
    while rest != {}
      invariant rest <= s
      invariant Elements(r) + rest == s && Elements(r) !! rest
      invariant StrictlySorted(r)
      invariant forall i, x :: 0 <= i < |r| && x in rest ==> Less(r[i], x)
      decreases rest
    {
      var m := MinName(rest);
      assert Elements(r + [m]) == Elements(r) + {m};
      r := r + [m];
      rest := rest - {m};
    }
  }

  /** `get_labels_from_filenames`. */
  method GetLabelsFromFilenames(filenames: seq<Path>, read: Path -> seq<Box>) returns (labels: LabelDict)
    ensures IsVocabulary(labels, ClassesOf(filenames, read))
  {
    var seen: set<string> := {};
    var i := 0;
    while i < |filenames|
      invariant 0 <= i <= |filenames|
      invariant seen == ClassesOf(filenames[..i], read)
    {
      var boxes := read(filenames[i]);
      assert filenames[..i + 1][..i] == filenames[..i];
      seen := seen + ClassSet(boxes);
      i := i + 1;
    }
    assert filenames[..i] == filenames;
    var sortedNames := SortNames(seen);
    labels := Enumerate(sortedNames);
  }

  lemma {:induction false} SortedHeadIsLeast(r: seq<string>, x: string)
    requires StrictlySorted(r) && x in r && x != r[0]
    ensures Less(r[0], x)
  {
    var j :| 0 <= j < |r| && r[j] == x;
  }

  /** A set has one sorted listing only. */
  lemma {:induction false} SortedListingUnique(r1: seq<string>, r2: seq<string>)
    requires StrictlySorted(r1) && StrictlySorted(r2) && Elements(r1) == Elements(r2)
    ensures r1 == r2
    decreases |r1|
  {
    DistinctCard(r1);
    DistinctCard(r2);
    if r1 != [] {
      assert r1[0] in Elements(r2) && r2[0] in Elements(r1);
      if r1[0] != r2[0] {
        SortedHeadIsLeast(r1, r2[0]);
        SortedHeadIsLeast(r2, r1[0]);
        LessAsymmetric(r1[0], r2[0]);
      }
      DistinctTail(r1);
      DistinctTail(r2);
      SortedListingUnique(r1[1..], r2[1..]);
      assert r1 == [r1[0]] + r1[1..] && r2 == [r2[0]] + r2[1..];
    }
  }

  lemma DistinctTail(r: seq<string>)
    requires StrictlySorted(r) && r != []
    ensures StrictlySorted(r[1..])
    ensures Elements(r[1..]) == Elements(r) - {r[0]}
  {
    forall x | x in r[1..] ensures x != r[0] {
      var j :| 0 <= j < |r[1..]| && r[1..][j] == x;
      assert Less(r[0], r[j + 1]);
      LessIrreflexive(r[0]);
    }
    assert r == [r[0]] + r[1..];
  }

  /** The vocabulary does not depend on how it was computed: two runs over
      the same class names build the same dict. */
  lemma VocabularyUnique(d1: LabelDict, d2: LabelDict, names: set<string>)
    requires IsVocabulary(d1, names) && IsVocabulary(d2, names)
    ensures d1 == d2
  {
    var r1 :| StrictlySorted(r1) && Elements(r1) == names && d1 == Enumerate(r1);
    var r2 :| StrictlySorted(r2) && Elements(r2) == names && d2 == Enumerate(r2);
    SortedListingUnique(r1, r2);
  }

  lemma {:induction false} DistinctCard(r: seq<string>)
    requires StrictlySorted(r)
    ensures |Elements(r)| == |r|
    decreases |r|
  {
    if r != [] {
      DistinctTail(r);
      DistinctCard(r[1..]);
    }
  }

  /** In a sorted listing, the name at index `i` has exactly `i` names before it. */
  lemma RankInSortedListing(r: seq<string>, i: nat)
    requires StrictlySorted(r) && i < |r|
    ensures Rank(Elements(r), r[i]) == i
  {
    var below := set b | b in Elements(r) && Less(b, r[i]);
    assert below == Elements(r[..i]) by {
      forall b | b in Elements(r) ensures Less(b, r[i]) <==> b in r[..i] {
        var j :| 0 <= j < |r| && r[j] == b;
        if j < i {
          assert r[..i][j] == b;
        } else {
          if j > i { LessAsymmetric(r[i], r[j]); } else { LessIrreflexive(b); }
          forall k | 0 <= k < i ensures r[..i][k] != b {
            assert Less(r[k], r[j]);
            LessIrreflexive(r[k]);
          }
        }
      }
    }
    DistinctCard(r[..i]);
  }

  lemma {:induction false} AsMapOfEnumerate(r: seq<string>)
    requires StrictlySorted(r)
    ensures AsMap(Enumerate(r)).Keys == Elements(r)
    ensures forall i :: 0 <= i < |r| ==> AsMap(Enumerate(r))[r[i]] == i
    decreases |r|
  {
    if r != [] {
      var init := r[..|r| - 1];
      var last := r[|r| - 1];
      assert Enumerate(r)[..|r| - 1] == Enumerate(init);
      AsMapOfEnumerate(init);
      assert Elements(r) == Elements(init) + {last} by { assert r == init + [last]; }
      forall i | 0 <= i < |r| - 1 ensures r[i] != last {
        LessIrreflexive(r[i]);
      }
      forall i | 0 <= i < |r| ensures AsMap(Enumerate(r))[r[i]] == i {
        if i < |r| - 1 { assert init[i] == r[i]; }
      }
    }
  }

  /** The dict's lookups are the reference vocabulary: every class name seen
      is a key, nothing else is, and its id counts the names sorting before it. */
  lemma VocabularyLookup(d: LabelDict, names: set<string>)
    requires IsVocabulary(d, names)
    ensures AsMap(d) == RankMap(names)
  {
    var r :| StrictlySorted(r) && Elements(r) == names && d == Enumerate(r);
    AsMapOfEnumerate(r);
    forall a | a in names ensures AsMap(d)[a] == Rank(names, a) {
      var i :| 0 <= i < |r| && r[i] == a;
      RankInSortedListing(r, i);
    }
  }

  /** The ids are exactly `0..K-1` for `K` distinct names, and ordering the
      names orders their ids. */
  lemma VocabularyIds(d: LabelDict, names: set<string>)
    requires IsVocabulary(d, names)
    ensures |d| == |names|
    ensures forall i :: 0 <= i < |d| ==> d[i].1 == i && d[i].0 in names
    ensures forall i, j :: 0 <= i < j < |d| ==> Less(d[i].0, d[j].0)
  {
    var r :| StrictlySorted(r) && Elements(r) == names && d == Enumerate(r);
    DistinctCard(r);
  }
}
