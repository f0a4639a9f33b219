/** Annotation discovery (`get_shuffled_filenames`): keep the `.txt` files a
    directory walk reports, except the `rects.txt` initialisation files, then
    shuffle them. The walk itself is an input: one entry per visited
    directory, holding that directory and the names of the files in it. */
module Discovery {
  import opened Strings
  import opened Paths

  datatype WalkEntry = WalkEntry(root: Path, files: seq<string>)

  /** The file-name test of the walk loop. */
  predicate IsAnnotationName(name: string)
  {
    EndsWith(name, ".txt") && !EndsWith(name, "rects.txt")
  }

  /** The kept paths among the names of one directory, in listing order. */
  function KeptIn(root: Path, names: seq<string>): seq<Path>
  {
    if names == [] then []
    else
      var last := names[|names| - 1];
      KeptIn(root, names[..|names| - 1]) + (if IsAnnotationName(last) then [Join(root, last)] else [])
  }

  /** The kept paths of a whole walk, in walk order. */
  function AnnotationPaths(walk: seq<WalkEntry>): seq<Path>
  {
    if walk == [] then []
    else
      var last := walk[|walk| - 1];
      AnnotationPaths(walk[..|walk| - 1]) + KeptIn(last.root, last.files)
  }

  /** A path is listed for one directory exactly when it joins that directory
      to one of its file names that passes the test. */
  lemma {:induction false} KeptInMembership(root: Path, names: seq<string>, p: Path)
    ensures p in KeptIn(root, names) <==>
      exists j :: 0 <= j < |names| && IsAnnotationName(names[j]) && p == Join(root, names[j])
  {
    if names != [] {
      var init := names[..|names| - 1];
      KeptInMembership(root, init, p);
      if exists j :: 0 <= j < |names| && IsAnnotationName(names[j]) && p == Join(root, names[j]) {
        var j :| 0 <= j < |names| && IsAnnotationName(names[j]) && p == Join(root, names[j]);
        if j < |names| - 1 { assert init[j] == names[j]; }
      }
      if exists j :: 0 <= j < |init| && IsAnnotationName(init[j]) && p == Join(root, init[j]) {
        var j :| 0 <= j < |init| && IsAnnotationName(init[j]) && p == Join(root, init[j]);
        assert names[j] == init[j];
      }
    }
  }

  /** A path is discovered exactly when it joins a walked directory to one of
      that directory's file names ending in ".txt" but not in "rects.txt". */
  lemma {:induction false} AnnotationPathsMembership(walk: seq<WalkEntry>, p: Path)
    ensures p in AnnotationPaths(walk) <==>
      exists i, j :: 0 <= i < |walk| && 0 <= j < |walk[i].files|
        && IsAnnotationName(walk[i].files[j]) && p == Join(walk[i].root, walk[i].files[j])
  {
    if walk != [] {
      var init := walk[..|walk| - 1];
      var last := walk[|walk| - 1];
      AnnotationPathsMembership(init, p);
      KeptInMembership(last.root, last.files, p);
      if exists i, j :: 0 <= i < |walk| && 0 <= j < |walk[i].files|
          && IsAnnotationName(walk[i].files[j]) && p == Join(walk[i].root, walk[i].files[j]) {
        var i, j :| 0 <= i < |walk| && 0 <= j < |walk[i].files|
          && IsAnnotationName(walk[i].files[j]) && p == Join(walk[i].root, walk[i].files[j]);
        if i < |walk| - 1 { assert init[i] == walk[i]; }
      }
      if exists i, j :: 0 <= i < |init| && 0 <= j < |init[i].files|
          && IsAnnotationName(init[i].files[j]) && p == Join(init[i].root, init[i].files[j]) {
        var i, j :| 0 <= i < |init| && 0 <= j < |init[i].files|
          && IsAnnotationName(init[i].files[j]) && p == Join(init[i].root, init[i].files[j]);
        assert walk[i] == init[i];
      }
    }
  }

  /** The walk loop of `get_shuffled_filenames`, before the shuffle. */
  method CollectAnnotations(walk: seq<WalkEntry>) returns (txts: seq<Path>)
    ensures txts == AnnotationPaths(walk)
  {
    txts := [];
    var i := 0;
    while i < |walk|
      invariant 0 <= i <= |walk|
      invariant txts == AnnotationPaths(walk[..i])
    {
      var entry := walk[i];
      var j := 0;
      while j < |entry.files|
        invariant 0 <= j <= |entry.files|
        invariant txts == AnnotationPaths(walk[..i]) + KeptIn(entry.root, entry.files[..j])
      {
        var name := entry.files[j];
        assert entry.files[..j + 1][..j] == entry.files[..j];
        if EndsWith(name, ".txt") && !EndsWith(name, "rects.txt") {
          txts := txts + [Join(entry.root, name)];
        }
        j := j + 1;
      }
      assert walk[..i + 1][..i] == walk[..i];
      assert entry.files[..j] == entry.files;
      i := i + 1;
    }
    assert walk[..i] == walk;
  }

  /** The random draws of one run of `random.shuffle` on `n` items: for
      `i` from `n - 1` down to 1 it draws `j` in `0..i`; `draws[t]` is the
      draw made for `i == n - 1 - t`. */
  predicate ValidDraws(draws: seq<nat>, n: nat)
  {
    && |draws| == (if n == 0 then 0 else n - 1)
    && forall t :: 0 <= t < |draws| ==> draws[t] <= n - 1 - t
  }

  function Swap<T>(s: seq<T>, i: nat, j: nat): (r: seq<T>)
    requires i < |s| && j < |s|
    ensures |r| == |s|
  {
    s[i := s[j]][j := s[i]]
  }

  lemma SwapIsPermutation<T>(s: seq<T>, i: nat, j: nat)
    requires i < |s| && j < |s|
    ensures multiset(Swap(s, i, j)) == multiset(s)
  {
  }

  /** The list after draws `t..` of the shuffle have been applied to `s`. */
  function ShuffleFrom<T>(s: seq<T>, draws: seq<nat>, t: nat): seq<T>
    requires ValidDraws(draws, |s|) && t <= |draws|
    decreases |draws| - t
  {
    if t == |draws| then s
    else ShuffleFrom(Swap(s, |s| - 1 - t, draws[t]), draws, t + 1)
  }

  /** `random.shuffle` with the given draws. */
  function Shuffled<T>(s: seq<T>, draws: seq<nat>): seq<T>
    requires ValidDraws(draws, |s|)
  {
    ShuffleFrom(s, draws, 0)
  }

  lemma {:induction false} ShuffleFromIsPermutation<T>(s: seq<T>, draws: seq<nat>, t: nat)
    requires ValidDraws(draws, |s|) && t <= |draws|
    ensures multiset(ShuffleFrom(s, draws, t)) == multiset(s)
    decreases |draws| - t
  {
    if t < |draws| {
      var swapped := Swap(s, |s| - 1 - t, draws[t]);
      SwapIsPermutation(s, |s| - 1 - t, draws[t]);
      assert ValidDraws(draws, |swapped|);
      ShuffleFromIsPermutation(swapped, draws, t + 1);
      assert ShuffleFrom(s, draws, t) == ShuffleFrom(swapped, draws, t + 1);
    }
  }

  /** Whatever the draws, shuffling only reorders the list. */
  lemma ShuffledIsPermutation<T>(s: seq<T>, draws: seq<nat>)
    requires ValidDraws(draws, |s|)
    ensures multiset(Shuffled(s, draws)) == multiset(s)
  {
    ShuffleFromIsPermutation(s, draws, 0);
  }

  /** Python's `random.shuffle`: Fisher-Yates in place, from the last index down. */
  method Shuffle<T>(a: array<T>, draws: seq<nat>)
    requires ValidDraws(draws, a.Length)
    modifies a
    ensures a[..] == Shuffled(old(a[..]), draws)
  {
    var i := a.Length - 1;
    while i >= 1
      invariant -1 <= i < a.Length && (a.Length > 0 ==> i >= 0)
      invariant ShuffleFrom(a[..], draws, a.Length - 1 - i) == Shuffled(old(a[..]), draws)
    {
      var j := draws[a.Length - 1 - i];
      a[i], a[j] := a[j], a[i];
      i := i - 1;
    }
  }

  /** `get_shuffled_filenames`: the discovered annotation paths, shuffled. */
  method GetShuffledFilenames(walk: seq<WalkEntry>, draws: seq<nat>) returns (txts: seq<Path>)
    requires ValidDraws(draws, |AnnotationPaths(walk)|)
    ensures txts == Shuffled(AnnotationPaths(walk), draws)
  {
    var found := CollectAnnotations(walk);
    var a := new Path[|found|](k requires 0 <= k < |found| => found[k]);
    assert a[..] == found;
    Shuffle(a, draws);
    txts := a[..];
  }

  /** A path is in the shuffled list exactly when the walk reports it as an
      annotation file (`ShuffledIsPermutation` gives how often). */
  lemma ShuffledFilenamesMembership(walk: seq<WalkEntry>, draws: seq<nat>, p: Path)
    requires ValidDraws(draws, |AnnotationPaths(walk)|)
    ensures p in Shuffled(AnnotationPaths(walk), draws) <==>
      exists i, j :: 0 <= i < |walk| && 0 <= j < |walk[i].files|
        && IsAnnotationName(walk[i].files[j]) && p == Join(walk[i].root, walk[i].files[j])
  {
    var found := AnnotationPaths(walk);
    ShuffledIsPermutation(found, draws);
    assert p in Shuffled(found, draws) <==> p in multiset(Shuffled(found, draws));
    assert p in found <==> p in multiset(found);
    AnnotationPathsMembership(walk, p);
  }
}
