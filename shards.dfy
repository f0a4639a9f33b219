/** Shard partitioning (the two task loops of `get_record_writing_tasks`):
    a split's files are dealt round-robin into
    `min(max(number, 1), len(files))` lists, and each list becomes one
    record-writing task named after the split and its index. */
module Shards {
  import opened Paths
  import opened Format
  import opened Labels

  /** `min(max(number, 1), count)`: the number of shards for `count` files. */
  function ShardCount(number: int, count: nat): (r: nat)
    ensures r == 0 <==> count == 0
    ensures r <= count
    ensures number >= 1 ==> r <= number
    ensures 1 <= number <= count ==> r == number
    ensures number >= count ==> r == count
    ensures number < 1 && count > 0 ==> r == 1
  {
    var atLeastOne := if number > 1 then number else 1;
    if atLeastOne < count then atLeastOne else count
  }

  /** Every `n`-th element of `s`, starting at index `k`. */
  function Every<T>(s: seq<T>, n: nat, k: nat): seq<T>
    requires n >= 1
    decreases |s| - k
  {
    if k >= |s| then [] else [s[k]] + Every(s, n, k + n)
  }

  lemma {:induction false} MulAwayFromZero(d: int, n: int)
    requires n >= 1
    ensures d >= 1 ==> d * n >= n
    ensures d <= -1 ==> d * n <= -n
    decreases if d < 0 then -d else d
  {
    if d > 1 {
      MulAwayFromZero(d - 1, n);
      assert d * n == (d - 1) * n + n;
    } else if d < -1 {
      MulAwayFromZero(d + 1, n);
      assert d * n == (d + 1) * n - n;
    }
  }

  /** Euclidean division has one quotient and remainder. */
  lemma DivModUnique(a: int, n: int, q: int, r: int)
    requires n >= 1 && 0 <= r < n && a == q * n + r
    ensures a % n == r && a / n == q
  {
    var q', r' := a / n, a % n;
    assert a == q' * n + r';
    var d := q - q';
    assert d * n == r' - r by { assert q * n - q' * n == (q - q') * n; }
    MulAwayFromZero(d, n);
  }

  /** Index `i` is `k` plus a multiple of `n` exactly when `i % n == k`. */
  lemma OnStride(i: nat, n: nat, k: nat)
    requires 1 <= n && k < n && k <= i
    ensures (i - k) % n == 0 <==> i % n == k
  {
    var q := i / n;
    assert i == q * n + i % n;
    if i % n == k {
      DivModUnique(i - k, n, q, 0);
    }
    if (i - k) % n == 0 {
      var q' := (i - k) / n;
      assert i - k == q' * n + 0;
      DivModUnique(i, n, q', k);
    }
  }

  /** The `q`-th file of shard `k` is the file at index `k + q * n`. */
  lemma {:induction false} EveryAt<T>(s: seq<T>, n: nat, k: nat, q: nat)
    requires n >= 1 && k + q * n < |s|
    ensures q < |Every(s, n, k)| && Every(s, n, k)[q] == s[k + q * n]
    decreases q
  {
    if q > 0 {
      assert (k + n) + (q - 1) * n == k + q * n;
      EveryAt(s, n, k + n, q - 1);
    }
  }

  /** Appending one file extends exactly the shard whose index is congruent
      to the new file's position. */
  lemma {:induction false} EverySnoc<T>(s: seq<T>, x: T, n: nat, k: nat)
    requires n >= 1 && k <= |s|
    ensures Every(s + [x], n, k) == Every(s, n, k) + (if (|s| - k) % n == 0 then [x] else [])
    decreases |s| - k
  {
    if k == |s| {
      DivModUnique(0, n, 0, 0);
    } else {
      if k + n <= |s| {
        EverySnoc(s, x, n, k + n);
        DivModUnique(|s| - k, n, (|s| - k - n) / n + 1, (|s| - k - n) % n);
      } else {
        DivModUnique(|s| - k, n, 0, |s| - k);
      }
      assert (s + [x])[k] == s[k];
    }
  }

  /** Shards `k1 <= k2 <= k1 + n` differ in size by at most one, the lower
      one being the larger. */
  lemma {:induction false} EverySizes<T>(s: seq<T>, n: nat, k1: nat, k2: nat)
    requires n >= 1 && k1 <= k2 <= k1 + n
    ensures |Every(s, n, k2)| <= |Every(s, n, k1)| <= |Every(s, n, k2)| + 1
    decreases |s| - k1
  {
    if k1 < |s| && k2 < |s| {
      EverySizes(s, n, k1 + n, k2 + n);
    }
  }

  /** The file lists of the partition loop, as a reference definition. */
  function Deal<T>(s: seq<T>, n: nat): (r: seq<seq<T>>)
    requires n >= 1
    ensures |r| == n
  {
    seq(n, k requires 0 <= k < n => Every(s, n, k))
  }

  function Concat<T>(lists: seq<seq<T>>): seq<T>
  {
    if lists == [] then [] else lists[0] + Concat(lists[1..])
  }

  lemma {:induction false} ConcatAppendAt<T>(lists: seq<seq<T>>, k: nat, x: T)
    requires k < |lists|
    ensures multiset(Concat(lists[k := lists[k] + [x]])) == multiset(Concat(lists)) + multiset{x}
  {
    var updated := lists[k := lists[k] + [x]];
    if k == 0 {
      assert updated[1..] == lists[1..];
    } else {
      assert updated[1..] == lists[1..][k - 1 := lists[k] + [x]];
      ConcatAppendAt(lists[1..], k - 1, x);
    }
  }

  lemma DealSnoc<T>(s: seq<T>, x: T, n: nat)
    requires n >= 1
    ensures Deal(s + [x], n) == Deal(s, n)[|s| % n := Deal(s, n)[|s| % n] + [x]]
  {
    forall k | 0 <= k < n ensures Deal(s + [x], n)[k] == Deal(s, n)[|s| % n := Deal(s, n)[|s| % n] + [x]][k] {
      if k <= |s| {
        EverySnoc(s, x, n, k);
        OnStride(|s|, n, k);
      } else {
        DivModUnique(|s|, n, 0, |s|);
      }
    }
  }

  /** Every file lands in the shards exactly as often as it is listed. */
  lemma {:induction false} DealIsPartition<T>(s: seq<T>, n: nat)
    requires n >= 1
    ensures multiset(Concat(Deal(s, n))) == multiset(s)
    decreases |s|
  {
    if s == [] {
      assert forall k :: 0 <= k < n ==> Deal(s, n)[k] == [];
      EmptyConcat(Deal(s, n));
    } else {
      var init := s[..|s| - 1];
      var x := s[|s| - 1];
      assert s == init + [x];
      DealIsPartition(init, n);
      DealSnoc(init, x, n);
      ConcatAppendAt(Deal(init, n), |init| % n, x);
    }
  }

  lemma {:induction false} EmptyConcat<T>(lists: seq<seq<T>>)
    requires forall k :: 0 <= k < |lists| ==> lists[k] == []
    ensures Concat(lists) == []
  {
    if lists != [] { EmptyConcat(lists[1..]); }
  }

  /** File `i` sits in shard `i % n`, at position `i / n`. */
  lemma DealPlacesIndex<T>(s: seq<T>, n: nat, i: nat)
    requires n >= 1 && i < |s|
    ensures i / n < |Deal(s, n)[i % n]| && Deal(s, n)[i % n][i / n] == s[i]
  {
    assert i % n + i / n * n == i;
    EveryAt(s, n, i % n, i / n);
  }

  /** Shard sizes differ by at most one, and lower-numbered shards are
      never smaller. */
  lemma DealBalanced<T>(s: seq<T>, n: nat, k1: nat, k2: nat)
    requires 1 <= n && k1 <= k2 < n
    ensures |Deal(s, n)[k2]| <= |Deal(s, n)[k1]| <= |Deal(s, n)[k2]| + 1
  {
    EverySizes(s, n, k1, k2);
  }

  /** A record-writing task: its id, the vocabulary, its files and the
      record file it writes. */
  datatype Task = Task(id: string, labels: LabelDict, files: seq<Path>, outPath: Path)

  /** `"train-%02d" % k` or `"eval-%02d" % k`. */
  function TaskId(splitName: string, k: nat): string
  {
    splitName + "-" + TwoDigits(k)
  }

  function RecordPath(folder: Path, splitName: string, k: nat): Path
  {
    Join(folder, TaskId(splitName, k) + ".record")
  }

  /** The tasks of one split, as a reference definition. */
  function SplitTasks(splitName: string, folder: Path, labels: LabelDict, files: seq<Path>, number: int): (tasks: seq<Task>)
    ensures |tasks| == ShardCount(number, |files|)
  {
    var n := ShardCount(number, |files|);
    seq(n, k requires 0 <= k < n =>
      Task(TaskId(splitName, k), labels, Every(files, n, k), RecordPath(folder, splitName, k)))
  }

  /** Dealing file `i` extends exactly shard `i % n`. */
  lemma DealStep<T>(files: seq<T>, i: nat, n: nat)
    requires i < |files| && n >= 1
    ensures forall k :: 0 <= k < n ==>
      Every(files[..i + 1], n, k) == Every(files[..i], n, k) + (if k == i % n then [files[i]] else [])
  {
    forall k | 0 <= k < n
      ensures Every(files[..i + 1], n, k) == Every(files[..i], n, k) + (if k == i % n then [files[i]] else [])
    {
      assert files[..i + 1] == files[..i] + [files[i]];
      if k <= i {
        EverySnoc(files[..i], files[i], n, k);
        OnStride(i, n, k);
      } else {
        DivModUnique(i, n, 0, i);
      }
    }
  }

  /** The partition loop: `n` empty lists, then file `i` appended to list
      `i % n`. */
  method DealLists(files: seq<Path>, n: nat) returns (lists: array<seq<Path>>)
    requires files != [] ==> n >= 1
    ensures fresh(lists) && lists.Length == n
    ensures forall k :: 0 <= k < n ==> lists[k] == Every(files, n, k)
  {
    lists := new seq<Path>[n](_ => []);
    var i := 0;
    while i < |files|
      invariant 0 <= i <= |files|
      invariant forall k :: 0 <= k < n ==> lists[k] == Every(files[..i], n, k)
    {
      DealStep(files, i, n);
      lists[i % n] := lists[i % n] + [files[i]];
      i := i + 1;
    }
    assert files[..i] == files;
  }

  /** The partition loop and the task loop for one split. */
  method MakeTasks(splitName: string, folder: Path, labels: LabelDict, files: seq<Path>, number: int)
    returns (tasks: seq<Task>)
    ensures |tasks| == ShardCount(number, |files|)
    ensures forall k :: 0 <= k < |tasks| ==>
      && tasks[k].id == TaskId(splitName, k)
      && tasks[k].labels == labels
      && tasks[k].files == Every(files, |tasks|, k)
      && tasks[k].outPath == RecordPath(folder, splitName, k)
  {
    var recordNumber := ShardCount(number, |files|);
    var lists := DealLists(files, recordNumber);
    tasks := [];
    var j := 0;
    while j < recordNumber
      invariant 0 <= j <= recordNumber
      invariant |tasks| == j
      invariant forall k :: 0 <= k < j ==>
        tasks[k] == Task(TaskId(splitName, k), labels, Every(files, recordNumber, k), RecordPath(folder, splitName, k))
    {
      var outPath := RecordPath(folder, splitName, j);
      tasks := tasks + [Task(TaskId(splitName, j), labels, lists[j], outPath)];
      j := j + 1;
    }
  }

  /** Within one split the task ids are pairwise distinct. */
  lemma TaskIdsDistinct(splitName: string, k1: nat, k2: nat)
    requires TaskId(splitName, k1) == TaskId(splitName, k2)
    ensures k1 == k2
  {
    var a := TaskId(splitName, k1);
    assert a[|splitName| + 1..] == TwoDigits(k1);
    assert TaskId(splitName, k2)[|splitName| + 1..] == TwoDigits(k2);
    TwoDigitsInjective(k1, k2);
  }

  lemma TrainAndEvalIdsDiffer(k1: nat, k2: nat)
    ensures TaskId("train", k1) != TaskId("eval", k2)
  {
    assert TaskId("train", k1)[0] == 't';
    assert TaskId("eval", k2)[0] == 'e';
  }
}
