/** The train/eval split (`get_train_eval_split_filenames`): the first
    `int(len(filenames) * split)` files become the eval set, the rest stay
    for training. */
module Split {
  import opened Paths

  /** Python's `int(x)` on a float: rounds toward zero. */
  function Trunc(x: real): (r: int)
    ensures x >= 0.0 ==> 0 <= r && r as real <= x < r as real + 1.0
    ensures x < 0.0 ==> r <= 0 && r as real - 1.0 < x <= r as real
  {
    if x >= 0.0 then x.Floor else -((-x).Floor)
  }

  /** Where a Python slice bound `k` lands in a list of length `n`: counted
      from the end when negative, and clamped to `0..n`. */
  function SliceBound(k: int, n: nat): (c: nat)
    ensures c <= n
    ensures 0 <= k <= n ==> c == k
    ensures k > n ==> c == n
    ensures k < 0 ==> c == if n + k < 0 then 0 else n + k
  {
    if k < 0 then (if n + k < 0 then 0 else n + k) else if k <= n then k else n
  }

  /** `len(filenames) * split`, computed exactly. */
  function Scaled(n: nat, split: real): real
  {
    n as real * split
  }

  /** One more file adds one `split` to the product. */
  lemma ScaledSucc(n: nat, split: real)
    ensures Scaled(n + 1, split) == Scaled(n, split) + split
  {
    assert (n + 1) as real == n as real + 1.0;
    assert (n as real + 1.0) * split == n as real * split + 1.0 * split;
  }

  lemma {:induction false} ScaledBounds(n: nat, split: real)
    ensures 0.0 <= split <= 1.0 ==> 0.0 <= Scaled(n, split) <= n as real
    ensures split == 0.0 ==> Scaled(n, split) == 0.0
    ensures split >= 1.0 ==> Scaled(n, split) >= n as real
    ensures Scaled(n, -split) == -Scaled(n, split)
  {
    if n == 0 {
      assert Scaled(0, split) == 0.0 * split == 0.0;
      assert Scaled(0, -split) == 0.0 * -split == 0.0;
    } else {
      ScaledBounds(n - 1, split);
      ScaledSucc(n - 1, split);
      ScaledSucc(n - 1, -split);
      assert (n - 1) as real + 1.0 == n as real;
    }
  }

  /** How many of `n` files the eval set takes: `int(n * split)` used as a
      slice bound. Between 0 and 1 it is the floor of `n * split`; a
      negative split counts from the end, except that a product above -1
      truncates to 0. */
  function EvalCount(n: nat, split: real): (c: nat)
    ensures c <= n
    ensures 0.0 <= split <= 1.0 ==> c == Scaled(n, split).Floor
    ensures split == 0.0 ==> c == 0
    ensures split >= 1.0 ==> c == n
    ensures split < 0.0 ==>
      var dropped := Scaled(n, -split).Floor;
      c == if dropped == 0 || dropped > n then 0 else n - dropped
  {
    var x := Scaled(n, split);
    ScaledBounds(n, split);
    ScaledBounds(n, -split);
    CutOf(n, x, Scaled(n, -split));
    SliceBound(Trunc(x), n)
  }

  /** The slice bound of a truncated product, by the sign of the product. */
  lemma CutOf(n: nat, x: real, y: real)
    requires y == -x
    ensures 0.0 <= x <= n as real ==> SliceBound(Trunc(x), n) == x.Floor
    ensures x >= n as real ==> SliceBound(Trunc(x), n) == n
    ensures x <= 0.0 ==> SliceBound(Trunc(x), n) == if y.Floor == 0 || y.Floor > n then 0 else n - y.Floor
  {
    if x >= 0.0 {
      assert Trunc(x) == x.Floor;
    } else {
      assert Trunc(x) == -(y.Floor);
    }
  }

  /** `get_train_eval_split_filenames`, returning `(train, eval)`. */
  function SplitFilenames(filenames: seq<Path>, split: real): (r: (seq<Path>, seq<Path>))
    ensures r.1 + r.0 == filenames
    ensures |r.1| == EvalCount(|filenames|, split)
  {
    var cut := EvalCount(|filenames|, split);
    assert filenames[..cut] + filenames[cut..] == filenames;
    (filenames[cut..], filenames[..cut])
  }

  /** A fifth of ten files goes to eval: two files. */
  lemma FifthOfTen(filenames: seq<Path>)
    requires |filenames| == 10
    ensures |SplitFilenames(filenames, 0.2).1| == 2 && |SplitFilenames(filenames, 0.2).0| == 8
  {
    assert Scaled(10, 0.2) == 2.0;
  }
}
