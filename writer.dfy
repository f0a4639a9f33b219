/** The shard writer (`write_record_from_list`) and the aggregation of
    shard results (`print_results`). The record file is modelled as the
    sequence of examples appended to it. */
module Writer {
  import opened Wrappers
  import opened Paths
  import opened Annotation
  import opened Labels
  import opened Encoder

  /** `RecordWritingResult(id, record_count, class_count, negative_count)`. */
  datatype ShardResult = ShardResult(id: string, recordCount: nat, classCount: multiset<string>, negativeCount: nat)

  /** Every class name of every file, counted with multiplicity. */
  function AllClasses(files: seq<Path>, read: Path -> seq<Box>): multiset<string>
  {
    if files == [] then multiset{}
    else AllClasses(files[..|files| - 1], read) + multiset(Classes(read(files[|files| - 1])))
  }

  /** How many of `files` hold no box. */
  function NegativeFiles(files: seq<Path>, read: Path -> seq<Box>): nat
  {
    if files == [] then 0
    else NegativeFiles(files[..|files| - 1], read) + (if |read(files[|files| - 1])| == 0 then 1 else 0)
  }

  /** `encode` applied to `files` in order: every result, or the error of
      the first file that fails. */
  function EncodeEach(encode: Path -> Result<Encoded, Error>, files: seq<Path>): (r: Result<seq<Encoded>, Error>)
    ensures r.Ok? ==> |r.value| == |files|
    ensures r.Ok? ==> forall k :: 0 <= k < |files| ==> encode(files[k]) == Ok(r.value[k])
  {
    if files == [] then Ok([])
    else
      match EncodeEach(encode, files[..|files| - 1])
      case Err(e) => Err(e)
      case Ok(done) =>
        match encode(files[|files| - 1])
        case Err(e) => Err(e)
        case Ok(x) => Ok(done + [x])
  }

  /** `create_tf_example` as a per-file encoder. */
  function ExampleEncoder(labels: LabelDict, env: Env): Path -> Result<Encoded, Error>
  {
    f => CreateExample(labels, f, env)
  }

  /** The outcome of encoding `files` with `create_tf_example`. */
  function EncodeAll(labels: LabelDict, files: seq<Path>, env: Env): Result<seq<Encoded>, Error>
  {
    EncodeEach(ExampleEncoder(labels, env), files)
  }

  function ExamplesOf(encoded: seq<Encoded>): seq<Example>
  {
    seq(|encoded|, k requires 0 <= k < |encoded| => encoded[k].example)
  }

  /** The class counts of encoded files, added up. */
  function ClassCounts(encoded: seq<Encoded>): multiset<string>
  {
    if encoded == [] then multiset{}
    else ClassCounts(encoded[..|encoded| - 1]) + encoded[|encoded| - 1].classCount
  }

  /** How many encoded files are negative examples. */
  function NegativeCount(encoded: seq<Encoded>): nat
  {
    if encoded == [] then 0
    else NegativeCount(encoded[..|encoded| - 1]) + if encoded[|encoded| - 1].isNegative then 1 else 0
  }

  lemma EncodedSnoc(encoded: seq<Encoded>, x: Encoded)
    ensures ExamplesOf(encoded + [x]) == ExamplesOf(encoded) + [x.example]
    ensures ClassCounts(encoded + [x]) == ClassCounts(encoded) + x.classCount
    ensures NegativeCount(encoded + [x]) == NegativeCount(encoded) + if x.isNegative then 1 else 0
  {
    assert (encoded + [x])[..|encoded|] == encoded;
  }

  /** Once a prefix fails, the whole list fails with the same error. */
  lemma {:induction false} FailsFromPrefix(encode: Path -> Result<Encoded, Error>, files: seq<Path>, i: nat)
    requires i <= |files| && EncodeEach(encode, files[..i]).Err?
    ensures EncodeEach(encode, files) == EncodeEach(encode, files[..i])
    decreases |files| - i
  {
    if i < |files| {
      assert files[..i + 1][..i] == files[..i];
      FailsFromPrefix(encode, files, i + 1);
    } else {
      assert files[..i] == files;
    }
  }

  /** Whether one file encodes. */
  function Succeeds(encode: Path -> Result<Encoded, Error>): Path -> bool
  {
    f => encode(f).Ok?
  }

  /** Whether one annotation file encodes with `create_tf_example`. */
  function Encodes(labels: LabelDict, env: Env): Path -> bool
  {
    Succeeds(ExampleEncoder(labels, env))
  }

  /** `p` holds of every element of `s`. */
  predicate All<T>(s: seq<T>, p: T -> bool)
  {
    forall k :: 0 <= k < |s| ==> p(s[k])
  }

  lemma AllSnoc<T>(s: seq<T>, p: T -> bool)
    requires s != []
    ensures All(s, p) <==> All(s[..|s| - 1], p) && p(s[|s| - 1])
  {
    var init := s[..|s| - 1];
    assert forall k :: 0 <= k < |init| ==> init[k] == s[k];
  }

  lemma {:induction false} EncodeEachSucceeds(encode: Path -> Result<Encoded, Error>, files: seq<Path>)
    ensures EncodeEach(encode, files).Ok? <==> All(files, Succeeds(encode))
  {
    if files != [] {
      EncodeEachSucceeds(encode, files[..|files| - 1]);
      AllSnoc(files, Succeeds(encode));
    }
  }

  /** A shard encodes exactly when each of its files does: one bad file
      fails the whole shard. */
  lemma EncodeAllSucceeds(labels: LabelDict, files: seq<Path>, env: Env)
    ensures EncodeAll(labels, files, env).Ok? <==> All(files, Encodes(labels, env))
  {
    EncodeEachSucceeds(ExampleEncoder(labels, env), files);
  }

  /** The examples, class counts and negatives of a list that encodes are
      those of its annotation files. */
  lemma {:induction false} CountsOfEncoded(labels: LabelDict, files: seq<Path>, env: Env)
    requires EncodeAll(labels, files, env).Ok?
    ensures ClassCounts(EncodeAll(labels, files, env).value) == AllClasses(files, env.readRects)
    ensures NegativeCount(EncodeAll(labels, files, env).value) == NegativeFiles(files, env.readRects)
  {
    if files != [] {
      var init := files[..|files| - 1];
      CountsOfEncoded(labels, init, env);
      var x := CreateExample(labels, files[|files| - 1], env).value;
      EncodedSnoc(EncodeAll(labels, init, env).value, x);
    }
  }

  /** The record file after file `|written|` failed with `error`: the files
      before it all encoded and their examples are what was written, and
      `error` is also the outcome of encoding the whole list. */
  predicate StoppedAt(encode: Path -> Result<Encoded, Error>, data: seq<Path>, written: seq<Example>, error: Error)
  {
    && |written| < |data|
    && EncodeEach(encode, data[..|written|]).Ok?
    && written == ExamplesOf(EncodeEach(encode, data[..|written|]).value)
    && encode(data[|written|]) == Err(error)
    && EncodeEach(encode, data) == Err(error)
  }

  /** What the record file holds when file `i` is the first to fail. */
  lemma StopAt(encode: Path -> Result<Encoded, Error>, data: seq<Path>, i: nat, done: seq<Encoded>, written: seq<Example>)
    requires i < |data| && |written| == i
    requires EncodeEach(encode, data[..i]) == Ok(done) && written == ExamplesOf(done)
    requires encode(data[i]).Err?
    ensures StoppedAt(encode, data, written, encode(data[i]).error)
  {
    assert data[..i + 1][..i] == data[..i];
    FailsFromPrefix(encode, data, i + 1);
  }

  /** Encoding one more file that succeeds extends the outcome. */
  lemma EncodeStep(encode: Path -> Result<Encoded, Error>, data: seq<Path>, i: nat)
    requires i < |data| && EncodeEach(encode, data[..i]).Ok? && encode(data[i]).Ok?
    ensures EncodeEach(encode, data[..i + 1]) == Ok(EncodeEach(encode, data[..i]).value + [encode(data[i]).value])
  {
    assert data[..i + 1][..i] == data[..i];
  }

  /** The loop of `write_record_from_list` over a per-file encoder: encode
      the files in order, appending each example to the record file and
      adding up its class counts and negatives. The first failure ends the
      shard with its error, and the examples of the files before it stay
      written. */
  method WriteEach(id: string, encode: Path -> Result<Encoded, Error>, data: seq<Path>)
    returns (written: seq<Example>, result: Result<ShardResult, Error>)
    ensures result.Ok? <==> EncodeEach(encode, data).Ok?
    ensures result.Ok? ==>
      var encoded := EncodeEach(encode, data).value;
      && written == ExamplesOf(encoded)
      && result.value == ShardResult(id, |data|, ClassCounts(encoded), NegativeCount(encoded))
    ensures result.Err? ==> StoppedAt(encode, data, written, result.error)
  {
    written := [];
    var examplesCount: multiset<string> := multiset{};
    var negativeCount := 0;
    ghost var done: seq<Encoded> := [];
    var i := 0;
    while i < |data|
      invariant 0 <= i <= |data| && |written| == i
      invariant EncodeEach(encode, data[..i]) == Ok(done)
      invariant written == ExamplesOf(done)
      invariant examplesCount == ClassCounts(done)
      invariant negativeCount == NegativeCount(done)
    {
      var encoded := encode(data[i]);
      if encoded.Err? {
        StopAt(encode, data, i, done, written);
        return written, Err(encoded.error);
      }
      EncodeStep(encode, data, i);
      EncodedSnoc(done, encoded.value);
      done := done + [encoded.value];
      written := written + [encoded.value.example];
      examplesCount := examplesCount + encoded.value.classCount;
      negativeCount := negativeCount + if encoded.value.isNegative then 1 else 0;
      i := i + 1;
    }
    assert data[..i] == data;
    result := Ok(ShardResult(id, |data|, examplesCount, negativeCount));
  }

  /** `write_record_from_list`: the shard succeeds exactly when every file
      encodes, and then reports its file count, class counts and negatives;
      otherwise the first failing file's error ends it, with the examples of
      the files before it written. */
  method WriteRecordFromList(id: string, labels: LabelDict, data: seq<Path>, env: Env)
    returns (written: seq<Example>, result: Result<ShardResult, Error>)
    ensures result.Ok? <==> EncodeAll(labels, data, env).Ok?
    ensures result.Ok? ==>
      && written == ExamplesOf(EncodeAll(labels, data, env).value)
      && result.value == ShardResult(id, |data|, AllClasses(data, env.readRects), NegativeFiles(data, env.readRects))
    ensures result.Err? ==>
      && |written| < |data|
      && EncodeAll(labels, data[..|written|], env).Ok?
      && written == ExamplesOf(EncodeAll(labels, data[..|written|], env).value)
      && CreateExample(labels, data[|written|], env) == Err(result.error)
      && EncodeAll(labels, data, env) == Err(result.error)
  {
    written, result := WriteEach(id, ExampleEncoder(labels, env), data);
    if result.Ok? {
      CountsOfEncoded(labels, data, env);
    }
  }

  function SumRecords(results: seq<ShardResult>): nat
  {
    if results == [] then 0 else SumRecords(results[..|results| - 1]) + results[|results| - 1].recordCount
  }

  function SumClasses(results: seq<ShardResult>): multiset<string>
  {
    if results == [] then multiset{} else SumClasses(results[..|results| - 1]) + results[|results| - 1].classCount
  }

  function SumNegatives(results: seq<ShardResult>): nat
  {
    if results == [] then 0 else SumNegatives(results[..|results| - 1]) + results[|results| - 1].negativeCount
  }

  /** The arithmetic of `print_results`: overall records, class counts and
      negatives. */
  method PrintResults(results: seq<ShardResult>) returns (records: nat, examples: multiset<string>, negatives: nat)
    ensures records == SumRecords(results)
    ensures examples == SumClasses(results)
    ensures negatives == SumNegatives(results)
  {
    records, examples, negatives := 0, multiset{}, 0;
    var i := 0;
    while i < |results|
      invariant 0 <= i <= |results|
      invariant records == SumRecords(results[..i])
      invariant examples == SumClasses(results[..i])
      invariant negatives == SumNegatives(results[..i])
    {
      assert results[..i + 1][..i] == results[..i];
      records := records + results[i].recordCount;
      examples := examples + results[i].classCount;
      negatives := negatives + results[i].negativeCount;
      i := i + 1;
    }
    assert results[..i] == results;
  }

  /** Totals over two groups of shards add up. */
  lemma {:induction false} SumsOfConcat(a: seq<ShardResult>, b: seq<ShardResult>)
    ensures SumRecords(a + b) == SumRecords(a) + SumRecords(b)
    ensures SumClasses(a + b) == SumClasses(a) + SumClasses(b)
    ensures SumNegatives(a + b) == SumNegatives(a) + SumNegatives(b)
    decreases |b|
  {
    if b != [] {
      var b' := b[..|b| - 1];
      assert (a + b)[..|a + b| - 1] == a + b';
      SumsOfConcat(a, b');
    } else {
      assert a + b == a;
    }
  }

  lemma {:induction false} CountsOfConcat(a: seq<Path>, b: seq<Path>, read: Path -> seq<Box>)
    ensures AllClasses(a + b, read) == AllClasses(a, read) + AllClasses(b, read)
    ensures NegativeFiles(a + b, read) == NegativeFiles(a, read) + NegativeFiles(b, read)
    decreases |b|
  {
    if b != [] {
      var b' := b[..|b| - 1];
      assert (a + b)[..|a + b| - 1] == a + b';
      CountsOfConcat(a, b', read);
    } else {
      assert a + b == a;
    }
  }

  /** Class and negative counts depend on which files are counted, not on
      their order. */
  lemma {:induction false} CountsOfPermutation(a: seq<Path>, b: seq<Path>, read: Path -> seq<Box>)
    requires multiset(a) == multiset(b)
    ensures AllClasses(a, read) == AllClasses(b, read)
    ensures NegativeFiles(a, read) == NegativeFiles(b, read)
    decreases |a|
  {
    if a == [] {
      assert b == [] by { assert |multiset(b)| == |b|; }
    } else {
      var x := a[|a| - 1];
      var a' := a[..|a| - 1];
      assert a == a' + [x];
      assert x in multiset(b);
      var j :| 0 <= j < |b| && b[j] == x;
      var before, after := b[..j], b[j + 1..];
      var b' := before + after;
      assert b == before + [x] + after;
      MultisetRemove(a', x, before, after);
      CountsOfPermutation(a', b', read);
      CountsOfConcat(before + [x], after, read);
      CountsOfConcat(before, [x], read);
      CountsOfConcat(before, after, read);
      CountsOfConcat(a', [x], read);
    }
  }

  lemma MultisetRemove(a': seq<Path>, x: Path, before: seq<Path>, after: seq<Path>)
    requires multiset(a' + [x]) == multiset(before + [x] + after)
    ensures multiset(a') == multiset(before + after)
  {
    assert multiset(a' + [x]) == multiset(a') + multiset{x};
    assert multiset(before + [x]) == multiset(before) + multiset{x};
    assert multiset(before + [x] + after) == multiset(before + [x]) + multiset(after);
    assert multiset(before + after) == multiset(before) + multiset(after);
    assert multiset(a') + multiset{x} == multiset(before + after) + multiset{x};
    forall y ensures multiset(a')[y] == multiset(before + after)[y] {
      assert (multiset(a') + multiset{x})[y] == (multiset(before + after) + multiset{x})[y];
    }
  }
}
