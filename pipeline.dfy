/** The converter as a whole: choose the train and eval files
    (`get_record_writing_tasks`), write every shard, then the label map and
    the totals (the `__main__` block). */
module Pipeline {
  import opened Wrappers
  import opened Paths
  import opened Annotation
  import opened Discovery
  import opened Labels
  import opened Split
  import opened Shards
  import opened Encoder
  import opened Writer
  import opened Manifest

  /** A folder to read: what `os.walk` reports under it, and the draws
      `random.shuffle` makes on its annotation list. */
  datatype Listing = Listing(walk: seq<WalkEntry>, draws: seq<nat>)

  /** The command line: `--folder`, `--eval_folder`, `--eval`, `--split`,
      `--number`. */
  datatype Args = Args(folder: Path, train: Listing, evalFolder: Option<Listing>, eval: bool, split: real, number: int)

  predicate ValidListing(l: Listing)
  {
    ValidDraws(l.draws, |AnnotationPaths(l.walk)|)
  }

  predicate ValidArgs(args: Args)
  {
    ValidListing(args.train) && (args.evalFolder.Some? ==> ValidListing(args.evalFolder.value))
  }

  function ShuffledListing(l: Listing): seq<Path>
    requires ValidListing(l)
  {
    Shuffled(AnnotationPaths(l.walk), l.draws)
  }

  /** The train and eval files: an eval folder wins over `--eval`, which
      cuts the eval files off the front of the shuffled train files;
      with neither there is no eval set. */
  function TrainEval(args: Args): (r: (seq<Path>, seq<Path>))
    requires ValidArgs(args)
  {
    var all := ShuffledListing(args.train);
    if args.evalFolder.Some? then (all, ShuffledListing(args.evalFolder.value))
    else if args.eval then SplitFilenames(all, args.split)
    else (all, [])
  }

  /** Which annotation files end up in train and eval, in each mode. */
  lemma TrainEvalSources(args: Args)
    requires ValidArgs(args)
    ensures var (train, eval) := TrainEval(args);
      var found := AnnotationPaths(args.train.walk);
      && (args.evalFolder.Some? ==>
            && multiset(train) == multiset(found)
            && multiset(eval) == multiset(AnnotationPaths(args.evalFolder.value.walk)))
      && (args.evalFolder.None? && args.eval ==>
            && multiset(eval + train) == multiset(found)
            && |eval| == EvalCount(|found|, args.split))
      && (args.evalFolder.None? && !args.eval ==>
            multiset(train) == multiset(found) && eval == [])
  {
    ShuffledIsPermutation(AnnotationPaths(args.train.walk), args.train.draws);
    if args.evalFolder.Some? {
      var l := args.evalFolder.value;
      ShuffledIsPermutation(AnnotationPaths(l.walk), l.draws);
    }
  }

  /** The train tasks followed by the eval tasks, as a reference definition. */
  function BothTasks(folder: Path, labels: LabelDict, train: seq<Path>, eval: seq<Path>, number: int): seq<Task>
  {
    SplitTasks("train", folder, labels, train, number) + SplitTasks("eval", folder, labels, eval, number)
  }

  function AllTasks(args: Args, labels: LabelDict): seq<Task>
    requires ValidArgs(args)
  {
    BothTasks(args.folder, labels, TrainEval(args).0, TrainEval(args).1, args.number)
  }

  /** `get_record_writing_tasks`: the vocabulary of all train and eval
      files, and the train tasks followed by the eval tasks. */
  method GetRecordWritingTasks(args: Args, read: Path -> seq<Box>) returns (tasks: seq<Task>, labels: LabelDict)
    requires ValidArgs(args)
    ensures IsVocabulary(labels, ClassesOf(TrainEval(args).0 + TrainEval(args).1, read))
    ensures tasks == AllTasks(args, labels)
  {
    var trainFilenames := GetShuffledFilenames(args.train.walk, args.train.draws);
    var evalFilenames: seq<Path>;
    if args.evalFolder.Some? {
      evalFilenames := GetShuffledFilenames(args.evalFolder.value.walk, args.evalFolder.value.draws);
    } else if args.eval {
      var split := SplitFilenames(trainFilenames, args.split);
      trainFilenames, evalFilenames := split.0, split.1;
    } else {
      evalFilenames := [];
    }
    labels := GetLabelsFromFilenames(trainFilenames + evalFilenames, read);
    var trainTasks := MakeTasks("train", args.folder, labels, trainFilenames, args.number);
    var evalTasks := MakeTasks("eval", args.folder, labels, evalFilenames, args.number);
    assert trainTasks == SplitTasks("train", args.folder, labels, trainFilenames, args.number);
    assert evalTasks == SplitTasks("eval", args.folder, labels, evalFilenames, args.number);
    tasks := trainTasks + evalTasks;
  }

  /** The file lists of `tasks`. */
  function TaskFiles(tasks: seq<Task>): (r: seq<seq<Path>>)
    ensures |r| == |tasks|
  {
    seq(|tasks|, k requires 0 <= k < |tasks| => tasks[k].files)
  }

  lemma {:induction false} ConcatAppend<T>(a: seq<seq<T>>, b: seq<seq<T>>)
    ensures Concat(a + b) == Concat(a) + Concat(b)
  {
    if a != [] {
      assert (a + b)[1..] == a[1..] + b;
      ConcatAppend(a[1..], b);
    } else {
      assert a + b == b;
    }
  }

  /** The tasks of one split hold its files, each as often as it is listed. */
  lemma SplitTasksPartition(splitName: string, folder: Path, labels: LabelDict, files: seq<Path>, number: int)
    ensures multiset(Concat(TaskFiles(SplitTasks(splitName, folder, labels, files, number)))) == multiset(files)
  {
    var tasks := SplitTasks(splitName, folder, labels, files, number);
    var n := ShardCount(number, |files|);
    if n == 0 {
      assert TaskFiles(tasks) == [];
    } else {
      assert TaskFiles(tasks) == Deal(files, n);
      DealIsPartition(files, n);
    }
  }

  /** Every train and eval file is handed to exactly as many tasks as it
      is listed: the shards partition the files. */
  lemma TasksPartitionFiles(folder: Path, labels: LabelDict, train: seq<Path>, eval: seq<Path>, number: int)
    ensures multiset(Concat(TaskFiles(BothTasks(folder, labels, train, eval, number)))) == multiset(train + eval)
  {
    var a := SplitTasks("train", folder, labels, train, number);
    var b := SplitTasks("eval", folder, labels, eval, number);
    assert TaskFiles(a + b) == TaskFiles(a) + TaskFiles(b);
    ConcatAppend(TaskFiles(a), TaskFiles(b));
    SplitTasksPartition("train", folder, labels, train, number);
    SplitTasksPartition("eval", folder, labels, eval, number);
  }

  /** The id of task `i` when the first `n` tasks are the train tasks. */
  function BothId(n: nat, i: nat): string
  {
    if i < n then TaskId("train", i) else TaskId("eval", i - n)
  }

  lemma BothIdsDiffer(n: nat, i: nat, j: nat)
    requires i < j
    ensures BothId(n, i) != BothId(n, j)
  {
    if j < n {
      if TaskId("train", i) == TaskId("train", j) { TaskIdsDistinct("train", i, j); }
    } else if i >= n {
      if TaskId("eval", i - n) == TaskId("eval", j - n) { TaskIdsDistinct("eval", i - n, j - n); }
    } else {
      TrainAndEvalIdsDiffer(i, j - n);
    }
  }

  /** Task `i` is the `i`-th train task, or else an eval task numbered
      from 0 after the train tasks. */
  lemma BothTasksId(folder: Path, labels: LabelDict, train: seq<Path>, eval: seq<Path>, number: int, i: nat)
    requires i < |BothTasks(folder, labels, train, eval, number)|
    ensures BothTasks(folder, labels, train, eval, number)[i].id == BothId(ShardCount(number, |train|), i)
  {
    var a := SplitTasks("train", folder, labels, train, number);
    var b := SplitTasks("eval", folder, labels, eval, number);
    if i >= |a| {
      assert (a + b)[i] == b[i - |a|];
    }
  }

  /** No two tasks share an id. */
  lemma TaskIdsUnique(folder: Path, labels: LabelDict, train: seq<Path>, eval: seq<Path>, number: int, i: nat, j: nat)
    requires i < j < |BothTasks(folder, labels, train, eval, number)|
    ensures BothTasks(folder, labels, train, eval, number)[i].id != BothTasks(folder, labels, train, eval, number)[j].id
  {
    BothTasksId(folder, labels, train, eval, number, i);
    BothTasksId(folder, labels, train, eval, number, j);
    BothIdsDiffer(ShardCount(number, |train|), i, j);
  }

  /** The vocabulary holds every class name of the files it was built
      from, so encoding those files never meets an unknown class. */
  lemma VocabularyCoversFiles(labels: LabelDict, files: seq<Path>, read: Path -> seq<Box>, f: Path)
    requires IsVocabulary(labels, ClassesOf(files, read)) && f in files
    ensures forall k :: 0 <= k < |read(f)| ==> read(f)[k].cls in AsMap(labels)
  {
    VocabularyLookup(labels, ClassesOf(files, read));
    forall k | 0 <= k < |read(f)| ensures read(f)[k].cls in AsMap(labels) {
      var c := read(f)[k].cls;
      assert read(f)[k] in read(f);
      ClassesOfMembership(files, read, c);
    }
  }

  /** The result of a task whose files all encode. */
  function ShardOf(task: Task, read: Path -> seq<Box>): ShardResult
  {
    ShardResult(task.id, |task.files|, AllClasses(task.files, read), NegativeFiles(task.files, read))
  }

  function Expected(tasks: seq<Task>, read: Path -> seq<Box>): (r: seq<ShardResult>)
    ensures |r| == |tasks|
  {
    seq(|tasks|, k requires 0 <= k < |tasks| => ShardOf(tasks[k], read))
  }

  /** The summed shard results of `tasks` count their files, class names
      and negatives. */
  predicate TotalsMatch(tasks: seq<Task>, read: Path -> seq<Box>)
  {
    var files := Concat(TaskFiles(tasks));
    && SumRecords(Expected(tasks, read)) == |files|
    && SumClasses(Expected(tasks, read)) == AllClasses(files, read)
    && SumNegatives(Expected(tasks, read)) == NegativeFiles(files, read)
  }

  /** Summing the shard results counts every file of every task once. */
  lemma {:induction false} ExpectedTotals(tasks: seq<Task>, read: Path -> seq<Box>)
    ensures TotalsMatch(tasks, read)
  {
    if tasks != [] {
      var init := tasks[..|tasks| - 1];
      ExpectedTotals(init, read);
      TotalsStep(init, tasks[|tasks| - 1], read);
      assert init + [tasks[|tasks| - 1]] == tasks;
    }
  }

  lemma TotalsStep(init: seq<Task>, last: Task, read: Path -> seq<Box>)
    requires TotalsMatch(init, read)
    ensures TotalsMatch(init + [last], read)
  {
    var tasks := init + [last];
    assert Expected(tasks, read)[..|init|] == Expected(init, read);
    assert TaskFiles(tasks) == TaskFiles(init) + [last.files];
    ConcatAppend(TaskFiles(init), [last.files]);
    assert Concat([last.files]) == last.files;
    CountsOfConcat(Concat(TaskFiles(init)), last.files, read);
  }

  /** The totals of the whole run are those of the train and eval files. */
  lemma RunTotals(folder: Path, labels: LabelDict, train: seq<Path>, eval: seq<Path>, number: int, read: Path -> seq<Box>)
    ensures var results := Expected(BothTasks(folder, labels, train, eval, number), read);
      && SumRecords(results) == |train + eval|
      && SumClasses(results) == AllClasses(train + eval, read)
      && SumNegatives(results) == NegativeFiles(train + eval, read)
  {
    var files := train + eval;
    var tasks := BothTasks(folder, labels, train, eval, number);
    ExpectedTotals(tasks, read);
    TasksPartitionFiles(folder, labels, train, eval, number);
    var all := Concat(TaskFiles(tasks));
    assert |all| == |files| by {
      assert |multiset(all)| == |all| && |multiset(files)| == |files|;
    }
    CountsOfPermutation(all, files, read);
  }

  lemma {:induction false} AllAppend<T>(a: seq<T>, b: seq<T>, p: T -> bool)
    ensures All(a + b, p) <==> All(a, p) && All(b, p)
  {
    if All(a, p) && All(b, p) {
      forall k | 0 <= k < |a + b| ensures p((a + b)[k]) {
        if k < |a| { assert (a + b)[k] == a[k]; } else { assert (a + b)[k] == b[k - |a|]; }
      }
    }
    if All(a + b, p) {
      forall k | 0 <= k < |a| ensures p(a[k]) { assert (a + b)[k] == a[k]; }
      forall k | 0 <= k < |b| ensures p(b[k]) { assert (a + b)[k + |a|] == b[k]; }
    }
  }

  lemma {:induction false} AllOfConcat<T>(lists: seq<seq<T>>, p: T -> bool)
    ensures All(Concat(lists), p) <==> forall k :: 0 <= k < |lists| ==> All(lists[k], p)
  {
    if lists != [] {
      AllOfConcat(lists[1..], p);
      AllAppend(lists[0], Concat(lists[1..]), p);
      assert forall k :: 1 <= k < |lists| ==> lists[k] == lists[1..][k - 1];
    }
  }

  lemma AllOfPermutation<T>(a: seq<T>, b: seq<T>, p: T -> bool)
    requires multiset(a) == multiset(b)
    ensures All(a, p) <==> All(b, p)
  {
    if All(a, p) {
      forall k | 0 <= k < |b| ensures p(b[k]) {
        assert b[k] in multiset(a);
        var j :| 0 <= j < |a| && a[j] == b[k];
      }
    }
    if All(b, p) {
      forall k | 0 <= k < |a| ensures p(a[k]) {
        assert a[k] in multiset(b);
        var j :| 0 <= j < |b| && b[j] == a[k];
      }
    }
  }

  /** The train and eval files encode exactly when their images are
      usable: the vocabulary knows all their classes. */
  lemma EncodesIffUsable(labels: LabelDict, files: seq<Path>, env: Env)
    requires IsVocabulary(labels, ClassesOf(files, env.readRects))
    ensures All(files, Encodes(labels, env)) <==> forall f :: f in files ==> ImageUsable(f, env)
  {
    forall f | f in files ensures Encodes(labels, env)(f) <==> ImageUsable(f, env) {
      VocabularyCoversFiles(labels, files, env.readRects, f);
    }
  }

  /** All shards are written exactly when every train and eval image can
      be read, re-encoded as PNG and has a channel axis. */
  lemma RunSucceeds(folder: Path, labels: LabelDict, train: seq<Path>, eval: seq<Path>, number: int, env: Env)
    requires IsVocabulary(labels, ClassesOf(train + eval, env.readRects))
    ensures var tasks := BothTasks(folder, labels, train, eval, number);
      (forall k :: 0 <= k < |tasks| ==> EncodeAll(labels, tasks[k].files, env).Ok?)
      <==> (forall f :: f in train + eval ==> ImageUsable(f, env))
  {
    var tasks := BothTasks(folder, labels, train, eval, number);
    var lists := TaskFiles(tasks);
    var p := Encodes(labels, env);
    forall k | 0 <= k < |tasks| ensures EncodeAll(labels, tasks[k].files, env).Ok? <==> All(lists[k], p) {
      EncodeAllSucceeds(labels, tasks[k].files, env);
    }
    AllOfConcat(lists, p);
    TasksPartitionFiles(folder, labels, train, eval, number);
    AllOfPermutation(Concat(lists), train + eval, p);
    EncodesIffUsable(labels, train + eval, env);
  }

  /** Every task carries the vocabulary it was made with. */
  lemma BothTasksLabels(folder: Path, labels: LabelDict, train: seq<Path>, eval: seq<Path>, number: int)
    ensures forall k :: 0 <= k < |BothTasks(folder, labels, train, eval, number)| ==>
      BothTasks(folder, labels, train, eval, number)[k].labels == labels
  {
  }

  /** The record file of a task whose files all encode holds their
      examples, in order. */
  predicate RecordComplete(task: Task, env: Env, examples: seq<Example>)
  {
    EncodeAll(task.labels, task.files, env).Ok? ==> examples == ExamplesOf(EncodeAll(task.labels, task.files, env).value)
  }

  /** What a task returns or raises. */
  function ShardOutcome(task: Task, env: Env): Result<ShardResult, Error>
  {
    match EncodeAll(task.labels, task.files, env)
    case Ok(_) => Ok(ShardOf(task, env.readRects))
    case Err(e) => Err(e)
  }

  /** A task that has run: its record file at the task's path, complete
      when the task's files all encode, and the task's outcome. */
  predicate TaskDone(task: Task, env: Env, record: (Path, seq<Example>), outcome: Result<ShardResult, Error>)
  {
    && record.0 == task.outPath
    && RecordComplete(task, env, record.1)
    && outcome == ShardOutcome(task, env)
  }

  /** One task of the pool: `write_record_from_list(*task)`, and the
      record file it fills. */
  method RunTask(task: Task, env: Env) returns (record: (Path, seq<Example>), result: Result<ShardResult, Error>)
    ensures TaskDone(task, env, record, result)
  {
    var written;
    written, result := WriteRecordFromList(task.id, task.labels, task.files, env);
    record := (task.outPath, written);
  }

  /** The workers of `pool.starmap(write_record_from_list, tasks)`: every
      task writes its record file and returns its result or its error. */
  method WriteShards(tasks: seq<Task>, env: Env)
    returns (records: seq<(Path, seq<Example>)>, outcomes: seq<Result<ShardResult, Error>>)
    ensures |records| == |tasks| && |outcomes| == |tasks|
    ensures forall k :: 0 <= k < |tasks| ==> TaskDone(tasks[k], env, records[k], outcomes[k])
  {
    records, outcomes := [], [];
    var i := 0;
    while i < |tasks|
      invariant 0 <= i <= |tasks| && |records| == i && |outcomes| == i
      invariant forall k :: 0 <= k < i ==> TaskDone(tasks[k], env, records[k], outcomes[k])
    {
      var record, result := RunTask(tasks[i], env);
      records := records + [record];
      outcomes := outcomes + [result];
      i := i + 1;
    }
  }

  /** How `starmap` hands back the workers' outcomes: all results in task
      order, or the error of the first task that failed. */
  function Gather<R, E>(outcomes: seq<Result<R, E>>): (r: Result<seq<R>, E>)
    ensures r.Ok? ==> |r.value| == |outcomes|
  {
    if outcomes == [] then Ok([])
    else match outcomes[0]
      case Err(e) => Err(e)
      case Ok(x) =>
        match Gather(outcomes[1..])
        case Err(e) => Err(e)
        case Ok(xs) => Ok([x] + xs)
  }

  /** `Gather` succeeds exactly when every task does, and then lists their
      results; otherwise it reports the first failure. */
  lemma {:induction false} GatherOutcomes<R, E>(outcomes: seq<Result<R, E>>)
    ensures Gather(outcomes).Ok? <==> forall k :: 0 <= k < |outcomes| ==> outcomes[k].Ok?
    ensures Gather(outcomes).Ok? ==> forall k :: 0 <= k < |outcomes| ==> Gather(outcomes).value[k] == outcomes[k].value
    ensures Gather(outcomes).Err? ==>
      exists k :: 0 <= k < |outcomes| && outcomes[k] == Err(Gather(outcomes).error)
        && forall j :: 0 <= j < k ==> outcomes[j].Ok?
  {
    if outcomes != [] && outcomes[0].Ok? {
      var rest := outcomes[1..];
      GatherOutcomes(rest);
      assert forall k :: 1 <= k < |outcomes| ==> outcomes[k] == rest[k - 1];
      if Gather(rest).Err? {
        var k :| 0 <= k < |rest| && rest[k] == Err(Gather(rest).error) && forall j :: 0 <= j < k ==> rest[j].Ok?;
        assert outcomes[k + 1] == rest[k];
        assert forall j :: 1 <= j < k + 1 ==> outcomes[j] == rest[j - 1];
      }
    }
  }

  /** The three totals `print_results` reports. */
  function Totals(results: seq<ShardResult>): (nat, multiset<string>, nat)
  {
    (SumRecords(results), SumClasses(results), SumNegatives(results))
  }

  /** What the shard outcomes of a run amount to: the run succeeds exactly
      when every train and eval image is usable, and its totals are then
      those of the train and eval files. */
  lemma RunOutcome(folder: Path, labels: LabelDict, train: seq<Path>, eval: seq<Path>, number: int,
                   env: Env, outcomes: seq<Result<ShardResult, Error>>)
    requires IsVocabulary(labels, ClassesOf(train + eval, env.readRects))
    requires |outcomes| == |BothTasks(folder, labels, train, eval, number)|
    requires forall k :: 0 <= k < |outcomes| ==> outcomes[k] == ShardOutcome(BothTasks(folder, labels, train, eval, number)[k], env)
    ensures Gather(outcomes).Ok? <==> forall f :: f in train + eval ==> ImageUsable(f, env)
    ensures Gather(outcomes).Ok? ==>
      Totals(Gather(outcomes).value) == (|train + eval|, AllClasses(train + eval, env.readRects), NegativeFiles(train + eval, env.readRects))
  {
    var tasks := BothTasks(folder, labels, train, eval, number);
    GatherOutcomes(outcomes);
    RunSucceeds(folder, labels, train, eval, number, env);
    assert (forall k :: 0 <= k < |outcomes| ==> outcomes[k].Ok?)
      <==> (forall k :: 0 <= k < |tasks| ==> EncodeAll(labels, tasks[k].files, env).Ok?) by {
      BothTasksLabels(folder, labels, train, eval, number);
    }
    if Gather(outcomes).Ok? {
      assert Gather(outcomes).value == Expected(tasks, env.readRects);
      RunTotals(folder, labels, train, eval, number, env.readRects);
    }
  }

  /** The converter's entry point: make the tasks, let every task write its
      record file, then gather the outcomes as `starmap` does. When every
      task succeeded the label map is written and the totals reported;
      otherwise the run ends with the first task's error and no label map. */
  method Convert(args: Args, env: Env)
    returns (tasks: seq<Task>, labels: LabelDict, records: seq<(Path, seq<Example>)>,
             outcomes: seq<Result<ShardResult, Error>>,
             labelMap: Option<(Path, string)>, totals: Result<(nat, multiset<string>, nat), Error>)
    requires ValidArgs(args)
    ensures IsVocabulary(labels, ClassesOf(TrainEval(args).0 + TrainEval(args).1, env.readRects))
    ensures tasks == AllTasks(args, labels)
    ensures |records| == |tasks| && |outcomes| == |tasks|
    ensures forall k :: 0 <= k < |tasks| ==> TaskDone(tasks[k], env, records[k], outcomes[k])
    ensures Gather(outcomes).Err? ==> labelMap == None && totals == Err(Gather(outcomes).error)
    ensures Gather(outcomes).Ok? ==>
      && labelMap == Some((Join(args.folder, "label.pbtxt"), ManifestText(labels)))
      && totals == Ok(Totals(Gather(outcomes).value))
  {
    tasks, labels := GetRecordWritingTasks(args, env.readRects);
    records, outcomes := WriteShards(tasks, env);
    var gathered := Gather(outcomes);
    if gathered.Err? {
      labelMap := None;
      totals := Err(gathered.error);
      return;
    }
    var labelName, text := WriteLabels(args.folder, labels);
    labelMap := Some((labelName, text));
    var recordCount, examples, negatives := PrintResults(gathered.value);
    totals := Ok((recordCount, examples, negatives));
  }
}
