# Label-to-record converter, modelled in Dafny

This project models `training/convert_labels_to_records.py` from the FTC
object-detection repository. The script turns a folder of labelled images
(one `.txt` annotation file per `.png` image) into sharded record files for
training, plus a `label.pbtxt` label map. The model covers the steps below.

- Annotation discovery (`get_shuffled_filenames`): keep the names of a
  directory walk that end in `.txt` but not in `rects.txt`, then shuffle them
  with Python's Fisher-Yates loop.
- The label vocabulary (`get_labels_from_filenames`): the class names of all
  files, sorted, numbered from 0.
- The train/eval split (`get_train_eval_split_filenames`): `int(len * split)`
  used as a slice bound.
- The task loops of `get_record_writing_tasks`:
  - the three eval modes;
  - `min(max(number, 1), len)` shards per split;
  - round-robin dealing of files;
  - `train-%02d` / `eval-%02d` ids and `.record` paths.
- The record encoder (`create_tf_example`):
  - the image-path choice (a `#path` first line naming a file, else the
    `.png` beside the annotation);
  - the `[0, 1]` clamp of coordinates;
  - the class-id lookup that fails on an unknown class;
  - the per-file class counter and the negative flag.
- The shard writer (`write_record_from_list`): examples appended in order;
  the first failing file ends the shard with its error.
- `print_results`: the overall totals.
- `write_labels`: the label-map text. A reader of that text is given as its
  inverse.
- The `__main__` block:
  - tasks;
  - a pool of workers whose outcomes are gathered in task order;
  - then the label map and the totals, which happen only when every shard
    succeeded.

The filesystem, the box reader `bbox_writer.read_rects` and the image library
are parameters, bundled in `Annotation.Env`:

- `text(p)`: the content of an annotation file;
- `isFile(p)`: `os.path.isfile`;
- `readRects(p)`: the boxes with their class names;
- `openImage(p)`: the decoded image, or none. An image has a size, a band
  count and an optional PNG re-encoding.

The directory walk is an input: one `(root, file names)` entry per visited
directory. The random draws of `random.shuffle` are an input too.

Two behaviours of the code are easy to misread, and the model keeps them as
written:

- The eval size is `int(len * split)` used as a Python slice bound, and
  nothing restricts `split` to `[0, 1]`. A split above 1 puts every file in
  eval. A negative split counts from the end of the list: `Split.EvalCount`
  states both cases.
- A folder `os.walk` cannot read yields no files rather than an error. The
  walk is an input here, so an unreadable root is simply an empty walk.

## Model

| member | source | states |
|---|---|---|
| Strings.Strip | training/convert_labels_to_records.py:82 | the stripped line occurs in the original with only whitespace around it, and neither starts nor ends with whitespace |
| Strings.LessTotal | training/convert_labels_to_records.py:175 | Python's string order relates any two different names, so `sorted` has one answer |
| Strings.LessTransitive | training/convert_labels_to_records.py:175 | Python's string order is transitive |
| Paths.Basename | training/convert_labels_to_records.py:87 | a base name holds no slash |
| Paths.JoinFileName | training/convert_labels_to_records.py:89-90 | `Join` (`os.path.join`) of a directory in the shape `Dirname` returns and a slash-free file name is taken apart again by `Dirname` and `Basename` into that directory and that name |
| Paths.SplitextRootOfTxt | training/convert_labels_to_records.py:88 | `SplitextRoot` (`os.path.splitext(p)[0]`) of `stem.txt` is `stem`, unless the stem is all dots, when the whole name is the root |
| Format.Decimal | training/convert_labels_to_records.py:196 | `%d` gives a non-empty run of digits with no leading zero, a single digit exactly below 10 |
| Format.ParseDecimalOfDecimal | training/convert_labels_to_records.py:196 | the `%d` text of an id reads back as that id |
| Format.TwoDigits | training/convert_labels_to_records.py:259 | `%02d` gives at least two digits: exactly two, the first a padding zero, below 10, and no leading zero when longer than two |
| Format.TwoDigitsRoundTrip | training/convert_labels_to_records.py:259 | the `%02d` text of a shard index reads back as that index |
| Format.TwoDigitsInjective | training/convert_labels_to_records.py:259 | different shard indices give different `%02d` texts |
| Discovery.KeptInMembership | training/convert_labels_to_records.py:155-161 | a path is kept for a directory exactly when it joins the directory to one of its names that ends in `.txt` but not in `rects.txt` |
| Discovery.AnnotationPathsMembership | training/convert_labels_to_records.py:154-161 | a path is discovered exactly when it joins some walked root to a kept name of that root |
| Discovery.CollectAnnotations | training/convert_labels_to_records.py:153-161 | the walk loop lists the kept paths in walk order |
| Discovery.Shuffle | training/convert_labels_to_records.py:163 | the in-place Fisher-Yates loop leaves the array holding the shuffle the draws determine |
| Discovery.ShuffledIsPermutation | training/convert_labels_to_records.py:163 | whatever the draws, the shuffle only reorders the list |
| Discovery.GetShuffledFilenames | training/convert_labels_to_records.py:151-164 | the result is the shuffle of the discovered paths |
| Discovery.ShuffledFilenamesMembership | training/convert_labels_to_records.py:151-164 | the shuffled list holds exactly the paths joining a walked root to a kept name |
| Labels.ClassesOfMembership | training/convert_labels_to_records.py:169-172 | a name is collected exactly when some given file has a box of that class |
| Labels.ClassesOfDependsOnFileSet | training/convert_labels_to_records.py:169-172 | the collected names depend only on which files are given, not on order or repetition |
| Labels.MinName | training/convert_labels_to_records.py:175 | the name picked is in the set and sorts before every other member |
| Labels.SortNames | training/convert_labels_to_records.py:175 | `sorted` of a set lists each member once, in strictly increasing order |
| Labels.GetLabelsFromFilenames | training/convert_labels_to_records.py:167-176 | the dict enumerates the sorted listing of every class name of the files |
| Labels.SortedListingUnique | training/convert_labels_to_records.py:175 | a set has one strictly sorted listing |
| Labels.VocabularyUnique | training/convert_labels_to_records.py:174-176 | two vocabularies of the same names are the same dict |
| Labels.AsMapOfEnumerate | training/convert_labels_to_records.py:176 | the dict `Enumerate` builds from a sorted listing has the listed names as keys, each mapped to its index |
| Labels.RankInSortedListing | training/convert_labels_to_records.py:176 | in a sorted listing, index `i` has exactly `i` names sorting before it |
| Labels.VocabularyLookup | training/convert_labels_to_records.py:176 | looking up the dict gives, for each seen name, the number of seen names sorting before it, and nothing else is a key |
| Labels.VocabularyIds | training/convert_labels_to_records.py:176 | the dict has one entry per distinct name, ids `0..K-1` in order, and names increase with ids |
| Split.Trunc | training/convert_labels_to_records.py:181 | `int()` of a float rounds toward zero |
| Split.EvalCount | training/convert_labels_to_records.py:181-185 | the eval size, `int(len * split)` read as a slice bound by `SliceBound`, is the floor of `len * split` for a split in `[0, 1]`, 0 for split 0, everything for split at least 1, and counted from the end for a negative split |
| Split.SplitFilenames | training/convert_labels_to_records.py:179-187 | eval followed by train is the input list, and eval has the eval size |
| Shards.ShardCount | training/convert_labels_to_records.py:253 | the shard count is 0 exactly for an empty split, the requested number when that fits, the file count when the request is at or above it, and 1 when a non-positive number is asked |
| Shards.EveryAt | training/convert_labels_to_records.py:255-256 | the `q`-th file of shard `k` is file `k + q * n` |
| Shards.EverySnoc | training/convert_labels_to_records.py:255-256 | appending a file extends exactly the shard congruent to its index |
| Shards.DealIsPartition | training/convert_labels_to_records.py:254-256 | the shards together hold every file exactly as often as it is listed |
| Shards.DealPlacesIndex | training/convert_labels_to_records.py:255-256 | file `i` sits in shard `i % n` at position `i / n` |
| Shards.DealBalanced | training/convert_labels_to_records.py:254-256 | shard sizes differ by at most one, and lower shards are never smaller |
| Shards.DealLists | training/convert_labels_to_records.py:254-256 | the partition loop leaves list `k` holding the files at indices congruent to `k`, in order |
| Shards.SplitTasks | training/convert_labels_to_records.py:253-260 | a split has as many tasks as its shard count |
| Shards.MakeTasks | training/convert_labels_to_records.py:253-260 | task `k` has id `split-%02d`, the vocabulary, the files at indices congruent to `k`, and path `folder/split-%02d.record` |
| Shards.TaskIdsDistinct | training/convert_labels_to_records.py:258-260 | two shards of one split never share a `TaskId` (`split-%02d`) |
| Shards.TrainAndEvalIdsDiffer | training/convert_labels_to_records.py:268-270 | no train task id equals an eval task id |
| Encoder.ReadLine | training/convert_labels_to_records.py:82 | `readline` gives the text up to its first `\n` or `\r`, that break read as `\n`, or the whole text when it has no break |
| Encoder.ImagePath | training/convert_labels_to_records.py:83-90 | a `#` first line naming a file gives that file; otherwise the image is the join of the annotation's directory and its root plus `.png` |
| Encoder.ImageBesideAnnotation | training/convert_labels_to_records.py:86-90 | for `stem.txt`, when the stem is not made of dots only, the default image is `stem.png` in the same directory |
| Encoder.Clamp | training/convert_labels_to_records.py:105-108 | the clamp lands in `[0, 1]`, keeps values inside it and sends values outside it to the nearer end |
| Encoder.Normalized | training/convert_labels_to_records.py:105-108 | one value per box, each in `[0, 1]`, equal to the coordinate over the extent when the box lies inside the image |
| Encoder.ClassIds | training/convert_labels_to_records.py:111 | the lookup succeeds exactly when every class is a key, with each class's id; otherwise it fails on the first unknown class |
| Encoder.BuildExample | training/convert_labels_to_records.py:113-129 | every list has one entry per box: `xmin`/`xmax` clamped over the image width, `ymin`/`ymax` over its height, each box's class name and id; size, band count and PNG payload are the image's, with colorspace `RGB`, format `png`, and the image path as file name, source id and key |
| Encoder.EncodeImage | training/convert_labels_to_records.py:92-129 | with the image path settled, encoding succeeds exactly when the image is usable and every class is known; an unopenable image, a failed PNG save and a missing channel axis each give their own error, in that order, and otherwise the first unknown class is reported |
| Encoder.CreateExample | training/convert_labels_to_records.py:78-133 | a file encodes exactly when its image opens, re-encodes as PNG and has a channel axis and all its classes are known; it is negative exactly when it has no box, and then counts no class; a failure reports the first failing step in the source's order: an unopenable image, a failed PNG save, a missing channel axis, then the first unknown class |
| Encoder.CreatedExampleFields | training/convert_labels_to_records.py:99-128 | the example names the resolved image as file name, source id and key, carries the image's size, band count and PNG payload with colorspace `RGB` and format `png`, and, per box, its x coordinates clamped over the image width, its y coordinates over the height, its class name and its id |
| Writer.EncodeEach | training/convert_labels_to_records.py:141-143 | a list that encodes gives one result per file, result `k` being file `k`'s encoding |
| Writer.FailsFromPrefix | training/convert_labels_to_records.py:141-143 | once a prefix of the files fails, the whole list fails with the same error |
| Writer.EncodeEachSucceeds | training/convert_labels_to_records.py:141-143 | a list encodes exactly when every file does |
| Writer.EncodeAllSucceeds | training/convert_labels_to_records.py:141-143 | a shard encodes exactly when each of its files does |
| Writer.CountsOfEncoded | training/convert_labels_to_records.py:143-146 | the class counts and negatives of an encoded list are the class names and the box-less files of its annotation files |
| Writer.StopAt | training/convert_labels_to_records.py:141-144 | when file `i` is the first to fail, the record holds the examples of the files before it and the shard's error is that file's |
| Writer.WriteEach | training/convert_labels_to_records.py:136-148 | the loop succeeds exactly when every file encodes, writing their examples in order with their class counts and negatives; otherwise it stops at the first failure |
| Writer.WriteRecordFromList | training/convert_labels_to_records.py:136-148 | a shard succeeds exactly when every file encodes, reporting its file count, class names and box-less files; else it fails with the first failing file's error, with the earlier examples written |
| Writer.PrintResults | training/convert_labels_to_records.py:204-218 | the overall records, class counts and negatives are the sums over the shard results |
| Writer.SumsOfConcat | training/convert_labels_to_records.py:209-214 | totals over two groups of shards add up |
| Writer.CountsOfConcat | training/convert_labels_to_records.py:145-146 | class and negative counts over two groups of files add up |
| Writer.CountsOfPermutation | training/convert_labels_to_records.py:145-146 | class and negative counts do not depend on the order of the files |
| Manifest.Entries | training/convert_labels_to_records.py:195-196 | the label map lists one entry per dict entry |
| Manifest.WriteLabels | training/convert_labels_to_records.py:190-199 | the label map goes to `folder/label.pbtxt`, and its text is `Blocks` of the dict's entries, ids shifted by one, joined by newlines |
| Manifest.BlockRoundTrip | training/convert_labels_to_records.py:196 | the `Block` text (`item {...}` with `%d` id and quoted name) of a name without `'` reads back as its name and id, leaving what follows |
| Manifest.BlocksRoundTrip | training/convert_labels_to_records.py:195-199 | newline-joined blocks of names without `'` read back as their entries, in order |
| Manifest.ManifestRoundTrip | training/convert_labels_to_records.py:190-199 | the label-map text reads back as the dict's entries with ids shifted by one |
| Manifest.VocabularyManifest | training/convert_labels_to_records.py:195-199 | for class names without `'`, the converter's label map reads back as every class once, in sorted order, with ids `1..K` |
| Manifest.VocabularyManifestText | training/convert_labels_to_records.py:195-199 | for any class names, the converter's label map is one `Block` per name of the sorted listing, each name once, in sorted order, with ids `1..K` |
| Manifest.SingleClassManifest | training/convert_labels_to_records.py:196-199 | the label map of a one-class dict `{c: 0}` is the single block `item {` / `id: 1` / `name:'c'` / `}`, for any class name `c` |
| Pipeline.TrainEvalSources | training/convert_labels_to_records.py:230-245 | `TrainEval`: an eval folder gives the walked files of each folder; `--eval` splits the train files with the eval size; otherwise eval is empty |
| Pipeline.GetRecordWritingTasks | training/convert_labels_to_records.py:221-272 | the vocabulary covers the train and eval files, and the tasks are the train tasks followed by the eval tasks |
| Pipeline.SplitTasksPartition | training/convert_labels_to_records.py:253-260 | the tasks of one split hold its files exactly as often as they are listed |
| Pipeline.TasksPartitionFiles | training/convert_labels_to_records.py:250-270 | all tasks together hold exactly the train and eval files |
| Pipeline.BothIdsDiffer | training/convert_labels_to_records.py:258-270 | positions `i < j` in the task list get different ids |
| Pipeline.TaskIdsUnique | training/convert_labels_to_records.py:250-270 | no two tasks share an id |
| Pipeline.VocabularyCoversFiles | training/convert_labels_to_records.py:247 | every class of every train and eval file is a key of the vocabulary |
| Pipeline.ExpectedTotals | training/convert_labels_to_records.py:209-214 | summing the shard results of all-successful tasks counts every task file, class name and box-less file |
| Pipeline.RunTotals | training/convert_labels_to_records.py:301-311 | the totals of a successful run are the count, class names and box-less files of the train and eval files |
| Pipeline.EncodesIffUsable | training/convert_labels_to_records.py:247 | with the run's vocabulary, a train or eval file encodes exactly when its image is usable |
| Pipeline.RunSucceeds | training/convert_labels_to_records.py:301-307 | every shard succeeds exactly when every train and eval image is usable |
| Pipeline.RunTask | training/convert_labels_to_records.py:307 | a worker writes its task's record file, complete when the files encode, and returns the task's outcome |
| Pipeline.WriteShards | training/convert_labels_to_records.py:306-307 | every task runs, each with its own record file and outcome |
| Pipeline.Gather | training/convert_labels_to_records.py:307 | a successful gather has one result per task |
| Pipeline.GatherOutcomes | training/convert_labels_to_records.py:307 | the gather succeeds exactly when every task does, listing their results in task order; otherwise it raises the first failure |
| Pipeline.RunOutcome | training/convert_labels_to_records.py:301-311 | a run succeeds exactly when every image is usable, and its totals are then those of the train and eval files |
| Pipeline.Convert | training/convert_labels_to_records.py:295-311 | the tasks and vocabulary of the arguments; a record per task; the label map and totals only when every shard succeeded, else the first error and no label map |

## Left out

- Argument parsing (`argparse`) is left out. The arguments are a plain `Args` value.
- Filesystem access is not modelled: `os.walk`, opening and reading files, `os.path.isfile`, writing record and label-map files. The walk is an input. The other calls are the functions of `Env`, and a written file is the value the model returns for it.
- `random.seed(42)` and the Mersenne Twister are left out. The shuffle takes its draws as an input, so every valid draw sequence is covered, including the one the seed produces.
- PIL decoding and PNG re-encoding are not modelled. Each image is an abstract size, band count and optional PNG payload. numpy's `shape[2]` is modelled only as failing for single-band images.
- TensorFlow is not modelled: example construction, the feature helpers, serialisation and `TFRecordWriter` framing. A record is the list of `Example` field values written to it.
- `bbox_writer.read_rects` is not part of this model. It is the `readRects` function of `Env`, and reading an annotation file does not fail.
- Thread-pool scheduling is left out. Every task runs, and the error reported is the first in task order. With a real pool, chunking and thread timing can change which failing task's error is raised and which later tasks still run.
- Floating point is left out. Division and `len * split` are exact reals, so IEEE rounding is not modelled.
- Progress prints and timing are left out. Only the totals `print_results` computes are kept.
- UTF-8 encoding of names and paths is left out. Strings are sequences of characters.
- Manifest.BlocksRoundTrip: holds only for class names without `'`, since the format has no escaping. `Manifest.VocabularyManifestText` states the text itself for every name.
- Manifest.VocabularyManifest: holds only for class names without `'`, because it reads the text back. `Manifest.VocabularyManifestText` states the same layout on the text for every name.
- Manifest.ManifestRoundTrip: holds only for class names without `'`. The format has no escaping, so a name with a quote cannot be read back.
- Encoder.CreateExample: numpy's `shape[2]` is modelled as the image's band count, failing for single-band images; the PNG bytes are the abstract image's payload, not an encoding the model computes. Nothing checks that the payload is a valid PNG of that size and band count.
