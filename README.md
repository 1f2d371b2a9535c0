# bolt-lmm pipeline, modelled in Dafny

This project models the core of a genome-wide association pipeline built around BOLT-LMM on a
PBS batch queue. The pipeline has three scripts.

- **Driver** (`bin/main.py`):
  - builds the chromosome list and the per-chromosome base names;
  - submits a plink array job, one task per chromosome, and polls the queue until the job has gone;
  - writes the list of coresets to merge;
  - reads each chromosome's variant file and cuts its positions into chunks of `chunksize`
    variants, giving `chunk_list`;
  - submits a bolt array job, one task per chunk, polls again, and lists the per-chunk
    statistics files to merge.
- **Plink worker** (`bin/run-plink.py`):
  - picks its gen base from its array index;
  - stages the chromosome's `.bim` (column 2 rewritten by awk), `.bed` and `.fam`;
  - runs plink's MAF, missingness and HWE filters into `<gen base>.coreset`.
- **Bolt worker** (`bin/run-bolt.py`):
  - picks its chunk from its array index;
  - cuts the chunk's range out of the chromosome's bgen file with `bgenix`;
  - runs `bolt` with the phenotype, covariate and sample-removal options of the configuration.

Modules:

- `Results`, `PySeq`, `PyStr` and `PyPath` give the Python semantics the scripts rely on:
  - `str.split` on one character, `replace(pat, '')`, `rstrip`/`lstrip` with Python's whitespace set;
  - `in` on strings, `zfill`, `str()` of a natural number and `int()`;
  - negative list indexing, floor division and `os.path.join`.
- `Catalog`: the chunk partition, as a loop proved against a window specification, and `chunk_list`.
- `Driver`: the chromosome and base lists, job ids, the completion poll, the two merge lists and
  the stage order.
- `WorkerTask`: the array index both workers read, the list entry it selects, and configuration scalars.
- `CommandLine`: command lines as space-led tokens, and what splitting them on spaces gives back.
- `PlinkWorker` and `BoltWorker`: the two workers.
- `Pipeline`: the agreement between the driver's lists and what the array tasks write.

Behaviour of the scripts that the model keeps as it is:

- **Empty job id.** An empty or undecorated submission output is not rejected; it yields an empty
  job id. An empty id occurs in every listing, so the poll never ends (`Driver.AwaitJob`).
- **Failed status query.** The poll does not look at the status command's exit status. Any
  listing without the id ends the wait.
- **Malformed partition input.** An empty variant file raises IndexError (`EmptyBimFile`).
  A `chunksize` of 0 raises ZeroDivisionError at `-nsnps // chunksize` (`ZeroChunkSize`), even
  for an empty file. A negative `chunksize` reads from the end of the position list and then
  raises IndexError (`NegativeChunkSize`).
- **Covariate file.** `--covarFile` is given only when categorical covariates are set, so a
  setting with only quantitative covariates runs bolt without it (see "## Findings").
- **Merge check.** The merge step does not check that the statistics files exist.

## Model

| member | source | states |
|---|---|---|
| PyStr.Split | bin/main.py:155 | `split` on one character never returns an empty list |
| PyStr.JoinSplit | bin/main.py:155 | joining the fields of a split with the separator gives back the string |
| PyStr.SplitJoin | bin/main.py:155 | splitting a join of separator-free parts gives back the parts |
| PyStr.SplitFirstField | bin/run-bolt.py:170 | field 0 of a split is the text before the first separator, or the whole string |
| PyStr.SplitHasSecondField | bin/run-bolt.py:184 | a split has a second field exactly when the separator occurs |
| PyStr.RemoveCharGone | bin/main.py:154 | `replace(" ", "")` leaves no space |
| PyStr.RemoveKeepsPrefix | bin/main.py:214 | deleting a pattern leaves a prefix without the pattern's first character untouched |
| PyStr.ReplaceIsSinglePass | bin/main.py:214 | `replace` is one left-to-right pass: for any dot-free x, deleting `.pbs` from `x..pbspbs` leaves `x.pbs` |
| PyStr.RStrip | bin/main.py:214 | `rstrip` returns a prefix, without trailing whitespace, having dropped only whitespace |
| PyStr.ZFill | bin/run-bolt.py:142 | `zfill` pads with zeros to the width, after a leading sign |
| PyStr.NatToString | bin/main.py:198 | `str(n)` is decimal digits without a leading zero |
| PyStr.ParseNatToString | bin/run-plink.py:105 | `int(str(n)) == n` |
| PySeq.FloorDiv | bin/main.py:287 | `//` rounds toward negative infinity |
| PyPath.JoinEnds | bin/run-plink.py:122-137 | `os.path.join` ends with its second argument, and keeps the first as a prefix unless the second is absolute |
| PyPath.JoinAvoids | bin/main.py:131-148 | a character that is not `/` and occurs in neither part does not occur in their `os.path.join` |
| PyPath.JoinExtends | bin/run-plink.py:127-137 | appending an extension to the joined name is the same as appending it to the path |
| Catalog.Windows | bin/main.py:294-321 | the windows of positions lie inside the position range and there is at least one |
| Catalog.WindowAt | bin/main.py:294-321 | window k runs from k*size to the earlier of k*size+size-1 and the last position |
| Catalog.WindowsContiguous | bin/main.py:294-321 | the first window starts at 0, each next starts right after the previous one ends, and the last ends at the last position |
| Catalog.WindowWidths | bin/main.py:294-321 | every window but the last holds exactly `chunksize` positions; the last holds 1 to `chunksize` |
| Catalog.WindowsCoverAll | bin/main.py:294-321 | the window widths add up to the number of positions |
| Catalog.WindowCount | bin/main.py:294-321 | the number of windows c is the ceiling of n/size: (c-1)*size < n <= c*size |
| Catalog.NChunksIsWindowCount | bin/main.py:287 | `-1 * (-nsnps // chunksize)` equals the number of chunks the loop produces |
| Catalog.ChunksOfAt | bin/main.py:298-321 | chunk k is the position pair at window k's ends, tagged with the chromosome |
| Catalog.PartitionCount | bin/main.py:287-321 | a chromosome of n positions gives ceil(n/chunksize) chunks |
| Catalog.PartitionAt | bin/main.py:298-321 | chunk k holds the positions at index k*chunksize and at the earlier of k*chunksize+chunksize-1 and the last index |
| Catalog.PartitionEnds | bin/main.py:298-321 | the first chunk starts at the first position and the last ends at the last position |
| Catalog.PartitionTags | bin/main.py:306-321 | every chunk of a chromosome is tagged with that chromosome |
| Catalog.ShortChromosomeOneChunk | bin/main.py:298-309 | with no more positions than `chunksize` there is one chunk, first to last position |
| Catalog.RestIsWindows | bin/main.py:309-321 | what the loop emits from a lower index on (a window ending `chunksize - 1` later or at the last position, then the rest) is the specified windows read back as positions |
| Catalog.Partition | bin/main.py:294-321 | the chunks of one chromosome; its properties are the Partition lemmas below |
| Catalog.PartitionChromosome | bin/main.py:294-321 | for `chunksize >= 1`, the while loop over the lower and upper indices appends exactly the specified chunks |
| Catalog.PartitionBackwards | bin/main.py:294-321 | for a negative `chunksize` and a non-empty position list, the loop's upper index runs below `-len(snps)`, so the loop raises IndexError |
| Catalog.SnpPositions | bin/main.py:272-276 | the positions are field 3 of each tab-split line; a line with fewer fields fails |
| Catalog.ChromosomeChunks | bin/main.py:265-321 | one chromosome's chunks, or the exception the script raises: missing file, short line, zero `chunksize` (ZeroDivisionError at line 287), empty file, negative `chunksize`; partner lemma ChromosomeChunksTagged |
| Catalog.PerChromosome | bin/main.py:265-276 | one result per chromosome, in `chr_list` order |
| Catalog.FlattenErrorPersists | bin/main.py:265-321 | once a chromosome fails, the chunk list fails with that error |
| Catalog.FlattenSlice | bin/main.py:263-321 | a successful chromosome's chunks sit, in order, right after those of the earlier chromosomes |
| Catalog.ChunkList | bin/main.py:263-321 | `chunk_list`; partner lemmas ChunkListSlice and ChunkListTags |
| Catalog.ChromosomeChunksTagged | bin/main.py:265-321 | the chunks read for one chromosome are all tagged with it |
| Catalog.ChunkListSlice | bin/main.py:263-321 | `chunk_list` is the concatenation of the chromosomes' chunks in `chr_list` order |
| Catalog.ChunkListTags | bin/main.py:263-321 | the entries for chromosome j of `chr_list` are tagged with it |
| Catalog.BuildChunkList | bin/main.py:263-321 | for every `chunksize`, the for loop over `chr_list` builds exactly the specified chunk list, or stops with the first failure (including ZeroDivisionError for 0 and IndexError for a negative value) |
| Driver.ChromosomeList | bin/main.py:152-157 | `chr_list`; its shape is stated by ChromosomeListShape |
| Driver.ChromosomeListShape | bin/main.py:152-157 | a configured list is the value without spaces, cut at commas (names joined by commas give it back, no name holds a space or comma); otherwise 1 to 22 |
| Driver.BaseList | bin/main.py:164-168 | a base name followed by each chromosome's text; partner lemma CountCheckNeverFires |
| Driver.CountCheckNeverFires | bin/main.py:164-174 | the base lists follow `chr_list` one to one, so the count check never stops the driver, and entry i of the gen and imp lists names the same chromosome |
| Driver.JobId | bin/main.py:214 | the job id has no trailing whitespace and is no longer than the output |
| Driver.JobIdOfSubmission | bin/main.py:214 | the id, `.pbs` and trailing whitespace parse back to the id when the id has no dot |
| Driver.BlankOutputEmptyId | bin/main.py:214 | submission output made only of whitespace, including the empty output, yields an empty id |
| Driver.AwaitJob | bin/main.py:217-230 | the poll ends exactly at the first listing without the id, having slept `pause` per earlier poll; an empty id never ends it |
| Driver.LinesTextIsJoin | bin/main.py:243-245 | a file of lines is the lines joined by newlines with an empty last field |
| Driver.MergeListReadsBack | bin/main.py:243-245 | the merge list read line by line gives back the coreset paths in order |
| Driver.CoresetEntries | bin/main.py:239-245 | the coreset path of each gen base in `plink_tempdir`; read back by MergeListReadsBack, written by CoresetListFile |
| Driver.CoresetListFile | bin/main.py:239-247 | the file holds one coreset path per gen base, in order |
| Driver.MergeFile | bin/main.py:393-394 | the statistics path of one chunk; proved equal to the bolt task's file by Pipeline.BoltTaskWritesEntry |
| Driver.BoltTempfileList | bin/main.py:384-396 | one statistics path per chunk, in `chunk_list` order, named from chromosome and interval |
| Driver.ArraySpecBound | bin/main.py:198 | the array spec `1-N` gives back N |
| Driver.PlinkDir | bin/main.py:131 | the plink directory is `outdir/plink`, used for the coreset prefix |
| Driver.Drive | bin/main.py:152-396 | for every `chunksize`, each stage starts only after the previous job left a listing; the merge list, chunk list and statistics list are the specified ones |
| WorkerTask.ArrayIndex | bin/run-bolt.py:117-122 | the task number from debug mode or `PBS_ARRAY_INDEX`; partner lemmas ArrayIndexFromScheduler and ArrayIndexErrors |
| WorkerTask.Select | bin/run-plink.py:111 | Python list indexing at `index - 1`; partner lemma SelectRange |
| WorkerTask.SelectRange | bin/run-plink.py:105-111 | indices 1..N select entries in order, 0 and down to 1-N wrap to the end, others raise |
| WorkerTask.ArrayIndexFromScheduler | bin/run-bolt.py:117-122 | the worker reads back the task number the scheduler sets |
| WorkerTask.ArrayIndexErrors | bin/run-bolt.py:117-122 | without `PBS_ARRAY_INDEX`, or with non-integer text, the worker stops |
| CommandLine.WordsAfter | bin/run-plink.py:164 | a word followed by space-led tokens is the space-join of all of them |
| CommandLine.PrefixedAreWords | bin/run-bolt.py:179 | `''.join([' --opt=' + x for x in xs])` is the tokens `--opt=x`, each led by a space |
| CommandLine.WordsReadBack | bin/run-bolt.py:208-230 | tokenised at single spaces, such a command gives back its tokens in order |
| CommandLine.SplitWordsHead | bin/run-bolt.py:208-230 | tokenised at single spaces, a command followed by more text still starts with its word and its tokens |
| CommandLine.OptionValueAfter | bin/run-bolt.py:215-223 | the value of an option is read from the first token carrying its prefix |
| BoltWorker.DebugRunsSixthChunk | bin/run-bolt.py:117-131 | debug mode runs chunk 6, or raises when there are fewer |
| BoltWorker.TaskRunsItsChunk | bin/run-bolt.py:117-131 | array task t runs chunk t |
| BoltWorker.StatsFilesShareStem | bin/run-bolt.py:163-167 | both statistics files are the chunk's stem plus their suffix, and differ |
| BoltWorker.BgenRange | bin/run-bolt.py:142 | the bgenix range `chr:lo-hi` with the chromosome zero-filled to two characters; partner lemma BgenRangePadding |
| BoltWorker.BgenRangePadding | bin/run-bolt.py:142 | chromosomes 1-9 and one-character labels gain a leading zero; 10 and above are unchanged |
| BoltWorker.PhenoColumn | bin/run-bolt.py:170 | the phenotype column; partner lemma PhenoColumnIsFirstName |
| BoltWorker.PhenoColumnIsFirstName | bin/run-bolt.py:170 | the phenotype column is the setting up to its first comma |
| BoltWorker.ParseCovariates | bin/run-bolt.py:174-184 | on success both covariate lists are non-empty |
| BoltWorker.CovariatesNeedSemicolon | bin/run-bolt.py:184 | the covariate setting is accepted exactly when it holds a `;` |
| BoltWorker.CovariatesRoundTrip | bin/run-bolt.py:174-184 | `c1,..;q1,..` is read back as those two lists |
| BoltWorker.ColumnFlagsEmptyIff | bin/run-bolt.py:177-191 | each column option string is empty exactly when its first name is empty |
| BoltWorker.CovarFileFlagAsWritten | bin/run-bolt.py:193-197 | the `--covarFile` option as the script builds it, testing the categorical list twice; used by OptionalFlags |
| BoltWorker.CovarFileAsWrittenFollowsCategorical | bin/run-bolt.py:177-197 | as written, `--covarFile` is given exactly when a categorical column is |
| BoltWorker.CovarFileFlag | bin/run-bolt.py:193-197 | the corrected `--covarFile` option, given when either covariate list is set |
| BoltWorker.CovarFileWithColumns | bin/run-bolt.py:193-197 | with the corrected condition, `--covarFile` is given exactly when a covariate column is |
| BoltWorker.CovarFileConditionsDisagree | bin/run-bolt.py:193 | the condition as written and the corrected one differ exactly when only quantitative covariates are set |
| BoltWorker.QuantitativeOnlyLosesCovarFile | bin/run-bolt.py:193 | for `;age` the command gets `--qCovarCol=age` but no `--covarFile` |
| BoltWorker.RemoveFlag | bin/run-bolt.py:199-204 | ` --remove=<file>` when a remove list is configured, else nothing; partner lemma OptionStringsAreWords |
| BoltWorker.BaseCommand | bin/run-bolt.py:208-225 | the fixed part of the bolt command; partner lemma BaseCommandWords |
| BoltWorker.BaseCommandWords | bin/run-bolt.py:208-225 | the fixed part is `bolt` followed by its option tokens, in the script's order, including the empty tokens the doubled spaces give |
| BoltWorker.BaseTokensLeadOptions | bin/run-bolt.py:208-225 | in the fixed part, `--bgenFile=` and `--statsFileBgenSnps=` first occur at the tokens carrying the bgen file and the statistics file |
| BoltWorker.OptionalFlags | bin/run-bolt.py:226-229 | the optional part as the script builds it; partner lemmas OptionalFlagsAreWords and OptionalFlagsOrder |
| BoltWorker.OptionalFlagsIntended | bin/run-bolt.py:226-229 | the optional part with the corrected `--covarFile` condition |
| BoltWorker.IntendedAddsCovarFile | bin/run-bolt.py:193-229 | the corrected optional part is the one the script builds, plus `--covarFile` exactly when only quantitative covariates are set |
| BoltWorker.BoltCommand | bin/run-bolt.py:184-230 | the bolt command, or the IndexError of a covariate setting without `;`; partner lemma BoltCommandFiles |
| BoltWorker.BoltCommandBuilt | bin/run-bolt.py:184-230 | the bolt command is built exactly when the covariate setting holds `;` |
| BoltWorker.BoltCommandFiles | bin/run-bolt.py:208-230 | with space-free settings, the command is built, and tokenised at single spaces it names the bgen file and the statistics file the task was given |
| BoltWorker.OptionStringsAreWords | bin/run-bolt.py:177-204 | each optional option string, as the script builds it, is its tokens, each led by a space |
| BoltWorker.OptionalFlagsAreWords | bin/run-bolt.py:226-229 | the optional part, as the script builds it, is the covariate file, column and remove tokens, in that order |
| BoltWorker.OptionalFlagsOrder | bin/run-bolt.py:226-229 | tokenised at single spaces, the optional part as the script builds it gives the covariate file, the categorical columns, the quantitative columns and the samples to remove, in order |
| BoltWorker.BoltTask | bin/run-bolt.py:117-236 | one bolt array task: chunk selection, the bgenix cut and index commands, then the bolt command; partner lemmas BoltTaskRunsChunk and BoltTaskFiles |
| BoltWorker.BoltTaskOfChunk | bin/run-bolt.py:131-236 | a task that selected a chunk cuts and indexes it, then runs the bolt command for the cut when it can be built, and otherwise stops with its exception |
| BoltWorker.BoltTaskRunsChunk | bin/run-bolt.py:131-236 | task t cuts chunk t's range, indexes the cut file, and runs the bolt command for that file and chunk t's statistics files; it raises exactly when the covariate setting lacks `;` |
| BoltWorker.BoltTaskFiles | bin/run-bolt.py:131-236 | with space-free settings and paths, task t's bolt command reads the cut file of chunk t and writes chunk t's `.model_1.bolt` file |
| BoltWorker.BoltTaskOutOfRange | bin/run-bolt.py:131 | a task numbered past the chunk list runs nothing and raises IndexError |
| PlinkWorker.DebugTakesLastGenBase | bin/run-plink.py:100-111 | debug mode takes the last gen base through index -1 |
| PlinkWorker.TaskTakesItsGenBase | bin/run-plink.py:100-111 | array task t takes gen base t |
| PlinkWorker.StagingPaths | bin/run-plink.py:122-137 | the per-gen-base temporary directory and staged file names; partner lemma StagedFilesMatchPrefix |
| PlinkWorker.StagedFilesMatchPrefix | bin/run-plink.py:122-137 | the staged `.bim`, `.bed` and `.fam` are the plink input prefix plus their extension |
| PlinkWorker.RewriteKeepsColumns | bin/run-plink.py:147 | the rewritten record has six tab-separated columns: 1, the id `$1_$4_$5_$6_1`, 3, 4, 5 and 6 |
| PlinkWorker.PlinkCommand | bin/run-plink.py:164 | the plink command, or the TypeError of a non-text `thr-hwe`; partner lemmas PlinkCommandWords and PlinkCommandOrder |
| PlinkWorker.PlinkCommandWords | bin/run-plink.py:164 | the plink command is `plink` followed by its option tokens |
| PlinkWorker.PlinkCommandOrder | bin/run-plink.py:164 | the command is built exactly when `thr-hwe` is text; its tokens are `--bfile`, `--keep`, `--maf`, `--geno`, `--hwe`, `--make-bed`, `--out`, in order |
| PlinkWorker.PlinkTask | bin/run-plink.py:100-170 | one plink array task: gen base selection, staging commands, then the plink command; partner lemma PlinkTaskRunsGenBase |
| PlinkWorker.PlinkTaskRunsGenBase | bin/run-plink.py:111-170 | task t stages gen base t (the awk rewrite of its `.bim`, the `.bed` link, the `.fam` copy, in order), and runs plink without an exception exactly when `thr-hwe` is text |
| PlinkWorker.PlinkTaskOutOfRange | bin/run-plink.py:100-111 | a task numbered beyond the gen list stops with IndexError before staging anything |
| PlinkWorker.PlinkCommandOutput | bin/run-plink.py:164 | with space-free values, the plink command closes with `--out` and the output prefix it was given |
| Pipeline.PlinkTaskWritesEntry | bin/run-plink.py:135-164 | the `--out` value read back from plink task t's command is the coreset path the driver lists for gen base t when `thr-hwe` is text; with a numeric `thr-hwe` there is none |
| Pipeline.PlinkStagingSpaceFree | bin/run-plink.py:122-137 | the plink input prefix and output path hold no space when the directories and gen base hold none |
| Pipeline.PlinkTasksOfChromosomes | bin/main.py:164-168 | task t of the gen list the driver built takes chromosome t and, when `thr-hwe` is text, writes coreset t |
| Pipeline.PlinkTasksBeyondList | bin/run-plink.py:100-111 | plink tasks numbered beyond the gen list write no coreset |
| Pipeline.PlinkTasksFillMergeList | bin/main.py:198 | the plink array `1-N` covers the gen list: task t writes line t of the merge list when `thr-hwe` is text and none otherwise, later tasks write nothing |
| Pipeline.BoltTaskWritesEntry | bin/run-bolt.py:166-230 | the `--statsFileBgenSnps=` file read back from bolt task t's command is the driver's merge entry for chunk t, or there is none when the covariate setting lacks `;` |
| Pipeline.BoltTasksFillMergeList | bin/run-bolt.py:166-230 | the bolt array covers the chunk list: task t's command writes the statistics file the driver merges for chunk t, when the covariate setting holds `;` |
| Pipeline.BoltTasksReadTheirChromosome | bin/run-bolt.py:137 | the tasks of chromosome j's chunks all cut that chromosome's bgen file |

## Left out

- External processes are parameters.
  - Submission output and status listings are input strings.
  - Commands the scripts run with `os.system` or `subprocess` are returned as strings.
  - `time.sleep` is counted in seconds, not performed.
  - Calls left out this way: `qsub`, `qstat`, plink, bgenix, bolt, awk, ln and cp.
- Configuration loading, argument parsing, the change to `PBS_O_WORKDIR`, directory creation,
  version and host lookups, and every `print` are left out. Configuration values are parameters.
- The pandas concatenation of the statistics files into `model_1.bolt.txt` (bin/main.py:400-404)
  is a library call.
- The JSON catalog files are left out. The driver writes `chr-list`, `gen-list`, `imp-list` and
  `chunk-list` under uuid-named files and passes `--json-file`. The workers expect `--data-file`
  and read keys the driver does not write (`tempdir`, `plink-tempdir`, `coreset-path`).
  `Pipeline` assumes each worker is given the driver's lists and directories.
- Driver.AwaitJob: the `while True` poll runs over the finite sequence of listings given. Running
  out of listings is reported as still queued.
- Catalog.PartitionChromosome: the loop is proved for `chunksize >= 1`, the only values for
  which the partition completes. `ChromosomeChunks` and `BuildChunkList` answer 0 with
  ZeroDivisionError. A negative value ends in IndexError, as `PartitionBackwards` shows: when
  `chunksize - 1 < -len(snps)` already at bin/main.py:301, otherwise inside the loop entered at
  :309, at :317.
- Driver.ChromosomeList: a configured `chr-list` is modelled as text. A YAML value that is not
  text (a number or a list) raises AttributeError at bin/main.py:154, which is not modelled.
- Driver.AwaitJob: the status listings are modelled as decoded text. `decode('ascii')` at
  bin/main.py:220 and :366 raises UnicodeDecodeError on a non-ASCII listing, which is not modelled.
- BoltWorker.BoltTaskFiles, BoltWorker.BoltCommandFiles and Pipeline.BoltTasksFillMergeList read
  the command back by single-space tokenisation, so they require paths and settings without spaces.
- Pipeline.PlinkTaskWritesEntry and Pipeline.PlinkTasksFillMergeList read the `--out` value back
  from the plink command the same way, so they require directories, base names, chromosome names,
  the phenotype file and the three thresholds without spaces.
- Catalog.ChromosomeChunks: a variant file is looked up by path in a map. A missing path is an
  error, the counterpart of the failed `open`.
- Driver.BoltTempfileList: the debug `print('chr: ' + chr)` at bin/main.py:390 raises TypeError
  for the default integer chromosomes. The model builds the list as if the print succeeded.
- The `sys.exit` message at bin/main.py:175 concatenates integers to a string. It is unreachable,
  since the count check never fires.
- The stale `qstat.find` debug line at bin/main.py:370 only prints, and is left out.
- PyStr.ParseInt: `int()` is modelled for ASCII digits with an optional sign and surrounding
  whitespace. Underscores and non-ASCII digits are left out.
- WorkerTask.Str: `str()` of a number is carried as given (`Numeral`). Float formatting is not
  modelled.
- BoltWorker.RemoveFlag: `remove-samples-list` is modelled as optional text. A truthy value that
  is not text (a number or a list) raises TypeError at bin/run-bolt.py:201, which is not modelled.
- The phenotype and covariate settings are modelled as text. A non-string YAML value there would
  raise AttributeError, which is not modelled.
- `bin/initialise-pipeline.py`, `bin/run-annotation.py` and `lib/bolt.py` are not part of this model.

## Findings

| source | as written | input that shows it | evidently intended | confidence | as-written member | corrected member |
|---|---|---|---|---|---|---|
| bin/run-bolt.py:193 | `if((ccovar[0] != '') or (ccovar[0] != ''))` tests the categorical list twice and never the quantitative list | `cov-1: ";age"`: bolt gets `--qCovarCol=age` but no `--covarFile`, so it cannot find the covariate | `--covarFile` whenever either list is non-empty, as in the R template at bin/run-bolt.py:288 | not executed | BoltWorker.CovarFileFlagAsWritten (used by BoltWorker.OptionalFlags and BoltWorker.BoltCommand; shown by BoltWorker.QuantitativeOnlyLosesCovarFile) | BoltWorker.CovarFileFlag (proved by BoltWorker.CovarFileWithColumns; used by BoltWorker.OptionalFlagsIntended, related to the command by BoltWorker.IntendedAddsCovarFile) |
