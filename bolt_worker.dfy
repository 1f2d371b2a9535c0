/** The association worker (bin/run-bolt.py): one array task per chunk. It picks its chunk
    from the chunk list, cuts the chunk's variants out of the chromosome's bgen file with
    `bgenix`, indexes the cut, and runs `bolt` on it with the phenotype, covariate and
    sample-removal options of the configuration. */
module BoltWorker {
  import opened Results
  import opened PyStr
  import PyPath
  import opened WorkerTask
  import opened CommandLine
  import opened Catalog

  // ---------------------------------------------------------------------------
  // The chunk of this task

  /** In debug mode the worker acts as array task 6. */
  const DebugArrayIndex: int := 6

  /** `chunk-list[int(index) - 1]`. */
  function TaskChunk(chunkList: seq<Chunk>, debugMode: bool, env: Option<string>): Result<Chunk, WorkerError>
  {
    match ArrayIndex(debugMode, DebugArrayIndex, env)
    case Err(e) => Err(e)
    case Ok(i) => Select(chunkList, i)
  }

  /** Debug mode runs the sixth chunk, whatever the environment says, and stops when the
      list is shorter. */
  lemma DebugRunsSixthChunk(chunkList: seq<Chunk>, env: Option<string>)
    ensures TaskChunk(chunkList, true, env)
            == if |chunkList| > 5 then Ok(chunkList[5]) else Err(IndexOutOfRange(5))
  {
    SelectRange(chunkList, DebugArrayIndex);
  }

  /** Array task `t` of `1-|chunkList|` runs chunk `t`. */
  lemma TaskRunsItsChunk(chunkList: seq<Chunk>, t: nat)
    requires 1 <= t <= |chunkList|
    ensures TaskChunk(chunkList, false, Some(NatToString(t))) == Ok(chunkList[t - 1])
  {
    ArrayIndexFromScheduler(DebugArrayIndex, t);
    SelectRange(chunkList, t);
  }

  // ---------------------------------------------------------------------------
  // File names and the bgen range

  /** `imp_base + str(chr) + '_' + lower + '-' + upper`: the name every per-chunk file starts with. */
  function ChunkStem(impBase: string, c: Chunk): string
  {
    impBase + ChromText(c.chr) + "_" + c.lower + "-" + c.upper
  }

  function BgenTempdir(tempdir: string): string
  {
    PyPath.Join(tempdir, "temp-bgen")
  }

  /** The chromosome's imputed genotypes. */
  function BgenFile(dataDir: string, impBase: string, c: Chunk): string
  {
    PyPath.Join(dataDir, impBase + ChromText(c.chr) + ".bgen")
  }

  /** The chunk's cut of them. */
  function BgenTempfile(tempdir: string, impBase: string, c: Chunk): string
  {
    PyPath.Join(BgenTempdir(tempdir), ChunkStem(impBase, c) + ".bgen")
  }

  /** Statistics for the model SNPs. */
  function StatsFile(boltTempdir: string, impBase: string, c: Chunk): string
  {
    PyPath.Join(boltTempdir, ChunkStem(impBase, c) + ".model_1.coresnps")
  }

  /** Statistics for the chunk's imputed SNPs, the file the driver merges. */
  function StatsFileBgenSnps(boltTempdir: string, impBase: string, c: Chunk): string
  {
    PyPath.Join(boltTempdir, ChunkStem(impBase, c) + ".model_1.bolt")
  }

  /** Both statistics files are the chunk's stem in the bolt temp directory with their own
      suffix, so they never collide. */
  lemma StatsFilesShareStem(boltTempdir: string, impBase: string, c: Chunk)
    ensures var stem := PyPath.Join(boltTempdir, ChunkStem(impBase, c));
            && StatsFile(boltTempdir, impBase, c) == stem + ".model_1.coresnps"
            && StatsFileBgenSnps(boltTempdir, impBase, c) == stem + ".model_1.bolt"
    ensures StatsFile(boltTempdir, impBase, c) != StatsFileBgenSnps(boltTempdir, impBase, c)
  {
    PyPath.JoinExtends(boltTempdir, ChunkStem(impBase, c), ".model_1.coresnps");
    PyPath.JoinExtends(boltTempdir, ChunkStem(impBase, c), ".model_1.bolt");
  }

  /** `str(chr).zfill(2) + ':' + lower + '-' + upper`: the bgen files name chromosomes
      with at least two characters. */
  function BgenRange(c: Chunk): string
  {
    ZFill(ChromText(c.chr), 2) + ":" + c.lower + "-" + c.upper
  }

  /** Chromosomes 1-9 gain a leading zero, 10 and above are unchanged; a one-character
      label such as `X` becomes `0X`. */
  lemma BgenRangePadding(c: Chunk)
    ensures c.chr.Number? && c.chr.n < 10 ==>
              BgenRange(c) == "0" + [DigitChar(c.chr.n)] + ":" + c.lower + "-" + c.upper
    ensures c.chr.Number? && c.chr.n >= 10 ==>
              BgenRange(c) == NatToString(c.chr.n) + ":" + c.lower + "-" + c.upper
    ensures c.chr.Label? && |c.chr.name| == 1 && c.chr.name[0] != '+' && c.chr.name[0] != '-' ==>
              BgenRange(c) == "0" + c.chr.name + ":" + c.lower + "-" + c.upper
  {
    if c.chr.Number? && c.chr.n >= 10 {
      assert |NatToString(c.chr.n)| >= 2 by {
        assert NatToString(c.chr.n) == NatToString(c.chr.n / 10) + [DigitChar(c.chr.n % 10)];
      }
    }
  }

  /** `bgenix` cutting the chunk's range out of the chromosome file. */
  function BgenCommand(bgenFile: string, bgenRange: string, bgenTempfile: string): string
  {
    "bgenix -g " + bgenFile + " -incl-range " + bgenRange + " > " + bgenTempfile
  }

  /** `bgenix` indexing the cut. */
  function IndexCommand(bgenTempfile: string): string
  {
    "bgenix -g " + bgenTempfile + " -index"
  }

  // ---------------------------------------------------------------------------
  // Phenotype and covariates

  /** `pheno_1.split(',')[0]`: the first phenotype named. */
  function PhenoColumn(pheno1: string): string
  {
    Split(pheno1, ',')[0]
  }

  /** The column is the setting up to its first comma: a prefix without a comma, followed
      by a comma or the end; a setting without commas is used whole. */
  lemma PhenoColumnIsFirstName(pheno1: string)
    ensures PhenoColumn(pheno1) <= pheno1 && ',' !in PhenoColumn(pheno1)
    ensures |PhenoColumn(pheno1)| < |pheno1| ==> pheno1[|PhenoColumn(pheno1)|] == ','
    ensures ',' !in pheno1 ==> PhenoColumn(pheno1) == pheno1
  {
    SplitFirstField(pheno1, ',');
  }

  /** The covariate setting `categorical;quantitative`, each side a comma list. */
  datatype Covariates = Covariates(categorical: seq<string>, quantitative: seq<string>)

  /** `cov_1.split(';')[0].split(',')` and `cov_1.split(';')[1].split(',')`; without a `;`
      the second raises IndexError. Text after a second `;` is ignored. */
  function ParseCovariates(cov: string): (r: Result<Covariates, WorkerError>)
    ensures r.Ok? ==> |r.value.categorical| >= 1 && |r.value.quantitative| >= 1
  {
    var groups := Split(cov, ';');
    var ccovar := Split(groups[0], ',');
    if |groups| < 2 then Err(MissingQuantitativeGroup(cov))
    else Ok(Covariates(ccovar, Split(groups[1], ',')))
  }

  /** The setting is accepted exactly when it holds a `;`. */
  lemma CovariatesNeedSemicolon(cov: string)
    ensures ParseCovariates(cov).Ok? <==> ';' in cov
  {
    SplitHasSecondField(cov, ';');
  }

  /** A setting written as `c1,c2,...;q1,q2,...` is read back as those two lists. */
  lemma CovariatesRoundTrip(categorical: seq<string>, quantitative: seq<string>)
    requires |categorical| >= 1 && |quantitative| >= 1
    requires forall i :: 0 <= i < |categorical| ==> ';' !in categorical[i] && ',' !in categorical[i]
    requires forall i :: 0 <= i < |quantitative| ==> ';' !in quantitative[i] && ',' !in quantitative[i]
    ensures ParseCovariates(Join(categorical, ',') + ";" + Join(quantitative, ','))
            == Ok(Covariates(categorical, quantitative))
  {
    var a := Join(categorical, ',');
    var b := Join(quantitative, ',');
    JoinAvoids(categorical, ',', ';');
    JoinAvoids(quantitative, ',', ';');
    assert Join([a, b], ';') == a + ";" + b by {
      assert [a, b][1..] == [b];
    }
    SplitJoin([a, b], ';');
    SplitJoin(categorical, ',');
    SplitJoin(quantitative, ',');
  }

  /** `' --covarCol=' + x` for each categorical covariate, unless the first is empty. */
  function CovarColFlags(ccovar: seq<string>): string
    requires |ccovar| >= 1
  {
    if ccovar[0] != "" then Prefixed(" --covarCol=", ccovar) else ""
  }

  /** `' --qCovarCol=' + x` for each quantitative covariate, unless the first is empty. */
  function QCovarColFlags(qcovar: seq<string>): string
    requires |qcovar| >= 1
  {
    if qcovar[0] != "" then Prefixed(" --qCovarCol=", qcovar) else ""
  }

  /** A non-empty list gives a non-empty option string. */
  lemma PrefixedNonEmpty(prefix: string, xs: seq<string>)
    requires |prefix| > 0 && |xs| >= 1
    ensures Prefixed(prefix, xs) != ""
  {
    var parts := seq(|xs|, i requires 0 <= i < |xs| => prefix + xs[i]);
    assert Concat(parts) == parts[0] + Concat(parts[1..]);
    assert |parts[0]| > 0;
  }

  /** Each column option string is empty exactly when its list starts with an empty name. */
  lemma ColumnFlagsEmptyIff(ccovar: seq<string>, qcovar: seq<string>)
    requires |ccovar| >= 1 && |qcovar| >= 1
    ensures CovarColFlags(ccovar) == "" <==> ccovar[0] == ""
    ensures QCovarColFlags(qcovar) == "" <==> qcovar[0] == ""
  {
    PrefixedNonEmpty(" --covarCol=", ccovar);
    PrefixedNonEmpty(" --qCovarCol=", qcovar);
  }

  /** `--covarFile` as the source decides it: the condition tests the categorical list twice
      and never the quantitative one. This is the string the command is built with. */
  function CovarFileFlagAsWritten(ccovar: seq<string>, qcovar: seq<string>, phenoFile: string): string
    requires |ccovar| >= 1 && |qcovar| >= 1
  {
    if ccovar[0] != "" || ccovar[0] != "" then " --covarFile=" + phenoFile else ""
  }

  /** `--covarFile` when there is any covariate, categorical or quantitative: the condition
      the source evidently intends. */
  function CovarFileFlag(ccovar: seq<string>, qcovar: seq<string>, phenoFile: string): string
    requires |ccovar| >= 1 && |qcovar| >= 1
  {
    if ccovar[0] != "" || qcovar[0] != "" then " --covarFile=" + phenoFile else ""
  }

  /** As written, bolt is told where the covariates are exactly when it is asked for a
      categorical column; quantitative columns play no part. */
  lemma CovarFileAsWrittenFollowsCategorical(ccovar: seq<string>, qcovar: seq<string>, phenoFile: string)
    requires |ccovar| >= 1 && |qcovar| >= 1
    ensures CovarFileFlagAsWritten(ccovar, qcovar, phenoFile) != "" <==> CovarColFlags(ccovar) != ""
  {
    ColumnFlagsEmptyIff(ccovar, qcovar);
  }

  /** With the corrected condition, bolt is told where the covariates are exactly when it is
      asked for a covariate column. */
  lemma CovarFileWithColumns(ccovar: seq<string>, qcovar: seq<string>, phenoFile: string)
    requires |ccovar| >= 1 && |qcovar| >= 1
    ensures CovarFileFlag(ccovar, qcovar, phenoFile) != ""
            <==> CovarColFlags(ccovar) != "" || QCovarColFlags(qcovar) != ""
  {
    ColumnFlagsEmptyIff(ccovar, qcovar);
  }

  /** The two conditions disagree exactly when there are quantitative covariates only. */
  lemma CovarFileConditionsDisagree(ccovar: seq<string>, qcovar: seq<string>, phenoFile: string)
    requires |ccovar| >= 1 && |qcovar| >= 1
    ensures CovarFileFlagAsWritten(ccovar, qcovar, phenoFile) != CovarFileFlag(ccovar, qcovar, phenoFile)
            <==> ccovar[0] == "" && qcovar[0] != ""
  {
  }

  /** The setting `;age`: as written, bolt gets `--qCovarCol=age` but no `--covarFile`. */
  lemma QuantitativeOnlyLosesCovarFile(phenoFile: string)
    ensures ParseCovariates(";age") == Ok(Covariates([""], ["age"]))
    ensures CovarFileFlagAsWritten([""], ["age"], phenoFile) == ""
    ensures QCovarColFlags(["age"]) == " --qCovarCol=age"
    ensures CovarFileFlag([""], ["age"], phenoFile) == " --covarFile=" + phenoFile
    ensures OptionalFlags(Covariates([""], ["age"]), phenoFile, None) == " --qCovarCol=age"
  {
    assert Split(";age", ';') == ["", "age"] by {
      assert ";age"[1..] == "age";
      SplitFirstField("age", ';');
    }
    assert Split("", ',') == [""];
    SplitFirstField("age", ',');
    var parts := seq(1, i requires 0 <= i < 1 => " --qCovarCol=" + ["age"][i]);
    assert |parts| == 1 && parts[0] == " --qCovarCol=" + "age";
    assert " --qCovarCol=" + "age" == " --qCovarCol=age";
    assert Concat(parts) == parts[0] + Concat(parts[1..]);
    assert Concat(parts[1..]) == "";
    assert "" + "" + " --qCovarCol=age" + "" == " --qCovarCol=age";
  }

  /** `' --remove=' + list` when the setting is a non-empty string (Python truthiness). */
  function RemoveFlag(removeSamplesList: Option<string>): string
  {
    if removeSamplesList.Some? && removeSamplesList.value != "" then " --remove=" + removeSamplesList.value else ""
  }

  // ---------------------------------------------------------------------------
  // The bolt command

  datatype BoltSettings = BoltSettings(
    sampleFile: string, phenoFile: string, dataDir: string, impBase: string,
    pheno1: string, cov1: string, ncpus: Scalar, ldscoreFile: string,
    minMaf: Scalar, minInfo: Scalar, removeSamplesList: Option<string>)

  /** The options every run gets, in order, up to the two statistics files. */
  function BaseCommand(s: BoltSettings, coresetPath: string, bgenTempfile: string,
                       statsFile: string, statsFileBgenSnps: string): string
  {
    "bolt " +
    " --bfile=" + coresetPath +
    " --noBgenIDcheck" +
    " --bgenFile=" + bgenTempfile +
    " --sampleFile=" + s.sampleFile +
    " --phenoFile=" + s.phenoFile +
    " --phenoCol=" + PhenoColumn(s.pheno1) +
    " --lmm" +
    " --covarMaxLevels=50 " +
    " --h2gGuess=0.15 " +
    " --numThreads=" + Str(s.ncpus) +
    " --LDscoresFile=" + s.ldscoreFile +
    " --LDscoresMatchBp" +
    " --verboseStats" +
    " --bgenMinMAF=" + Str(s.minMaf) +
    " --bgenMinINFO=" + Str(s.minInfo) +
    " --statsFile=" + statsFile +
    " --statsFileBgenSnps=" + statsFileBgenSnps
  }

  /** The optional options, appended in the order covariate file, categorical columns,
      quantitative columns, samples to remove; the covariate file follows the condition
      as written. */
  function OptionalFlags(cov: Covariates, phenoFile: string, removeSamplesList: Option<string>): string
    requires |cov.categorical| >= 1 && |cov.quantitative| >= 1
  {
    CovarFileFlagAsWritten(cov.categorical, cov.quantitative, phenoFile) +
    CovarColFlags(cov.categorical) +
    QCovarColFlags(cov.quantitative) +
    RemoveFlag(removeSamplesList)
  }

  /** The optional options with the intended covariate-file condition. */
  function OptionalFlagsIntended(cov: Covariates, phenoFile: string, removeSamplesList: Option<string>): string
    requires |cov.categorical| >= 1 && |cov.quantitative| >= 1
  {
    CovarFileFlag(cov.categorical, cov.quantitative, phenoFile) +
    CovarColFlags(cov.categorical) +
    QCovarColFlags(cov.quantitative) +
    RemoveFlag(removeSamplesList)
  }

  /** Both forms of the optional options are their covariate-file option followed by the
      same column and remove options. */
  lemma OptionalFlagsLead(cov: Covariates, phenoFile: string, removeSamplesList: Option<string>)
    requires |cov.categorical| >= 1 && |cov.quantitative| >= 1
    ensures var tail := CovarColFlags(cov.categorical) + QCovarColFlags(cov.quantitative) +
                        RemoveFlag(removeSamplesList);
            && OptionalFlags(cov, phenoFile, removeSamplesList)
               == CovarFileFlagAsWritten(cov.categorical, cov.quantitative, phenoFile) + tail
            && OptionalFlagsIntended(cov, phenoFile, removeSamplesList)
               == CovarFileFlag(cov.categorical, cov.quantitative, phenoFile) + tail
  {
  }

  /** The intended options are those the program builds, led by `--covarFile` in the one
      case the program leaves it out: quantitative covariates only. */
  lemma IntendedAddsCovarFile(cov: Covariates, phenoFile: string, removeSamplesList: Option<string>)
    requires |cov.categorical| >= 1 && |cov.quantitative| >= 1
    ensures OptionalFlagsIntended(cov, phenoFile, removeSamplesList)
            == (if cov.categorical[0] == "" && cov.quantitative[0] != "" then " --covarFile=" + phenoFile else "")
               + OptionalFlags(cov, phenoFile, removeSamplesList)
  {
    var c, q := cov.categorical, cov.quantitative;
    var tail := CovarColFlags(c) + QCovarColFlags(q) + RemoveFlag(removeSamplesList);
    OptionalFlagsLead(cov, phenoFile, removeSamplesList);
    if c[0] == "" && q[0] != "" {
      assert CovarFileFlagAsWritten(c, q, phenoFile) == "";
      assert "" + tail == tail;
    } else {
      assert CovarFileFlag(c, q, phenoFile) == CovarFileFlagAsWritten(c, q, phenoFile);
      assert "" + OptionalFlags(cov, phenoFile, removeSamplesList) == OptionalFlags(cov, phenoFile, removeSamplesList);
    }
  }

  /** The command, or the IndexError of a covariate setting without `;`. */
  function BoltCommand(s: BoltSettings, coresetPath: string, bgenTempfile: string,
                       statsFile: string, statsFileBgenSnps: string): Result<string, WorkerError>
  {
    match ParseCovariates(s.cov1)
    case Err(e) => Err(e)
    case Ok(cov) => Ok(BaseCommand(s, coresetPath, bgenTempfile, statsFile, statsFileBgenSnps) +
                       OptionalFlags(cov, s.phenoFile, s.removeSamplesList))
  }

  // ---------------------------------------------------------------------------
  // The command as tokens

  /** The tokens of the options every run gets, up to `--lmm`; the empty token is the
      second space after `bolt`. */
  function BaseHeadTokens(coresetPath: string, bgenTempfile: string, sampleFile: string,
                          phenoFile: string, phenoCol: string): seq<string>
  {
    ["", "--bfile=" + coresetPath, "--noBgenIDcheck", "--bgenFile=" + bgenTempfile,
     "--sampleFile=" + sampleFile, "--phenoFile=" + phenoFile, "--phenoCol=" + phenoCol, "--lmm"]
  }

  /** The tokens from `--covarMaxLevels` to `--bgenMinINFO`; each empty token is the
      trailing space of a padded option. */
  function BaseMidTokens(ncpus: string, ldscoreFile: string, minMaf: string, minInfo: string): seq<string>
  {
    ["--covarMaxLevels=50", "", "--h2gGuess=0.15", "", "--numThreads=" + ncpus,
     "--LDscoresFile=" + ldscoreFile, "--LDscoresMatchBp", "--verboseStats",
     "--bgenMinMAF=" + minMaf, "--bgenMinINFO=" + minInfo]
  }

  function BaseTokens(s: BoltSettings, coresetPath: string, bgenTempfile: string,
                      statsFile: string, statsFileBgenSnps: string): seq<string>
  {
    BaseHeadTokens(coresetPath, bgenTempfile, s.sampleFile, s.phenoFile, PhenoColumn(s.pheno1)) +
    BaseMidTokens(Str(s.ncpus), s.ldscoreFile, Str(s.minMaf), Str(s.minInfo)) +
    ["--statsFile=" + statsFile, "--statsFileBgenSnps=" + statsFileBgenSnps]
  }

  lemma BaseHeadWords(coresetPath: string, bgenTempfile: string, sampleFile: string,
                      phenoFile: string, phenoCol: string)
    ensures "bolt" + Words(BaseHeadTokens(coresetPath, bgenTempfile, sampleFile, phenoFile, phenoCol))
            == "bolt " + " --bfile=" + coresetPath + " --noBgenIDcheck" + " --bgenFile=" + bgenTempfile +
               " --sampleFile=" + sampleFile + " --phenoFile=" + phenoFile + " --phenoCol=" + phenoCol + " --lmm"
  {
    var t0: seq<string> := [""];
    var t1 := t0 + ["--bfile=" + coresetPath];
    var t2 := t1 + ["--noBgenIDcheck"];
    var t3 := t2 + ["--bgenFile=" + bgenTempfile];
    var t4 := t3 + ["--sampleFile=" + sampleFile];
    var t5 := t4 + ["--phenoFile=" + phenoFile];
    var t6 := t5 + ["--phenoCol=" + phenoCol];
    var t7 := t6 + ["--lmm"];
    var x0, x1, x2, x3 := "bolt" + Words(t0), "bolt" + Words(t1), "bolt" + Words(t2), "bolt" + Words(t3);
    var x4, x5, x6, x7 := "bolt" + Words(t4), "bolt" + Words(t5), "bolt" + Words(t6), "bolt" + Words(t7);
    HeadFileLits();
    HeadPhenoLits();
    assert x0 == "bolt " by { WordsOfOne(""); }
    assert x1 == x0 + " --bfile=" + coresetPath by { WordsSnocOption("bolt", t0, "--bfile=", coresetPath, " --bfile="); }
    assert x2 == x1 + " --noBgenIDcheck" by { WordsSnocFlag("bolt", t1, "--noBgenIDcheck", " --noBgenIDcheck"); }
    assert x3 == x2 + " --bgenFile=" + bgenTempfile by {
      WordsSnocOption("bolt", t2, "--bgenFile=", bgenTempfile, " --bgenFile=");
    }
    assert x4 == x3 + " --sampleFile=" + sampleFile by {
      WordsSnocOption("bolt", t3, "--sampleFile=", sampleFile, " --sampleFile=");
    }
    assert x5 == x4 + " --phenoFile=" + phenoFile by {
      WordsSnocOption("bolt", t4, "--phenoFile=", phenoFile, " --phenoFile=");
    }
    assert x6 == x5 + " --phenoCol=" + phenoCol by {
      WordsSnocOption("bolt", t5, "--phenoCol=", phenoCol, " --phenoCol=");
    }
    assert x7 == x6 + " --lmm" by { WordsSnocFlag("bolt", t6, "--lmm", " --lmm"); }
    assert t7 == BaseHeadTokens(coresetPath, bgenTempfile, sampleFile, phenoFile, phenoCol);
  }

  lemma HeadFileLits()
    ensures " --bfile=" == " " + "--bfile="
    ensures " --noBgenIDcheck" == " " + "--noBgenIDcheck"
    ensures " --bgenFile=" == " " + "--bgenFile="
    ensures " --sampleFile=" == " " + "--sampleFile="
  {
  }

  lemma HeadPhenoLits()
    ensures " --phenoFile=" == " " + "--phenoFile="
    ensures " --phenoCol=" == " " + "--phenoCol="
    ensures " --lmm" == " " + "--lmm"
  {
  }

  lemma BaseMidWords(x: string, ncpus: string, ldscoreFile: string, minMaf: string, minInfo: string)
    ensures x + Words(BaseMidTokens(ncpus, ldscoreFile, minMaf, minInfo))
            == x + " --covarMaxLevels=50 " + " --h2gGuess=0.15 " + " --numThreads=" + ncpus +
               " --LDscoresFile=" + ldscoreFile + " --LDscoresMatchBp" + " --verboseStats" +
               " --bgenMinMAF=" + minMaf + " --bgenMinINFO=" + minInfo
  {
    var a := ["--covarMaxLevels=50", "", "--h2gGuess=0.15", "", "--numThreads=" + ncpus];
    var b := ["--LDscoresFile=" + ldscoreFile, "--LDscoresMatchBp", "--verboseStats",
              "--bgenMinMAF=" + minMaf, "--bgenMinINFO=" + minInfo];
    assert BaseMidTokens(ncpus, ldscoreFile, minMaf, minInfo) == a + b;
    WordsConcat(x, a, b);
    var xa := x + Words(a);
    assert xa == x + " --covarMaxLevels=50 " + " --h2gGuess=0.15 " + " --numThreads=" + ncpus by {
      ThreadWords(x, ncpus);
    }
    FilterWords(xa, ldscoreFile, minMaf, minInfo);
  }

  lemma ThreadWords(x: string, ncpus: string)
    ensures x + Words(["--covarMaxLevels=50", "", "--h2gGuess=0.15", "", "--numThreads=" + ncpus])
            == x + " --covarMaxLevels=50 " + " --h2gGuess=0.15 " + " --numThreads=" + ncpus
  {
    var t0: seq<string> := [];
    var t1 := t0 + ["--covarMaxLevels=50", ""];
    var t2 := t1 + ["--h2gGuess=0.15", ""];
    var t3 := t2 + ["--numThreads=" + ncpus];
    ThreadLits();
    var x0, x1, x2, x3 := x + Words(t0), x + Words(t1), x + Words(t2), x + Words(t3);
    assert x0 == x by { assert x + "" == x; }
    assert x1 == x0 + " --covarMaxLevels=50 " by {
      WordsSnocPadded(x, t0, "--covarMaxLevels=50", " --covarMaxLevels=50 ");
    }
    assert x2 == x1 + " --h2gGuess=0.15 " by { WordsSnocPadded(x, t1, "--h2gGuess=0.15", " --h2gGuess=0.15 "); }
    assert x3 == x2 + " --numThreads=" + ncpus by { WordsSnocOption(x, t2, "--numThreads=", ncpus, " --numThreads="); }
    assert t3 == ["--covarMaxLevels=50", "", "--h2gGuess=0.15", "", "--numThreads=" + ncpus];
  }

  lemma ThreadLits()
    ensures " --covarMaxLevels=50 " == " " + "--covarMaxLevels=50" + " "
    ensures " --h2gGuess=0.15 " == " " + "--h2gGuess=0.15" + " "
    ensures " --numThreads=" == " " + "--numThreads="
  {
  }

  lemma FilterWords(x: string, ldscoreFile: string, minMaf: string, minInfo: string)
    ensures x + Words(["--LDscoresFile=" + ldscoreFile, "--LDscoresMatchBp", "--verboseStats",
                       "--bgenMinMAF=" + minMaf, "--bgenMinINFO=" + minInfo])
            == x + " --LDscoresFile=" + ldscoreFile + " --LDscoresMatchBp" + " --verboseStats" +
               " --bgenMinMAF=" + minMaf + " --bgenMinINFO=" + minInfo
  {
    var a := ["--LDscoresFile=" + ldscoreFile, "--LDscoresMatchBp", "--verboseStats"];
    var b := ["--bgenMinMAF=" + minMaf, "--bgenMinINFO=" + minInfo];
    assert a + b == ["--LDscoresFile=" + ldscoreFile, "--LDscoresMatchBp", "--verboseStats",
                     "--bgenMinMAF=" + minMaf, "--bgenMinINFO=" + minInfo];
    WordsConcat(x, a, b);
    var xa := x + Words(a);
    assert xa == x + " --LDscoresFile=" + ldscoreFile + " --LDscoresMatchBp" + " --verboseStats" by {
      LDscoreWords(x, ldscoreFile);
    }
    MinorFilterWords(xa, minMaf, minInfo);
  }

  lemma LDscoreWords(x: string, ldscoreFile: string)
    ensures x + Words(["--LDscoresFile=" + ldscoreFile, "--LDscoresMatchBp", "--verboseStats"])
            == x + " --LDscoresFile=" + ldscoreFile + " --LDscoresMatchBp" + " --verboseStats"
  {
    LDLits();
    var t0: seq<string> := [];
    var t1 := t0 + ["--LDscoresFile=" + ldscoreFile];
    var t2 := t1 + ["--LDscoresMatchBp"];
    assert x + Words(t0) == x by { assert x + "" == x; }
    WordsSnocOption(x, t0, "--LDscoresFile=", ldscoreFile, " --LDscoresFile=");
    WordsSnocFlag(x, t1, "--LDscoresMatchBp", " --LDscoresMatchBp");
    WordsSnocFlag(x, t2, "--verboseStats", " --verboseStats");
    assert t2 + ["--verboseStats"] == ["--LDscoresFile=" + ldscoreFile, "--LDscoresMatchBp", "--verboseStats"];
  }

  lemma LDLits()
    ensures " --LDscoresFile=" == " " + "--LDscoresFile="
    ensures " --LDscoresMatchBp" == " " + "--LDscoresMatchBp"
    ensures " --verboseStats" == " " + "--verboseStats"
  {
  }

  lemma MinorFilterWords(x: string, minMaf: string, minInfo: string)
    ensures x + Words(["--bgenMinMAF=" + minMaf, "--bgenMinINFO=" + minInfo])
            == x + " --bgenMinMAF=" + minMaf + " --bgenMinINFO=" + minInfo
  {
    var t0: seq<string> := [];
    var t1 := t0 + ["--bgenMinMAF=" + minMaf];
    TailLits();
    assert x + Words(t0) == x by { assert x + "" == x; }
    WordsSnocOption(x, t0, "--bgenMinMAF=", minMaf, " --bgenMinMAF=");
    WordsSnocOption(x, t1, "--bgenMinINFO=", minInfo, " --bgenMinINFO=");
    assert t1 + ["--bgenMinINFO=" + minInfo] == ["--bgenMinMAF=" + minMaf, "--bgenMinINFO=" + minInfo];
  }

  lemma TailLits()
    ensures " --bgenMinMAF=" == " " + "--bgenMinMAF="
    ensures " --bgenMinINFO=" == " " + "--bgenMinINFO="
    ensures " --statsFile=" == " " + "--statsFile="
    ensures " --statsFileBgenSnps=" == " " + "--statsFileBgenSnps="
  {
  }

  lemma BaseTailWords(x: string, statsFile: string, statsFileBgenSnps: string)
    ensures x + Words(["--statsFile=" + statsFile, "--statsFileBgenSnps=" + statsFileBgenSnps])
            == x + " --statsFile=" + statsFile + " --statsFileBgenSnps=" + statsFileBgenSnps
  {
    var t0: seq<string> := [];
    var t1 := t0 + ["--statsFile=" + statsFile];
    var t2 := t1 + ["--statsFileBgenSnps=" + statsFileBgenSnps];
    TailLits();
    assert x + Words(t0) == x by { assert x + "" == x; }
    WordsSnocOption(x, t0, "--statsFile=", statsFile, " --statsFile=");
    WordsSnocOption(x, t1, "--statsFileBgenSnps=", statsFileBgenSnps, " --statsFileBgenSnps=");
    assert t2 == ["--statsFile=" + statsFile, "--statsFileBgenSnps=" + statsFileBgenSnps];
  }

  /** The fixed part of the command is `bolt` followed by its tokens, each led by a space. */
  lemma BaseCommandWords(s: BoltSettings, coresetPath: string, bgenTempfile: string,
                         statsFile: string, statsFileBgenSnps: string)
    ensures BaseCommand(s, coresetPath, bgenTempfile, statsFile, statsFileBgenSnps)
            == "bolt" + Words(BaseTokens(s, coresetPath, bgenTempfile, statsFile, statsFileBgenSnps))
  {
    var h := BaseHeadTokens(coresetPath, bgenTempfile, s.sampleFile, s.phenoFile, PhenoColumn(s.pheno1));
    var m := BaseMidTokens(Str(s.ncpus), s.ldscoreFile, Str(s.minMaf), Str(s.minInfo));
    var t := ["--statsFile=" + statsFile, "--statsFileBgenSnps=" + statsFileBgenSnps];
    var xh := "bolt" + Words(h);
    var xm := xh + Words(m);
    assert BaseTokens(s, coresetPath, bgenTempfile, statsFile, statsFileBgenSnps) == h + m + t;
    assert "bolt" + Words(h + m + t) == "bolt" + Words(h + m) + Words(t) by { WordsConcat("bolt", h + m, t); }
    assert "bolt" + Words(h + m) == xm by { WordsConcat("bolt", h, m); }
    assert xh == "bolt " + " --bfile=" + coresetPath + " --noBgenIDcheck" + " --bgenFile=" + bgenTempfile +
                 " --sampleFile=" + s.sampleFile + " --phenoFile=" + s.phenoFile + " --phenoCol=" +
                 PhenoColumn(s.pheno1) + " --lmm" by {
      BaseHeadWords(coresetPath, bgenTempfile, s.sampleFile, s.phenoFile, PhenoColumn(s.pheno1));
    }
    assert xm == xh + " --covarMaxLevels=50 " + " --h2gGuess=0.15 " + " --numThreads=" + Str(s.ncpus) +
                 " --LDscoresFile=" + s.ldscoreFile + " --LDscoresMatchBp" + " --verboseStats" +
                 " --bgenMinMAF=" + Str(s.minMaf) + " --bgenMinINFO=" + Str(s.minInfo) by {
      BaseMidWords(xh, Str(s.ncpus), s.ldscoreFile, Str(s.minMaf), Str(s.minInfo));
    }
    BaseTailWords(xm, statsFile, statsFileBgenSnps);
  }

  /** The tokens each optional option string amounts to; the covariate file follows the
      condition as written. */
  function CovarFileTokens(ccovar: seq<string>, qcovar: seq<string>, phenoFile: string): seq<string>
    requires |ccovar| >= 1 && |qcovar| >= 1
  {
    if ccovar[0] != "" || ccovar[0] != "" then ["--covarFile=" + phenoFile] else []
  }

  function CovarColTokens(ccovar: seq<string>): seq<string>
    requires |ccovar| >= 1
  {
    if ccovar[0] != "" then Tagged("--covarCol=", ccovar) else []
  }

  function QCovarColTokens(qcovar: seq<string>): seq<string>
    requires |qcovar| >= 1
  {
    if qcovar[0] != "" then Tagged("--qCovarCol=", qcovar) else []
  }

  function RemoveTokens(removeSamplesList: Option<string>): seq<string>
  {
    if removeSamplesList.Some? && removeSamplesList.value != "" then ["--remove=" + removeSamplesList.value] else []
  }

  function OptionalTokens(cov: Covariates, phenoFile: string, removeSamplesList: Option<string>): seq<string>
    requires |cov.categorical| >= 1 && |cov.quantitative| >= 1
  {
    CovarFileTokens(cov.categorical, cov.quantitative, phenoFile) +
    CovarColTokens(cov.categorical) +
    QCovarColTokens(cov.quantitative) +
    RemoveTokens(removeSamplesList)
  }

  lemma CovarFileIsWords(ccovar: seq<string>, qcovar: seq<string>, phenoFile: string)
    requires |ccovar| >= 1 && |qcovar| >= 1
    ensures Words(CovarFileTokens(ccovar, qcovar, phenoFile)) == CovarFileFlagAsWritten(ccovar, qcovar, phenoFile)
  {
    WordsOfOne("--covarFile=" + phenoFile);
  }

  lemma RemoveIsWords(removeSamplesList: Option<string>)
    ensures Words(RemoveTokens(removeSamplesList)) == RemoveFlag(removeSamplesList)
  {
    if removeSamplesList.Some? {
      WordsOfOne("--remove=" + removeSamplesList.value);
    }
  }

  lemma CovarColIsWords(ccovar: seq<string>)
    requires |ccovar| >= 1
    ensures Words(CovarColTokens(ccovar)) == CovarColFlags(ccovar)
  {
    assert " " + "--covarCol=" == " --covarCol=";
    PrefixedAreWords("--covarCol=", ccovar);
  }

  lemma QCovarColIsWords(qcovar: seq<string>)
    requires |qcovar| >= 1
    ensures Words(QCovarColTokens(qcovar)) == QCovarColFlags(qcovar)
  {
    assert " " + "--qCovarCol=" == " --qCovarCol=";
    PrefixedAreWords("--qCovarCol=", qcovar);
  }

  /** Each optional option string is its tokens, each led by a space. */
  lemma OptionStringsAreWords(ccovar: seq<string>, qcovar: seq<string>, phenoFile: string,
                              removeSamplesList: Option<string>)
    requires |ccovar| >= 1 && |qcovar| >= 1
    ensures Words(CovarFileTokens(ccovar, qcovar, phenoFile)) == CovarFileFlagAsWritten(ccovar, qcovar, phenoFile)
    ensures Words(CovarColTokens(ccovar)) == CovarColFlags(ccovar)
    ensures Words(QCovarColTokens(qcovar)) == QCovarColFlags(qcovar)
    ensures Words(RemoveTokens(removeSamplesList)) == RemoveFlag(removeSamplesList)
  {
    CovarFileIsWords(ccovar, qcovar, phenoFile);
    CovarColIsWords(ccovar);
    QCovarColIsWords(qcovar);
    RemoveIsWords(removeSamplesList);
  }

  /** The optional part is its tokens, each led by a space. */
  lemma OptionalFlagsAreWords(cov: Covariates, phenoFile: string, removeSamplesList: Option<string>)
    requires |cov.categorical| >= 1 && |cov.quantitative| >= 1
    ensures OptionalFlags(cov, phenoFile, removeSamplesList) == Words(OptionalTokens(cov, phenoFile, removeSamplesList))
  {
    var t1 := CovarFileTokens(cov.categorical, cov.quantitative, phenoFile);
    var t2 := CovarColTokens(cov.categorical);
    var t3 := QCovarColTokens(cov.quantitative);
    var t4 := RemoveTokens(removeSamplesList);
    OptionStringsAreWords(cov.categorical, cov.quantitative, phenoFile, removeSamplesList);
    WordsAppend(t1, t2);
    WordsAppend(t1 + t2, t3);
    WordsAppend(t1 + t2 + t3, t4);
  }

  /** Tokenised at single spaces, the optional part gives the covariate file (when there
      are categorical covariates), then one `--covarCol` per categorical covariate, one
      `--qCovarCol` per quantitative covariate and the samples to remove, in that order,
      when no name holds a space. */
  lemma OptionalFlagsOrder(cov: Covariates, phenoFile: string, removeSamplesList: Option<string>)
    requires |cov.categorical| >= 1 && |cov.quantitative| >= 1
    requires ' ' !in phenoFile
    requires removeSamplesList.Some? ==> ' ' !in removeSamplesList.value
    requires SpaceFree(cov.categorical) && SpaceFree(cov.quantitative)
    ensures Split(OptionalFlags(cov, phenoFile, removeSamplesList), ' ')
            == [""] + OptionalTokens(cov, phenoFile, removeSamplesList)
  {
    var c := cov.categorical;
    var q := cov.quantitative;
    TaggedSpaceFree("--covarCol=", c);
    TaggedSpaceFree("--qCovarCol=", q);
    var all := OptionalTokens(cov, phenoFile, removeSamplesList);
    assert SpaceFree(all);
    OptionalFlagsAreWords(cov, phenoFile, removeSamplesList);
    WordsReadBack("", all);
    assert "" + Words(all) == Words(all);
  }

  /** No option given before `--bgenFile=` starts with it, and none given before
      `--statsFileBgenSnps=` starts with that. */
  lemma BaseTokensLeadOptions(s: BoltSettings, coresetPath: string, bgenTempfile: string,
                              statsFile: string, statsFileBgenSnps: string)
    ensures var ts := ["bolt"] + BaseTokens(s, coresetPath, bgenTempfile, statsFile, statsFileBgenSnps);
            && |ts| == 21
            && ts[4] == "--bgenFile=" + bgenTempfile
            && ts[20] == "--statsFileBgenSnps=" + statsFileBgenSnps
            && (forall i :: 0 <= i < 4 ==> !("--bgenFile=" <= ts[i]))
            && (forall i :: 0 <= i < 20 ==> !("--statsFileBgenSnps=" <= ts[i]))
  {
    var ts := ["bolt"] + BaseTokens(s, coresetPath, bgenTempfile, statsFile, statsFileBgenSnps);
    var bgen, stats := "--bgenFile=", "--statsFileBgenSnps=";
    forall i | 0 <= i < 4 ensures !(bgen <= ts[i]) {
      if i == 0 { NotOption(ts[i], bgen, 0); }
      else if i == 2 { NotOption(ts[i], bgen, 3); }
      else if i == 3 { NotOption(ts[i], bgen, 2); }
    }
    forall i | 0 <= i < 20 ensures !(stats <= ts[i]) {
      if i == 0 { NotOption(ts[i], stats, 0); }
      else if i == 5 { NotOption(ts[i], stats, 3); }
      else if i == 19 { NotOption(ts[i], stats, 11); }
      else if i != 1 && i != 10 && i != 12 { NotOption(ts[i], stats, 2); }
    }
  }

  lemma BaseTokensSpaceFree(s: BoltSettings, coresetPath: string, bgenTempfile: string,
                            statsFile: string, statsFileBgenSnps: string)
    requires ' ' !in coresetPath && ' ' !in bgenTempfile && ' ' !in s.sampleFile && ' ' !in s.phenoFile
    requires ' ' !in PhenoColumn(s.pheno1) && ' ' !in Str(s.ncpus) && ' ' !in s.ldscoreFile
    requires ' ' !in Str(s.minMaf) && ' ' !in Str(s.minInfo) && ' ' !in statsFile && ' ' !in statsFileBgenSnps
    ensures SpaceFree(BaseTokens(s, coresetPath, bgenTempfile, statsFile, statsFileBgenSnps))
  {
    var h := BaseHeadTokens(coresetPath, bgenTempfile, s.sampleFile, s.phenoFile, PhenoColumn(s.pheno1));
    var m := BaseMidTokens(Str(s.ncpus), s.ldscoreFile, Str(s.minMaf), Str(s.minInfo));
    var t := ["--statsFile=" + statsFile, "--statsFileBgenSnps=" + statsFileBgenSnps];
    assert SpaceFree(h) by {
      forall i | 0 <= i < |h| ensures ' ' !in h[i] { }
    }
    assert SpaceFree(m) by {
      forall i | 0 <= i < |m| ensures ' ' !in m[i] { }
    }
    assert SpaceFree(t) by {
      forall i | 0 <= i < |t| ensures ' ' !in t[i] { }
    }
    SpaceFreeAppend(h, m);
    SpaceFreeAppend(h + m, t);
  }

  /** Tokenised at single spaces, the command names the cut of the bgen file as the
      genotypes bolt reads and `statsFileBgenSnps` as the file it writes, whatever the
      optional options hold, when none of the values of the fixed options holds a space. */
  lemma BoltCommandFiles(s: BoltSettings, coresetPath: string, bgenTempfile: string,
                         statsFile: string, statsFileBgenSnps: string)
    requires ';' in s.cov1
    requires SpaceFree([coresetPath, bgenTempfile, s.sampleFile, s.phenoFile, s.pheno1, Str(s.ncpus),
                        s.ldscoreFile, Str(s.minMaf), Str(s.minInfo), statsFile, statsFileBgenSnps])
    ensures BoltCommand(s, coresetPath, bgenTempfile, statsFile, statsFileBgenSnps).Ok?
    ensures var ts := Split(BoltCommand(s, coresetPath, bgenTempfile, statsFile, statsFileBgenSnps).value, ' ');
            && OptionValue(ts, "--bgenFile=") == Some(bgenTempfile)
            && OptionValue(ts, "--statsFileBgenSnps=") == Some(statsFileBgenSnps)
  {
    CovariatesNeedSemicolon(s.cov1);
    var cov := ParseCovariates(s.cov1).value;
    var base := BaseTokens(s, coresetPath, bgenTempfile, statsFile, statsFileBgenSnps);
    var opt := OptionalTokens(cov, s.phenoFile, s.removeSamplesList);
    BaseCommandWords(s, coresetPath, bgenTempfile, statsFile, statsFileBgenSnps);
    OptionalFlagsAreWords(cov, s.phenoFile, s.removeSamplesList);
    assert BoltCommand(s, coresetPath, bgenTempfile, statsFile, statsFileBgenSnps).value
           == "bolt" + Words(base) + Words(opt);
    BaseTokensGivenSpaceFree(s, coresetPath, bgenTempfile, statsFile, statsFileBgenSnps);
    BaseTokensLeadOptions(s, coresetPath, bgenTempfile, statsFile, statsFileBgenSnps);
    assert Words(opt) == [] || Words(opt)[0] == ' ';
    ReadBackFiles(base, Words(opt), bgenTempfile, statsFileBgenSnps);
  }

  /** The fixed tokens hold no space when none of the values given to them does. */
  lemma BaseTokensGivenSpaceFree(s: BoltSettings, coresetPath: string, bgenTempfile: string,
                                 statsFile: string, statsFileBgenSnps: string)
    requires SpaceFree([coresetPath, bgenTempfile, s.sampleFile, s.phenoFile, s.pheno1, Str(s.ncpus),
                        s.ldscoreFile, Str(s.minMaf), Str(s.minInfo), statsFile, statsFileBgenSnps])
    ensures SpaceFree(BaseTokens(s, coresetPath, bgenTempfile, statsFile, statsFileBgenSnps))
  {
    var given := [coresetPath, bgenTempfile, s.sampleFile, s.phenoFile, s.pheno1, Str(s.ncpus),
                  s.ldscoreFile, Str(s.minMaf), Str(s.minInfo), statsFile, statsFileBgenSnps];
    assert ' ' !in given[0] && ' ' !in given[1] && ' ' !in given[2] && ' ' !in given[3];
    assert ' ' !in given[4] && ' ' !in given[5] && ' ' !in given[6] && ' ' !in given[7];
    assert ' ' !in given[8] && ' ' !in given[9] && ' ' !in given[10];
    PhenoColumnIsFirstName(s.pheno1);
    assert ' ' !in PhenoColumn(s.pheno1) by {
      var pc := PhenoColumn(s.pheno1);
      forall i | 0 <= i < |pc| ensures pc[i] != ' ' {
        assert pc[i] == s.pheno1[i];
      }
    }
    BaseTokensSpaceFree(s, coresetPath, bgenTempfile, statsFile, statsFileBgenSnps);
  }

  /** Reading the two files back from `bolt` and the fixed tokens, followed by options that
      start with a space. */
  lemma ReadBackFiles(base: seq<string>, rest: string, bgenTempfile: string, statsFileBgenSnps: string)
    requires SpaceFree(base) && (rest == [] || rest[0] == ' ')
    requires var lead := ["bolt"] + base;
             && |lead| == 21
             && lead[4] == "--bgenFile=" + bgenTempfile
             && lead[20] == "--statsFileBgenSnps=" + statsFileBgenSnps
             && (forall i :: 0 <= i < 4 ==> !("--bgenFile=" <= lead[i]))
             && (forall i :: 0 <= i < 20 ==> !("--statsFileBgenSnps=" <= lead[i]))
    ensures var ts := Split("bolt" + Words(base) + rest, ' ');
            && OptionValue(ts, "--bgenFile=") == Some(bgenTempfile)
            && OptionValue(ts, "--statsFileBgenSnps=") == Some(statsFileBgenSnps)
  {
    SplitWordsHead("bolt", base, rest);
    var ts := Split("bolt" + Words(base) + rest, ' ');
    var lead := ["bolt"] + base;
    assert ts[..|lead|] == lead;
    assert ts == lead[..4] + [lead[4]] + ts[5..];
    OptionValueAfter(lead[..4], "--bgenFile=", bgenTempfile, ts[5..]);
    assert ts == lead[..20] + [lead[20]] + ts[21..];
    OptionValueAfter(lead[..20], "--statsFileBgenSnps=", statsFileBgenSnps, ts[21..]);
  }

  // ---------------------------------------------------------------------------
  // The task

  datatype BoltCatalog = BoltCatalog(tempdir: string, boltTempdir: string, coresetPath: string, chunkList: seq<Chunk>)

  /** What a task does: the shell commands it runs, in order, and the exception it stops
      with, if any. */
  datatype TaskRun = TaskRun(commands: seq<string>, failure: Option<WorkerError>)

  /** The task: pick the chunk, cut and index its bgen range, then build and run the bolt
      command, whose covariate parsing can still raise after the cut was made. */
  function BoltTask(s: BoltSettings, cat: BoltCatalog, debugMode: bool, env: Option<string>): TaskRun
  {
    match TaskChunk(cat.chunkList, debugMode, env)
    case Err(e) => TaskRun([], Some(e))
    case Ok(c) =>
      var bgenTempfile := BgenTempfile(cat.tempdir, s.impBase, c);
      var cut := BgenCommand(BgenFile(s.dataDir, s.impBase, c), BgenRange(c), bgenTempfile);
      var index := IndexCommand(bgenTempfile);
      match BoltCommand(s, cat.coresetPath, bgenTempfile,
                        StatsFile(cat.boltTempdir, s.impBase, c), StatsFileBgenSnps(cat.boltTempdir, s.impBase, c))
      case Err(e) => TaskRun([cut, index], Some(e))
      case Ok(cmd) => TaskRun([cut, index, cmd], None)
  }

  /** Task `t` cuts chunk `t` into its bgen temp file and indexes it; it runs bolt on that
      cut, and ends without an exception, exactly when the covariate setting holds a `;`. */
  lemma BoltTaskRunsChunk(s: BoltSettings, cat: BoltCatalog, t: nat)
    requires 1 <= t <= |cat.chunkList|
    ensures var run := BoltTask(s, cat, false, Some(NatToString(t)));
            var c := cat.chunkList[t - 1];
            var cut := BgenTempfile(cat.tempdir, s.impBase, c);
            && |run.commands| >= 2
            && run.commands[0] == BgenCommand(BgenFile(s.dataDir, s.impBase, c), BgenRange(c), cut)
            && run.commands[1] == IndexCommand(cut)
            && (run.failure.None? <==> ';' in s.cov1)
            && (run.failure.None? <==> |run.commands| == 3)
            && (run.failure.None? ==>
                  run.commands[2] == BoltCommand(s, cat.coresetPath, cut, StatsFile(cat.boltTempdir, s.impBase, c),
                                                 StatsFileBgenSnps(cat.boltTempdir, s.impBase, c)).value)
  {
    var c := cat.chunkList[t - 1];
    TaskRunsItsChunk(cat.chunkList, t);
    BoltTaskOfChunk(s, cat, false, Some(NatToString(t)), c);
    BoltCommandBuilt(s, cat.coresetPath, BgenTempfile(cat.tempdir, s.impBase, c),
                     StatsFile(cat.boltTempdir, s.impBase, c), StatsFileBgenSnps(cat.boltTempdir, s.impBase, c));
  }

  /** A task that selected chunk `c` cuts and indexes it, then runs the bolt command for the
      cut when that command can be built, and otherwise stops with its exception. */
  lemma BoltTaskOfChunk(s: BoltSettings, cat: BoltCatalog, debugMode: bool, env: Option<string>, c: Chunk)
    requires TaskChunk(cat.chunkList, debugMode, env) == Ok(c)
    ensures var run := BoltTask(s, cat, debugMode, env);
            var cut := BgenTempfile(cat.tempdir, s.impBase, c);
            var bolt := BoltCommand(s, cat.coresetPath, cut, StatsFile(cat.boltTempdir, s.impBase, c),
                                    StatsFileBgenSnps(cat.boltTempdir, s.impBase, c));
            && |run.commands| >= 2
            && run.commands[0] == BgenCommand(BgenFile(s.dataDir, s.impBase, c), BgenRange(c), cut)
            && run.commands[1] == IndexCommand(cut)
            && (run.failure.None? <==> bolt.Ok?)
            && (run.failure.None? <==> |run.commands| == 3)
            && (bolt.Ok? ==> run.commands[2] == bolt.value)
  {
  }

  /** The bolt command is built exactly when the covariate setting holds a `;`. */
  lemma BoltCommandBuilt(s: BoltSettings, coresetPath: string, bgenTempfile: string,
                         statsFile: string, statsFileBgenSnps: string)
    ensures BoltCommand(s, coresetPath, bgenTempfile, statsFile, statsFileBgenSnps).Ok? <==> ';' in s.cov1
  {
    CovariatesNeedSemicolon(s.cov1);
  }

  /** The values the task's files are built from hold no space. */
  predicate PlainSettings(s: BoltSettings)
  {
    SpaceFree([s.sampleFile, s.phenoFile, s.impBase, s.pheno1, Str(s.ncpus), s.ldscoreFile,
               Str(s.minMaf), Str(s.minInfo)])
  }

  predicate PlainChunk(c: Chunk)
  {
    SpaceFree([ChromText(c.chr), c.lower, c.upper])
  }

  /** Tokenised at single spaces, the bolt command of task `t` reads the file the task's
      cut wrote and writes the chunk's statistics to `StatsFileBgenSnps`, when no value the
      file names are built from holds a space. */
  lemma BoltTaskFiles(s: BoltSettings, cat: BoltCatalog, t: nat)
    requires 1 <= t <= |cat.chunkList| && ';' in s.cov1
    requires PlainSettings(s) && PlainChunk(cat.chunkList[t - 1])
    requires SpaceFree([cat.tempdir, cat.boltTempdir, cat.coresetPath])
    ensures var run := BoltTask(s, cat, false, Some(NatToString(t)));
            var c := cat.chunkList[t - 1];
            && |run.commands| == 3
            && OptionValue(Split(run.commands[2], ' '), "--bgenFile=") == Some(BgenTempfile(cat.tempdir, s.impBase, c))
            && OptionValue(Split(run.commands[2], ' '), "--statsFileBgenSnps=")
               == Some(StatsFileBgenSnps(cat.boltTempdir, s.impBase, c))
  {
    var c := cat.chunkList[t - 1];
    var cut := BgenTempfile(cat.tempdir, s.impBase, c);
    var stats := StatsFile(cat.boltTempdir, s.impBase, c);
    var merged := StatsFileBgenSnps(cat.boltTempdir, s.impBase, c);
    var given := [cat.coresetPath, cut, s.sampleFile, s.phenoFile, s.pheno1, Str(s.ncpus),
                  s.ldscoreFile, Str(s.minMaf), Str(s.minInfo), stats, merged];
    assert SpaceFree(given) by {
      var settings := [s.sampleFile, s.phenoFile, s.impBase, s.pheno1, Str(s.ncpus), s.ldscoreFile,
                       Str(s.minMaf), Str(s.minInfo)];
      assert ' ' !in settings[0] && ' ' !in settings[1] && ' ' !in settings[2] && ' ' !in settings[3];
      assert ' ' !in settings[4] && ' ' !in settings[5] && ' ' !in settings[6] && ' ' !in settings[7];
      var dirs := [cat.tempdir, cat.boltTempdir, cat.coresetPath];
      assert ' ' !in dirs[0] && ' ' !in dirs[1] && ' ' !in dirs[2];
      TaskPathsSpaceFree(s.impBase, cat.tempdir, cat.boltTempdir, c);
    }
    assert BoltTask(s, cat, false, Some(NatToString(t))).commands[2]
           == BoltCommand(s, cat.coresetPath, cut, stats, merged).value by {
      BoltTaskRunsChunk(s, cat, t);
    }
    BoltCommandFiles(s, cat.coresetPath, cut, stats, merged);
  }

  /** The task's file names hold no space when the directories, the base name and the
      chunk hold none. */
  lemma TaskPathsSpaceFree(impBase: string, tempdir: string, boltTempdir: string, c: Chunk)
    requires ' ' !in impBase && ' ' !in tempdir && ' ' !in boltTempdir && PlainChunk(c)
    ensures ' ' !in BgenTempfile(tempdir, impBase, c)
    ensures ' ' !in StatsFile(boltTempdir, impBase, c)
    ensures ' ' !in StatsFileBgenSnps(boltTempdir, impBase, c)
  {
    var parts := [ChromText(c.chr), c.lower, c.upper];
    assert ' ' !in parts[0] && ' ' !in parts[1] && ' ' !in parts[2];
    var stem := ChunkStem(impBase, c);
    assert ' ' !in stem;
    PyPath.JoinAvoids(tempdir, "temp-bgen", ' ');
    PyPath.JoinAvoids(BgenTempdir(tempdir), stem + ".bgen", ' ');
    PyPath.JoinAvoids(boltTempdir, stem + ".model_1.coresnps", ' ');
    PyPath.JoinAvoids(boltTempdir, stem + ".model_1.bolt", ' ');
  }

  /** A task numbered past the end of the chunk list runs nothing. */
  lemma BoltTaskOutOfRange(s: BoltSettings, cat: BoltCatalog, t: nat)
    requires t > |cat.chunkList|
    ensures BoltTask(s, cat, false, Some(NatToString(t))) == TaskRun([], Some(IndexOutOfRange(t - 1)))
  {
    ArrayIndexFromScheduler(DebugArrayIndex, t);
    SelectRange(cat.chunkList, t);
  }
}
