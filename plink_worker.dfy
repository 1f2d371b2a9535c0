/** The model-SNP worker (bin/run-plink.py): one array task per chromosome. It picks its gen
    base from the gen list, stages the chromosome's plink files in a directory of its own,
    with a rewritten variant column in the `.bim`, and runs plink's quality filters, writing
    the chromosome's coreset. */
module PlinkWorker {
  import opened Results
  import opened PyStr
  import PyPath
  import opened WorkerTask
  import opened CommandLine

  // ---------------------------------------------------------------------------
  // The gen base of this task

  /** In debug mode the worker acts as array task 0, that is list index -1. */
  const DebugArrayIndex: int := 0

  /** `gen-list[int(index) - 1]`. */
  function TaskGenBase(genList: seq<string>, debugMode: bool, env: Option<string>): Result<string, WorkerError>
  {
    match ArrayIndex(debugMode, DebugArrayIndex, env)
    case Err(e) => Err(e)
    case Ok(i) => Select(genList, i)
  }

  /** Debug mode takes the last gen base, through Python's negative indexing. */
  lemma DebugTakesLastGenBase(genList: seq<string>, env: Option<string>)
    ensures TaskGenBase(genList, true, env)
            == if |genList| >= 1 then Ok(genList[|genList| - 1]) else Err(IndexOutOfRange(-1))
  {
    SelectRange(genList, DebugArrayIndex);
  }

  /** Array task `t` of `1-|genList|` takes gen base `t`. */
  lemma TaskTakesItsGenBase(genList: seq<string>, t: nat)
    requires 1 <= t <= |genList|
    ensures TaskGenBase(genList, false, Some(NatToString(t))) == Ok(genList[t - 1])
  {
    ArrayIndexFromScheduler(DebugArrayIndex, t);
    SelectRange(genList, t);
  }

  // ---------------------------------------------------------------------------
  // Paths

  /** `tempdir/temp-<gen base>`: the task's own staging directory. */
  function GenBaseTempdir(tempdir: string, gb: string): string
  {
    PyPath.Join(tempdir, "temp-" + gb)
  }

  /** `plink_tempdir/<gen base>.coreset`: where plink writes the chromosome's coreset. */
  function CoresetPath(plinkTempdir: string, gb: string): string
  {
    PyPath.Join(plinkTempdir, gb + ".coreset")
  }

  /** The staged files and the prefix plink reads them under. */
  datatype Staging = Staging(
    inputBim: string, tempBim: string, inputBed: string, tempBed: string, tempFam: string,
    plinkPath: string, genBasePath: string)

  function StagingPaths(dataDir: string, tempdir: string, plinkTempdir: string, gb: string): Staging
  {
    var dir := GenBaseTempdir(tempdir, gb);
    Staging(
      PyPath.Join(dataDir, gb + ".bim"),
      PyPath.Join(dir, gb + ".bim"),
      PyPath.Join(dataDir, gb + ".bed"),
      PyPath.Join(dir, gb + ".bed"),
      PyPath.Join(dir, gb + ".fam"),
      CoresetPath(plinkTempdir, gb),
      PyPath.Join(dir, gb))
  }

  /** The staged `.bim`, `.bed` and `.fam` are the plink input prefix plus their extension,
      so `plink --bfile <prefix>` reads exactly the staged set; the inputs are the gen base
      in the data directory plus the same extension. */
  lemma StagedFilesMatchPrefix(dataDir: string, tempdir: string, plinkTempdir: string, gb: string)
    ensures var p := StagingPaths(dataDir, tempdir, plinkTempdir, gb);
            && p.tempBim == p.genBasePath + ".bim"
            && p.tempBed == p.genBasePath + ".bed"
            && p.tempFam == p.genBasePath + ".fam"
            && p.inputBim == PyPath.Join(dataDir, gb) + ".bim"
            && p.inputBed == PyPath.Join(dataDir, gb) + ".bed"
  {
    var dir := GenBaseTempdir(tempdir, gb);
    PyPath.JoinExtends(dir, gb, ".bim");
    PyPath.JoinExtends(dir, gb, ".bed");
    PyPath.JoinExtends(dir, gb, ".fam");
    PyPath.JoinExtends(dataDir, gb, ".bim");
    PyPath.JoinExtends(dataDir, gb, ".bed");
  }

  // ---------------------------------------------------------------------------
  // Staging commands

  /** The awk program: keep columns 1, 3, 4, 5 and 6, replace column 2 with
      `$1_$4_$5_$6_1`, separate the output with tabs. */
  const AwkProgram: string := "BEGIN { OFS = \"\t\"} {print $1,$1\"_\"$4\"_\"$5\"_\"$6\"_1\",$3,$4,$5,$6}"

  function AwkCommand(inputBim: string, tempBim: string): string
  {
    "awk '" + AwkProgram + "' " + inputBim + " > " + tempBim
  }

  function LinkCommand(inputBed: string, tempBed: string): string
  {
    "ln -s " + inputBed + " " + tempBed
  }

  function CopyCommand(famFile: string, tempFam: string): string
  {
    "cp " + famFile + " " + tempFam
  }

  /** Field `k` (1-based) of an awk record; missing fields are empty. */
  function AwkField(fields: seq<string>, k: nat): string
  {
    if 1 <= k <= |fields| then fields[k - 1] else ""
  }

  /** What `AwkProgram` prints for a record with the given fields. */
  function RewriteBimRecord(fields: seq<string>): string
  {
    var f := (k: nat) => AwkField(fields, k);
    Join([f(1), f(1) + "_" + f(4) + "_" + f(5) + "_" + f(6) + "_1", f(3), f(4), f(5), f(6)], '\t')
  }

  /** A rewritten record has six tab-separated columns: the chromosome, the new variant id
      `chr_pos_a1_a2_1`, and the original columns 3 to 6, as long as no field holds a tab. */
  lemma RewriteKeepsColumns(fields: seq<string>)
    requires |fields| == 6
    requires forall i :: 0 <= i < 6 ==> '\t' !in fields[i]
    ensures Split(RewriteBimRecord(fields), '\t')
            == [fields[0], fields[0] + "_" + fields[3] + "_" + fields[4] + "_" + fields[5] + "_1",
                fields[2], fields[3], fields[4], fields[5]]
  {
    var cols := [fields[0], fields[0] + "_" + fields[3] + "_" + fields[4] + "_" + fields[5] + "_1",
                 fields[2], fields[3], fields[4], fields[5]];
    assert '\t' !in cols[1] by {
      assert forall i :: 0 <= i < |cols[1]| ==> cols[1][i] != '\t' by {
        forall i | 0 <= i < |cols[1]| ensures cols[1][i] != '\t' {
          TabFreeConcat(fields[0], fields[3], fields[4], fields[5], i);
        }
      }
    }
    SplitJoin(cols, '\t');
  }

  /** The new id holds no tab when its parts hold none. */
  lemma TabFreeConcat(a: string, b: string, c: string, d: string, i: int)
    requires '\t' !in a && '\t' !in b && '\t' !in c && '\t' !in d
    requires 0 <= i < |a + "_" + b + "_" + c + "_" + d + "_1"|
    ensures (a + "_" + b + "_" + c + "_" + d + "_1")[i] != '\t'
  {
  }

  // ---------------------------------------------------------------------------
  // The plink command

  /** plink with `--keep` the phenotype file, `--maf`, `--geno`, `--hwe` and `--out`, in that
      order. `thr_hwe` is concatenated without `str()`: a number raises TypeError. */
  function PlinkCommand(genBasePath: string, phenoFile: string, thrMaf: Scalar, thrGeno: Scalar,
                        thrHwe: Scalar, plinkPath: string): Result<string, WorkerError>
  {
    match thrHwe
    case Numeral(_) => Err(NotAString("thr-hwe"))
    case Text(hwe) =>
      Ok("plink --bfile " + genBasePath + " --keep " + phenoFile + " --maf " + Str(thrMaf) +
         " --geno " + Str(thrGeno) + " --hwe " + hwe + " --make-bed  --out " + plinkPath)
  }

  /** The tokens of the plink command, in order. */
  function PlinkTokens(genBasePath: string, phenoFile: string, maf: string, geno: string, hwe: string,
                       plinkPath: string): seq<string>
  {
    ["--bfile", genBasePath, "--keep", phenoFile, "--maf", maf, "--geno", geno, "--hwe", hwe,
     "--make-bed", "", "--out", plinkPath]
  }

  /** The command is `plink` followed by its tokens, each led by a space. */
  lemma PlinkCommandWords(genBasePath: string, phenoFile: string, thrMaf: Scalar, thrGeno: Scalar,
                          hwe: string, plinkPath: string)
    ensures PlinkCommand(genBasePath, phenoFile, thrMaf, thrGeno, Text(hwe), plinkPath)
            == Ok("plink" + Words(PlinkTokens(genBasePath, phenoFile, Str(thrMaf), Str(thrGeno), hwe, plinkPath)))
  {
    var g, pf, maf, geno := genBasePath, phenoFile, Str(thrMaf), Str(thrGeno);
    var t5 := ["--bfile", g, "--keep", pf, "--maf", maf, "--geno", geno, "--hwe", hwe];
    var t6 := t5 + ["--make-bed", ""];
    var t7 := t6 + ["--out", plinkPath];
    var x5, x6, x7 := "plink" + Words(t5), "plink" + Words(t6), "plink" + Words(t7);
    assert x5 == "plink --bfile " + g + " --keep " + pf + " --maf " + maf + " --geno " + geno + " --hwe " + hwe by {
      PlinkCommandHead(g, pf, maf, geno, hwe);
    }
    assert x6 == x5 + " --make-bed " by {
      WordsSnocPair("plink", t5, "--make-bed", "", " --make-bed ");
      assert x5 + " --make-bed " + "" == x5 + " --make-bed ";
    }
    assert x7 == x6 + " --out " + plinkPath by { WordsSnocPair("plink", t6, "--out", plinkPath, " --out "); }
    assert x7 == x5 + " --make-bed  --out " + plinkPath by {
      assert " --make-bed " + " --out " == " --make-bed  --out ";
    }
    assert PlinkTokens(g, pf, maf, geno, hwe, plinkPath) == t7;
  }

  /** The command up to the `--hwe` threshold. */
  lemma PlinkCommandHead(g: string, pf: string, maf: string, geno: string, hwe: string)
    ensures "plink" + Words(["--bfile", g, "--keep", pf, "--maf", maf, "--geno", geno, "--hwe", hwe])
            == "plink --bfile " + g + " --keep " + pf + " --maf " + maf + " --geno " + geno + " --hwe " + hwe
  {
    var t1 := ["--bfile", g];
    var t2 := t1 + ["--keep", pf];
    var t3 := t2 + ["--maf", maf];
    var t4 := t3 + ["--geno", geno];
    var t5 := t4 + ["--hwe", hwe];
    var x1, x2, x3, x4 := "plink" + Words(t1), "plink" + Words(t2), "plink" + Words(t3), "plink" + Words(t4);
    var x5 := "plink" + Words(t5);
    assert x1 == "plink --bfile " + g by { WordsOfPair("--bfile", g); }
    assert x2 == x1 + " --keep " + pf by { WordsSnocPair("plink", t1, "--keep", pf, " --keep "); }
    assert x3 == x2 + " --maf " + maf by { WordsSnocPair("plink", t2, "--maf", maf, " --maf "); }
    assert x4 == x3 + " --geno " + geno by { WordsSnocPair("plink", t3, "--geno", geno, " --geno "); }
    assert x5 == x4 + " --hwe " + hwe by { WordsSnocPair("plink", t4, "--hwe", hwe, " --hwe "); }
    assert t5 == ["--bfile", g, "--keep", pf, "--maf", maf, "--geno", geno, "--hwe", hwe];
  }

  lemma PlinkTokensSpaceFree(genBasePath: string, phenoFile: string, maf: string, geno: string, hwe: string,
                             plinkPath: string)
    requires ' ' !in genBasePath && ' ' !in phenoFile && ' ' !in maf && ' ' !in geno
    requires ' ' !in hwe && ' ' !in plinkPath
    ensures SpaceFree(PlinkTokens(genBasePath, phenoFile, maf, geno, hwe, plinkPath))
  {
    var ts := PlinkTokens(genBasePath, phenoFile, maf, geno, hwe, plinkPath);
    forall i | 0 <= i < |ts| ensures ' ' !in ts[i] {
      if i % 2 == 0 {
        assert ts[i] in ["--bfile", "--keep", "--maf", "--geno", "--hwe", "--make-bed", "--out"];
      }
    }
  }

  /** The plink command is built exactly when `thr-hwe` is text; tokenised at single
      spaces it reads `plink`, the input prefix, the samples to keep, the three filters and
      the output prefix in that order, when none of the values holds a space. */
  lemma PlinkCommandOrder(genBasePath: string, phenoFile: string, thrMaf: Scalar, thrGeno: Scalar,
                          thrHwe: Scalar, plinkPath: string)
    requires SpaceFree([genBasePath, phenoFile, Str(thrMaf), Str(thrGeno), Str(thrHwe), plinkPath])
    ensures PlinkCommand(genBasePath, phenoFile, thrMaf, thrGeno, thrHwe, plinkPath).Ok? <==> thrHwe.Text?
    ensures thrHwe.Text? ==>
              Split(PlinkCommand(genBasePath, phenoFile, thrMaf, thrGeno, thrHwe, plinkPath).value, ' ')
              == ["plink"] + PlinkTokens(genBasePath, phenoFile, Str(thrMaf), Str(thrGeno), thrHwe.text, plinkPath)
  {
    if thrHwe.Text? {
      var ts := PlinkTokens(genBasePath, phenoFile, Str(thrMaf), Str(thrGeno), thrHwe.text, plinkPath);
      PlinkCommandWords(genBasePath, phenoFile, thrMaf, thrGeno, thrHwe.text, plinkPath);
      var given := [genBasePath, phenoFile, Str(thrMaf), Str(thrGeno), Str(thrHwe), plinkPath];
      assert ' ' !in given[0] && ' ' !in given[1] && ' ' !in given[2];
      assert ' ' !in given[3] && ' ' !in given[4] && ' ' !in given[5];
      PlinkTokensSpaceFree(genBasePath, phenoFile, Str(thrMaf), Str(thrGeno), thrHwe.text, plinkPath);
      WordsReadBack("plink", ts);
    }
  }

  /** The command closes with `--out` and the output prefix, when none of its values holds
      a space. */
  lemma PlinkCommandOutput(genBasePath: string, phenoFile: string, thrMaf: Scalar, thrGeno: Scalar,
                           hwe: string, plinkPath: string)
    requires SpaceFree([genBasePath, phenoFile, Str(thrMaf), Str(thrGeno), hwe, plinkPath])
    ensures ClosingValue(Split(PlinkCommand(genBasePath, phenoFile, thrMaf, thrGeno, Text(hwe), plinkPath).value, ' '), "--out")
            == Some(plinkPath)
  {
    PlinkCommandOrder(genBasePath, phenoFile, thrMaf, thrGeno, Text(hwe), plinkPath);
  }

  // ---------------------------------------------------------------------------
  // The task

  datatype PlinkSettings = PlinkSettings(
    dataDir: string, famFile: string, phenoFile: string, thrMaf: Scalar, thrGeno: Scalar, thrHwe: Scalar)

  datatype PlinkCatalog = PlinkCatalog(tempdir: string, plinkTempdir: string, genList: seq<string>)

  /** What a task does: the shell commands it runs, in order, and the exception it stops
      with, if any. */
  datatype TaskRun = TaskRun(commands: seq<string>, failure: Option<WorkerError>)

  /** The task: pick the gen base, stage its files (rewritten `.bim`, linked `.bed`, copied
      `.fam`), then build and run the plink command. */
  function PlinkTask(s: PlinkSettings, cat: PlinkCatalog, debugMode: bool, env: Option<string>): TaskRun
  {
    match TaskGenBase(cat.genList, debugMode, env)
    case Err(e) => TaskRun([], Some(e))
    case Ok(gb) =>
      var p := StagingPaths(s.dataDir, cat.tempdir, cat.plinkTempdir, gb);
      var staging := [AwkCommand(p.inputBim, p.tempBim), LinkCommand(p.inputBed, p.tempBed),
                      CopyCommand(s.famFile, p.tempFam)];
      match PlinkCommand(p.genBasePath, s.phenoFile, s.thrMaf, s.thrGeno, s.thrHwe, p.plinkPath)
      case Err(e) => TaskRun(staging, Some(e))
      case Ok(cmd) => TaskRun(staging + [cmd], None)
  }

  /** Task `t` stages gen base `t`; it runs plink, and ends without an exception, exactly
      when `thr-hwe` is text, and its output prefix is the gen base's coreset path. */
  lemma PlinkTaskRunsGenBase(s: PlinkSettings, cat: PlinkCatalog, t: nat)
    requires 1 <= t <= |cat.genList|
    ensures var run := PlinkTask(s, cat, false, Some(NatToString(t)));
            var p := StagingPaths(s.dataDir, cat.tempdir, cat.plinkTempdir, cat.genList[t - 1]);
            && |run.commands| >= 3
            && run.commands[0] == AwkCommand(p.inputBim, p.tempBim)
            && run.commands[1] == LinkCommand(p.inputBed, p.tempBed)
            && run.commands[2] == CopyCommand(s.famFile, p.tempFam)
            && (run.failure.None? <==> s.thrHwe.Text?)
            && (run.failure.None? ==>
                  |run.commands| == 4 &&
                  run.commands[3] == PlinkCommand(p.genBasePath, s.phenoFile, s.thrMaf, s.thrGeno, s.thrHwe, p.plinkPath).value)
  {
    TaskTakesItsGenBase(cat.genList, t);
    var p := StagingPaths(s.dataDir, cat.tempdir, cat.plinkTempdir, cat.genList[t - 1]);
    var staging := [AwkCommand(p.inputBim, p.tempBim), LinkCommand(p.inputBed, p.tempBed),
                    CopyCommand(s.famFile, p.tempFam)];
    var command := PlinkCommand(p.genBasePath, s.phenoFile, s.thrMaf, s.thrGeno, s.thrHwe, p.plinkPath);
    if s.thrHwe.Text? {
      assert PlinkTask(s, cat, false, Some(NatToString(t))) == TaskRun(staging + [command.value], None);
    } else {
      assert PlinkTask(s, cat, false, Some(NatToString(t))) == TaskRun(staging, Some(command.error));
    }
  }

  /** A task numbered beyond the list stops with IndexError before it stages anything. */
  lemma PlinkTaskOutOfRange(s: PlinkSettings, cat: PlinkCatalog, t: nat)
    requires t > |cat.genList|
    ensures PlinkTask(s, cat, false, Some(NatToString(t))) == TaskRun([], Some(IndexOutOfRange(t - 1)))
  {
    ArrayIndexFromScheduler(DebugArrayIndex, t);
    SelectRange(cat.genList, t);
  }
}
