/** How the driver and the two workers fit together: array task `t` of each stage works on
    entry `t` of the list the driver built, and writes the file the driver later reads for
    that entry. The workers are given the driver's lists and directories. */
module Pipeline {
  import opened Results
  import opened PyStr
  import opened Catalog
  import opened WorkerTask
  import Driver
  import PlinkWorker
  import BoltWorker
  import PyPath
  import CommandLine

  /** Where the plink task numbered `t` writes its coreset: the `--out` value that closes
      the plink command it runs, if it gets that far. */
  function PlinkTaskOutput(s: PlinkWorker.PlinkSettings, cat: PlinkWorker.PlinkCatalog, t: nat): Option<string>
  {
    var run := PlinkWorker.PlinkTask(s, cat, false, Some(NatToString(t)));
    if run.failure.None? && |run.commands| == 4 then CommandLine.ClosingValue(Split(run.commands[3], ' '), "--out")
    else None
  }

  /** Where the bolt task numbered `t` writes the statistics of its chunk's imputed SNPs:
      the `--statsFileBgenSnps` value of the bolt command it runs, if it gets that far. */
  function BoltTaskOutput(s: BoltWorker.BoltSettings, cat: BoltWorker.BoltCatalog, t: nat): Option<string>
  {
    var run := BoltWorker.BoltTask(s, cat, false, Some(NatToString(t)));
    if |run.commands| == 3 then CommandLine.OptionValue(Split(run.commands[2], ' '), "--statsFileBgenSnps=")
    else None
  }

  /** The plink array `1-N` runs one task per gen base: task `t` stages chromosome `t` of
      `chr_list` and, when `thr-hwe` is text, writes its coreset to line `t` of the driver's
      merge list; with a numeric `thr-hwe`, and for tasks outside `1..N`, plink does not
      run. The command is read at single spaces, so no value the paths and the command are
      built from may hold one. */
  lemma PlinkTasksFillMergeList(chrs: seq<Chrom>, genBase: string, outdir: string, tempdir: string,
                                s: PlinkWorker.PlinkSettings)
    requires CommandLine.SpaceFree([tempdir, outdir, genBase])
    requires CommandLine.SpaceFree([s.phenoFile, Str(s.thrMaf), Str(s.thrGeno), Str(s.thrHwe)])
    requires forall i :: 0 <= i < |chrs| ==> ' ' !in ChromText(chrs[i])
    ensures var genList := Driver.BaseList(genBase, chrs);
            var cat := PlinkWorker.PlinkCatalog(tempdir, Driver.PlinkTempDir(outdir), genList);
            var entries := Driver.CoresetEntries(Driver.PlinkTempDir(outdir), genList);
            && ParseInt(Driver.ArraySpec(|genList|)[2..]) == Some(|entries|)
            && (forall t :: 1 <= t <= |genList| ==>
                  && PlinkWorker.TaskGenBase(genList, false, Some(NatToString(t)))
                     == Ok(genBase + ChromText(chrs[t - 1]))
                  && PlinkTaskOutput(s, cat, t) == if s.thrHwe.Text? then Some(entries[t - 1]) else None)
            && (forall t :: t > |genList| ==> PlinkTaskOutput(s, cat, t) == None)
  {
    var plinkTempdir := Driver.PlinkTempDir(outdir);
    var genList := Driver.BaseList(genBase, chrs);
    var cat := PlinkWorker.PlinkCatalog(tempdir, plinkTempdir, genList);
    var entries := Driver.CoresetEntries(plinkTempdir, genList);
    Driver.ArraySpecBound(|genList|);
    assert ' ' !in tempdir && ' ' !in plinkTempdir && ' ' !in genBase by {
      var dirs := [tempdir, outdir, genBase];
      assert ' ' !in dirs[0] && ' ' !in dirs[1] && ' ' !in dirs[2];
      PyPath.JoinAvoids(outdir, "temp", ' ');
      PyPath.JoinAvoids(Driver.TempDir(outdir), "temp-plink", ' ');
    }
    PlinkTasksOfChromosomes(chrs, genBase, tempdir, plinkTempdir, s);
    PlinkTasksBeyondList(s, cat);
  }

  /** Tasks numbered beyond the list write nothing. */
  lemma PlinkTasksBeyondList(s: PlinkWorker.PlinkSettings, cat: PlinkWorker.PlinkCatalog)
    ensures forall t :: t > |cat.genList| ==> PlinkTaskOutput(s, cat, t) == None
  {
    forall t | t > |cat.genList|
      ensures PlinkTaskOutput(s, cat, t) == None
    {
      PlinkWorker.PlinkTaskOutOfRange(s, cat, t);
    }
  }

  /** Task `t` of a list the driver built from `chr_list` takes chromosome `t` and, when
      `thr-hwe` is text, writes the coreset listed at `t`. */
  lemma PlinkTasksOfChromosomes(chrs: seq<Chrom>, genBase: string, tempdir: string, plinkTempdir: string,
                                s: PlinkWorker.PlinkSettings)
    requires ' ' !in tempdir && ' ' !in plinkTempdir && ' ' !in genBase
    requires forall i :: 0 <= i < |chrs| ==> ' ' !in ChromText(chrs[i])
    requires CommandLine.SpaceFree([s.phenoFile, Str(s.thrMaf), Str(s.thrGeno), Str(s.thrHwe)])
    ensures var genList := Driver.BaseList(genBase, chrs);
            var cat := PlinkWorker.PlinkCatalog(tempdir, plinkTempdir, genList);
            forall t :: 1 <= t <= |genList| ==>
              && PlinkWorker.TaskGenBase(genList, false, Some(NatToString(t))) == Ok(genBase + ChromText(chrs[t - 1]))
              && PlinkTaskOutput(s, cat, t)
                 == if s.thrHwe.Text? then Some(Driver.CoresetEntries(plinkTempdir, genList)[t - 1]) else None
  {
    var genList := Driver.BaseList(genBase, chrs);
    var cat := PlinkWorker.PlinkCatalog(tempdir, plinkTempdir, genList);
    forall t | 1 <= t <= |genList|
      ensures PlinkWorker.TaskGenBase(genList, false, Some(NatToString(t))) == Ok(genBase + ChromText(chrs[t - 1]))
      ensures PlinkTaskOutput(s, cat, t)
              == if s.thrHwe.Text? then Some(Driver.CoresetEntries(plinkTempdir, genList)[t - 1]) else None
    {
      assert genList[t - 1] == genBase + ChromText(chrs[t - 1]);
      assert ' ' !in ChromText(chrs[t - 1]);
      assert CommandLine.SpaceFree([tempdir, plinkTempdir, genList[t - 1]]);
      PlinkTaskWritesEntry(s, cat, t);
    }
  }

  /** Plink task `t` closes its command with `--out` and the coreset path the driver lists
      for gen base `t`, exactly when `thr-hwe` is text; a numeric one stops the task with
      TypeError before plink runs. */
  lemma PlinkTaskWritesEntry(s: PlinkWorker.PlinkSettings, cat: PlinkWorker.PlinkCatalog, t: nat)
    requires 1 <= t <= |cat.genList|
    requires CommandLine.SpaceFree([cat.tempdir, cat.plinkTempdir, cat.genList[t - 1]])
    requires CommandLine.SpaceFree([s.phenoFile, Str(s.thrMaf), Str(s.thrGeno), Str(s.thrHwe)])
    ensures PlinkWorker.TaskGenBase(cat.genList, false, Some(NatToString(t))) == Ok(cat.genList[t - 1])
    ensures PlinkTaskOutput(s, cat, t)
            == if s.thrHwe.Text? then Some(Driver.CoresetEntries(cat.plinkTempdir, cat.genList)[t - 1]) else None
  {
    PlinkWorker.TaskTakesItsGenBase(cat.genList, t);
    PlinkWorker.PlinkTaskRunsGenBase(s, cat, t);
    if s.thrHwe.Text? {
      var gb := cat.genList[t - 1];
      var p := PlinkWorker.StagingPaths(s.dataDir, cat.tempdir, cat.plinkTempdir, gb);
      PlinkStagingSpaceFree(cat.tempdir, cat.plinkTempdir, gb);
      var values := [s.phenoFile, Str(s.thrMaf), Str(s.thrGeno), Str(s.thrHwe)];
      assert ' ' !in values[0] && ' ' !in values[1] && ' ' !in values[2] && ' ' !in values[3];
      assert CommandLine.SpaceFree([p.genBasePath, s.phenoFile, Str(s.thrMaf), Str(s.thrGeno), s.thrHwe.text, p.plinkPath]);
      PlinkWorker.PlinkCommandOutput(p.genBasePath, s.phenoFile, s.thrMaf, s.thrGeno, s.thrHwe.text, p.plinkPath);
    }
  }

  /** The input prefix and the output path of a plink task hold no space when its
      directories and gen base hold none. */
  lemma PlinkStagingSpaceFree(tempdir: string, plinkTempdir: string, gb: string)
    requires CommandLine.SpaceFree([tempdir, plinkTempdir, gb])
    ensures forall dataDir :: var p := PlinkWorker.StagingPaths(dataDir, tempdir, plinkTempdir, gb);
              ' ' !in p.genBasePath && ' ' !in p.plinkPath
  {
    var given := [tempdir, plinkTempdir, gb];
    assert ' ' !in given[0] && ' ' !in given[1] && ' ' !in given[2];
    assert ' ' !in "temp-" + gb && ' ' !in gb + ".coreset";
    PyPath.JoinAvoids(tempdir, "temp-" + gb, ' ');
    PyPath.JoinAvoids(PlinkWorker.GenBaseTempdir(tempdir, gb), gb, ' ');
    PyPath.JoinAvoids(plinkTempdir, gb + ".coreset", ' ');
  }

  /** The bolt array `1-N` runs one task per chunk of a chunk list the driver built: task
      `t` works on chunk `t` and, when the covariate setting holds a `;`, its bolt command
      writes the statistics the driver lists at entry `t` of its merge list; without a `;`,
      and for tasks outside `1..N`, bolt does not run. The command is read at single
      spaces, so no value the file names are built from may hold one. */
  lemma BoltTasksFillMergeList(chrs: seq<Chrom>, bimFiles: map<string, seq<string>>,
                               chunksize: int, outdir: string, s: BoltWorker.BoltSettings,
                               tempdir: string, coresetPath: string, chunkList: seq<Chunk>)
    requires ChunkList(s.dataDir, s.impBase, chrs, bimFiles, chunksize) == Ok(chunkList)
    requires BoltWorker.PlainSettings(s) && CommandLine.SpaceFree([tempdir, outdir, coresetPath])
    requires forall k :: 0 <= k < |chunkList| ==> BoltWorker.PlainChunk(chunkList[k])
    ensures var cat := BoltWorker.BoltCatalog(tempdir, Driver.BoltTempDir(outdir), coresetPath, chunkList);
            && ParseInt(Driver.ArraySpec(|chunkList|)[2..]) == Some(|chunkList|)
            && (forall t :: 1 <= t <= |chunkList| ==>
                  && BoltWorker.TaskChunk(chunkList, false, Some(NatToString(t))) == Ok(chunkList[t - 1])
                  && BoltTaskOutput(s, cat, t)
                     == if ';' in s.cov1
                        then Some(Driver.MergeFile(Driver.BoltTempDir(outdir), s.impBase, chunkList[t - 1]))
                        else None)
            && (forall t :: t > |chunkList| ==> BoltTaskOutput(s, cat, t) == None)
  {
    var boltTempdir := Driver.BoltTempDir(outdir);
    var cat := BoltWorker.BoltCatalog(tempdir, boltTempdir, coresetPath, chunkList);
    Driver.ArraySpecBound(|chunkList|);
    assert CommandLine.SpaceFree([tempdir, boltTempdir, coresetPath]) by {
      var dirs := [tempdir, outdir, coresetPath];
      assert ' ' !in dirs[0] && ' ' !in dirs[1] && ' ' !in dirs[2];
      PyPath.JoinAvoids(outdir, "temp", ' ');
      PyPath.JoinAvoids(Driver.TempDir(outdir), "temp-bolt", ' ');
    }
    forall t | 1 <= t <= |chunkList|
      ensures BoltWorker.TaskChunk(chunkList, false, Some(NatToString(t))) == Ok(chunkList[t - 1])
      ensures BoltTaskOutput(s, cat, t)
              == if ';' in s.cov1
                 then Some(Driver.MergeFile(boltTempdir, s.impBase, chunkList[t - 1]))
                 else None
    {
      BoltWorker.TaskRunsItsChunk(chunkList, t);
      BoltTaskWritesEntry(s, cat, t);
    }
    forall t | t > |chunkList|
      ensures BoltTaskOutput(s, cat, t) == None
    {
      BoltWorker.BoltTaskOutOfRange(s, cat, t);
    }
  }

  /** Bolt task `t` writes, through its command's `--statsFileBgenSnps`, the file the
      driver lists for chunk `t`, exactly when its covariate setting holds a `;`. */
  lemma BoltTaskWritesEntry(s: BoltWorker.BoltSettings, cat: BoltWorker.BoltCatalog, t: nat)
    requires 1 <= t <= |cat.chunkList|
    requires BoltWorker.PlainSettings(s) && BoltWorker.PlainChunk(cat.chunkList[t - 1])
    requires CommandLine.SpaceFree([cat.tempdir, cat.boltTempdir, cat.coresetPath])
    ensures BoltTaskOutput(s, cat, t)
            == if ';' in s.cov1 then Some(Driver.MergeFile(cat.boltTempdir, s.impBase, cat.chunkList[t - 1])) else None
  {
    BoltWorker.BoltTaskRunsChunk(s, cat, t);
    if ';' in s.cov1 {
      BoltWorker.BoltTaskFiles(s, cat, t);
    }
  }

  /** The tasks of the chunks of chromosome `chrs[j]` all cut that chromosome's bgen file.
      The driver and the worker read `data-dir` and `imp-base` from the same configuration. */
  lemma BoltTasksReadTheirChromosome(chrs: seq<Chrom>, bimFiles: map<string, seq<string>>,
                                     chunksize: int, s: BoltWorker.BoltSettings, j: nat)
    requires j < |chrs|
    requires ChunkList(s.dataDir, s.impBase, chrs, bimFiles, chunksize).Ok?
    ensures ChunkList(s.dataDir, s.impBase, chrs[..j], bimFiles, chunksize).Ok?
    ensures ChromosomeChunks(s.dataDir, s.impBase, chrs[j], bimFiles, chunksize).Ok?
    ensures var all := ChunkList(s.dataDir, s.impBase, chrs, bimFiles, chunksize).value;
            var lo := |ChunkList(s.dataDir, s.impBase, chrs[..j], bimFiles, chunksize).value|;
            var hi := lo + |ChromosomeChunks(s.dataDir, s.impBase, chrs[j], bimFiles, chunksize).value|;
            hi <= |all| && TasksCutChromosome(all, lo, hi, chrs[j], s.dataDir, s.impBase)
  {
    ChunkListTags(s.dataDir, s.impBase, chrs, bimFiles, chunksize, j);
    var all := ChunkList(s.dataDir, s.impBase, chrs, bimFiles, chunksize).value;
    var lo := |ChunkList(s.dataDir, s.impBase, chrs[..j], bimFiles, chunksize).value|;
    var hi := lo + |ChromosomeChunks(s.dataDir, s.impBase, chrs[j], bimFiles, chunksize).value|;
    TasksOfTaggedRun(all, lo, hi, chrs[j], s.dataDir, s.impBase);
  }

  /** Tasks `lo+1..hi` select chunks `lo..hi-1` of `all`, and each cuts the bgen file of
      chromosome `c`. */
  predicate TasksCutChromosome(all: seq<Chunk>, lo: nat, hi: nat, c: Chrom, dataDir: string, impBase: string)
    requires hi <= |all|
  {
    forall t :: lo < t <= hi ==>
      && BoltWorker.TaskChunk(all, false, Some(NatToString(t))) == Ok(all[t - 1])
      && BoltWorker.BgenFile(dataDir, impBase, all[t - 1])
         == PyPath.Join(dataDir, impBase + ChromText(c) + ".bgen")
  }

  /** Tasks `lo+1..hi` of a run of chunks all tagged `c` select those chunks and cut the bgen
      file of `c`. */
  lemma TasksOfTaggedRun(all: seq<Chunk>, lo: nat, hi: nat, c: Chrom, dataDir: string, impBase: string)
    requires hi <= |all|
    requires forall t :: lo <= t < hi ==> all[t].chr == c
    ensures TasksCutChromosome(all, lo, hi, c, dataDir, impBase)
  {
    forall t | lo < t <= hi
      ensures BoltWorker.TaskChunk(all, false, Some(NatToString(t))) == Ok(all[t - 1])
      ensures BoltWorker.BgenFile(dataDir, impBase, all[t - 1])
              == PyPath.Join(dataDir, impBase + ChromText(c) + ".bgen")
    {
      BoltWorker.TaskRunsItsChunk(all, t);
      assert all[t - 1].chr == c;
    }
  }
}
