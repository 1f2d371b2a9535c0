/** The driver script (bin/main.py): the chromosome and base-name lists, the job ids read
    from `qsub`, the polling loops that hold each stage until its job has left the queue,
    the two merge lists, and the order of the stages. */
module Driver {
  import opened Results
  import opened PyStr
  import PyPath
  import opened Catalog

  // ---------------------------------------------------------------------------
  // Chromosomes and base names

  /** `chr_list`: the `chr-list` value with its spaces removed, split on commas; without
      one, the integers 1..22. */
  function ChromosomeList(chrListCfg: Option<string>): seq<Chrom>
  {
    match chrListCfg
    case Some(v) =>
      var names := Split(RemoveAll(v, " "), ',');
      seq(|names|, i requires 0 <= i < |names| => Label(names[i]))
    case None => seq(22, i requires 0 <= i < 22 => Number(i + 1))
  }

  /** `str(chr)` of every chromosome. */
  function Texts(chrs: seq<Chrom>): (r: seq<string>)
    ensures |r| == |chrs|
  {
    seq(|chrs|, i requires 0 <= i < |chrs| => ChromText(chrs[i]))
  }

  /** The list is never empty. A configured list is that value without spaces, cut at the
      commas: its names carry no space and no comma, and joined with commas give the value
      back. The default list is "1".."22". */
  lemma ChromosomeListShape(chrListCfg: Option<string>)
    ensures |ChromosomeList(chrListCfg)| >= 1
    ensures chrListCfg.Some? ==>
              var texts := Texts(ChromosomeList(chrListCfg));
              && Join(texts, ',') == RemoveAll(chrListCfg.value, " ")
              && forall i :: 0 <= i < |texts| ==> ' ' !in texts[i] && ',' !in texts[i]
    ensures chrListCfg.None? ==>
              var texts := Texts(ChromosomeList(chrListCfg));
              |texts| == 22 && forall i :: 0 <= i < 22 ==> texts[i] == NatToString(i + 1)
  {
    if chrListCfg.Some? {
      var stripped := RemoveAll(chrListCfg.value, " ");
      var names := Split(stripped, ',');
      var texts := Texts(ChromosomeList(chrListCfg));
      assert texts == names;
      JoinSplit(stripped, ',');
      SplitFieldsAvoidSep(stripped, ',');
      RemoveCharGone(chrListCfg.value, ' ');
      forall i | 0 <= i < |texts|
        ensures ' ' !in texts[i]
      {
        FieldsAvoid(stripped, ',', ' ', i);
      }
    }
  }

  /** A character absent from a string is absent from every field of its split. */
  lemma {:induction false} FieldsAvoid(s: string, sep: char, c: char, i: nat)
    requires c !in s && i < |Split(s, sep)|
    ensures c !in Split(s, sep)[i]
    decreases |s|
  {
    if |s| > 0 {
      var rest := Split(s[1..], sep);
      if s[0] == sep {
        if i > 0 {
          FieldsAvoid(s[1..], sep, c, i - 1);
        }
      } else {
        FieldsAvoid(s[1..], sep, c, if i == 0 then 0 else i);
      }
    }
  }

  /** `gen_base_list` / `imp_base_list`: the base prefix followed by `str(chr)`, for every
      chromosome. */
  function BaseList(base: string, chrs: seq<Chrom>): seq<string>
  {
    seq(|chrs|, i requires 0 <= i < |chrs| => base + ChromText(chrs[i]))
  }

  /** The base-name lists follow `chr_list` one to one, so the count check that stops
      the driver never fires, and entry `i` of the two lists names the same chromosome:
      past their bases, the two names agree. */
  lemma CountCheckNeverFires(genBase: string, impBase: string, chrs: seq<Chrom>)
    ensures |BaseList(genBase, chrs)| == |chrs| && |BaseList(impBase, chrs)| == |chrs|
    ensures forall i :: 0 <= i < |chrs| ==>
              && genBase <= BaseList(genBase, chrs)[i] && impBase <= BaseList(impBase, chrs)[i]
              && BaseList(genBase, chrs)[i][|genBase|..] == BaseList(impBase, chrs)[i][|impBase|..]
  {
    forall i | 0 <= i < |chrs|
      ensures BaseList(genBase, chrs)[i][|genBase|..] == BaseList(impBase, chrs)[i][|impBase|..]
    {
      assert (genBase + ChromText(chrs[i]))[|genBase|..] == ChromText(chrs[i]);
      assert (impBase + ChromText(chrs[i]))[|impBase|..] == ChromText(chrs[i]);
    }
  }

  // ---------------------------------------------------------------------------
  // Job ids and the completion poll

  /** The job id: the submission output with every `.pbs` deleted and trailing whitespace
      stripped. */
  function JobId(submitOut: string): (id: string)
    ensures id == [] || !IsSpace(id[|id| - 1])
    ensures |id| <= |submitOut|
  {
    RStrip(RemoveAll(submitOut, ".pbs"))
  }

  /** Stripping removes exactly a run of trailing whitespace. */
  lemma {:induction false} RStripDropsSpaces(a: string, ws: string)
    requires a == [] || !IsSpace(a[|a| - 1])
    requires forall i :: 0 <= i < |ws| ==> IsSpace(ws[i])
    ensures RStrip(a + ws) == a
    decreases |ws|
  {
    if |ws| > 0 {
      assert (a + ws)[..|a + ws| - 1] == a + ws[..|ws| - 1];
      RStripDropsSpaces(a, ws[..|ws| - 1]);
    } else {
      assert a + ws == a;
    }
  }

  /** `qsub` prints the id, `.pbs` and a newline: the driver gets the id back, as long as
      the id has no dot and does not end in whitespace. */
  lemma JobIdOfSubmission(id: string, ws: string)
    requires '.' !in id && (id == [] || !IsSpace(id[|id| - 1]))
    requires forall i :: 0 <= i < |ws| ==> IsSpace(ws[i])
    ensures JobId(id + ".pbs" + ws) == id
  {
    assert '.' !in ws by {
      forall i | 0 <= i < |ws| ensures ws[i] != '.' {
        assert IsSpace(ws[i]);
      }
    }
    assert id + ".pbs" + ws == id + (".pbs" + ws);
    RemoveKeepsPrefix(id, ".pbs" + ws, ".pbs");
    RemoveAtHead(ws, ".pbs");
    RemoveKeepsPrefix(ws, "", ".pbs");
    assert ws + "" == ws;
    RStripDropsSpaces(id, ws);
  }

  /** Submission output that is empty or all whitespace gives an empty id. */
  lemma BlankOutputEmptyId(ws: string)
    requires forall i :: 0 <= i < |ws| ==> IsSpace(ws[i])
    ensures JobId(ws) == ""
  {
    assert '.' !in ws by {
      forall i | 0 <= i < |ws| ensures ws[i] != '.' {
        assert IsSpace(ws[i]);
      }
    }
    RemoveKeepsPrefix(ws, "", ".pbs");
    assert ws + "" == ws;
    assert "" + ws == ws;
    RStripDropsSpaces("", ws);
  }

  /** Seconds slept between polls: 60 in the plink stage, 300 in the bolt stage. */
  const PlinkPollSeconds: nat := 60
  const BoltPollSeconds: nat := 300

  /** How a poll ended: the job left the queue listing at poll `polls`, or it was still
      listed at every poll of the listings given. */
  datatype PollOutcome = Finished(polls: nat, slept: nat) | StillQueued(polls: nat, slept: nat)

  /** The completion poll: fetch the status listing; while the job id occurs in it, sleep
      `pause` seconds and poll again; stop at the first listing without it. `listings` is
      what the status command prints, poll by poll. */
  method AwaitJob(jobId: string, listings: seq<string>, pause: nat) returns (outcome: PollOutcome)
    ensures outcome.Finished? <==> exists k :: 0 <= k < |listings| && !Contains(listings[k], jobId)
    ensures outcome.Finished? ==>
              && 1 <= outcome.polls <= |listings|
              && !Contains(listings[outcome.polls - 1], jobId)
              && (forall k :: 0 <= k < outcome.polls - 1 ==> Contains(listings[k], jobId))
              && outcome.slept == (outcome.polls - 1) * pause
    ensures outcome.StillQueued? ==> outcome.polls == |listings| && outcome.slept == |listings| * pause
    ensures jobId == "" ==> outcome.StillQueued?
  {
    var polls := 0;
    var slept := 0;
    while polls < |listings|
      invariant polls <= |listings|
      invariant forall k :: 0 <= k < polls ==> Contains(listings[k], jobId)
      invariant slept == polls * pause
    {
      var qstat := listings[polls];
      polls := polls + 1;
      if Contains(qstat, jobId) {
        slept := slept + pause;
      } else {
        if jobId == "" {
          EmptyIsContained(qstat);
        }
        return Finished(polls, slept);
      }
    }
    if jobId == "" {
      forall k | 0 <= k < |listings| ensures Contains(listings[k], jobId) {
        EmptyIsContained(listings[k]);
      }
    }
    return StillQueued(polls, slept);
  }

  // ---------------------------------------------------------------------------
  // The merge lists

  /** One line of the plink merge list: `os.path.join(plink_tempdir, gb + '.coreset')`. */
  function CoresetEntry(plinkTempdir: string, gb: string): string
  {
    PyPath.Join(plinkTempdir, gb + ".coreset")
  }

  function CoresetEntries(plinkTempdir: string, genBases: seq<string>): seq<string>
  {
    seq(|genBases|, i requires 0 <= i < |genBases| => CoresetEntry(plinkTempdir, genBases[i]))
  }

  /** A file written by `write(x + '\n')` for each `x` of `xs`, in order. */
  function LinesText(xs: seq<string>): string
    decreases |xs|
  {
    if |xs| == 0 then "" else LinesText(xs[..|xs| - 1]) + xs[|xs| - 1] + "\n"
  }

  lemma {:induction false} JoinSnoc(xs: seq<string>, y: string, sep: char)
    requires |xs| >= 1
    ensures Join(xs + [y], sep) == Join(xs, sep) + [sep] + y
    decreases |xs|
  {
    if |xs| > 1 {
      JoinSnoc(xs[1..], y, sep);
      assert (xs + [y])[1..] == xs[1..] + [y];
    }
  }

  /** A file of lines is the lines joined by newlines, with an empty last field. */
  lemma {:induction false} LinesTextIsJoin(xs: seq<string>)
    ensures LinesText(xs) == Join(xs + [""], '\n')
    decreases |xs|
  {
    if |xs| > 0 {
      var front := xs[..|xs| - 1];
      var x := xs[|xs| - 1];
      assert xs == front + [x];
      if |front| == 0 {
        assert xs + [""] == [x, ""];
      } else {
        calc {
          LinesText(xs);
          LinesText(front) + x + "\n";
          { LinesTextIsJoin(front); }
          Join(front + [""], '\n') + x + "\n";
          { JoinSnoc(front, "", '\n'); }
          Join(front, '\n') + "\n" + x + "\n";
          { JoinSnoc(front, x, '\n'); }
          Join(front + [x], '\n') + "\n";
          { JoinSnoc(front + [x], "", '\n'); }
          Join(front + [x] + [""], '\n');
        }
      }
    }
  }

  /** The plink merge list reads back, line by line, as the gen bases' coreset paths. */
  lemma MergeListReadsBack(xs: seq<string>)
    requires forall i :: 0 <= i < |xs| ==> '\n' !in xs[i]
    ensures Split(LinesText(xs), '\n') == xs + [""]
  {
    LinesTextIsJoin(xs);
    var parts := xs + [""];
    assert forall i :: 0 <= i < |parts| ==> '\n' !in parts[i] by {
      forall i | 0 <= i < |parts| ensures '\n' !in parts[i] {
        if i < |xs| { assert parts[i] == xs[i]; }
      }
    }
    SplitJoin(parts, '\n');
  }

  /** `plink_tempdir/basename.list`, the file the merge reads its inputs from. */
  function MergeListPath(plinkTempdir: string): string
  {
    PyPath.Join(plinkTempdir, "basename.list")
  }

  /** plink merging the listed coresets into `plink_dir/coreset`. */
  function MergeCommand(mergeListPath: string, plinkDir: string): string
  {
    "plink --merge-list " + mergeListPath + " --make-bed --out " + PyPath.Join(plinkDir, "coreset")
  }

  /** Writes `basename.list`: one coreset path per gen base, in order. */
  method CoresetListFile(plinkTempdir: string, genBases: seq<string>) returns (content: string)
    ensures content == LinesText(CoresetEntries(plinkTempdir, genBases))
  {
    ghost var entries := CoresetEntries(plinkTempdir, genBases);
    content := "";
    for i := 0 to |genBases|
      invariant content == LinesText(entries[..i])
    {
      var gbPath := PyPath.Join(plinkTempdir, genBases[i] + ".coreset");
      content := content + gbPath + "\n";
      assert entries[..i + 1][..i] == entries[..i];
    }
    assert entries[..|genBases|] == entries;
  }

  /** Where the bolt worker of a chunk leaves its per-SNP statistics, as the merge step
      names it: `bolt_tempdir/imp_base + str(chr) + '_' + lower + '-' + upper + '.model_1.bolt'`. */
  function MergeFile(boltTempdir: string, impBase: string, c: Chunk): string
  {
    PyPath.Join(boltTempdir, impBase + ChromText(c.chr) + "_" + c.lower + "-" + c.upper + ".model_1.bolt")
  }

  /** `bolt_tempfile_list`: one statistics file per chunk, in `chunk_list` order. */
  method BoltTempfileList(boltTempdir: string, impBase: string, chunkList: seq<Chunk>)
    returns (files: seq<string>)
    ensures |files| == |chunkList|
    ensures forall i :: 0 <= i < |chunkList| ==> files[i] == MergeFile(boltTempdir, impBase, chunkList[i])
  {
    files := [];
    for i := 0 to |chunkList|
      invariant |files| == i
      invariant forall j :: 0 <= j < i ==> files[j] == MergeFile(boltTempdir, impBase, chunkList[j])
    {
      var chunk := chunkList[i];
      var interval := (chunk.lower, chunk.upper);
      var boltTempfile := PyPath.Join(boltTempdir, impBase + ChromText(chunk.chr) + "_" + interval.0 + "-" +
                                                  interval.1 + ".model_1.bolt");
      files := files + [boltTempfile];
    }
  }

  // ---------------------------------------------------------------------------
  // Directories and the stage order

  /** `-J 1-N`: the array of task indices 1..N. */
  function ArraySpec(n: nat): string
  {
    "1-" + NatToString(n)
  }

  /** The scheduler reads the array's last task number back from the spec. */
  lemma ArraySpecBound(n: nat)
    ensures ArraySpec(n)[..2] == "1-"
    ensures ParseInt(ArraySpec(n)[2..]) == Some(n)
  {
    assert ArraySpec(n)[2..] == NatToString(n);
    ParseNatToString(n);
  }

  function PlinkDir(outdir: string): string { PyPath.Join(outdir, "plink") }
  function TempDir(outdir: string): string { PyPath.Join(outdir, "temp") }
  function PlinkTempDir(outdir: string): string { PyPath.Join(TempDir(outdir), "temp-plink") }
  function BoltTempDir(outdir: string): string { PyPath.Join(TempDir(outdir), "temp-bolt") }

  /** What the driver is given: configuration values, the variant files by path, and what
      the queue prints: each stage's submission output and its status listings, poll by poll. */
  datatype Run = Run(
    chrListCfg: Option<string>, genBase: string, impBase: string, outdir: string, dataDir: string,
    chunksize: int, bimFiles: map<string, seq<string>>,
    plinkSubmitOut: string, plinkListings: seq<string>,
    boltSubmitOut: string, boltListings: seq<string>)

  /** What the driver does once the plink job has finished: the merge list it writes, where,
      and the plink command merging the coresets. */
  datatype CoresetMerge = CoresetMerge(listFile: string, listContent: string, command: string)

  /** How far the driver got. */
  datatype Progress =
    | PlinkStageRunning(plinkArray: string)
    | ChunkListFailed(plinkArray: string, merge: CoresetMerge, error: CatalogError)
    | BoltStageRunning(plinkArray: string, merge: CoresetMerge, chunkList: seq<Chunk>, boltArray: string)
    | Merging(plinkArray: string, merge: CoresetMerge, chunkList: seq<Chunk>, boltArray: string,
              boltFiles: seq<string>)

  /** The driver from `chr_list` to the list of files to merge. Each stage starts only
      after the previous stage's job id was missing from a status listing. */
  method Drive(run: Run) returns (p: Progress)
    ensures var chrs := ChromosomeList(run.chrListCfg);
            p.plinkArray == ArraySpec(|BaseList(run.genBase, chrs)|)
    ensures !p.PlinkStageRunning? ==>
              && (exists k :: 0 <= k < |run.plinkListings| && !Contains(run.plinkListings[k], JobId(run.plinkSubmitOut)))
              && var chrs := ChromosomeList(run.chrListCfg);
                 var listFile := MergeListPath(PlinkTempDir(run.outdir));
                 p.merge == CoresetMerge(listFile,
                                         LinesText(CoresetEntries(PlinkTempDir(run.outdir), BaseList(run.genBase, chrs))),
                                         MergeCommand(listFile, PlinkDir(run.outdir)))
    ensures p.ChunkListFailed? ==>
              ChunkList(run.dataDir, run.impBase, ChromosomeList(run.chrListCfg), run.bimFiles, run.chunksize)
              == Err(p.error)
    ensures p.BoltStageRunning? || p.Merging? ==>
              && ChunkList(run.dataDir, run.impBase, ChromosomeList(run.chrListCfg), run.bimFiles, run.chunksize)
                 == Ok(p.chunkList)
              && p.boltArray == ArraySpec(|p.chunkList|)
    ensures p.Merging? ==>
              && (exists k :: 0 <= k < |run.boltListings| && !Contains(run.boltListings[k], JobId(run.boltSubmitOut)))
              && |p.boltFiles| == |p.chunkList|
              && forall i :: 0 <= i < |p.chunkList| ==>
                   p.boltFiles[i] == MergeFile(BoltTempDir(run.outdir), run.impBase, p.chunkList[i])
  {
    var chrList := ChromosomeList(run.chrListCfg);
    var genBaseList := BaseList(run.genBase, chrList);
    var plinkTempdir := PlinkTempDir(run.outdir);
    var boltTempdir := BoltTempDir(run.outdir);

    // plink stage: one task per gen base
    var plinkArray := ArraySpec(|genBaseList|);
    var jobId := JobId(run.plinkSubmitOut);
    var plinkPoll := AwaitJob(jobId, run.plinkListings, PlinkPollSeconds);
    if plinkPoll.StillQueued? {
      return PlinkStageRunning(plinkArray);
    }
    var coresetListFile := MergeListPath(plinkTempdir);
    var content := CoresetListFile(plinkTempdir, genBaseList);
    var merge := CoresetMerge(coresetListFile, content, MergeCommand(coresetListFile, PlinkDir(run.outdir)));

    // bolt stage: one task per chunk
    var chunkList := BuildChunkList(run.dataDir, run.impBase, chrList, run.bimFiles, run.chunksize);
    if chunkList.Err? {
      return ChunkListFailed(plinkArray, merge, chunkList.error);
    }
    var boltArray := ArraySpec(|chunkList.value|);
    var jobId1 := JobId(run.boltSubmitOut);
    var boltPoll := AwaitJob(jobId1, run.boltListings, BoltPollSeconds);
    if boltPoll.StillQueued? {
      return BoltStageRunning(plinkArray, merge, chunkList.value, boltArray);
    }
    var boltFiles := BoltTempfileList(boltTempdir, run.impBase, chunkList.value);
    return Merging(plinkArray, merge, chunkList.value, boltArray, boltFiles);
  }
}
