/** The work-unit catalog the driver builds for the bolt stage: every chromosome's SNP
    positions cut, by count, into windows of `chunksize` positions, and all windows
    flattened, in chromosome order, into one `chunk_list`. */
module Catalog {
  import opened Results
  import opened PyStr
  import PyPath
  import PySeq

  /** A chromosome as `chr_list` holds it: a label taken from the configuration, or one of
      the default integers 1..22. */
  datatype Chrom = Label(name: string) | Number(n: nat)

  /** `str(chr)`. */
  function ChromText(c: Chrom): string
  {
    match c
    case Label(name) => name
    case Number(n) => NatToString(n)
  }

  /** One `chunk_list` entry `(chr, (lower_pos, upper_pos))`; positions are the text of
      the variant file's fourth column. */
  datatype Chunk = Chunk(chr: Chrom, lower: string, upper: string)

  /** Where building the list raises. */
  datatype CatalogError =
    | MissingBimFile(path: string)  // `open` fails
    | ShortBimLine(path: string)    // a line has fewer than four tab-separated fields
    | EmptyBimFile(path: string)    // `snp_array[0]` on an empty list
    | ZeroChunkSize(path: string)   // `-nsnps // chunksize` with `chunksize` 0: ZeroDivisionError
    | NegativeChunkSize(path: string) // a negative `chunksize` walks the indices off the list's start

  function Min(a: int, b: int): int
  {
    if a <= b then a else b
  }

  // ---------------------------------------------------------------------------
  // The windows, as index pairs

  /** The (lower index, upper index) windows the partition loop produces from the point
      where its lower index is `lo`, for `n` positions. */
  function Windows(lo: nat, n: nat, size: nat): (w: seq<(nat, nat)>)
    requires lo < n && size >= 1
    ensures |w| >= 1
    ensures forall k :: 0 <= k < |w| ==> lo <= w[k].0 <= w[k].1 < n
    decreases n - lo
  {
    if lo + size - 1 < n - 1 then [(lo, lo + size - 1)] + Windows(lo + size, n, size)
    else [(lo, n - 1)]
  }

  /** Window `k` starts `k` windows of `size` after `lo` and ends `size - 1` later, or at
      the last position, whichever comes first. */
  lemma {:induction false} WindowAt(lo: nat, n: nat, size: nat, k: nat)
    requires lo < n && size >= 1 && k < |Windows(lo, n, size)|
    ensures Windows(lo, n, size)[k] == (lo + k * size, Min(lo + k * size + size - 1, n - 1))
    decreases n - lo
  {
    if k > 0 {
      WindowAt(lo + size, n, size, k - 1);
      assert lo + size + (k - 1) * size == lo + k * size;
    }
  }

  /** Consecutive windows touch: the first starts at `lo`, window `k + 1` starts right
      after window `k` ends, and the last ends at the last position. */
  lemma {:induction false} WindowsContiguous(lo: nat, n: nat, size: nat, k: nat)
    requires lo < n && size >= 1 && k < |Windows(lo, n, size)|
    ensures Windows(lo, n, size)[0].0 == lo
    ensures var w := Windows(lo, n, size); w[|w| - 1].1 == n - 1
    ensures var w := Windows(lo, n, size); k + 1 < |w| ==> w[k + 1].0 == w[k].1 + 1
    decreases n - lo
  {
    var w := Windows(lo, n, size);
    if lo + size - 1 < n - 1 {
      var rest := Windows(lo + size, n, size);
      assert w[1..] == rest;
      WindowsContiguous(lo + size, n, size, if k > 0 then k - 1 else 0);
    }
  }

  /** Every window but the last holds exactly `size` positions; the last holds 1..size. */
  lemma {:induction false} WindowWidths(lo: nat, n: nat, size: nat)
    requires lo < n && size >= 1
    ensures var w := Windows(lo, n, size);
            && (forall k :: 0 <= k < |w| - 1 ==> w[k].1 - w[k].0 + 1 == size)
            && 1 <= w[|w| - 1].1 - w[|w| - 1].0 + 1 <= size
    decreases n - lo
  {
    var w := Windows(lo, n, size);
    if lo + size - 1 < n - 1 {
      WindowWidths(lo + size, n, size);
      assert w[1..] == Windows(lo + size, n, size);
    }
  }

  /** Total number of positions covered by a list of windows. */
  function Covered(w: seq<(nat, nat)>): int
  {
    if |w| == 0 then 0 else (w[0].1 - w[0].0 + 1) + Covered(w[1..])
  }

  /** The window sizes add up to the number of positions: each position is in exactly one
      window, since the windows are contiguous. */
  lemma {:induction false} WindowsCoverAll(lo: nat, n: nat, size: nat)
    requires lo < n && size >= 1
    ensures Covered(Windows(lo, n, size)) == n - lo
    decreases n - lo
  {
    var w := Windows(lo, n, size);
    if lo + size - 1 < n - 1 {
      WindowsCoverAll(lo + size, n, size);
      assert w[1..] == Windows(lo + size, n, size);
    }
  }

  /** There are ceil((n - lo) / size) windows: the fewest windows of `size` that reach
      `n - lo` positions. */
  lemma {:induction false} WindowCount(lo: nat, n: nat, size: nat)
    requires lo < n && size >= 1
    ensures (|Windows(lo, n, size)| - 1) * size < n - lo <= |Windows(lo, n, size)| * size
    decreases n - lo
  {
    var c := |Windows(lo, n, size)|;
    if lo + size - 1 < n - 1 {
      WindowCount(lo + size, n, size);
      assert c * size == (c - 1) * size + size;
      assert (c - 1) * size == (c - 2) * size + size;
    }
  }

  /** The driver's `nchunks = -1 * (-nsnps // chunksize)` is the number of windows. */
  lemma NChunksIsWindowCount(n: nat, size: nat)
    requires n >= 1 && size >= 1
    ensures |Windows(0, n, size)| == -1 * PySeq.FloorDiv(-(n as int), size)
  {
    WindowCount(0, n, size);
    var c := |Windows(0, n, size)|;
    var r := PySeq.FloorDiv(-(n as int), size);
    var q := -1 * r;
    // both c and q are the unique x with (x - 1) * size < n <= x * size
    assert r * size <= -(n as int) < r * size + size;
    assert q * size == -(r * size);
    assert (q - 1) * size == q * size - size;
    assert (c - 1) * size == c * size - size;
    if q < c {
      MulMono(q, c - 1, size);
    } else if c < q {
      MulMono(c, q - 1, size);
    }
  }

  lemma MulMono(a: int, b: int, size: nat)
    requires a <= b
    ensures a * size <= b * size
  {
    assert b * size - a * size == (b - a) * size;
  }

  // ---------------------------------------------------------------------------
  // From windows to chunks

  /** The chunks for windows `w` of `snps`, all tagged with `chr`. */
  function ChunksOf(chr: Chrom, snps: seq<string>, w: seq<(nat, nat)>): seq<Chunk>
    requires forall k :: 0 <= k < |w| ==> w[k].0 <= w[k].1 < |snps|
  {
    if |w| == 0 then []
    else [Chunk(chr, snps[w[0].0], snps[w[0].1])] + ChunksOf(chr, snps, w[1..])
  }

  lemma {:induction false} ChunksOfAt(chr: Chrom, snps: seq<string>, w: seq<(nat, nat)>)
    requires forall k :: 0 <= k < |w| ==> w[k].0 <= w[k].1 < |snps|
    ensures |ChunksOf(chr, snps, w)| == |w|
    ensures forall k :: 0 <= k < |w| ==>
              ChunksOf(chr, snps, w)[k] == Chunk(chr, snps[w[k].0], snps[w[k].1])
    decreases |w|
  {
    if |w| > 0 {
      ChunksOfAt(chr, snps, w[1..]);
    }
  }

  /** One chromosome's chunks: the windows of its positions, read back as positions. */
  function Partition(chr: Chrom, snps: seq<string>, size: nat): seq<Chunk>
    requires |snps| >= 1 && size >= 1
  {
    ChunksOf(chr, snps, Windows(0, |snps|, size))
  }

  /** There are ceil(n / size) chunks: the fewest windows of `size` that reach `n`. */
  lemma PartitionCount(chr: Chrom, snps: seq<string>, size: nat)
    requires |snps| >= 1 && size >= 1
    ensures (|Partition(chr, snps, size)| - 1) * size < |snps| <= |Partition(chr, snps, size)| * size
  {
    ChunksOfAt(chr, snps, Windows(0, |snps|, size));
    WindowCount(0, |snps|, size);
  }

  /** Chunk `k` runs from position `k * size` to position `k * size + size - 1`, or to the
      last position when that is earlier, and is tagged with the chromosome. */
  lemma PartitionAt(chr: Chrom, snps: seq<string>, size: nat, k: nat)
    requires |snps| >= 1 && size >= 1 && k < |Partition(chr, snps, size)|
    ensures k * size < |snps|
    ensures Partition(chr, snps, size)[k] ==
            Chunk(chr, snps[k * size], snps[Min(k * size + size - 1, |snps| - 1)])
  {
    var w := Windows(0, |snps|, size);
    ChunksOfAt(chr, snps, w);
    WindowAt(0, |snps|, size, k);
  }

  /** The first chunk starts at the first position and the last chunk ends at the last. */
  lemma PartitionEnds(chr: Chrom, snps: seq<string>, size: nat)
    requires |snps| >= 1 && size >= 1
    ensures var p := Partition(chr, snps, size);
            |p| >= 1 && p[0].lower == snps[0] && p[|p| - 1].upper == snps[|snps| - 1]
  {
    var w := Windows(0, |snps|, size);
    var p := Partition(chr, snps, size);
    ChunksOfAt(chr, snps, w);
    WindowsContiguous(0, |snps|, size, 0);
    assert p[0] == Chunk(chr, snps[w[0].0], snps[w[0].1]);
    assert p[|p| - 1] == Chunk(chr, snps[w[|w| - 1].0], snps[w[|w| - 1].1]);
  }

  /** Every chunk of a chromosome is tagged with that chromosome. */
  lemma PartitionTags(chr: Chrom, snps: seq<string>, size: nat)
    requires |snps| >= 1 && size >= 1
    ensures forall k :: 0 <= k < |Partition(chr, snps, size)| ==> Partition(chr, snps, size)[k].chr == chr
  {
    ChunksOfAt(chr, snps, Windows(0, |snps|, size));
  }

  /** With no more positions than `size`, the loop body never runs: one chunk (first, last). */
  lemma ShortChromosomeOneChunk(chr: Chrom, snps: seq<string>, size: nat)
    requires 1 <= |snps| <= size
    ensures Partition(chr, snps, size) == [Chunk(chr, snps[0], snps[|snps| - 1])]
  {
    var w := Windows(0, |snps|, size);
    assert w == [(0, |snps| - 1)];
    assert ChunksOf(chr, snps, w[1..]) == [];
  }

  /** The chunks the loop still emits once its lower index reaches `from`: the window at
      `from`, ending `size - 1` later or at the last position, then the rest from `from + size`. */
  function Rest(chr: Chrom, snps: seq<string>, from: nat, size: nat): seq<Chunk>
    requires size >= 1
    decreases |snps| - from
  {
    if from < |snps| then
      [Chunk(chr, snps[from], snps[Min(from + size - 1, |snps| - 1)])] + Rest(chr, snps, from + size, size)
    else []
  }

  /** What the loop emits from lower index `lo` on is exactly the windows from `lo`, read
      back as positions; from 0, it is the partition. */
  lemma {:induction false} RestIsWindows(chr: Chrom, snps: seq<string>, lo: nat, size: nat)
    requires lo < |snps| && size >= 1
    ensures Rest(chr, snps, lo, size) == ChunksOf(chr, snps, Windows(lo, |snps|, size))
    decreases |snps| - lo
  {
    var n := |snps|;
    var w := Windows(lo, n, size);
    if lo + size - 1 < n - 1 {
      RestIsWindows(chr, snps, lo + size, size);
      assert w[1..] == Windows(lo + size, n, size);
    } else {
      assert ChunksOf(chr, snps, w[1..]) == [];
    }
  }

  /** One turn of the loop: the chunks emitted so far, then the window at `lo` ending at
      `hi` or at the last position, then what follows from `hi + 1`. */
  lemma RestAdvance(chr: Chrom, snps: seq<string>, done: seq<Chunk>, lo: nat, hi: nat, size: nat)
    requires lo < |snps| && size >= 1 && hi == lo + size - 1
    ensures done + Rest(chr, snps, lo, size) ==
            (done + [Chunk(chr, snps[lo], snps[Min(hi, |snps| - 1)])]) + Rest(chr, snps, hi + 1, size)
  {
    var c := Chunk(chr, snps[lo], snps[Min(hi, |snps| - 1)]);
    var later := Rest(chr, snps, hi + 1, size);
    assert Rest(chr, snps, lo, size) == [c] + later;
    assert done + ([c] + later) == (done + [c]) + later;
  }

  /** The partition loop of the driver: a first window, then windows of `chunksize` while
      the upper index is short of the last position; an upper index at or past the end
      reads the last position (`snp_array[-1]`). */
  method PartitionChromosome(chr: Chrom, snps: seq<string>, chunksize: int)
    returns (chunks: seq<Chunk>)
    requires |snps| >= 1 && chunksize >= 1
    ensures chunks == Partition(chr, snps, chunksize)
  {
    var n := |snps|;
    var lowerIdx := 0;
    var upperIdx := chunksize - 1;
    var lowerPos := snps[lowerIdx];
    var upperPos := if upperIdx < n - 1 then snps[upperIdx] else snps[n - 1];
    chunks := [Chunk(chr, lowerPos, upperPos)];
    RestAdvance(chr, snps, [], 0, upperIdx, chunksize);
    assert [] + Rest(chr, snps, 0, chunksize) == Rest(chr, snps, 0, chunksize);
    assert [] + chunks == chunks;
    while upperIdx < n - 1
      invariant 0 <= lowerIdx < n && upperIdx == lowerIdx + chunksize - 1
      invariant Rest(chr, snps, 0, chunksize) == chunks + Rest(chr, snps, upperIdx + 1, chunksize)
      decreases n - upperIdx
    {
      ghost var before := chunks;
      lowerIdx := upperIdx + 1;
      upperIdx := upperIdx + chunksize;
      RestAdvance(chr, snps, before, lowerIdx, upperIdx, chunksize);
      ghost var next := Chunk(chr, snps[lowerIdx], snps[Min(upperIdx, n - 1)]);
      lowerPos := snps[lowerIdx];
      if upperIdx < n - 1 {
        upperPos := snps[upperIdx];
        assert Chunk(chr, lowerPos, upperPos) == next;
        chunks := chunks + [Chunk(chr, lowerPos, upperPos)];
      } else {
        upperPos := snps[n - 1];
        assert Chunk(chr, lowerPos, upperPos) == next;
        chunks := chunks + [Chunk(chr, lowerPos, upperPos)];
      }
    }
    assert Rest(chr, snps, upperIdx + 1, chunksize) == [];
    assert chunks + [] == chunks;
    RestIsWindows(chr, snps, 0, chunksize);
  }

  /** The same loop with a negative `chunksize`. The upper index starts below zero and only
      falls, so it never reaches the last position and the loop never ends by its test;
      Python's negative indexing reads from the end of `snp_array` until the upper index
      falls off its start and raises IndexError. The lower index, one past the previous
      upper one, is always in range. Returns the index that raises. */
  method PartitionBackwards(chr: Chrom, snps: seq<string>, chunksize: int) returns (badIndex: int)
    requires |snps| >= 1 && chunksize < 0
    ensures badIndex < -|snps|
  {
    var n := |snps|;
    var chunks: seq<Chunk> := [];
    var lowerIdx := 0;
    var upperIdx := chunksize - 1;
    var lowerPos := snps[lowerIdx];
    var upperPos := PySeq.Index(snps, if upperIdx < n - 1 then upperIdx else -1);
    if upperPos.None? {
      return upperIdx;
    }
    chunks := chunks + [Chunk(chr, lowerPos, upperPos.value)];
    while upperIdx < n - 1
      invariant -n <= upperIdx < 0
      decreases upperIdx + n
    {
      lowerIdx := upperIdx + 1;
      upperIdx := upperIdx + chunksize;
      lowerPos := PySeq.Index(snps, lowerIdx).value;
      upperPos := PySeq.Index(snps, if upperIdx < n - 1 then upperIdx else -1);
      if upperPos.None? {
        return upperIdx;
      }
      chunks := chunks + [Chunk(chr, lowerPos, upperPos.value)];
    }
    assert false;
  }

  // ---------------------------------------------------------------------------
  // The flat chunk list over all chromosomes

  /** `os.path.join(data_dir, imp_base + str(chr) + '.bim')`. */
  function BimPath(dataDir: string, impBase: string, c: Chrom): string
  {
    PyPath.Join(dataDir, impBase + ChromText(c) + ".bim")
  }

  /** `list(map(lambda snp: snp.split('\t')[3], lines))`: the fourth tab-separated field of
      every line, or `None` when some line has fewer than four. */
  function SnpPositions(lines: seq<string>): (r: Option<seq<string>>)
    ensures r.Some? <==> forall i :: 0 <= i < |lines| ==> |Split(lines[i], '\t')| >= 4
    ensures r.Some? ==> (|r.value| == |lines| &&
              forall i :: 0 <= i < |lines| ==> r.value[i] == Split(lines[i], '\t')[3])
    decreases |lines|
  {
    if |lines| == 0 then Some([])
    else
      var fields := Split(lines[0], '\t');
      if |fields| < 4 then None
      else match SnpPositions(lines[1..])
        case None => None
        case Some(rest) => Some([fields[3]] + rest)
  }

  /** The chunks of one chromosome, read from the variant files `bimFiles` (path to lines),
      with the exceptions in the order the driver meets them: opening the file, reading
      the fourth field of each line, the chunk count's division, the first position, and
      the partition loop. */
  function ChromosomeChunks(dataDir: string, impBase: string, c: Chrom,
                            bimFiles: map<string, seq<string>>, size: int): Result<seq<Chunk>, CatalogError>
  {
    var path := BimPath(dataDir, impBase, c);
    if path !in bimFiles then Err(MissingBimFile(path))
    else match SnpPositions(bimFiles[path])
      case None => Err(ShortBimLine(path))
      case Some(snps) =>
        if size == 0 then Err(ZeroChunkSize(path))
        else if |snps| == 0 then Err(EmptyBimFile(path))
        else if size < 0 then Err(NegativeChunkSize(path))
        else Ok(Partition(c, snps, size))
  }

  /** Each chromosome's chunks or error, in `chr_list` order. */
  function PerChromosome(dataDir: string, impBase: string, chrs: seq<Chrom>,
                         bimFiles: map<string, seq<string>>, size: int): (rs: seq<Result<seq<Chunk>, CatalogError>>)
    ensures |rs| == |chrs|
    ensures forall j :: 0 <= j < |chrs| ==> rs[j] == ChromosomeChunks(dataDir, impBase, chrs[j], bimFiles, size)
  {
    seq(|chrs|, j requires 0 <= j < |chrs| => ChromosomeChunks(dataDir, impBase, chrs[j], bimFiles, size))
  }

  /** The concatenation of successful parts, or the first error. */
  function Flatten(rs: seq<Result<seq<Chunk>, CatalogError>>): Result<seq<Chunk>, CatalogError>
    decreases |rs|
  {
    if |rs| == 0 then Ok([])
    else match Flatten(rs[..|rs| - 1])
      case Err(e) => Err(e)
      case Ok(prefix) =>
        match rs[|rs| - 1]
        case Err(e) => Err(e)
        case Ok(cs) => Ok(prefix + cs)
  }

  /** `chunk_list`: every chromosome's chunks, in `chr_list` order; the first chromosome
      that fails decides the error. */
  function ChunkList(dataDir: string, impBase: string, chrs: seq<Chrom>,
                     bimFiles: map<string, seq<string>>, size: int): Result<seq<Chunk>, CatalogError>
  {
    Flatten(PerChromosome(dataDir, impBase, chrs, bimFiles, size))
  }

  /** Once a prefix of the parts fails, the whole fails the same way. */
  lemma {:induction false} FlattenErrorPersists(rs: seq<Result<seq<Chunk>, CatalogError>>, j: nat)
    requires j <= |rs| && Flatten(rs[..j]).Err?
    ensures Flatten(rs) == Flatten(rs[..j])
    decreases |rs| - j
  {
    if j < |rs| {
      assert rs[..|rs| - 1][..j] == rs[..j];
      FlattenErrorPersists(rs[..|rs| - 1], j);
    } else {
      assert rs[..j] == rs;
    }
  }

  /** Part `j` of a successful flattening sits, in order, right after all earlier parts. */
  lemma {:induction false} FlattenSlice(rs: seq<Result<seq<Chunk>, CatalogError>>, j: nat)
    requires j < |rs| && Flatten(rs).Ok?
    ensures Flatten(rs[..j]).Ok? && rs[j].Ok?
    ensures |Flatten(rs[..j]).value| + |rs[j].value| <= |Flatten(rs).value|
    ensures Flatten(rs).value[|Flatten(rs[..j]).value|..|Flatten(rs[..j]).value| + |rs[j].value|] == rs[j].value
    decreases |rs|
  {
    var pre := rs[..|rs| - 1];
    var all := Flatten(rs).value;
    if j < |rs| - 1 {
      FlattenSlice(pre, j);
      assert pre[..j] == rs[..j];
      var lo := |Flatten(rs[..j]).value|;
      var hi := lo + |rs[j].value|;
      assert all[lo..hi] == Flatten(pre).value[lo..hi];
    } else {
      assert rs[..j] == pre;
    }
  }

  /** A chromosome's chunks are all tagged with that chromosome. */
  lemma ChromosomeChunksTagged(dataDir: string, impBase: string, c: Chrom,
                               bimFiles: map<string, seq<string>>, size: int)
    requires ChromosomeChunks(dataDir, impBase, c, bimFiles, size).Ok?
    ensures forall k :: 0 <= k < |ChromosomeChunks(dataDir, impBase, c, bimFiles, size).value| ==>
              ChromosomeChunks(dataDir, impBase, c, bimFiles, size).value[k].chr == c
  {
    var snps := SnpPositions(bimFiles[BimPath(dataDir, impBase, c)]).value;
    PartitionTags(c, snps, size);
  }

  /** Chromosome `j`'s chunks sit, in order, right after the chunks of all chromosomes
      before it: the list is the concatenation of the chromosomes' partitions in
      `chr_list` order. */
  lemma ChunkListSlice(dataDir: string, impBase: string, chrs: seq<Chrom>,
                       bimFiles: map<string, seq<string>>, size: int, j: nat)
    requires j < |chrs|
    requires ChunkList(dataDir, impBase, chrs, bimFiles, size).Ok?
    ensures ChunkList(dataDir, impBase, chrs[..j], bimFiles, size).Ok?
    ensures ChromosomeChunks(dataDir, impBase, chrs[j], bimFiles, size).Ok?
    ensures var all := ChunkList(dataDir, impBase, chrs, bimFiles, size).value;
            var lo := |ChunkList(dataDir, impBase, chrs[..j], bimFiles, size).value|;
            var mine := ChromosomeChunks(dataDir, impBase, chrs[j], bimFiles, size).value;
            lo + |mine| <= |all| && all[lo..lo + |mine|] == mine
  {
    var rs := PerChromosome(dataDir, impBase, chrs, bimFiles, size);
    FlattenSlice(rs, j);
    assert PerChromosome(dataDir, impBase, chrs[..j], bimFiles, size) == rs[..j];
  }

  /** The entries of chromosome `j` of `chr_list` are tagged with it. */
  lemma ChunkListTags(dataDir: string, impBase: string, chrs: seq<Chrom>,
                      bimFiles: map<string, seq<string>>, size: int, j: nat)
    requires j < |chrs|
    requires ChunkList(dataDir, impBase, chrs, bimFiles, size).Ok?
    ensures ChunkList(dataDir, impBase, chrs[..j], bimFiles, size).Ok?
    ensures ChromosomeChunks(dataDir, impBase, chrs[j], bimFiles, size).Ok?
    ensures var all := ChunkList(dataDir, impBase, chrs, bimFiles, size).value;
            var lo := |ChunkList(dataDir, impBase, chrs[..j], bimFiles, size).value|;
            var hi := lo + |ChromosomeChunks(dataDir, impBase, chrs[j], bimFiles, size).value|;
            hi <= |all| && forall t :: lo <= t < hi ==> all[t].chr == chrs[j]
  {
    var rs := PerChromosome(dataDir, impBase, chrs, bimFiles, size);
    assert PerChromosome(dataDir, impBase, chrs[..j], bimFiles, size) == rs[..j];
    FlattenSlice(rs, j);
    ChromosomeChunksTagged(dataDir, impBase, chrs[j], bimFiles, size);
    FlattenTagged(rs, j, chrs[j]);
  }

  /** Part `j` of a successful flattening, when all its chunks carry tag `c`, keeps that
      tag at its place in the whole. */
  lemma FlattenTagged(rs: seq<Result<seq<Chunk>, CatalogError>>, j: nat, c: Chrom)
    requires j < |rs| && Flatten(rs).Ok? && Flatten(rs[..j]).Ok? && rs[j].Ok?
    requires forall k :: 0 <= k < |rs[j].value| ==> rs[j].value[k].chr == c
    ensures var lo := |Flatten(rs[..j]).value|;
            var hi := lo + |rs[j].value|;
            hi <= |Flatten(rs).value| && forall t :: lo <= t < hi ==> Flatten(rs).value[t].chr == c
  {
    FlattenSlice(rs, j);
    var all := Flatten(rs).value;
    var lo := |Flatten(rs[..j]).value|;
    var mine := rs[j].value;
    forall t | lo <= t < lo + |mine|
      ensures all[t].chr == c
    {
      assert all[t] == all[lo..lo + |mine|][t - lo];
    }
  }

  /** One more part: appended when it succeeds; when it fails, it is the whole result. */
  lemma FlattenExtend(rs: seq<Result<seq<Chunk>, CatalogError>>, idx: nat, prefix: seq<Chunk>)
    requires idx < |rs| && Flatten(rs[..idx]) == Ok(prefix)
    ensures rs[idx].Ok? ==> Flatten(rs[..idx + 1]) == Ok(prefix + rs[idx].value)
    ensures rs[idx].Err? ==> Flatten(rs) == rs[idx]
  {
    assert rs[..idx + 1][..idx] == rs[..idx];
    if rs[idx].Err? {
      FlattenErrorPersists(rs, idx + 1);
    }
  }

  /** The driver's loop over `chr_list`, appending each chromosome's chunks. */
  method BuildChunkList(dataDir: string, impBase: string, chrs: seq<Chrom>,
                        bimFiles: map<string, seq<string>>, chunksize: int)
    returns (r: Result<seq<Chunk>, CatalogError>)
    ensures r == ChunkList(dataDir, impBase, chrs, bimFiles, chunksize)
  {
    ghost var rs := PerChromosome(dataDir, impBase, chrs, bimFiles, chunksize);
    var chunkList: seq<Chunk> := [];
    for idx := 0 to |chrs|
      invariant Flatten(rs[..idx]) == Ok(chunkList)
    {
      FlattenExtend(rs, idx, chunkList);
      var c := chrs[idx];
      var snpsFile := BimPath(dataDir, impBase, c);
      if snpsFile !in bimFiles {
        return Err(MissingBimFile(snpsFile));
      }
      var snpArray := SnpPositions(bimFiles[snpsFile]);
      if snpArray.None? {
        return Err(ShortBimLine(snpsFile));
      }
      if chunksize == 0 {
        return Err(ZeroChunkSize(snpsFile));
      }
      if |snpArray.value| == 0 {
        return Err(EmptyBimFile(snpsFile));
      }
      if chunksize < 0 {
        var badIndex := PartitionBackwards(c, snpArray.value, chunksize);
        return Err(NegativeChunkSize(snpsFile));
      }
      var chunks := PartitionChromosome(c, snpArray.value, chunksize);
      chunkList := chunkList + chunks;
    }
    assert rs[..|chrs|] == rs;
    r := Ok(chunkList);
  }
}
