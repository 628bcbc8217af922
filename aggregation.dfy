/**
 * The tail of `spectrum`: every rank solves its brigade's jobs, the lists
 * are gathered on rank 0, rank 0 keeps one copy per brigade (the list of the
 * brigade's first rank), concatenates them, splits each (G, meta) result
 * and reshapes the values into an |k| × |w| grid.
 */
module Aggregation {
  import opened Wrappers
  import opened Seqs
  import opened Topology
  import opened Jobs

  /** What `spectrum` returns on a rank. */
  datatype Spectrum<G, M> =
    | NoResult                                   // every rank but 0 returns None
    | Grid(grid: seq<seq<G>>)
    | GridAndMeta(grid: seq<seq<G>>, meta: seq<M>)
    | ReshapeError                               // the values do not fill an |k| × |w| grid

  function MapSeq<A, B>(f: A -> B, xs: seq<A>): (ys: seq<B>)
    ensures |ys| == |xs|
    ensures forall i :: 0 <= i < |xs| ==> ys[i] == f(xs[i])
  {
    seq(|xs|, i requires 0 <= i < |xs| => f(xs[i]))
  }

  /** The loop of `spectrum` that solves this brigade's jobs one by one. */
  method SolveJobs<J, R>(jobs: seq<J>, solve: J -> R) returns (s: seq<R>)
    ensures s == MapSeq(solve, jobs)
  {
    s := [];
    var i := 0;
    while i < |jobs|
      invariant 0 <= i <= |jobs|
      invariant |s| == i
      invariant forall p :: 0 <= p < i ==> s[p] == solve(jobs[p])
    {
      s := s + [solve(jobs[i])];
      i := i + 1;
    }
  }

  /** If the last brigade's first rank is in the list, so is the one before. */
  lemma LeadBound(brigades: nat, brigadeSize: nat, len: nat)
    requires brigades > 1 && (brigades - 1) * brigadeSize < len
    ensures (brigades - 2) * brigadeSize < len
  {
    MulLe(brigades - 2, brigades - 1, brigadeSize);
  }

  /** The results rank 0 keeps: with brigades of more than one rank, the
      lists of ranks 0, B, 2B, ... (one per brigade; the other ranks of a
      brigade hold copies); otherwise every rank's list. */
  function BrigadeLeads<T>(all: seq<T>, brigadeSize: nat, brigades: nat): (r: seq<T>)
    requires brigadeSize > 1 && brigades > 0 ==> (brigades - 1) * brigadeSize < |all|
    ensures brigadeSize > 1 ==> |r| == brigades
    ensures brigadeSize <= 1 ==> r == all
    decreases brigades
  {
    if brigadeSize <= 1 then all
    else if brigades == 0 then []
    else
      var last := (brigades - 1) * brigadeSize;
      if brigades == 1 then [all[last]]
      else
        LeadBound(brigades, brigadeSize, |all|);
        BrigadeLeads(all, brigadeSize, brigades - 1) + [all[last]]
  }

  /** Brigade n's entry is the list of rank n·B. */
  lemma {:induction false} BrigadeLeadAt<T>(all: seq<T>, brigadeSize: nat, brigades: nat, n: nat)
    requires brigadeSize > 1 && n < brigades && (brigades - 1) * brigadeSize < |all|
    ensures n * brigadeSize < |all|
    ensures BrigadeLeads(all, brigadeSize, brigades)[n] == all[n * brigadeSize]
    decreases brigades
  {
    if n < brigades - 1 {
      LeadBound(brigades, brigadeSize, |all|);
      BrigadeLeadAt(all, brigadeSize, brigades - 1, n);
    }
  }

  /** The selection loop of `spectrum` on rank 0. */
  method SelectLeads<T>(all: seq<T>, brigadeSize: nat, brigades: nat) returns (results: seq<T>)
    requires brigadeSize > 1 && brigades > 0 ==> (brigades - 1) * brigadeSize < |all|
    ensures results == BrigadeLeads(all, brigadeSize, brigades)
  {
    if brigadeSize > 1 {
      results := [];
      var n := 0;
      while n < brigades
        invariant n <= brigades
        invariant results == BrigadeLeads(all, brigadeSize, n)
      {
        MulLe(n, brigades - 1, brigadeSize);
        results := results + [all[n * brigadeSize]];
        n := n + 1;
      }
    } else {
      results := all;
    }
  }

  /** The gathered list has one entry per rank, so every brigade's first
      rank n·B is in it. */
  lemma LeadsInRange(cfg: Config, worldSize: nat)
    requires cfg.brigadeSizeArg != Some(0) && worldSize == cfg.worldSize
    ensures BrigadeSize(cfg) > 1 && Brigades(cfg) > 0 ==>
      (Brigades(cfg) - 1) * BrigadeSize(cfg) < worldSize
  {
    BrigadeAccessors(cfg, 0);
    if cfg.brigadeSizeArg.Some? && Brigades(cfg) > 0 {
      var b, m := cfg.brigadeSizeArg.value, Brigades(cfg);
      assert (m - 1) * b + b == m * b;
    }
  }

  /** The lists rank 0 keeps, for the solver's brigade layout. */
  function Leads<R>(cfg: Config, allResults: seq<seq<R>>): seq<seq<R>>
    requires cfg.brigadeSizeArg != Some(0) && |allResults| == cfg.worldSize
  {
    LeadsInRange(cfg, |allResults|);
    BrigadeLeads(allResults, BrigadeSize(cfg), Brigades(cfg))
  }

  /** The sum over brigades n < brigades of |all[n·B]| with brigades of more
      than one rank, and of every rank's length otherwise. */
  function KeptLength<T>(all: seq<seq<T>>, brigadeSize: nat, brigades: nat): nat
    requires brigadeSize > 1 && brigades > 0 ==> (brigades - 1) * brigadeSize < |all|
    decreases brigades
  {
    if brigadeSize <= 1 then LengthSum(all)
    else if brigades == 0 then 0
    else if brigades == 1 then |all[0]|
    else
      LeadBound(brigades, brigadeSize, |all|);
      KeptLength(all, brigadeSize, brigades - 1) + |all[(brigades - 1) * brigadeSize]|
  }

  /** The kept lists hold `KeptLength` results in total. */
  lemma {:induction false} BrigadeLeadsLength<T>(all: seq<seq<T>>, brigadeSize: nat, brigades: nat)
    requires brigadeSize > 1 && brigades > 0 ==> (brigades - 1) * brigadeSize < |all|
    ensures LengthSum(BrigadeLeads(all, brigadeSize, brigades)) == KeptLength(all, brigadeSize, brigades)
    decreases brigades
  {
    if brigadeSize > 1 && brigades > 0 {
      var last := (brigades - 1) * brigadeSize;
      if brigades == 1 {
        LengthSumSnoc([], all[last]);
      } else {
        LeadBound(brigades, brigadeSize, |all|);
        BrigadeLeadsLength(all, brigadeSize, brigades - 1);
        LengthSumSnoc(BrigadeLeads(all, brigadeSize, brigades - 1), all[last]);
      }
    }
  }

  /** The total length of the lists rank 0 keeps, for the solver's layout. */
  function KeptCount<R>(cfg: Config, allResults: seq<seq<R>>): nat
    requires cfg.brigadeSizeArg != Some(0) && |allResults| == cfg.worldSize
  {
    LeadsInRange(cfg, |allResults|);
    KeptLength(allResults, BrigadeSize(cfg), Brigades(cfg))
  }

  /** The results of rank 0 after de-duplication and concatenation, in order. */
  function Gathered<R>(cfg: Config, allResults: seq<seq<R>>): seq<R>
    requires cfg.brigadeSizeArg != Some(0) && |allResults| == cfg.worldSize
  {
    Flatten(Leads(cfg, allResults))
  }

  /** Rank 0 ends with as many results as the kept lists hold in total. */
  lemma GatheredLength<R>(cfg: Config, allResults: seq<seq<R>>)
    requires cfg.brigadeSizeArg != Some(0) && |allResults| == cfg.worldSize
    ensures |Gathered(cfg, allResults)| == KeptCount(cfg, allResults)
  {
    LeadsInRange(cfg, |allResults|);
    FlattenLength(Leads(cfg, allResults));
    BrigadeLeadsLength(allResults, BrigadeSize(cfg), Brigades(cfg));
  }

  /** `[xx[0] for xx in results]`. */
  function Values<G, M>(results: seq<(G, M)>): (s: seq<G>)
    ensures |s| == |results| && forall i :: 0 <= i < |results| ==> s[i] == results[i].0
  {
    seq(|results|, i requires 0 <= i < |results| => results[i].0)
  }

  /** `[xx[1] for xx in results]`. */
  function Metas<G, M>(results: seq<(G, M)>): (s: seq<M>)
    ensures |s| == |results| && forall i :: 0 <= i < |results| ==> s[i] == results[i].1
  {
    seq(|results|, i requires 0 <= i < |results| => results[i].1)
  }

  /** `reshape(rows, cols)`: row-major, defined only when the sizes agree. */
  function Reshape<T>(flat: seq<T>, rows: nat, cols: nat): (r: Option<seq<seq<T>>>)
    ensures r.Some? <==> |flat| == rows * cols
    ensures r.Some? ==> |r.value| == rows
    ensures r.Some? ==> forall i :: 0 <= i < rows ==> |r.value[i]| == cols
    decreases rows
  {
    if |flat| != rows * cols then None
    else if rows == 0 then Some([])
    else
      assert rows * cols == (rows - 1) * cols + cols;
      var cut := (rows - 1) * cols;
      Some(Reshape(flat[..cut], rows - 1, cols).value + [flat[cut..]])
  }

  /** Reshaping loses nothing: concatenating the rows gives back the list. */
  lemma {:induction false} ReshapeRoundTrip<T>(flat: seq<T>, rows: nat, cols: nat)
    requires |flat| == rows * cols
    ensures Flatten(Reshape(flat, rows, cols).value) == flat
    decreases rows
  {
    if rows > 0 {
      assert rows * cols == (rows - 1) * cols + cols;
      var cut := (rows - 1) * cols;
      var g := Reshape(flat, rows, cols).value;
      ReshapeRoundTrip(flat[..cut], rows - 1, cols);
      assert g[..rows - 1] == Reshape(flat[..cut], rows - 1, cols).value;
      assert flat[..cut] + flat[cut..] == flat;
    }
  }

  /** Row-major layout: entry (i, j) of the grid is element i·cols + j. */
  lemma {:induction false} ReshapeAt<T>(flat: seq<T>, rows: nat, cols: nat, i: nat, j: nat)
    requires |flat| == rows * cols && i < rows && j < cols
    ensures i * cols + j < |flat|
    ensures Reshape(flat, rows, cols).value[i][j] == flat[i * cols + j]
    decreases rows
  {
    var cut := (rows - 1) * cols;
    assert |flat| == cut + cols by {
      assert rows * cols == (rows - 1) * cols + cols;
    }
    var front := flat[..cut];
    assert Reshape(flat, rows, cols).value == Reshape(front, rows - 1, cols).value + [flat[cut..]];
    if i < rows - 1 {
      assert i * cols + j < cut by {
        MulLe(i + 1, rows - 1, cols);
        assert (i + 1) * cols == i * cols + cols;
      }
      ReshapeAt(front, rows - 1, cols, i, j);
    } else {
      assert i * cols == cut;
    }
  }

  /** Rank 0's part of `spectrum` after the gather (every other rank returns
      nothing): select the brigades' lists, concatenate, split values from
      meta data, reshape. */
  method Aggregate<G, M>(cfg: Config, mpiRank: nat, allResults: seq<seq<(G, M)>>,
                         nk: nat, nw: nat, returnMeta: bool)
    returns (out: Spectrum<G, M>)
    requires cfg.brigadeSizeArg != Some(0) && |allResults| == cfg.worldSize
    ensures mpiRank != 0 ==> out == NoResult
    ensures mpiRank == 0 ==>
      var gathered := Gathered(cfg, allResults);
      match Reshape(Values(gathered), nk, nw)
      case None => out == ReshapeError
      case Some(g) => out == if returnMeta then GridAndMeta(g, Metas(gathered)) else Grid(g)
    ensures mpiRank == 0 ==> (out == ReshapeError <==> KeptCount(cfg, allResults) != nk * nw)
  {
    if mpiRank != 0 {
      return NoResult;
    }
    GatheredLength(cfg, allResults);
    LeadsInRange(cfg, |allResults|);
    var results := SelectLeads(allResults, BrigadeSize(cfg), Brigades(cfg));
    var flat := Flatten(results);
    var res := Reshape(Values(flat), nk, nw);
    if res.None? {
      return ReshapeError;
    }
    if returnMeta {
      return GridAndMeta(res.value, Metas(flat));
    }
    return Grid(res.value);
  }

  /** What `chunk_jobs` is relied on for: with several brigades, the chunks
      of brigades 0, 1, ... concatenate back to the job list. */
  ghost predicate ChunksCover<J>(jobs: seq<J>, brigades: nat, chunkJobs: (seq<J>, nat, nat) -> seq<J>)
  {
    brigades > 1 ==> Flatten(Chunks(jobs, brigades, chunkJobs)) == jobs
  }

  /** The chunks `chunk_jobs` hands to brigades 0, 1, ..., brigades - 1. */
  function Chunks<J>(jobs: seq<J>, brigades: nat, chunkJobs: (seq<J>, nat, nat) -> seq<J>): (c: seq<seq<J>>)
    ensures |c| == brigades
    ensures forall n :: 0 <= n < brigades ==> c[n] == chunkJobs(jobs, brigades, n)
  {
    seq(brigades, n requires 0 <= n < brigades => chunkJobs(jobs, brigades, n))
  }

  /** Solving block by block and concatenating is solving the concatenation. */
  lemma {:induction false} FlattenMap<A, B>(f: A -> B, xss: seq<seq<A>>, yss: seq<seq<B>>)
    requires |yss| == |xss|
    requires forall n :: 0 <= n < |xss| ==> yss[n] == MapSeq(f, xss[n])
    ensures Flatten(yss) == MapSeq(f, Flatten(xss))
    decreases |xss|
  {
    if xss != [] {
      var k := |xss| - 1;
      FlattenMap(f, xss[..k], yss[..k]);
    }
  }

  /** The first rank of brigade n computed brigade n's jobs. */
  lemma LeadComputes(cfg: Config, n: nat)
    requires cfg.worldSize > 0 && cfg.brigadeSizeArg != Some(0) && n < Brigades(cfg)
    ensures var lead := if BrigadeSize(cfg) > 1 then n * BrigadeSize(cfg) else n;
      lead < cfg.worldSize && (Brigades(cfg) > 1 ==> MpiBrigade(cfg, lead) == n)
  {
    BrigadeAccessors(cfg, 0);
    if cfg.brigadeSizeArg.Some? {
      var b, m := cfg.brigadeSizeArg.value, Brigades(cfg);
      MulLe(n + 1, m, b);
      assert (n + 1) * b == n * b + b;
      QuotientIs(n * b, b, n);
    }
  }

  /** The list rank 0 keeps for brigade n is the solutions of brigade n's jobs. */
  lemma LeadResults<J, R>(cfg: Config, jobs: seq<J>, chunkJobs: (seq<J>, nat, nat) -> seq<J>,
                          solve: J -> R, allResults: seq<seq<R>>, n: nat)
    requires cfg.worldSize > 0 && cfg.brigadeSizeArg != Some(0) && n < Brigades(cfg)
    requires |allResults| == cfg.worldSize
    requires forall r :: 0 <= r < cfg.worldSize ==>
      allResults[r] == MapSeq(solve, JobsOnThisBrigade(cfg, r, jobs, chunkJobs))
    ensures var leads := Leads(cfg, allResults);
      && n < |leads|
      && leads[n] == MapSeq(solve, if Brigades(cfg) == 1 then jobs else chunkJobs(jobs, Brigades(cfg), n))
  {
    var B, m := BrigadeSize(cfg), Brigades(cfg);
    LeadsInRange(cfg, |allResults|);
    BrigadeAccessors(cfg, 0);
    LeadComputes(cfg, n);
    var lead := if B > 1 then n * B else n;
    var leads := Leads(cfg, allResults);
    if B <= 1 && cfg.brigadeSizeArg.Some? {
      assert cfg.brigadeSizeArg.value == 1;
    }
    if B > 1 {
      BrigadeLeadAt(allResults, B, m, n);
    }
    assert n < |leads| && leads[n] == allResults[lead];
    assert JobsOnThisBrigade(cfg, lead, jobs, chunkJobs)
        == if m == 1 then jobs else chunkJobs(jobs, m, n);
  }

  /** End to end, on the values the gathered lists hold: when each rank's
      list is the solutions of its brigade's jobs and the chunks cover the
      job list, rank 0 recovers the solutions of the whole job list, in
      job order, each exactly once. */
  lemma GatheredIsAllJobs<J, R>(cfg: Config, jobs: seq<J>, chunkJobs: (seq<J>, nat, nat) -> seq<J>,
                                solve: J -> R, allResults: seq<seq<R>>)
    requires cfg.worldSize > 0 && cfg.brigadeSizeArg != Some(0) && Brigades(cfg) > 0
    requires ChunksCover(jobs, Brigades(cfg), chunkJobs)
    requires |allResults| == cfg.worldSize
    requires forall r :: 0 <= r < cfg.worldSize ==>
      allResults[r] == MapSeq(solve, JobsOnThisBrigade(cfg, r, jobs, chunkJobs))
    ensures Gathered(cfg, allResults) == MapSeq(solve, jobs)
  {
    var m := Brigades(cfg);
    LeadsInRange(cfg, |allResults|);
    var leads := Leads(cfg, allResults);
    var chunks := if m == 1 then [jobs] else Chunks(jobs, m, chunkJobs);
    LeadResults(cfg, jobs, chunkJobs, solve, allResults, 0);
    assert |leads| == m;
    forall n | 0 <= n < m
      ensures leads[n] == MapSeq(solve, chunks[n])
    {
      LeadResults(cfg, jobs, chunkJobs, solve, allResults, n);
    }
    FlattenMap(solve, chunks, leads);
    if m == 1 {
      assert Flatten(chunks) == Flatten(chunks[..0]) + chunks[0];
    }
  }

  /** The solutions of the job list, in job order, reshape into the grid
      whose entry (i, j) is the value solved at (k[i], w[j]). */
  lemma GridOfJobList<K, F, G, M>(ks: seq<K>, ws: seq<F>, solve: ((K, F)) -> (G, M), solved: seq<(G, M)>)
    requires solved == MapSeq(solve, JobList(ks, ws))
    ensures Reshape(Values(solved), |ks|, |ws|).Some?
    ensures forall i, j :: 0 <= i < |ks| && 0 <= j < |ws| ==>
      Reshape(Values(solved), |ks|, |ws|).value[i][j] == solve((ks[i], ws[j])).0
  {
    JobListLength(ks, ws);
    forall i, j | 0 <= i < |ks| && 0 <= j < |ws|
      ensures Reshape(Values(solved), |ks|, |ws|).value[i][j] == solve((ks[i], ws[j])).0
    {
      GridEntry(ks, ws, solve, solved, i, j);
    }
  }

  lemma GridEntry<K, F, G, M>(ks: seq<K>, ws: seq<F>, solve: ((K, F)) -> (G, M), solved: seq<(G, M)>, i: nat, j: nat)
    requires solved == MapSeq(solve, JobList(ks, ws))
    requires |solved| == |ks| * |ws| && i < |ks| && j < |ws|
    ensures Reshape(Values(solved), |ks|, |ws|).value[i][j] == solve((ks[i], ws[j])).0
  {
    ReshapeAt(Values(solved), |ks|, |ws|, i, j);
    SolvedAt(ks, ws, solve, solved, i, j);
  }

  lemma SolvedAt<K, F, G, M>(ks: seq<K>, ws: seq<F>, solve: ((K, F)) -> (G, M), solved: seq<(G, M)>, i: nat, j: nat)
    requires solved == MapSeq(solve, JobList(ks, ws))
    requires i < |ks| && j < |ws|
    ensures i * |ws| + j < |solved| && Values(solved)[i * |ws| + j] == solve((ks[i], ws[j])).0
  {
    JobListAt(ks, ws, i, j);
    MulLe(0, i, |ws|);
  }

  /** The spectrum grid: for the job list of `spectrum`, entry (i, j) of
      the grid rank 0 returns is the value solved at (k[i], w[j]). */
  lemma SpectrumGrid<K, F, G, M>(cfg: Config, ks: seq<K>, ws: seq<F>,
                                 chunkJobs: (seq<(K, F)>, nat, nat) -> seq<(K, F)>,
                                 solve: ((K, F)) -> (G, M), allResults: seq<seq<(G, M)>>)
    requires cfg.worldSize > 0 && cfg.brigadeSizeArg != Some(0) && Brigades(cfg) > 0
    requires ChunksCover(JobList(ks, ws), Brigades(cfg), chunkJobs)
    requires |allResults| == cfg.worldSize
    requires forall r :: 0 <= r < cfg.worldSize ==>
      allResults[r] == MapSeq(solve, JobsOnThisBrigade(cfg, r, JobList(ks, ws), chunkJobs))
    ensures Reshape(Values(Gathered(cfg, allResults)), |ks|, |ws|).Some?
    ensures forall i, j :: 0 <= i < |ks| && 0 <= j < |ws| ==>
      Reshape(Values(Gathered(cfg, allResults)), |ks|, |ws|).value[i][j] == solve((ks[i], ws[j])).0
  {
    GatheredIsAllJobs(cfg, JobList(ks, ws), chunkJobs, solve, allResults);
    GridOfJobList(ks, ws, solve, Gathered(cfg, allResults));
  }
}
