/**
 * The job list of `spectrum` and its assignment to brigades.
 */
module Jobs {
  import opened Wrappers
  import opened Topology

  /** The jobs (k, w) for one k and every w, in the order of `ws`. */
  function JobRow<K, W>(k: K, ws: seq<W>): (row: seq<(K, W)>)
    ensures |row| == |ws|
    ensures forall j :: 0 <= j < |ws| ==> row[j] == (k, ws[j])
  {
    seq(|ws|, j requires 0 <= j < |ws| => (k, ws[j]))
  }

  /** `[(_k, _w) for _k in k for _w in w]`: the outer loop over k, the inner
      over w. */
  function JobList<K, W>(ks: seq<K>, ws: seq<W>): seq<(K, W)>
    decreases |ks|
  {
    if ks == [] then [] else JobRow(ks[0], ws) + JobList(ks[1..], ws)
  }

  /** The job list holds |k|·|w| jobs. */
  lemma {:induction false} JobListLength<K, W>(ks: seq<K>, ws: seq<W>)
    ensures |JobList(ks, ws)| == |ks| * |ws|
    decreases |ks|
  {
    if ks != [] {
      JobListLength(ks[1..], ws);
      assert |ks| * |ws| == (|ks| - 1) * |ws| + |ws|;
    }
  }

  /** The list is k-major: the job at i·|w| + j is (k[i], w[j]). */
  lemma {:induction false} JobListAt<K, W>(ks: seq<K>, ws: seq<W>, i: nat, j: nat)
    requires i < |ks| && j < |ws|
    ensures i * |ws| + j < |JobList(ks, ws)|
    ensures JobList(ks, ws)[i * |ws| + j] == (ks[i], ws[j])
    decreases i
  {
    var rest := ks[1..];
    assert JobList(ks, ws) == JobRow(ks[0], ws) + JobList(rest, ws);
    if i > 0 {
      JobListAt(rest, ws, i - 1, j);
      assert i * |ws| + j == |ws| + ((i - 1) * |ws| + j);
      assert rest[i - 1] == ks[i];
    }
  }

  /** `get_jobs_on_this_brigade`: with one brigade the whole list, unchanged;
      otherwise what `chunk_jobs(jobs, brigades, mpi_brigade)` returns. */
  function JobsOnThisBrigade<J>(cfg: Config, rank: nat, jobs: seq<J>,
                                chunkJobs: (seq<J>, nat, nat) -> seq<J>): (mine: seq<J>)
    requires cfg.brigadeSizeArg != Some(0)
    ensures Brigades(cfg) == 1 ==> mine == jobs
  {
    if Brigades(cfg) == 1 then jobs
    else chunkJobs(jobs, Brigades(cfg), MpiBrigade(cfg, rank))
  }
}
