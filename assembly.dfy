/**
 * Distributed assembly (`_scaffold`): this rank owns the rows
 * [rstart, rend) of the system.  It counts, per owned row, the triplets in
 * the diagonal block (column also owned) and in the off-diagonal block,
 * hands both counts to the matrix as its preallocation, inserts the triplets
 * of its own rows, and sets the single right-hand-side entry.
 */
module Assembly {
  import opened Wrappers
  import opened Seqs
  import opened CooBuilder

  /** The number of triplets in row `row` whose column lies inside [clo, chi)
      when `inside`, outside it otherwise. */
  function CountInRow(rows: seq<nat>, cols: seq<nat>, row: nat, clo: nat, chi: nat, inside: bool): nat
    requires |rows| == |cols|
    decreases |rows|
  {
    if rows == [] then 0
    else
      var n := |rows| - 1;
      CountInRow(rows[..n], cols[..n], row, clo, chi, inside)
        + (if rows[n] == row && (clo <= cols[n] < chi) == inside then 1 else 0)
  }

  /** The number of triplets in row `row`. */
  function RowCount(rows: seq<nat>, row: nat): nat
    decreases |rows|
  {
    if rows == [] then 0
    else RowCount(rows[..|rows| - 1], row) + (if rows[|rows| - 1] == row then 1 else 0)
  }

  /** The number of triplets whose row lies in [lo, hi). */
  function OwnedCount(rows: seq<nat>, lo: nat, hi: nat): nat
    decreases |rows|
  {
    if rows == [] then 0
    else OwnedCount(rows[..|rows| - 1], lo, hi) + (if lo <= rows[|rows| - 1] < hi then 1 else 0)
  }

  /** Per-row counts for the n rows lo, lo+1, ..., with the column block [clo, chi). */
  function BlockCounts(rows: seq<nat>, cols: seq<nat>, lo: nat, n: nat,
                       clo: nat, chi: nat, inside: bool): (s: seq<nat>)
    requires |rows| == |cols|
    ensures |s| == n
    ensures forall t :: 0 <= t < n ==> s[t] == CountInRow(rows, cols, lo + t, clo, chi, inside)
    decreases n
  {
    if n == 0 then []
    else BlockCounts(rows, cols, lo, n - 1, clo, chi, inside) + [CountInRow(rows, cols, lo + n - 1, clo, chi, inside)]
  }

  /** `diag_nnz` (inside) or `offdiag_nnz` (outside) for the ownership range
      [rstart, rend): entry t counts the triplets of row rstart + t. */
  function Nnz(rows: seq<nat>, cols: seq<nat>, rstart: nat, rend: nat, inside: bool): (s: seq<nat>)
    requires |rows| == |cols| && rstart <= rend
    ensures |s| == rend - rstart
  {
    BlockCounts(rows, cols, rstart, rend - rstart, rstart, rend, inside)
  }

  lemma CountInRowStep(rows: seq<nat>, cols: seq<nat>, i: nat, row: nat, clo: nat, chi: nat, inside: bool)
    requires |rows| == |cols| && i < |rows|
    ensures CountInRow(rows[..i + 1], cols[..i + 1], row, clo, chi, inside)
         == CountInRow(rows[..i], cols[..i], row, clo, chi, inside)
            + (if rows[i] == row && (clo <= cols[i] < chi) == inside then 1 else 0)
  {
    assert rows[..i + 1][..i] == rows[..i];
    assert cols[..i + 1][..i] == cols[..i];
  }

  lemma CountsStep(rows: seq<nat>, cols: seq<nat>, i: nat, clo: nat, chi: nat, inside: bool)
    requires |rows| == |cols| && i < |rows|
    ensures forall row: nat ::
      CountInRow(rows[..i + 1], cols[..i + 1], row, clo, chi, inside)
      == CountInRow(rows[..i], cols[..i], row, clo, chi, inside)
         + (if rows[i] == row && (clo <= cols[i] < chi) == inside then 1 else 0)
  {
    forall row: nat
      ensures CountInRow(rows[..i + 1], cols[..i + 1], row, clo, chi, inside)
           == CountInRow(rows[..i], cols[..i], row, clo, chi, inside)
              + (if rows[i] == row && (clo <= cols[i] < chi) == inside then 1 else 0)
    {
      CountInRowStep(rows, cols, i, row, clo, chi, inside);
    }
  }

  /** The counting loop of `_scaffold`: one pass over the triplets, adding one
      to the diagonal or the off-diagonal count of each owned row. */
  method CountNnz(rows: seq<nat>, cols: seq<nat>, rstart: nat, rend: nat)
    returns (diag: array<nat>, offdiag: array<nat>)
    requires |rows| == |cols| && rstart <= rend
    ensures fresh(diag) && fresh(offdiag)
    ensures diag[..] == Nnz(rows, cols, rstart, rend, true)
    ensures offdiag[..] == Nnz(rows, cols, rstart, rend, false)
  {
    diag := new nat[rend - rstart](_ => 0);
    offdiag := new nat[rend - rstart](_ => 0);
    var i := 0;
    while i < |rows|
      invariant 0 <= i <= |rows|
      invariant diag.Length == offdiag.Length == rend - rstart
      invariant forall t :: 0 <= t < diag.Length ==>
        diag[t] == CountInRow(rows[..i], cols[..i], rstart + t, rstart, rend, true)
      invariant forall t :: 0 <= t < offdiag.Length ==>
        offdiag[t] == CountInRow(rows[..i], cols[..i], rstart + t, rstart, rend, false)
    {
      CountsStep(rows, cols, i, rstart, rend, true);
      CountsStep(rows, cols, i, rstart, rend, false);
      var elem := rows[i];
      if rstart <= elem && elem < rend {
        if rstart <= cols[i] && cols[i] < rend {
          diag[elem - rstart] := diag[elem - rstart] + 1;
        } else {
          offdiag[elem - rstart] := offdiag[elem - rstart] + 1;
        }
      }
      i := i + 1;
    }
    assert rows[..i] == rows && cols[..i] == cols;
  }

  /** Each triplet of a row is counted in exactly one of the two blocks. */
  lemma {:induction false} RowSplits(rows: seq<nat>, cols: seq<nat>, row: nat, clo: nat, chi: nat)
    requires |rows| == |cols|
    ensures CountInRow(rows, cols, row, clo, chi, true) + CountInRow(rows, cols, row, clo, chi, false)
         == RowCount(rows, row)
    decreases |rows|
  {
    if rows != [] {
      RowSplits(rows[..|rows| - 1], cols[..|cols| - 1], row, clo, chi);
    }
  }

  lemma {:induction false} OwnedCountStep(rows: seq<nat>, lo: nat, hi: nat)
    requires lo <= hi
    ensures OwnedCount(rows, lo, hi + 1) == OwnedCount(rows, lo, hi) + RowCount(rows, hi)
    decreases |rows|
  {
    if rows != [] {
      OwnedCountStep(rows[..|rows| - 1], lo, hi);
    }
  }

  /** One more row adds that row's triplets to the two block sums together. */
  lemma BlockSumsStep(rows: seq<nat>, cols: seq<nat>, lo: nat, m: nat, clo: nat, chi: nat)
    requires |rows| == |cols|
    ensures Sum(BlockCounts(rows, cols, lo, m + 1, clo, chi, true))
          + Sum(BlockCounts(rows, cols, lo, m + 1, clo, chi, false))
         == Sum(BlockCounts(rows, cols, lo, m, clo, chi, true))
          + Sum(BlockCounts(rows, cols, lo, m, clo, chi, false))
          + RowCount(rows, lo + m)
  {
    var d, o := CountInRow(rows, cols, lo + m, clo, chi, true), CountInRow(rows, cols, lo + m, clo, chi, false);
    SumSnoc(BlockCounts(rows, cols, lo, m, clo, chi, true), d);
    SumSnoc(BlockCounts(rows, cols, lo, m, clo, chi, false), o);
    RowSplits(rows, cols, lo + m, clo, chi);
  }

  lemma {:induction false} BlockCountsAddUp(rows: seq<nat>, cols: seq<nat>, lo: nat, n: nat, clo: nat, chi: nat)
    requires |rows| == |cols|
    ensures Sum(BlockCounts(rows, cols, lo, n, clo, chi, true))
          + Sum(BlockCounts(rows, cols, lo, n, clo, chi, false))
         == OwnedCount(rows, lo, lo + n)
    decreases n
  {
    if n == 0 {
      OwnedCountEmpty(rows, lo);
    } else {
      BlockCountsAddUp(rows, cols, lo, n - 1, clo, chi);
      BlockSumsStep(rows, cols, lo, n - 1, clo, chi);
      OwnedCountStep(rows, lo, lo + n - 1);
    }
  }

  lemma {:induction false} OwnedCountEmpty(rows: seq<nat>, lo: nat)
    ensures OwnedCount(rows, lo, lo) == 0
    decreases |rows|
  {
    if rows != [] {
      OwnedCountEmpty(rows[..|rows| - 1], lo);
    }
  }

  /** The preallocation accounts for every owned triplet exactly once: the
      diagonal and off-diagonal counts together add up to the number of
      triplets whose row lies in [rstart, rend). */
  lemma NnzAddsUp(rows: seq<nat>, cols: seq<nat>, rstart: nat, rend: nat)
    requires |rows| == |cols| && rstart <= rend
    ensures Sum(Nnz(rows, cols, rstart, rend, true)) + Sum(Nnz(rows, cols, rstart, rend, false))
         == OwnedCount(rows, rstart, rend)
  {
    BlockCountsAddUp(rows, cols, rstart, rend - rstart, rstart, rend);
  }

  /** The matrix after `setValues(row, col, v)` for every triplet whose row
      lies in [lo, hi), in order; a later value for the same (row, col)
      replaces an earlier one. */
  function Inserted(m: map<(nat, nat), int>, rows: seq<nat>, cols: seq<nat>, vals: seq<int>,
                    lo: nat, hi: nat): map<(nat, nat), int>
    requires |rows| == |cols| == |vals|
    decreases |rows|
  {
    if rows == [] then m
    else
      var n := |rows| - 1;
      var prev := Inserted(m, rows[..n], cols[..n], vals[..n], lo, hi);
      if lo <= rows[n] < hi then prev[(rows[n], cols[n]) := vals[n]] else prev
  }

  /** Insertion touches no row outside [lo, hi): there the matrix keeps
      exactly the entries it had. */
  lemma {:induction false} InsertedKeepsOtherRows(m: map<(nat, nat), int>, rows: seq<nat>, cols: seq<nat>,
                                                  vals: seq<int>, lo: nat, hi: nat, key: (nat, nat))
    requires |rows| == |cols| == |vals|
    requires !(lo <= key.0 < hi)
    ensures key in Inserted(m, rows, cols, vals, lo, hi) <==> key in m
    ensures key in m ==> Inserted(m, rows, cols, vals, lo, hi)[key] == m[key]
    decreases |rows|
  {
    if rows != [] {
      var n := |rows| - 1;
      InsertedKeepsOtherRows(m, rows[..n], cols[..n], vals[..n], lo, hi, key);
    }
  }

  /** The entries that insertion adds are exactly the coordinates of the
      owned triplets. */
  lemma {:induction false} InsertedKeys(m: map<(nat, nat), int>, rows: seq<nat>, cols: seq<nat>,
                                        vals: seq<int>, lo: nat, hi: nat, key: (nat, nat))
    requires |rows| == |cols| == |vals|
    ensures key in Inserted(m, rows, cols, vals, lo, hi) <==>
      key in m || exists i :: 0 <= i < |rows| && lo <= rows[i] < hi && (rows[i], cols[i]) == key
    decreases |rows|
  {
    if rows != [] {
      var n := |rows| - 1;
      InsertedKeys(m, rows[..n], cols[..n], vals[..n], lo, hi, key);
      if exists i :: 0 <= i < |rows| && lo <= rows[i] < hi && (rows[i], cols[i]) == key {
        var i :| 0 <= i < |rows| && lo <= rows[i] < hi && (rows[i], cols[i]) == key;
        if i < n {
          assert rows[..n][i] == rows[i] && cols[..n][i] == cols[i];
        }
      }
    }
  }

  /** Round trip: when no coordinate occurs twice, reading back an owned
      triplet's coordinate gives its value. */
  lemma {:induction false} InsertedRoundTrip(m: map<(nat, nat), int>, rows: seq<nat>, cols: seq<nat>,
                                             vals: seq<int>, lo: nat, hi: nat, i: nat)
    requires |rows| == |cols| == |vals| && i < |rows| && lo <= rows[i] < hi
    requires DistinctCoordinates(rows, cols)
    ensures (rows[i], cols[i]) in Inserted(m, rows, cols, vals, lo, hi)
    ensures Inserted(m, rows, cols, vals, lo, hi)[(rows[i], cols[i])] == vals[i]
    decreases |rows|
  {
    var n := |rows| - 1;
    if i < n {
      assert rows[..n][i] == rows[i] && cols[..n][i] == cols[i];
      InsertedRoundTrip(m, rows[..n], cols[..n], vals[..n], lo, hi, i);
      assert (rows[n], cols[n]) != (rows[i], cols[i]);
    }
  }

  /** `_get_matr_size`'s `max(row_ind) + 1`; `max` of an empty list raises. */
  function MatrSize(rows: seq<nat>): (r: Option<nat>)
    ensures r.None? <==> rows == []
    ensures r.Some? ==> (forall i :: 0 <= i < |rows| ==> rows[i] < r.value)
    ensures r.Some? ==> r.value > 0 && r.value - 1 in rows
    decreases |rows|
  {
    if rows == [] then None
    else
      var last := rows[|rows| - 1];
      match MatrSize(rows[..|rows| - 1])
      case None => Some(last + 1)
      case Some(m) => Some(if last + 1 > m then last + 1 else m)
  }

  /** This rank's share of the PETSc system: the ownership range PETSc chose,
      the preallocation handed to the matrix, the matrix entries set on this
      rank and the right-hand-side entries set on this rank. */
  class LinearSystem {
    const size: nat
    const rstart: nat
    const rend: nat
    var diagNnz: seq<nat>
    var offdiagNnz: seq<nat>
    var entries: map<(nat, nat), int>
    var rhs: map<nat, int>

    /** The ownership discipline: this rank only ever sets entries in the
        rows it owns. */
    ghost predicate Valid()
      reads this
    {
      && rstart <= rend <= size
      && forall key :: key in entries ==> rstart <= key.0 < rend
    }

    /** `_setup_petsc_structs`: an empty matrix and vector of the system size,
        this rank owning [rstart, rend). */
    constructor (size: nat, rstart: nat, rend: nat)
      requires rstart <= rend <= size
      ensures Valid()
      ensures this.size == size && this.rstart == rstart && this.rend == rend
      ensures diagNnz == [] && offdiagNnz == [] && entries == map[] && rhs == map[]
    {
      this.size, this.rstart, this.rend := size, rstart, rend;
      diagNnz, offdiagNnz, entries, rhs := [], [], map[], map[];
    }

    /** `setPreallocationNNZ((diag_nnz, offdiag_nnz))`. */
    method SetPreallocationNnz(diag: array<nat>, offdiag: array<nat>)
      requires Valid()
      modifies this
      ensures Valid()
      ensures diagNnz == diag[..] && offdiagNnz == offdiag[..]
      ensures entries == old(entries) && rhs == old(rhs)
    {
      diagNnz, offdiagNnz := diag[..], offdiag[..];
    }

    /** `setValues(row, col, v)` on the matrix, inserting (not adding). */
    method SetValue(row: nat, col: nat, v: int)
      requires Valid() && rstart <= row < rend
      modifies this
      ensures Valid()
      ensures entries == old(entries)[(row, col) := v]
      ensures diagNnz == old(diagNnz) && offdiagNnz == old(offdiagNnz) && rhs == old(rhs)
    {
      entries := entries[(row, col) := v];
    }

    /** `setValues(i, v)` on the right-hand-side vector. */
    method SetRhsValue(i: nat, v: int)
      requires Valid()
      modifies this
      ensures Valid()
      ensures rhs == old(rhs)[i := v]
      ensures diagNnz == old(diagNnz) && offdiagNnz == old(offdiagNnz) && entries == old(entries)
    {
      rhs := rhs[i := v];
    }

    /** The insertion loop of `_scaffold`: every triplet whose row this rank
        owns is set, the others are skipped. */
    method InsertOwned(rows: seq<nat>, cols: seq<nat>, vals: seq<int>)
      requires Valid() && |rows| == |cols| == |vals|
      modifies this
      ensures Valid()
      ensures entries == Inserted(old(entries), rows, cols, vals, rstart, rend)
      ensures diagNnz == old(diagNnz) && offdiagNnz == old(offdiagNnz) && rhs == old(rhs)
    {
      var ii := 0;
      while ii < |rows|
        invariant 0 <= ii <= |rows|
        invariant Valid()
        invariant entries == Inserted(old(entries), rows[..ii], cols[..ii], vals[..ii], rstart, rend)
        invariant diagNnz == old(diagNnz) && offdiagNnz == old(offdiagNnz) && rhs == old(rhs)
      {
        assert rows[..ii + 1][..ii] == rows[..ii];
        assert cols[..ii + 1][..ii] == cols[..ii];
        assert vals[..ii + 1][..ii] == vals[..ii];
        var rowCoo := rows[ii];
        if rstart <= rowCoo && rowCoo < rend {
          SetValue(rowCoo, cols[ii], vals[ii]);
        }
        ii := ii + 1;
      }
      assert rows[..ii] == rows && cols[..ii] == cols && vals[..ii] == vals;
    }
  }

  /** The part of `_scaffold` after the triplets are known (shared with
      `_scaffold_from_disk`): set up the structures, count and preallocate,
      insert the owned triplets, and set b[size - 1] to `g0`. */
  method AssembleSystem(size: nat, rstart: nat, rend: nat, coo: Coo, g0: int)
    returns (sys: LinearSystem)
    requires rstart <= rend <= size && size > 0
    requires |coo.rows| == |coo.cols| == |coo.vals|
    ensures fresh(sys) && sys.Valid()
    ensures sys.size == size && sys.rstart == rstart && sys.rend == rend
    ensures sys.diagNnz == Nnz(coo.rows, coo.cols, rstart, rend, true)
    ensures sys.offdiagNnz == Nnz(coo.rows, coo.cols, rstart, rend, false)
    ensures sys.entries == Inserted(map[], coo.rows, coo.cols, coo.vals, rstart, rend)
    ensures sys.rhs == map[size - 1 := g0]
  {
    sys := new LinearSystem(size, rstart, rend);
    var diag, offdiag := CountNnz(coo.rows, coo.cols, rstart, rend);
    sys.SetPreallocationNnz(diag, offdiag);
    sys.InsertOwned(coo.rows, coo.cols, coo.vals);
    sys.SetRhsValue(size - 1, g0);
  }

  /** Why `_scaffold` stops: the builder's error, or the division by the
      system size in the sparsity report, which raises on an empty basis. */
  datatype ScaffoldError = BuildFailed(cause: BuildError) | ZeroDivision

  /** `_scaffold`: the system size is the number of basis states; the
      triplets come from the equations. The sparsity report divides by the
      size squared after the builder ran and before anything is set up. */
  method Scaffold(equations: seq<seq<Equation>>, totalBosons: nat, basis: Basis,
                  rstart: nat, rend: nat, g0: int)
    returns (r: Result<LinearSystem, ScaffoldError>)
    requires rstart <= rend <= |basis|
    ensures var builds := totalBosons < |equations| && AllMapped(Flatten(equations[..totalBosons + 1]), basis);
      && (r.Success? <==> builds && |basis| > 0)
      && (r == Failure(ZeroDivision) <==> builds && |basis| == 0)
      && (r.Failure? && r.error.BuildFailed? <==> !builds)
    ensures r.Failure? && r.error.BuildFailed? && r.error.cause.MissingBasisId? ==>
      r.error.cause.id !in basis
    ensures r.Success? ==>
      var coo := CooOf(Flatten(equations[..totalBosons + 1]), basis);
      var sys := r.value;
      && fresh(sys) && sys.Valid()
      && sys.size == |basis| && sys.rstart == rstart && sys.rend == rend
      && sys.diagNnz == Nnz(coo.rows, coo.cols, rstart, rend, true)
      && sys.offdiagNnz == Nnz(coo.rows, coo.cols, rstart, rend, false)
      && sys.entries == Inserted(map[], coo.rows, coo.cols, coo.vals, rstart, rend)
      && sys.rhs == map[|basis| - 1 := g0]
  {
    var built := SparseMatrixFromEquations(equations, totalBosons, basis);
    if built.Failure? {
      return Failure(BuildFailed(built.error));
    }
    if |basis| == 0 {
      return Failure(ZeroDivision);
    }
    var sys := AssembleSystem(|basis|, rstart, rend, built.value, g0);
    return Success(sys);
  }
}
