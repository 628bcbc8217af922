# GGCE `MassiveSolver` in Dafny

This project models the core of the massively parallel PETSc executor of GGCE
(`ggce/executors/petsc4py/base.py`, class `MassiveSolver`). This executor
computes the Green's function G(k, w) of a lattice polaron model on a grid of
momenta k and frequencies w:

- **Brigade topology.** The MPI world of W ranks is cut into brigades of B
  consecutive ranks (`mpi_brigade`, `brigade_size`, `brigades`, `brigade_rank`,
  `split_into_brigades`). Each brigade gets its own sub-communicator, the
  "brigadier".
- **Job distribution.** The job list `[(k, w) for k in ks for w in ws]` is built,
  and each brigade takes its share (`get_jobs_on_this_brigade`).
- **The sparse system.** For one job, the equations of the model are turned
  into COO triplets (row, column, value) through the basis
  (`_sparse_matrix_from_equations`). Each rank counts the triplets of the rows
  it owns in the diagonal and off-diagonal blocks, preallocates, inserts its
  own triplets, and sets the right-hand side b[size - 1] = G0 (`_scaffold`;
  `_scaffold_from_disk` shares this part). `_get_matr_size` gives the size of
  a stored system.
- **Aggregation.** Every rank solves its brigade's jobs, and the lists are
  gathered on rank 0. Rank 0 keeps one copy per brigade, concatenates them,
  splits values from meta data, and reshapes the values into a |k| × |w|
  grid (`spectrum`).

Modules, one per part of the program:

| file | module | what |
|---|---|---|
| `wrappers.dfy` | `Wrappers` | `Option`, `Result` |
| `seqs.dfy` | `Seqs` | sums, concatenation and its length, distinctness |
| `topology.dfy` | `Topology` | configuration, communicators, the split guard, class `MassiveSolver` |
| `jobs.dfy` | `Jobs` | the job list and the brigade's share |
| `coo.dfy` | `CooBuilder`, `CooFacts` | the triplet builder and what its output means |
| `assembly.dfy` | `Assembly` | nnz counting over arrays, class `LinearSystem`, insertion, `_scaffold` |
| `aggregation.dfy` | `Aggregation` | de-duplication, concatenation, reshape, the end-to-end grid lemma |

The main modelling choices:

- A communicator is the ordered list of the global ranks it holds.
- `Split(colour, key = rank)` keeps the ranks of one colour in ascending
  global rank. This is the ordering `MPI_COMM_SPLIT` gives for equal keys
  (section 6.4.2 of the MPI 3.1 standard).
- `row_dict` is a Python dictionary, whose keys keep insertion order. It is
  modelled as a key sequence plus a map.
- PETSc's `setValues` inserts (it does not add), so a later value for the
  same coordinate replaces an earlier one.

## Model

| member | source | states |
|---|---|---|
| Topology.BrigadeAccessors | ggce/executors/petsc4py/base.py:54-74 | without a brigade size: brigade 0 of 1, of size W. With a size B: the brigade index and the brigade count are the truncated quotients rank / B and W / B, given by their defining bounds |
| Topology.WithColor | ggce/executors/petsc4py/base.py:141-142 | the ranks a split by colour `x / B` keeps are exactly those of that colour, in parent order |
| Topology.BrigadeMembers | ggce/executors/petsc4py/base.py:54-58 | brigade c of the world holds exactly the consecutive ranks c·B up to c·B + B, cut off at W |
| Topology.CommRank | ggce/executors/petsc4py/base.py:76-80 | `Get_rank` in a communicator is the position of the global rank in it: its first occurrence |
| Topology.SplitRankIsOffset | ggce/executors/petsc4py/base.py:76-80 | when B divides W, every rank's brigade is a full run of B ranks holding it, and its brigade rank is rank - c·B |
| Topology.LiteralGuard | ggce/executors/petsc4py/base.py:136-139 | the check as written fails only when W mod B == 1, and divides by zero when B == 0 |
| Topology.EvenGuard | ggce/executors/petsc4py/base.py:134-139 | the corrected check: it divides by zero exactly when B == 0 |
| Topology.EvenGuardMeansFullBrigades | ggce/executors/petsc4py/base.py:134-142 | the corrected check passes if and only if every rank's brigade has exactly B ranks |
| Topology.LiteralGuardAdmitsUnevenSplit | ggce/executors/petsc4py/base.py:136-142 | W = 6, B = 4: the check as written passes, the corrected one rejects, and `brigades` is 1 while rank 4 is in brigade 1, whose communicator holds only ranks 4 and 5 |
| Topology.MassiveSolver.constructor | ggce/executors/petsc4py/base.py:96-103 | without a brigade size the brigadier is the world communicator; with one, it is the split by `rank / B` and the uneven-division report is recorded |
| Topology.MassiveSolver.SplitIntoBrigades | ggce/executors/petsc4py/base.py:133-142 | records whether B fails to divide W, then sets the brigadier to the split of the world by colour `mpi_brigade`; the rank stays in its brigadier |
| Topology.MassiveSolver.BrigadeRank | ggce/executors/petsc4py/base.py:76-80 | the brigade rank indexes this rank in its brigadier; with no brigade size it is the global rank; when B divides W it is rank - mpi_brigade·B |
| Jobs.JobListLength | ggce/executors/petsc4py/base.py:534 | the job list holds |k|·|w| jobs |
| Jobs.JobListAt | ggce/executors/petsc4py/base.py:534 | the list is k-major: job i·|w| + j is (k[i], w[j]) |
| Jobs.JobsOnThisBrigade | ggce/executors/petsc4py/base.py:161-164 | with one brigade a rank takes the whole job list unchanged; otherwise it takes what `chunk_jobs` hands brigade `mpi_brigade` |
| CooBuilder.FirstOccurrences | ggce/executors/petsc4py/base.py:243-255 | the keys of `row_dict` are exactly the columns met, each once |
| CooBuilder.ColumnSumSnoc | ggce/executors/petsc4py/base.py:249-252 | one more term adds its coefficient to its own column's sum and to no other |
| CooBuilder.ColumnSumAbsent | ggce/executors/petsc4py/base.py:249-252 | a column no term maps to has sum zero |
| CooBuilder.CooOf | ggce/executors/petsc4py/base.py:254-256 | the three triplet lists always have the same length |
| CooBuilder.SummarisesAdd | ggce/executors/petsc4py/base.py:249-250 | adding a term whose column is already a key adds its coefficient there, and keeps `row_dict` equal to the distinct columns with their sums |
| CooBuilder.SummarisesInsert | ggce/executors/petsc4py/base.py:251-252 | adding a term whose column is new appends the column as the last key, and keeps that summary |
| CooBuilder.SummarisesStep | ggce/executors/petsc4py/base.py:247-252 | one pass of the term loop keeps the summary |
| CooBuilder.RowDictAfterSummarises | ggce/executors/petsc4py/base.py:243-252 | after all terms, `row_dict` holds the distinct columns in first-occurrence order, each with the sum of its coefficients |
| CooBuilder.RowDictOf | ggce/executors/petsc4py/base.py:243-252 | the term loop fails with a missing id exactly when some term's id is not in the basis. Otherwise it returns the distinct columns in first-occurrence order, each with its coefficient sum |
| CooBuilder.RowTriplets | ggce/executors/petsc4py/base.py:254-256 | one triplet per key of `row_dict` |
| CooBuilder.EmitBlock | ggce/executors/petsc4py/base.py:254-256 | the triplets emitted from the summary are the equation's block: its index row, its distinct columns, their sums |
| CooBuilder.EquationTriplets | ggce/executors/petsc4py/base.py:242-256 | one equation yields its block, or fails with an id absent from the basis exactly when one of its terms is unmapped; an unmapped index term is the one reported, since it is looked up first |
| CooBuilder.UnmappedEquation | ggce/executors/petsc4py/base.py:241-248 | an unmapped term in any bucket up to N makes the whole build fail |
| CooBuilder.AppendBucket | ggce/executors/petsc4py/base.py:242-256 | the equation loop of one bucket extends the lists by the blocks of its equations, in order |
| CooBuilder.SparseMatrixFromEquations | ggce/executors/petsc4py/base.py:213-263 | succeeds if and only if buckets 0..N exist and every term id is in the basis; the result is the concatenation of the blocks of all equations in order; a missing bucket and a missing id are reported |
| CooFacts.BlockShape | ggce/executors/petsc4py/base.py:243-256 | an equation's triplets all lie in the index term's row, with distinct columns. The columns are exactly those of its terms, including the index term's, and each value is that column's coefficient sum |
| CooFacts.SumsConserveCoefficients | ggce/executors/petsc4py/base.py:247-256 | merging by column loses no coefficient: the column sums add up to the sum of all coefficients |
| CooFacts.BlockConservesCoefficients | ggce/executors/petsc4py/base.py:243-256 | the values of one equation's triplets add up to the sum of its terms' coefficients |
| CooFacts.CooRowsAreEquationRows | ggce/executors/petsc4py/base.py:245-254 | every triplet lies in the row of one of the equations |
| CooFacts.AppendRowBlock | ggce/executors/petsc4py/base.py:254-256 | appending a one-row block with distinct columns, in a row not yet used, keeps the coordinates distinct |
| CooFacts.CooCoordinatesDistinct | ggce/executors/petsc4py/base.py:241-256 | when the equations have pairwise distinct rows, no (row, column) pair occurs twice |
| Assembly.BlockCounts | ggce/executors/petsc4py/base.py:306-317 | entry t is the number of triplets of row lo + t whose column is inside (or outside) the column block |
| Assembly.CountNnz | ggce/executors/petsc4py/base.py:306-317 | the counting loop fills `diag_nnz` and `offdiag_nnz` with, per owned row, the triplets whose column is owned and those whose column is not |
| Assembly.RowSplits | ggce/executors/petsc4py/base.py:313-317 | every triplet of a row is counted in exactly one of the two blocks |
| Assembly.NnzAddsUp | ggce/executors/petsc4py/base.py:306-320 | the two preallocation arrays together count exactly the triplets of the owned rows |
| Assembly.InsertedKeepsOtherRows | ggce/executors/petsc4py/base.py:326-330 | insertion leaves the rows outside [rstart, rend) exactly as they were |
| Assembly.InsertedKeys | ggce/executors/petsc4py/base.py:326-330 | the entries set are exactly the coordinates of the owned triplets |
| Assembly.InsertedRoundTrip | ggce/executors/petsc4py/base.py:326-330 | with distinct coordinates, reading an owned triplet's coordinate back gives its value |
| Assembly.MatrSize | ggce/executors/petsc4py/base.py:458 | undefined for an empty row list. Otherwise the size exceeds every row index and size - 1 is a row that occurs |
| Assembly.LinearSystem.constructor | ggce/executors/petsc4py/base.py:170-211 | an empty matrix and vector of the system size, this rank owning [rstart, rend) |
| Assembly.LinearSystem.SetPreallocationNnz | ggce/executors/petsc4py/base.py:320 | the preallocation becomes the two count arrays; entries and b unchanged; the ownership discipline is kept |
| Assembly.LinearSystem.SetValue | ggce/executors/petsc4py/base.py:330 | one matrix entry in an owned row is set, replacing any earlier value; nothing else changes, and every entry stays in an owned row |
| Assembly.LinearSystem.SetRhsValue | ggce/executors/petsc4py/base.py:340 | one entry of b is set; nothing else changes; the ownership discipline is kept |
| Assembly.LinearSystem.InsertOwned | ggce/executors/petsc4py/base.py:326-330 | the insertion loop sets every owned triplet in order and skips the others, so every entry set on this rank lies in a row it owns |
| Assembly.AssembleSystem | ggce/executors/petsc4py/base.py:301-340 | after the shared assembly: ownership as given, preallocation = the counts, entries = the owned triplets inserted, b = {size - 1: G0} |
| Assembly.Scaffold | ggce/executors/petsc4py/base.py:285-340 | `_scaffold` succeeds exactly when the builder does and the basis is non-empty; a builder error is passed on, and a built system over an empty basis fails with the division by zero of the sparsity report (line 291); on success the system has |basis| rows and holds the assembled state above for the built triplets |
| Aggregation.SolveJobs | ggce/executors/petsc4py/base.py:548-550 | the list holds the solution of each of the brigade's jobs, in job order |
| Aggregation.BrigadeLeads | ggce/executors/petsc4py/base.py:563-568 | with B > 1, one list per brigade; otherwise every rank's list, unchanged |
| Aggregation.BrigadeLeadAt | ggce/executors/petsc4py/base.py:565-566 | brigade n's kept list is the list of rank n·B |
| Aggregation.SelectLeads | ggce/executors/petsc4py/base.py:563-568 | the selection loop keeps exactly those lists |
| Seqs.FlattenLength | ggce/executors/petsc4py/base.py:570 | the concatenation's length is the sum of the blocks' lengths |
| Aggregation.BrigadeLeadsLength | ggce/executors/petsc4py/base.py:563-570 | the kept lists hold, in total, the sum over brigades n of |all_results[n·B]| results (every rank's count with B ≤ 1) |
| Aggregation.GatheredLength | ggce/executors/petsc4py/base.py:563-570 | rank 0's concatenated list is exactly as long as the kept lists together |
| Aggregation.LeadsInRange | ggce/executors/petsc4py/base.py:564-566 | the first rank n·B of every brigade is a rank of the world, so the loop never indexes past the gathered list |
| Aggregation.Values | ggce/executors/petsc4py/base.py:573 | the first component of each result, in order |
| Aggregation.Metas | ggce/executors/petsc4py/base.py:574 | the second component of each result, in order |
| Aggregation.Reshape | ggce/executors/petsc4py/base.py:578 | reshaping succeeds exactly when the length is rows·cols, and then gives rows rows of cols entries |
| Aggregation.ReshapeRoundTrip | ggce/executors/petsc4py/base.py:578 | concatenating the rows of the reshaped grid gives back the list |
| Aggregation.ReshapeAt | ggce/executors/petsc4py/base.py:578 | row-major layout: entry (i, j) is element i·cols + j |
| Aggregation.Aggregate | ggce/executors/petsc4py/base.py:562-581 | ranks other than 0 return nothing. Rank 0 returns the reshaped values of the de-duplicated, concatenated results (with their meta list when asked), or a reshape error, which happens exactly when the kept lists do not hold |k|·|w| results in total |
| Aggregation.FlattenMap | ggce/executors/petsc4py/base.py:570 | solving block by block and concatenating equals solving the concatenation |
| Aggregation.LeadComputes | ggce/executors/petsc4py/base.py:54-58 | the first rank of brigade n exists and, with several brigades, has `mpi_brigade` n |
| Aggregation.LeadResults | ggce/executors/petsc4py/base.py:543-566 | the list rank 0 keeps for brigade n holds the solutions of brigade n's jobs |
| Aggregation.GatheredIsAllJobs | ggce/executors/petsc4py/base.py:534-570 | when the chunks cover the job list, rank 0 gets the solutions of the whole job list, in job order, each exactly once, for every brigade layout |
| Aggregation.GridOfJobList | ggce/executors/petsc4py/base.py:534 | the solutions of the job list reshape to the grid whose entry (i, j) is the value solved at (k[i], w[j]) |
| Aggregation.SpectrumGrid | ggce/executors/petsc4py/base.py:534-578 | end to end: the grid rank 0 returns has the right shape, and entry (i, j) is the value solved at (k[i], w[j]) |

## Left out

- PETSc itself is not modelled. That covers creating and sizing the vector and the matrix, `setFromOptions`, `setUp`, assembly and the KSP solve. The ownership range [rstart, rend) that PETSc picks is a parameter; `LinearSystem` records only what this rank hands to PETSc.
- MPI is not modelled as concurrent processes. `Get_rank` and `Get_size` are parameters, barriers are left out, and the gather is a parameter holding one list per rank. The fallbacks of `mpi_rank` and `mpi_world_size` when `mpi_comm` is None (lines 42-52) are left out, because the constructor reports that case as unusable.
- `chunk_jobs` (in `ggce/utils/utils.py`) is not part of this model. It is a function parameter. The end-to-end lemmas assume what the aggregation relies on: the chunks of brigades 0..brigades-1 concatenate back to the job list.
- `solve(k, w, eta)` is a function parameter returning a (value, meta) pair. The linear solve, checkpoints and result files on disk are not modelled.
- Term coefficients `term.coefficient(k, w, eta)` are complex floating-point numbers in the source. Here they are already evaluated and are integers, so coefficient sums are exact.
- `G0_k_omega` is a parameter (`g0`). `float_to_list` is left out: k and w are given as sequences.
- `total_bosons = np.sum(phonon_number)` is a parameter.
- Left out because they have no effect on the model's state: the values of the sparsity statistics, the memory estimate, timing, logging, `print(s)` and `tqdm`. The one effect of the sparsity statistics, the division by zero on an empty basis in `_scaffold`, is the `ZeroDivision` error of `Scaffold`.
- `_scaffold_from_disk` loads the triplets from a pickled file, and `_get_matr_size` picks a random file to read. That I/O is not modelled. Their shared counting, insertion and right-hand side are `AssembleSystem`, and `MatrSize` takes the row list.
- Also left out: `check_conv_manual`, `_k_omega_eta_to_str`, `set_input_dir`, `basis_dir`, and the checkpointing done in `__init__`.
- The `exit()` right after the gather (line 557) ends every rank, so `spectrum` as written never reaches its aggregation. `Aggregate` models the code after it, as if that call were absent.
- `Assembly.CountNnz`: the counts are unbounded naturals; the source stores them as 32-bit integers (`dtype='i4'`), which would wrap above 2^31 - 1 triplets per row.
- `Topology.MassiveSolver.constructor`: requires a brigade size other than 0, where the source raises ZeroDivisionError in `split_into_brigades`. A negative size cannot be expressed (`Option<nat>`).
- `Topology.MassiveSolver.SplitIntoBrigades`: the uneven-division report is a recorded flag. The source passes it to `logger.critical`, which only logs in the code shown; whether the logger stops the program is not modelled.
- `Assembly.AssembleSystem`: requires a non-empty system. Both callers guarantee it: `_scaffold` raises ZeroDivisionError at line 291 on an empty basis before anything is set up (the `ZeroDivision` error of `Scaffold`), and `_scaffold_from_disk` takes the size as `max(row_ind) + 1` (line 458), which is at least 1.
- `Aggregation.BrigadeLeads`: requires the index of the last brigade's first rank to be inside the gathered list (the source raises IndexError otherwise). `LeadsInRange` proves that this always holds for the solver's own layout.
- `Aggregation.SpectrumGrid`: assumes at least one brigade, i.e. B at most W. With B > W the source calls `chunk_jobs` with 0 brigades, whose behaviour is not part of this model.

## Findings

| source | as written | input that shows it | evidently intended | confidence | as-written member | corrected member |
|---|---|---|---|---|---|---|
| ggce/executors/petsc4py/base.py:136-139 | `assert (1 - W % B)` fails only when W mod B == 1 | W = 6, B = 4: W mod B = 2, the check passes, yet ranks 4 and 5 form a brigade of 2 while `brigades` is 1 | the comment asks that W be evenly divided into brigades: fail exactly when W mod B != 0 | high; not executed | Topology.LiteralGuard, Topology.LiteralGuardAdmitsUnevenSplit | Topology.EvenGuard, Topology.EvenGuardMeansFullBrigades |

`MassiveSolver` records its report with the corrected check.
