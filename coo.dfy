/**
 * The COO builder (`_sparse_matrix_from_equations`): walks the equations,
 * bucket by bucket for 0..N bosons, and emits one (row, column, value)
 * triplet per distinct basis column of each equation, the value being the
 * sum of the coefficients of the terms that map to that column.
 */
module CooBuilder {
  import opened Wrappers
  import opened Seqs

  /** One term of an equation: the id of the basis state it refers to and its
      coefficient, already evaluated at the job's (k, w, eta). */
  datatype Term = Term(id: string, coefficient: int)

  /** An equation: the term that names its row, and its other terms. */
  datatype Equation = Equation(indexTerm: Term, terms: seq<Term>)

  /** The basis: term id to dense row/column index. */
  type Basis = map<string, nat>

  /** The three parallel lists `row_ind`, `col_ind`, `dat`. */
  datatype Coo = Coo(rows: seq<nat>, cols: seq<nat>, vals: seq<int>)

  /** No (row, column) pair occurs twice. */
  predicate DistinctCoordinates(rows: seq<nat>, cols: seq<nat>)
    requires |rows| == |cols|
  {
    forall p, q :: 0 <= p < q < |rows| ==> (rows[p], cols[p]) != (rows[q], cols[q])
  }

  /** Why the builder stops: a boson count with no equation bucket, or a term
      id the basis does not hold (both a KeyError in the source). */
  datatype BuildError = MissingBucket(n: nat) | MissingBasisId(id: string)

  /** `row_dict`: a dictionary that remembers the order in which its keys
      were first inserted. */
  datatype RowDict = RowDict(keys: seq<nat>, sums: map<nat, int>)

  /** The terms the builder visits for one equation, in order:
      the other terms, then the index term. */
  function RowTerms(eq: Equation): seq<Term>
  {
    eq.terms + [eq.indexTerm]
  }

  predicate Mapped(ts: seq<Term>, basis: Basis)
  {
    forall i :: 0 <= i < |ts| ==> ts[i].id in basis
  }

  lemma MappedSnoc(ts: seq<Term>, t: Term, basis: Basis)
    ensures Mapped(ts + [t], basis) <==> Mapped(ts, basis) && t.id in basis
  {
    assert forall k :: 0 <= k < |ts| ==> (ts + [t])[k] == ts[k];
    assert (ts + [t])[|ts|] == t;
  }

  predicate AllMapped(eqs: seq<Equation>, basis: Basis)
  {
    forall eq :: eq in eqs ==> Mapped(RowTerms(eq), basis)
  }

  /** The basis column of each term. */
  function Columns(ts: seq<Term>, basis: Basis): (cs: seq<nat>)
    requires Mapped(ts, basis)
    ensures |cs| == |ts|
    ensures forall i :: 0 <= i < |ts| ==> cs[i] == basis[ts[i].id]
  {
    seq(|ts|, i requires 0 <= i < |ts| => basis[ts[i].id])
  }

  /** The distinct elements of `cs`, in the order of their first occurrence. */
  function FirstOccurrences(cs: seq<nat>): (r: seq<nat>)
    ensures forall x :: x in r <==> x in cs
    ensures Distinct(r)
    decreases |cs|
  {
    if cs == [] then []
    else
      var d := FirstOccurrences(cs[..|cs| - 1]);
      var x := cs[|cs| - 1];
      assert cs == cs[..|cs| - 1] + [x];
      if x in d then d else d + [x]
  }

  /** The sum of the coefficients of the terms of `ts` whose column is `c`. */
  function ColumnSum(ts: seq<Term>, basis: Basis, c: nat): int
    requires Mapped(ts, basis)
    decreases |ts|
  {
    if ts == [] then 0
    else
      var t := ts[|ts| - 1];
      assert t in ts;
      ColumnSum(ts[..|ts| - 1], basis, c) + (if basis[t.id] == c then t.coefficient else 0)
  }

  lemma ColumnSumSnoc(ts: seq<Term>, t: Term, basis: Basis, c: nat)
    requires Mapped(ts + [t], basis)
    ensures Mapped(ts, basis) && t.id in basis
    ensures ColumnSum(ts + [t], basis, c)
         == ColumnSum(ts, basis, c) + (if basis[t.id] == c then t.coefficient else 0)
  {
    assert (ts + [t])[..|ts|] == ts;
    assert t in ts + [t];
  }

  /** A column no term maps to has sum zero. */
  lemma {:induction false} ColumnSumAbsent(ts: seq<Term>, basis: Basis, c: nat)
    requires Mapped(ts, basis)
    requires c !in Columns(ts, basis)
    ensures ColumnSum(ts, basis, c) == 0
    decreases |ts|
  {
    if ts != [] {
      var front := ts[..|ts| - 1];
      assert Mapped(front, basis);
      assert Columns(front, basis) == Columns(ts, basis)[..|ts| - 1];
      ColumnSumAbsent(front, basis, c);
      assert Columns(ts, basis)[|ts| - 1] == basis[ts[|ts| - 1].id];
    }
  }

  /** The sum of every coefficient in `ts`. */
  function TotalCoefficient(ts: seq<Term>): int
    decreases |ts|
  {
    if ts == [] then 0 else TotalCoefficient(ts[..|ts| - 1]) + ts[|ts| - 1].coefficient
  }

  /** The column sums for the columns `cs`, in that order. */
  function SumsFor(ts: seq<Term>, basis: Basis, cs: seq<nat>): (vs: seq<int>)
    requires Mapped(ts, basis)
    ensures |vs| == |cs|
  {
    seq(|cs|, j requires 0 <= j < |cs| => ColumnSum(ts, basis, cs[j]))
  }

  /** The triplets one equation contributes: one per distinct column of its
      terms, in first-occurrence order, all in the row of its index term. */
  function Block(eq: Equation, basis: Basis): Coo
    requires Mapped(RowTerms(eq), basis)
  {
    var ts := RowTerms(eq);
    var cols := FirstOccurrences(Columns(ts, basis));
    Coo(seq(|cols|, _ => basis[eq.indexTerm.id]), cols, SumsFor(ts, basis, cols))
  }

  /** The triplets of a list of equations: their blocks, concatenated in order. */
  function CooOf(eqs: seq<Equation>, basis: Basis): (r: Coo)
    requires AllMapped(eqs, basis)
    ensures |r.rows| == |r.cols| == |r.vals|
    decreases |eqs|
  {
    if eqs == [] then Coo([], [], [])
    else
      var eq := eqs[|eqs| - 1];
      assert eq in eqs;
      var p := CooOf(eqs[..|eqs| - 1], basis);
      var b := Block(eq, basis);
      Coo(p.rows + b.rows, p.cols + b.cols, p.vals + b.vals)
  }

  lemma CooOfSnoc(eqs: seq<Equation>, eq: Equation, basis: Basis)
    requires AllMapped(eqs + [eq], basis)
    ensures AllMapped(eqs, basis) && Mapped(RowTerms(eq), basis)
    ensures var p, b := CooOf(eqs, basis), Block(eq, basis);
      CooOf(eqs + [eq], basis) == Coo(p.rows + b.rows, p.cols + b.cols, p.vals + b.vals)
  {
    assert (eqs + [eq])[..|eqs|] == eqs;
    assert eq in eqs + [eq];
  }

  /** `d` is what `row_dict` holds after the terms `ts`: their distinct
      columns in first-occurrence order, each with its coefficient sum. */
  ghost predicate Summarises(d: RowDict, ts: seq<Term>, basis: Basis)
    requires Mapped(ts, basis)
  {
    && d.keys == FirstOccurrences(Columns(ts, basis))
    && (forall c :: c in d.sums <==> c in d.keys)
    && (forall c :: c in d.sums ==> d.sums[c] == ColumnSum(ts, basis, c))
  }

  lemma ColumnsSnoc(ts: seq<Term>, t: Term, basis: Basis)
    requires Mapped(ts + [t], basis)
    ensures Mapped(ts, basis) && t.id in basis
    ensures Columns(ts + [t], basis) == Columns(ts, basis) + [basis[t.id]]
  {
    MappedSnoc(ts, t, basis);
  }

  lemma FirstOccurrencesSnoc(cs: seq<nat>, x: nat)
    ensures FirstOccurrences(cs + [x])
         == if x in FirstOccurrences(cs) then FirstOccurrences(cs) else FirstOccurrences(cs) + [x]
  {
    assert (cs + [x])[..|cs|] == cs;
  }

  /** Adding a term whose column `row_dict` already holds (the `try` branch
      of the term loop) keeps the summary. */
  lemma SummarisesAdd(d: RowDict, ts: seq<Term>, t: Term, basis: Basis)
    requires Mapped(ts + [t], basis)
    requires Mapped(ts, basis) && Summarises(d, ts, basis)
    requires t.id in basis && basis[t.id] in d.sums
    ensures Summarises(RowDict(d.keys, d.sums[basis[t.id] := d.sums[basis[t.id]] + t.coefficient]),
                       ts + [t], basis)
  {
    var jj := basis[t.id];
    var d2 := RowDict(d.keys, d.sums[jj := d.sums[jj] + t.coefficient]);
    assert FirstOccurrences(Columns(ts + [t], basis)) == d2.keys by {
      ColumnsSnoc(ts, t, basis);
      FirstOccurrencesSnoc(Columns(ts, basis), jj);
    }
    assert forall c :: c in d2.sums <==> c in d2.keys;
    forall c | c in d2.sums
      ensures d2.sums[c] == ColumnSum(ts + [t], basis, c)
    {
      ColumnSumSnoc(ts, t, basis, c);
    }
  }

  /** Adding a term whose column `row_dict` lacks (the `except KeyError`
      branch) appends the column as a new key and keeps the summary. */
  lemma SummarisesInsert(d: RowDict, ts: seq<Term>, t: Term, basis: Basis)
    requires Mapped(ts + [t], basis)
    requires Mapped(ts, basis) && Summarises(d, ts, basis)
    requires t.id in basis && basis[t.id] !in d.sums
    ensures Summarises(RowDict(d.keys + [basis[t.id]], d.sums[basis[t.id] := t.coefficient]),
                       ts + [t], basis)
  {
    var jj := basis[t.id];
    var d2 := RowDict(d.keys + [jj], d.sums[jj := t.coefficient]);
    assert FirstOccurrences(Columns(ts + [t], basis)) == d2.keys by {
      ColumnsSnoc(ts, t, basis);
      FirstOccurrencesSnoc(Columns(ts, basis), jj);
    }
    assert forall c :: c in d2.sums <==> c in d2.keys;
    assert ColumnSum(ts, basis, jj) == 0 by {
      ColumnSumAbsent(ts, basis, jj);
    }
    forall c | c in d2.sums
      ensures d2.sums[c] == ColumnSum(ts + [t], basis, c)
    {
      ColumnSumSnoc(ts, t, basis, c);
    }
  }

  /** `row_dict` after one more term with column `jj`: the coefficient is
      added to the column's entry, or the column is inserted as a new key. */
  function AddTerm(d: RowDict, jj: nat, coefficient: int): RowDict
  {
    if jj in d.sums then RowDict(d.keys, d.sums[jj := d.sums[jj] + coefficient])
    else RowDict(d.keys + [jj], d.sums[jj := coefficient])
  }

  lemma SummarisesStep(d: RowDict, ts: seq<Term>, i: nat, basis: Basis)
    requires i < |ts| && Mapped(ts[..i], basis) && ts[i].id in basis
    requires Summarises(d, ts[..i], basis)
    ensures Mapped(ts[..i + 1], basis)
    ensures Summarises(AddTerm(d, basis[ts[i].id], ts[i].coefficient), ts[..i + 1], basis)
  {
    var t := ts[i];
    TakeSnoc(ts, i);
    assert Mapped(ts[..i] + [t], basis);
    if basis[t.id] in d.sums {
      SummarisesAdd(d, ts[..i], t, basis);
    } else {
      SummarisesInsert(d, ts[..i], t, basis);
    }
  }

  /** `row_dict` after the terms `ts`, one `AddTerm` per term. */
  ghost function RowDictAfter(ts: seq<Term>, basis: Basis): RowDict
    requires Mapped(ts, basis)
    decreases |ts|
  {
    if ts == [] then RowDict([], map[])
    else
      var n := |ts| - 1;
      assert ts[n] in ts;
      AddTerm(RowDictAfter(ts[..n], basis), basis[ts[n].id], ts[n].coefficient)
  }

  lemma RowDictAfterStep(ts: seq<Term>, i: nat, basis: Basis)
    requires i < |ts| && Mapped(ts[..i + 1], basis)
    ensures Mapped(ts[..i], basis) && ts[i].id in basis
    ensures RowDictAfter(ts[..i + 1], basis)
         == AddTerm(RowDictAfter(ts[..i], basis), basis[ts[i].id], ts[i].coefficient)
  {
    assert ts[..i + 1][..i] == ts[..i];
    assert ts[..i + 1][i] == ts[i];
    assert forall u :: u in ts[..i] ==> u in ts[..i + 1];
  }

  /** The dictionary the term loop builds holds the distinct columns in
      first-occurrence order, each with its coefficient sum. */
  lemma {:induction false} RowDictAfterSummarises(ts: seq<Term>, basis: Basis)
    requires Mapped(ts, basis)
    ensures Summarises(RowDictAfter(ts, basis), ts, basis)
    decreases |ts|
  {
    if ts != [] {
      var n := |ts| - 1;
      assert ts[..n + 1] == ts;
      RowDictAfterStep(ts, n, basis);
      RowDictAfterSummarises(ts[..n], basis);
      SummarisesStep(RowDictAfter(ts[..n], basis), ts, n, basis);
    }
  }

  /** The term loop of one equation: `row_dict` after every term, or the
      first term id the basis lacks. */
  method RowDictOf(ts: seq<Term>, basis: Basis) returns (r: Result<RowDict, string>)
    ensures r.Failure? <==> !Mapped(ts, basis)
    ensures r.Failure? ==> r.error !in basis
    ensures r.Success? ==>
      && r.value.keys == FirstOccurrences(Columns(ts, basis))
      && (forall c :: c in r.value.sums <==> c in r.value.keys)
      && (forall c :: c in r.value.sums ==> r.value.sums[c] == ColumnSum(ts, basis, c))
  {
    var d := RowDict([], map[]);
    var i := 0;
    while i < |ts|
      invariant 0 <= i <= |ts|
      invariant forall k :: 0 <= k < i ==> ts[k].id in basis
      invariant Mapped(ts[..i], basis) && d == RowDictAfter(ts[..i], basis)
    {
      var t := ts[i];
      if t.id !in basis {
        assert t in ts;
        return Failure(t.id);
      }
      var jj := basis[t.id];
      assert Mapped(ts[..i + 1], basis);
      RowDictAfterStep(ts, i, basis);
      if jj in d.sums {
        d := RowDict(d.keys, d.sums[jj := d.sums[jj] + t.coefficient]);
      } else {
        d := RowDict(d.keys + [jj], d.sums[jj := t.coefficient]);
      }
      i := i + 1;
    }
    assert ts[..i] == ts;
    RowDictAfterSummarises(ts, basis);
    return Success(d);
  }

  /** The triplets `row_ind`, `col_ind` and `dat` are extended with for one
      equation: one per key of `row_dict`, in row `ii`. */
  function RowTriplets(d: RowDict, ii: nat): (t: Coo)
    requires forall c :: c in d.keys ==> c in d.sums
    ensures |t.rows| == |t.cols| == |t.vals| == |d.keys|
  {
    Coo(seq(|d.keys|, _ => ii), d.keys,
        seq(|d.keys|, j requires 0 <= j < |d.keys| => d.sums[d.keys[j]]))
  }

  /** Emitting a summarised row dictionary in the row of the index term
      yields the equation's block. */
  lemma EmitBlock(eq: Equation, basis: Basis, d: RowDict)
    requires Mapped(RowTerms(eq), basis) && Summarises(d, RowTerms(eq), basis)
    ensures eq.indexTerm.id in basis
    ensures RowTriplets(d, basis[eq.indexTerm.id]) == Block(eq, basis)
  {
    assert eq.indexTerm in RowTerms(eq);
  }

  /** One pass of the equation loop: look up the row of the index term,
      accumulate `row_dict`, and emit one triplet per key. */
  method EquationTriplets(eq: Equation, basis: Basis) returns (r: Result<Coo, string>)
    ensures r.Failure? <==> !Mapped(RowTerms(eq), basis)
    ensures r.Failure? ==> r.error !in basis
    ensures eq.indexTerm.id !in basis ==> r == Failure(eq.indexTerm.id)
    ensures r.Success? ==> r.value == Block(eq, basis)
  {
    if eq.indexTerm.id !in basis {
      assert eq.indexTerm in RowTerms(eq);
      return Failure(eq.indexTerm.id);
    }
    var ii := basis[eq.indexTerm.id];
    var rd := RowDictOf(RowTerms(eq), basis);
    if rd.Failure? {
      return Failure(rd.error);
    }
    EmitBlock(eq, basis, rd.value);
    return Success(RowTriplets(rd.value, ii));
  }

  lemma UnmappedEquation(equations: seq<seq<Equation>>, totalBosons: nat, n: nat, basis: Basis)
    requires n <= totalBosons && n < |equations|
    requires !AllMapped(equations[n], basis)
    ensures !(totalBosons < |equations| && AllMapped(Flatten(equations[..totalBosons + 1]), basis))
  {
    if totalBosons < |equations| {
      var eq :| eq in equations[n] && !Mapped(RowTerms(eq), basis);
      var prefix := equations[..totalBosons + 1];
      assert prefix[n] == equations[n];
      FlattenHas(prefix, n, eq);
    }
  }

  lemma AllMappedSnoc(eqs: seq<Equation>, eq: Equation, basis: Basis)
    requires AllMapped(eqs, basis) && Mapped(RowTerms(eq), basis)
    ensures AllMapped(eqs + [eq], basis)
  {
  }

  /** The equation loop of one boson-number bucket: appends each equation's
      triplets to those of the equations `done` before it. */
  method AppendBucket(bucket: seq<Equation>, basis: Basis, ghost done: seq<Equation>,
                      rowInd: seq<nat>, colInd: seq<nat>, dat: seq<int>)
    returns (r: Result<Coo, string>)
    requires AllMapped(done, basis) && Coo(rowInd, colInd, dat) == CooOf(done, basis)
    ensures r.Success? <==> AllMapped(bucket, basis)
    ensures r.Success? ==> AllMapped(done + bucket, basis) && r.value == CooOf(done + bucket, basis)
    ensures r.Failure? ==> r.error !in basis
  {
    var rows, cols, vals := rowInd, colInd, dat;
    var i := 0;
    assert done + bucket[..0] == done;
    while i < |bucket|
      invariant 0 <= i <= |bucket|
      invariant AllMapped(bucket[..i], basis)
      invariant AllMapped(done + bucket[..i], basis)
      invariant Coo(rows, cols, vals) == CooOf(done + bucket[..i], basis)
    {
      var eq := bucket[i];
      var block := EquationTriplets(eq, basis);
      if block.Failure? {
        return Failure(block.error);
      }
      var t := block.value;
      TakeSnoc(bucket, i);
      AppendSnoc(done, bucket[..i], eq);
      AllMappedSnoc(bucket[..i], eq, basis);
      AllMappedSnoc(done + bucket[..i], eq, basis);
      CooOfSnoc(done + bucket[..i], eq, basis);
      rows, cols, vals := rows + t.rows, cols + t.cols, vals + t.vals;
      i := i + 1;
    }
    assert bucket[..i] == bucket;
    return Success(Coo(rows, cols, vals));
  }

  /** `_sparse_matrix_from_equations`: the triplets of every equation of the
      buckets 0..totalBosons, in order, or the first lookup that fails. */
  method SparseMatrixFromEquations(equations: seq<seq<Equation>>, totalBosons: nat, basis: Basis)
    returns (r: Result<Coo, BuildError>)
    ensures r.Success? <==>
      totalBosons < |equations| && AllMapped(Flatten(equations[..totalBosons + 1]), basis)
    ensures r.Success? ==> r.value == CooOf(Flatten(equations[..totalBosons + 1]), basis)
    ensures r.Failure? && r.error.MissingBucket? ==> r.error.n == |equations| <= totalBosons
    ensures r.Failure? && r.error.MissingBasisId? ==> r.error.id !in basis
  {
    var coo := Coo([], [], []);
    var n := 0;
    while n <= totalBosons
      invariant 0 <= n <= totalBosons + 1 && n <= |equations|
      invariant AllMapped(Flatten(equations[..n]), basis)
      invariant coo == CooOf(Flatten(equations[..n]), basis)
    {
      if n >= |equations| {
        return Failure(MissingBucket(n));
      }
      assert equations[..n + 1][..n] == equations[..n];
      var appended := AppendBucket(equations[n], basis, Flatten(equations[..n]),
                                   coo.rows, coo.cols, coo.vals);
      if appended.Failure? {
        UnmappedEquation(equations, totalBosons, n, basis);
        return Failure(MissingBasisId(appended.error));
      }
      coo := appended.value;
      n := n + 1;
    }
    return Success(coo);
  }
}

/** What the builder's output means. */
module CooFacts {
  import opened Seqs
  import opened CooBuilder

  /** Each equation's block: as many rows, columns and values; every row is
      the basis index of the index term; the columns are pairwise distinct,
      are exactly the columns of the equation's terms and include the index
      term's own; each value is the coefficient sum of its column. */
  lemma BlockShape(eq: Equation, basis: Basis)
    requires Mapped(RowTerms(eq), basis)
    ensures var b := Block(eq, basis);
      && |b.rows| == |b.cols| == |b.vals|
      && eq.indexTerm.id in basis
      && (forall j :: 0 <= j < |b.rows| ==> b.rows[j] == basis[eq.indexTerm.id])
      && Distinct(b.cols)
      && basis[eq.indexTerm.id] in b.cols
      && (forall t :: t in RowTerms(eq) ==> basis[t.id] in b.cols)
      && (forall c :: c in b.cols ==> exists t :: t in RowTerms(eq) && basis[t.id] == c)
      && (forall j :: 0 <= j < |b.vals| ==> b.vals[j] == ColumnSum(RowTerms(eq), basis, b.cols[j]))
  {
    var ts := RowTerms(eq);
    var cs := Columns(ts, basis);
    assert eq.indexTerm == ts[|ts| - 1];
    assert cs[|ts| - 1] == basis[eq.indexTerm.id];
    forall t | t in ts ensures basis[t.id] in Block(eq, basis).cols {
      var i :| 0 <= i < |ts| && ts[i] == t;
      assert cs[i] == basis[t.id];
    }
    forall c | c in Block(eq, basis).cols ensures exists t :: t in ts && basis[t.id] == c {
      var i :| 0 <= i < |cs| && cs[i] == c;
      assert ts[i] in ts;
    }
  }

  /** Adding a term changes the sums over distinct columns `cs` by its
      coefficient when its column is among them, and not otherwise. */
  lemma {:induction false} SumsForSnoc(ts: seq<Term>, t: Term, basis: Basis, cs: seq<nat>)
    requires Mapped(ts + [t], basis) && Distinct(cs)
    ensures Mapped(ts, basis) && t.id in basis
    ensures Sum(SumsFor(ts + [t], basis, cs))
         == Sum(SumsFor(ts, basis, cs)) + (if basis[t.id] in cs then t.coefficient else 0)
    decreases |cs|
  {
    MappedSnoc(ts, t, basis);
    if cs != [] {
      var front, c := cs[..|cs| - 1], cs[|cs| - 1];
      assert cs == front + [c];
      SumsForSnoc(ts, t, basis, front);
      assert SumsFor(ts + [t], basis, cs) == SumsFor(ts + [t], basis, front) + [ColumnSum(ts + [t], basis, c)];
      assert SumsFor(ts, basis, cs) == SumsFor(ts, basis, front) + [ColumnSum(ts, basis, c)];
      SumSnoc(SumsFor(ts + [t], basis, front), ColumnSum(ts + [t], basis, c));
      SumSnoc(SumsFor(ts, basis, front), ColumnSum(ts, basis, c));
      ColumnSumSnoc(ts, t, basis, c);
      if basis[t.id] == c {
        assert basis[t.id] !in front;
      }
    }
  }

  /** Nothing is lost or counted twice: the values of the distinct columns
      add up to the sum of every coefficient of the terms. */
  lemma {:induction false} SumsConserveCoefficients(ts: seq<Term>, basis: Basis)
    requires Mapped(ts, basis)
    ensures Sum(SumsFor(ts, basis, FirstOccurrences(Columns(ts, basis)))) == TotalCoefficient(ts)
    decreases |ts|
  {
    if ts != [] {
      var front, t := ts[..|ts| - 1], ts[|ts| - 1];
      assert ts == front + [t];
      assert t in ts;
      assert Mapped(front, basis);
      SumsConserveCoefficients(front, basis);
      var cs := Columns(ts, basis);
      assert cs[..|ts| - 1] == Columns(front, basis);
      var d := FirstOccurrences(Columns(front, basis));
      var x := basis[t.id];
      assert cs[|ts| - 1] == x;
      SumsForSnoc(front, t, basis, d);
      if x !in d {
        assert SumsFor(ts, basis, d + [x]) == SumsFor(ts, basis, d) + [ColumnSum(ts, basis, x)];
        SumSnoc(SumsFor(ts, basis, d), ColumnSum(ts, basis, x));
        ColumnSumSnoc(front, t, basis, x);
        ColumnSumAbsent(front, basis, x);
      }
    }
  }

  /** An equation's emitted values add up to the sum of all its terms'
      coefficients, the index term's included. */
  lemma BlockConservesCoefficients(eq: Equation, basis: Basis)
    requires Mapped(RowTerms(eq), basis)
    ensures Sum(Block(eq, basis).vals) == TotalCoefficient(RowTerms(eq))
  {
    SumsConserveCoefficients(RowTerms(eq), basis);
  }

  /** The row of an equation: the basis index of its index term. */
  function RowOf(eq: Equation, basis: Basis): nat
    requires eq.indexTerm.id in basis
  {
    basis[eq.indexTerm.id]
  }

  /** Every triplet lies in the row of one of the equations. */
  lemma {:induction false} CooRowsAreEquationRows(eqs: seq<Equation>, basis: Basis, p: nat)
    requires AllMapped(eqs, basis) && p < |CooOf(eqs, basis).rows|
    ensures exists k :: 0 <= k < |eqs| && eqs[k].indexTerm.id in basis
                     && CooOf(eqs, basis).rows[p] == RowOf(eqs[k], basis)
    decreases |eqs|
  {
    var front, eq := eqs[..|eqs| - 1], eqs[|eqs| - 1];
    assert eqs == front + [eq];
    CooOfSnoc(front, eq, basis);
    var prev := CooOf(front, basis);
    if p < |prev.rows| {
      CooRowsAreEquationRows(front, basis, p);
      var k :| 0 <= k < |front| && front[k].indexTerm.id in basis
               && prev.rows[p] == RowOf(front[k], basis);
      assert eqs[k] == front[k];
    } else {
      BlockShape(eq, basis);
      assert CooOf(eqs, basis).rows[p] == Block(eq, basis).rows[p - |prev.rows|];
      assert eqs[|eqs| - 1] == eq;
    }
  }

  /** Appending a block that lies in one row, new to the triplets so far,
      with distinct columns keeps the coordinates distinct. */
  lemma AppendRowBlock(prev: Coo, b: Coo, row: nat)
    requires |prev.rows| == |prev.cols| && |b.rows| == |b.cols|
    requires DistinctCoordinates(prev.rows, prev.cols)
    requires forall p :: 0 <= p < |prev.rows| ==> prev.rows[p] != row
    requires forall j :: 0 <= j < |b.rows| ==> b.rows[j] == row
    requires Distinct(b.cols)
    ensures DistinctCoordinates(prev.rows + b.rows, prev.cols + b.cols)
  {
    var rows, cols, n := prev.rows + b.rows, prev.cols + b.cols, |prev.rows|;
    forall p, q | 0 <= p < q < |rows|
      ensures (rows[p], cols[p]) != (rows[q], cols[q])
    {
      if q < n {
        assert rows[p] == prev.rows[p] && rows[q] == prev.rows[q];
        assert cols[p] == prev.cols[p] && cols[q] == prev.cols[q];
      } else if p >= n {
        assert cols[p] == b.cols[p - n] && cols[q] == b.cols[q - n];
      } else {
        assert rows[p] == prev.rows[p] && rows[q] == b.rows[q - n];
      }
    }
  }

  /** When the equations have pairwise distinct rows, as a basis that is
      one-to-one on the equations' index terms gives, no (row, column) pair
      occurs twice in the output. */
  lemma {:induction false} CooCoordinatesDistinct(eqs: seq<Equation>, basis: Basis)
    requires AllMapped(eqs, basis)
    requires forall k :: 0 <= k < |eqs| ==> eqs[k].indexTerm.id in basis
    requires forall k, l :: 0 <= k < l < |eqs| ==> RowOf(eqs[k], basis) != RowOf(eqs[l], basis)
    ensures var r := CooOf(eqs, basis); DistinctCoordinates(r.rows, r.cols)
    decreases |eqs|
  {
    if eqs != [] {
      var front, eq := eqs[..|eqs| - 1], eqs[|eqs| - 1];
      assert eqs == front + [eq];
      CooOfSnoc(front, eq, basis);
      var prev, b := CooOf(front, basis), Block(eq, basis);
      assert DistinctCoordinates(prev.rows, prev.cols) by {
        assert forall k :: 0 <= k < |front| ==> front[k] == eqs[k];
        CooCoordinatesDistinct(front, basis);
      }
      var row := RowOf(eq, basis);
      forall p | 0 <= p < |prev.rows|
        ensures prev.rows[p] != row
      {
        CooRowsAreEquationRows(front, basis, p);
        var k :| 0 <= k < |front| && front[k].indexTerm.id in basis
                 && prev.rows[p] == RowOf(front[k], basis);
        assert front[k] == eqs[k];
      }
      BlockShape(eq, basis);
      AppendRowBlock(prev, b, row);
    }
  }
}
