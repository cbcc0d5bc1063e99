/**
 * The modified-outcome estimate of the uplift of treatment arm k over the
 * control arm 0, per customer. Four predicted-probability columns are read:
 * the probability of coming back and of not coming back, each under arm 0
 * and under arm k. The columns of arm k are divided by the prior of arm k,
 * those of arm 0 by the prior of arm 0, and the estimate is
 *   (rk / pk + nr0 / p0) - (nrk / pk + r0 / p0).
 */
module ModifiedOutcome {
  import opened Wrappers
  import opened Decimal

  /** A table of numeric columns, by name. */
  type Columns = map<string, seq<real>>

  /** All columns of a table have the same number of rows. */
  ghost predicate Rectangular(cols: Columns) {
    forall a, b :: a in cols && b in cols ==> |cols[a]| == |cols[b]|
  }

  /** The name of the probability column of an outcome prefix under arm k: p_{prefix}_{k}. */
  function ColumnName(prefix: string, k: int): (name: string)
    ensures |name| > 2 && name[..2] == "p_"
  {
    "p_" + prefix + "_" + IntToString(k)
  }

  /** The prior of arm k; an arm the map does not mention has prior 0. */
  function Prior(probs: map<int, real>, k: int): (p: real)
    ensures k in probs ==> p == probs[k]
    ensures k !in probs ==> p == 0.0
  {
    if k in probs then probs[k] else 0.0
  }

  /** The four inputs of arm k, in the order the estimate reads them: rk, nr0, nrk, r0. */
  function Inputs(resp: string, nonresp: string, k: int): seq<string> {
    [ColumnName(resp, k), ColumnName(nonresp, 0), ColumnName(nonresp, k), ColumnName(resp, 0)]
  }

  predicate HasInputs(cols: Columns, resp: string, nonresp: string, k: int) {
    forall name :: name in Inputs(resp, nonresp, k) ==> name in cols
  }

  datatype MmoaError =
    | MissingColumn(name: string)    // an input column is absent
    | DegenerateProbability(arm: int) // the prior of an arm is zero or absent

  /** The intermediate columns and the two priors, as returned beside the estimate. */
  datatype Parts = Parts(rtK: seq<real>, nrt0: seq<real>, nrtK: seq<real>, rt0: seq<real>,
                         ptControl: real, ptTreat: real)

  datatype Estimate = Estimate(tau: seq<real>, parts: Option<Parts>)

  lemma Regroup(rk: real, nr0: real, nrk: real, r0: real, pk: real, p0: real)
    requires pk != 0.0 && p0 != 0.0
    ensures (rk / pk + nr0 / p0) - (nrk / pk + r0 / p0) == (rk - nrk) / pk + (nr0 - r0) / p0
  {
    assert rk / pk - nrk / pk == (rk - nrk) / pk;
    assert nr0 / p0 - r0 / p0 == (nr0 - r0) / p0;
  }

  /**
   * The estimate for one customer: the gap between coming back and not coming
   * back under arm k, weighted by the inverse prior of k, plus the reverse gap
   * under arm 0, weighted by the inverse prior of 0.
   */
  function RowEstimate(rk: real, nr0: real, nrk: real, r0: real, pk: real, p0: real): (t: real)
    requires pk != 0.0 && p0 != 0.0
    ensures t == (rk - nrk) / pk + (nr0 - r0) / p0
  {
    Regroup(rk, nr0, nrk, r0, pk, p0);
    (rk / pk + nr0 / p0) - (nrk / pk + r0 / p0)
  }

  /** A column divided elementwise by a prior. */
  function Scaled(col: seq<real>, p: real): (r: seq<real>)
    requires p != 0.0
    ensures |r| == |col|
    ensures forall i :: 0 <= i < |col| ==> r[i] == col[i] / p
  {
    seq(|col|, i requires 0 <= i < |col| => col[i] / p)
  }

  /**
   * The estimate for every customer, with the parts when asked for: each part
   * is an input column divided by its arm's prior. Missing input columns are
   * reported first, the first missing one in the order rk, nr0, nrk, r0
   * (MissingColumnOrder); then a zero prior, that of arm k before that of arm 0.
   */
  function UpliftMmoa(cols: Columns, k: int, resp: string, nonresp: string,
                      probs: map<int, real>, returnParts: bool): (r: Result<Estimate, MmoaError>)
    requires Rectangular(cols)
    ensures r.Success? <==> HasInputs(cols, resp, nonresp, k) && Prior(probs, k) != 0.0 && Prior(probs, 0) != 0.0
    ensures !HasInputs(cols, resp, nonresp, k) ==> r.Failure? && r.error.MissingColumn?
    ensures r.Failure? && r.error.MissingColumn? ==>
      r.error.name in Inputs(resp, nonresp, k) && r.error.name !in cols
    ensures r.Failure? && r.error.DegenerateProbability? ==>
      HasInputs(cols, resp, nonresp, k) &&
      if Prior(probs, k) == 0.0 then r.error.arm == k else r.error.arm == 0 && Prior(probs, 0) == 0.0
    ensures r.Success? ==>
      var rk, nr0, nrk, r0 := ColumnName(resp, k), ColumnName(nonresp, 0), ColumnName(nonresp, k), ColumnName(resp, 0);
      |r.value.tau| == |cols[rk]|
      && forall i :: 0 <= i < |r.value.tau| ==>
           r.value.tau[i] == RowEstimate(cols[rk][i], cols[nr0][i], cols[nrk][i], cols[r0][i], Prior(probs, k), Prior(probs, 0))
    ensures r.Success? ==> (r.value.parts.Some? <==> returnParts)
    ensures r.Success? && r.value.parts.Some? ==>
      var p := r.value.parts.value;
      p.ptTreat == Prior(probs, k) && p.ptControl == Prior(probs, 0)
      && p.rtK == Scaled(cols[ColumnName(resp, k)], Prior(probs, k))
      && p.nrt0 == Scaled(cols[ColumnName(nonresp, 0)], Prior(probs, 0))
      && p.nrtK == Scaled(cols[ColumnName(nonresp, k)], Prior(probs, k))
      && p.rt0 == Scaled(cols[ColumnName(resp, 0)], Prior(probs, 0))
      && |p.rtK| == |p.nrt0| == |p.nrtK| == |p.rt0| == |r.value.tau|
      && forall i :: 0 <= i < |r.value.tau| ==> r.value.tau[i] == (p.rtK[i] + p.nrt0[i]) - (p.nrtK[i] + p.rt0[i])
  {
    var rk, nr0, nrk, r0 := ColumnName(resp, k), ColumnName(nonresp, 0), ColumnName(nonresp, k), ColumnName(resp, 0);
    var ptControl := Prior(probs, 0);
    var ptTreat := Prior(probs, k);
    if rk !in cols then Failure(MissingColumn(rk))
    else if nr0 !in cols then Failure(MissingColumn(nr0))
    else if nrk !in cols then Failure(MissingColumn(nrk))
    else if r0 !in cols then Failure(MissingColumn(r0))
    else if ptTreat == 0.0 then Failure(DegenerateProbability(k))
    else if ptControl == 0.0 then Failure(DegenerateProbability(0))
    else
      var partRtK := Scaled(cols[rk], ptTreat);
      var partNrt0 := Scaled(cols[nr0], ptControl);
      var partNrtK := Scaled(cols[nrk], ptTreat);
      var partRt0 := Scaled(cols[r0], ptControl);
      var tau := seq(|partRtK|, i requires 0 <= i < |partRtK| =>
        (partRtK[i] + partNrt0[i]) - (partNrtK[i] + partRt0[i]));
      var parts := if returnParts then Some(Parts(partRtK, partNrt0, partNrtK, partRt0, ptControl, ptTreat)) else None;
      Success(Estimate(tau, parts))
  }

  /**
   * The missing column reported is the first of rk, nr0, nrk, r0 that the
   * table lacks, whatever the priors.
   */
  lemma MissingColumnOrder(cols: Columns, k: int, resp: string, nonresp: string,
                           probs: map<int, real>, returnParts: bool, j: nat)
    requires Rectangular(cols)
    requires j < |Inputs(resp, nonresp, k)| && Inputs(resp, nonresp, k)[j] !in cols
    requires forall j' :: 0 <= j' < j ==> Inputs(resp, nonresp, k)[j'] in cols
    ensures UpliftMmoa(cols, k, resp, nonresp, probs, returnParts) == Failure(MissingColumn(Inputs(resp, nonresp, k)[j]))
  {
    var ins := Inputs(resp, nonresp, k);
    if j >= 1 {
      assert ins[0] in cols;
    }
    if j >= 2 {
      assert ins[1] in cols;
    }
    if j >= 3 {
      assert ins[2] in cols;
    }
  }

  /**
   * An arm the prior map does not mention gets prior 0, so once its inputs
   * are all present the estimate for it fails on that degenerate prior.
   */
  lemma AbsentArmIsDegenerate(cols: Columns, k: int, resp: string, nonresp: string,
                              probs: map<int, real>, returnParts: bool)
    requires Rectangular(cols) && HasInputs(cols, resp, nonresp, k) && k !in probs
    ensures UpliftMmoa(cols, k, resp, nonresp, probs, returnParts) == Failure(DegenerateProbability(k))
  {
    var ins := Inputs(resp, nonresp, k);
    assert ins[0] in cols;
    assert ins[1] in cols;
    assert ins[2] in cols;
    assert ins[3] in cols;
  }

  /** No gap in either arm means no uplift. */
  lemma BalancedRowHasNoUplift(rk: real, nr0: real, nrk: real, r0: real, pk: real, p0: real)
    requires pk != 0.0 && p0 != 0.0
    requires rk == nrk && nr0 == r0
    ensures RowEstimate(rk, nr0, nrk, r0, pk, p0) == 0.0
  {
    assert (rk - nrk) / pk == 0.0;
  }

  /** Coming back more than not under arm k, and less under arm 0, with positive priors, is a non-negative uplift. */
  lemma FavourableRowHasNonNegativeUplift(rk: real, nr0: real, nrk: real, r0: real, pk: real, p0: real)
    requires pk > 0.0 && p0 > 0.0
    requires rk >= nrk && nr0 >= r0
    ensures RowEstimate(rk, nr0, nrk, r0, pk, p0) >= 0.0
  {
    DivideNonNegative(rk - nrk, pk);
    DivideNonNegative(nr0 - r0, p0);
  }

  lemma DivideNonNegative(a: real, p: real)
    requires a >= 0.0 && p > 0.0
    ensures a / p >= 0.0
  {
  }

  lemma OppositeGapsCancel(a: real, b: real, p: real)
    requires p != 0.0
    ensures (a - b) / p + (b - a) / p == 0.0
  {
    assert (b - a) / p == -((a - b) / p);
  }

  /** The control arm compared with itself has no uplift for anyone. */
  lemma ControlArmHasNoUplift(cols: Columns, resp: string, nonresp: string, probs: map<int, real>, returnParts: bool)
    requires Rectangular(cols)
    requires UpliftMmoa(cols, 0, resp, nonresp, probs, returnParts).Success?
    ensures forall i :: 0 <= i < |UpliftMmoa(cols, 0, resp, nonresp, probs, returnParts).value.tau| ==>
      UpliftMmoa(cols, 0, resp, nonresp, probs, returnParts).value.tau[i] == 0.0
  {
    var tau := UpliftMmoa(cols, 0, resp, nonresp, probs, returnParts).value.tau;
    var r0, nr0 := ColumnName(resp, 0), ColumnName(nonresp, 0);
    var p0 := Prior(probs, 0);
    forall i | 0 <= i < |tau| ensures tau[i] == 0.0 {
      OppositeGapsCancel(cols[r0][i], cols[nr0][i], p0);
    }
  }

  /** The table holding only row i of each column. */
  function RowOf(cols: Columns, i: nat): (one: Columns)
    requires forall name :: name in cols ==> i < |cols[name]|
    ensures one.Keys == cols.Keys
    ensures forall name :: name in one ==> one[name] == [cols[name][i]]
  {
    map name | name in cols :: [cols[name][i]]
  }

  /** Row i of the estimate is the estimate of the table cut down to row i. */
  lemma RowLocality(cols: Columns, k: int, resp: string, nonresp: string, probs: map<int, real>, i: nat)
    requires Rectangular(cols)
    requires forall name :: name in cols ==> i < |cols[name]|
    requires UpliftMmoa(cols, k, resp, nonresp, probs, false).Success?
    ensures Rectangular(RowOf(cols, i))
    ensures UpliftMmoa(RowOf(cols, i), k, resp, nonresp, probs, false).Success?
    ensures UpliftMmoa(RowOf(cols, i), k, resp, nonresp, probs, false).value.tau
      == [UpliftMmoa(cols, k, resp, nonresp, probs, false).value.tau[i]]
  {
    var one := RowOf(cols, i);
    var whole := UpliftMmoa(cols, k, resp, nonresp, probs, false).value.tau;
    assert HasInputs(one, resp, nonresp, k);
    var part := UpliftMmoa(one, k, resp, nonresp, probs, false).value.tau;
    assert |part| == 1;
    assert part[0] == whole[i];
  }
}
