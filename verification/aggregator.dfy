/**
 * Adding one uplift column per treatment arm to a copy of a table. Each arm k
 * whose four probability columns are all present gets a column uplift_{k}
 * holding the modified-outcome estimate; an arm with a missing column is
 * skipped. The table passed in is left as it was.
 */
module Aggregator {
  import opened Wrappers
  import opened Decimal
  import opened ModifiedOutcome

  /** The name of the uplift column of arm k: uplift_{k}. */
  function UpliftName(k: int): (name: string)
    ensures |name| > 7 && name[..7] == "uplift_"
  {
    "uplift_" + IntToString(k)
  }

  /** Different arms get different uplift columns. */
  lemma UpliftNameInjective(a: int, b: int)
    requires UpliftName(a) == UpliftName(b)
    ensures a == b
  {
    assert IntToString(a) == UpliftName(a)[7..] == UpliftName(b)[7..] == IntToString(b);
    IntToStringInjective(a, b);
  }

  /** An uplift column is never one of the probability columns an estimate reads. */
  lemma UpliftNameIsNoInput(k: int, prefix: string, j: int)
    ensures UpliftName(k) != ColumnName(prefix, j)
  {
    assert UpliftName(k)[0] == 'u' && ColumnName(prefix, j)[0] == 'p';
  }

  /** One step of the loop: the uplift column of arm k, or the table unchanged when k is skipped. */
  function AddArm(cols: Columns, k: int, resp: string, nonresp: string, probs: map<int, real>): (r: Result<Columns, MmoaError>)
    requires Rectangular(cols)
    ensures r.Success? ==> Rectangular(r.value)
  {
    if !HasInputs(cols, resp, nonresp, k) then Success(cols)
    else match UpliftMmoa(cols, k, resp, nonresp, probs, true)
      case Failure(e) => Failure(e)
      case Success(est) => Success(cols[UpliftName(k) := est.tau])
  }

  /** The arms ks processed in order, stopping at the first failure. */
  function AddAll(cols: Columns, ks: seq<int>, resp: string, nonresp: string, probs: map<int, real>): (r: Result<Columns, MmoaError>)
    requires Rectangular(cols)
    ensures r.Success? ==> Rectangular(r.value)
    decreases |ks|
  {
    if ks == [] then Success(cols)
    else match AddAll(cols, ks[..|ks| - 1], resp, nonresp, probs)
      case Failure(e) => Failure(e)
      case Success(prev) => AddArm(prev, ks[|ks| - 1], resp, nonresp, probs)
  }

  /** The uplift columns of the arms among ks that have all their inputs. */
  function Processed(cols: Columns, ks: seq<int>, resp: string, nonresp: string): set<string> {
    set k | k in ks && HasInputs(cols, resp, nonresp, k) :: UpliftName(k)
  }

  /** An arm whose inputs are present but whose estimate cannot be formed for want of a prior. */
  predicate Blocked(cols: Columns, k: int, resp: string, nonresp: string, probs: map<int, real>) {
    HasInputs(cols, resp, nonresp, k) && (Prior(probs, k) == 0.0 || Prior(probs, 0) == 0.0)
  }

  /**
   * The columns processing the arms ks leaves: the original ones plus one
   * uplift column per processed arm; every other column keeps its values.
   */
  ghost predicate KeepsColumns(out: Columns, cols: Columns, ks: seq<int>, resp: string, nonresp: string) {
    && out.Keys == cols.Keys + Processed(cols, ks, resp, nonresp)
    && (forall name :: name in cols && name !in Processed(cols, ks, resp, nonresp) ==> out[name] == cols[name])
  }

  /** The uplift column of every processed arm holds its estimate over the original columns. */
  ghost predicate HoldsEstimates(out: Columns, cols: Columns, ks: seq<int>, resp: string, nonresp: string, probs: map<int, real>)
    requires Rectangular(cols)
  {
    forall k :: k in ks && HasInputs(cols, resp, nonresp, k) ==>
      UpliftMmoa(cols, k, resp, nonresp, probs, true).Success?
      && UpliftName(k) in out
      && out[UpliftName(k)] == UpliftMmoa(cols, k, resp, nonresp, probs, true).value.tau
  }

  /**
   * What processing the arms ks leaves: the original columns plus one uplift
   * column per processed arm, which holds the estimate computed from the
   * original columns; every other column keeps its values.
   */
  ghost predicate Extends(out: Columns, cols: Columns, ks: seq<int>, resp: string, nonresp: string, probs: map<int, real>)
    requires Rectangular(cols)
  {
    KeepsColumns(out, cols, ks, resp, nonresp) && HoldsEstimates(out, cols, ks, resp, nonresp, probs)
  }

  /** The estimate reads nothing but its four input columns. */
  lemma MmoaReadsOnlyInputs(c1: Columns, c2: Columns, k: int, resp: string, nonresp: string, probs: map<int, real>)
    requires Rectangular(c1) && Rectangular(c2)
    requires forall name :: name in Inputs(resp, nonresp, k) ==>
      (name in c1 <==> name in c2) && (name in c1 ==> c1[name] == c2[name])
    ensures UpliftMmoa(c1, k, resp, nonresp, probs, true) == UpliftMmoa(c2, k, resp, nonresp, probs, true)
  {
    var rk, nr0, nrk, r0 := ColumnName(resp, k), ColumnName(nonresp, 0), ColumnName(nonresp, k), ColumnName(resp, 0);
    assert Inputs(resp, nonresp, k) == [rk, nr0, nrk, r0];
    assert rk in Inputs(resp, nonresp, k) && nr0 in Inputs(resp, nonresp, k);
    assert nrk in Inputs(resp, nonresp, k) && r0 in Inputs(resp, nonresp, k);
  }

  /** Columns added so far are uplift columns, so the inputs of any arm are as in the original table. */
  lemma InputsUntouched(prev: Columns, cols: Columns, ks: seq<int>, k: int, resp: string, nonresp: string, probs: map<int, real>)
    requires Rectangular(cols) && Rectangular(prev)
    requires KeepsColumns(prev, cols, ks, resp, nonresp)
    ensures HasInputs(prev, resp, nonresp, k) == HasInputs(cols, resp, nonresp, k)
    ensures UpliftMmoa(prev, k, resp, nonresp, probs, true) == UpliftMmoa(cols, k, resp, nonresp, probs, true)
  {
    var names := Processed(cols, ks, resp, nonresp);
    forall name | name in Inputs(resp, nonresp, k)
      ensures (name in prev <==> name in cols) && (name in prev ==> prev[name] == cols[name])
    {
      if name in names {
        var j :| j in ks && HasInputs(cols, resp, nonresp, j) && UpliftName(j) == name;
        UpliftNameIsNoInput(j, resp, k);
        UpliftNameIsNoInput(j, resp, 0);
        UpliftNameIsNoInput(j, nonresp, k);
        UpliftNameIsNoInput(j, nonresp, 0);
      }
    }
    MmoaReadsOnlyInputs(prev, cols, k, resp, nonresp, probs);
  }

  lemma ProcessedSnoc(cols: Columns, ks: seq<int>, k: int, resp: string, nonresp: string)
    ensures Processed(cols, ks + [k], resp, nonresp)
      == Processed(cols, ks, resp, nonresp) + (if HasInputs(cols, resp, nonresp, k) then {UpliftName(k)} else {})
  {
    var ks' := ks + [k];
    forall j | j in ks' ensures j in ks || j == k { }
    forall j | j in ks ensures j in ks' { }
  }

  /** A processed arm adds its estimate over the original columns. */
  lemma ExtendsProcessed(prev: Columns, cols: Columns, ks: seq<int>, k: int, resp: string, nonresp: string, probs: map<int, real>)
    requires Rectangular(cols) && Rectangular(prev)
    requires Extends(prev, cols, ks, resp, nonresp, probs)
    requires HasInputs(cols, resp, nonresp, k) && UpliftMmoa(cols, k, resp, nonresp, probs, true).Success?
    ensures Extends(prev[UpliftName(k) := UpliftMmoa(cols, k, resp, nonresp, probs, true).value.tau],
                    cols, ks + [k], resp, nonresp, probs)
  {
    var tau := UpliftMmoa(cols, k, resp, nonresp, probs, true).value.tau;
    KeepsColumnsProcessed(prev, cols, ks, k, resp, nonresp, tau);
    HoldsEstimatesProcessed(prev, cols, ks, k, resp, nonresp, probs);
  }

  lemma KeepsColumnsProcessed(prev: Columns, cols: Columns, ks: seq<int>, k: int, resp: string, nonresp: string, tau: seq<real>)
    requires KeepsColumns(prev, cols, ks, resp, nonresp) && HasInputs(cols, resp, nonresp, k)
    ensures KeepsColumns(prev[UpliftName(k) := tau], cols, ks + [k], resp, nonresp)
  {
    ProcessedSnoc(cols, ks, k, resp, nonresp);
  }

  lemma HoldsEstimatesProcessed(prev: Columns, cols: Columns, ks: seq<int>, k: int, resp: string, nonresp: string, probs: map<int, real>)
    requires Rectangular(cols)
    requires HoldsEstimates(prev, cols, ks, resp, nonresp, probs)
    requires HasInputs(cols, resp, nonresp, k) && UpliftMmoa(cols, k, resp, nonresp, probs, true).Success?
    ensures HoldsEstimates(prev[UpliftName(k) := UpliftMmoa(cols, k, resp, nonresp, probs, true).value.tau],
                           cols, ks + [k], resp, nonresp, probs)
  {
    var out := prev[UpliftName(k) := UpliftMmoa(cols, k, resp, nonresp, probs, true).value.tau];
    forall j | j in ks + [k] && HasInputs(cols, resp, nonresp, j)
      ensures UpliftName(j) in out
      ensures out[UpliftName(j)] == UpliftMmoa(cols, j, resp, nonresp, probs, true).value.tau
    {
      if UpliftName(j) == UpliftName(k) {
        UpliftNameInjective(j, k);
      } else {
        assert j in ks;
      }
    }
  }

  /** A skipped arm leaves the result as it was. */
  lemma ExtendsSkipped(prev: Columns, cols: Columns, ks: seq<int>, k: int, resp: string, nonresp: string, probs: map<int, real>)
    requires Rectangular(cols) && Rectangular(prev)
    requires Extends(prev, cols, ks, resp, nonresp, probs)
    requires !HasInputs(cols, resp, nonresp, k)
    ensures Extends(prev, cols, ks + [k], resp, nonresp, probs)
  {
    ProcessedSnoc(cols, ks, k, resp, nonresp);
    HoldsEstimatesSkipped(prev, cols, ks, k, resp, nonresp, probs);
  }

  lemma HoldsEstimatesSkipped(prev: Columns, cols: Columns, ks: seq<int>, k: int, resp: string, nonresp: string, probs: map<int, real>)
    requires Rectangular(cols)
    requires HoldsEstimates(prev, cols, ks, resp, nonresp, probs)
    requires !HasInputs(cols, resp, nonresp, k)
    ensures HoldsEstimates(prev, cols, ks + [k], resp, nonresp, probs)
  {
    forall j | j in ks + [k] && HasInputs(cols, resp, nonresp, j) ensures j in ks { }
  }

  /** Processing one more arm keeps the description of the result in terms of the original columns. */
  lemma ExtendsStep(prev: Columns, cols: Columns, ks: seq<int>, k: int, resp: string, nonresp: string, probs: map<int, real>)
    requires Rectangular(cols) && Rectangular(prev)
    requires Extends(prev, cols, ks, resp, nonresp, probs)
    ensures AddArm(prev, k, resp, nonresp, probs).Success? <==> !Blocked(cols, k, resp, nonresp, probs)
    ensures AddArm(prev, k, resp, nonresp, probs).Failure? ==> AddArm(prev, k, resp, nonresp, probs).error.DegenerateProbability?
    ensures AddArm(prev, k, resp, nonresp, probs).Success? ==>
      Extends(AddArm(prev, k, resp, nonresp, probs).value, cols, ks + [k], resp, nonresp, probs)
  {
    InputsUntouched(prev, cols, ks, k, resp, nonresp, probs);
    if !HasInputs(cols, resp, nonresp, k) {
      ExtendsSkipped(prev, cols, ks, k, resp, nonresp, probs);
    } else if !Blocked(cols, k, resp, nonresp, probs) {
      ExtendsProcessed(prev, cols, ks, k, resp, nonresp, probs);
    }
  }

  /** Processing the arms ks succeeds unless some arm with all its inputs lacks a prior, and then describes its result. */
  lemma {:induction false} AddAllMeaning(cols: Columns, ks: seq<int>, resp: string, nonresp: string, probs: map<int, real>)
    requires Rectangular(cols)
    ensures AddAll(cols, ks, resp, nonresp, probs).Success? <==>
      forall k :: k in ks ==> !Blocked(cols, k, resp, nonresp, probs)
    ensures AddAll(cols, ks, resp, nonresp, probs).Failure? ==>
      AddAll(cols, ks, resp, nonresp, probs).error.DegenerateProbability?
    ensures AddAll(cols, ks, resp, nonresp, probs).Success? ==>
      Extends(AddAll(cols, ks, resp, nonresp, probs).value, cols, ks, resp, nonresp, probs)
    decreases |ks|
  {
    if ks == [] {
      assert Processed(cols, ks, resp, nonresp) == {};
    } else {
      var init, k := ks[..|ks| - 1], ks[|ks| - 1];
      assert ks == init + [k];
      AddAllMeaning(cols, init, resp, nonresp, probs);
      var prev := AddAll(cols, init, resp, nonresp, probs);
      if prev.Success? {
        ExtendsStep(prev.value, cols, init, k, resp, nonresp, probs);
      } else {
        var b :| b in init && Blocked(cols, b, resp, nonresp, probs);
        assert b in ks;
      }
    }
  }

  /**
   * An arm gets an uplift column exactly when its four inputs are all
   * present (for a name the table did not already hold).
   */
  lemma ArmSkippedIffInputsMissing(cols: Columns, ks: seq<int>, k: int, resp: string, nonresp: string, probs: map<int, real>)
    requires Rectangular(cols) && k in ks && UpliftName(k) !in cols
    requires AddAll(cols, ks, resp, nonresp, probs).Success?
    ensures UpliftName(k) in AddAll(cols, ks, resp, nonresp, probs).value <==> HasInputs(cols, resp, nonresp, k)
  {
    AddAllMeaning(cols, ks, resp, nonresp, probs);
    if UpliftName(k) in Processed(cols, ks, resp, nonresp) {
      var j :| j in ks && HasInputs(cols, resp, nonresp, j) && UpliftName(j) == UpliftName(k);
      UpliftNameInjective(j, k);
    }
  }

  /** Once a prefix of the arms has failed, processing all of them fails the same way. */
  lemma {:induction false} FailureSticks(cols: Columns, ks: seq<int>, j: nat, resp: string, nonresp: string, probs: map<int, real>)
    requires Rectangular(cols) && j <= |ks|
    requires AddAll(cols, ks[..j], resp, nonresp, probs).Failure?
    ensures AddAll(cols, ks, resp, nonresp, probs) == AddAll(cols, ks[..j], resp, nonresp, probs)
    decreases |ks| - j
  {
    if j < |ks| {
      var init := ks[..|ks| - 1];
      assert init[..j] == ks[..j];
      FailureSticks(cols, init, j, resp, nonresp, probs);
    } else {
      assert ks[..j] == ks;
    }
  }

  /** A table whose columns are updated in place. */
  class Frame {
    var height: nat
    var columns: Columns

    ghost predicate Valid()
      reads this
    {
      forall name :: name in columns ==> |columns[name]| == height
    }

    constructor (height: nat, columns: Columns)
      requires forall name :: name in columns ==> |columns[name]| == height
      ensures Valid() && this.height == height && this.columns == columns
    {
      this.height := height;
      this.columns := columns;
    }

    /** A new frame with the same rows and columns. */
    method Copy() returns (f: Frame)
      requires Valid()
      ensures fresh(f) && f.Valid() && f.height == height && f.columns == columns
    {
      f := new Frame(height, columns);
    }

    /** Sets a column, adding it when absent and replacing it when present. */
    method SetColumn(name: string, values: seq<real>)
      requires Valid() && |values| == height
      modifies this
      ensures Valid() && height == old(height) && columns == old(columns)[name := values]
    {
      columns := columns[name := values];
    }
  }

  /**
   * A copy of the frame with the uplift column of every arm in ks whose four
   * probability columns are present, in the order of ks; the frame passed in
   * is not changed.
   */
  method AddUplifts(df: Frame, ks: seq<int>, resp: string, nonresp: string, probs: map<int, real>)
    returns (r: Result<Frame, MmoaError>)
    requires df.Valid()
    ensures unchanged(df)
    ensures r.Success? ==> fresh(r.value) && r.value.Valid() && r.value.height == df.height
    ensures r.Success? ==> AddAll(df.columns, ks, resp, nonresp, probs) == Success(r.value.columns)
    ensures r.Failure? ==> AddAll(df.columns, ks, resp, nonresp, probs) == Failure(r.error)
  {
    var out := df.Copy();
    for i := 0 to |ks|
      invariant fresh(out) && out.Valid() && out.height == df.height
      invariant AddAll(df.columns, ks[..i], resp, nonresp, probs) == Success(out.columns)
    {
      var k := ks[i];
      assert ks[..i + 1][..i] == ks[..i] && ks[..i + 1][i] == k;
      if !HasInputs(out.columns, resp, nonresp, k) {
        continue;
      }
      var est := UpliftMmoa(out.columns, k, resp, nonresp, probs, true);
      if est.Failure? {
        FailureSticks(df.columns, ks, i + 1, resp, nonresp, probs);
        return Failure(est.error);
      }
      out.SetColumn(UpliftName(k), est.value.tau);
    }
    assert ks[..|ks|] == ks;
    return Success(out);
  }
}
