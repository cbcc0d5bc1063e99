/**
 * Prior treatment probabilities read from the outcome labels: the arm of a
 * label is its last character read as a digit (cameback_3 is arm 3), and the
 * prior of an arm is the share of labels in that arm. The result is the
 * ascending list of (arm, share) pairs for the arms that occur, the order in
 * which the source's dictionary is built.
 */
module TreatmentProbs {
  import opened Wrappers
  import opened Decimal

  /** The label at this position does not end in a decimal digit (or is empty). */
  datatype ProbError = NotADigit(index: nat)

  /** The arm code of a label: its last character read as a decimal digit. */
  function ArmCode(lbl: string): (r: Option<nat>)
    ensures r.Some? <==> |lbl| > 0 && IsDigit(lbl[|lbl| - 1])
    ensures r.Some? ==> r.value < 10 && DigitChar(r.value) == lbl[|lbl| - 1]
  {
    if |lbl| > 0 && IsDigit(lbl[|lbl| - 1]) then Some(DigitValue(lbl[|lbl| - 1])) else None
  }

  /** The arm codes of all labels, or the position of the first label that has none. */
  function ArmCodes(labels: seq<string>): (r: Result<seq<nat>, ProbError>)
    ensures r.Success? <==> forall i :: 0 <= i < |labels| ==> ArmCode(labels[i]).Some?
    ensures r.Success? ==> |r.value| == |labels|
    ensures r.Success? ==> forall i :: 0 <= i < |labels| ==> r.value[i] == ArmCode(labels[i]).value
    ensures r.Failure? ==> r.error.index < |labels| && ArmCode(labels[r.error.index]).None?
    ensures r.Failure? ==> forall i :: 0 <= i < r.error.index ==> ArmCode(labels[i]).Some?
    decreases |labels|
  {
    if labels == [] then Success([])
    else match ArmCode(labels[0])
      case None => Failure(NotADigit(0))
      case Some(d) =>
        match ArmCodes(labels[1..])
        case Failure(e) => Failure(NotADigit(e.index + 1))
        case Success(rest) => Success([d] + rest)
  }

  /** How many of the codes equal d. */
  function Count(codes: seq<nat>, d: nat): (c: nat)
    ensures c <= |codes|
    decreases |codes|
  {
    if codes == [] then 0
    else Count(codes[..|codes| - 1], d) + (if codes[|codes| - 1] == d then 1 else 0)
  }

  /** The number of codes in the range [d, 10). */
  function CountFrom(codes: seq<nat>, d: nat): nat
    requires d <= 10
    decreases 10 - d
  {
    if d == 10 then 0 else Count(codes, d) + CountFrom(codes, d + 1)
  }

  predicate StrictlyAscending(pairs: seq<(nat, real)>) {
    forall i, j :: 0 <= i < j < |pairs| ==> pairs[i].0 < pairs[j].0
  }

  /** The share of a count in a total, as a real number; nothing is a share of nothing. */
  function Share(count: nat, total: nat): real {
    if total == 0 then 0.0 else count as real / total as real
  }

  /** The arms a list of pairs lists. */
  function Arms(pairs: seq<(nat, real)>): set<nat> {
    set i | 0 <= i < |pairs| :: pairs[i].0
  }

  lemma ArmsCons(head: (nat, real), rest: seq<(nat, real)>)
    ensures Arms([head] + rest) == {head.0} + Arms(rest)
  {
    var r := [head] + rest;
    forall a | a in Arms(rest) ensures a in Arms(r) {
      var i :| 0 <= i < |rest| && rest[i].0 == a;
      assert r[i + 1] == rest[i];
    }
    assert r[0] == head;
  }

  /** A pair placed before an ascending list whose arms all exceed its own keeps it ascending. */
  lemma AscendingCons(head: (nat, real), rest: seq<(nat, real)>)
    requires StrictlyAscending(rest)
    requires forall i :: 0 <= i < |rest| ==> head.0 < rest[i].0
    ensures StrictlyAscending([head] + rest)
  {
    var r := [head] + rest;
    forall i, j | 0 <= i < j < |r|
      ensures r[i].0 < r[j].0
    {
      assert r[j] == rest[j - 1];
      if i > 0 {
        assert r[i] == rest[i - 1];
      }
    }
  }

  /** The shares of the arms d, d+1, ..., 9 that occur among the codes, in ascending order. */
  function SharesFrom(codes: seq<nat>, d: nat): (r: seq<(nat, real)>)
    requires d <= 10
    ensures forall i :: 0 <= i < |r| ==> d <= r[i].0 < 10
    decreases 10 - d
  {
    if d == 10 then []
    else
      var rest := SharesFrom(codes, d + 1);
      if Count(codes, d) > 0 then [(d, Share(Count(codes, d), |codes|))] + rest else rest
  }

  /** The listed arms ascend strictly. */
  lemma {:induction false} SharesFromAscending(codes: seq<nat>, d: nat)
    requires d <= 10
    ensures StrictlyAscending(SharesFrom(codes, d))
    decreases 10 - d
  {
    if d < 10 {
      SharesFromAscending(codes, d + 1);
      if Count(codes, d) > 0 {
        AscendingCons((d, Share(Count(codes, d), |codes|)), SharesFrom(codes, d + 1));
      }
    }
  }

  /** Every listed arm occurs among the codes, with its count's share of all codes as its value. */
  lemma {:induction false} SharesFromValues(codes: seq<nat>, d: nat)
    requires d <= 10
    ensures forall i :: 0 <= i < |SharesFrom(codes, d)| ==>
      var p := SharesFrom(codes, d)[i];
      Count(codes, p.0) > 0 && p.1 == Share(Count(codes, p.0), |codes|)
    decreases 10 - d
  {
    if d < 10 {
      SharesFromValues(codes, d + 1);
      var rest := SharesFrom(codes, d + 1);
      if Count(codes, d) > 0 {
        var r := SharesFrom(codes, d);
        forall i | 0 <= i < |r|
          ensures Count(codes, r[i].0) > 0 && r[i].1 == Share(Count(codes, r[i].0), |codes|)
        {
          if i > 0 {
            assert r[i] == rest[i - 1];
          }
        }
      }
    }
  }

  /** Exactly the arms in [d, 10) that occur among the codes are listed. */
  lemma {:induction false} SharesFromArms(codes: seq<nat>, d: nat)
    requires d <= 10
    ensures forall a :: a in Arms(SharesFrom(codes, d)) <==> d <= a < 10 && Count(codes, a) > 0
    decreases 10 - d
  {
    if d < 10 {
      SharesFromArms(codes, d + 1);
      if Count(codes, d) > 0 {
        ArmsCons((d, Share(Count(codes, d), |codes|)), SharesFrom(codes, d + 1));
      }
    }
  }

  /** The prior probability of each arm that occurs among the labels, in ascending arm order. */
  function GetTreatmentProbs(labels: seq<string>): (r: Result<seq<(nat, real)>, ProbError>)
    ensures r.Failure? <==> exists i :: 0 <= i < |labels| && ArmCode(labels[i]).None?
    ensures r.Success? ==> StrictlyAscending(r.value)
    ensures r.Success? ==> forall a :: a in Arms(r.value) <==> a < 10 && Count(ArmCodes(labels).value, a) > 0
    ensures r.Success? ==> forall i :: 0 <= i < |r.value| ==>
      r.value[i].1 == Share(Count(ArmCodes(labels).value, r.value[i].0), |labels|)
    ensures labels == [] ==> r == Success([])
  {
    var codes :- ArmCodes(labels);
    SharesFromAscending(codes, 0);
    SharesFromValues(codes, 0);
    SharesFromArms(codes, 0);
    Success(SharesFrom(codes, 0))
  }

  function SumShares(pairs: seq<(nat, real)>): real
    decreases |pairs|
  {
    if pairs == [] then 0.0 else pairs[0].1 + SumShares(pairs[1..])
  }

  /** Counting one more code adds one to the count of its own value only. */
  lemma CountSnoc(codes: seq<nat>, x: nat, d: nat)
    ensures Count(codes + [x], d) == Count(codes, d) + (if x == d then 1 else 0)
  {
    assert (codes + [x])[..|codes|] == codes;
  }

  lemma {:induction false} CountFromSnoc(codes: seq<nat>, x: nat, d: nat)
    requires d <= 10
    ensures CountFrom(codes + [x], d) == CountFrom(codes, d) + (if d <= x < 10 then 1 else 0)
    decreases 10 - d
  {
    if d < 10 {
      CountSnoc(codes, x, d);
      CountFromSnoc(codes, x, d + 1);
    }
  }

  /** Every code below 10 is counted exactly once over the arms 0..9. */
  lemma {:induction false} CountFromAll(codes: seq<nat>)
    requires forall i :: 0 <= i < |codes| ==> codes[i] < 10
    ensures CountFrom(codes, 0) == |codes|
    decreases |codes|
  {
    if codes != [] {
      var init := codes[..|codes| - 1];
      assert codes == init + [codes[|codes| - 1]];
      CountFromAll(init);
      CountFromSnoc(init, codes[|codes| - 1], 0);
    }
  }

  lemma AddShares(a: nat, b: nat, n: nat)
    ensures Share(a, n) + Share(b, n) == Share(a + b, n)
  {
  }

  lemma ShareOfWhole(n: nat)
    requires n > 0
    ensures Share(n, n) == 1.0
  {
  }

  /** The shares listed from arm d on are the share of arm d plus those listed from d + 1 on. */
  lemma SumSharesStep(codes: seq<nat>, d: nat)
    requires d < 10
    ensures SumShares(SharesFrom(codes, d)) == Share(Count(codes, d), |codes|) + SumShares(SharesFrom(codes, d + 1))
  {
    var c, n := Count(codes, d), |codes|;
    if c > 0 {
      SumSharesCons((d, Share(c, n)), SharesFrom(codes, d + 1));
    }
  }

  lemma SumSharesCons(head: (nat, real), rest: seq<(nat, real)>)
    ensures SumShares([head] + rest) == head.1 + SumShares(rest)
  {
    assert ([head] + rest)[1..] == rest;
  }

  /** The shares listed from arm d on add up to the counted share of those arms. */
  lemma {:induction false} SharesFromSum(codes: seq<nat>, d: nat)
    requires d <= 10 && |codes| > 0
    ensures SumShares(SharesFrom(codes, d)) == Share(CountFrom(codes, d), |codes|)
    decreases 10 - d
  {
    if d < 10 {
      SharesFromSum(codes, d + 1);
      SumSharesStep(codes, d);
      AddShares(Count(codes, d), CountFrom(codes, d + 1), |codes|);
    }
  }

  /** For a non-empty list of labels, the priors add up to one. */
  lemma ProbabilitiesSumToOne(labels: seq<string>)
    requires GetTreatmentProbs(labels).Success? && |labels| > 0
    ensures SumShares(GetTreatmentProbs(labels).value) == 1.0
  {
    var codes := ArmCodes(labels).value;
    assert GetTreatmentProbs(labels).value == SharesFrom(codes, 0);
    CountFromAll(codes);
    SharesFromSum(codes, 0);
    ShareOfWhole(|codes|);
  }

  lemma ExampleCodes()
    ensures ArmCodes(["cameback_0", "cameback_0", "cameback_1"]) == Success([0, 0, 1])
  {
    var labels := ["cameback_0", "cameback_0", "cameback_1"];
    assert ArmCode(labels[2]) == Some(1);
    assert ArmCode(labels[0]) == Some(0) && ArmCode(labels[1]) == Some(0);
    var r := ArmCodes(labels);
    assert r.Success?;
    assert |r.value| == 3 && r.value[0] == 0 && r.value[1] == 0 && r.value[2] == 1;
    assert r.value == [0, 0, 1];
  }

  lemma ExampleCounts()
    ensures Count([0, 0, 1], 0) == 2 && Count([0, 0, 1], 1) == 1
  {
    var codes: seq<nat> := [0, 0, 1];
    assert codes[..2] == [0, 0] && codes[..2][..1] == [0];
  }

  /** A value none of the codes takes has count zero. */
  lemma {:induction false} CountAbsent(codes: seq<nat>, a: nat)
    requires forall i :: 0 <= i < |codes| ==> codes[i] != a
    ensures Count(codes, a) == 0
    decreases |codes|
  {
    if codes != [] {
      CountAbsent(codes[..|codes| - 1], a);
    }
  }

  /** No arm from d on is listed when every code is below d. */
  lemma SharesBeyondCodes(codes: seq<nat>, d: nat)
    requires d <= 10
    requires forall i :: 0 <= i < |codes| ==> codes[i] < d
    ensures SharesFrom(codes, d) == []
  {
    var r := SharesFrom(codes, d);
    if r != [] {
      SharesFromValues(codes, d);
      CountAbsent(codes, r[0].0);
    }
  }

  lemma ExampleShares()
    ensures SharesFrom([0, 0, 1], 0) == [(0, Share(2, 3)), (1, Share(1, 3))]
  {
    ExampleCounts();
    SharesBeyondCodes([0, 0, 1], 2);
    assert SharesFrom([0, 0, 1], 1) == [(1, Share(1, 3))];
  }

  /** Labels cameback_0, cameback_0, cameback_1 give arm 0 two thirds and arm 1 one third. */
  lemma Example()
    ensures GetTreatmentProbs(["cameback_0", "cameback_0", "cameback_1"])
      == Success([(0, 2.0 / 3.0), (1, 1.0 / 3.0)])
  {
    ExampleCodes();
    ExampleShares();
    assert Share(2, 3) == 2.0 / 3.0 && Share(1, 3) == 1.0 / 3.0;
  }
}
