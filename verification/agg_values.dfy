/** The values that an aggregate computes and reports of a group, and what they mean (aggregate.go). */
module AggregateValues {
  import opened Common
  import opened Float64
  import Spec = TimebasedSpec

  datatype Operation = Sum | Avg | Max | Min | Count | RawValues {
    function Name(): string {
      match this
      case Sum => "sum"
      case Avg => "avg"
      case Max => "max"
      case Min => "min"
      case Count => "count"
      case RawValues => "raw_values"
    }
  }

  /** What one flow log contributes to a group: its number, if it carries one that parses. */
  type Input = Option<real>

  // ----- the values of an operation

  function Numbers(inputs: seq<Input>): seq<real> {
    if inputs == [] then [] else
    var n := |inputs| - 1;
    Numbers(inputs[..n]) + (match inputs[n] case Some(v) => [v] case None => [])
  }

  /** The average of count values with the given average, and one more value. */
  function Weighted(average: real, count: nat, v: real): real { (average * count as real + v) / (count + 1) as real }

  function InitValue(op: Operation): real { if op.Min? then MAX_FLOAT64 else 0.0 }

  /** One more flow log. */
  function NextValue(op: Operation, value: real, count: nat, x: Input): real {
    if op.Count? then (count + 1) as real else
    match x
    case None => value
    case Some(v) =>
      match op
      case Sum => value + v
      case Max => if value < v then v else value
      case Min => if v < value then v else value
      case Avg => Weighted(value, count, v)
      case _ => value
  }

  /** The value after some flow logs. */
  function OpValue(op: Operation, inputs: seq<Input>): real
    decreases inputs, op
  {
    if inputs == [] then InitValue(op) else
    var n := |inputs| - 1;
    NextValue(op, OpValue(op, inputs[..n]), n, inputs[n])
  }

  /** The raw values kept, if they are to be kept. */
  function RawValuesOf(op: Operation, inputs: seq<Input>): seq<real>
    decreases inputs, op
  {
    if inputs == [] || !op.RawValues? then [] else
    var n := |inputs| - 1;
    RawValuesOf(op, inputs[..n]) + (match inputs[n] case Some(v) => [v] case None => [])
  }

  lemma ValueStep(op: Operation, inputs: seq<Input>, x: Input)
    ensures OpValue(op, inputs + [x]) == NextValue(op, OpValue(op, inputs), |inputs|, x)
    ensures op.RawValues? ==>
      RawValuesOf(op, inputs + [x]) == RawValuesOf(op, inputs) + (match x case Some(v) => [v] case None => [])
  {
    assert (inputs + [x])[..|inputs|] == inputs;
  }

  // ----- what the values mean

  lemma NumbersAppend(inputs: seq<Input>, x: Input)
    ensures Numbers(inputs + [x]) == Numbers(inputs) + (match x case Some(v) => [v] case None => [])
  {
    assert (inputs + [x])[..|inputs|] == inputs;
  }

  lemma FoldStep(inputs: seq<Input>, x: Input, least: real, greatest: real)
    ensures var (nums, nums') := (Numbers(inputs), Numbers(inputs + [x]));
      match x
      case None => nums' == nums
      case Some(v) =>
        && Total(nums') == Total(nums) + v
        && Spec.Greatest(nums', least) == (if Spec.Greatest(nums, least) < v then v else Spec.Greatest(nums, least))
        && Spec.Smallest(nums', greatest)
          == (if v < Spec.Smallest(nums, greatest) then v else Spec.Smallest(nums, greatest))
  {
    NumbersAppend(inputs, x);
    if x.Some? {
      assert (Numbers(inputs) + [x.value])[..|Numbers(inputs)|] == Numbers(inputs);
    } else {
      assert Numbers(inputs) + [] == Numbers(inputs);
    }
  }

  /** The value is the sum, the count, the maximum from zero or the minimum of the numbers, and the raw values kept are
      the numbers. */
  lemma {:induction false} ValueMeaning(op: Operation, inputs: seq<Input>)
    ensures op.Sum? ==> OpValue(op, inputs) == Total(Numbers(inputs))
    ensures op.Count? ==> OpValue(op, inputs) == |inputs| as real
    ensures op.Max? ==> OpValue(op, inputs) == Spec.Greatest(Numbers(inputs), 0.0)
    ensures op.Min? ==> OpValue(op, inputs) == Spec.Smallest(Numbers(inputs), MAX_FLOAT64)
    ensures op.RawValues? ==> RawValuesOf(op, inputs) == Numbers(inputs)
  {
    if inputs != [] && !op.Avg? {
      var n := |inputs| - 1;
      ValueMeaning(op, inputs[..n]);
      FoldStep(inputs[..n], inputs[n], 0.0, MAX_FLOAT64);
      assert inputs == inputs[..n] + [inputs[n]];
    }
  }

  // ----- conservation over reports

  function Concat(chunks: seq<seq<Input>>): seq<Input> {
    if chunks == [] then [] else Concat(chunks[..|chunks|-1]) + chunks[|chunks|-1]
  }

  /** The sum of the recent values reported for consecutive chunks of input. */
  function Reported(op: Operation, chunks: seq<seq<Input>>): real {
    if chunks == [] then 0.0 else Reported(op, chunks[..|chunks|-1]) + OpValue(op, chunks[|chunks|-1])
  }

  lemma {:induction false} NumbersConcat(a: seq<Input>, b: seq<Input>)
    ensures Numbers(a + b) == Numbers(a) + Numbers(b)
  {
    if b == [] {
      assert a + b == a;
    } else {
      var n := |b| - 1;
      assert (a + b)[..|a|+n] == a + b[..n];
      NumbersConcat(a, b[..n]);
    }
  }

  lemma {:induction false} TotalConcat(a: seq<real>, b: seq<real>)
    ensures Total(a + b) == Total(a) + Total(b)
  {
    if b == [] {
      assert a + b == a;
    } else {
      assert (a + b)[..|a|+|b|-1] == a + b[..|b|-1];
      TotalConcat(a, b[..|b|-1]);
    }
  }

  /** For sums and counts, what was reported since the group began plus what is pending is the total. */
  lemma {:induction false} ReportsAddUp(op: Operation, chunks: seq<seq<Input>>, pending: seq<Input>)
    requires op.Sum? || op.Count?
    ensures Reported(op, chunks) + OpValue(op, pending) == OpValue(op, Concat(chunks) + pending)
  {
    if chunks == [] {
      assert Concat(chunks) + pending == pending;
    } else {
      var n := |chunks| - 1;
      ReportsAddUp(op, chunks[..n], chunks[n]);
      ValuesAdd(op, Concat(chunks), pending);
    }
  }

  lemma ValuesAdd(op: Operation, a: seq<Input>, b: seq<Input>)
    requires op.Sum? || op.Count?
    ensures OpValue(op, a + b) == OpValue(op, a) + OpValue(op, b)
  {
    ValueMeaning(op, a);
    ValueMeaning(op, b);
    ValueMeaning(op, a + b);
    NumbersConcat(a, b);
    TotalConcat(Numbers(a), Numbers(b));
  }

  function ReportedRaw(chunks: seq<seq<Input>>): seq<real> {
    if chunks == [] then [] else ReportedRaw(chunks[..|chunks|-1]) + Numbers(chunks[|chunks|-1])
  }

  /** The raw values reported, followed by the pending ones, are all parsed values in order. */
  lemma {:induction false} RawReportsConcatenate(chunks: seq<seq<Input>>, pending: seq<Input>)
    ensures ReportedRaw(chunks) + Numbers(pending) == Numbers(Concat(chunks) + pending)
  {
    NumbersConcat(Concat(chunks), pending);
    if chunks != [] {
      var n := |chunks| - 1;
      RawReportsConcatenate(chunks[..n], chunks[n]);
    }
  }

  // ----- averages

  predicate AllNumbers(inputs: seq<Input>) { forall i :: 0 <= i < |inputs| ==> inputs[i].Some? }

  lemma {:induction false} AllNumbersCounted(inputs: seq<Input>)
    ensures |Numbers(inputs)| <= |inputs|
    ensures |Numbers(inputs)| == |inputs| <==> AllNumbers(inputs)
  {
    if inputs != [] {
      var n := |inputs| - 1;
      AllNumbersCounted(inputs[..n]);
      assert AllNumbers(inputs) <==> AllNumbers(inputs[..n]) && inputs[n].Some? by {
        assert forall i :: 0 <= i < n ==> inputs[..n][i] == inputs[i];
      }
    }
  }

  /** n copies of a value added up. */
  function Times(a: real, n: nat): real { if n == 0 then 0.0 else Times(a, n - 1) + a }

  lemma {:induction false} TimesIsProduct(a: real, n: nat)
    ensures Times(a, n) == a * n as real
  {
    if n > 0 {
      TimesIsProduct(a, n - 1);
    }
  }

  /** When every flow log carries a number, the running average is the mean: as many copies of it as there are flow logs
      add up to the total. */
  lemma {:induction false} AverageExact(inputs: seq<Input>)
    requires AllNumbers(inputs)
    ensures Times(OpValue(Avg, inputs), |inputs|) == Total(Numbers(inputs))
  {
    if inputs != [] {
      var before, x := inputs[..|inputs|-1], inputs[|inputs|-1];
      AverageExact(before);
      assert inputs == before + [x];
      ValueStep(Avg, before, x);
      TotalAppend(before, x);
      WeightedTimes(OpValue(Avg, before), |before|, x.value);
    }
  }

  lemma WeightedTimes(mean: real, n: nat, v: real)
    ensures Times(Weighted(mean, n, v), n + 1) == Times(mean, n) + v
  {
    TimesIsProduct(mean, n);
    TimesIsProduct(Weighted(mean, n, v), n + 1);
    MeanStep(mean, mean * n as real, n, v);
  }

  lemma TotalAppend(inputs: seq<Input>, x: Input)
    requires x.Some?
    ensures Total(Numbers(inputs + [x])) == Total(Numbers(inputs)) + x.value
  {
    FoldStep(inputs, x, 0.0, 0.0);
  }

  lemma MeanStep(mean: real, total: real, n: nat, v: real)
    requires mean * n as real == total
    ensures Weighted(mean, n, v) == (total + v) / (n + 1) as real
    ensures Weighted(mean, n, v) * (n + 1) as real == total + v
  {
    Divided(total + v, (n + 1) as real);
  }

  lemma Divided(a: real, d: real)
    requires d > 0.0
    ensures a / d * d == a
  {
  }

  /** One step further: an average that is exact so far stays exact if and only if every flow log so far carried a
      number, or the new number equals the average. */
  lemma AverageStepExact(inputs: seq<Input>, v: real)
    requires Times(OpValue(Avg, inputs), |Numbers(inputs)|) == Total(Numbers(inputs))
    ensures var inputs' := inputs + [Some(v)];
      Times(OpValue(Avg, inputs'), |Numbers(inputs')|) == Total(Numbers(inputs'))
      <==> AllNumbers(inputs) || v == OpValue(Avg, inputs)
  {
    AllNumbersCounted(inputs);
    ValueStep(Avg, inputs, Some(v));
    NumbersAppend(inputs, Some(v));
    TotalAppend(inputs, Some(v));
    var avg, n := OpValue(Avg, inputs), |Numbers(inputs)|;
    WeightedTimes(avg, n, v);
    SameTimes(Weighted(avg, |inputs|, v), Weighted(avg, n, v), n + 1);
    SameQuotient(avg, v, |inputs|, n);
  }

  lemma SameTimes(a: real, b: real, n: nat)
    requires n > 0
    ensures Times(a, n) == Times(b, n) <==> a == b
  {
    TimesIsProduct(a, n);
    TimesIsProduct(b, n);
    if a * n as real == b * n as real {
      ZeroFactor(a - b, n as real);
    }
  }

  lemma SameQuotient(avg: real, v: real, c: nat, n: nat)
    ensures Weighted(avg, c, v) == Weighted(avg, n, v) <==> c == n || v == avg
  {
    var x, y := Weighted(avg, c, v), Weighted(avg, n, v);
    Divided(avg * c as real + v, (c + 1) as real);
    Divided(avg * n as real + v, (n + 1) as real);
    Deviation(x, avg, v, c);
    Deviation(y, avg, v, n);
    var dx, dy := x - avg, y - avg;
    if dx == dy && v != avg {
      assert dx * (c + 1) as real == dx * (n + 1) as real;
      assert dx != 0.0;
      Cancel(dx, (c + 1) as real, (n + 1) as real);
    }
    if v == avg {
      ZeroFactor(dx, (c + 1) as real);
      ZeroFactor(dy, (n + 1) as real);
    }
  }

  lemma Deviation(x: real, avg: real, v: real, c: nat)
    requires x * (c + 1) as real == avg * c as real + v
    ensures (x - avg) * (c + 1) as real == v - avg
  {
    assert (c + 1) as real == c as real + 1.0;
    assert (x - avg) * (c + 1) as real == x * (c + 1) as real - avg * (c + 1) as real;
    assert avg * (c as real + 1.0) == avg * c as real + avg;
  }

  lemma Cancel(d: real, a: real, b: real)
    requires d != 0.0 && d * a == d * b
    ensures a == b
  {
    assert d * (a - b) == 0.0;
  }

  lemma ZeroFactor(d: real, a: real)
    requires a > 0.0 && d * a == 0.0
    ensures d == 0.0
  {
  }

  /** The maximum starts from zero: it is the maximum of the numbers if and only if one of them is not negative. */
  lemma MaximumExact(inputs: seq<Input>)
    requires Numbers(inputs) != []
    ensures var (nums, m) := (Numbers(inputs), OpValue(Operation.Max, inputs));
      m in nums && (forall i :: 0 <= i < |nums| ==> nums[i] <= m) <==> exists i :: 0 <= i < |nums| && nums[i] >= 0.0
  {
    var nums, m := Numbers(inputs), OpValue(Operation.Max, inputs);
    ValueMeaning(Operation.Max, inputs);
    GreatestFromZero(nums);
    if m in nums {
      var i := IndexOf(nums, m);
      assert nums[i] >= 0.0;
    }
  }

  /** The minimum starts from the largest finite double, and is the minimum of any finite numbers. */
  lemma MinimumExact(inputs: seq<Input>)
    requires Numbers(inputs) != [] && forall i :: 0 <= i < |Numbers(inputs)| ==> IsFloat64(Numbers(inputs)[i])
    ensures OpValue(Operation.Min, inputs) in Numbers(inputs)
    ensures forall i :: 0 <= i < |Numbers(inputs)| ==> OpValue(Operation.Min, inputs) <= Numbers(inputs)[i]
  {
    ValueMeaning(Operation.Min, inputs);
    Spec.WindowExtremes(Numbers(inputs));
  }

  lemma {:induction false} GreatestFromZero(nums: seq<real>)
    ensures var m := Spec.Greatest(nums, 0.0);
      && m >= 0.0 && (forall i :: 0 <= i < |nums| ==> nums[i] <= m)
      && (m in nums || m == 0.0)
      && ((exists i :: 0 <= i < |nums| && nums[i] >= 0.0) ==> m in nums)
  {
    if nums != [] {
      var n := |nums| - 1;
      GreatestFromZero(nums[..n]);
      var m := Spec.Greatest(nums, 0.0);
      if exists i :: 0 <= i < |nums| && nums[i] >= 0.0 {
        var i :| 0 <= i < |nums| && nums[i] >= 0.0;
        if i < n {
          assert nums[..n][i] >= 0.0;
        }
      }
    }
  }

}
