// The trailing moving average of the npm chart: a queue and a running sum instead of a sum
// per point.
module RollingAverage {

  function Sum(values: seq<real>, from: nat, to: nat): real
    requires from <= to <= |values|
  {
    if from == to then 0.0 else Sum(values, from, to - 1) + values[to - 1]
  }

  // The plain mean of values[from..to].
  function Mean(values: seq<real>, from: nat, to: nat): real
    requires from < to <= |values|
  {
    Share(Sum(values, from, to), to - from)
  }

  function Share(sum: real, n: nat): real
    requires n > 0
  {
    sum / n as real
  }

  function Size(window: real): (size: nat)
    ensures size >= 1
  {
    if window.Floor < 1 then 1 else window.Floor
  }

  // The whole part of the window, but one value at least.
  lemma SizeIs(window: real)
    ensures window < 2.0 ==> Size(window) == 1
    ensures window >= 1.0 ==> Size(window) as real <= window < Size(window) as real + 1.0
  {}

  // Where the window that ends with value i begins.
  function WindowStart(i: nat, size: nat): (from: nat)
    ensures from <= i + 1
    ensures size >= 1 ==> i + 1 - from == if i + 1 < size then i + 1 else size
  {
    if i + 1 < size then 0 else i + 1 - size
  }

  lemma {:induction false} DropFirst(values: seq<real>, from: nat, to: nat)
    requires from < to <= |values|
    ensures Sum(values, from, to) - values[from] == Sum(values, from + 1, to)
  {
    if from + 1 < to {
      DropFirst(values, from, to - 1);
    } else {
      assert Sum(values, from, from) == 0.0;
    }
  }

  lemma SumPush(values: seq<real>, from: nat, to: nat)
    requires from <= to < |values|
    ensures Sum(values, from, to + 1) == Sum(values, from, to) + values[to]
  {}

  // Every point is the mean of the last `window` values, or of all there are.
  method RollingAverage(values: seq<real>, window: real) returns (out: seq<real>)
    ensures |out| == |values|
    ensures forall i | 0 <= i < |values| :: out[i] == Mean(values, WindowStart(i, Size(window)), i + 1)
  {
    hide Share;
    var size := Size(window);
    hide Size;
    out := [];
    var q: seq<real> := [];
    var sum := 0.0;
    ghost var from := 0;
    assert Sum(values, 0, 0) == 0.0;
    hide Sum;
    for i := 0 to |values|
      invariant from == (if i == 0 then 0 else WindowStart(i - 1, size))
      invariant from <= i && q == values[from..i] && |q| <= size
      invariant sum == Sum(values, from, i)
      invariant |out| == i
      invariant forall j | 0 <= j < i :: out[j] == Mean(values, WindowStart(j, size), j + 1)
    {
      SumPush(values, from, i);
      q := q + [values[i]];
      sum := sum + values[i];
      if |q| > size {
        DropFirst(values, from, i + 1);
        sum, q, from := sum - q[0], q[1..], from + 1;
      }
      assert from == WindowStart(i, size) && |q| == i + 1 - from;
      assert forall k | 0 <= k < |q| :: q[k] == values[from + k];
      assert q == values[from..i + 1];
      out := out + [Share(sum, |q|)];
    }
  }

  lemma {:induction false} SumBounds(values: seq<real>, low: real, high: real, from: nat, to: nat)
    requires from <= to <= |values| && forall i | from <= i < to :: low <= values[i] <= high
    ensures low * (to - from) as real <= Sum(values, from, to) <= high * (to - from) as real
  {
    if from < to {
      SumBounds(values, low, high, from, to - 1);
      assert low * (to - from) as real == low * (to - 1 - from) as real + low;
      assert high * (to - from) as real == high * (to - 1 - from) as real + high;
    }
  }

  lemma DivBounds(low: real, high: real, s: real, n: real)
    requires n > 0.0 && low * n <= s <= high * n
    ensures low <= s / n <= high
  {
    assert s / n * n == s;
  }

  // A point never leaves the range of the values it averages.
  lemma MeanBounds(values: seq<real>, low: real, high: real, from: nat, to: nat)
    requires from < to <= |values| && forall i | from <= i < to :: low <= values[i] <= high
    ensures low <= Mean(values, from, to) <= high
  {
    SumBounds(values, low, high, from, to);
    DivBounds(low, high, Sum(values, from, to), (to - from) as real);
  }
}
