/** `graph.py`: the data behind the live plot. Each animation frame, if a
    line is waiting on the serial port, it is read, stripped and parsed as
    a number; a number is appended to `y_data` with `len(x_data)` appended
    to `x_data`, and once the lists exceed 100 points the oldest point is
    dropped from both. A line that does not parse changes nothing. */
module LivePlot {
  import opened Wrappers
  import opened Text

  /** Most points kept on the plot. */
  const Capacity := 100

  /** The newest `Capacity` elements of `s` (all of them if there are
      fewer), in their order. */
  function Window<T>(s: seq<T>): (w: seq<T>)
    ensures |w| == if |s| <= Capacity then |s| else Capacity
  {
    if |s| <= Capacity then s else s[|s| - Capacity..]
  }

  /** `if len(x_data) > 100: pop(0)`: drop the oldest element of an
      overfull list. */
  function Trim<T>(s: seq<T>): seq<T>
  {
    if |s| > Capacity then s[1..] else s
  }

  /** The x values handed out to the first `n` readings: the k-th reading
      gets `len(x_data)` at that moment, which grows with k until the plot
      is full and stays at `Capacity` from then on. */
  function Ramp(n: nat): (xs: seq<int>)
    ensures |xs| == n
  {
    seq(n, k requires 0 <= k < n => if k < Capacity then k else Capacity)
  }

  /** One append and at most one pop keep exactly the newest `Capacity`
      elements. */
  lemma WindowStep<T>(s: seq<T>, v: T)
    ensures Window(s + [v]) == Trim(Window(s) + [v])
  {
    if |s| >= Capacity {
      assert (Window(s) + [v])[1..] == s[|s| - Capacity + 1..] + [v];
      assert (s + [v])[|s| + 1 - Capacity..] == s[|s| - Capacity + 1..] + [v];
    }
  }

  /** The x value a new reading gets is the number of points on the plot
      before it, and keeping the newest x values is the same as handing out
      the next value of the ramp. */
  lemma {:induction false} RampStep(n: nat)
    ensures |Window(Ramp(n))| == Ramp(n + 1)[n]
    ensures Window(Ramp(n + 1)) == Trim(Window(Ramp(n)) + [|Window(Ramp(n))|])
  {
    assert Ramp(n + 1) == Ramp(n) + [Ramp(n + 1)[n]];
    WindowStep(Ramp(n), Ramp(n + 1)[n]);
  }

  /** The x values on the plot: at most `Capacity` of them, non-decreasing,
      between 0 and `Capacity`; they count 0, 1, 2, ... until the plot first
      overflows, and from then on the newest point always sits at
      `Capacity`. */
  lemma XShape(n: nat)
    ensures var xs := Window(Ramp(n));
      && |xs| <= Capacity
      && (forall i, j :: 0 <= i <= j < |xs| ==> xs[i] <= xs[j])
      && (forall i :: 0 <= i < |xs| ==> 0 <= xs[i] <= Capacity)
      && (n <= Capacity ==> forall i :: 0 <= i < |xs| ==> xs[i] == i)
      && (n > Capacity ==> xs[|xs| - 1] == Capacity)
  {
  }

  /** What one frame did with the serial port. */
  datatype Outcome = NoInput | Plotted | NonNumeric

  /** The module-level lists `x_data` and `y_data`. The values are of an
      uninterpreted type standing for Python floats. */
  class Plot<Y> {
    var xs: seq<int>
    var ys: seq<Y>
    /** Every reading accepted so far, oldest first. */
    ghost var readings: seq<Y>

    ghost predicate Valid()
      reads this
    {
      xs == Window(Ramp(|readings|)) && ys == Window(readings)
    }

    constructor ()
      ensures Valid() && readings == [] && xs == [] && ys == []
    {
      xs, ys := [], [];
      readings := [];
    }

    /** The list update of `update(frame)`. `waiting` is `in_waiting > 0`,
        `line` the line the port delivers, and `parse` stands for `float`,
        undefined (`None`) where `float` raises `ValueError`. The plot keeps
        the newest `Capacity` readings, the two lists have the same length,
        and a frame with no input or a non-numeric line changes nothing. */
    method Update(waiting: bool, line: string, parse: string -> Option<Y>) returns (outcome: Outcome)
      requires Valid()
      modifies this
      ensures Valid()
      ensures |xs| == |ys| <= Capacity
      ensures outcome == if !waiting then NoInput else if parse(Strip(line)).None? then NonNumeric else Plotted
      ensures outcome != Plotted ==> xs == old(xs) && ys == old(ys) && readings == old(readings)
      ensures outcome == Plotted ==>
        && readings == old(readings) + [parse(Strip(line)).value]
        && xs == Trim(old(xs) + [|old(xs)|])
        && ys == Trim(old(ys) + [parse(Strip(line)).value])
    {
      if !waiting {
        return NoInput;
      }
      var data := Strip(line);
      var parsed := parse(data);
      if parsed.None? {
        return NonNumeric;
      }
      var y := parsed.value;
      RampStep(|readings|);
      WindowStep(readings, y);
      xs := xs + [|xs|];
      ys := ys + [y];
      readings := readings + [y];
      if |xs| > Capacity {
        xs := xs[1..];
        ys := ys[1..];
      }
      outcome := Plotted;
    }
  }
}
