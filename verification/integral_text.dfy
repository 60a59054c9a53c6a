/** The distributed sum when tasks and results travel as text, every real rounded to 15 digits behind the point. */
module IntegralText {
  import opened CText
  import opened Runs
  import opened Sequences
  import opened TaskFormat
  import opened DistributedIntegral
  import opened IntegralTheorems

  const UNIT: real := 0.000_000_000_000_001

  lemma PrintedNear(x: real)
    ensures x - UNIT / 2.0 <= Printed(x) <= x + UNIT / 2.0
  {
    PrintedIsNear(x);
  }

  lemma PrintedMonotone(x: real, y: real)
    requires x <= y
    ensures Printed(x) <= Printed(y)
  {
    assert Scaled(Abs(x)) <= Scaled(Abs(y)) || x < 0.0;
  }

  /** What the server reads. */
  function PrintedTask(t: Task): Task {
    Task(Printed(t.xMin), Printed(t.xMax), Printed(t.yMin), Printed(t.yMax), t.points)
  }

  /** An answer from far away is the rounded estimate for the rounded task. */
  lemma AnswerFromRemote(machines: Servers, i: nat, t: Task)
    requires Honest(machines) && t.points <= SIZE_MAX && Ask(machines, i, t).Answered?
    ensures var r := Ask(machines, i, t);
            && r.inside <= t.points == r.total
            && r.integral ==
               if t.points == 0 then None else Some(Printed(Portion(Area(PrintedTask(t)), r.inside, t.points)))
  {
    TaskRoundTrip(t, BUFFER_SIZE);
    var u := PrintedTask(t);
    var r := machines(i, u);
    assert r.integral == Estimate(u, r.inside);
    if r.integral.Some? {
      ResultRoundTrip(Result(r.integral.value, r.inside, r.total), BUFFER_SIZE);
    }
  }

  lemma RemoteNumberIffPoints(machines: Servers)
    requires Honest(machines)
    ensures NumberIffPoints(Remote(machines))
  {
    forall i: nat, t | Remote(machines)(i, t).Answered? && t.points <= SIZE_MAX
      ensures Remote(machines)(i, t).integral.Some? <==> 0 < t.points
    {
      AnswerFromRemote(machines, i, t);
    }
  }

  /** With all machines answering, fewer points than strips make the result NaN, and nothing else does. */
  lemma RemoteSumIsNumberIff(c: Config, n: nat, machines: Servers)
    requires 0 < n && c.points <= SIZE_MAX && Honest(machines) && AllAnswer(c, n, Remote(machines))
    ensures Summed(c, n, Remote(machines)).Some? <==> n <= c.points
  {
    RemoteNumberIffPoints(machines);
    AllAnswerNumberIff(c, n, Remote(machines));
  }

  // ---------- Tiles ----------

  /** Rectangles side by side that fill `whole`. */
  predicate Tiles(ts: seq<Task>, whole: Task) {
    && ts != [] && ts[0].xMin == whole.xMin && ts[|ts| - 1].xMax == whole.xMax
    && (forall i :: 0 < i < |ts| ==> ts[i - 1].xMax == ts[i].xMin)
    && (forall i :: 0 <= i < |ts| ==> ts[i].yMin == whole.yMin && ts[i].yMax == whole.yMax)
  }

  function Areas(ts: seq<Task>): (xs: seq<real>)
    ensures |xs| == |ts| && forall i :: 0 <= i < |ts| ==> xs[i] == Area(ts[i])
  {
    seq(|ts|, i requires 0 <= i < |ts| => Area(ts[i]))
  }

  lemma AddEdges(a: real, b: real, d: real, height: real)
    ensures (b - a) * height + (d - b) * height == (d - a) * height
  {}

  lemma {:induction false} TilesUpTo(ts: seq<Task>, whole: Task, k: nat)
    requires Tiles(ts, whole) && 0 < k <= |ts|
    ensures SumReal(Areas(ts)[..k]) == (ts[k - 1].xMax - whole.xMin) * (whole.yMax - whole.yMin)
  {
    TakeOne(Areas(ts), k - 1);
    if k == 1 {
      assert SumReal(Areas(ts)[..0]) == 0.0;
    } else {
      TilesUpTo(ts, whole, k - 1);
      AddEdges(whole.xMin, ts[k - 1].xMin, ts[k - 1].xMax, whole.yMax - whole.yMin);
    }
  }

  lemma AreasOfTiles(ts: seq<Task>, whole: Task)
    requires Tiles(ts, whole)
    ensures SumReal(Areas(ts)) == Area(whole)
  {
    TilesUpTo(ts, whole, |ts|);
    assert Areas(ts)[..|ts|] == Areas(ts);
  }

  // ---------- Printed strips ----------

  /** The strips as the servers read them. */
  function PrintedTasks(c: Config, n: nat): (ts: seq<Task>)
    requires 0 < n
    ensures |ts| == n && forall i :: 0 <= i < n ==> ts[i] == PrintedTask(StripTask(c, n, i))
  {
    seq(n, i requires 0 <= i => PrintedTask(StripTask(c, n, i)))
  }

  lemma PrintedNeighbours(c: Config, n: nat, i: nat)
    requires 0 < i < n
    ensures PrintedTasks(c, n)[i - 1].xMax == PrintedTasks(c, n)[i].xMin
  {
    StripsTile(c, n, i - 1);
  }

  /** Rounded as text they still tile the rounded range. */
  lemma PrintedTasksTile(c: Config, n: nat)
    requires 0 < n
    ensures Tiles(PrintedTasks(c, n), PrintedTask(Whole(c)))
  {
    StripsTile(c, n, 0);
    forall i | 0 < i < n ensures PrintedTasks(c, n)[i - 1].xMax == PrintedTasks(c, n)[i].xMin {
      PrintedNeighbours(c, n, i);
    }
  }

  predicate Ordered(c: Config) { c.xMin <= c.xMax && c.yMin <= c.yMax }

  /** Printing keeps the order and changes each side by no more than a unit. */
  lemma PrintedSides(c: Config, n: nat, i: nat)
    requires i < n && Ordered(c)
    ensures var t := PrintedTask(StripTask(c, n, i));
            && 0.0 <= t.xMax - t.xMin && Width(c, n) - UNIT <= t.xMax - t.xMin <= Width(c, n) + UNIT
            && 0.0 <= t.yMax - t.yMin && c.yMax - c.yMin - UNIT <= t.yMax - t.yMin <= c.yMax - c.yMin + UNIT
  {
    StripsTile(c, n, i);
    WidthTimes(c, n);
    PrintedMonotone(Left(c, n, i), Right(c, n, i));
    PrintedMonotone(c.yMin, c.yMax);
    PrintedNear(Left(c, n, i));
    PrintedNear(Right(c, n, i));
    PrintedNear(c.yMin);
    PrintedNear(c.yMax);
  }

  lemma AreaBound(t: Task)
    requires 0.0 <= t.xMax - t.xMin && 0.0 <= t.yMax - t.yMin
    ensures 0.0 <= Area(t)
  {}

  /** What a remote strip adds: nothing, or its rounded portion. */
  lemma RemoteStrip(c: Config, n: nat, machines: Servers, i: nat)
    requires i < n <= c.points <= SIZE_MAX && Honest(machines)
    ensures var t := StripTask(c, n, i);
            var m, answer := Share(c.points, n, i), Ask(machines, i, t);
            && 0 < m && (answer.Answered? ==> answer.inside <= m)
            && Contribution(c, n, Remote(machines), i) ==
               Some(if answer.Failed? then 0.0 else Printed(Portion(Area(PrintedTask(t)), answer.inside, m)))
  {
    NoEmptyStripIff(c.points, n);
    ShareBound(c.points, n, i);
    var t := StripTask(c, n, i);
    if Ask(machines, i, t).Answered? {
      AnswerFromRemote(machines, i, t);
    }
  }

  // ---------- Bounds of the sum ----------

  lemma RoundedPortion(whole: real, k: nat, m: nat)
    requires k <= m && 0 < m && 0.0 <= whole
    ensures 0.0 <= Printed(Portion(whole, k, m)) <= whole + UNIT / 2.0
  {
    var x := Portion(whole, k, m);
    PortionBounds(whole, k, m);
    PrintedNear(x);
    PrintedMonotone(0.0, x);
    PrintedIsNear(0.0);
  }

  /** A value that is a number, not negative and at most the area and the slack. */
  predicate BoundedAt(xs: seq<Double>, vs: seq<real>, most: seq<real>, slack: real, i: nat) {
    i < |xs| == |vs| == |most| && xs[i] == Some(vs[i]) && 0.0 <= vs[i] <= most[i] + slack
  }

  lemma {:induction false} SumBelow(xs: seq<Double>, vs: seq<real>, most: seq<real>, slack: real, k: nat)
    requires k <= |xs| == |vs| == |most| && forall i :: 0 <= i < |vs| ==> BoundedAt(xs, vs, most, slack, i)
    ensures SumDouble(xs[..k]) == Some(SumReal(vs[..k]))
    ensures 0.0 <= SumReal(vs[..k]) <= SumReal(most[..k]) + Multiple(k, slack)
  {
    if 0 < k {
      SumBelow(xs, vs, most, slack, k - 1);
      assert BoundedAt(xs, vs, most, slack, k - 1);
      TakeOne(xs, k - 1);
      TakeOne(vs, k - 1);
      TakeOne(most, k - 1);
    }
  }

  predicate Bounded(xs: seq<Double>, vs: seq<real>, most: seq<real>, slack: real) {
    |xs| == |vs| == |most| && forall i :: 0 <= i < |xs| ==> BoundedAt(xs, vs, most, slack, i)
  }

  lemma SumBounded(xs: seq<Double>, vs: seq<real>, most: seq<real>, slack: real)
    requires Bounded(xs, vs, most, slack)
    ensures var r := SumDouble(xs); r.Some? && 0.0 <= r.value <= SumReal(most) + Multiple(|xs|, slack)
  {
    SumBelow(xs, vs, most, slack, |xs|);
    assert xs[..|xs|] == xs && vs[..|xs|] == vs && most[..|xs|] == most;
  }

  lemma StripBounded(c: Config, n: nat, machines: Servers, xs: seq<Double>, ts: seq<Task>, slack: real, i: nat)
    requires i < n <= c.points <= SIZE_MAX && Honest(machines) && Ordered(c) && slack == UNIT / 2.0
    requires xs == Contributions(c, n, Remote(machines)) && ts == PrintedTasks(c, n)
    ensures BoundedAt(xs, Values(xs), Areas(ts), slack, i)
  {
    RemoteStrip(c, n, machines, i);
    PrintedSides(c, n, i);
    AreaBound(ts[i]);
    var answer := Ask(machines, i, StripTask(c, n, i));
    if answer.Answered? { RoundedPortion(Area(ts[i]), answer.inside, Share(c.points, n, i)); }
  }

  lemma RemoteBounded(c: Config, n: nat, machines: Servers, xs: seq<Double>, ts: seq<Task>, slack: real)
    requires 0 < n <= c.points <= SIZE_MAX && Honest(machines) && Ordered(c) && slack == UNIT / 2.0
    requires xs == Contributions(c, n, Remote(machines)) && ts == PrintedTasks(c, n)
    ensures Bounded(xs, Values(xs), Areas(ts), slack)
  {
    forall i | 0 <= i < n ensures BoundedAt(xs, Values(xs), Areas(ts), slack, i) {
      StripBounded(c, n, machines, xs, ts, slack, i);
    }
  }

  /** Half a unit for each of n strips. */
  function HalfUnits(n: nat): real { Multiple(n, UNIT / 2.0) }

  lemma SumWithinArea(xs: seq<Double>, vs: seq<real>, ts: seq<Task>, whole: Task, slack: real)
    requires Bounded(xs, vs, Areas(ts), slack) && Tiles(ts, whole) && slack == UNIT / 2.0
    ensures var r := SumDouble(xs); r.Some? && 0.0 <= r.value <= Area(whole) + HalfUnits(|xs|)
  {
    SumBounded(xs, vs, Areas(ts), slack);
    AreasOfTiles(ts, whole);
  }

  /** Whichever machines fail, the sum is between 0 and the area of the printed range, but for half a unit a strip. */
  lemma RemoteResultWithinArea(c: Config, n: nat, machines: Servers)
    requires 0 < n <= c.points <= SIZE_MAX && Honest(machines) && Ordered(c)
    ensures var r := Summed(c, n, Remote(machines));
            r.Some? && 0.0 <= r.value <= Area(PrintedTask(Whole(c))) + HalfUnits(n)
  {
    var xs, ts := Contributions(c, n, Remote(machines)), PrintedTasks(c, n);
    PrintedTasksTile(c, n);
    RemoteBounded(c, n, machines, xs, ts, UNIT / 2.0);
    SumWithinArea(xs, Values(xs), ts, PrintedTask(Whole(c)), UNIT / 2.0);
  }

  // ---------- What the text costs ----------

  /** What machine i says, as if neither its task nor its result had been rounded. */
  function Unrounded(machines: Servers): Servers {
    (i: nat, t: Task) =>
      var r := Ask(machines, i, t);
      if r.Failed? then r else Answered(Estimate(t, r.inside), r.inside, r.total)
  }

  predicate Near(x: real, y: real, d: real) { -d <= x - y <= d }

  lemma TimesNear(x: real, d: real, y: real)
    requires -d <= x <= d && 0.0 <= y
    ensures -(d * y) <= x * y <= d * y
  {
    Product(d - x, y);
    Product(d + x, y);
  }

  lemma SumOfProducts(w: real, h: real, w': real, h': real)
    ensures w' * h' - w * h == (w' - w) * h' + (h' - h) * w
  {}

  lemma LargerProduct(x: real, y: real, z: real)
    requires 0.0 <= x && y <= z
    ensures x * y <= x * z
  {
    Product(x, z - y);
    Spread(x, y, z - y);
    assert y + (z - y) == z;
  }

  lemma Spread(x: real, y: real, z: real)
    ensures x * (y + z) == x * y + x * z
  {}

  /** Sides that differ by no more than a unit. */
  lemma ProductsNear(w: real, h: real, w': real, h': real, unit: real)
    requires 0.0 <= w && 0.0 <= h' && 0.0 <= unit && Near(w', w, unit) && Near(h', h, unit)
    ensures Near(w' * h', w * h, unit * (w + (h + unit)))
  {
    var p, q, x, y, z := (w' - w) * h', (h' - h) * w, unit * h', unit * w, unit * (h + unit);
    TimesNear(w' - w, unit, h');
    TimesNear(h' - h, unit, w);
    LargerProduct(unit, h', h + unit);
    assert -x <= p <= x <= z && -y <= q <= y;
    SumOfProducts(w, h, w', h');
    Spread(unit, w, h + unit);
  }

  lemma AreasNear(t: Task, u: Task, unit: real)
    requires 0.0 <= t.xMax - t.xMin && 0.0 <= u.yMax - u.yMin && 0.0 <= unit
    requires Near(u.xMax - u.xMin, t.xMax - t.xMin, unit) && Near(u.yMax - u.yMin, t.yMax - t.yMin, unit)
    ensures Near(Area(u), Area(t), unit * (t.xMax - t.xMin + (t.yMax - t.yMin + unit)))
  {
    ProductsNear(t.xMax - t.xMin, t.yMax - t.yMin, u.xMax - u.xMin, u.yMax - u.yMin, unit);
  }

  lemma PortionNear(x: real, y: real, k: nat, m: nat, d: real)
    requires k <= m && 0 < m && Near(x, y, d)
    ensures Near(Portion(x, k, m), Portion(y, k, m), d)
  {
    var e := x - y;
    var p, q := Portion(x, k, m), Portion(y, k, m);
    PortionDifference(x, y, k, m);
    if 0.0 <= e { PortionBounds(e, k, m); } else { PortionBounds(-e, k, m); PortionDifference(0.0, e, k, m); }
  }

  lemma PortionDifference(x: real, y: real, k: nat, m: nat)
    requires 0 < m
    ensures Portion(x, k, m) - Portion(y, k, m) == Portion(x - y, k, m)
    ensures x == 0.0 ==> Portion(x, k, m) == 0.0
  {
    var p, q, r, j, b := Portion(x, k, m), Portion(y, k, m), Portion(x - y, k, m), k as real, m as real;
    assert p * b == x * j && q * b == y * j && r * b == (x - y) * j;
    assert (p - q) * b == r * b;
    EqualFactors(p - q, r, b);
  }

  /** What rounding can change in one strip: its width and height by a unit, its result by half a unit. */
  function Slip(c: Config, n: nat): real
    requires 0 < n
  {
    UNIT * (Width(c, n) + (c.yMax - c.yMin + UNIT)) + UNIT / 2.0
  }

  lemma UnroundedIsHonest(machines: Servers)
    requires Honest(machines)
    ensures Honest(Unrounded(machines))
  {
    forall i: nat, t | Unrounded(machines)(i, t).Answered? && t.points <= SIZE_MAX
      ensures var r := Unrounded(machines)(i, t); r.inside <= t.points == r.total && r.integral == Estimate(t, r.inside)
    {
      AnswerFromRemote(machines, i, t);
    }
  }

  /** Two numbers that are near each other. */
  predicate NearAt(xs: seq<Double>, ys: seq<Double>, d: real, i: nat) {
    i < |xs| == |ys| && xs[i].Some? && ys[i].Some? && Near(xs[i].value, ys[i].value, d)
  }

  lemma StripAreaNear(c: Config, n: nat, i: nat, t: Task, d: real)
    requires i < n && Ordered(c) && t == StripTask(c, n, i) && d == Slip(c, n) - UNIT / 2.0
    ensures Near(Area(PrintedTask(t)), Area(t), d)
  {
    PrintedSides(c, n, i);
    StripsTile(c, n, i);
    WidthTimes(c, n);
    AreasNear(t, PrintedTask(t), UNIT);
  }

  lemma RoundedPortionNear(x: real, y: real, k: nat, m: nat, d: real)
    requires k <= m && 0 < m && Near(x, y, d)
    ensures Near(Printed(Portion(x, k, m)), Portion(y, k, m), d + UNIT / 2.0)
  {
    PortionNear(x, y, k, m, d);
    PrintedNear(Portion(x, k, m));
  }

  lemma StripNear(c: Config, n: nat, machines: Servers, xs: seq<Double>, ys: seq<Double>, d: real, i: nat)
    requires i < n <= c.points <= SIZE_MAX && Honest(machines) && Ordered(c) && d == Slip(c, n)
    requires xs == Contributions(c, n, Remote(machines)) && ys == Contributions(c, n, Unrounded(machines))
    ensures NearAt(xs, ys, d, i)
  {
    RemoteStrip(c, n, machines, i);
    var t := StripTask(c, n, i);
    var answer := Ask(machines, i, t);
    if answer.Answered? {
      StripAreaNear(c, n, i, t, d - UNIT / 2.0);
      RoundedPortionNear(Area(PrintedTask(t)), Area(t), answer.inside, t.points, d - UNIT / 2.0);
    } else {
      StripAreaNear(c, n, i, t, d - UNIT / 2.0);
    }
  }

  predicate AllNear(xs: seq<Double>, ys: seq<Double>, d: real) {
    |xs| == |ys| && forall i :: 0 <= i < |xs| ==> NearAt(xs, ys, d, i)
  }

  lemma {:induction false} SumNear(xs: seq<Double>, ys: seq<Double>, d: real, k: nat)
    requires AllNear(xs, ys, d) && k <= |xs|
    ensures var x, y := SumDouble(xs[..k]), SumDouble(ys[..k]);
            x.Some? && y.Some? && Near(x.value, y.value, Multiple(k, d))
  {
    if 0 < k {
      SumNear(xs, ys, d, k - 1);
      assert NearAt(xs, ys, d, k - 1);
      TakeOne(xs, k - 1);
      TakeOne(ys, k - 1);
    }
  }

  lemma SumsNear(xs: seq<Double>, ys: seq<Double>, d: real, most: real)
    requires AllNear(xs, ys, d) && most == Multiple(|xs|, d)
    ensures var x, y := SumDouble(xs), SumDouble(ys); x.Some? && y.Some? && Near(x.value, y.value, most)
  {
    SumNear(xs, ys, d, |xs|);
    assert xs[..|xs|] == xs && ys[..|xs|] == ys;
  }

  lemma StripsNear(c: Config, n: nat, machines: Servers, xs: seq<Double>, ys: seq<Double>, d: real)
    requires 0 < n <= c.points <= SIZE_MAX && Honest(machines) && Ordered(c) && d == Slip(c, n)
    requires xs == Contributions(c, n, Remote(machines)) && ys == Contributions(c, n, Unrounded(machines))
    ensures AllNear(xs, ys, d)
  {
    forall i | 0 <= i < n ensures NearAt(xs, ys, d, i) {
      StripNear(c, n, machines, xs, ys, d, i);
    }
  }

  /** Whatever fails, sending tasks and results as text moves the sum by no more than n * Slip(c, n). */
  lemma TextCost(c: Config, n: nat, machines: Servers)
    requires 0 < n <= c.points <= SIZE_MAX && Honest(machines) && Ordered(c)
    ensures var x, y := Summed(c, n, Remote(machines)), Summed(c, n, Unrounded(machines));
            x.Some? && y.Some? && Near(x.value, y.value, Multiple(n, Slip(c, n)))
  {
    var xs, ys := Contributions(c, n, Remote(machines)), Contributions(c, n, Unrounded(machines));
    StripsNear(c, n, machines, xs, ys, Slip(c, n));
    SumsNear(xs, ys, Slip(c, n), Multiple(n, Slip(c, n)));
  }

  /** So an even split that all machines answer is that near to the estimate from the pooled sample. */
  lemma EvenSplitIsNearlyPooled(c: Config, n: nat, machines: Servers)
    requires 0 < n <= c.points <= SIZE_MAX && Honest(machines) && Ordered(c)
    requires c.points % n == 0 && AllAnswer(c, n, Remote(machines))
    ensures var x, pooled := Summed(c, n, Remote(machines)), SumNat(Insides(c, n, Remote(machines)));
            x.Some? && Near(x.value, Portion(Area(Whole(c)), pooled, c.points), Multiple(n, Slip(c, n)))
  {
    TextCost(c, n, machines);
    UnroundedIsHonest(machines);
    EvenSplitIsPooled(c, n, Unrounded(machines));
    assert Insides(c, n, Unrounded(machines)) == Insides(c, n, Remote(machines));
  }
}
