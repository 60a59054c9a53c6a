/** What the distributed sum is worth: when it is a number, its bounds, the pooled estimate, the cost of the text. */
module IntegralTheorems {
  import opened CText
  import opened Runs
  import opened TaskFormat
  import opened DistributedIntegral

  /** Every answer is the estimate for some count of points inside. */
  ghost predicate Honest(servers: Servers) {
    forall i, t :: servers(i, t).Answered? && t.points <= SIZE_MAX ==>
      var r := servers(i, t);
      r.inside <= t.points == r.total && r.integral == Estimate(t, r.inside)
  }

  // ---------- When the sum is a number ----------

  lemma {:induction false} SumIsNumber(xs: seq<Double>)
    ensures SumDouble(xs).Some? <==> forall i :: 0 <= i < |xs| ==> xs[i].Some?
  {
    if xs != [] {
      var k := |xs| - 1;
      SumIsNumber(xs[..k]);
      if forall i :: 0 <= i < k ==> xs[..k][i].Some? {
        assert forall i :: 0 <= i < k ==> xs[i] == xs[..k][i];
      } else {
        var i :| 0 <= i < k && xs[..k][i].None?;
        assert xs[i].None?;
      }
    }
  }

  /** An answer to a task without points, and no other, is NaN. */
  ghost predicate NumberIffPoints(servers: Servers) {
    forall i, t :: servers(i, t).Answered? && t.points <= SIZE_MAX ==> (servers(i, t).integral.Some? <==> 0 < t.points)
  }

  /** The sum is a number if and only if no strip without points is answered. */
  lemma SumIsNumberIff(c: Config, n: nat, servers: Servers)
    requires 0 < n && c.points <= SIZE_MAX && NumberIffPoints(servers)
    ensures Summed(c, n, servers).Some? <==>
              forall i :: 0 <= i < n && servers(i, StripTask(c, n, i)).Answered? ==> 0 < Share(c.points, n, i)
  {
    var xs := Contributions(c, n, servers);
    SumIsNumber(xs);
    forall i | 0 <= i < n
      ensures xs[i].Some? <==> (servers(i, StripTask(c, n, i)).Answered? ==> 0 < Share(c.points, n, i))
    {
      ShareBound(c.points, n, i);
      assert StripTask(c, n, i).points == Share(c.points, n, i);
    }
  }

  lemma FactorBelow(n: nat, q: nat)
    requires 0 < n
    ensures q <= n * q
  {
    assert n * q == q + (n - 1) * q;
  }

  lemma ShareBound(total: nat, n: nat, i: nat)
    requires i < n
    ensures Share(total, n, i) <= total
  {
    FactorBelow(n, total / n);
  }

  /** If all answer, the sum is a number if and only if there are at least as many points as servers. */
  lemma AllAnswerNumberIff(c: Config, n: nat, servers: Servers)
    requires 0 < n && c.points <= SIZE_MAX && NumberIffPoints(servers)
    requires AllAnswer(c, n, servers)
    ensures Summed(c, n, servers).Some? <==> n <= c.points
  {
    SumIsNumberIff(c, n, servers);
    NoEmptyStripIff(c.points, n);
  }

  // ---------- Where the points fall ----------

  lemma Between(lo: real, hi: real, u: real)
    requires lo <= hi && 0.0 <= u <= 1.0
    ensures lo <= Place(lo, hi, u) <= hi
  {
    Product(u, hi - lo);
    Product(1.0 - u, hi - lo);
    assert u * (hi - lo) + (1.0 - u) * (hi - lo) == hi - lo;
  }

  /**
   Draws from the unit square give points of the rectangle, the part of it below and left of such a point is
   as large a share as that of the draws, and the corners are met.
   */
  lemma SamplesAreUniform(t: Task, u: real, v: real)
    requires t.xMin <= t.xMax && t.yMin <= t.yMax && 0.0 <= u <= 1.0 && 0.0 <= v <= 1.0
    ensures var (x, y) := Sample(t, (u, v));
            && t.xMin <= x <= t.xMax && t.yMin <= y <= t.yMax
            && (x - t.xMin) * (y - t.yMin) == u * v * Area(t)
    ensures Sample(t, (1.0, 1.0)) == (t.xMax, t.yMax)
  {
    Between(t.xMin, t.xMax, u);
    Between(t.yMin, t.yMax, v);
    ShareOfArea(t, u, v);
  }

  lemma ShareOfArea(t: Task, u: real, v: real)
    ensures var (x, y) := Sample(t, (u, v)); (x - t.xMin) * (y - t.yMin) == u * v * Area(t)
  {
    var (x, y) := Sample(t, (u, v));
    var w, h := t.xMax - t.xMin, t.yMax - t.yMin;
    assert x - t.xMin == u * w && y - t.yMin == v * h;
    FourFactors(u, v, w, h);
  }

  lemma FourFactors(u: real, v: real, w: real, h: real)
    ensures (u * w) * (v * h) == u * v * (w * h)
  {}

  /** Every point of a rectangle with an area can be drawn. */
  lemma EveryPointIsDrawn(t: Task, x: real, y: real) returns (u: real, v: real)
    requires t.xMin <= x <= t.xMax && t.yMin <= y <= t.yMax && t.xMin < t.xMax && t.yMin < t.yMax
    ensures 0.0 <= u <= 1.0 && 0.0 <= v <= 1.0 && Sample(t, (u, v)) == (x, y)
  {
    u, v := ShareOf(t.xMin, t.xMax, x), ShareOf(t.yMin, t.yMax, y);
  }

  function ShareOf(lo: real, hi: real, x: real): (u: real)
    requires lo <= x <= hi && lo < hi
    ensures 0.0 <= u <= 1.0 && Place(lo, hi, u) == x
  {
    var u := (x - lo) / (hi - lo);
    assert u * (hi - lo) == x - lo;
    SmallerFactor(0.0, u, hi - lo);
    SmallerFactor(u, 1.0, hi - lo);
    u
  }

  // ---------- Arithmetic of portions ----------

  lemma PortionBounds(whole: real, k: nat, m: nat)
    requires k <= m && 0 < m && 0.0 <= whole
    ensures 0.0 <= Portion(whole, k, m) <= whole
  {
    var p, x, y := Portion(whole, k, m), k as real, m as real;
    assert p * y == whole * x;
    assert 0.0 <= whole * x <= whole * y;
    SmallerFactor(p, whole, y);
    SmallerFactor(0.0, p, y);
  }

  lemma SmallerFactor(p: real, q: real, m: real)
    requires 0.0 < m && p * m <= q * m
    ensures p <= q
  {
    assert (q - p) * m >= 0.0;
  }

  lemma Product(w: real, h: real)
    requires 0.0 <= w && 0.0 <= h
    ensures 0.0 <= w * h
  {}

  lemma WidthTimes(c: Config, n: nat)
    requires 0 < n
    ensures n as real * Width(c, n) == c.xMax - c.xMin
    ensures c.xMin <= c.xMax ==> 0.0 <= Width(c, n)
  {
    var w, m := Width(c, n), n as real;
    assert m * w == c.xMax - c.xMin;
    if c.xMin <= c.xMax { SmallerFactor(0.0, w, m); }
  }

  function StripArea(c: Config, n: nat): real
    requires 0 < n
  {
    Width(c, n) * (c.yMax - c.yMin)
  }

  lemma AreaOfStrip(c: Config, n: nat, i: nat)
    requires i < n
    ensures Area(StripTask(c, n, i)) == StripArea(c, n)
  {
    StripsTile(c, n, i);
  }

  lemma AreaOfStrips(c: Config, n: nat)
    requires 0 < n
    ensures n as real * StripArea(c, n) == Area(Whole(c))
  {
    WidthTimes(c, n);
    var m, w, h := n as real, Width(c, n), c.yMax - c.yMin;
    assert m * (w * h) == (m * w) * h;
  }

  lemma StripAreaBounds(c: Config, n: nat)
    requires 0 < n && c.xMin <= c.xMax && c.yMin <= c.yMax
    ensures 0.0 <= StripArea(c, n)
  {
    WidthTimes(c, n);
    Product(Width(c, n), c.yMax - c.yMin);
  }

  /** k of m points of one of n equal parts weigh as much as k of n * m points of the whole. */
  lemma EvenPortion(part: real, n: nat, m: nat, k: nat)
    requires 0 < n && 0 < m
    ensures 0 < n * m && Portion(part, k, m) == Portion(n as real * part, k, n * m)
  {
    var x, w, a, b := n as real, k as real, m as real, (n * m) as real;
    assert b == x * a;
    var p, q := Portion(part, k, m), Portion(x * part, k, n * m);
    assert p * a == part * w;
    assert q * b == (x * part) * w;
    assert (x * part) * w == x * (part * w);
    assert q * b == x * (p * a) == p * b;
    EqualFactors(p, q, b);
  }

  lemma EqualFactors(p: real, q: real, m: real)
    requires 0.0 < m && p * m == q * m
    ensures p == q
  {
    SmallerFactor(p, q, m);
    SmallerFactor(q, p, m);
  }

  lemma AddPortions(whole: real, j: nat, k: nat, m: nat)
    requires 0 < m
    ensures Portion(whole, j, m) + Portion(whole, k, m) == Portion(whole, j + k, m)
  {
    var p, q, r, x := Portion(whole, j, m), Portion(whole, k, m), Portion(whole, j + k, m), m as real;
    assert p * x == whole * j as real && q * x == whole * k as real && r * x == whole * (j + k) as real;
    assert (p + q) * x == r * x;
    EqualFactors(p + q, r, x);
  }

  /** k times x, by addition. */
  function Multiple(k: nat, x: real): real { if k == 0 then 0.0 else Multiple(k - 1, x) + x }

  lemma {:induction false} MultipleIs(k: nat, x: real)
    ensures Multiple(k, x) == k as real * x
  {
    if k == 0 {
      assert 0.0 * x == 0.0;
    } else {
      MultipleIs(k - 1, x);
      assert k as real * x == (k - 1) as real * x + x;
    }
  }

  // ---------- Without the text ----------

  function SumReal(xs: seq<real>): real {
    if xs == [] then 0.0 else SumReal(xs[..|xs| - 1]) + xs[|xs| - 1]
  }

  predicate AreNumbers(xs: seq<Double>, vs: seq<real>) {
    |xs| == |vs| && forall i :: 0 <= i < |xs| ==> xs[i] == Some(vs[i])
  }

  lemma {:induction false} SumOfNumbers(xs: seq<Double>, vs: seq<real>)
    requires AreNumbers(xs, vs)
    ensures SumDouble(xs) == Some(SumReal(vs))
  {
    if xs != [] { SumOfNumbers(xs[..|xs| - 1], vs[..|vs| - 1]); }
  }

  /** What strip i adds when that is a number. */
  function Values(xs: seq<Double>): (vs: seq<real>)
    ensures |vs| == |xs| && forall i :: 0 <= i < |vs| && xs[i].Some? ==> vs[i] == xs[i].value
  {
    seq(|xs|, i requires 0 <= i < |xs| => if xs[i].Some? then xs[i].value else 0.0)
  }

  lemma ContributionBounds(c: Config, n: nat, servers: Servers, i: nat)
    requires i < n <= c.points <= SIZE_MAX && Honest(servers) && c.xMin <= c.xMax && c.yMin <= c.yMax
    ensures var x := Contribution(c, n, servers, i); x.Some? && 0.0 <= x.value <= StripArea(c, n)
  {
    StripAreaBounds(c, n);
    if servers(i, StripTask(c, n, i)).Answered? {
      EstimateOfStrip(c, n, servers, i);
      PortionBounds(StripArea(c, n), Inside(c, n, servers, i), Share(c.points, n, i));
    }
  }

  lemma {:induction false} SumBounds(vs: seq<real>, most: real)
    requires forall i :: 0 <= i < |vs| ==> 0.0 <= vs[i] <= most
    ensures 0.0 <= SumReal(vs) <= Multiple(|vs|, most)
  {
    if vs != [] { SumBounds(vs[..|vs| - 1], most); }
  }

  lemma TotalArea(c: Config, n: nat, part: real)
    requires 0 < n && part == StripArea(c, n)
    ensures Multiple(n, part) == Area(Whole(c))
  {
    AreaOfStrips(c, n);
    MultipleIs(n, part);
  }

  /** Without the text: with at least one point a strip the sum is between 0 and the area, whichever servers fail. */
  lemma ResultWithinArea(c: Config, n: nat, servers: Servers)
    requires 0 < n <= c.points <= SIZE_MAX && Honest(servers) && c.xMin <= c.xMax && c.yMin <= c.yMax
    ensures var r := Summed(c, n, servers); r.Some? && 0.0 <= r.value <= Area(Whole(c))
  {
    var xs := Contributions(c, n, servers);
    var vs, most := Values(xs), StripArea(c, n);
    forall i | 0 <= i < n ensures xs[i] == Some(vs[i]) && 0.0 <= vs[i] <= most {
      ContributionBounds(c, n, servers, i);
    }
    SumOfNumbers(xs, vs);
    SumBounds(vs, most);
    TotalArea(c, n, most);
  }

  function Inside(c: Config, n: nat, servers: Servers, i: nat): nat
    requires 0 < n && servers(i, StripTask(c, n, i)).Answered?
  {
    servers(i, StripTask(c, n, i)).inside
  }

  ghost predicate AllAnswer(c: Config, n: nat, servers: Servers)
    requires 0 < n
  {
    forall i :: 0 <= i < n ==> servers(i, StripTask(c, n, i)).Answered?
  }

  /** The counts of the answers. */
  function Insides(c: Config, n: nat, servers: Servers): (ks: seq<nat>)
    requires 0 < n && AllAnswer(c, n, servers)
    ensures |ks| == n && forall i :: 0 <= i < n ==> ks[i] == Inside(c, n, servers, i)
  {
    seq(n, i requires 0 <= i < n => Inside(c, n, servers, i))
  }

  function SumNat(ks: seq<nat>): nat {
    if ks == [] then 0 else SumNat(ks[..|ks| - 1]) + ks[|ks| - 1]
  }

  lemma {:induction false} SumPortions(whole: real, vs: seq<real>, ks: seq<nat>, m: nat)
    requires 0 < m && |vs| == |ks| && forall i :: 0 <= i < |vs| ==> vs[i] == Portion(whole, ks[i], m)
    ensures SumReal(vs) == Portion(whole, SumNat(ks), m)
  {
    if vs == [] {
      assert whole * 0.0 == 0.0;
    } else {
      var k := |vs| - 1;
      SumPortions(whole, vs[..k], ks[..k], m);
      AddPortions(whole, SumNat(ks[..k]), ks[k], m);
    }
  }

  lemma EvenShare(total: nat, n: nat, i: nat)
    requires 0 < n <= total && total % n == 0
    ensures Share(total, n, i) == total / n && 0 < total / n && total == n * (total / n)
  {}

  lemma EstimateOfStrip(c: Config, n: nat, servers: Servers, i: nat)
    requires i < n <= c.points <= SIZE_MAX && Honest(servers) && servers(i, StripTask(c, n, i)).Answered?
    ensures var m := Share(c.points, n, i);
            && 0 < m && Inside(c, n, servers, i) <= m
            && Contribution(c, n, servers, i) == Some(Portion(StripArea(c, n), Inside(c, n, servers, i), m))
  {
    NoEmptyStripIff(c.points, n);
    ShareBound(c.points, n, i);
    AreaOfStrip(c, n, i);
    var t := StripTask(c, n, i);
    assert t.points == Share(c.points, n, i);
    assert servers(i, t).integral == Estimate(t, servers(i, t).inside);
  }

  lemma EvenPart(c: Config, n: nat, m: nat, inside: nat, part: real, whole: real)
    requires 0 < n && 0 < m && c.points == n * m && part == StripArea(c, n) && whole == Area(Whole(c))
    ensures 0 < c.points && Portion(part, inside, m) == Portion(whole, inside, c.points)
  {
    AreaOfStrips(c, n);
    EvenPortion(part, n, m, inside);
  }

  lemma EvenContribution(c: Config, n: nat, servers: Servers, i: nat)
    requires i < n <= c.points <= SIZE_MAX && c.points % n == 0 && Honest(servers)
    requires servers(i, StripTask(c, n, i)).Answered?
    ensures Contribution(c, n, servers, i) == Some(Portion(Area(Whole(c)), Inside(c, n, servers, i), c.points))
  {
    var m := c.points / n;
    EvenShare(c.points, n, i);
    EstimateOfStrip(c, n, servers, i);
    EvenPart(c, n, m, Inside(c, n, servers, i), StripArea(c, n), Area(Whole(c)));
  }

  /** Without the text: an even split that all servers answer gives what one server gives for the pooled sample. */
  lemma EvenSplitIsPooled(c: Config, n: nat, servers: Servers)
    requires 0 < n <= c.points <= SIZE_MAX && c.points % n == 0 && Honest(servers) && AllAnswer(c, n, servers)
    ensures Summed(c, n, servers) == Estimate(Whole(c), SumNat(Insides(c, n, servers)))
  {
    var xs, ks := Contributions(c, n, servers), Insides(c, n, servers);
    var vs := Values(xs);
    forall i | 0 <= i < n ensures xs[i] == Some(vs[i]) && vs[i] == Portion(Area(Whole(c)), ks[i], c.points) {
      EvenContribution(c, n, servers, i);
    }
    SumOfNumbers(xs, vs);
    SumPortions(Area(Whole(c)), vs, ks, c.points);
  }
}
