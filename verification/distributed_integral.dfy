/** The Monte-Carlo integral split over servers: one vertical strip each, over exact reals. */
module DistributedIntegral {
  import opened Runs
  import opened Sequences
  import opened TaskFormat

  datatype Config = Config(xMin: real, xMax: real, yMin: real, yMax: real, points: nat)

  // ---------- The split ----------

  function Width(c: Config, n: nat): real
    requires 0 < n
  {
    (c.xMax - c.xMin) / n as real
  }

  function Left(c: Config, n: nat, i: nat): real
    requires 0 < n
  {
    c.xMin + i as real * Width(c, n)
  }

  function Right(c: Config, n: nat, i: nat): real
    requires 0 < n
  {
    if i == n - 1 then c.xMax else Left(c, n, i) + Width(c, n)
  }

  function Share(total: nat, n: nat, i: nat): nat
    requires 0 < n
  {
    total / n + if i < total % n then 1 else 0
  }

  function StripTask(c: Config, n: nat, i: nat): Task
    requires 0 < n
  {
    Task(Left(c, n, i), Right(c, n, i), c.yMin, c.yMax, Share(c.points, n, i))
  }

  lemma LastEdge(c: Config, n: nat)
    requires 0 < n
    ensures Left(c, n, n) == c.xMax
  {
    var range, m := c.xMax - c.xMin, n as real;
    assert m * (range / m) == range;
  }

  /** The strips meet edge to edge from x_min to x_max and are all equally wide. */
  lemma StripsTile(c: Config, n: nat, i: nat)
    requires i < n
    ensures Left(c, n, 0) == c.xMin && Right(c, n, n - 1) == c.xMax
    ensures i + 1 < n ==> Right(c, n, i) == Left(c, n, i + 1)
    ensures Right(c, n, i) - Left(c, n, i) == Width(c, n)
  {
    LastEdge(c, n);
    assert (i + 1) as real * Width(c, n) == i as real * Width(c, n) + Width(c, n);
  }

  function Shares(total: nat, n: nat, k: nat): nat
    requires 0 < n
  {
    if k == 0 then 0 else Shares(total, n, k - 1) + Share(total, n, k - 1)
  }

  lemma {:induction false} SharesUpTo(total: nat, n: nat, k: nat)
    requires 0 < n
    ensures Shares(total, n, k) == k * (total / n) + if k < total % n then k else total % n
  {
    if 0 < k {
      SharesUpTo(total, n, k - 1);
      assert k * (total / n) == (k - 1) * (total / n) + total / n;
    }
  }

  /** The shares add up to the requested points, and any two differ by at most one. */
  lemma SharesAddUp(total: nat, n: nat)
    requires 0 < n
    ensures Shares(total, n, n) == total
    ensures forall i, j :: 0 <= i < n && 0 <= j < n ==> Share(total, n, i) <= Share(total, n, j) + 1
    ensures forall i, j :: 0 <= i < j < n ==> Share(total, n, j) <= Share(total, n, i)
  {
    SharesUpTo(total, n, n);
    assert total == n * (total / n) + total % n;
  }

  /** Every server has a point to draw, and so no division by zero, if and only if there are enough of them. */
  lemma NoEmptyStripIff(total: nat, n: nat)
    requires 0 < n
    ensures (forall i :: 0 <= i < n ==> 0 < Share(total, n, i)) <==> n <= total
  {
    if n <= total {
      assert 1 <= total / n;
    } else {
      assert total / n == 0 && total % n == total;
      assert Share(total, n, n - 1) == 0;
    }
  }

  // ---------- The servers ----------

  /** The task that one server alone would get. */
  function Whole(c: Config): Task { Task(c.xMin, c.xMax, c.yMin, c.yMax, c.points) }

  function Area(t: Task): real { (t.xMax - t.xMin) * (t.yMax - t.yMin) }

  /** The part of `whole` that k of m points stand for. */
  function Portion(whole: real, k: nat, m: nat): real
    requires 0 < m
  {
    whole * k as real / m as real
  }

  /** A double computed by a division that may be 0.0 / 0.0; None stands for NaN, which every sum hands on. */
  type Double = Option<real>

  function Plus(a: Double, b: Double): Double {
    if a.None? || b.None? then None else Some(a.value + b.value)
  }

  function Estimate(t: Task, inside: nat): Double {
    if t.points == 0 then None else Some(Portion(Area(t), inside, t.points))
  }

  /** The place between lo and hi that a draw from [0, 1] stands for. */
  function Place(lo: real, hi: real, draw: real): real { lo + draw * (hi - lo) }

  /** The point of a rectangle that two draws from [0, 1] stand for. */
  function Sample(t: Task, draw: (real, real)): (real, real) {
    (Place(t.xMin, t.xMax, draw.0), Place(t.yMin, t.yMax, draw.1))
  }

  function Samples(t: Task, draws: seq<(real, real)>): seq<(real, real)> {
    if draws == [] then [] else Samples(t, draws[..|draws| - 1]) + [Sample(t, draws[|draws| - 1])]
  }

  function CountUnder(samples: seq<(real, real)>, f: real -> real): (n: nat)
    ensures n <= |samples|
  {
    if samples == [] then 0
    else CountUnder(samples[..|samples| - 1], f) +
         if samples[|samples| - 1].1 <= f(samples[|samples| - 1].0) then 1 else 0
  }

  /** A point on the curve counts, one above it does not. */
  lemma OnTheCurveCounts(x: real, y: real, f: real -> real)
    ensures CountUnder([(x, y)], f) == if y > f(x) then 0 else 1
  {
    assert CountUnder([(x, y)][..0], f) == 0;
  }

  lemma CountOneMore(t: Task, draws: seq<(real, real)>, i: nat, f: real -> real)
    requires i < |draws|
    ensures var p := Sample(t, draws[i]);
            CountUnder(Samples(t, draws[..i + 1]), f) ==
            CountUnder(Samples(t, draws[..i]), f) + if p.1 <= f(p.0) then 1 else 0
  {
    var p, before := Sample(t, draws[i]), Samples(t, draws[..i]);
    TakeOne(draws, i);
    assert Samples(t, draws[..i + 1]) == before + [p];
    assert (before + [p])[..|before|] == before;
  }

  /** What comes back for a task: nothing, or the three fields of a result. */
  datatype Answer = Failed | Answered(integral: Double, inside: nat, total: nat)

  /** The sampling loop of the server; f stands for exp. */
  method Serve(t: Task, draws: seq<(real, real)>, f: real -> real) returns (r: Answer)
    requires t.points == |draws|
    ensures var inside := CountUnder(Samples(t, draws), f);
            inside <= t.points && r == Answered(Estimate(t, inside), inside, t.points)
    ensures r.integral == None <==> t.points == 0
  {
    var inside := 0;
    var area := Area(t);
    for i := 0 to t.points
      invariant inside == CountUnder(Samples(t, draws[..i]), f) <= i
    {
      CountOneMore(t, draws, i, f);
      var (x, y) := Sample(t, draws[i]);
      if y <= f(x) {
        inside := inside + 1;
      }
    }
    assert draws[..|draws|] == draws;
    r := Answered(if t.points == 0 then None else Some(Portion(area, inside, t.points)), inside, t.points);
  }

  // ---------- The sum ----------

  /** The answer of server i to a task. */
  type Servers = (nat, Task) -> Answer

  /** What an answer adds to the sum: nothing if the server failed. */
  function Added(answer: Answer): Double {
    if answer.Failed? then Some(0.0) else answer.integral
  }

  function Contribution(c: Config, n: nat, servers: Servers, i: nat): Double
    requires 0 < n
  {
    Added(servers(i, StripTask(c, n, i)))
  }

  function Contributions(c: Config, n: nat, servers: Servers): (xs: seq<Double>)
    requires 0 < n
    ensures |xs| == n && forall i :: 0 <= i < n ==> xs[i] == Contribution(c, n, servers, i)
  {
    seq(n, i requires 0 <= i => Contribution(c, n, servers, i))
  }

  function SumDouble(xs: seq<Double>): Double {
    if xs == [] then Some(0.0) else Plus(SumDouble(xs[..|xs| - 1]), xs[|xs| - 1])
  }

  lemma SumOneMore(xs: seq<Double>, i: nat)
    requires i < |xs|
    ensures SumDouble(xs[..i + 1]) == Plus(SumDouble(xs[..i]), xs[i])
  {
    TakeOne(xs, i);
  }

  /** What compute_integral_distributed returns. */
  function Summed(c: Config, n: nat, servers: Servers): Double
    requires 0 < n
  {
    SumDouble(Contributions(c, n, servers))
  }

  datatype Job = Job(task: Task, answer: Answer)

  /** The loop that fills the jobs and hands them to the servers. */
  method FillJobs(c: Config, jobs: array<Job>, servers: Servers)
    requires 0 < jobs.Length
    modifies jobs
    ensures var n := jobs.Length;
            forall i :: 0 <= i < n ==> jobs[i] == Job(StripTask(c, n, i), servers(i, StripTask(c, n, i)))
  {
    var n := jobs.Length;
    var stripWidth := (c.xMax - c.xMin) / n as real;
    assert stripWidth == Width(c, n);
    var base, remainder := c.points / n, c.points % n;
    for i := 0 to n
      invariant forall j :: 0 <= j < i ==> jobs[j] == Job(StripTask(c, n, j), servers(j, StripTask(c, n, j)))
    {
      var left := c.xMin + i as real * stripWidth;
      var right := if i == n - 1 then c.xMax else left + stripWidth;
      var points := base + if i < remainder then 1 else 0;
      var task := Task(left, right, c.yMin, c.yMax, points);
      assert task == StripTask(c, n, i);
      jobs[i] := Job(task, servers(i, task));
    }
  }

  function Integrals(jobs: seq<Job>): (xs: seq<Double>)
    ensures |xs| == |jobs|
  {
    seq(|jobs|, i requires 0 <= i < |jobs| => Added(jobs[i].answer))
  }

  /** The loop that collects the answers. */
  method Collect(jobs: array<Job>) returns (total: Double)
    ensures total == SumDouble(Integrals(jobs[..]))
  {
    total := Some(0.0);
    for i := 0 to jobs.Length
      invariant total == SumDouble(Integrals(jobs[..])[..i])
    {
      SumOneMore(Integrals(jobs[..]), i);
      if jobs[i].answer.Answered? {
        total := Plus(total, jobs[i].answer.integral);
      } else {
        assert total.Some? ==> total.value + 0.0 == total.value;
      }
    }
    ghost var xs := Integrals(jobs[..]);
    assert xs[..jobs.Length] == xs;
  }

  method ComputeIntegralDistributed(c: Config, n: nat, servers: Servers) returns (total: Double)
    ensures total == if n == 0 then Some(0.0) else Summed(c, n, servers)
  {
    if n == 0 {
      return Some(0.0);
    }
    var jobs := new Job[n](i => Job(Task(0.0, 0.0, 0.0, 0.0, 0), Failed));
    FillJobs(c, jobs, servers);
    total := Collect(jobs);
    assert Integrals(jobs[..]) == Contributions(c, n, servers);
  }

  // ---------- Text between client and server ----------

  const BUFFER_SIZE := 4096

  /** A result sent as text.  NaN is printed as a word that %lf reads as NaN again. */
  function ResultThroughText(r: Answer): Answer {
    if r.Failed? || r.integral.None? then r
    else
      match SerializeResult(Result(r.integral.value, r.inside, r.total), BUFFER_SIZE)
      case None => Failed
      case Some(text) =>
        match DeserializeResult(text)
        case None => Failed
        case Some(q) => Answered(Some(q.integral), q.inside, q.total)
  }

  /** Machine i, asked for task t over the network. */
  function Ask(machines: Servers, i: nat, t: Task): Answer {
    match SerializeTask(t, BUFFER_SIZE)
    case None => Failed
    case Some(text) =>
      match DeserializeTask(text)
      case None => Failed
      case Some(u) => ResultThroughText(machines(i, u))
  }

  function Remote(machines: Servers): Servers {
    (i: nat, t: Task) => Ask(machines, i, t)
  }
}
