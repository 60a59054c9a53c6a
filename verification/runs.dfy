/** Facts about sequences that several proofs need by name. */
module Sequences {
  lemma Assoc<T>(a: seq<T>, b: seq<T>, c: seq<T>)
    ensures a + b + c == a + (b + c)
  {}

  lemma Subrange<T>(m: seq<T>, start: nat, total: nat, w: nat, n: nat)
    requires start + total <= |m| && w + n <= total
    ensures m[start..start + total][w..w + n] == m[start + w..start + w + n]
  {
    var a, b := m[start..start + total][w..w + n], m[start + w..start + w + n];
    forall i | 0 <= i < n ensures a[i] == b[i] {
      assert m[start..start + total][w + i] == m[start + w + i];
    }
  }

  /** The elements of the parts, in order. */
  function Concat<T>(parts: seq<seq<T>>): seq<T> {
    if parts == [] then [] else Concat(parts[..|parts| - 1]) + parts[|parts| - 1]
  }

  lemma ConcatAppend<T>(parts: seq<seq<T>>, last: seq<T>)
    ensures Concat(parts + [last]) == Concat(parts) + last
  {
    assert (parts + [last])[..|parts|] == parts;
  }

  lemma {:induction false} ConcatPrefix<T>(parts: seq<seq<T>>, k: nat)
    requires k <= |parts|
    ensures Concat(parts[..k]) <= Concat(parts)
    ensures |Concat(parts[..k])| == |Concat(parts)| ==> forall i :: k <= i < |parts| ==> parts[i] == []
    decreases |parts|
  {
    if k < |parts| {
      ConcatPrefix(parts[..|parts| - 1], k);
      assert parts[..|parts| - 1][..k] == parts[..k];
      assert forall i :: k <= i < |parts| - 1 ==> parts[..|parts| - 1][i] == parts[i];
    } else {
      assert parts[..k] == parts;
    }
  }

  /** The sum of f over the elements of s. */
  function Sum<T>(s: seq<T>, f: T -> int): int {
    if s == [] then 0 else f(s[0]) + Sum(s[1..], f)
  }

  lemma {:induction false} SumUpdate<T>(s: seq<T>, i: nat, x: T, f: T -> int)
    requires i < |s|
    ensures Sum(s[i := x], f) == Sum(s, f) - f(s[i]) + f(x)
  {
    if i == 0 {
      assert s[0 := x][1..] == s[1..];
    } else {
      assert s[i := x][1..] == s[1..][i - 1 := x];
      SumUpdate(s[1..], i - 1, x, f);
    }
  }

  lemma {:induction false} SumMonotone<T>(s: seq<T>, f: T -> int, g: T -> int)
    requires forall i :: 0 <= i < |s| ==> f(s[i]) <= g(s[i])
    ensures Sum(s, f) <= Sum(s, g)
  {
    if s != [] { SumMonotone(s[1..], f, g); }
  }

  /** A sum of non-negative terms is zero exactly when every term is. */
  lemma {:induction false} SumZero<T>(s: seq<T>, f: T -> int)
    requires forall i :: 0 <= i < |s| ==> 0 <= f(s[i])
    ensures 0 <= Sum(s, f)
    ensures Sum(s, f) == 0 <==> forall i :: 0 <= i < |s| ==> f(s[i]) == 0
  {
    if s != [] {
      SumZero(s[1..], f);
      assert forall i :: 0 <= i < |s| - 1 ==> s[1..][i] == s[i + 1];
      if Sum(s, f) == 0 {
        forall i | 0 <= i < |s| ensures f(s[i]) == 0 {
          if 0 < i { assert s[i] == s[1..][i - 1]; }
        }
      }
    }
  }

  lemma TakeOne<T>(s: seq<T>, k: nat)
    requires k < |s|
    ensures s[..k + 1] == s[..k] + [s[k]] && s[..k + 1][k] == s[k] && s[..k + 1][..k] == s[..k]
  {}

  lemma DropConcat<T>(a: seq<T>, b: seq<T>, k: nat)
    requires k <= |a|
    ensures (a + b)[k..] == a[k..] + b
  {}

  lemma TakeConcat<T>(a: seq<T>, b: seq<T>, k: nat)
    requires k <= |a|
    ensures (a + b)[k..|a|] == a[k..]
  {}

  lemma SliceShift<T>(s: seq<T>, from: nat, a: nat, b: nat)
    requires a <= b <= |s| - from
    ensures s[from..][a..b] == s[from + a..from + b]
  {}

  lemma Parts<T>(a: seq<T>, c: T, b: seq<T>, rest: seq<T>)
    ensures var s := a + ([c] + (b + rest));
            && s[..|a|] == a && s[|a|] == c && s[|a| + 1..] == b + rest
            && s[|a| + 1..|a| + 1 + |b|] == b && s[|a| + 1 + |b|..] == rest
  {}

  lemma RangeGrows<T>(s: seq<T>, from: nat, to: nat)
    requires from <= to < |s|
    ensures s[from..to + 1] == s[from..to] + [s[to]]
  {}

  lemma CutAt<T>(s: seq<T>, k: nat)
    requires k < |s|
    ensures s == s[..k] + [s[k]] + s[k + 1..]
  {}

  lemma DropDrop<T>(s: seq<T>, a: nat, b: nat)
    requires a + b <= |s|
    ensures s[a..][b..] == s[a + b..]
  {}

  lemma SplitAt<T>(s: seq<T>, w: nat, n: nat)
    requires w + n <= |s|
    ensures s[w..] == s[w..w + n] + s[w + n..]
    ensures s[..w] + s[w..w + n] == s[..w + n]
  {}
}

/** Runs of a labelled step machine: the shared vocabulary of every protocol below. */
module Runs {

  type byte = b: int | 0 <= b < 256

  datatype Option<+T> = None | Some(value: T)

  /** The state after the events `es`, or None when some event was not possible. */
  function Exec<S, E>(step: (S, E) -> Option<S>, s: S, es: seq<E>): (r: Option<S>)
    ensures es == [] ==> r == Some(s)
    ensures |es| == 1 ==> r == step(s, es[0])
  {
    if es == [] then Some(s) else
      match Exec(step, s, es[..|es| - 1])
      case None => None
      case Some(t) => step(t, es[|es| - 1])
  }

  lemma ExecAppend<S, E>(step: (S, E) -> Option<S>, s: S, es: seq<E>, e: E)
    ensures Exec(step, s, es + [e])
         == if Exec(step, s, es).Some? then step(Exec(step, s, es).value, e) else None
  {
    assert (es + [e])[..|es + [e]| - 1] == es;
  }

  lemma ExecExtend<S, E>(step: (S, E) -> Option<S>, s: S, es: seq<E>, t: S, e: E, u: S)
    requires Exec(step, s, es) == Some(t) && step(t, e) == Some(u)
    ensures Exec(step, s, es + [e]) == Some(u)
  {
    ExecAppend(step, s, es, e);
  }

  /** Runs compose. */
  lemma {:induction false} ExecConcat<S, E>(step: (S, E) -> Option<S>, s: S, es: seq<E>, fs: seq<E>)
    ensures Exec(step, s, es + fs)
         == if Exec(step, s, es).Some? then Exec(step, Exec(step, s, es).value, fs) else None
    decreases |fs|
  {
    if fs == [] {
      assert es + fs == es;
    } else {
      var k := |fs| - 1;
      assert es + fs == (es + fs[..k]) + [fs[k]];
      ExecAppend(step, s, es + fs[..k], fs[k]);
      ExecConcat(step, s, es, fs[..k]);
    }
  }

  /** What the first state has and every possible event keeps, the last state has. */
  lemma {:induction false} Invariance<S(!new), E(!new)>(step: (S, E) -> Option<S>, inv: S -> bool, s: S, es: seq<E>)
    requires inv(s)
    requires forall t, e :: inv(t) && step(t, e).Some? ==> inv(step(t, e).value)
    requires Exec(step, s, es).Some?
    ensures inv(Exec(step, s, es).value)
    decreases |es|
  {
    if es != [] {
      Invariance(step, inv, s, es[..|es| - 1]);
    }
  }
}
