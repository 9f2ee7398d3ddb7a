/** Sums of real vectors, the arithmetic that numpy's `np.sum` and the
    array `+=` of the mixture code rely on, stated exactly over `real`. */
module RealSums {

  /** Sum of the entries, folded from the front. */
  function Sum(s: seq<real>): real
  {
    if |s| == 0 then 0.0 else s[0] + Sum(s[1..])
  }

  /** Entry-wise sum of two vectors of equal length (numpy's `u + v`). */
  function VAdd(u: seq<real>, v: seq<real>): (r: seq<real>)
    requires |u| == |v|
    ensures |r| == |u|
    ensures forall i :: 0 <= i < |r| ==> r[i] == u[i] + v[i]
  {
    seq(|u|, i requires 0 <= i < |u| => u[i] + v[i])
  }

  /** The vector of length `n` whose entries all equal `c`. */
  function Fill(n: nat, c: real): (r: seq<real>)
    ensures |r| == n
    ensures forall i :: 0 <= i < n ==> r[i] == c
  {
    seq(n, _ => c)
  }

  lemma {:induction false} SumAppend(s: seq<real>, t: seq<real>)
    ensures Sum(s + t) == Sum(s) + Sum(t)
  {
    if |s| == 0 {
      assert s + t == t;
    } else {
      assert (s + t)[1..] == s[1..] + t;
      SumAppend(s[1..], t);
    }
  }

  /** Summing commutes with entry-wise addition. */
  lemma {:induction false} SumVAdd(u: seq<real>, v: seq<real>)
    requires |u| == |v|
    ensures Sum(VAdd(u, v)) == Sum(u) + Sum(v)
  {
    if |u| > 0 {
      assert VAdd(u, v)[1..] == VAdd(u[1..], v[1..]);
      SumVAdd(u[1..], v[1..]);
    }
  }

  /** A constant vector sums to its length times the constant. */
  lemma {:induction false} SumFill(n: nat, c: real)
    ensures Sum(Fill(n, c)) == n as real * c
  {
    if n > 0 {
      assert Fill(n, c)[1..] == Fill(n - 1, c);
      SumFill(n - 1, c);
    }
  }

  /** Removing the entry at `i` takes exactly that entry off the sum. */
  lemma {:induction false} SumRemoveAt(s: seq<real>, i: nat)
    requires i < |s|
    ensures Sum(s[..i] + s[i + 1..]) == Sum(s) - s[i]
  {
    assert s == s[..i] + ([s[i]] + s[i + 1..]);
    SumAppend(s[..i], [s[i]] + s[i + 1..]);
    SumAppend([s[i]], s[i + 1..]);
    SumAppend(s[..i], s[i + 1..]);
  }

  /** Adding the same `e` to every entry adds `|a| * e` to the sum. */
  lemma {:induction false} SumShifted(a: seq<real>, e: real)
    ensures Sum(seq(|a|, c requires 0 <= c < |a| => a[c] + e)) == Sum(a) + |a| as real * e
  {
    var r := seq(|a|, c requires 0 <= c < |a| => a[c] + e);
    if |a| > 0 {
      assert r[1..] == seq(|a| - 1, c requires 0 <= c < |a| - 1 => a[1..][c] + e);
      SumShifted(a[1..], e);
    }
  }

  /** Sum of `(a[c] + e) / d` over all entries: the additive smoothing of
      the M-step folded into one quotient. */
  lemma {:induction false} SumSmoothed(a: seq<real>, e: real, d: real)
    requires d != 0.0
    ensures Sum(seq(|a|, c requires 0 <= c < |a| => (a[c] + e) / d))
         == (Sum(a) + |a| as real * e) / d
  {
    var shifted := seq(|a|, c requires 0 <= c < |a| => a[c] + e);
    SumShifted(a, e);
    SumScaled(shifted, d);
    assert seq(|a|, c requires 0 <= c < |a| => (a[c] + e) / d)
        == seq(|shifted|, c requires 0 <= c < |shifted| => shifted[c] / d);
  }

  /** Sum of a vector whose entries are all divided by the same non-zero `d`. */
  lemma {:induction false} SumScaled(a: seq<real>, d: real)
    requires d != 0.0
    ensures Sum(seq(|a|, c requires 0 <= c < |a| => a[c] / d)) == Sum(a) / d
  {
    var r := seq(|a|, c requires 0 <= c < |a| => a[c] / d);
    if |a| > 0 {
      assert r[1..] == seq(|a| - 1, c requires 0 <= c < |a| - 1 => a[1..][c] / d);
      SumScaled(a[1..], d);
    }
  }

  /** The sum of non-negative entries is non-negative. */
  lemma {:induction false} SumNonNegative(s: seq<real>)
    requires forall i :: 0 <= i < |s| ==> s[i] >= 0.0
    ensures Sum(s) >= 0.0
  {
    if |s| > 0 {
      SumNonNegative(s[1..]);
    }
  }
}
