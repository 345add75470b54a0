/** Flat float arrays as the bindings consume them: cut into tuples, divided by a factor. */
module Tuples {

  /** A multiple of `k` strictly between `-k` and `k` is zero. */
  lemma SmallMultiple(d: int, k: int)
    requires k > 0 && -k < d * k < k
    ensures d == 0
  {
  }

  /** Removing one divisor from a dividend at least as large lowers the quotient by one. */
  lemma DivStep(n: nat, k: nat)
    requires 0 < k <= n
    ensures (n - k) / k == n / k - 1
  {
    var q, r := (n - k) / k, (n - k) % k;
    var Q, R := n / k, n % k;
    assert n - k == q * k + r && 0 <= r < k;
    assert n == Q * k + R && 0 <= R < k;
    assert (q + 1 - Q) * k == R - r;
    SmallMultiple(q + 1 - Q, k);
  }

  /** `s` cut into consecutive `k`-element tuples; a trailing partial tuple is dropped. */
  function Chunks<T>(s: seq<T>, k: nat): (r: seq<seq<T>>)
    requires k > 0
    ensures |r| == |s| / k
    ensures forall i :: 0 <= i < |r| ==> |r[i]| == k
    decreases |s|
  {
    if |s| < k then []
    else
      DivStep(|s|, k);
      [s[..k]] + Chunks(s[k..], k)
  }

  /** Tuple `i` holds the elements `i * k` to `i * k + k - 1` of `s`. */
  lemma {:induction false} ChunkAt<T>(s: seq<T>, k: nat, i: nat)
    requires k > 0 && i < |s| / k
    ensures i * k + k <= |s|
    ensures Chunks(s, k)[i] == s[i * k .. i * k + k]
    decreases |s|
  {
    if |s| >= k {
      DivStep(|s|, k);
      if i > 0 {
        ChunkAt(s[k..], k, i - 1);
        assert (i - 1) * k + k == i * k;
      }
    }
  }

  /** Every element of `s` divided by `f`, as `for_each(..., i /= f)` leaves a vector. */
  function Scaled(s: seq<real>, f: real): (r: seq<real>)
    requires f != 0.0
    ensures |r| == |s|
    ensures forall i :: 0 <= i < |s| ==> r[i] * f == s[i]
  {
    seq(|s|, i requires 0 <= i < |s| => s[i] / f)
  }

  /** Divides every element of `a` by `f` in place. */
  method DivideAll(a: array<real>, f: real)
    requires f != 0.0
    modifies a
    ensures a[..] == Scaled(old(a[..]), f)
  {
    var i := 0;
    while i < a.Length
      invariant 0 <= i <= a.Length
      invariant forall j :: 0 <= j < i ==> a[j] == old(a[j]) / f
      invariant forall j :: i <= j < a.Length ==> a[j] == old(a[j])
    {
      a[i] := a[i] / f;
      i := i + 1;
    }
  }
}
