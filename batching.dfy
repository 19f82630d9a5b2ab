/**
 * Cutting the qualified contracts into groups of at most fifty, the slices
 * `qualified[i:min(i+50, len)]` for `i` in `range(0, len, 50)`.
 */
module Batching {

  const BatchSize: nat := 50

  /** The consecutive slices of length `n`, the last one possibly shorter. */
  function Batches<T>(s: seq<T>, n: nat): (bs: seq<seq<T>>)
    requires n > 0
    ensures s == [] <==> bs == []
    decreases |s|
  {
    if s == [] then []
    else if |s| <= n then [s]
    else [s[..n]] + Batches(s[n..], n)
  }

  function Flatten<T>(bs: seq<seq<T>>): seq<T> {
    if bs == [] then [] else bs[0] + Flatten(bs[1..])
  }

  lemma {:induction false} FlattenAppend<T>(a: seq<seq<T>>, b: seq<seq<T>>)
    ensures Flatten(a + b) == Flatten(a) + Flatten(b)
  {
    if a == [] {
      assert a + b == b;
    } else {
      assert (a + b)[1..] == a[1..] + b;
      FlattenAppend(a[1..], b);
    }
  }

  /** The batches together are the whole input, in order. */
  lemma {:induction false} BatchesFlatten<T>(s: seq<T>, n: nat)
    requires n > 0
    ensures Flatten(Batches(s, n)) == s
    decreases |s|
  {
    if |s| > n {
      BatchesFlatten(s[n..], n);
      assert s == s[..n] + s[n..];
    } else if s != [] {
      assert Flatten<T>([]) == [];
    }
  }

  /** Every batch holds between one and `n` elements, and all but the last exactly `n`. */
  lemma {:induction false} BatchesSizes<T>(s: seq<T>, n: nat, b: int)
    requires n > 0 && 0 <= b < |Batches(s, n)|
    ensures 1 <= |Batches(s, n)[b]| <= n
    ensures b < |Batches(s, n)| - 1 ==> |Batches(s, n)[b]| == n
    decreases |s|
  {
    if |s| > n && b > 0 {
      BatchesSizes(s[n..], n, b - 1);
    }
  }

  /** There are `ceil(|s| / n)` batches: the fewest whose capacity covers `s`. */
  lemma {:induction false} BatchesCount<T>(s: seq<T>, n: nat)
    requires n > 0
    ensures (|Batches(s, n)| - 1) * n < |s| <= |Batches(s, n)| * n
    decreases |s|
  {
    if |s| > n {
      var k := |Batches(s[n..], n)|;
      BatchesCount(s[n..], n);
      assert |Batches(s, n)| == k + 1;
      assert (k + 1) * n == k * n + n;
    }
  }

  /**
   * Batch `b` is the slice that starts at `b * n`, and the batches before it
   * flatten to the prefix that ends there.
   */
  lemma {:induction false} BatchStart<T>(s: seq<T>, n: nat, b: nat)
    requires n > 0 && b < |Batches(s, n)|
    ensures b * n < |s|
    ensures Flatten(Batches(s, n)[..b]) == s[..b * n]
    ensures Batches(s, n)[b] == s[b * n..if b * n + n < |s| then b * n + n else |s|]
    decreases |s|
  {
    var bs := Batches(s, n);
    if b == 0 {
      assert bs[..0] == [];
    } else {
      assert |s| > n;
      var rest := Batches(s[n..], n);
      var k := (b - 1) * n;
      MulPred(b, n);
      BatchStart(s[n..], n, b - 1);
      BatchStartStep(s, n, b, b * n, k, rest);
    }
  }

  lemma MulPred(b: nat, n: nat)
    requires b > 0
    ensures b * n == (b - 1) * n + n
  {
  }

  /** The recursive case of `BatchStart`: batch `b` starts at `p`, batch `b - 1` of the rest at `k = p - n`. */
  lemma BatchStartStep<T>(s: seq<T>, n: nat, b: nat, p: nat, k: nat, rest: seq<seq<T>>)
    requires n > 0 && |s| > n && b > 0 && rest == Batches(s[n..], n) && b - 1 < |rest|
    requires p == k + n && k < |s[n..]|
    requires Flatten(rest[..b - 1]) == s[n..][..k]
    requires rest[b - 1] == s[n..][k..if k + n < |s[n..]| then k + n else |s[n..]|]
    ensures Flatten(Batches(s, n)[..b]) == s[..p]
    ensures Batches(s, n)[b] == s[p..if p + n < |s| then p + n else |s|]
  {
    var bs := Batches(s, n);
    assert bs == [s[..n]] + rest;
    assert bs[..b] == [s[..n]] + rest[..b - 1];
    assert bs[..b][1..] == rest[..b - 1];
    assert Flatten(bs[..b]) == s[..n] + s[n..][..k];
    assert s[..p] == s[..n] + s[n..][..k];
    var e := if k + n < |s[n..]| then k + n else |s[n..]|;
    var end := if p + n < |s| then p + n else |s|;
    assert end == n + e;
    assert s[n..][k..e] == s[p..end];
    assert bs[b] == rest[b - 1];
  }


}
