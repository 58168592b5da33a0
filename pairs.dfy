/**
 * The order in which a frame's faces are compared: the i-th detection (the
 * newer face) is compared with every earlier detection k < i, k ascending,
 * before it joins the list. A pair is (newer, older).
 */
module Pairs {

  function Enumeration(n: nat): (e: seq<(nat, nat)>)
    ensures forall j :: 0 <= j < |e| ==> e[j].1 < e[j].0 < n
  {
    if n == 0 then [] else Enumeration(n - 1) + Row(n - 1)
  }

  /** The comparisons made for the i-th detection. */
  function Row(i: nat): seq<(nat, nat)>
  {
    seq(i, k => (i, k))
  }

  /** A frame of n detections makes n(n-1)/2 comparisons. */
  lemma {:induction false} EnumerationLength(n: nat)
    ensures 2 * |Enumeration(n)| == n * (n - 1)
  {
    if n > 0 {
      EnumerationLength(n - 1);
      assert (n - 1) * (n - 2) + 2 * (n - 1) == n * (n - 1);
    }
  }

  /** Pair (i, k) with k < i < n is the k-th comparison after those of the first i detections. */
  lemma {:induction false} EnumerationAt(n: nat, i: nat, k: nat)
    requires k < i < n
    ensures |Enumeration(i)| + k < |Enumeration(n)|
    ensures Enumeration(n)[|Enumeration(i)| + k] == (i, k)
  {
    if i < n - 1 {
      EnumerationAt(n - 1, i, k);
    }
  }

  /** Conversely, the position of every comparison is fixed by its pair. */
  lemma {:induction false} EnumerationIndex(n: nat, j: nat)
    requires j < |Enumeration(n)|
    ensures j == |Enumeration(Enumeration(n)[j].0)| + Enumeration(n)[j].1
  {
    if j < |Enumeration(n - 1)| {
      EnumerationIndex(n - 1, j);
    }
  }

  /** Every pair of distinct detections is compared, newer against older. */
  lemma EnumerationCovers(n: nat, i: nat, k: nat)
    requires k < i < n
    ensures (i, k) in Enumeration(n)
  {
    EnumerationAt(n, i, k);
  }

  /** No pair is compared twice. */
  lemma EnumerationDistinct(n: nat, j1: nat, j2: nat)
    requires j1 < |Enumeration(n)| && j2 < |Enumeration(n)|
    requires Enumeration(n)[j1] == Enumeration(n)[j2]
    ensures j1 == j2
  {
    EnumerationIndex(n, j1);
    EnumerationIndex(n, j2);
  }

  lemma {:induction false} EnumerationPrefix(m: nat, n: nat)
    requires m <= n
    ensures Enumeration(m) <= Enumeration(n)
  {
    if m < n {
      EnumerationPrefix(m, n - 1);
    }
  }

  /** Comparisons run with the newer index ascending, then the older index ascending. */
  lemma EnumerationOrdered(n: nat, j1: nat, j2: nat)
    requires j1 < j2 < |Enumeration(n)|
    ensures var p1, p2 := Enumeration(n)[j1], Enumeration(n)[j2];
      p1.0 < p2.0 || (p1.0 == p2.0 && p1.1 < p2.1)
  {
    EnumerationIndex(n, j1);
    EnumerationIndex(n, j2);
  }
}
