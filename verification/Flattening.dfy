/** Concatenating a list of lists. */
module Flattening {

  function Flatten<T>(xss: seq<seq<T>>): seq<T> {
    if xss == [] then []
    else
      var n := |xss| - 1;
      Flatten(xss[..n]) + xss[n]
  }

  /** List number `k` occupies the window that begins where the lists before it end. */
  lemma {:induction false} FlattenWindow<T>(xss: seq<seq<T>>, k: nat)
    requires k < |xss|
    ensures var before := |Flatten(xss[..k])|;
            && before + |xss[k]| <= |Flatten(xss)|
            && Flatten(xss)[before..before + |xss[k]|] == xss[k]
    ensures |Flatten(xss[..k + 1])| == |Flatten(xss[..k])| + |xss[k]|
  {
    var n := |xss| - 1;
    assert xss[..k + 1][..k] == xss[..k];
    if k < n {
      FlattenWindow(xss[..n], k);
      assert xss[..n][..k] == xss[..k];
    } else {
      assert xss[..n + 1] == xss;
    }
  }

  /** Conversely, every position lies in exactly one window. */
  lemma {:induction false} FlattenSource<T>(xss: seq<seq<T>>, p: nat) returns (k: nat, j: nat)
    requires p < |Flatten(xss)|
    ensures k < |xss| && j < |xss[k]| && p == |Flatten(xss[..k])| + j && xss[k][j] == Flatten(xss)[p]
  {
    var n := |xss| - 1;
    if p < |Flatten(xss[..n])| {
      k, j := FlattenSource(xss[..n], p);
      assert xss[..n][..k] == xss[..k];
    } else {
      k, j := n, p - |Flatten(xss[..n])|;
    }
  }

  lemma {:induction false} FlattenMonotone<T>(xss: seq<seq<T>>, j: nat, k: nat)
    requires j <= k <= |xss|
    ensures |Flatten(xss[..j])| <= |Flatten(xss[..k])|
    decreases k
  {
    if j < k {
      assert xss[..k][..k - 1] == xss[..k - 1];
      FlattenMonotone(xss, j, k - 1);
    }
  }
}
