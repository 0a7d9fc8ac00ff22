/** Position of the first least and the first greatest element, as Python's
    `min` and `max` find them: a left-to-right scan that replaces its
    candidate only on a strictly better element. */
module Extrema {

  function ArgMin(keys: seq<real>): (k: nat)
    requires |keys| > 0
    ensures k < |keys|
    ensures forall i :: 0 <= i < |keys| ==> keys[k] <= keys[i]
    ensures forall i :: 0 <= i < k ==> keys[k] < keys[i]
    decreases |keys|
  {
    if |keys| == 1 then 0
    else
      var p := keys[..|keys| - 1];
      var k := ArgMin(p);
      assert forall i :: 0 <= i < |p| ==> p[i] == keys[i];
      if keys[|keys| - 1] < keys[k] then |keys| - 1 else k
  }

  function ArgMax(keys: seq<real>): (k: nat)
    requires |keys| > 0
    ensures k < |keys|
    ensures forall i :: 0 <= i < |keys| ==> keys[i] <= keys[k]
    ensures forall i :: 0 <= i < k ==> keys[i] < keys[k]
    decreases |keys|
  {
    if |keys| == 1 then 0
    else
      var p := keys[..|keys| - 1];
      var k := ArgMax(p);
      assert forall i :: 0 <= i < |p| ==> p[i] == keys[i];
      if keys[k] < keys[|keys| - 1] then |keys| - 1 else k
  }

  /** The first least element is determined by the two facts above: any
      index with them is the one `min` picks. */
  lemma ArgMinUnique(keys: seq<real>, k: nat)
    requires k < |keys|
    requires forall i :: 0 <= i < |keys| ==> keys[k] <= keys[i]
    requires forall i :: 0 <= i < k ==> keys[k] < keys[i]
    ensures ArgMin(keys) == k
  {
    var m := ArgMin(keys);
    assert keys[m] <= keys[k] && keys[k] <= keys[m];
    assert !(m < k) && !(k < m);
  }

  lemma ArgMaxUnique(keys: seq<real>, k: nat)
    requires k < |keys|
    requires forall i :: 0 <= i < |keys| ==> keys[i] <= keys[k]
    requires forall i :: 0 <= i < k ==> keys[i] < keys[k]
    ensures ArgMax(keys) == k
  {
    var m := ArgMax(keys);
    assert keys[m] <= keys[k] && keys[k] <= keys[m];
    assert !(m < k) && !(k < m);
  }
}
