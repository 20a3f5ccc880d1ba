/** Python dictionaries with string keys, as the sequence of their items in
    insertion order.  Iteration follows that order, `d[k] = v` overwrites an
    existing item where it stands and appends a new one at the end, and
    `d.get(k, default)` looks a key up. */
module Dicts {
  import opened Wrappers

  type Dict<V> = seq<(string, V)>

  function Keys<V>(d: Dict<V>): (ks: seq<string>)
    ensures |ks| == |d|
    ensures forall i :: 0 <= i < |d| ==> ks[i] == d[i].0
  {
    seq(|d|, i requires 0 <= i < |d| => d[i].0)
  }

  /** Every key occurs once: the shape of every dictionary Python builds. */
  predicate DistinctKeys<V>(d: Dict<V>) {
    forall i, j :: 0 <= i < j < |d| ==> d[i].0 != d[j].0
  }

  /** `d.get(k)`: the value stored under `k`, if any. */
  function Get<V>(d: Dict<V>, k: string): (r: Option<V>)
    ensures r.Some? <==> k in Keys(d)
  {
    if |d| == 0 then None
    else if d[0].0 == k then Some(d[0].1)
    else
      KeysTail(d);
      Get(d[1..], k)
  }

  /** `d.get(k, default)`. */
  function GetOr<V>(d: Dict<V>, k: string, default: V): V {
    match Get(d, k)
    case Some(v) => v
    case None => default
  }

  /** The position of the first item under `k`. */
  function IndexOf<V>(d: Dict<V>, k: string): (i: nat)
    requires k in Keys(d)
    ensures i < |d| && d[i].0 == k
    ensures forall j :: 0 <= j < i ==> d[j].0 != k
  {
    if d[0].0 == k then 0
    else
      KeysTail(d);
      var j := IndexOf(d[1..], k);
      assert d[1..][j] == d[j + 1];
      1 + j
  }

  /** `d[k] = v`. */
  function Set<V>(d: Dict<V>, k: string, v: V): (r: Dict<V>)
    ensures k !in Keys(d) ==> r == d + [(k, v)]
    ensures k in Keys(d) ==> Keys(r) == Keys(d)
    ensures DistinctKeys(d) ==> DistinctKeys(r)
  {
    if k in Keys(d) then d[IndexOf(d, k) := (k, v)] else d + [(k, v)]
  }

  /** With distinct keys, `d[k] = v` replaces the one item under `k`. */
  lemma SetExisting<V>(d: Dict<V>, k: string, v: V, i: nat)
    requires DistinctKeys(d)
    requires i < |d| && d[i].0 == k
    ensures Set(d, k, v) == d[i := (k, v)]
  {
    assert Keys(d)[i] == k;
  }

  lemma KeysTail<V>(d: Dict<V>)
    requires |d| > 0
    ensures Keys(d) == [d[0].0] + Keys(d[1..])
  {
  }

  /** Two dictionaries with distinct keys and no key in common make one. */
  lemma DistinctAppend<V>(a: Dict<V>, b: Dict<V>)
    requires DistinctKeys(a) && DistinctKeys(b)
    requires forall i, j :: 0 <= i < |a| && 0 <= j < |b| ==> a[i].0 != b[j].0
    ensures DistinctKeys(a + b)
  {
    forall i, j | 0 <= i < j < |a + b|
      ensures (a + b)[i].0 != (a + b)[j].0
    {
      if j < |a| {
      } else if i >= |a| {
        assert (a + b)[i] == b[i - |a|] && (a + b)[j] == b[j - |a|];
      } else {
        assert (a + b)[i] == a[i] && (a + b)[j] == b[j - |a|];
      }
    }
  }

  /** The last key of a dictionary with distinct keys is not among the others. */
  lemma LastKeyFresh<V>(d: Dict<V>)
    requires DistinctKeys(d) && |d| > 0
    ensures DistinctKeys(d[..|d| - 1])
    ensures d[|d| - 1].0 !in Keys(d[..|d| - 1])
  {
    var init := d[..|d| - 1];
    forall i | 0 <= i < |init|
      ensures Keys(init)[i] != d[|d| - 1].0
    {
      assert init[i] == d[i];
    }
  }

  /** In a dictionary whose keys are distinct, `get` finds each item. */
  lemma GetAt<V>(d: Dict<V>, i: nat)
    requires DistinctKeys(d)
    requires i < |d|
    ensures Get(d, d[i].0) == Some(d[i].1)
  {
    if i > 0 {
      assert d[1..][i - 1] == d[i];
      GetAt(d[1..], i - 1);
    }
  }

  /** After `d[k] = v`, `k` reads `v` and every other key reads as before. */
  lemma {:induction false} GetOfSet<V>(d: Dict<V>, k: string, v: V, k2: string)
    ensures Get(Set(d, k, v), k2) == if k2 == k then Some(v) else Get(d, k2)
  {
    if |d| > 0 && d[0].0 != k {
      SetTail(d, k, v);
      GetOfSet(d[1..], k, v, k2);
    }
  }

  /** Past a first item under another key, `d[k] = v` happens in the tail. */
  lemma SetTail<V>(d: Dict<V>, k: string, v: V)
    requires |d| > 0 && d[0].0 != k
    ensures |Set(d, k, v)| > 0 && Set(d, k, v)[0] == d[0]
    ensures Set(d, k, v)[1..] == Set(d[1..], k, v)
  {
    KeysTail(d);
    if k in Keys(d) {
      var i := IndexOf(d, k);
      assert i == 1 + IndexOf(d[1..], k);
      assert d[i := (k, v)][1..] == d[1..][i - 1 := (k, v)];
    } else {
      assert (d + [(k, v)])[1..] == d[1..] + [(k, v)];
    }
  }

}
