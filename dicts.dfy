/**
 * Python's insertion-ordered `dict` with string keys, as a sequence of
 * (key, value) entries. Assigning to a present key replaces its value where it
 * stands; assigning to an absent key appends a new entry at the end.
 */
module Dicts {
  import opened Wrappers

  type Dict<V> = seq<(string, V)>

  /** The keys in iteration order. */
  function Keys<V>(d: Dict<V>): seq<string>
  {
    seq(|d|, i requires 0 <= i < |d| => d[i].0)
  }

  predicate HasKey<V>(d: Dict<V>, k: string)
  {
    exists i :: 0 <= i < |d| && d[i].0 == k
  }

  /** No key occurs twice, which every Python dict satisfies. */
  predicate UniqueKeys<V>(d: Dict<V>)
  {
    forall i, j :: 0 <= i < j < |d| ==> d[i].0 != d[j].0
  }

  /** The position of the first entry whose key is `k`. */
  function FirstIndex<V>(d: Dict<V>, k: string): (i: nat)
    requires HasKey(d, k)
    ensures i < |d| && d[i].0 == k
    ensures forall j :: 0 <= j < i ==> d[j].0 != k
  {
    if d[0].0 == k then 0
    else
      assert HasKey(d[1..], k) by {
        var j :| 0 <= j < |d| && d[j].0 == k;
        assert d[1..][j - 1] == d[j];
      }
      1 + FirstIndex(d[1..], k)
  }

  /** `d.get(k)`. */
  function Get<V>(d: Dict<V>, k: string): (found: Option<V>)
  {
    if HasKey(d, k) then Some(d[FirstIndex(d, k)].1) else None
  }

  /** `d[k] = v`. */
  function Put<V>(d: Dict<V>, k: string, v: V): (updated: Dict<V>)
  {
    if HasKey(d, k) then d[FirstIndex(d, k) := (k, v)] else d + [(k, v)]
  }

  /** After `d[k] = v`, looking up `k` gives `v` and every other key is unaffected. */
  lemma PutGet<V>(d: Dict<V>, k: string, v: V, k': string)
    ensures Get(Put(d, k, v), k) == Some(v)
    ensures k' != k ==> Get(Put(d, k, v), k') == Get(d, k')
  {
    var r := Put(d, k, v);
    if HasKey(d, k) {
      var i := FirstIndex(d, k);
      assert r[i] == (k, v);
      assert FirstIndex(r, k) == i;
      if k' != k && HasKey(d, k') {
        var j := FirstIndex(d, k');
        assert r[j] == d[j];
        assert FirstIndex(r, k') == j by {
          var j' := FirstIndex(r, k');
          assert r[j'].0 == k' && r[j'] == d[j'];
        }
      }
    } else {
      assert r[|d|] == (k, v);
      assert FirstIndex(r, k) == |d|;
      if k' != k && HasKey(d, k') {
        var j := FirstIndex(d, k');
        assert r[j] == d[j];
        assert FirstIndex(r, k') == j;
      }
    }
  }

  /** With no key twice, the entry at position `i` is the one `d.get` finds for its key. */
  lemma UniqueGet<V>(d: Dict<V>, i: nat)
    requires UniqueKeys(d) && i < |d|
    ensures Get(d, d[i].0) == Some(d[i].1)
  {
    assert HasKey(d, d[i].0);
    assert FirstIndex(d, d[i].0) == i;
  }

  /** Assigning to a key that is not among the keys appends it to them. */
  lemma PutFresh<V>(d: Dict<V>, k: string, v: V)
    requires k !in Keys(d)
    ensures Keys(Put(d, k, v)) == Keys(d) + [k]
  {
    forall j | 0 <= j < |d|
      ensures d[j].0 != k
    {
      assert Keys(d)[j] == d[j].0;
    }
    PutKeys(d, k, v);
  }

  /**
   * `d[k] = v` leaves the key order alone when `k` is present and appends `k`
   * when it is not; either way no key comes to occur twice.
   */
  lemma PutKeys<V>(d: Dict<V>, k: string, v: V)
    ensures HasKey(d, k) ==> Keys(Put(d, k, v)) == Keys(d)
    ensures !HasKey(d, k) ==> Keys(Put(d, k, v)) == Keys(d) + [k]
    ensures UniqueKeys(d) ==> UniqueKeys(Put(d, k, v))
  {
    var r := Put(d, k, v);
    if HasKey(d, k) {
      assert forall j :: 0 <= j < |d| ==> r[j].0 == d[j].0;
    } else {
      assert forall j :: 0 <= j < |d| ==> r[j].0 == d[j].0;
      assert Keys(r) == Keys(d) + [k];
    }
  }
}
