/** Python dictionaries as insertion-ordered association lists. A dictionary built only
    through `Set` and `Pop` never holds a key twice (`UniqueKeys`). */
module PyDict {
  import opened Base

  type Dict<V> = seq<(string, V)>

  function Keys<V>(d: Dict<V>): set<string> {
    if d == [] then {} else {d[0].0} + Keys(d[1..])
  }

  /** The keys in insertion order: `list(d.keys())`. */
  function KeyList<V>(d: Dict<V>): (ks: seq<string>)
    ensures |ks| == |d|
    ensures forall i :: 0 <= i < |d| ==> ks[i] == d[i].0
  {
    seq(|d|, i requires 0 <= i < |d| => d[i].0)
  }

  /** The values in insertion order: `list(d.values())`. */
  function ValueList<V>(d: Dict<V>): (vs: seq<V>)
    ensures |vs| == |d|
    ensures forall i :: 0 <= i < |d| ==> vs[i] == d[i].1
  {
    seq(|d|, i requires 0 <= i < |d| => d[i].1)
  }

  ghost predicate UniqueKeys<V>(d: Dict<V>) {
    forall i, j :: 0 <= i < j < |d| ==> d[i].0 != d[j].0
  }

  /** `d.get(k)`. */
  function Get<V>(d: Dict<V>, k: string): (r: Option<V>)
    ensures r.Some? <==> k in Keys(d)
  {
    if d == [] then None
    else if d[0].0 == k then Some(d[0].1)
    else
      Get(d[1..], k)
  }

  /** `d[k] = v`: an existing key keeps its place, a new key goes to the end. */
  function Set<V>(d: Dict<V>, k: string, v: V): (r: Dict<V>)
    ensures Keys(r) == Keys(d) + {k}
    ensures Get(r, k) == Some(v)
    ensures forall k' :: k' != k ==> Get(r, k') == Get(d, k')
    ensures k !in Keys(d) ==> r == d + [(k, v)]
  {
    if d == [] then [(k, v)]
    else
      assert d == [d[0]] + d[1..];
      if d[0].0 == k then
        assert ([(k, v)] + d[1..])[1..] == d[1..];
        [(k, v)] + d[1..]
      else
        var r := [d[0]] + Set(d[1..], k, v);
        assert r[1..] == Set(d[1..], k, v);
        r
  }

  /** Assigning to an existing key keeps every key in its place. */
  lemma {:induction false} SetKeepsOrder<V>(d: Dict<V>, k: string, v: V)
    requires k in Keys(d)
    ensures KeyList(Set(d, k, v)) == KeyList(d)
  {
    assert d == [d[0]] + d[1..];
    if d[0].0 != k {
      SetKeepsOrder(d[1..], k, v);
      var r := Set(d, k, v);
      assert r == [d[0]] + Set(d[1..], k, v);
      assert KeyList(r) == [d[0].0] + KeyList(Set(d[1..], k, v));
      assert KeyList(d) == [d[0].0] + KeyList(d[1..]);
    }
  }

  /** Assigning to a key keeps the keys distinct. */
  lemma {:induction false} SetUnique<V>(d: Dict<V>, k: string, v: V)
    requires UniqueKeys(d)
    ensures UniqueKeys(Set(d, k, v))
  {
    if d != [] {
      assert d == [d[0]] + d[1..];
      UniqueCons(d[0], d[1..]);
      if d[0].0 == k {
        UniqueCons((k, v), d[1..]);
      } else {
        SetUnique(d[1..], k, v);
        UniqueCons(d[0], Set(d[1..], k, v));
      }
    }
  }

  /** `d.pop(k)` when `k` is present (the caller checks it): `d` without `k`. */
  function Pop<V>(d: Dict<V>, k: string): (r: Dict<V>)
    ensures forall k' :: k' != k ==> Get(r, k') == Get(d, k')
    ensures UniqueKeys(d) ==> UniqueKeys(r) && Keys(r) == Keys(d) - {k}
    ensures |r| <= |d|
  {
    if d == [] then []
    else
      assert d == [d[0]] + d[1..];
      if d[0].0 == k then
        UniqueCons(d[0], d[1..]);
        d[1..]
      else
        var r := [d[0]] + Pop(d[1..], k);
        assert r[1..] == Pop(d[1..], k);
        UniqueCons(d[0], d[1..]);
        UniqueCons(d[0], Pop(d[1..], k));
        r
  }

  lemma {:induction false} KeysIndex<V>(d: Dict<V>)
    ensures forall i :: 0 <= i < |d| ==> d[i].0 in Keys(d)
    ensures forall k :: k in Keys(d) ==> exists i :: 0 <= i < |d| && d[i].0 == k
  {
    if d != [] {
      KeysIndex(d[1..]);
      forall i | 1 <= i < |d| ensures d[i].0 in Keys(d) {
        assert d[1..][i - 1] == d[i];
      }
      forall k | k in Keys(d[1..]) ensures exists i :: 0 <= i < |d| && d[i].0 == k {
        var j :| 0 <= j < |d[1..]| && d[1..][j].0 == k;
        assert d[j + 1].0 == k;
      }
    }
  }

  lemma UniqueCons<V>(x: (string, V), rest: Dict<V>)
    ensures UniqueKeys([x] + rest) <==> x.0 !in Keys(rest) && UniqueKeys(rest)
  {
    var d := [x] + rest;
    KeysIndex(rest);
    assert forall i :: 1 <= i < |d| ==> d[i] == rest[i - 1];
    if x.0 !in Keys(rest) && UniqueKeys(rest) {
      forall i, j | 0 <= i < j < |d| ensures d[i].0 != d[j].0 {
        if i > 0 {
          assert d[i] == rest[i - 1] && d[j] == rest[j - 1];
        } else {
          assert d[j].0 in Keys(rest);
        }
      }
    }
    if UniqueKeys(d) {
      forall i, j | 0 <= i < j < |rest| ensures rest[i].0 != rest[j].0 {
        assert d[i + 1] == rest[i] && d[j + 1] == rest[j];
      }
      forall j | 0 <= j < |rest| ensures rest[j].0 != x.0 {
        assert d[0] == x && d[j + 1] == rest[j];
        assert d[0].0 != d[j + 1].0;
      }
    }
  }
}
