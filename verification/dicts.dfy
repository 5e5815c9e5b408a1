/**
 * Python dictionaries as association lists. The order of the list is the
 * dictionary's insertion order, which the editor's output makes visible.
 * A key that occurs more than once (possible only in a value built outside
 * Python's `dict`, as `json.loads` reads duplicate keys) is read at its last
 * occurrence, which is what `json.loads` keeps.
 */
module Dicts {
  import opened Wrappers

  type Dict<V> = seq<(string, V)>

  /** `list(d.keys())` */
  function Keys<V>(d: Dict<V>): (ks: seq<string>)
    ensures |ks| == |d|
    ensures forall i :: 0 <= i < |d| ==> ks[i] == d[i].0
  {
    seq(|d|, i requires 0 <= i < |d| => d[i].0)
  }

  /** `list(d.values())` */
  function Values<V>(d: Dict<V>): (vs: seq<V>)
    ensures |vs| == |d|
    ensures forall i :: 0 <= i < |d| ==> vs[i] == d[i].1
  {
    seq(|d|, i requires 0 <= i < |d| => d[i].1)
  }

  /** `k in d` */
  predicate Has<V>(d: Dict<V>, k: string)
  {
    k in Keys(d)
  }

  predicate DistinctKeys<V>(d: Dict<V>)
  {
    forall i, j :: 0 <= i < j < |d| ==> d[i].0 != d[j].0
  }

  /** `d[k]` when `k in d`, None otherwise. */
  function Lookup<V>(d: Dict<V>, k: string): (r: Option<V>)
    ensures r.Some? <==> Has(d, k)
    decreases |d|
  {
    if d == [] then None
    else if d[|d| - 1].0 == k then Some(d[|d| - 1].1)
    else
      assert Keys(d) == Keys(d[..|d| - 1]) + [d[|d| - 1].0];
      Lookup(d[..|d| - 1], k)
  }

  /** `d.get(k, default)` */
  function Get<V>(d: Dict<V>, k: string, default: V): (r: V)
    ensures Has(d, k) ==> Lookup(d, k) == Some(r)
    ensures !Has(d, k) ==> r == default
  {
    match Lookup(d, k)
    case Some(v) => v
    case None => default
  }

  lemma LookupSnoc<V>(d: Dict<V>, k: string, v: V, key: string)
    ensures Lookup(d + [(k, v)], key) == if k == key then Some(v) else Lookup(d, key)
  {
    assert (d + [(k, v)])[..|d|] == d;
  }

  lemma KeysSnoc<V>(d: Dict<V>, k: string, v: V)
    ensures Keys(d + [(k, v)]) == Keys(d) + [k]
  {
  }

  /** Replaces the value of every entry whose key is `k`, keeping the order of keys. */
  function Replace<V>(d: Dict<V>, k: string, v: V): (r: Dict<V>)
    ensures |r| == |d| && forall i :: 0 <= i < |d| ==> r[i] == if d[i].0 == k then (k, v) else d[i]
    ensures Keys(r) == Keys(d)
    ensures Has(d, k) ==> Lookup(r, k) == Some(v)
    ensures forall key :: key != k ==> Lookup(r, key) == Lookup(d, key)
    decreases |d|
  {
    if d == [] then []
    else
      var prefix := d[..|d| - 1];
      var last := d[|d| - 1];
      assert d == prefix + [last];
      var init := Replace(prefix, k, v);
      var r := init + [if last.0 == k then (k, v) else last];
      assert Keys(d) == Keys(prefix) + [last.0];
      forall key ensures Lookup(r, key) == (if key == k && Has(d, k) then Some(v) else Lookup(d, key)) {
        LookupSnoc(init, r[|r| - 1].0, r[|r| - 1].1, key);
        LookupSnoc(prefix, last.0, last.1, key);
      }
      r
  }

  /** The entry at `i` is the one a lookup of its key finds, when keys are distinct. */
  lemma {:induction false} LookupAt<V>(d: Dict<V>, i: nat)
    requires DistinctKeys(d) && i < |d|
    ensures Lookup(d, d[i].0) == Some(d[i].1)
    decreases |d|
  {
    if i < |d| - 1 {
      assert d[..|d| - 1][i] == d[i];
      LookupAt(d[..|d| - 1], i);
    }
  }

  /** A dict with entries finds its last key. */
  lemma LastKeyFound<V>(d: Dict<V>)
    ensures d == [] || Lookup(d, d[|d| - 1].0).Some?
  {
  }

  /** A key that is present is found at some entry carrying it. */
  lemma {:induction false} LookupIn<V>(d: Dict<V>, k: string)
    requires Has(d, k)
    ensures exists i :: 0 <= i < |d| && d[i].0 == k && Lookup(d, k) == Some(d[i].1)
    decreases |d|
  {
    var n := |d| - 1;
    if d[n].0 != k {
      assert Keys(d) == Keys(d[..n]) + [d[n].0];
      LookupIn(d[..n], k);
      var i :| 0 <= i < n && d[..n][i].0 == k && Lookup(d[..n], k) == Some(d[..n][i].1);
      assert d[..n][i] == d[i];
    }
  }

  /** A dict whose keys are those of a dict with distinct keys, perhaps plus a new one, has distinct keys. */
  lemma DistinctKeysGrow<V, W>(d: Dict<V>, r: Dict<W>)
    requires DistinctKeys(d)
    requires Keys(r) == Keys(d) || (|r| == |d| + 1 && Keys(r) == Keys(d) + [r[|d|].0] && !Has(d, r[|d|].0))
    ensures DistinctKeys(r)
  {
    forall i, j | 0 <= i < j < |r| ensures r[i].0 != r[j].0 {
      assert Keys(r)[i] == r[i].0 && Keys(r)[j] == r[j].0;
      if j < |d| {
        assert Keys(d)[i] == d[i].0 && Keys(d)[j] == d[j].0;
      } else {
        assert Keys(d)[i] == d[i].0;
      }
    }
  }

  /** `d[k] = v`: an existing key keeps its place, a new key goes last. */
  function Put<V>(d: Dict<V>, k: string, v: V): (r: Dict<V>)
    ensures Lookup(r, k) == Some(v)
    ensures forall key :: key != k ==> Lookup(r, key) == Lookup(d, key)
    ensures Has(d, k) ==> Keys(r) == Keys(d)
    ensures !Has(d, k) ==> Keys(r) == Keys(d) + [k]
    ensures !Has(d, k) ==> r == d + [(k, v)]
    ensures Has(d, k) ==> |r| == |d| && forall i :: 0 <= i < |d| ==> r[i] == if d[i].0 == k then (k, v) else d[i]
  {
    if Has(d, k) then Replace(d, k, v)
    else
      forall key ensures Lookup(d + [(k, v)], key) == if k == key then Some(v) else Lookup(d, key) {
        LookupSnoc(d, k, v, key);
      }
      d + [(k, v)]
  }

  /** `d.pop(k, None)` for its effect on `d`: every entry with key `k` is removed. */
  function Del<V>(d: Dict<V>, k: string): (r: Dict<V>)
    ensures !Has(r, k)
    ensures forall key :: key != k ==> Lookup(r, key) == Lookup(d, key)
    ensures forall key :: Has(r, key) <==> Has(d, key) && key != k
    ensures !Has(d, k) ==> r == d
    decreases |d|
  {
    if d == [] then []
    else
      var init := Del(d[..|d| - 1], k);
      var last := d[|d| - 1];
      assert d == d[..|d| - 1] + [last];
      assert Keys(d) == Keys(d[..|d| - 1]) + [last.0];
      if last.0 == k then init
      else
        forall key | key != k ensures Lookup(init + [last], key) == Lookup(d, key) {
          LookupSnoc(init, last.0, last.1, key);
          LookupSnoc(d[..|d| - 1], last.0, last.1, key);
        }
        KeysSnoc(init, last.0, last.1);
        forall key ensures Has(init + [last], key) <==> Has(d, key) && key != k {
          assert Has(init, key) <==> Has(d[..|d| - 1], key) && key != k;
          assert Has(init + [last], key) <==> key in Keys(init) || key == last.0;
          assert Has(d, key) <==> key in Keys(d[..|d| - 1]) || key == last.0;
        }
        init + [last]
  }

  /** `d.setdefault(k, v)` for its effect on `d`. */
  function SetDefault<V>(d: Dict<V>, k: string, v: V): (r: Dict<V>)
    ensures Has(r, k)
    ensures Has(d, k) ==> r == d
    ensures !Has(d, k) ==> r == d + [(k, v)] && Keys(r) == Keys(d) + [k]
  {
    if Has(d, k) then d else KeysSnoc(d, k, v); d + [(k, v)]
  }

  /** `{**a, **b}`: the keys of `a` in their order, then the new keys of `b`; values from `b` win. */
  function Overlay<V>(a: Dict<V>, b: Dict<V>): (r: Dict<V>)
    ensures forall key :: Lookup(r, key) == if Has(b, key) then Lookup(b, key) else Lookup(a, key)
    ensures |Keys(r)| >= |Keys(a)| && Keys(r)[..|a|] == Keys(a)
    decreases |b|
  {
    if b == [] then a
    else
      var init := Overlay(a, b[..|b| - 1]);
      var last := b[|b| - 1];
      assert b == b[..|b| - 1] + [last];
      assert Keys(b) == Keys(b[..|b| - 1]) + [last.0];
      forall key ensures Lookup(b, key) == if key == last.0 then Some(last.1) else Lookup(b[..|b| - 1], key) {
        LookupSnoc(b[..|b| - 1], last.0, last.1, key);
      }
      var r := Put(init, last.0, last.1);
      assert Keys(r)[..|a|] == Keys(init)[..|a|];
      r
  }

  /** The keys of `{**a, **b}` are those of `a` and those of `b`. */
  lemma OverlayHas<V>(a: Dict<V>, b: Dict<V>, key: string)
    ensures Has(Overlay(a, b), key) <==> Has(a, key) || Has(b, key)
  {
    assert Lookup(Overlay(a, b), key).Some? <==> Lookup(a, key).Some? || Lookup(b, key).Some?;
  }
}
