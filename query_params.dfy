/** The query string of the browser's current URL as a `URLSearchParams`
    list: an ordered list of key/value pairs in which a key may repeat. */
module QueryParams {
  import opened Wrappers

  datatype Param = Param(key: string, value: string)

  type Query = seq<Param>

  /** `params.get(k)`: the value of the first pair with key `k`. */
  function Get(q: Query, k: string): (r: Option<string>)
    ensures r.Some? <==> exists i :: 0 <= i < |q| && q[i].key == k
    ensures r.Some? ==> exists i :: && 0 <= i < |q| && q[i].key == k && r.value == q[i].value
                                   && forall j :: 0 <= j < i ==> q[j].key != k
  {
    if q == [] then None
    else if q[0].key == k then Some(q[0].value)
    else
      var r := Get(q[1..], k);
      if r.Some? then
        var i :| && 0 <= i < |q[1..]| && q[1..][i].key == k && r.value == q[1..][i].value
                 && forall j :: 0 <= j < i ==> q[1..][j].key != k;
        assert q[i + 1] == q[1..][i];
        assert forall j :: 1 <= j < i + 1 ==> q[j] == q[1..][j - 1];
        r
      else r
  }

  /** `params.delete(k)`: every pair with key `k` is removed. */
  function Delete(q: Query, k: string): (r: Query)
    ensures forall p :: p in r <==> p in q && p.key != k
  {
    if q == [] then []
    else (if q[0].key == k then [] else [q[0]]) + Delete(q[1..], k)
  }

  /** `params.set(k, v)`: the first pair with key `k` takes the value `v` and
      the later pairs with that key are removed; with no such pair, `(k, v)`
      is appended at the end. */
  function Set(q: Query, k: string, v: string): Query {
    if q == [] then [Param(k, v)]
    else if q[0].key == k then [Param(k, v)] + Delete(q[1..], k)
    else [q[0]] + Set(q[1..], k, v)
  }

  /** The pairs whose keys are not in `ks`, in their original order. */
  function Others(q: Query, ks: set<string>): Query {
    if q == [] then []
    else (if q[0].key in ks then [] else [q[0]]) + Others(q[1..], ks)
  }

  /** The pairs whose key is `k`, in their original order. */
  function Only(q: Query, k: string): Query {
    if q == [] then []
    else (if q[0].key == k then [q[0]] else []) + Only(q[1..], k)
  }

  lemma {:induction false} OthersAppend(a: Query, b: Query, ks: set<string>)
    ensures Others(a + b, ks) == Others(a, ks) + Others(b, ks)
  {
    if a != [] {
      assert (a + b)[1..] == a[1..] + b;
      OthersAppend(a[1..], b, ks);
    } else {
      assert a + b == b;
    }
  }

  lemma {:induction false} OnlyAppend(a: Query, b: Query, k: string)
    ensures Only(a + b, k) == Only(a, k) + Only(b, k)
  {
    if a != [] {
      assert (a + b)[1..] == a[1..] + b;
      OnlyAppend(a[1..], b, k);
    } else {
      assert a + b == b;
    }
  }

  /** `delete(k)` leaves no pair with key `k`. */
  lemma {:induction false} DeleteRemovesKey(q: Query, k: string)
    ensures Only(Delete(q, k), k) == []
    ensures Get(Delete(q, k), k) == None
  {
    if q != [] {
      DeleteRemovesKey(q[1..], k);
      OnlyAppend(if q[0].key == k then [] else [q[0]], Delete(q[1..], k), k);
    }
  }

  /** `delete(k)` is the order-keeping filter that drops the one key `k`. */
  lemma {:induction false} DeleteIsOthers(q: Query, k: string)
    ensures Delete(q, k) == Others(q, {k})
  {
    if q != [] {
      DeleteIsOthers(q[1..], k);
    }
  }

  /** `delete(k)` keeps every pair under any other key, in order. */
  lemma {:induction false} DeleteKeepsOthers(q: Query, k: string, ks: set<string>)
    requires k in ks
    ensures Others(Delete(q, k), ks) == Others(q, ks)
  {
    if q != [] {
      DeleteKeepsOthers(q[1..], k, ks);
      OthersAppend(if q[0].key == k then [] else [q[0]], Delete(q[1..], k), ks);
    }
  }

  /** Deleting one key does not touch the pairs under another. */
  lemma {:induction false} OnlyOfDeleteOther(q: Query, k: string, k': string)
    requires k != k'
    ensures Only(Delete(q, k), k') == Only(q, k')
  {
    if q != [] {
      OnlyOfDeleteOther(q[1..], k, k');
      OnlyAppend(if q[0].key == k then [] else [q[0]], Delete(q[1..], k), k');
    }
  }

  /** After `set(k, v)` there is exactly one pair with key `k`, and it holds `v`. */
  lemma {:induction false} SetLeavesOnePair(q: Query, k: string, v: string)
    ensures Only(Set(q, k, v), k) == [Param(k, v)]
    ensures Get(Set(q, k, v), k) == Some(v)
  {
    if q == [] {
    } else if q[0].key == k {
      DeleteRemovesKey(q[1..], k);
      OnlyAppend([Param(k, v)], Delete(q[1..], k), k);
    } else {
      SetLeavesOnePair(q[1..], k, v);
      OnlyAppend([q[0]], Set(q[1..], k, v), k);
    }
  }

  /** `set(k, v)` keeps every pair under any other key, in order. */
  lemma {:induction false} SetKeepsOthers(q: Query, k: string, v: string, ks: set<string>)
    requires k in ks
    ensures Others(Set(q, k, v), ks) == Others(q, ks)
  {
    if q == [] {
    } else if q[0].key == k {
      DeleteKeepsOthers(q[1..], k, ks);
      OthersAppend([Param(k, v)], Delete(q[1..], k), ks);
    } else {
      SetKeepsOthers(q[1..], k, v, ks);
      OthersAppend([q[0]], Set(q[1..], k, v), ks);
    }
  }

  /** Reading a key outside `ks` sees the same value whether or not the pairs
      under the keys in `ks` are there. */
  lemma {:induction false} GetOthers(q: Query, ks: set<string>, k: string)
    requires k !in ks
    ensures Get(Others(q, ks), k) == Get(q, k)
  {
    if q != [] {
      GetOthers(q[1..], ks, k);
      var rest := Others(q[1..], ks);
      if q[0].key !in ks {
        assert Others(q, ks) == [q[0]] + rest;
        assert ([q[0]] + rest)[1..] == rest;
      } else {
        assert Others(q, ks) == [] + rest == rest;
      }
    }
  }
}
