/**
  The key-value store under the facade, as an immediately consistent
  in-memory table: point and batch lookups, filtered scans capped at a
  limit, batch upserts and batch deletes. The order in which a scan visits
  keys is the store's choice and is passed in as `order`.
 */
module Store {
  import opened Wrappers
  import opened Entities

  /** The store's contents: at most one record per key. */
  type Table = map<Key, Record>

  /** A native filter: an equality test on one property, or the AND of several filters. */
  datatype Filter = PropertyEq(name: string, value: Value) | AllOf(parts: seq<Filter>)

  predicate Matches(f: Filter, rec: Record)
    decreases f
  {
    match f
    case PropertyEq(name, value) => name in rec && rec[name] == value
    case AllOf(parts) => forall g | g in parts :: Matches(g, rec)
  }

  /** No filter admits every record. */
  predicate Admits(filter: Option<Filter>, rec: Record) {
    filter.None? || Matches(filter.value, rec)
  }

  predicate Distinct<T(==)>(s: seq<T>) {
    forall i, j :: 0 <= i < j < |s| ==> s[i] != s[j]
  }

  /** A possible scan order of the store: every stored key, each once. */
  predicate ScanOrder(order: seq<Key>, t: Table) {
    Distinct(order) && forall k :: k in t ==> k in order
  }

  /** A stored key of the given kind whose record the filter admits. */
  predicate Selected(t: Table, kind: string, filter: Option<Filter>, k: Key) {
    k in t && k.kind == kind && Admits(filter, t[k])
  }

  /** The stored keys of the given kind whose records the filter admits: what a scan of the whole store finds. */
  function SelectedKeys(t: Table, kind: string, filter: Option<Filter>): set<Key> {
    set k | k in t && Selected(t, kind, filter, k)
  }

  /** The entities of `kind` the filter admits, in scan order. */
  function Scan(t: Table, order: seq<Key>, kind: string, filter: Option<Filter>): (r: seq<Entity>)
    ensures forall i :: 0 <= i < |r| ==>
      Selected(t, kind, filter, r[i].key) && r[i].properties == t[r[i].key] && r[i].key in order
    ensures forall k :: k in order && Selected(t, kind, filter, k) ==> Entity(k, t[k]) in r
    ensures Distinct(order) ==> forall i, j :: 0 <= i < j < |r| ==> r[i].key != r[j].key
    ensures r == [] <==> forall i :: 0 <= i < |order| ==> !Selected(t, kind, filter, order[i])
  {
    if order == [] then []
    else
      var rest := Scan(t, order[1..], kind, filter);
      var k := order[0];
      assert Distinct(order) ==> Distinct(order[1..]) && k !in order[1..] by {
        if Distinct(order) {
          forall m | 0 <= m < |order[1..]|
            ensures order[1..][m] != k
          {
            assert order[1..][m] == order[m + 1];
          }
        }
      }
      if Selected(t, kind, filter, k) then [Entity(k, t[k])] + rest else rest
  }

  /** The smaller of two counts. */
  function Min(a: nat, b: nat): nat {
    if a < b then a else b
  }

  /** The first `n` elements of `s`, or all of them when there are fewer. */
  function Take<T>(s: seq<T>, n: nat): (r: seq<T>)
    ensures |r| <= n && r <= s
    ensures |r| == n || r == s
  {
    if |s| <= n then s else s[..n]
  }

  /**
    A filtered query over one kind, capped at `limit` results: the first
    `limit` matching entities in the store's order, each stored key at most
    once; below the limit, every matching entity.
   */
  function Query(t: Table, order: seq<Key>, kind: string, filter: Option<Filter>, limit: nat): (r: seq<Entity>)
    requires ScanOrder(order, t)
    ensures r <= Scan(t, order, kind, filter)
    ensures |r| == Min(limit, |SelectedKeys(t, kind, filter)|)
    ensures forall i :: 0 <= i < |r| ==> Selected(t, kind, filter, r[i].key) && r[i].properties == t[r[i].key]
    ensures forall i, j :: 0 <= i < j < |r| ==> r[i].key != r[j].key
    ensures |r| < limit ==> forall k :: Selected(t, kind, filter, k) ==> Entity(k, t[k]) in r
    ensures r == [] <==> limit == 0 || forall k :: k in t ==> !Selected(t, kind, filter, k)
  {
    ScanCount(t, order, kind, filter);
    Take(Scan(t, order, kind, filter), limit)
  }

  /** Point lookup: the entity stored at `k`, if any. */
  function Lookup(t: Table, k: Key): (r: Option<Entity>)
    ensures r.None? <==> k !in t
    ensures r.Some? ==> r.value.key == k && r.value.properties == t[k]
  {
    if k in t then Some(Entity(k, t[k])) else None
  }

  /** The positions in `keys` of the keys that are stored. */
  function StoredPositions(t: Table, keys: seq<Key>): set<nat> {
    set j: nat | j < |keys| && keys[j] in t
  }

  /**
    Batch lookup: the stored entities for `keys`, one per stored position;
    missing keys are simply left out. They are listed here in the order of
    the keys; the store answers them in an order it chooses, which
    `Arrange` applies.
   */
  function LookupAll(t: Table, keys: seq<Key>): (r: seq<Entity>)
    ensures |r| <= |keys|
    ensures forall i :: 0 <= i < |r| ==> r[i].key in keys && r[i].key in t && r[i].properties == t[r[i].key]
  {
    if keys == [] then []
    else
      var init, last := keys[..|keys| - 1], keys[|keys| - 1];
      var r0 := LookupAll(t, init);
      assert forall k :: k in init ==> k in keys;
      if last in t then r0 + [Entity(last, t[last])] else r0
  }

  /**
    An order the store may answer `n` results in: at each step, which of
    the results not yet answered comes next, counted among those left.
    Every reordering of the results has such a description (`ArrangeReaches`).
   */
  predicate AnswerOrder(answer: seq<nat>, n: nat) {
    |answer| == n && forall i :: 0 <= i < n ==> answer[i] < n - i
  }

  /** The elements of `s` in the answer order `answer`. */
  function Arrange<T>(s: seq<T>, answer: seq<nat>): (r: seq<T>)
    requires AnswerOrder(answer, |s|)
    ensures |r| == |s|
    decreases |s|
  {
    if s == [] then []
    else
      var p := answer[0];
      AnswerOrderTail(answer, |s|);
      [s[p]] + Arrange(s[..p] + s[p + 1..], answer[1..])
  }

  lemma AnswerOrderTail(answer: seq<nat>, n: nat)
    requires AnswerOrder(answer, n) && n > 0
    ensures AnswerOrder(answer[1..], n - 1)
  {
    forall i | 0 <= i < n - 1
      ensures answer[1..][i] < n - 1 - i
    {
      assert answer[1..][i] == answer[i + 1];
    }
  }

  function KeySet(es: seq<Entity>): set<Key> {
    set i | 0 <= i < |es| :: es[i].key
  }

  /** The record of the last entity in `es` keyed `k`. */
  function LastFor(es: seq<Entity>, k: Key): (r: Option<Record>)
    ensures r.Some? <==> k in KeySet(es)
    ensures r.Some? ==>
      exists i :: 0 <= i < |es| && es[i] == Entity(k, r.value) && forall j :: i < j < |es| ==> es[j].key != k
  {
    if es == [] then None
    else
      var last := es[|es| - 1];
      if last.key == k then Some(last.properties)
      else
        assert KeySet(es) == KeySet(es[..|es| - 1]) + {last.key};
        LastFor(es[..|es| - 1], k)
  }

  /**
    Batch upsert as one request: every key written by `es` holds the record
    of the last entity written to it; every other key is untouched.
   */
  function UpsertAll(t: Table, es: seq<Entity>): (r: Table)
    ensures r.Keys == t.Keys + KeySet(es)
  {
    map k | k in t.Keys + KeySet(es) :: if LastFor(es, k).Some? then LastFor(es, k).value else t[k]
  }

  /** Batch delete: every key in `keys` is gone; deleting a missing key changes nothing. */
  function DeleteAll(t: Table, keys: seq<Key>): (r: Table)
    ensures forall k :: k in r <==> k in t && k !in keys
    ensures forall k :: k in r ==> r[k] == t[k]
  {
    t - (set k | k in keys)
  }

  lemma KeySetSnoc(es: seq<Entity>, e: Entity)
    ensures KeySet(es + [e]) == KeySet(es) + {e.key}
  {
    var es' := es + [e];
    forall x | x in KeySet(es)
      ensures x in KeySet(es')
    {
      var i :| 0 <= i < |es| && es[i].key == x;
      assert es'[i].key == x;
    }
    assert es'[|es|].key == e.key;
  }

  /** Appending one entity to a batch upsert is the same as upserting it afterwards. */
  lemma UpsertAllSnoc(t: Table, es: seq<Entity>, e: Entity)
    ensures UpsertAll(t, es + [e]) == UpsertAll(t, es)[e.key := e.properties]
  {
    KeySetSnoc(es, e);
    var l, r := UpsertAll(t, es + [e]), UpsertAll(t, es)[e.key := e.properties];
    forall k | k in l
      ensures l[k] == r[k]
    {
      UpsertAllSnocAt(t, es, e, k);
    }
  }

  lemma UpsertAllSnocAt(t: Table, es: seq<Entity>, e: Entity, k: Key)
    requires k in t.Keys + KeySet(es) + {e.key}
    ensures KeySet(es + [e]) == KeySet(es) + {e.key}
    ensures UpsertAll(t, es + [e])[k] == UpsertAll(t, es)[e.key := e.properties][k]
  {
    KeySetSnoc(es, e);
    if k != e.key {
      LastForSnoc(es, e, k);
    }
  }

  lemma LastForSnoc(es: seq<Entity>, e: Entity, k: Key)
    requires k != e.key
    ensures LastFor(es + [e], k) == LastFor(es, k)
  {
    assert (es + [e])[..|es|] == es;
  }

  lemma UpsertAllEmpty(t: Table)
    ensures UpsertAll(t, []) == t
  {
    assert KeySet([]) == {};
  }

  /** Two filters that admit the same records give the same scan. */
  lemma {:induction false} ScanSameFilter(t: Table, order: seq<Key>, kind: string, f: Option<Filter>, g: Option<Filter>)
    requires forall rec :: Admits(f, rec) == Admits(g, rec)
    ensures Scan(t, order, kind, f) == Scan(t, order, kind, g)
    decreases |order|
  {
    if order != [] {
      ScanSameFilter(t, order[1..], kind, f, g);
    }
  }

  lemma StoredPositionsSnoc(t: Table, keys: seq<Key>)
    requires keys != []
    ensures |StoredPositions(t, keys)| ==
      |StoredPositions(t, keys[..|keys| - 1])| + if keys[|keys| - 1] in t then 1 else 0
  {
    var init, last := keys[..|keys| - 1], keys[|keys| - 1];
    var extra: set<nat> := if last in t then {|keys| - 1} else {};
    assert StoredPositions(t, keys) == StoredPositions(t, init) + extra;
  }

  lemma DistinctSnoc(keys: seq<Key>)
    requires keys != []
    ensures Distinct(keys) ==> Distinct(keys[..|keys| - 1]) && keys[|keys| - 1] !in keys[..|keys| - 1]
  {
    var init := keys[..|keys| - 1];
    if Distinct(keys) {
      forall m | 0 <= m < |init|
        ensures init[m] != keys[|keys| - 1]
      {
        assert init[m] == keys[m];
      }
    }
  }

  /** A batch lookup returns every requested key that is stored. */
  lemma {:induction false} LookupAllComplete(t: Table, keys: seq<Key>)
    ensures forall k :: k in keys && k in t ==> Entity(k, t[k]) in LookupAll(t, keys)
  {
    if keys != [] {
      var init, last := keys[..|keys| - 1], keys[|keys| - 1];
      LookupAllComplete(t, init);
      assert forall k :: k in keys ==> k in init || k == last;
    }
  }

  /** When every requested key is stored, a batch lookup answers one entity per key, in the order of the keys. */
  lemma {:induction false} LookupAllStored(t: Table, keys: seq<Key>)
    requires forall j :: 0 <= j < |keys| ==> keys[j] in t
    ensures |LookupAll(t, keys)| == |keys|
    ensures forall j :: 0 <= j < |keys| ==> LookupAll(t, keys)[j] == Entity(keys[j], t[keys[j]])
  {
    if keys != [] {
      var init, last := keys[..|keys| - 1], keys[|keys| - 1];
      assert forall j :: 0 <= j < |init| ==> init[j] == keys[j];
      LookupAllStored(t, init);
      var r0, r := LookupAll(t, init), LookupAll(t, keys);
      assert r == r0 + [Entity(last, t[last])];
      forall j | 0 <= j < |keys|
        ensures r[j] == Entity(keys[j], t[keys[j]])
      {
        if j < |init| {
          assert r[j] == r0[j];
        }
      }
    }
  }

  /** A batch lookup answers one entity per stored position of the keys. */
  lemma {:induction false} LookupAllCount(t: Table, keys: seq<Key>)
    ensures |LookupAll(t, keys)| == |StoredPositions(t, keys)|
  {
    if keys == [] {
      assert StoredPositions(t, keys) == {};
    } else {
      LookupAllCount(t, keys[..|keys| - 1]);
      StoredPositionsSnoc(t, keys);
    }
  }

  /** Looking up pairwise different keys returns each stored key once. */
  lemma {:induction false} LookupAllDistinct(t: Table, keys: seq<Key>)
    requires Distinct(keys)
    ensures forall i, j :: 0 <= i < j < |LookupAll(t, keys)| ==> LookupAll(t, keys)[i].key != LookupAll(t, keys)[j].key
  {
    if keys != [] {
      var init, last := keys[..|keys| - 1], keys[|keys| - 1];
      DistinctSnoc(keys);
      LookupAllDistinct(t, init);
    }
  }

  /** An answer order only reorders: the same elements, each as often. */
  lemma {:induction false} ArrangePermutes<T>(s: seq<T>, answer: seq<nat>)
    requires AnswerOrder(answer, |s|)
    ensures multiset(Arrange(s, answer)) == multiset(s)
    decreases |s|
  {
    if s != [] {
      var p := answer[0];
      var rest := s[..p] + s[p + 1..];
      AnswerOrderTail(answer, |s|);
      ArrangePermutes(rest, answer[1..]);
      assert Arrange(s, answer) == [s[p]] + Arrange(rest, answer[1..]);
      assert s == s[..p] + [s[p]] + s[p + 1..];
    }
  }

  /** An answer order holds exactly the elements it reorders. */
  lemma ArrangeMembers<T>(s: seq<T>, answer: seq<nat>)
    requires AnswerOrder(answer, |s|)
    ensures forall x :: x in Arrange(s, answer) <==> x in s
  {
    ArrangePermutes(s, answer);
    forall x
      ensures x in Arrange(s, answer) <==> x in s
    {
      assert x in Arrange(s, answer) <==> x in multiset(Arrange(s, answer));
      assert x in s <==> x in multiset(s);
    }
  }

  /** Every reordering of `s` is the answer of some answer order. */
  lemma {:induction false} ArrangeReaches<T>(s: seq<T>, r: seq<T>) returns (answer: seq<nat>)
    requires multiset(r) == multiset(s)
    ensures AnswerOrder(answer, |s|) && Arrange(s, answer) == r
    decreases |s|, 1
  {
    assert |r| == |s| by {
      assert |multiset(r)| == |r| && |multiset(s)| == |s|;
    }
    if s == [] {
      answer := [];
    } else {
      assert r[0] in s by {
        assert r[0] in multiset(r);
      }
      var p :| 0 <= p < |s| && s[p] == r[0];
      SameAfterRemoving(s, r, p);
      answer := ReachesFrom(s, r, p);
    }
  }

  /** `r` is reached by answering result `p` of `s` first, then the rest as `r` goes on. */
  lemma {:induction false} ReachesFrom<T>(s: seq<T>, r: seq<T>, p: nat) returns (answer: seq<nat>)
    requires p < |s| && r != [] && s[p] == r[0]
    requires multiset(r[1..]) == multiset(s[..p] + s[p + 1..])
    ensures AnswerOrder(answer, |s|) && Arrange(s, answer) == r
    decreases |s|, 0
  {
    var tail := ArrangeReaches(s[..p] + s[p + 1..], r[1..]);
    ReachedBy(s, r, p, tail);
    answer := [p] + tail;
  }

  lemma ReachedBy<T>(s: seq<T>, r: seq<T>, p: nat, tail: seq<nat>)
    requires p < |s| && r != [] && s[p] == r[0] && AnswerOrder(tail, |s| - 1)
    requires Arrange(s[..p] + s[p + 1..], tail) == r[1..]
    ensures AnswerOrder([p] + tail, |s|) && Arrange(s, [p] + tail) == r
  {
    ArrangeCons(s, p, tail);
    assert r == [r[0]] + r[1..];
  }

  /** Answering result `p` first, then the rest in the answer order `tail`. */
  lemma ArrangeCons<T>(s: seq<T>, p: nat, tail: seq<nat>)
    requires p < |s| && AnswerOrder(tail, |s| - 1)
    ensures AnswerOrder([p] + tail, |s|)
    ensures Arrange(s, [p] + tail) == [s[p]] + Arrange(s[..p] + s[p + 1..], tail)
  {
    var answer := [p] + tail;
    forall i | 0 <= i < |s|
      ensures answer[i] < |s| - i
    {
      if i > 0 {
        assert answer[i] == tail[i - 1];
      }
    }
    assert answer[0] == p && answer[1..] == tail;
  }

  lemma SameAfterRemoving<T>(s: seq<T>, r: seq<T>, p: nat)
    requires multiset(r) == multiset(s) && p < |s| && r != [] && s[p] == r[0]
    ensures multiset(r[1..]) == multiset(s[..p] + s[p + 1..])
  {
    RemoveAt(s, p);
    RemoveFirst(r);
  }

  lemma RemoveFirst<T>(r: seq<T>)
    requires r != []
    ensures multiset(r[1..]) == multiset(r) - multiset{r[0]}
  {
    assert r == [r[0]] + r[1..];
  }

  lemma RemoveAt<T>(s: seq<T>, p: nat)
    requires p < |s|
    ensures multiset(s[..p] + s[p + 1..]) == multiset(s) - multiset{s[p]}
  {
    assert s == s[..p] + [s[p]] + s[p + 1..];
    assert multiset(s) == multiset(s[..p] + s[p + 1..]) + multiset{s[p]};
  }

  /** Answering always the first result left keeps the results in their order. */
  lemma {:induction false} ArrangeInOrder<T>(s: seq<T>, answer: seq<nat>)
    requires AnswerOrder(answer, |s|)
    ensures (forall i :: 0 <= i < |answer| ==> answer[i] == 0) ==> Arrange(s, answer) == s
    decreases |s|
  {
    if s != [] && forall i :: 0 <= i < |answer| ==> answer[i] == 0 {
      AnswerOrderTail(answer, |s|);
      assert s[..0] + s[1..] == s[1..];
      assert forall i :: 0 <= i < |answer[1..]| ==> answer[1..][i] == answer[i + 1];
      ArrangeInOrder(s[1..], answer[1..]);
    }
  }

  /** Rearranging results that are pairwise different keeps them pairwise different. */
  lemma {:induction false} ArrangeDistinct<T>(s: seq<T>, answer: seq<nat>)
    requires AnswerOrder(answer, |s|)
    ensures Distinct(s) ==> Distinct(Arrange(s, answer))
    decreases |s|
  {
    if s != [] && Distinct(s) {
      var p := answer[0];
      var rest := s[..p] + s[p + 1..];
      AnswerOrderTail(answer, |s|);
      assert Distinct(rest) by {
        forall i, j | 0 <= i < j < |rest|
          ensures rest[i] != rest[j]
        {
          assert rest[i] == if i < p then s[i] else s[i + 1];
          assert rest[j] == if j < p then s[j] else s[j + 1];
        }
      }
      assert s[p] !in rest by {
        forall i | 0 <= i < |rest|
          ensures rest[i] != s[p]
        {
          assert rest[i] == if i < p then s[i] else s[i + 1];
        }
      }
      ArrangeDistinct(rest, answer[1..]);
      ArrangePermutes(rest, answer[1..]);
      var r := Arrange(rest, answer[1..]);
      assert s[p] !in multiset(r);
      assert Arrange(s, answer) == [s[p]] + r;
    }
  }

  /** A sequence of entities with pairwise different keys has as many keys as entities. */
  lemma {:induction false} DistinctKeysCount(es: seq<Entity>)
    requires forall i, j :: 0 <= i < j < |es| ==> es[i].key != es[j].key
    ensures |KeySet(es)| == |es|
  {
    if es != [] {
      var init, last := es[..|es| - 1], es[|es| - 1];
      assert es == init + [last];
      KeySetSnoc(init, last);
      DistinctKeysCount(init);
      assert last.key !in KeySet(init) by {
        forall m | 0 <= m < |init|
          ensures init[m].key != last.key
        {
          assert init[m] == es[m];
        }
      }
    }
  }

  /** A scan in a scan order of the store finds each selected key exactly once. */
  lemma ScanCount(t: Table, order: seq<Key>, kind: string, filter: Option<Filter>)
    requires ScanOrder(order, t)
    ensures |Scan(t, order, kind, filter)| == |SelectedKeys(t, kind, filter)|
  {
    var r := Scan(t, order, kind, filter);
    DistinctKeysCount(r);
    forall k | k in SelectedKeys(t, kind, filter)
      ensures k in KeySet(r)
    {
      var i :| 0 <= i < |r| && r[i] == Entity(k, t[k]);
    }
    assert KeySet(r) == SelectedKeys(t, kind, filter);
  }

  /** A scan keeps the order it visits keys in: scanning `a` then `b` is scanning `a + b`. */
  lemma {:induction false} ScanConcat(t: Table, a: seq<Key>, b: seq<Key>, kind: string, filter: Option<Filter>)
    ensures Scan(t, a + b, kind, filter) == Scan(t, a, kind, filter) + Scan(t, b, kind, filter)
    decreases |a|
  {
    if a == [] {
      assert a + b == b;
    } else {
      assert (a + b)[0] == a[0] && (a + b)[1..] == a[1..] + b;
      ScanConcat(t, a[1..], b, kind, filter);
    }
  }

  /** Raising the limit only extends a query's result: a smaller limit gives a prefix of it. */
  lemma QueryPrefix(t: Table, order: seq<Key>, kind: string, filter: Option<Filter>, m: nat, n: nat)
    requires ScanOrder(order, t) && m <= n
    ensures Query(t, order, kind, filter, m) <= Query(t, order, kind, filter, n)
  {
  }
}
