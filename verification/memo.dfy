/** The two hit/miss rules of the request-scoped memo tables. A table maps a
    scope key (course and kind) to the rows one bulk query returned, by
    instance id. The store's answer for the key is passed in as `answer`; the
    `fetched` flag says whether the rule consulted the store. */
module Memo {
  import opened Base

  /** Outcome of one lookup: the instance's entry, the table afterwards, and
      whether the store was queried. */
  datatype Lookup<K, V> = Lookup(found: Option<V>, table: map<K, map<int, V>>, fetched: bool)

  /** Rule of get_submission_row and std_num_submissions: the store is queried
      the first time a key is seen and never again; an instance missing from a
      populated key is reported absent. */
  function FetchOnce<K, V>(t: map<K, map<int, V>>, key: K, id: int, answer: map<int, V>): (r: Lookup<K, V>)
    ensures r.fetched <==> key !in t
    ensures key in r.table && r.found == Get(r.table[key], id)
    ensures r.table == (if r.fetched then t[key := answer] else t)
  {
    if key in t then Lookup(Get(t[key], id), t, false)
    else Lookup(Get(answer, id), t[key := answer], true)
  }

  /** Rule of instance_activity_dates and grade_row: a cached entry is used only
      when the instance itself is present; otherwise the whole key is fetched
      again and overwritten. */
  function FetchUnlessPresent<K, V>(t: map<K, map<int, V>>, key: K, id: int, answer: map<int, V>): (r: Lookup<K, V>)
    ensures r.fetched <==> !(key in t && id in t[key])
    ensures key in r.table && r.found == Get(r.table[key], id)
    ensures r.table == (if r.fetched then t[key := answer] else t)
  {
    if key in t && id in t[key] then Lookup(Some(t[key][id]), t, false)
    else Lookup(Get(answer, id), t[key := answer], true)
  }

  /** Absence is not a miss: once a key is populated, FetchOnce answers every
      instance of it from the table, whatever the store would now say. */
  lemma FetchOnceIsStale<K, V>(t: map<K, map<int, V>>, key: K, id: int, answer1: map<int, V>, answer2: map<int, V>)
    requires key in t
    ensures FetchOnce(t, key, id, answer1) == FetchOnce(t, key, id, answer2)
    ensures !FetchOnce(t, key, id, answer1).fetched
    ensures id !in t[key] ==> FetchOnce(t, key, id, answer1).found == None
  {
  }

  /** A missing instance always costs FetchUnlessPresent a new query, even when
      the key was populated by an earlier one. */
  lemma RefetchOnMissingInstance<K, V>(t: map<K, map<int, V>>, key: K, id: int, answer: map<int, V>)
    requires key in t && id !in t[key]
    ensures FetchUnlessPresent(t, key, id, answer).fetched
    ensures FetchUnlessPresent(t, key, id, answer).table[key] == answer
  {
  }

  /** The keys a sequence of requests asks for. */
  function RequestKeys<K>(reqs: seq<(K, int)>): set<K>
  {
    set i | 0 <= i < |reqs| :: reqs[i].0
  }

  /** Threads a table through a sequence of FetchOnce lookups, answering each
      fetch from `store`; returns the final table and the keys fetched, in order. */
  function RunOnce<K, V>(t: map<K, map<int, V>>, reqs: seq<(K, int)>, store: K -> map<int, V>): (r: (map<K, map<int, V>>, seq<K>))
    decreases |reqs|
  {
    if |reqs| == 0 then (t, [])
    else
      var l := FetchOnce(t, reqs[0].0, reqs[0].1, store(reqs[0].0));
      var rest := RunOnce(l.table, reqs[1..], store);
      (rest.0, (if l.fetched then [reqs[0].0] else []) + rest.1)
  }

  /** The same, with the FetchUnlessPresent rule. */
  function RunUnlessPresent<K, V>(t: map<K, map<int, V>>, reqs: seq<(K, int)>, store: K -> map<int, V>): (r: (map<K, map<int, V>>, seq<K>))
    decreases |reqs|
  {
    if |reqs| == 0 then (t, [])
    else
      var l := FetchUnlessPresent(t, reqs[0].0, reqs[0].1, store(reqs[0].0));
      var rest := RunUnlessPresent(l.table, reqs[1..], store);
      (rest.0, (if l.fetched then [reqs[0].0] else []) + rest.1)
  }

  predicate Distinct<T(==)>(s: seq<T>)
  {
    forall i, j | 0 <= i < j < |s| :: s[i] != s[j]
  }

  /** Single-fetch property: over any sequence of requests, FetchOnce queries
      each key at most once, and queries exactly the requested keys that were
      not already populated. */
  lemma {:induction false} RunOnceFetchesEachKeyOnce<K, V>(t: map<K, map<int, V>>, reqs: seq<(K, int)>, store: K -> map<int, V>)
    ensures Distinct(RunOnce(t, reqs, store).1)
    ensures forall k :: k in RunOnce(t, reqs, store).1 <==> k in RequestKeys(reqs) && k !in t
    ensures RunOnce(t, reqs, store).0.Keys == t.Keys + RequestKeys(reqs)
    decreases |reqs|
  {
    if |reqs| == 0 {
      assert RequestKeys(reqs) == {};
    } else {
      var key := reqs[0].0;
      var l := FetchOnce(t, key, reqs[0].1, store(key));
      RunOnceFetchesEachKeyOnce(l.table, reqs[1..], store);
      var rest := RunOnce(l.table, reqs[1..], store);
      RequestKeysCons(reqs);
      assert l.table.Keys == t.Keys + {key};
      assert key !in rest.1;
    }
  }

  /** The keys of a non-empty request sequence: its first key and the rest's. */
  lemma RequestKeysCons<K>(reqs: seq<(K, int)>)
    requires |reqs| > 0
    ensures RequestKeys(reqs) == {reqs[0].0} + RequestKeys(reqs[1..])
  {
    forall k | k in RequestKeys(reqs) ensures k in {reqs[0].0} + RequestKeys(reqs[1..]) {
      var i :| 0 <= i < |reqs| && reqs[i].0 == k;
      if i > 0 { assert reqs[1..][i - 1].0 == k; }
    }
    forall k | k in RequestKeys(reqs[1..]) ensures k in RequestKeys(reqs) {
      var i :| 0 <= i < |reqs[1..]| && reqs[1..][i].0 == k;
      assert reqs[i + 1].0 == k;
    }
  }

  /** Hence the number of fetches is the number of requested keys that were
      not yet populated. */
  lemma {:induction false} RunOnceFetchCount<K, V>(t: map<K, map<int, V>>, reqs: seq<(K, int)>, store: K -> map<int, V>)
    ensures |RunOnce(t, reqs, store).1| == |RequestKeys(reqs) - t.Keys|
  {
    RunOnceFetchesEachKeyOnce(t, reqs, store);
    DistinctCardinality(RunOnce(t, reqs, store).1, RequestKeys(reqs) - t.Keys);
  }

  /** A duplicate-free sequence has as many elements as the set it enumerates. */
  lemma {:induction false} DistinctCardinality<T>(s: seq<T>, elems: set<T>)
    requires Distinct(s)
    requires forall x :: x in s <==> x in elems
    ensures |elems| == |s|
    decreases |s|
  {
    if |s| > 0 {
      var tail := elems - {s[0]};
      forall x ensures x in s[1..] <==> x in tail {
        if x in s[1..] {
          var i :| 0 <= i < |s[1..]| && s[1..][i] == x;
          assert s[i + 1] == x;
        }
      }
      DistinctCardinality(s[1..], tail);
    }
  }

  /** The re-fetch rule has no such bound: asking twice for an instance the
      store does not have queries the store twice for the same key. */
  lemma RunUnlessPresentRefetches<K, V>(t: map<K, map<int, V>>, key: K, id: int, store: K -> map<int, V>)
    requires key !in t || id !in t[key]
    requires id !in store(key)
    ensures RunUnlessPresent(t, [(key, id), (key, id)], store).1 == [key, key]
  {
    var reqs := [(key, id), (key, id)];
    var l := FetchUnlessPresent(t, key, id, store(key));
    assert l.fetched && l.table[key] == store(key);
    var l2 := FetchUnlessPresent(l.table, key, id, store(key));
    assert l2.fetched;
    assert reqs[1..] == [(key, id)];
    assert [(key, id)][1..] == [];
    assert RunUnlessPresent(l2.table, [], store).1 == [];
    assert RunUnlessPresent(l.table, [(key, id)], store).1 == [key];
  }
}
