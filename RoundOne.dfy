/** The response pools of Round One: how they are built from the intro
    questions and how a draw removes one response from a pool. */
module RoundOne {
  import opened Content

  /** The pool after the response at `k` was spliced out: exactly that element
      goes, the others keep their relative order. */
  function RemoveAt<T>(s: seq<T>, k: nat): (r: seq<T>)
    requires k < |s|
    ensures |r| == |s| - 1
    ensures forall i :: 0 <= i < k ==> r[i] == s[i]
    ensures forall i :: k <= i < |r| ==> r[i] == s[i + 1]
    ensures multiset(r) + multiset{s[k]} == multiset(s)
  {
    assert s == s[..k] + [s[k]] + s[k + 1..];
    s[..k] + s[k + 1..]
  }

  /** The pool map that filling an empty map with one fresh copy of each
      question's responses, in question order, produces. */
  function PoolsOf(qs: seq<Question>): (m: map<Id, seq<Response>>)
  {
    if qs == [] then map[]
    else PoolsOf(qs[..|qs| - 1])[qs[|qs| - 1].id := qs[|qs| - 1].responses]
  }

  /** Every pool is the response list of a question with that id. */
  lemma {:induction false} PoolsOfSource(qs: seq<Question>)
    ensures forall id :: id in PoolsOf(qs) ==>
              exists i :: 0 <= i < |qs| && qs[i].id == id && PoolsOf(qs)[id] == qs[i].responses
  {
    if qs != [] {
      var n := |qs| - 1;
      PoolsOfSource(qs[..n]);
      forall id | id in PoolsOf(qs)
        ensures exists i :: 0 <= i < |qs| && qs[i].id == id && PoolsOf(qs)[id] == qs[i].responses
      {
        if id == qs[n].id {
          assert qs[n].id == id && PoolsOf(qs)[id] == qs[n].responses;
        } else {
          assert id in PoolsOf(qs[..n]) && PoolsOf(qs)[id] == PoolsOf(qs[..n])[id];
          var i :| 0 <= i < n && qs[..n][i].id == id && PoolsOf(qs[..n])[id] == qs[..n][i].responses;
          assert qs[i] == qs[..n][i];
        }
      }
    }
  }

  /** There is one pool per question id, and no other. */
  lemma {:induction false} PoolsOfKeys(qs: seq<Question>)
    ensures PoolsOf(qs).Keys == set q | q in qs :: q.id
  {
    if qs != [] {
      var init, last := qs[..|qs| - 1], qs[|qs| - 1];
      PoolsOfKeys(init);
      assert forall q :: q in qs <==> q in init || q == last;
    }
  }

  /** A question's entry holds its own responses unless a later question has
      the same id (the later assignment overwrites the earlier one). */
  lemma {:induction false} PoolsOfEntry(qs: seq<Question>, i: nat)
    requires i < |qs|
    requires forall j :: i < j < |qs| ==> qs[j].id != qs[i].id
    ensures qs[i].id in PoolsOf(qs) && PoolsOf(qs)[qs[i].id] == qs[i].responses
  {
    var n := |qs| - 1;
    if i < n {
      PoolsOfEntry(qs[..n], i);
      assert qs[n].id != qs[i].id;
    }
  }

  /** With distinct question ids, every question's pool is a copy of its own responses. */
  lemma PoolsOfDistinct(qs: seq<Question>, i: nat)
    requires forall a, b :: 0 <= a < b < |qs| ==> qs[a].id != qs[b].id
    requires i < |qs|
    ensures qs[i].id in PoolsOf(qs) && PoolsOf(qs)[qs[i].id] == qs[i].responses
  {
    PoolsOfEntry(qs, i);
  }

  predicate Distinct<T(==)>(s: seq<T>) {
    forall i, j :: 0 <= i < j < |s| ==> s[i] != s[j]
  }

  /** An element of a sequence without duplicates occurs in it at most once. */
  lemma {:induction false} DistinctOnce<T>(s: seq<T>, x: T)
    requires Distinct(s)
    ensures multiset(s)[x] <= 1
  {
    if s != [] {
      assert s == [s[0]] + s[1..];
      assert Distinct(s[1..]) by {
        forall i, j | 0 <= i < j < |s[1..]| ensures s[1..][i] != s[1..][j] {
          assert s[1..][i] == s[i + 1] && s[1..][j] == s[j + 1];
        }
      }
      DistinctOnce(s[1..], x);
      if s[0] == x {
        assert x !in s[1..] by {
          forall i | 0 <= i < |s[1..]| ensures s[1..][i] != x {
            assert s[1..][i] == s[i + 1];
          }
        }
      }
    }
  }

  /** Sampling without replacement: when a pool of distinct responses has been
      split into what remains and what was drawn, nothing drawn is offered again. */
  lemma DrawnNeverOffered<T>(initial: seq<T>, pool: seq<T>, drawn: seq<T>, x: T)
    requires multiset(pool) + multiset(drawn) == multiset(initial)
    requires Distinct(initial)
    requires x in drawn
    ensures x !in pool
  {
    DistinctOnce(initial, x);
    assert multiset(drawn)[x] >= 1;
    assert multiset(pool)[x] == 0;
  }

  /** Sampling without replacement: for every question, what is left in its
      pool plus what was drawn from it is its full pool. */
  ghost predicate WithoutReplacement<K, T>(pools: map<K, seq<T>>, drawn: map<K, seq<T>>, initial: map<K, seq<T>>) {
    forall q :: q in pools ==>
      q in drawn && q in initial && multiset(pools[q]) + multiset(drawn[q]) == multiset(initial[q])
  }

  /** Moving the element at `k` of one pool to that pool's drawn list keeps the split. */
  lemma DrawStep<K, T>(pools: map<K, seq<T>>, drawn: map<K, seq<T>>, initial: map<K, seq<T>>, q: K, k: nat)
    requires WithoutReplacement(pools, drawn, initial)
    requires q in pools && k < |pools[q]|
    ensures WithoutReplacement(pools[q := RemoveAt(pools[q], k)], drawn[q := drawn[q] + [pools[q][k]]], initial)
  {
    var x := pools[q][k];
    assert multiset(RemoveAt(pools[q], k)) + multiset(drawn[q] + [x]) == multiset(pools[q]) + multiset(drawn[q]);
  }

  /** The drawn lists of freshly filled pools: empty for every question. */
  function NothingDrawn<K, T>(pools: map<K, seq<T>>): map<K, seq<T>> {
    map q | q in pools :: []
  }

  /** Freshly filled pools with nothing drawn yet. */
  lemma FreshPools<K, T>(pools: map<K, seq<T>>)
    ensures WithoutReplacement(pools, NothingDrawn(pools), pools)
  {
  }
}
