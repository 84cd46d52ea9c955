/**
 * What the services rely on from SQL: row identifiers, `ORDER BY created_at DESC`
 * and the choice of one row among several matches.
 */
module Tables {

  /** A row identifier. The database issues them; the model only needs them distinct. */
  type Id = nat

  /** `k` is the newest key of `ks` by `stamp`, ties going to the larger key. */
  predicate IsNewest(stamp: map<Id, nat>, ks: set<Id>, k: Id)
    requires ks <= stamp.Keys
  {
    k in ks && forall j :: j in ks ==> stamp[j] < stamp[k] || (stamp[j] == stamp[k] && j <= k)
  }

  /** The rows of `m` under the keys `ids`, in that order. */
  function Rows<V>(m: map<Id, V>, ids: seq<Id>): (r: seq<V>)
    requires forall i :: 0 <= i < |ids| ==> ids[i] in m
    ensures |r| == |ids|
    ensures forall i :: 0 <= i < |ids| ==> r[i] == m[ids[i]]
  {
    seq(|ids|, i requires 0 <= i < |ids| => m[ids[i]])
  }

  lemma {:induction false} NewestExists(stamp: map<Id, nat>, ks: set<Id>)
    requires ks != {} && ks <= stamp.Keys
    ensures exists k :: IsNewest(stamp, ks, k)
    decreases ks
  {
    var x :| x in ks;
    if ks == {x} {
      assert IsNewest(stamp, ks, x);
    } else {
      NewestExists(stamp, ks - {x});
      var k :| IsNewest(stamp, ks - {x}, k);
      if stamp[x] < stamp[k] || (stamp[x] == stamp[k] && x <= k) {
        assert IsNewest(stamp, ks, k);
      } else {
        assert IsNewest(stamp, ks, x);
      }
    }
  }

  /**
   * The keys `ks` as `ORDER BY created_at DESC` returns them: each key exactly once,
   * and no key before a newer one.
   */
  function NewestFirst(stamp: map<Id, nat>, ks: set<Id>): (r: seq<Id>)
    requires ks <= stamp.Keys
    ensures |r| == |ks|
    ensures forall i :: 0 <= i < |r| ==> r[i] in ks
    ensures forall k :: k in ks ==> k in r
    ensures forall i, j :: 0 <= i < j < |r| ==> r[i] != r[j]
    ensures forall i, j :: 0 <= i < j < |r| ==> stamp[r[i]] >= stamp[r[j]]
    decreases ks
  {
    if ks == {} then []
    else
      NewestExists(stamp, ks);
      var k :| IsNewest(stamp, ks, k);
      var rest := NewestFirst(stamp, ks - {k});
      PrependNewest(stamp, ks, k, rest);
      [k] + rest
  }

  /** Putting the newest key in front of an ordering of the others orders all of them. */
  lemma PrependNewest(stamp: map<Id, nat>, ks: set<Id>, k: Id, rest: seq<Id>)
    requires ks <= stamp.Keys && IsNewest(stamp, ks, k)
    requires |rest| == |ks - {k}|
    requires forall i :: 0 <= i < |rest| ==> rest[i] in ks - {k}
    requires forall j :: j in ks - {k} ==> j in rest
    requires forall i, j :: 0 <= i < j < |rest| ==> rest[i] != rest[j]
    requires forall i, j :: 0 <= i < j < |rest| ==> stamp[rest[i]] >= stamp[rest[j]]
    ensures var r := [k] + rest;
      && |r| == |ks|
      && (forall i :: 0 <= i < |r| ==> r[i] in ks)
      && (forall j :: j in ks ==> j in r)
      && (forall i, j :: 0 <= i < j < |r| ==> r[i] != r[j])
      && (forall i, j :: 0 <= i < j < |r| ==> stamp[r[i]] >= stamp[r[j]])
  {
    var r := [k] + rest;
    assert forall i :: 1 <= i < |r| ==> r[i] == rest[i - 1];
    forall j | j in ks ensures j in r {
      if j != k { assert j in ks - {k}; }
    }
  }

  /** `k` is the smallest key of `ks`. */
  predicate IsLeast(ks: set<Id>, k: Id) {
    k in ks && forall j :: j in ks ==> k <= j
  }

  lemma {:induction false} LeastExists(ks: set<Id>)
    requires ks != {}
    ensures exists k :: IsLeast(ks, k)
    decreases ks
  {
    var x :| x in ks;
    if ks == {x} {
      assert IsLeast(ks, x);
    } else {
      LeastExists(ks - {x});
      var k :| IsLeast(ks - {x}, k);
      var m := if x < k then x else k;
      forall j | j in ks ensures m <= j {
        if j != x { assert j in ks - {x}; }
      }
      assert IsLeast(ks, m);
    }
  }

  /**
   * The row `rows[0]` of a query with no ORDER BY: some member of `ks`. SQL leaves the choice
   * open; the model takes the smallest key.
   */
  function First(ks: set<Id>): (k: Id)
    requires ks != {}
    ensures k in ks
  {
    LeastExists(ks);
    var k :| IsLeast(ks, k);
    k
  }
}
