/**
 * Database tables as maps from primary key to row.  A `SELECT ... WHERE`
 * yields the matching rows in ascending key order; an `ORDER BY` then sorts
 * them stably, so rows with equal sort keys stay in key order.
 */
module Tables {
  import opened Sorting

  predicate StrictlyAscending(s: seq<int>) {
    forall i, j :: 0 <= i < j < |s| ==> s[i] < s[j]
  }

  lemma HasMember(ks: set<int>)
    requires ks != {}
    ensures exists k :: k in ks
  {
    if forall k :: k !in ks {
      assert false;
    }
  }

  lemma {:induction false} LeastExists(ks: set<int>)
    requires ks != {}
    ensures exists m :: m in ks && forall k :: k in ks ==> m <= k
  {
    HasMember(ks);
    var x :| x in ks;
    var rest := ks - {x};
    if rest != {} {
      LeastExists(rest);
      var m :| m in rest && forall k :: k in rest ==> m <= k;
      var least := if x < m then x else m;
      forall k | k in ks ensures least <= k {
        if k != x { assert k in rest; }
      }
      assert least in ks;
    } else {
      forall k | k in ks ensures x <= k {
        assert k !in rest;
      }
    }
  }

  /** The smallest key of a non-empty key set. */
  function Least(ks: set<int>): (m: int)
    requires ks != {}
    ensures m in ks && forall k :: k in ks ==> m <= k
  {
    LeastExists(ks);
    var m :| m in ks && forall k :: k in ks ==> m <= k; m
  }

  /** The keys of `ks` in ascending order. */
  function Ascending(ks: set<int>): (r: seq<int>)
    ensures forall k :: k in r <==> k in ks
    ensures StrictlyAscending(r)
    decreases |ks|
  {
    if ks == {} then []
    else
      var m := Least(ks);
      var rest := Ascending(ks - {m});
      assert forall i :: 0 <= i < |rest| ==> m < rest[i] by {
        forall i | 0 <= i < |rest| ensures m < rest[i] {
          assert rest[i] in ks - {m};
        }
      }
      [m] + rest
  }

  /** The entries of `ks`, in order, whose rows in `m` satisfy `p`. */
  function KeepMatching<R>(ks: seq<int>, m: map<int, R>, p: R -> bool): (r: seq<int>)
    requires forall k :: k in ks ==> k in m
    requires StrictlyAscending(ks)
    ensures forall k :: k in r <==> k in ks && p(m[k])
    ensures StrictlyAscending(r)
  {
    if ks == [] then []
    else
      var rest := KeepMatching(ks[1..], m, p);
      assert forall i :: 0 <= i < |rest| ==> ks[0] < rest[i] by {
        forall i | 0 <= i < |rest| ensures ks[0] < rest[i] {
          assert rest[i] in rest;
          var j :| 0 <= j < |ks[1..]| && ks[1..][j] == rest[i];
          assert ks[j + 1] == rest[i];
        }
      }
      if p(m[ks[0]]) then [ks[0]] + rest else rest
  }

  /** The keys of the rows of `m` that satisfy `p`, in ascending order. */
  function MatchingKeys<R>(m: map<int, R>, p: R -> bool): (r: seq<int>)
    ensures forall k :: k in r <==> k in m && p(m[k])
    ensures StrictlyAscending(r)
  {
    KeepMatching(Ascending(m.Keys), m, p)
  }

  /** `SELECT * WHERE p`: the matching rows, each once, in ascending key order. */
  function Select<R>(m: map<int, R>, p: R -> bool): (r: seq<R>)
    ensures |r| == |MatchingKeys(m, p)|
    ensures forall i :: 0 <= i < |r| ==> r[i] == m[MatchingKeys(m, p)[i]]
  {
    var ks := MatchingKeys(m, p);
    seq(|ks|, i requires 0 <= i < |ks| => m[ks[i]])
  }

  /** A row is selected exactly when some key of the table holds it and it matches. */
  lemma SelectMembers<R>(m: map<int, R>, p: R -> bool, x: R)
    ensures x in Select(m, p) <==> exists k :: k in m && p(m[k]) && m[k] == x
  {
    var ks, r := MatchingKeys(m, p), Select(m, p);
    if x in r {
      var i :| 0 <= i < |r| && r[i] == x;
      assert ks[i] in ks;
    }
    if exists k :: k in m && p(m[k]) && m[k] == x {
      var k :| k in m && p(m[k]) && m[k] == x;
      var i :| 0 <= i < |ks| && ks[i] == k;
      assert r[i] == x;
    }
  }

  /** A sequence of distinct keys drawn from a set, covering it, is as long as the set is large. */
  lemma {:induction false} DistinctKeysCount(ks: seq<int>, s: set<int>)
    requires StrictlyAscending(ks)
    requires forall k :: k in ks <==> k in s
    ensures |ks| == |s|
  {
    if ks != [] {
      var rest := ks[1..];
      assert forall k :: k in rest <==> k in s - {ks[0]} by {
        forall k ensures k in rest <==> k in s - {ks[0]} {
          if k in rest {
            var i :| 0 <= i < |rest| && rest[i] == k;
            assert ks[i + 1] == k;
          }
          if k in s - {ks[0]} {
            var i :| 0 <= i < |ks| && ks[i] == k;
            assert i != 0;
            assert rest[i - 1] == k;
          }
        }
      }
      DistinctKeysCount(rest, s - {ks[0]});
    } else {
      assert forall k :: k !in s;
      assert s == {};
    }
  }

  /** A condition every row meets selects each row of the table once. */
  lemma SelectEveryRow<R>(m: map<int, R>, p: R -> bool)
    requires forall k :: k in m ==> p(m[k])
    ensures |Select(m, p)| == |m|
  {
    DistinctKeysCount(MatchingKeys(m, p), m.Keys);
  }

  lemma SortedSelectMembers<R>(m: map<int, R>, p: R -> bool, le: (R, R) -> bool, x: R)
    ensures x in SortBy(Select(m, p), le) <==> exists k :: k in m && p(m[k]) && m[k] == x
  {
    var rows := Select(m, p);
    assert x in SortBy(rows, le) <==> x in multiset(SortBy(rows, le));
    SelectMembers(m, p, x);
  }

  /** `SELECT * WHERE p ORDER BY le`. */
  function OrderedSelect<R(!new)>(m: map<int, R>, p: R -> bool, le: (R, R) -> bool): (r: seq<R>)
    requires TotalPreorder(le)
    ensures SortedBy(r, le)
    ensures multiset(r) == multiset(Select(m, p))
    ensures forall x :: x in r <==> exists k :: k in m && p(m[k]) && m[k] == x
    ensures r == [] <==> forall k :: k in m ==> !p(m[k])
  {
    SortByOrdered(Select(m, p), le);
    assert forall x :: x in SortBy(Select(m, p), le) <==> exists k :: k in m && p(m[k]) && m[k] == x by {
      forall x ensures x in SortBy(Select(m, p), le) <==> exists k :: k in m && p(m[k]) && m[k] == x {
        SortedSelectMembers(m, p, le, x);
      }
    }
    SortBy(Select(m, p), le)
  }
}
