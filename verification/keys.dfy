/** Primary keys of the relational tables, modelled as finite sets of integers. */
module Keys {

  /** Some element of a non-empty set. */
  lemma PickOne(s: set<int>) returns (x: int)
    requires s != {}
    ensures x in s
  {
    if forall y :: y !in s {
      assert false;
    }
    var y :| y in s;
    x := y;
  }

  lemma {:induction false} HasMinimum(s: set<int>)
    requires s != {}
    ensures exists m :: m in s && forall k :: k in s ==> m <= k
    decreases |s|
  {
    var x := PickOne(s);
    if s != {x} {
      var rest := s - {x};
      assert s == rest + {x};
      assert |rest| < |s|;
      HasMinimum(rest);
      var m :| m in rest && forall k :: k in rest ==> m <= k;
      if x < m {
        assert forall k :: k in s ==> x <= k;
      } else {
        assert forall k :: k in s ==> m <= k;
      }
    } else {
      assert forall k :: k in s ==> x <= k;
    }
  }

  lemma {:induction false} HasMaximum(s: set<int>)
    requires s != {}
    ensures exists m :: m in s && forall k :: k in s ==> k <= m
    decreases |s|
  {
    var x := PickOne(s);
    if s != {x} {
      var rest := s - {x};
      assert s == rest + {x};
      assert |rest| < |s|;
      HasMaximum(rest);
      var m :| m in rest && forall k :: k in rest ==> k <= m;
      if m < x {
        assert forall k :: k in s ==> k <= x;
      } else {
        assert forall k :: k in s ==> k <= m;
      }
    } else {
      assert forall k :: k in s ==> k <= x;
    }
  }

  /** The least key of a non-empty key set. */
  function MinOf(s: set<int>): (m: int)
    requires s != {}
    ensures m in s
    ensures forall k :: k in s ==> m <= k
  {
    HasMinimum(s);
    var m :| m in s && forall k :: k in s ==> m <= k; m
  }

  /** The greatest key of a non-empty key set. */
  function MaxOf(s: set<int>): (m: int)
    requires s != {}
    ensures m in s
    ensures forall k :: k in s ==> k <= m
  {
    HasMaximum(s);
    var m :| m in s && forall k :: k in s ==> k <= m; m
  }

  /** The key SQLite gives a row inserted into an `INTEGER PRIMARY KEY` table:
      one more than the largest key in use, or 1 when the table is empty. */
  function NextId(keys: set<int>): (r: int)
    ensures r !in keys
    ensures forall k :: k in keys ==> k < r
    ensures keys == {} ==> r == 1
    ensures keys != {} ==> r - 1 in keys
  {
    if keys == {} then 1 else MaxOf(keys) + 1
  }

  /** A table after an insert or update, with the key and contents of the row written. */
  datatype Stored<T> = Stored(table: map<int, T>, id: int, row: T)

  /** The rows of a table a query's filter keeps (a `WHERE` clause). */
  function Where<T>(table: map<int, T>, keep: T -> bool): (r: map<int, T>)
    ensures forall k :: k in r <==> k in table && keep(table[k])
    ensures forall k :: k in r ==> r[k] == table[k]
  {
    map k | k in table && keep(table[k]) :: table[k]
  }
}
