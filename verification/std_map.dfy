/** std::map<std::string, std::string> as the C++ sources use it: an
    association list kept in strictly ascending key order (std::string's
    operator<), so that iterating it visits the keys in that order.
    Assignment through operator[] inserts or overwrites; reading through
    operator[] yields the empty string for a missing key. */
module StdMap {
  import opened Wrappers
  import Text

  type Entries = seq<(string, string)>

  predicate Sorted(m: Entries) {
    forall i, j :: 0 <= i < j < |m| ==> Text.Less(m[i].0, m[j].0)
  }

  function Keys(m: Entries): set<string> {
    set i | 0 <= i < |m| :: m[i].0
  }

  /** find(): the value stored under k, if any. */
  function Get(m: Entries, k: string): Option<string>
  {
    if |m| == 0 then None
    else if m[0].0 == k then Some(m[0].1)
    else Get(m[1..], k)
  }

  /** Reading through a non-const operator[]: the stored value, or "" for a
      missing key. */
  function Index(m: Entries, k: string): string
  {
    match Get(m, k)
    case Some(v) => v
    case None => ""
  }

  /** m[k] = v. */
  function Insert(m: Entries, k: string, v: string): Entries
  {
    if |m| == 0 then [(k, v)]
    else if m[0].0 == k then [(k, v)] + m[1..]
    else if Text.Less(k, m[0].0) then [(k, v)] + m
    else [m[0]] + Insert(m[1..], k, v)
  }

  lemma {:induction false} GetSome(m: Entries, k: string)
    ensures Get(m, k).Some? <==> k in Keys(m)
  {
    if |m| > 0 {
      GetSome(m[1..], k);
      assert Keys(m) == {m[0].0} + Keys(m[1..]) by {
        forall x | x in Keys(m) ensures x in {m[0].0} + Keys(m[1..]) {
          var i :| 0 <= i < |m| && m[i].0 == x;
          if i > 0 {
            assert m[1..][i - 1].0 == x;
          }
        }
        forall x | x in Keys(m[1..]) ensures x in Keys(m) {
          var i :| 0 <= i < |m[1..]| && m[1..][i].0 == x;
          assert m[i + 1].0 == x;
        }
      }
    }
  }

  /** Every key of m lies strictly above lo. */
  predicate Above(m: Entries, lo: string) {
    forall i :: 0 <= i < |m| ==> Text.Less(lo, m[i].0)
  }

  /** Inserting a key above lo keeps every key above lo. */
  lemma {:induction false} InsertAbove(m: Entries, k: string, v: string, lo: string)
    requires Above(m, lo) && Text.Less(lo, k)
    ensures Above(Insert(m, k, v), lo)
  {
    if |m| > 0 && m[0].0 != k && !Text.Less(k, m[0].0) {
      InsertAbove(m[1..], k, v, lo);
      assert Insert(m, k, v) == [m[0]] + Insert(m[1..], k, v);
    }
  }

  lemma SortedTail(m: Entries)
    requires |m| > 0 && Sorted(m)
    ensures Sorted(m[1..]) && Above(m[1..], m[0].0)
  {
  }

  lemma SortedCons(e: (string, string), t: Entries)
    requires Sorted(t) && Above(t, e.0)
    ensures Sorted([e] + t)
  {
    var r := [e] + t;
    forall i, j | 0 <= i < j < |r| ensures Text.Less(r[i].0, r[j].0) {
      assert r[j] == t[j - 1];
      if i > 0 {
        assert r[i] == t[i - 1];
      }
    }
  }

  /** Insertion keeps the keys strictly ascending, so iteration order is
      always the key order. */
  lemma {:induction false} InsertSorted(m: Entries, k: string, v: string)
    requires Sorted(m)
    ensures Sorted(Insert(m, k, v))
  {
    if |m| == 0 {
    } else {
      SortedTail(m);
      if m[0].0 == k {
        SortedCons((k, v), m[1..]);
      } else if Text.Less(k, m[0].0) {
        forall i | 0 <= i < |m| ensures Text.Less(k, m[i].0) {
          if i > 0 {
            Text.LessTransitive(k, m[0].0, m[i].0);
          }
        }
        SortedCons((k, v), m);
      } else {
        Text.LessTotal(k, m[0].0);
        InsertSorted(m[1..], k, v);
        InsertAbove(m[1..], k, v, m[0].0);
        SortedCons(m[0], Insert(m[1..], k, v));
      }
    }
  }

  /** After m[k] = v, k holds v and every other key holds what it held. */
  lemma {:induction false} GetInsert(m: Entries, k: string, v: string, k': string)
    ensures Get(Insert(m, k, v), k') == if k' == k then Some(v) else Get(m, k')
  {
    if |m| > 0 && m[0].0 != k && !Text.Less(k, m[0].0) {
      GetInsert(m[1..], k, v, k');
      assert Insert(m, k, v)[1..] == Insert(m[1..], k, v);
    } else if |m| > 0 && m[0].0 == k {
      assert Insert(m, k, v)[1..] == m[1..];
    } else if |m| > 0 {
      assert Insert(m, k, v)[1..] == m;
    }
  }

  /** A found key leads to an entry holding it. */
  lemma {:induction false} GetFound(m: Entries, k: string)
    requires Get(m, k).Some?
    ensures exists i :: 0 <= i < |m| && m[i] == (k, Get(m, k).value)
  {
    if m[0].0 != k {
      GetFound(m[1..], k);
      var i :| 0 <= i < |m[1..]| && m[1..][i] == (k, Get(m[1..], k).value);
      assert m[i + 1] == m[1..][i];
    }
  }

  /** In a sorted map every entry is what find() returns for its key. */
  lemma {:induction false} GetEntry(m: Entries, i: nat)
    requires Sorted(m) && i < |m|
    ensures Get(m, m[i].0) == Some(m[i].1)
  {
    if i > 0 {
      Text.LessIrreflexive(m[0].0);
      assert Text.Less(m[0].0, m[i].0);
      SortedTail(m);
      assert m[1..][i - 1] == m[i];
      GetEntry(m[1..], i - 1);
    }
  }

  /** A run of conditional assignments `if (present) m[name] = value;`, in
      source order. */
  function InsertAll(m: Entries, assignments: seq<(string, Option<string>)>): Entries
    decreases |assignments|
  {
    if |assignments| == 0 then m
    else InsertAll(Assign(m, assignments[0]), assignments[1..])
  }

  /** One conditional assignment. */
  function Assign(m: Entries, a: (string, Option<string>)): Entries
  {
    if a.1.Some? then Insert(m, a.0, a.1.value) else m
  }

  /** The value the last present assignment to k gives it, or `prior`. */
  function Assigned(assignments: seq<(string, Option<string>)>, k: string, prior: Option<string>): Option<string>
    decreases |assignments|
  {
    if |assignments| == 0 then prior
    else
      var a := assignments[0];
      Assigned(assignments[1..], k, if a.0 == k && a.1.Some? then a.1 else prior)
  }

  lemma {:induction false} InsertAllSorted(m: Entries, assignments: seq<(string, Option<string>)>)
    requires Sorted(m)
    ensures Sorted(InsertAll(m, assignments))
    decreases |assignments|
  {
    if |assignments| > 0 {
      var a := assignments[0];
      if a.1.Some? {
        InsertSorted(m, a.0, a.1.value);
      }
      InsertAllSorted(if a.1.Some? then Insert(m, a.0, a.1.value) else m, assignments[1..]);
    }
  }

  /** After the run, each key holds its last assigned value, and a key the
      run never assigns keeps what it held. */
  lemma {:induction false} GetInsertAll(m: Entries, assignments: seq<(string, Option<string>)>, k: string)
    ensures Get(InsertAll(m, assignments), k) == Assigned(assignments, k, Get(m, k))
    decreases |assignments|
  {
    if |assignments| > 0 {
      var a := assignments[0];
      var m' := if a.1.Some? then Insert(m, a.0, a.1.value) else m;
      if a.1.Some? {
        GetInsert(m, a.0, a.1.value, k);
      }
      GetInsertAll(m', assignments[1..], k);
    }
  }

  /** A key that no assignment names keeps its prior value. */
  lemma {:induction false} AssignedNone(assignments: seq<(string, Option<string>)>, k: string, prior: Option<string>)
    requires forall j :: 0 <= j < |assignments| ==> assignments[j].0 != k
    ensures Assigned(assignments, k, prior) == prior
    decreases |assignments|
  {
    if |assignments| > 0 {
      AssignedNone(assignments[1..], k, prior);
    }
  }

  /** A key that exactly one assignment names gets that assignment's value
      when it is present, and keeps its prior value otherwise. */
  lemma {:induction false} AssignedAt(assignments: seq<(string, Option<string>)>, k: string, prior: Option<string>, i: nat)
    requires i < |assignments| && assignments[i].0 == k
    requires forall j :: 0 <= j < |assignments| && j != i ==> assignments[j].0 != k
    ensures Assigned(assignments, k, prior) == if assignments[i].1.Some? then assignments[i].1 else prior
    decreases |assignments|
  {
    if i == 0 {
      var a := assignments[0];
      AssignedNone(assignments[1..], k, if a.1.Some? then a.1 else prior);
    } else {
      AssignedAt(assignments[1..], k, prior, i - 1);
    }
  }

  lemma InsertAllTwo(m: Entries, a: (string, Option<string>), b: (string, Option<string>))
    ensures InsertAll(m, [a, b]) == Assign(Assign(m, a), b)
  {
    assert [a, b][1..] == [b];
    assert InsertAll(m, [a, b]) == InsertAll(Assign(m, a), [b]);
    assert [b][1..] == [];
    assert InsertAll(Assign(m, a), [b]) == InsertAll(Assign(Assign(m, a), b), []);
  }

  lemma {:induction false} InsertAllConcat(m: Entries, a: seq<(string, Option<string>)>, b: seq<(string, Option<string>)>)
    ensures InsertAll(m, a + b) == InsertAll(InsertAll(m, a), b)
    decreases |a|
  {
    if |a| == 0 {
      assert a + b == b;
    } else {
      assert (a + b)[1..] == a[1..] + b;
      InsertAllConcat(Assign(m, a[0]), a[1..], b);
    }
  }

  /** Assignments whose conditions all fail leave the map as it was. */
  lemma {:induction false} InsertAllAbsent(m: Entries, assignments: seq<(string, Option<string>)>)
    requires forall j :: 0 <= j < |assignments| ==> assignments[j].1.None?
    ensures InsertAll(m, assignments) == m
    decreases |assignments|
  {
    if |assignments| > 0 {
      InsertAllAbsent(m, assignments[1..]);
    }
  }
}
