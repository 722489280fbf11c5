/** Tables held by the services' repositories, and the list operations the
    services apply to query results.

    A table is a map from identity key to row. Keys come from one identity
    counter, so every key lies below the counter (`Below`). A repository
    query without an explicit order returns rows in ascending key order,
    which `Select` models.
 */
module Tables {
  import opened Wrappers

  /** Every key of `m` is an identity handed out before `n`. */
  predicate Below<T>(m: map<int, T>, n: nat) {
    forall k :: k in m ==> 0 <= k < n
  }

  /** A table with an identity column: its rows and the next identity. */
  datatype Table<T> = Table(rows: map<int, T>, next: nat) {
    /** Every key was handed out by the identity counter. */
    predicate Issued() { Below(rows, next) }

    /** An insert: the row gets the next identity. */
    function Insert(row: T): (t: Table<T>)
      ensures next !in rows ==> t.rows.Keys == rows.Keys + {next}
      ensures t.rows == rows[next := row] && t.next == next + 1
      ensures Issued() ==> t.Issued() && next !in rows
    {
      Table(rows[next := row], next + 1)
    }

    /** An update of an existing row, which keeps its key. */
    function Put(k: int, row: T): (t: Table<T>)
      requires k in rows
      ensures t.rows == rows[k := row] && t.next == next && t.rows.Keys == rows.Keys
      ensures Issued() ==> t.Issued()
    {
      Table(rows[k := row], next)
    }

    /** A delete of every row satisfying `p`. */
    function Delete(p: T -> bool): (t: Table<T>)
      ensures t.rows == Without(rows, p) && t.next == next
      ensures Issued() ==> t.Issued()
    {
      Table(Without(rows, p), next)
    }

    /** A delete by key. */
    function DeleteKey(k: int): (t: Table<T>)
      ensures t.rows == rows - {k} && t.next == next
      ensures Issued() ==> t.Issued()
    {
      Table(rows - {k}, next)
    }

    /** The keys of the rows satisfying `p`, in ascending key order. */
    function Where(p: T -> bool): (r: seq<int>)
      requires Issued()
      ensures forall k :: k in r <==> k in rows && p(rows[k])
      ensures forall i, j :: 0 <= i < j < |r| ==> r[i] < r[j]
    {
      Select(rows, p, next)
    }

    /** The lowest key of a row satisfying `p`. */
    function First(p: T -> bool): (r: Option<int>)
      requires Issued()
      ensures r.None? <==> forall k :: k in rows ==> !p(rows[k])
      ensures r.Some? ==> r.value in rows && p(rows[r.value])
      ensures r.Some? ==> forall k :: k in rows && k < r.value ==> !p(rows[k])
    {
      FirstKey(rows, p, next)
    }

    /** A `count` query: the number of rows satisfying `p`, which is the
        length of the matching list. */
    function Count(p: T -> bool): (n: nat)
      requires Issued()
      ensures n == |Where(p)|
    {
      var matching := set k | k in rows && p(rows[k]);
      assert matching == set k | k in Where(p);
      AscendingCard(Where(p));
      |matching|
    }

    /** `findAllById`: the stored keys among `ids`, each once, ascending. */
    function FindAll(ids: seq<int>): (r: seq<int>)
      requires Issued()
      ensures forall k :: k in r <==> k in rows && k in ids
      ensures forall i, j :: 0 <= i < j < |r| ==> r[i] < r[j]
    {
      SelectKeys(rows, ids, next)
    }

    /** `findAllById` returns one row per requested id exactly when every id
        is stored and no id is repeated. */
    lemma FindAllComplete(ids: seq<int>)
      requires Issued()
      ensures |FindAll(ids)| == |ids| <==> (forall i :: 0 <= i < |ids| ==> ids[i] in rows) && Distinct(ids)
    {
      var found := set k | k in FindAll(ids);
      var asked := set k | k in ids;
      AscendingCard(FindAll(ids));
      SeqCard(ids);
      assert found <= asked;
      if forall i :: 0 <= i < |ids| ==> ids[i] in rows {
        assert found == asked;
      } else {
        var i :| 0 <= i < |ids| && ids[i] !in rows;
        assert ids[i] in asked - found;
        SubsetCard(found + {ids[i]}, asked);
      }
    }

    /** A query no row satisfies answers with nothing. */
    lemma WhereNothing(p: T -> bool)
      requires Issued() && forall k :: k in rows ==> !p(rows[k])
      ensures Where(p) == []
    {
      SelectNothing(rows, p, next);
    }

    /** `saveAll`: the rows get consecutive identities, in order. */
    function InsertAll(rs: seq<T>): (t: Table<T>)
      ensures t.rows == rows + Placed(rs, next) && t.next == next + |rs|
      ensures Issued() ==> t.Issued()
    {
      Table(rows + Placed(rs, next), next + |rs|)
    }

    /** Replacing one row moves the count of rows satisfying `p` by that
        row alone: it loses the old row's match and gains the new one's. */
    lemma CountAfterPut(p: T -> bool, k: int, row: T)
      requires Issued() && k in rows
      ensures Put(k, row).Count(p) + (if p(rows[k]) then 1 else 0) == Count(p) + (if p(row) then 1 else 0)
    {
      SelectPut(rows, p, next, k, row);
    }

    /** Saving rows one by one is `saveAll` of them. */
    lemma InsertAllSnoc(rs: seq<T>, x: T)
      ensures InsertAll(rs + [x]) == InsertAll(rs).Insert(x)
    {
      PlacedSnoc(rs, x, next);
      assert rows + Placed(rs, next)[next + |rs| := x] == (rows + Placed(rs, next))[next + |rs| := x];
    }

    /** Saving `a` and then `b` is saving `a + b`. */
    lemma {:induction false} InsertAllAppend(a: seq<T>, b: seq<T>)
      ensures InsertAll(a).InsertAll(b) == InsertAll(a + b)
      decreases |b|
    {
      if b == [] {
        assert a + b == a;
      } else {
        var front, x := b[..|b| - 1], b[|b| - 1];
        assert b == front + [x];
        assert a + b == (a + front) + [x];
        InsertAllAppend(a, front);
        InsertAll(a).InsertAllSnoc(front, x);
        InsertAllSnoc(a + front, x);
      }
    }
  }

  /** No key occurs twice in `xs`. */
  predicate Distinct(xs: seq<int>) {
    forall i, j :: 0 <= i < j < |xs| ==> xs[i] != xs[j]
  }

  /** A list holds at most as many keys as it has elements, and exactly as
      many when none is repeated. */
  lemma {:induction false} SeqCard(xs: seq<int>)
    ensures |set k | k in xs| <= |xs|
    ensures |set k | k in xs| == |xs| <==> Distinct(xs)
  {
    if xs != [] {
      var t := xs[..|xs| - 1];
      var x := xs[|xs| - 1];
      SeqCard(t);
      assert (set k | k in xs) == (set k | k in t) + {x};
      if x in t {
        var j :| 0 <= j < |t| && t[j] == x;
        assert xs[j] == xs[|xs| - 1];
        assert (set k | k in xs) == (set k | k in t);
      } else {
        assert Distinct(xs) <==> Distinct(t);
      }
    }
  }

  /** A subset is no larger than its superset. */
  lemma SubsetCard(a: set<int>, b: set<int>)
    requires a <= b
    ensures |a| <= |b|
  {
    assert b == a + (b - a);
  }

  /** A strictly ascending list holds as many keys as it has elements. */
  lemma {:induction false} AscendingCard(s: seq<int>)
    requires forall i, j :: 0 <= i < j < |s| ==> s[i] < s[j]
    ensures |set k | k in s| == |s|
  {
    if s != [] {
      var t := s[..|s| - 1];
      AscendingCard(t);
      assert (set k | k in s) == (set k | k in t) + {s[|s| - 1]};
      assert s[|s| - 1] !in (set k | k in t);
    }
  }

  /** The keys below `n` of `m` that occur in `ids`, ascending. */
  function SelectKeys<T>(m: map<int, T>, ids: seq<int>, n: nat): (r: seq<int>)
    ensures forall k :: k in r <==> k in m && 0 <= k < n && k in ids
    ensures forall i, j :: 0 <= i < j < |r| ==> r[i] < r[j]
  {
    if n == 0 then []
    else
      var r' := SelectKeys(m, ids, n - 1);
      assert forall i :: 0 <= i < |r'| ==> r'[i] < n - 1 by {
        forall i | 0 <= i < |r'| ensures r'[i] < n - 1 { assert r'[i] in r'; }
      }
      if n - 1 in m && n - 1 in ids then r' + [n - 1] else r'
  }

  /** The keys below `n` of the rows of `m` that satisfy `p`, ascending. */
  function Select<T>(m: map<int, T>, p: T -> bool, n: nat): (r: seq<int>)
    ensures forall k :: k in r <==> k in m && 0 <= k < n && p(m[k])
    ensures forall i, j :: 0 <= i < j < |r| ==> r[i] < r[j]
  {
    if n == 0 then []
    else
      var r' := Select(m, p, n - 1);
      assert forall i :: 0 <= i < |r'| ==> r'[i] < n - 1 by {
        forall i | 0 <= i < |r'| ensures r'[i] < n - 1 { assert r'[i] in r'; }
      }
      if n - 1 in m && p(m[n - 1]) then r' + [n - 1] else r'
  }

  /** With no row satisfying `p`, nothing is selected. */
  lemma {:induction false} SelectNothing<T>(m: map<int, T>, p: T -> bool, n: nat)
    requires forall k :: k in m ==> !p(m[k])
    ensures Select(m, p, n) == []
  {
    if n > 0 {
      SelectNothing(m, p, n - 1);
    }
  }

  /** Replacing the row at `k` changes the selection below `n` by that key
      alone. */
  lemma {:induction false} SelectPut<T>(m: map<int, T>, p: T -> bool, n: nat, k: int, row: T)
    requires k in m
    ensures |Select(m[k := row], p, n)| + (if 0 <= k < n && p(m[k]) then 1 else 0)
         == |Select(m, p, n)| + (if 0 <= k < n && p(row) then 1 else 0)
  {
    if n > 0 {
      SelectPut(m, p, n - 1, k, row);
    }
  }

  /** The lowest key below `n` whose row satisfies `p`. */
  function FirstKey<T>(m: map<int, T>, p: T -> bool, n: nat): (r: Option<int>)
    ensures r.None? <==> forall k :: k in m && 0 <= k < n ==> !p(m[k])
    ensures r.Some? ==> r.value in m && 0 <= r.value < n && p(m[r.value])
    ensures r.Some? ==> forall k :: k in m && 0 <= k < r.value ==> !p(m[k])
  {
    var s := Select(m, p, n);
    if |s| == 0 then None
    else
      assert s[0] in s;
      assert forall k :: k in m && 0 <= k < s[0] && p(m[k]) ==> k in s;
      Some(s[0])
  }

  /** `m` without the rows that satisfy `p` (a delete-by query). */
  function Without<T>(m: map<int, T>, p: T -> bool): (r: map<int, T>)
    ensures forall k :: k in r <==> k in m && !p(m[k])
    ensures forall k :: k in r ==> r[k] == m[k]
  {
    map k | k in m && !p(m[k]) :: m[k]
  }

  /** Rows saved one after another from key `start` on. */
  function Placed<T>(rows: seq<T>, start: int): (r: map<int, T>)
    ensures forall k :: k in r <==> start <= k < start + |rows|
    ensures forall i :: 0 <= i < |rows| ==> r[start + i] == rows[i]
  {
    if rows == [] then map[]
    else Placed(rows[..|rows| - 1], start)[start + |rows| - 1 := rows[|rows| - 1]]
  }

  /** Saving one more row extends the placement by one key. */
  lemma PlacedSnoc<T>(rows: seq<T>, x: T, start: int)
    ensures Placed(rows + [x], start) == Placed(rows, start)[start + |rows| := x]
  {
    assert (rows + [x])[..|rows|] == rows;
  }

  /** The rows of `m` at `keys`, in that order. */
  function RowsAt<T>(m: map<int, T>, keys: seq<int>): (r: seq<T>)
    requires forall i :: 0 <= i < |keys| ==> keys[i] in m
    ensures |r| == |keys|
    ensures forall i :: 0 <= i < |keys| ==> r[i] == m[keys[i]]
  {
    if keys == [] then [] else [m[keys[0]]] + RowsAt(m, keys[1..])
  }

  /** `PageRequest.of(page, size)` applied to a list: negative page or size
      below 1 is rejected; the page holds the items from `page * size` on. */
  function PageOf<T>(xs: seq<T>, page: int, size: int): (r: Result<seq<T>>)
    ensures r.Err? <==> page < 0 || size < 1
    ensures r.Err? ==> r.error == IllegalArgumentException
    ensures r.Ok? ==> |r.value| <= size
    ensures r.Ok? ==> forall x :: x in r.value ==> x in xs
    ensures r.Ok? && page * size <= |xs| ==> r.value <= xs[page * size..]
    ensures r.Ok? && page * size >= |xs| ==> r.value == []
    ensures r.Ok? && page * size + size <= |xs| ==> |r.value| == size
    ensures r.Ok? && page * size <= |xs| <= page * size + size ==> r.value == xs[page * size..]
  {
    if page < 0 || size < 1 then Err(IllegalArgumentException)
    else
      var from := if page * size <= |xs| then page * size else |xs|;
      var to := if page * size + size <= |xs| then page * size + size else |xs|;
      Ok(xs[from..to])
  }

  /** Spring's page count: the number of pages of `size` items needed. */
  function TotalPages(total: nat, size: nat): (n: nat)
    requires size >= 1
    ensures n * size >= total && (n == 0 || (n - 1) * size < total)
  {
    (total + size - 1) / size
  }
}
