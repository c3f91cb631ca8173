/** The devtools panel's view of the registry: one row per entry, sorted by
    hash with the comparator `(a, b) => (a.queryHash > b.queryHash ? 1 : -1)`,
    each with the status word the panel shows. */
module Devtools {
  import opened Common
  import opened QueryStates
  import opened Engine

  /** The status word of a row; `None` is the `null` branch (nothing shown). */
  datatype Label = Fetching | Inactive | Succeeded | Failed

  /** The nested conditional of the panel: fetching wins over inactive,
      inactive over the settled status. */
  function StatusLabel(isFetching: bool, subscriberCount: nat, status: Status): (r: Option<Label>)
    ensures r == Some(Fetching) <==> isFetching
    ensures r == Some(Inactive) <==> !isFetching && subscriberCount == 0
    ensures r == Some(Succeeded) <==> !isFetching && subscriberCount > 0 && status == Success
    ensures r == Some(Failed) <==> !isFetching && subscriberCount > 0 && status == Error
    ensures r == None <==> !isFetching && subscriberCount > 0 && status == Loading
  {
    if isFetching then Some(Fetching)
    else if subscriberCount == 0 then Some(Inactive)
    else if status == Success then Some(Succeeded)
    else if status == Error then Some(Failed)
    else assert status == Loading; None
  }

  /** A row shows nothing only for a subscribed entry that no fetch has
      completed for: a well-formed state with that label has no data. */
  lemma BlankRowMeansNoData(s: QueryState, subscriberCount: nat)
    requires WellFormed(s) && StatusLabel(s.isFetching, subscriberCount, s.status) == None
    ensures s.data == None && s.error == None && s.lastUpdated == None
  {
  }

  /** A row of the panel. */
  datatype Row = Row(hash: string, status: Option<Label>)

  /** JavaScript's `a < b` on strings: the first differing character decides,
      and a proper prefix comes first. */
  predicate LexLess(a: string, b: string)
  {
    if a == [] then b != []
    else if b == [] then false
    else if a[0] != b[0] then a[0] < b[0]
    else LexLess(a[1..], b[1..])
  }

  lemma {:induction false} LexLessIrreflexive(a: string)
    ensures !LexLess(a, a)
  {
    if a != [] {
      LexLessIrreflexive(a[1..]);
    }
  }

  lemma {:induction false} LexLessTransitive(a: string, b: string, c: string)
    requires LexLess(a, b) && LexLess(b, c)
    ensures LexLess(a, c)
  {
    if a != [] && b != [] && c != [] && a[0] == b[0] && b[0] == c[0] {
      LexLessTransitive(a[1..], b[1..], c[1..]);
    }
  }

  /** Two different strings are ordered one way or the other. */
  lemma {:induction false} LexLessTotal(a: string, b: string)
    requires a != b
    ensures LexLess(a, b) || LexLess(b, a)
  {
    if a != [] && b != [] && a[0] == b[0] {
      assert a == [a[0]] + a[1..] && b == [b[0]] + b[1..];
      LexLessTotal(a[1..], b[1..]);
    }
  }

  /** `a` may come before `b`: it is not greater. */
  predicate NotAfter(a: string, b: string)
  {
    !LexLess(b, a)
  }

  lemma NotAfterTransitive(a: string, b: string, c: string)
    requires NotAfter(a, b) && NotAfter(b, c)
    ensures NotAfter(a, c)
  {
    if a != b && b != c {
      LexLessTotal(a, b);
      LexLessTotal(b, c);
      LexLessTransitive(a, b, c);
      LexLessAsymmetric(a, c);
    }
  }

  lemma LexLessAsymmetric(a: string, b: string)
    requires LexLess(a, b)
    ensures !LexLess(b, a)
  {
    if LexLess(b, a) {
      LexLessTransitive(a, b, a);
      LexLessIrreflexive(a);
    }
  }

  /** Rows in ascending hash order. */
  predicate SortedByHash(rows: seq<Row>)
  {
    forall i, j :: 0 <= i < j < |rows| ==> NotAfter(rows[i].hash, rows[j].hash)
  }

  /** Places `r` before the first row whose hash is not smaller than its own. */
  function Insert(r: Row, rows: seq<Row>): (res: seq<Row>)
    ensures multiset(res) == multiset(rows) + multiset{r}
    ensures SortedByHash(rows) ==> SortedByHash(res)
  {
    if rows == [] then [r]
    else if LexLess(rows[0].hash, r.hash) then
      var tail := Insert(r, rows[1..]);
      assert rows == [rows[0]] + rows[1..];
      InsertAfterHead(rows, r, tail);
      [rows[0]] + tail
    else
      InsertBeforeHead(rows, r);
      [r] + rows
  }

  /** The head stays in front when `r` goes into the tail. */
  lemma InsertAfterHead(rows: seq<Row>, r: Row, tail: seq<Row>)
    requires rows != [] && LexLess(rows[0].hash, r.hash)
    requires multiset(tail) == multiset(rows[1..]) + multiset{r}
    requires SortedByHash(rows) ==> SortedByHash(tail)
    ensures SortedByHash(rows) ==> SortedByHash([rows[0]] + tail)
  {
    if SortedByHash(rows) {
      var res := [rows[0]] + tail;
      forall j | 0 < j < |res| ensures NotAfter(rows[0].hash, res[j].hash) {
        assert res[j] == tail[j - 1];
        assert res[j] in multiset(tail);
        if res[j] == r {
          LexLessAsymmetric(rows[0].hash, r.hash);
        } else {
          assert res[j] in multiset(rows[1..]);
          var k :| 0 <= k < |rows[1..]| && rows[1..][k] == res[j];
          assert rows[k + 1] == res[j];
        }
      }
      forall i, j | 0 <= i < j < |res| ensures NotAfter(res[i].hash, res[j].hash) {
        if i > 0 {
          assert res[i] == tail[i - 1] && res[j] == tail[j - 1];
        }
      }
    }
  }

  /** `r` goes in front when it is not greater than the head. */
  lemma InsertBeforeHead(rows: seq<Row>, r: Row)
    requires rows != [] && !LexLess(rows[0].hash, r.hash)
    ensures SortedByHash(rows) ==> SortedByHash([r] + rows)
  {
    if SortedByHash(rows) {
      var res := [r] + rows;
      forall i, j | 0 <= i < j < |res| ensures NotAfter(res[i].hash, res[j].hash) {
        assert res[j] == rows[j - 1];
        if i == 0 {
          if j > 1 {
            NotAfterTransitive(r.hash, rows[0].hash, rows[j - 1].hash);
          }
        } else {
          assert res[i] == rows[i - 1];
        }
      }
    }
  }

  /** Rows with the same hash are the same row. */
  predicate HashesDetermineRows(rows: seq<Row>)
  {
    forall r1, r2 :: r1 in rows && r2 in rows && r1.hash == r2.hash ==> r1 == r2
  }

  /** When the hash determines the row, the rows have one ascending order
      only: two sorted arrangements of the same rows are equal, whatever
      sort produced them. */
  lemma {:induction false} SortedUnique(a: seq<Row>, b: seq<Row>)
    requires multiset(a) == multiset(b) && HashesDetermineRows(a)
    requires SortedByHash(a) && SortedByHash(b)
    ensures a == b
  {
    if a == [] {
      assert |b| == |multiset(b)| == 0;
    } else {
      SameHead(a, b);
      SameTails(a, b);
      SortedTail(a);
      SortedTail(b);
      SortedUnique(a[1..], b[1..]);
      assert a == [a[0]] + a[1..] && b == [b[0]] + b[1..];
    }
  }

  /** The smallest row comes first in both arrangements. */
  lemma SameHead(a: seq<Row>, b: seq<Row>)
    requires a != [] && multiset(a) == multiset(b) && HashesDetermineRows(a)
    requires SortedByHash(a) && SortedByHash(b)
    ensures b != [] && a[0] == b[0]
  {
    assert a[0] in multiset(b);
    var k :| 0 <= k < |b| && b[k] == a[0];
    assert b[0] in multiset(a);
    var m :| 0 <= m < |a| && a[m] == b[0];
    if k > 0 && m > 0 && a[0] != a[m] {
      assert a[0].hash != a[m].hash;
      assert NotAfter(a[m].hash, a[0].hash);
      LexLessTotal(a[0].hash, a[m].hash);
    }
  }

  /** Equal heads leave equal multisets behind. */
  lemma SameTails(a: seq<Row>, b: seq<Row>)
    requires a != [] && b != [] && a[0] == b[0] && multiset(a) == multiset(b)
    ensures multiset(a[1..]) == multiset(b[1..])
  {
    assert a == [a[0]] + a[1..] && b == [b[0]] + b[1..];
    assert multiset(a[1..]) == multiset(a) - multiset{a[0]};
    assert multiset(b[1..]) == multiset(b) - multiset{b[0]};
  }

  lemma SortedTail(a: seq<Row>)
    requires a != []
    ensures SortedByHash(a) ==> SortedByHash(a[1..])
    ensures HashesDetermineRows(a) ==> HashesDetermineRows(a[1..])
  {
    if SortedByHash(a) {
      forall i, j | 0 <= i < j < |a[1..]| ensures NotAfter(a[1..][i].hash, a[1..][j].hash) {
        assert a[1..][i] == a[i + 1] && a[1..][j] == a[j + 1];
      }
    }
  }

  /** `[...rows].sort(...)`: the same rows, in ascending hash order. */
  function SortRows(rows: seq<Row>): (res: seq<Row>)
    ensures multiset(res) == multiset(rows)
    ensures SortedByHash(res)
  {
    if rows == [] then []
    else
      assert rows == [rows[0]] + rows[1..];
      Insert(rows[0], SortRows(rows[1..]))
  }

  /** An entry as the panel shows it. */
  function RowOf(q: Query): Row
    reads q
  {
    Row(q.hash, StatusLabel(q.state.isFetching, |q.subscribers|, q.state.status))
  }

  /** The unsorted rows, one per entry in registry order. */
  function Rows(qs: seq<Query>): (r: seq<Row>)
    reads qs
    ensures |r| == |qs|
    ensures forall i :: 0 <= i < |qs| ==> r[i] == RowOf(qs[i])
  {
    if qs == [] then [] else Rows(qs[..|qs| - 1]) + [RowOf(qs[|qs| - 1])]
  }

  /** What the panel renders: every registered entry exactly once, in
      ascending hash order. */
  function Listing(client: QueryClient): (r: seq<Row>)
    reads client, client.queries
    ensures multiset(r) == multiset(Rows(client.queries))
    ensures SortedByHash(r)
  {
    SortRows(Rows(client.queries))
  }

  /** A row is in the listing exactly when its entry is registered. */
  lemma ListingCoversRegistry(client: QueryClient, row: Row)
    ensures row in Listing(client) <==> exists i :: 0 <= i < |client.queries| && RowOf(client.queries[i]) == row
  {
    var rows := Rows(client.queries);
    assert row in Listing(client) <==> row in multiset(rows);
    if row in rows {
      var i :| 0 <= i < |rows| && rows[i] == row;
      assert RowOf(client.queries[i]) == row;
    }
  }

  /** The panel's order is fully determined: as registry hashes are unique,
      any arrangement of the registry's rows in ascending hash order is the
      listing, whatever the comparator's behaviour on ties would be. */
  lemma ListingIsTheOnlyOrder(client: QueryClient, r: seq<Row>)
    requires client.Valid()
    requires multiset(r) == multiset(Rows(client.queries)) && SortedByHash(r)
    ensures r == Listing(client)
  {
    var rows := Rows(client.queries);
    RowsDetermined(client.queries);
    var l := Listing(client);
    forall x | x in l ensures x in rows {
      assert x in multiset(l);
    }
    SortedUnique(l, r);
  }

  /** Entries with distinct hashes give rows whose hash determines them. */
  lemma RowsDetermined(qs: seq<Query>)
    requires UniqueHashes(qs)
    ensures HashesDetermineRows(Rows(qs))
  {
    var rows := Rows(qs);
    forall r1, r2 | r1 in rows && r2 in rows && r1.hash == r2.hash ensures r1 == r2 {
      var i :| 0 <= i < |rows| && rows[i] == r1;
      var j :| 0 <= j < |rows| && rows[j] == r2;
      assert qs[i].hash == qs[j].hash;
    }
  }
}
