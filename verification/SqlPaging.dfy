/** The SQL pager, which asks for one row more than the page, against the cursor pager. */
module SqlPaging {
  import opened KeyOrder
  import opened Paging

  function RowKey(namespace: string, key: string): string { namespace + ":" + key }

  /** The table in key order; a row's key carries its namespace. */
  type Table<V> = seq<(string, V)>

  ghost predicate Ascending<V>(rows: Table<V>) { forall i, j :: 0 <= i < j < |rows| ==> Less(rows[i].0, rows[j].0) }

  /** Every key occurs once, and no key of the namespace is empty. */
  ghost predicate Keyed<V>(table: Table<V>, namespace: string) {
    Ascending(table) && forall i :: 0 <= i < |table| ==> table[i].0 != RowKey(namespace, "")
  }

  // ---- The queries ----

  /** WHERE key LIKE 'namespace:%' AND key >= token ORDER BY key. */
  function Select<V>(table: Table<V>, namespace: string, token: string): Table<V>
    decreases |table|
  {
    if table == [] then []
    else (if HasPrefix(table[0].0, RowKey(namespace, "")) && !Less(table[0].0, token) then [table[0]] else []) + Select(table[1..], namespace, token)
  }

  function Limit<V>(rows: Table<V>, n: nat): Table<V> { if n < |rows| then rows[..n] else rows }

  /** The part of a row's key after the namespace. */
  function KeyIn(namespace: string, key: string): string {
    if |key| <= |namespace| then "" else key[|namespace| + 1..]
  }

  function Unqualified<V>(namespace: string, rows: Table<V>): Bucket<V> {
    seq(|rows|, i requires 0 <= i < |rows| => (KeyIn(namespace, rows[i].0), rows[i].1))
  }

  /** The page and the token that the query for one row more leads to. */
  function SqlPageOf<V>(table: Table<V>, namespace: string, token: string, size: int): Page<V>
    requires size >= -1
  {
    PageOfRows(namespace, Select(table, namespace, token), size)
  }

  function PageOfRows<V>(namespace: string, selected: Table<V>, size: int): Page<V>
    requires size >= -1
  {
    var rows := if size == -1 then selected else Limit(selected, size + 1);
    if size == -1 || |rows| <= size then Page(Unqualified(namespace, rows), "")
    else Page(Unqualified(namespace, rows[..size]), RowKey(namespace, KeyIn(namespace, rows[size].0)))
  }

  /** The bucket a cursor would run through, had the rows been written to it. */
  function BucketOf<V>(table: Table<V>, namespace: string): Bucket<V> {
    Unqualified(namespace, Select(table, namespace, ""))
  }

  function TokenFor(namespace: string, token: string): string { if token == "" then "" else RowKey(namespace, token) }

  /** readRowsAsMap: the rows as a map, and the last row's key. */
  method ReadRowsAsMap<V>(rows: Table<V>, namespace: string) returns (allValues: map<string, V>, mapKey: string)
    requires Ascending(Unqualified(namespace, rows))
    ensures allValues == MapOf(Unqualified(namespace, rows)) && |allValues| == |rows|
    ensures mapKey == if rows == [] then "" else KeyIn(namespace, rows[|rows| - 1].0)
  {
    ghost var entries := Unqualified(namespace, rows);
    allValues, mapKey := map[], "";
    for i := 0 to |rows|
      invariant allValues == MapOf(entries[..i]) && |allValues| == i
      invariant mapKey == if i == 0 then "" else entries[i - 1].0
    {
      MapGrows(entries, i);
      mapKey := KeyIn(namespace, rows[i].0);
      allValues := allValues[mapKey := rows[i].1];
    }
    assert entries[..|rows|] == entries;
  }

  method ReadPage<V>(table: Table<V>, namespace: string, pageToken: string, pageSize: int) returns (page: map<string, V>, next: string)
    requires Keyed(table, namespace) && pageSize >= -1
    ensures page == MapOf(SqlPageOf(table, namespace, pageToken, pageSize).entries)
    ensures next == SqlPageOf(table, namespace, pageToken, pageSize).next
  {
    var rows := Select(table, namespace, pageToken);
    SelectAscends(table, namespace, pageToken);
    if pageSize != -1 {
      rows := Limit(rows, pageSize + 1);
    }
    StrippedAscends(namespace, rows);
    var lastMapKey;
    page, lastMapKey := ReadRowsAsMap(rows, namespace);
    next := "";
    if pageSize != -1 && |page| > pageSize {
      next := RowKey(namespace, lastMapKey);
      LastTakenOut(namespace, rows, pageSize);
      page := page - {lastMapKey};
    }
  }

  /** Deleting the row that was asked for in excess leaves the page. */
  lemma LastTakenOut<V>(namespace: string, rows: Table<V>, n: nat)
    requires |rows| == n + 1 && Ascending(Unqualified(namespace, rows))
    ensures MapOf(Unqualified(namespace, rows)) - {KeyIn(namespace, rows[n].0)} == MapOf(Unqualified(namespace, rows[..n]))
  {
    var entries := Unqualified(namespace, rows);
    MapGrows(entries, n);
    assert entries[..n + 1] == entries && entries[..n] == Unqualified(namespace, rows[..n]);
  }

  // ---- What the queries select ----

  lemma RowKeys(namespace: string, key: string)
    ensures KeyIn(namespace, RowKey(namespace, key)) == key
    ensures HasPrefix(RowKey(namespace, key), RowKey(namespace, ""))
    ensures forall k :: HasPrefix(k, RowKey(namespace, "")) ==> RowKey(namespace, KeyIn(namespace, k)) == k
  {
    var ns := namespace + ":";
    assert RowKey(namespace, "") == ns && RowKey(namespace, key)[..|ns|] == ns;
    forall k | HasPrefix(k, RowKey(namespace, "")) ensures RowKey(namespace, KeyIn(namespace, k)) == k {
      assert k == k[..|ns|] + k[|ns|..];
    }
  }

  ghost predicate AllIn<V>(rows: Table<V>, namespace: string) {
    forall i :: 0 <= i < |rows| ==> HasPrefix(rows[i].0, RowKey(namespace, ""))
  }

  /** The query finds a row exactly when it is in the table, in the namespace, and not before the token. */
  lemma {:induction false} SelectDecides<V>(table: Table<V>, namespace: string, token: string, row: (string, V))
    ensures row in Select(table, namespace, token) <==> row in table && HasPrefix(row.0, RowKey(namespace, "")) && !Less(row.0, token)
    decreases |table|
  {
    if table != [] {
      SelectDecides(table[1..], namespace, token, row);
    }
  }

  /** The bucket of a namespace has exactly the rows of the table whose keys the namespace qualifies; by
      `BucketIsSorted` that leaves one order for them. */
  lemma BucketDecides<V>(table: Table<V>, namespace: string, key: string, value: V)
    ensures (key, value) in BucketOf(table, namespace) <==> (RowKey(namespace, key), value) in table
  {
    var rows := Select(table, namespace, "");
    RowKeys(namespace, key);
    SelectDecides(table, namespace, "", (RowKey(namespace, key), value));
    if (RowKey(namespace, key), value) in rows {
      var i :| 0 <= i < |rows| && rows[i] == (RowKey(namespace, key), value);
      assert BucketOf(table, namespace)[i] == (key, value);
    }
    if (key, value) in BucketOf(table, namespace) {
      var i :| 0 <= i < |rows| && BucketOf(table, namespace)[i] == (key, value);
      SelectDecides(table, namespace, "", rows[i]);
      assert rows[i] == (RowKey(namespace, key), value);
    }
  }

  lemma {:induction false} SelectIsPart<V>(table: Table<V>, namespace: string, token: string)
    ensures forall row :: row in Select(table, namespace, token) ==> row in table && HasPrefix(row.0, RowKey(namespace, ""))
    decreases |table|
  {
    if table != [] {
      SelectIsPart(table[1..], namespace, token);
    }
  }

  lemma {:induction false} SelectAscends<V>(table: Table<V>, namespace: string, token: string)
    requires Ascending(table)
    ensures Ascending(Select(table, namespace, token)) && AllIn(Select(table, namespace, token), namespace)
    decreases |table|
  {
    SelectIsPart(table, namespace, token);
    if table != [] {
      var rest := Select(table[1..], namespace, token);
      SelectIsPart(table[1..], namespace, token);
      SelectAscends(table[1..], namespace, token);
      assert Ascending([table[0]] + rest) by {
        forall i | 0 <= i < |rest| ensures Less(table[0].0, rest[i].0) {
          assert rest[i] in table[1..];
        }
      }
    }
  }

  /** Rows of one namespace are in the order of their keys in it. */
  lemma StrippedAscends<V>(namespace: string, rows: Table<V>)
    requires Ascending(rows) && AllIn(rows, namespace)
    ensures Ascending(Unqualified(namespace, rows))
  {
    var entries := Unqualified(namespace, rows);
    forall i, j | 0 <= i < j < |rows| ensures Less(entries[i].0, entries[j].0) {
      RowKeys(namespace, "");
      LessUnderPrefix(namespace + ":", entries[i].0, entries[j].0);
    }
  }

  lemma BucketIsSorted<V>(table: Table<V>, namespace: string)
    requires Keyed(table, namespace)
    ensures Sorted(BucketOf(table, namespace)) && AllIn(Select(table, namespace, ""), namespace)
  {
    var rows := Select(table, namespace, "");
    SelectIsPart(table, namespace, "");
    SelectAscends(table, namespace, "");
    StrippedAscends(namespace, rows);
    RowKeys(namespace, "");
    forall i | 0 <= i < |rows| ensures KeyIn(namespace, rows[i].0) != "" {
      assert rows[i] in table && RowKey(namespace, KeyIn(namespace, rows[i].0)) == rows[i].0;
    }
  }

  /** The rows from a token on. */
  function After<V>(rows: Table<V>, token: string): Table<V>
    decreases |rows|
  {
    if rows == [] then [] else (if Less(rows[0].0, token) then [] else [rows[0]]) + After(rows[1..], token)
  }

  lemma {:induction false} SelectIsFilter<V>(table: Table<V>, namespace: string, token: string)
    ensures Select(table, namespace, token) == After(Select(table, namespace, ""), token)
    decreases |table|
  {
    if table != [] {
      SelectIsFilter(table[1..], namespace, token);
      var head, tail := table[0], Select(table[1..], namespace, "");
      if HasPrefix(head.0, RowKey(namespace, "")) {
        assert ([head] + tail)[1..] == tail;
      } else {
        assert [] + tail == tail;
      }
    }
  }

  lemma {:induction false} SeekShifts<V>(b: Bucket<V>, token: string, start: nat)
    requires start < |b|
    ensures SeekFrom(b, token, start + 1) == 1 + SeekFrom(b[1..], token, start)
    decreases |b| - start
  {
    if start + 1 < |b| {
      assert b[1..][start] == b[start + 1];
      if Less(b[start + 1].0, token) { SeekShifts(b, token, start + 1); }
    }
  }

  /** Comparing whole row keys finds the place that a cursor seeks in the bucket. */
  lemma {:induction false} AfterSeek<V>(namespace: string, rows: Table<V>, token: string)
    requires Ascending(rows) && AllIn(rows, namespace)
    ensures After(rows, TokenFor(namespace, token)) == rows[Seek(Unqualified(namespace, rows), token)..]
    decreases |rows|
  {
    if rows != [] {
      var tail := rows[1..];
      AfterSeek(namespace, tail, token);
      FirstRow(namespace, rows[0].0, token);
      if Less(KeyIn(namespace, rows[0].0), token) {
        SkipsFirst(namespace, rows, tail, token);
      } else {
        StopsAtFirst(namespace, rows, tail, token);
      }
    }
  }

  lemma FirstRow(namespace: string, key: string, token: string)
    requires HasPrefix(key, RowKey(namespace, ""))
    ensures Less(KeyIn(namespace, key), token) <==> Less(key, TokenFor(namespace, token))
  {
    RowKeys(namespace, token);
    LessUnderPrefix(namespace + ":", KeyIn(namespace, key), token);
  }

  lemma SkipsFirst<V>(namespace: string, rows: Table<V>, tail: Table<V>, token: string)
    requires rows != [] && tail == rows[1..] && Less(KeyIn(namespace, rows[0].0), token)
    ensures rows[Seek(Unqualified(namespace, rows), token)..] == tail[Seek(Unqualified(namespace, tail), token)..]
  {
    var b, rest := Unqualified(namespace, rows), Unqualified(namespace, tail);
    assert b[1..] == rest;
    SeekShifts(b, token, 0);
    var n := Seek(rest, token);
    assert Seek(b, token) == n + 1;
    assert rows[n + 1..] == rows[1..][n..];
  }

  lemma StopsAtFirst<V>(namespace: string, rows: Table<V>, tail: Table<V>, token: string)
    requires Ascending(rows) && AllIn(rows, namespace) && rows != [] && tail == rows[1..] && !Less(KeyIn(namespace, rows[0].0), token)
    ensures Seek(Unqualified(namespace, rows), token) == 0 && Seek(Unqualified(namespace, tail), token) == 0
    ensures [rows[0]] + tail[0..] == rows[0..]
  {
    FirstRow(namespace, rows[0].0, token);
    NothingBefore(namespace, tail, token, rows[0].0);
  }

  lemma NothingBefore<V>(namespace: string, rows: Table<V>, token: string, first: string)
    requires Ascending(rows) && (rows != [] ==> Less(first, rows[0].0)) && !Less(first, TokenFor(namespace, token))
    requires AllIn(rows, namespace)
    ensures Seek(Unqualified(namespace, rows), token) == 0
  {
    if rows != [] {
      var key := KeyIn(namespace, rows[0].0);
      RowKeys(namespace, token);
      LessUnderPrefix(namespace + ":", key, token);
      if Less(key, token) { LessTrans(first, rows[0].0, TokenFor(namespace, token)); }
    }
  }

  // ---- The two pagers ----

  /** What the query with a token selects is what the cursor finds from the token on. */
  lemma SelectSeeks<V>(table: Table<V>, namespace: string, token: string)
    requires Keyed(table, namespace)
    ensures
      var b, rows := BucketOf(table, namespace), Select(table, namespace, TokenFor(namespace, token));
      Unqualified(namespace, rows) == b[Seek(b, token)..]
  {
    var all := Select(table, namespace, "");
    SelectAscends(table, namespace, "");
    SelectIsFilter(table, namespace, TokenFor(namespace, token));
    AfterSeek(namespace, all, token);
  }

  lemma RowsPage<V>(namespace: string, rows: Table<V>, rest: Bucket<V>, size: int)
    requires rest == Unqualified(namespace, rows) && size >= -1
    ensures PageOfRows(namespace, rows, size) ==
            if size == -1 || |rest| <= size then Page(rest, "") else Page(rest[..size], RowKey(namespace, rest[size].0))
  {
    if 0 <= size < |rest| {
      var taken := Limit(rows, size + 1);
      assert taken[..size] == rows[..size];
      assert Unqualified(namespace, taken[..size]) == rest[..size];
    }
  }

  /** On the same contents and corresponding tokens the pagers hand out the same page always, and
      corresponding tokens except exactly where the size is zero and there is something left. */
  lemma PagersAgree<V>(table: Table<V>, namespace: string, token: string, size: int)
    requires Keyed(table, namespace) && size >= -1
    ensures
      var b := BucketOf(table, namespace);
      var bolt, sql := PageOf(b, token, size), SqlPageOf(table, namespace, TokenFor(namespace, token), size);
      && sql.entries == bolt.entries
      && (sql.next == TokenFor(namespace, bolt.next) <==> size != 0 || Seek(b, token) == |b|)
  {
    var b := BucketOf(table, namespace);
    var n := Seek(b, token);
    SelectSeeks(table, namespace, token);
    RowsPage(namespace, Select(table, namespace, TokenFor(namespace, token)), b[n..], size);
    KeysNotEmpty(table, namespace);
  }

  lemma KeysNotEmpty<V>(table: Table<V>, namespace: string)
    requires Keyed(table, namespace)
    ensures forall i :: 0 <= i < |BucketOf(table, namespace)| ==> BucketOf(table, namespace)[i].0 != ""
  {
    BucketIsSorted(table, namespace);
  }

  /** Following the SQL pager's tokens. */
  function SqlWalk<V>(tables: seq<Table<V>>, namespace: string, token: string, size: int): Bucket<V>
    requires size >= -1
    decreases |tables|
  {
    if tables == [] then []
    else
      var p := SqlPageOf(tables[0], namespace, token, size);
      p.entries + if p.next == "" then [] else SqlWalk(tables[1..], namespace, p.next, size)
  }

  function BucketsOf<V>(tables: seq<Table<V>>, namespace: string): seq<Bucket<V>> {
    seq(|tables|, i requires 0 <= i < |tables| => BucketOf(tables[i], namespace))
  }

  /** They agree along the whole walk, whatever happens to the store in between. */
  lemma {:induction false} WalksAgree<V>(tables: seq<Table<V>>, namespace: string, token: string, size: int)
    requires (forall i :: 0 <= i < |tables| ==> Keyed(tables[i], namespace)) && (size == -1 || size >= 1)
    ensures SqlWalk(tables, namespace, TokenFor(namespace, token), size) == Walk(BucketsOf(tables, namespace), token, size)
    decreases |tables|
  {
    if tables != [] {
      var p := PageOf(BucketOf(tables[0], namespace), token, size);
      PagersAgree(tables[0], namespace, token, size);
      assert BucketsOf(tables, namespace)[1..] == BucketsOf(tables[1..], namespace);
      if p.next != "" {
        WalksAgree(tables[1..], namespace, p.next, size);
      }
    }
  }

  /** With a page size of zero the SQL pager hands out its own token again, page after page. */
  lemma SqlStuckAtZero<V>(table: Table<V>, namespace: string, token: string)
    requires Keyed(table, namespace) && Seek(BucketOf(table, namespace), token) < |BucketOf(table, namespace)|
    ensures
      var p := SqlPageOf(table, namespace, TokenFor(namespace, token), 0);
      p.entries == [] && p.next != "" && SqlPageOf(table, namespace, p.next, 0) == p
  {
    var b := BucketOf(table, namespace);
    var n := Seek(b, token);
    BucketIsSorted(table, namespace);
    PageAtZero(table, namespace, token);
    SeekFinds(b, n);
    PageAtZero(table, namespace, b[n].0);
  }

  lemma PageAtZero<V>(table: Table<V>, namespace: string, token: string)
    requires Keyed(table, namespace) && Seek(BucketOf(table, namespace), token) < |BucketOf(table, namespace)|
    ensures
      var b := BucketOf(table, namespace);
      SqlPageOf(table, namespace, TokenFor(namespace, token), 0) == Page([], RowKey(namespace, b[Seek(b, token)].0))
  {
    var b := BucketOf(table, namespace);
    SelectSeeks(table, namespace, token);
    RowsPage(namespace, Select(table, namespace, TokenFor(namespace, token)), b[Seek(b, token)..], 0);
  }
}
