/**
 * `OrderRepository`: the orders, order_items and order_audit tables held in memory,
 * and the SQL statements of `save`, `findById` and `saveAudit` as operations on them.
 */
module Repository {
  import opened Wrappers
  import opened Failures
  import opened OrderStates
  import opened OrderItems
  import opened OrderAudits
  import opened Orders
  import opened Effects

  /** A row of `orders`, keyed by its id; timestamps at whole-second resolution. */
  datatype OrderRow = OrderRow(state: string, createdAt: int, updatedAt: Option<int>)

  /** A row of `order_audit`; its auto-increment id is its position. */
  datatype AuditRow = AuditRow(orderId: int, action: string, reason: string, createdAt: int)

  /** The three tables. `order_items` rows are unvalidated records, as the database holds them. */
  datatype Db = Db(orders: map<int, OrderRow>, items: seq<ItemRecord>, audits: seq<AuditRow>)

  /** Some row of `rows` has primary key `id`. */
  predicate HasItemId(rows: seq<ItemRecord>, id: int)
  {
    exists x :: x in rows && x.id == id
  }

  /** The primary-key constraint of `order_items`: no two rows share an id. */
  predicate UniqueIds(rows: seq<ItemRecord>)
  {
    forall i, j :: 0 <= i < |rows| && 0 <= j < |rows| && rows[i].id == rows[j].id ==> i == j
  }

  predicate Ascending(rows: seq<ItemRecord>)
  {
    forall i, j :: 0 <= i < j < |rows| ==> rows[i].id <= rows[j].id
  }

  predicate StrictlyAscending(rows: seq<ItemRecord>)
  {
    forall i, j :: 0 <= i < j < |rows| ==> rows[i].id < rows[j].id
  }

  /** Prepending a row keeps the key unique exactly when its id is not taken yet. */
  lemma UniqueCons(a: ItemRecord, rest: seq<ItemRecord>)
    ensures UniqueIds([a] + rest) <==> UniqueIds(rest) && !HasItemId(rest, a.id)
  {
    var s := [a] + rest;
    assert forall k :: 0 <= k < |rest| ==> s[k + 1] == rest[k];
    if UniqueIds(s) {
      forall x | x in rest ensures x.id != a.id {
        var k :| 0 <= k < |rest| && rest[k] == x;
        assert s[k + 1] == x && s[0] == a;
      }
      forall i, j | 0 <= i < |rest| && 0 <= j < |rest| && rest[i].id == rest[j].id ensures i == j {
        assert s[i + 1].id == s[j + 1].id;
      }
    }
    if UniqueIds(rest) && !HasItemId(rest, a.id) {
      assert forall k :: 0 <= k < |rest| ==> rest[k].id != a.id by {
        forall k | 0 <= k < |rest| ensures rest[k].id != a.id {
          assert rest[k] in rest;
        }
      }
      forall i, j | 0 <= i < |s| && 0 <= j < |s| && s[i].id == s[j].id ensures i == j {
        if i > 0 && j > 0 {
          assert rest[i - 1].id == rest[j - 1].id;
        }
      }
    }
  }

  /** Every item of `items` carries `orderId` as its order id. */
  predicate Belong(items: seq<ItemRecord>, orderId: int)
  {
    forall x :: x in items ==> x.orderId == orderId
  }

  /** What `DELETE FROM order_items WHERE order_id = ?` leaves, in table order. */
  function RowsNotOf(rows: seq<ItemRecord>, orderId: int): (r: seq<ItemRecord>)
    ensures forall x :: x in r <==> x in rows && x.orderId != orderId
    ensures UniqueIds(rows) ==> UniqueIds(r)
  {
    if rows == [] then []
    else
      var rest := RowsNotOf(rows[1..], orderId);
      UniqueCons(rows[0], rows[1..]);
      UniqueCons(rows[0], rest);
      assert rows == [rows[0]] + rows[1..];
      (if rows[0].orderId != orderId then [rows[0]] else []) + rest
  }

  /** What `SELECT * FROM order_items WHERE order_id = ?` returns, in table order. */
  function RowsOf(rows: seq<ItemRecord>, orderId: int): (r: seq<ItemRecord>)
    ensures forall x :: x in r <==> x in rows && x.orderId == orderId
    ensures (forall x :: x in rows ==> x.orderId != orderId) ==> r == []
    ensures UniqueIds(rows) ==> UniqueIds(r)
  {
    if rows == [] then []
    else
      var rest := RowsOf(rows[1..], orderId);
      UniqueCons(rows[0], rows[1..]);
      UniqueCons(rows[0], rest);
      assert rows == [rows[0]] + rows[1..];
      (if rows[0].orderId == orderId then [rows[0]] else []) + rest
  }

  /** Inserts `x` in front of the first row with a larger or equal id. */
  function InsertById(x: ItemRecord, rows: seq<ItemRecord>): seq<ItemRecord>
  {
    if rows == [] || x.id <= rows[0].id then [x] + rows
    else [rows[0]] + InsertById(x, rows[1..])
  }

  lemma {:induction false} InsertByIdPermutes(x: ItemRecord, rows: seq<ItemRecord>)
    ensures multiset(InsertById(x, rows)) == multiset(rows) + multiset{x}
  {
    if rows != [] && x.id > rows[0].id {
      InsertByIdPermutes(x, rows[1..]);
      assert rows == [rows[0]] + rows[1..];
    }
  }

  /** The rows of an insertion are the inserted row and the old rows. */
  lemma InsertByIdMembers(x: ItemRecord, rows: seq<ItemRecord>)
    ensures forall y :: y in InsertById(x, rows) <==> y == x || y in rows
  {
    InsertByIdPermutes(x, rows);
    forall y ensures y in InsertById(x, rows) <==> y == x || y in rows {
      assert y in InsertById(x, rows) <==> y in multiset(InsertById(x, rows));
      assert y in rows <==> y in multiset(rows);
    }
  }

  /** A row with an id no larger than any of an ascending list's may go in front of it. */
  lemma ConsAscending(h: ItemRecord, rest: seq<ItemRecord>)
    requires Ascending(rest)
    requires forall y :: y in rest ==> h.id <= y.id
    ensures Ascending([h] + rest)
  {
    var r := [h] + rest;
    forall i, j | 0 <= i < j < |r| ensures r[i].id <= r[j].id {
      assert r[j] == rest[j - 1] && rest[j - 1] in rest;
      if i > 0 {
        assert r[i] == rest[i - 1];
      }
    }
  }

  /** The first row of an ascending list has the least id. */
  lemma HeadIsLeast(rows: seq<ItemRecord>)
    requires Ascending(rows) && rows != []
    ensures forall y :: y in rows ==> rows[0].id <= y.id
  {
    forall y | y in rows ensures rows[0].id <= y.id {
      var k :| 0 <= k < |rows| && rows[k] == y;
      if k > 0 {
        assert rows[0].id <= rows[k].id;
      }
    }
  }

  lemma {:induction false} InsertByIdAscending(x: ItemRecord, rows: seq<ItemRecord>)
    requires Ascending(rows)
    ensures Ascending(InsertById(x, rows))
  {
    if rows == [] {
      ConsAscending(x, rows);
    } else if x.id <= rows[0].id {
      HeadIsLeast(rows);
      ConsAscending(x, rows);
    } else {
      assert Ascending(rows[1..]) by {
        forall i, j | 0 <= i < j < |rows[1..]| ensures rows[1..][i].id <= rows[1..][j].id {
          assert rows[1..][i] == rows[i + 1] && rows[1..][j] == rows[j + 1];
        }
      }
      InsertByIdAscending(x, rows[1..]);
      HeadIsLeast(rows);
      InsertByIdMembers(x, rows[1..]);
      ConsAscending(rows[0], InsertById(x, rows[1..]));
    }
  }

  /** `ORDER BY id`: the same rows, ascending by id. */
  function SortById(rows: seq<ItemRecord>): seq<ItemRecord>
  {
    if rows == [] then [] else InsertById(rows[0], SortById(rows[1..]))
  }

  /** `ORDER BY id` returns the same rows, as a multiset. */
  lemma {:induction false} SortByIdPermutes(rows: seq<ItemRecord>)
    ensures multiset(SortById(rows)) == multiset(rows)
  {
    if rows != [] {
      SortByIdPermutes(rows[1..]);
      InsertByIdPermutes(rows[0], SortById(rows[1..]));
      assert rows == [rows[0]] + rows[1..];
    }
  }

  /** `ORDER BY id` returns the rows ascending by id. */
  lemma {:induction false} SortByIdAscending(rows: seq<ItemRecord>)
    ensures Ascending(SortById(rows))
  {
    if rows != [] {
      SortByIdAscending(rows[1..]);
      InsertByIdAscending(rows[0], SortById(rows[1..]));
    }
  }

  lemma {:induction false} InsertByIdUnique(x: ItemRecord, rows: seq<ItemRecord>)
    requires UniqueIds(rows) && !HasItemId(rows, x.id)
    ensures UniqueIds(InsertById(x, rows))
  {
    UniqueCons(x, rows);
    if rows != [] && x.id > rows[0].id {
      assert rows == [rows[0]] + rows[1..];
      UniqueCons(rows[0], rows[1..]);
      var rest := InsertById(x, rows[1..]);
      InsertByIdUnique(x, rows[1..]);
      InsertByIdPermutes(x, rows[1..]);
      forall y | y in rest ensures y.id != rows[0].id {
        assert y in multiset(rest);
      }
      UniqueCons(rows[0], rest);
    }
  }

  /** With a unique primary key, `ORDER BY id` is strictly ascending: the order of the rows is determined. */
  lemma {:induction false} SortByIdStrict(rows: seq<ItemRecord>)
    requires UniqueIds(rows)
    ensures UniqueIds(SortById(rows))
    ensures StrictlyAscending(SortById(rows))
  {
    if rows != [] {
      assert rows == [rows[0]] + rows[1..];
      UniqueCons(rows[0], rows[1..]);
      var rest := SortById(rows[1..]);
      SortByIdStrict(rows[1..]);
      SortByIdPermutes(rows[1..]);
      forall y | y in rest ensures y.id != rows[0].id {
        assert y in multiset(rest);
      }
      InsertByIdUnique(rows[0], rest);
    }
    var r := SortById(rows);
    SortByIdAscending(rows);
    forall i, j | 0 <= i < j < |r| ensures r[i].id < r[j].id {
      assert r[i].id <= r[j].id;
    }
  }

  /** Rows that already ascend by id come back from `ORDER BY id` unchanged. */
  lemma {:induction false} SortByIdOfAscending(rows: seq<ItemRecord>)
    requires Ascending(rows)
    ensures SortById(rows) == rows
  {
    if rows != [] {
      SortByIdOfAscending(rows[1..]);
    }
  }

  /** `array_map(OrderItem::create, $itemRows)`: every row re-validated, the first failure thrown. */
  function ValidateRows(rows: seq<ItemRecord>): (r: Result<seq<OrderItem>, Error>)
    ensures r.Ok? <==> forall k :: 0 <= k < |rows| ==> IsValid(rows[k])
    ensures r.Ok? ==> r.value == rows
    ensures r.Err? ==> r.error == DomainError(QuantityMessage) || r.error == DomainError(PriceMessage)
  {
    if rows == [] then Ok([])
    else
      var row := rows[0];
      match OrderItems.Create(row.id, row.orderId, row.productName, row.quantity, row.priceCents)
      case Err(e) => Err(e)
      case Ok(item) =>
        match ValidateRows(rows[1..])
        case Err(e) => Err(e)
        case Ok(items) => Ok([item] + items)
  }

  /** The upsert of `save`: INSERT a new row, or UPDATE only state and updated_at of an existing one. */
  function UpsertOrder(orders: map<int, OrderRow>, d: OrderData): (m: map<int, OrderRow>)
    ensures m.Keys == orders.Keys + {d.id}
    ensures forall k :: k in orders && k != d.id ==> m[k] == orders[k]
    ensures m[d.id].state == Value(d.state) && m[d.id].updatedAt == d.updatedAt
    ensures m[d.id].createdAt == if d.id in orders then orders[d.id].createdAt else d.createdAt
  {
    if d.id in orders then orders[d.id := orders[d.id].(state := Value(d.state), updatedAt := d.updatedAt)]
    else orders[d.id := OrderRow(Value(d.state), d.createdAt, d.updatedAt)]
  }

  /** The rows after the item INSERTs of `save`, and the exception that stopped them, if any. */
  datatype Inserted = Inserted(rows: seq<ItemRecord>, failure: Option<Error>)

  /** The `foreach` of INSERTs: each row is checked against the foreign key, then the primary key. */
  function InsertItems(orders: map<int, OrderRow>, rows: seq<ItemRecord>, items: seq<OrderItem>): (r: Inserted)
    ensures r.failure.None? ==> r.rows == rows + items
    ensures r.failure.Some? ==> exists k :: 0 <= k < |items| && r.rows == rows + items[..k]
    ensures UniqueIds(rows) ==> UniqueIds(r.rows)
    decreases |items|
  {
    if items == [] then Inserted(rows, None)
    else
      var x := items[0];
      if x.orderId !in orders then
        assert rows == rows + items[..0];
        Inserted(rows, Some(MissingParentOrder(x.orderId)))
      else if HasItemId(rows, x.id) then
        assert rows == rows + items[..0];
        Inserted(rows, Some(DuplicateItemId(x.id)))
      else
        assert rows + items == (rows + [x]) + items[1..];
        var r := InsertItems(orders, rows + [x], items[1..]);
        assert r.failure.Some? ==> exists k :: 0 <= k < |items| && r.rows == rows + items[..k] by {
          if r.failure.Some? {
            var k :| 0 <= k < |items[1..]| && r.rows == (rows + [x]) + items[1..][..k];
            assert (rows + [x]) + items[1..][..k] == rows + items[..k + 1];
          }
        }
        r
  }

  /** The tables after `save`, and whether it returned or threw. */
  datatype Saved = Saved(db: Db, outcome: Outcome<Error>)

  /** `OrderRepository::save`: upsert the order row, delete its item rows, insert its items. No transaction. */
  function SaveOrder(db: Db, d: OrderData): (r: Saved)
    ensures r.db.audits == db.audits
    ensures r.db.orders == UpsertOrder(db.orders, d)
    ensures r.outcome.Pass? ==> r.db.items == RowsNotOf(db.items, d.id) + d.items
    ensures r.outcome.Fail? ==>
      exists k :: 0 <= k < |d.items| && r.db.items == RowsNotOf(db.items, d.id) + d.items[..k]
    ensures UniqueIds(db.items) ==> UniqueIds(r.db.items)
  {
    var orders := UpsertOrder(db.orders, d);
    var inserted := InsertItems(orders, RowsNotOf(db.items, d.id), d.items);
    Saved(Db(orders, inserted.rows, db.audits),
          if inserted.failure.Some? then Fail(inserted.failure.value) else Pass)
  }

  /** `OrderRepository::findById`: null without a row, else the order with its stored state and its items by id. */
  function LoadOrder(db: Db, id: int): (r: Result<Option<OrderData>, Error>)
    ensures r == Ok(None) <==> id !in db.orders
    ensures id in db.orders && From(db.orders[id].state).Err? ==> r == Err(InvalidStateValue(db.orders[id].state))
    ensures r.Ok? && r.value.Some? ==>
      var d, row := r.value.value, db.orders[id];
      && d.id == id && Value(d.state) == row.state
      && d.createdAt == row.createdAt && d.updatedAt == row.updatedAt
  {
    if id !in db.orders then Ok(None)
    else
      var row := db.orders[id];
      match From(row.state)
      case Err(e) => Err(e)
      case Ok(state) =>
        match ValidateRows(SortById(RowsOf(db.items, id)))
        case Err(e) => Err(e)
        case Ok(items) => Ok(Some(OrderData(id, state, row.createdAt, row.updatedAt, items)))
  }

  /** `findById` returns an order rather than null or an exception. */
  predicate Finds(db: Db, id: int)
  {
    LoadOrder(db, id).Ok? && LoadOrder(db, id).value.Some?
  }

  /** The order `findById` returns. */
  function Found(db: Db, id: int): OrderData
    requires Finds(db, id)
  {
    LoadOrder(db, id).value.value
  }

  /** `OrderRepository::saveAudit`: one appended row; the audit's own id is not stored. */
  function AppendAudit(db: Db, a: OrderAudit): (r: Db)
    ensures r.orders == db.orders && r.items == db.items
    ensures r.audits == db.audits + [AuditRow(a.orderId, a.action, a.reason, a.createdAt)]
  {
    db.(audits := db.audits + [AuditRow(a.orderId, a.action, a.reason, a.createdAt)])
  }

  /** Two row lists can share a table exactly when each is unique and no id occurs in both. */
  lemma UniqueConcat(a: seq<ItemRecord>, b: seq<ItemRecord>)
    ensures UniqueIds(a + b) <==>
      UniqueIds(a) && UniqueIds(b) && forall x, y :: x in a && y in b ==> x.id != y.id
  {
    var s := a + b;
    assert forall k :: 0 <= k < |a| ==> s[k] == a[k];
    assert forall k :: 0 <= k < |b| ==> s[|a| + k] == b[k];
    if UniqueIds(s) {
      forall i, j | 0 <= i < |b| && 0 <= j < |b| && b[i].id == b[j].id ensures i == j {
        assert s[|a| + i].id == s[|a| + j].id;
      }
      forall x, y | x in a && y in b ensures x.id != y.id {
        var i :| 0 <= i < |a| && a[i] == x;
        var j :| 0 <= j < |b| && b[j] == y;
        assert s[i] == x && s[|a| + j] == y;
      }
    }
    if UniqueIds(a) && UniqueIds(b) && forall x, y :: x in a && y in b ==> x.id != y.id {
      assert forall p, q :: 0 <= p < |a| && 0 <= q < |b| ==> a[p].id != b[q].id by {
        forall p, q | 0 <= p < |a| && 0 <= q < |b| ensures a[p].id != b[q].id {
          assert a[p] in a && b[q] in b;
        }
      }
      forall i, j | 0 <= i < |s| && 0 <= j < |s| && s[i].id == s[j].id ensures i == j {
        if i < |a| && j < |a| {
          assert a[i].id == a[j].id;
        } else if i >= |a| && j >= |a| {
          assert b[i - |a|].id == b[j - |a|].id;
        }
      }
    }
  }

  /** An item with a parent row and a fresh id is inserted, and the loop goes on with the next. */
  lemma InsertItemsStep(orders: map<int, OrderRow>, rows: seq<ItemRecord>, items: seq<OrderItem>)
    requires items != [] && items[0].orderId in orders && !HasItemId(rows, items[0].id)
    ensures InsertItems(orders, rows, items) == InsertItems(orders, rows + [items[0]], items[1..])
  {
  }

  /** A row whose id is not taken yet may be appended without breaking the key. */
  lemma AppendFreshId(rows: seq<ItemRecord>, x: ItemRecord)
    requires UniqueIds(rows) && !HasItemId(rows, x.id)
    ensures UniqueIds(rows + [x])
  {
    UniqueConcat(rows, [x]);
  }

  /** The INSERT loop runs to the end exactly when every item has a parent order row and the resulting table keeps its primary key unique. */
  lemma {:induction false} InsertItemsSucceedsIff(orders: map<int, OrderRow>, rows: seq<ItemRecord>, items: seq<OrderItem>)
    requires UniqueIds(rows)
    ensures InsertItems(orders, rows, items).failure.None? <==>
      (forall x :: x in items ==> x.orderId in orders) && UniqueIds(rows + items)
    decreases |items|
  {
    if items == [] {
      assert rows + items == rows;
    } else {
      var x := items[0];
      assert rows + items == (rows + [x]) + items[1..];
      UniqueConcat(rows, items);
      UniqueConcat(rows, [x]);
      assert x in items;
      if x.orderId in orders && !HasItemId(rows, x.id) {
        UniqueConcat(rows + [x], items[1..]);
        InsertItemsSucceedsIff(orders, rows + [x], items[1..]);
        assert forall y :: y in items <==> y == x || y in items[1..] by {
          assert items == [x] + items[1..];
        }
        forall y, z | y in rows && z in items ensures y.id != z.id <==> y in rows + [x] && z in items[1..] ==> y.id != z.id {
        }
      }
    }
  }

  /** `save` returns without throwing exactly when every item has a parent row and the rewritten item table keeps its key unique. */
  lemma SaveSucceedsIff(db: Db, d: OrderData)
    requires UniqueIds(db.items)
    ensures SaveOrder(db, d).outcome.Pass? <==>
      && (forall x :: x in d.items ==> x.orderId in UpsertOrder(db.orders, d))
      && UniqueIds(RowsNotOf(db.items, d.id) + d.items)
  {
    InsertItemsSucceedsIff(UpsertOrder(db.orders, d), RowsNotOf(db.items, d.id), d.items);
  }

  lemma {:induction false} RowsOfConcat(a: seq<ItemRecord>, b: seq<ItemRecord>, orderId: int)
    ensures RowsOf(a + b, orderId) == RowsOf(a, orderId) + RowsOf(b, orderId)
  {
    if a == [] {
      assert a + b == b;
    } else {
      assert (a + b)[1..] == a[1..] + b;
      RowsOfConcat(a[1..], b, orderId);
    }
  }

  lemma {:induction false} RowsOfBelonging(items: seq<ItemRecord>, orderId: int)
    requires Belong(items, orderId)
    ensures RowsOf(items, orderId) == items
  {
    if items != [] {
      assert items[0] in items;
      RowsOfBelonging(items[1..], orderId);
      assert items == [items[0]] + items[1..];
    }
  }

  lemma {:induction false} RowsOfAfterDelete(rows: seq<ItemRecord>, deleted: int, orderId: int)
    ensures RowsOf(RowsNotOf(rows, deleted), orderId) == if orderId == deleted then [] else RowsOf(rows, orderId)
  {
    if rows != [] {
      RowsOfAfterDelete(rows[1..], deleted, orderId);
      var head := if rows[0].orderId != deleted then [rows[0]] else [];
      RowsOfConcat(head, RowsNotOf(rows[1..], deleted), orderId);
    }
  }

  /** After a successful `save`, the item rows under the order's id are exactly its items, and every other order's rows are untouched. */
  lemma SaveReplacesItems(db: Db, d: OrderData, orderId: int)
    requires Belong(d.items, d.id)
    requires SaveOrder(db, d).outcome.Pass?
    ensures RowsOf(SaveOrder(db, d).db.items, orderId) == if orderId == d.id then d.items else RowsOf(db.items, orderId)
  {
    RowsOfConcat(RowsNotOf(db.items, d.id), d.items, orderId);
    RowsOfAfterDelete(db.items, d.id, orderId);
    if orderId == d.id {
      RowsOfBelonging(d.items, orderId);
    }
  }

  /**
   * Round trip: after `save(o)`, `findById(o.id)` returns o's id, state and updatedAt, the
   * created_at first stored under that id, and o's items sorted by id.
   */
  lemma SaveThenLoad(db: Db, d: OrderData)
    requires Belong(d.items, d.id)
    requires SaveOrder(db, d).outcome.Pass?
    ensures var loaded := LoadOrder(SaveOrder(db, d).db, d.id);
      && loaded.Ok? && loaded.value.Some?
      && loaded.value.value.id == d.id
      && loaded.value.value.state == d.state
      && loaded.value.value.updatedAt == d.updatedAt
      && loaded.value.value.createdAt == (if d.id in db.orders then db.orders[d.id].createdAt else d.createdAt)
      && loaded.value.value.items == SortById(d.items)
  {
    SaveReplacesItems(db, d, d.id);
    FromValue(d.state);
    SortedItemsValidate(d.items);
  }

  /** Sorting items that are all valid leaves nothing for `OrderItem::create` to reject. */
  lemma SortedItemsValidate(items: seq<OrderItem>)
    ensures ValidateRows(SortById(items)) == Ok(SortById(items))
  {
    var sorted := SortById(items);
    SortByIdPermutes(items);
    forall k | 0 <= k < |sorted| ensures IsValid(sorted[k]) {
      assert sorted[k] in multiset(items);
    }
  }

  /** The round trip preserves the total, and returns o's items exactly when they already ascend by id. */
  lemma SaveThenLoadItems(db: Db, d: OrderData)
    requires Belong(d.items, d.id)
    requires SaveOrder(db, d).outcome.Pass?
    ensures var loaded := LoadOrder(SaveOrder(db, d).db, d.id);
      && loaded.Ok? && loaded.value.Some?
      && ItemsTotal(loaded.value.value.items) == ItemsTotal(d.items)
      && (Ascending(d.items) ==> loaded.value.value.items == d.items)
  {
    SaveThenLoad(db, d);
    var loaded := LoadOrder(SaveOrder(db, d).db, d.id).value.value;
    SortByIdPermutes(d.items);
    ItemsTotalPermutation(loaded.items, d.items);
    if Ascending(d.items) {
      SortByIdOfAscending(d.items);
    }
  }

  /** `save` of one order leaves what `findById` returns for every other order unchanged. */
  lemma SaveKeepsOtherOrders(db: Db, d: OrderData, other: int)
    requires Belong(d.items, d.id)
    requires SaveOrder(db, d).outcome.Pass?
    requires other != d.id
    ensures LoadOrder(SaveOrder(db, d).db, other) == LoadOrder(db, other)
  {
    var saved := SaveOrder(db, d).db;
    SaveReplacesItems(db, d, other);
    LoadOrderCongruent(saved, db, other);
  }

  /** `findById` reads only the order's own row and its own item rows. */
  lemma LoadOrderCongruent(a: Db, b: Db, id: int)
    requires (id in a.orders <==> id in b.orders) && (id in a.orders ==> a.orders[id] == b.orders[id])
    requires RowsOf(a.items, id) == RowsOf(b.items, id)
    ensures LoadOrder(a, id) == LoadOrder(b, id)
  {
  }

  /** The items `findById` loads are the order's rows sorted by id. */
  lemma LoadedItems(db: Db, d: OrderData)
    requires LoadOrder(db, d.id) == Ok(Some(d))
    ensures d.items == SortById(RowsOf(db.items, d.id))
  {
    var row := db.orders[d.id];
    var v := ValidateRows(SortById(RowsOf(db.items, d.id)));
    assert From(row.state).Ok?;
    assert v.Ok?;
  }

  /** `findById` returns exactly the order's rows, ascending by id. */
  lemma LoadedItemsSorted(db: Db, d: OrderData)
    requires LoadOrder(db, d.id) == Ok(Some(d))
    ensures multiset(d.items) == multiset(RowsOf(db.items, d.id))
    ensures Ascending(d.items)
  {
    LoadedItems(db, d);
    SortByIdPermutes(RowsOf(db.items, d.id));
    SortByIdAscending(RowsOf(db.items, d.id));
  }

  lemma SortByIdMembers(rows: seq<ItemRecord>)
    ensures forall y :: y in SortById(rows) <==> y in rows
  {
    SortByIdPermutes(rows);
    forall y ensures y in SortById(rows) <==> y in rows {
      assert y in SortById(rows) <==> y in multiset(SortById(rows));
    }
  }

  /** Every item `findById` loads carries the order's id, whatever else the table holds. */
  lemma LoadedItemsBelong(db: Db, d: OrderData)
    requires LoadOrder(db, d.id) == Ok(Some(d))
    ensures Belong(d.items, d.id)
  {
    LoadedItems(db, d);
    SortByIdMembers(RowsOf(db.items, d.id));
  }

  /** Rows of different orders have different ids, by the primary key. */
  lemma OwnedAndKeptDisjoint(rows: seq<ItemRecord>, orderId: int)
    requires UniqueIds(rows)
    ensures forall x, y :: x in RowsNotOf(rows, orderId) && y in RowsOf(rows, orderId) ==> x.id != y.id
  {
    forall x, y | x in RowsNotOf(rows, orderId) && y in RowsOf(rows, orderId) ensures x.id != y.id {
      var i :| 0 <= i < |rows| && rows[i] == x;
      var j :| 0 <= j < |rows| && rows[j] == y;
    }
  }

  /**
   * The items `findById` loads are the rows under the order's id: they belong to it,
   * and beside the other orders' rows they keep the primary key unique.
   */
  lemma LoadedItemsPartitionTable(db: Db, d: OrderData)
    requires UniqueIds(db.items)
    requires LoadOrder(db, d.id) == Ok(Some(d))
    ensures Belong(d.items, d.id)
    ensures UniqueIds(RowsNotOf(db.items, d.id) + d.items)
    ensures forall z :: z in db.items <==> z in RowsNotOf(db.items, d.id) + d.items
  {
    var owned := RowsOf(db.items, d.id);
    var kept := RowsNotOf(db.items, d.id);
    LoadedItems(db, d);
    SortByIdStrict(owned);
    SortByIdMembers(owned);
    OwnedAndKeptDisjoint(db.items, d.id);
    UniqueConcat(kept, d.items);
  }

  /** No id of `b` occurs in `a` exactly when no id of `b` is already taken in `a`. */
  lemma DisjointIffFresh(a: seq<ItemRecord>, b: seq<ItemRecord>)
    ensures (forall x, y :: x in a && y in b ==> x.id != y.id) <==>
      forall y :: y in b ==> !HasItemId(a, y.id)
  {
  }

  /** Two tables with the same rows have the same ids in use. */
  lemma SameRowsSameIds(a: seq<ItemRecord>, b: seq<ItemRecord>)
    requires forall z :: z in a <==> z in b
    ensures forall id :: HasItemId(a, id) <==> HasItemId(b, id)
  {
  }

  /** Appending to a table with unique ids keeps them unique iff the new ids are fresh. */
  lemma AppendKeepsUniqueIff(table: seq<ItemRecord>, base: seq<ItemRecord>, extra: seq<ItemRecord>)
    requires UniqueIds(base)
    requires forall z :: z in table <==> z in base
    ensures UniqueIds(base + extra) <==>
      UniqueIds(extra) && forall x :: x in extra ==> !HasItemId(table, x.id)
  {
    SameRowsSameIds(table, base);
    UniqueConcat(base, extra);
    DisjointIffFresh(base, extra);
  }

  /**
   * Saving an order whose items are `base` followed by `extra`, where `base` already sits in
   * the table under the order's id, succeeds exactly when the ids of `extra` are fresh.
   */
  lemma ExtendSucceedsIff(db: Db, e: OrderData, base: seq<ItemRecord>, extra: seq<ItemRecord>)
    requires UniqueIds(db.items)
    requires e.items == base + extra && Belong(e.items, e.id)
    requires UniqueIds(RowsNotOf(db.items, e.id) + base)
    requires forall z :: z in db.items <==> z in RowsNotOf(db.items, e.id) + base
    ensures SaveOrder(db, e).outcome.Pass? <==>
      UniqueIds(extra) && forall x :: x in extra ==> !HasItemId(db.items, x.id)
  {
    var kept := RowsNotOf(db.items, e.id);
    assert kept + e.items == (kept + base) + extra;
    AppendKeepsUniqueIff(db.items, kept + base, extra);
    SaveOwnItemsSucceedsIff(db, e);
  }

  /** When every item belongs to the saved order, only the primary key can stop the save. */
  lemma SaveOwnItemsSucceedsIff(db: Db, d: OrderData)
    requires UniqueIds(db.items)
    requires Belong(d.items, d.id)
    ensures SaveOrder(db, d).outcome.Pass? <==> UniqueIds(RowsNotOf(db.items, d.id) + d.items)
  {
    SaveSucceedsIff(db, d);
  }

  /**
   * Saving a loaded order again, with `extra` items appended, succeeds exactly when the
   * extra items have ids unique among themselves and unused anywhere in order_items.
   */
  lemma ResaveSucceedsIff(db: Db, d: OrderData, e: OrderData, extra: seq<OrderItem>)
    requires UniqueIds(db.items)
    requires LoadOrder(db, d.id) == Ok(Some(d))
    requires e.id == d.id && e.items == d.items + extra && Belong(extra, d.id)
    ensures SaveOrder(db, e).outcome.Pass? <==>
      UniqueIds(extra) && forall x :: x in extra ==> !HasItemId(db.items, x.id)
  {
    LoadedItemsPartitionTable(db, d);
    ExtendSucceedsIff(db, e, d.items, extra);
  }

  /** The first row that fails `OrderItem::create` is the one whose exception `findById` throws. */
  lemma {:induction false} ValidateRowsStopsAtFirst(rows: seq<ItemRecord>, i: int)
    requires 0 <= i < |rows| && !IsValid(rows[i])
    requires forall k :: 0 <= k < i ==> IsValid(rows[k])
    ensures ValidateRows(rows) ==
      Err(OrderItems.Create(rows[i].id, rows[i].orderId, rows[i].productName, rows[i].quantity, rows[i].priceCents).error)
  {
    if i > 0 {
      ValidateRowsStopsAtFirst(rows[1..], i - 1);
    }
  }

  /** `findById` re-validates the stored rows: it returns an order exactly when every item row of it is valid. */
  lemma LoadOrderRejectsInvalidRow(db: Db, id: int)
    requires id in db.orders && From(db.orders[id].state).Ok?
    ensures LoadOrder(db, id).Ok? <==> forall x :: x in RowsOf(db.items, id) ==> IsValid(x)
  {
    var rows := RowsOf(db.items, id);
    SortByIdMembers(rows);
    assert forall k :: 0 <= k < |SortById(rows)| ==> SortById(rows)[k] in rows;
  }

  /**
   * The exception `findById` throws on invalid stored rows: that of the first invalid row in id order,
   * with the quantity message if its quantity is below 1 and the price message otherwise.
   */
  lemma LoadOrderThrowsFirstInvalid(db: Db, id: int, i: int)
    requires id in db.orders && From(db.orders[id].state).Ok?
    requires 0 <= i < |SortById(RowsOf(db.items, id))|
    requires !IsValid(SortById(RowsOf(db.items, id))[i])
    requires forall k :: 0 <= k < i ==> IsValid(SortById(RowsOf(db.items, id))[k])
    ensures var bad := SortById(RowsOf(db.items, id))[i];
      LoadOrder(db, id) == Err(DomainError(if bad.quantity < 1 then QuantityMessage else PriceMessage))
  {
    ValidateRowsStopsAtFirst(SortById(RowsOf(db.items, id)), i);
  }

  /** `OrderRepository` over its three tables; every effect it completes goes to the shared log. */
  class OrderRepository {
    var orders: map<int, OrderRow>
    var itemRows: seq<ItemRecord>
    var auditRows: seq<AuditRow>
    const log: EffectLog

    function Tables(): Db
      reads this
    {
      Db(orders, itemRows, auditRows)
    }

    /** The primary key of order_items holds. */
    ghost predicate Valid()
      reads this
    {
      UniqueIds(itemRows)
    }

    /** Empty tables, as after the migrations. */
    constructor(log: EffectLog)
      ensures Valid() && Tables() == Db(map[], [], []) && this.log == log
    {
      orders := map[];
      itemRows := [];
      auditRows := [];
      this.log := log;
    }

    /**
     * `save`: the SELECT decides between UPDATE and INSERT, the DELETE drops the order's
     * item rows, and the `foreach` inserts the items one by one until one is refused.
     */
    method Save(order: Order) returns (r: Outcome<Error>)
      requires Valid()
      modifies this, log
      ensures Valid()
      ensures Saved(Tables(), r) == SaveOrder(old(Tables()), order.Data())
      ensures log.events == old(log.events) + if r.Pass? then [OrderSaved(order.id)] else []
    {
      var d := order.Data();
      if d.id in orders {
        orders := orders[d.id := orders[d.id].(state := Value(d.state), updatedAt := d.updatedAt)];
      } else {
        orders := orders[d.id := OrderRow(Value(d.state), d.createdAt, d.updatedAt)];
      }
      itemRows := RowsNotOf(itemRows, d.id);
      ghost var target := InsertItems(orders, itemRows, d.items);
      var i := 0;
      while i < |d.items|
        invariant 0 <= i <= |d.items|
        invariant UniqueIds(itemRows)
        invariant InsertItems(orders, itemRows, d.items[i..]) == target
        invariant orders == UpsertOrder(old(orders), d) && auditRows == old(auditRows)
        invariant log.events == old(log.events)
      {
        var x := d.items[i];
        assert d.items[i..][0] == x && d.items[i..][1..] == d.items[i + 1..];
        if x.orderId !in orders {
          return Fail(MissingParentOrder(x.orderId));
        }
        if HasItemId(itemRows, x.id) {
          return Fail(DuplicateItemId(x.id));
        }
        InsertItemsStep(orders, itemRows, d.items[i..]);
        AppendFreshId(itemRows, x);
        itemRows := itemRows + [x];
        i := i + 1;
      }
      log.events := log.events + [OrderSaved(d.id)];
      r := Pass;
    }

    /**
     * `findById`: null without a row; otherwise the stored state is parsed, then the item
     * rows are read in id order and each is re-validated, the first invalid one throwing.
     */
    method FindById(id: int) returns (r: Result<Option<Order>, Error>)
      ensures LoadOrder(Tables(), id) ==
        match r
        case Err(e) => Err(e)
        case Ok(None) => Ok(None)
        case Ok(Some(o)) => Ok(Some(o.Data()))
      ensures r.Ok? && r.value.Some? ==> fresh(r.value.value)
    {
      if id !in orders {
        return Ok(None);
      }
      var row := orders[id];
      var state := From(row.state);
      if state.Err? {
        return Err(state.error);
      }
      var rows := SortById(RowsOf(itemRows, id));
      var items: seq<OrderItem> := [];
      var i := 0;
      while i < |rows|
        invariant 0 <= i <= |rows|
        invariant items == rows[..i]
        invariant forall k :: 0 <= k < i ==> IsValid(rows[k])
      {
        var created := OrderItems.Create(rows[i].id, rows[i].orderId, rows[i].productName, rows[i].quantity, rows[i].priceCents);
        if created.Err? {
          ValidateRowsStopsAtFirst(rows, i);
          return Err(created.error);
        }
        items := items + [created.value];
        i := i + 1;
      }
      assert items == rows;
      var order := new Order.Rehydrate(OrderData(id, state.value, row.createdAt, row.updatedAt, items));
      r := Ok(Some(order));
    }

    /** `saveAudit`: appends one row to order_audit. */
    method SaveAudit(audit: OrderAudit)
      requires Valid()
      modifies this, log
      ensures Valid()
      ensures Tables() == AppendAudit(old(Tables()), audit)
      ensures log.events == old(log.events) + [AuditSaved(audit.orderId)]
    {
      auditRows := auditRows + [AuditRow(audit.orderId, audit.action, audit.reason, audit.createdAt)];
      log.events := log.events + [AuditSaved(audit.orderId)];
    }
  }
}
