/**
 * The remote `cart` table as an in-memory sequence of rows, and the handful of
 * queries the storefront issues against it: select, update, insert and delete,
 * each narrowed by an equality or greater-than filter on one column.
 */
module CartTable {

  /** A persisted cart record `{id, product_id, quantity}`. */
  datatype Row = Row(id: int, productId: int, quantity: int)

  datatype Column = Id | ProductId

  /** The filters of the query builder the storefront uses: `.eq(column, v)` and `.gt(column, v)`. */
  datatype Filter = Eq(column: Column, value: int) | Gt(column: Column, value: int)

  /** What a remote call answers: data, or the error object the client reports. */
  datatype Reply<T> = Ok(value: T) | StoreError

  function Field(row: Row, c: Column): int {
    match c
    case Id => row.id
    case ProductId => row.productId
  }

  predicate Matches(row: Row, f: Filter) {
    match f
    case Eq(c, v) => Field(row, c) == v
    case Gt(c, v) => Field(row, c) > v
  }

  /** The rows a select narrowed by f returns, in table order. */
  function Selected(rows: seq<Row>, f: Filter): (r: seq<Row>)
    ensures |r| <= |rows|
    ensures forall row :: row in r <==> row in rows && Matches(row, f)
  {
    if rows == [] then []
    else (if Matches(rows[0], f) then [rows[0]] else []) + Selected(rows[1..], f)
  }

  /** The rows a delete narrowed by f leaves behind, in table order. */
  function Remaining(rows: seq<Row>, f: Filter): (r: seq<Row>)
    ensures |r| <= |rows|
    ensures forall row :: row in r <==> row in rows && !Matches(row, f)
  {
    if rows == [] then []
    else (if Matches(rows[0], f) then [] else [rows[0]]) + Remaining(rows[1..], f)
  }

  /** The table after `update({quantity: q})` narrowed by f: matching rows take quantity q, in place. */
  function Updated(rows: seq<Row>, f: Filter, q: int): (r: seq<Row>)
    ensures |r| == |rows|
    ensures forall i :: 0 <= i < |rows| ==>
      r[i] == if Matches(rows[i], f) then rows[i].(quantity := q) else rows[i]
  {
    if rows == [] then []
    else [if Matches(rows[0], f) then rows[0].(quantity := q) else rows[0]] + Updated(rows[1..], f, q)
  }

  /** Selecting distributes over concatenation, so a select keeps the table's order. */
  lemma {:induction false} SelectedAppend(a: seq<Row>, b: seq<Row>, f: Filter)
    ensures Selected(a + b, f) == Selected(a, f) + Selected(b, f)
  {
    if a != [] {
      assert (a + b)[1..] == a[1..] + b;
      SelectedAppend(a[1..], b, f);
    } else {
      assert a + b == b;
    }
  }

  /** Deleting distributes over concatenation, so a delete keeps the survivors' order. */
  lemma {:induction false} RemainingAppend(a: seq<Row>, b: seq<Row>, f: Filter)
    ensures Remaining(a + b, f) == Remaining(a, f) + Remaining(b, f)
  {
    if a != [] {
      assert (a + b)[1..] == a[1..] + b;
      RemainingAppend(a[1..], b, f);
    } else {
      assert a + b == b;
    }
  }

  /** Every row is either selected or left behind by a delete with the same filter. */
  lemma {:induction false} SelectedRemainingPartition(rows: seq<Row>, f: Filter)
    ensures |Selected(rows, f)| + |Remaining(rows, f)| == |rows|
  {
    if rows != [] {
      SelectedRemainingPartition(rows[1..], f);
    }
  }

  /** A select is empty exactly when no row matches its filter. */
  lemma SelectedEmpty(rows: seq<Row>, f: Filter)
    ensures Selected(rows, f) == [] <==> forall i :: 0 <= i < |rows| ==> !Matches(rows[i], f)
  {
  }

  /** An update that sets the quantity every matching row already has changes nothing. */
  lemma UpdatedUnchanged(rows: seq<Row>, f: Filter, q: int)
    requires forall i :: 0 <= i < |rows| && Matches(rows[i], f) ==> rows[i].quantity == q
    ensures Updated(rows, f, q) == rows
  {
  }

  /** No two rows share an identifier. */
  ghost predicate IdsDistinct(rows: seq<Row>) {
    forall i, j :: 0 <= i < j < |rows| ==> rows[i].id != rows[j].id
  }

  /** A delete keeps identifiers distinct. */
  lemma {:induction false} RemainingIdsDistinct(rows: seq<Row>, f: Filter)
    requires IdsDistinct(rows)
    ensures IdsDistinct(Remaining(rows, f))
  {
    if rows != [] {
      var rest := Remaining(rows[1..], f);
      RemainingIdsDistinct(rows[1..], f);
      if !Matches(rows[0], f) {
        forall j | 0 <= j < |rest| ensures rows[0].id != rest[j].id {
          assert rest[j] in rest;
          var k :| 0 <= k < |rows[1..]| && rows[1..][k] == rest[j];
          assert rows[k + 1] == rest[j];
        }
      }
    }
  }

  /** A delete of every row with an identifier above 0 empties a table whose identifiers are positive. */
  lemma DeleteAboveZeroEmpties(rows: seq<Row>)
    requires forall i :: 0 <= i < |rows| ==> rows[i].id > 0
    ensures Remaining(rows, Gt(Id, 0)) == []
  {
  }

  /**
   * The hosted table. The store assigns `id` on insert; the model assumes it hands
   * out increasing ids from 1, so every row's id is positive, below the next id and
   * unique (`Valid`).
   */
  class Table {
    var rows: seq<Row>
    var nextId: int

    ghost predicate Valid()
      reads this
    {
      && 0 < nextId
      && (forall row :: row in rows ==> 0 < row.id < nextId)
      && IdsDistinct(rows)
    }

    constructor ()
      ensures Valid() && rows == [] && nextId == 1
    {
      rows := [];
      nextId := 1;
    }

    /** `select('*')`: every row, in table order, unless the store fails. */
    method SelectAll(fault: bool) returns (r: Reply<seq<Row>>)
      ensures fault ==> r == StoreError
      ensures !fault ==> r == Ok(rows)
    {
      if fault {
        return StoreError;
      }
      r := Ok(rows);
    }

    /** `select('*').<filter>`: the matching rows, unless the store fails. */
    method Select(f: Filter, fault: bool) returns (r: Reply<seq<Row>>)
      ensures fault ==> r == StoreError
      ensures !fault ==> r.Ok? && (forall row :: row in r.value <==> row in rows && Matches(row, f))
      ensures !fault ==> r == Ok(Selected(rows, f))
    {
      if fault {
        return StoreError;
      }
      r := Ok(Selected(rows, f));
    }

    /** `update({quantity: q}).<filter>`; a failed call leaves the table as it was. */
    method Update(f: Filter, q: int, fault: bool) returns (ok: bool)
      requires Valid()
      modifies this
      ensures Valid() && ok == !fault && nextId == old(nextId)
      ensures rows == if ok then Updated(old(rows), f, q) else old(rows)
    {
      if fault {
        return false;
      }
      rows := Updated(rows, f, q);
      ok := true;
    }

    /** `insert([{product_id, quantity}])`: the store appends a row under the next id it hands out. */
    method Insert(productId: int, quantity: int, fault: bool) returns (ok: bool)
      requires Valid()
      modifies this
      ensures Valid() && ok == !fault
      ensures rows == if ok then old(rows) + [Row(old(nextId), productId, quantity)] else old(rows)
      ensures nextId == if ok then old(nextId) + 1 else old(nextId)
    {
      if fault {
        return false;
      }
      rows := rows + [Row(nextId, productId, quantity)];
      nextId := nextId + 1;
      ok := true;
    }

    /** `delete().<filter>`; a failed call leaves the table as it was. */
    method Delete(f: Filter, fault: bool) returns (ok: bool)
      requires Valid()
      modifies this
      ensures Valid() && ok == !fault && nextId == old(nextId)
      ensures rows == if ok then Remaining(old(rows), f) else old(rows)
    {
      if fault {
        return false;
      }
      RemainingIdsDistinct(rows, f);
      rows := Remaining(rows, f);
      ok := true;
    }
  }
}
