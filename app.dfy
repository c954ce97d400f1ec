/**
 * The root component: the add-to-cart upsert on the cart table and the removal
 * of a product from the table and from its local item list.
 */
module App {
  import opened CartTable
  import Cart

  /** The filter `.eq('product_id', productId)`. */
  function ForProduct(productId: int): Filter {
    Eq(ProductId, productId)
  }

  /**
   * The table after a successful add-to-cart: when some row already holds the product,
   * every such row takes the new quantity (replacing, never adding to, the old one);
   * otherwise one row is appended under the fresh id. Existing rows never move or
   * change identity.
   */
  function Upsert(rows: seq<Row>, productId: int, quantity: int, freshId: int): (r: seq<Row>)
    ensures |rows| <= |r| <= |rows| + 1
    ensures forall i :: 0 <= i < |rows| ==> r[i].id == rows[i].id && r[i].productId == rows[i].productId
    ensures forall i :: 0 <= i < |rows| && rows[i].productId != productId ==> r[i] == rows[i]
  {
    if Selected(rows, ForProduct(productId)) != [] then Updated(rows, ForProduct(productId), quantity)
    else rows + [Row(freshId, productId, quantity)]
  }

  /** A product not yet in the table gains exactly one row, appended, and nothing else moves. */
  lemma UpsertInsertsWhenAbsent(rows: seq<Row>, productId: int, quantity: int, freshId: int)
    requires forall i :: 0 <= i < |rows| ==> rows[i].productId != productId
    ensures |Upsert(rows, productId, quantity, freshId)| == |rows| + 1
    ensures Upsert(rows, productId, quantity, freshId)[..|rows|] == rows
    ensures Upsert(rows, productId, quantity, freshId)[|rows|] == Row(freshId, productId, quantity)
  {
    SelectedEmpty(rows, ForProduct(productId));
    assert (rows + [Row(freshId, productId, quantity)])[..|rows|] == rows;
  }

  /**
   * A product already in the table keeps its rows in place; each of them takes the
   * passed quantity, whatever it held before, and every other row is untouched.
   */
  lemma UpsertReplacesWhenPresent(rows: seq<Row>, productId: int, quantity: int, freshId: int, k: int)
    requires 0 <= k < |rows| && rows[k].productId == productId
    ensures |Upsert(rows, productId, quantity, freshId)| == |rows|
    ensures forall i :: 0 <= i < |rows| ==>
      Upsert(rows, productId, quantity, freshId)[i] ==
        if rows[i].productId == productId then Row(rows[i].id, productId, quantity) else rows[i]
  {
    SelectedEmpty(rows, ForProduct(productId));
  }

  /** Add-to-cart never touches the rows of another product: their sub-table, order included, is the same. */
  lemma UpsertKeepsOtherProducts(rows: seq<Row>, productId: int, quantity: int, freshId: int, other: int)
    requires other != productId
    ensures Selected(Upsert(rows, productId, quantity, freshId), ForProduct(other)) == Selected(rows, ForProduct(other))
  {
    if Selected(rows, ForProduct(productId)) != [] {
      UpdatedKeepsOthers(rows, productId, quantity, other);
    } else {
      SelectedAppend(rows, [Row(freshId, productId, quantity)], ForProduct(other));
      assert Selected([Row(freshId, productId, quantity)], ForProduct(other)) == [];
    }
  }

  lemma {:induction false} UpdatedKeepsOthers(rows: seq<Row>, productId: int, quantity: int, other: int)
    requires other != productId
    ensures Selected(Updated(rows, ForProduct(productId), quantity), ForProduct(other)) == Selected(rows, ForProduct(other))
  {
    if rows != [] {
      UpdatedKeepsOthers(rows[1..], productId, quantity, other);
      var u := Updated(rows, ForProduct(productId), quantity);
      assert u[1..] == Updated(rows[1..], ForProduct(productId), quantity);
    }
  }

  /** After add-to-cart(p, q) the product is in the table and every row of it holds q. */
  lemma UpsertEstablishes(rows: seq<Row>, productId: int, quantity: int, freshId: int)
    ensures exists i :: 0 <= i < |Upsert(rows, productId, quantity, freshId)|
                        && Upsert(rows, productId, quantity, freshId)[i].productId == productId
    ensures forall row :: row in Upsert(rows, productId, quantity, freshId) && row.productId == productId
                          ==> row.quantity == quantity
  {
    var r := Upsert(rows, productId, quantity, freshId);
    SelectedEmpty(rows, ForProduct(productId));
    if Selected(rows, ForProduct(productId)) != [] {
      var k :| 0 <= k < |rows| && rows[k].productId == productId;
      assert r[k].productId == productId;
    } else {
      assert r[|rows|].productId == productId;
    }
  }

  /** Repeating add-to-cart with the same arguments leaves the table as the first call left it. */
  lemma UpsertIdempotent(rows: seq<Row>, productId: int, quantity: int, freshId: int, laterId: int)
    ensures Upsert(Upsert(rows, productId, quantity, freshId), productId, quantity, laterId)
         == Upsert(rows, productId, quantity, freshId)
  {
    var r := Upsert(rows, productId, quantity, freshId);
    UpsertEstablishes(rows, productId, quantity, freshId);
    var k :| 0 <= k < |r| && r[k].productId == productId;
    assert r[k] in Selected(r, ForProduct(productId));
    forall i | 0 <= i < |r| && Matches(r[i], ForProduct(productId)) ensures r[i].quantity == quantity {
      assert r[i] in r;
    }
    UpdatedUnchanged(r, ForProduct(productId), quantity);
  }

  /** The root component's state: the shared cart table and its own list of cart items. */
  class Storefront {
    const table: Table
    var cartItems: seq<Cart.LineItem>

    constructor (table: Table)
      ensures this.table == table && cartItems == []
    {
      this.table := table;
      cartItems := [];
    }

    /**
     * `addToCart(product_id, quantity)`: look the product up, then update its rows or
     * insert a new one. A failed lookup stops before any write; a failed write leaves
     * the table as it was. The local item list is not touched.
     */
    method AddToCart(productId: int, quantity: int, lookupFault: bool, writeFault: bool) returns (ok: bool)
      requires table.Valid()
      modifies table
      ensures table.Valid()
      ensures ok == (!lookupFault && !writeFault)
      ensures table.rows == if ok then Upsert(old(table.rows), productId, quantity, old(table.nextId))
                            else old(table.rows)
      ensures table.nextId ==
        if ok && Selected(old(table.rows), ForProduct(productId)) == [] then old(table.nextId) + 1
        else old(table.nextId)
    {
      var existing := table.Select(ForProduct(productId), lookupFault);
      if existing.StoreError? {
        return false;
      }
      if |existing.value| > 0 {
        ok := table.Update(ForProduct(productId), quantity, writeFault);
      } else {
        ok := table.Insert(productId, quantity, writeFault);
      }
    }

    /**
     * `removeFromCart(productId)`: delete every row of the product; on success drop the
     * product's items from the local list, keeping order. An error changes nothing.
     */
    method RemoveFromCart(productId: int, fault: bool)
      requires table.Valid()
      modifies this, table
      ensures table.Valid() && table.nextId == old(table.nextId)
      ensures table.rows == if fault then old(table.rows) else Remaining(old(table.rows), ForProduct(productId))
      ensures cartItems == if fault then old(cartItems) else Cart.Without(old(cartItems), Cart.ByProductId, productId)
    {
      var ok := table.Delete(ForProduct(productId), fault);
      if ok {
        cartItems := Cart.Without(cartItems, Cart.ByProductId, productId);
      }
    }
  }
}
