/**
 * The cart view: cart rows joined with the catalog into line items, the total
 * in cents, removal of one line item and checkout of the whole cart.
 */
module Cart {
  import opened Catalog
  import opened CartTable

  /** A cart row enriched with its product's name and price for display. */
  datatype LineItem = LineItem(cartId: int, productId: int, name: string, price: int, quantity: int)

  /** The line item for one cart row and the product it refers to. */
  function Detail(row: Row, product: Product): (r: LineItem)
    ensures r.cartId == row.id && r.quantity == row.quantity
    ensures r.productId == product.id && r.name == product.name && r.price == product.price
    ensures Subtotal(r) == product.price * row.quantity
  {
    LineItem(row.id, product.id, product.name, product.price, row.quantity)
  }

  /**
   * `cartData.map(...)` with `products.find(...)`: one line item per row, in row order;
   * a row whose product is unknown makes the whole join fail (reading a field of
   * `undefined` throws).
   */
  function Join(rows: seq<Row>, products: seq<Product>): (r: Option<seq<LineItem>>)
    ensures r.Some? <==> forall i :: 0 <= i < |rows| ==> Find(products, rows[i].productId).Some?
    ensures r.Some? ==> |r.value| == |rows|
    ensures r.Some? ==> forall i :: 0 <= i < |rows| ==>
      r.value[i] == Detail(rows[i], Find(products, rows[i].productId).value)
  {
    if rows == [] then Some([])
    else
      match Find(products, rows[0].productId)
      case None => None
      case Some(p) =>
        match Join(rows[1..], products)
        case None => None
        case Some(rest) => Some([Detail(rows[0], p)] + rest)
  }

  /** What one line item contributes to the total, in cents. */
  function Subtotal(item: LineItem): int {
    item.price * item.quantity
  }

  /** `reduce((sum, item) => sum + item.price * item.quantity, 0)`, folded from the left. */
  function Total(items: seq<LineItem>): (r: int)
    ensures items == [] ==> r == 0
    ensures (forall i :: 0 <= i < |items| ==> items[i].price >= 0 && items[i].quantity >= 0) ==> r >= 0
  {
    if items == [] then 0
    else Total(items[..|items| - 1]) + Subtotal(items[|items| - 1])
  }

  /** The removal's own reduce: items with the removed cart id contribute 0. */
  function TotalExcept(items: seq<LineItem>, cartId: int): (r: int)
    ensures (forall i :: 0 <= i < |items| ==> items[i].cartId != cartId) ==> r == Total(items)
  {
    if items == [] then 0
    else
      var last := items[|items| - 1];
      TotalExcept(items[..|items| - 1], cartId) + (if last.cartId != cartId then Subtotal(last) else 0)
  }

  /** The line-item field a local filter compares. */
  datatype Key = ByCartId | ByProductId

  function KeyOf(item: LineItem, key: Key): int {
    match key
    case ByCartId => item.cartId
    case ByProductId => item.productId
  }

  /**
   * `items.filter(item => item.<key> !== v)`: the items that stay, in order. The cart
   * view filters by `cart_id`, the root component by `product_id`.
   */
  function Without(items: seq<LineItem>, key: Key, v: int): (r: seq<LineItem>)
    ensures |r| <= |items|
    ensures forall it :: it in r <==> it in items && KeyOf(it, key) != v
  {
    if items == [] then []
    else
      var last := items[|items| - 1];
      Without(items[..|items| - 1], key, v) + (if KeyOf(last, key) != v then [last] else [])
  }

  /** The items a removal of cartId takes away, in order. */
  function WithCartId(items: seq<LineItem>, cartId: int): (r: seq<LineItem>)
    ensures |r| <= |items|
    ensures forall it :: it in r <==> it in items && it.cartId == cartId
  {
    if items == [] then []
    else
      var last := items[|items| - 1];
      WithCartId(items[..|items| - 1], cartId) + (if last.cartId == cartId then [last] else [])
  }

  /** The total of two lists put together is the sum of their totals. */
  lemma {:induction false} TotalAppend(a: seq<LineItem>, b: seq<LineItem>)
    ensures Total(a + b) == Total(a) + Total(b)
  {
    if b == [] {
      assert a + b == a;
    } else {
      var init := b[..|b| - 1];
      assert (a + b)[..|a + b| - 1] == a + init;
      TotalAppend(a, init);
    }
  }

  /** The filter keeps its input's order: it distributes over concatenation. */
  lemma {:induction false} WithoutAppend(a: seq<LineItem>, b: seq<LineItem>, key: Key, v: int)
    ensures Without(a + b, key, v) == Without(a, key, v) + Without(b, key, v)
  {
    if b == [] {
      assert a + b == a;
    } else {
      var init := b[..|b| - 1];
      assert (a + b)[..|a + b| - 1] == a + init;
      WithoutAppend(a, init, key, v);
    }
  }

  /** Appending one item adds its subtotal. */
  lemma TotalSnoc(s: seq<LineItem>, x: LineItem)
    ensures Total(s + [x]) == Total(s) + Subtotal(x)
  {
    assert (s + [x])[..|s + [x]| - 1] == s;
  }

  /** The removal's reduce equals the total of the items that stay. */
  lemma {:induction false} TotalExceptIsRemainingTotal(items: seq<LineItem>, cartId: int)
    ensures TotalExcept(items, cartId) == Total(Without(items, ByCartId, cartId))
  {
    if items != [] {
      var init, last := items[..|items| - 1], items[|items| - 1];
      TotalExceptIsRemainingTotal(init, cartId);
      var w := Without(init, ByCartId, cartId);
      if last.cartId != cartId {
        assert Without(items, ByCartId, cartId) == w + [last];
        TotalSnoc(w, last);
      } else {
        assert Without(items, ByCartId, cartId) == w + [] == w;
      }
    }
  }

  /** The total splits into what stays and what a removal of cartId takes away. */
  lemma {:induction false} TotalSplit(items: seq<LineItem>, cartId: int)
    ensures Total(items) == Total(Without(items, ByCartId, cartId)) + Total(WithCartId(items, cartId))
  {
    if items != [] {
      var init, last := items[..|items| - 1], items[|items| - 1];
      TotalSplit(init, cartId);
      var w, c := Without(init, ByCartId, cartId), WithCartId(init, cartId);
      assert Total(items) == Total(init) + Subtotal(last);
      if last.cartId != cartId {
        assert Without(items, ByCartId, cartId) == w + [last];
        assert WithCartId(items, cartId) == c + [] == c;
        TotalSnoc(w, last);
      } else {
        assert Without(items, ByCartId, cartId) == w + [] == w;
        assert WithCartId(items, cartId) == c + [last];
        TotalSnoc(c, last);
      }
    }
  }

  /** Filtering out a value that no item has changes nothing. */
  lemma {:induction false} WithoutAbsent(items: seq<LineItem>, key: Key, v: int)
    requires forall i :: 0 <= i < |items| ==> KeyOf(items[i], key) != v
    ensures Without(items, key, v) == items
  {
    if items != [] {
      var init, last := items[..|items| - 1], items[|items| - 1];
      WithoutAbsent(init, key, v);
      assert KeyOf(last, key) != v;
      assert Without(items, key, v) == init + [last];
      assert init + [last] == items;
    }
  }

  /**
   * The cart view's state: the line items shown, their total in cents and the
   * loading flag, over the shared cart table and the catalog it was given.
   */
  class CartView {
    const table: Table
    const products: seq<Product>
    var items: seq<LineItem>
    var total: int
    var loading: bool

    /** The total shown always agrees with the items shown. */
    ghost predicate Valid()
      reads this, table
    {
      table.Valid() && total == Total(items)
    }

    constructor (table: Table, products: seq<Product>)
      requires table.Valid()
      ensures Valid() && this.table == table && this.products == products
      ensures items == [] && total == 0 && loading
    {
      this.table := table;
      this.products := products;
      items := [];
      total := 0;
      loading := true;
    }

    /**
     * The fetch on mount: on success and a complete join, the items are the joined
     * rows and the total their sum; a store error or an unknown product leaves items
     * and total alone. Loading ends either way.
     */
    method FetchCartItems(fault: bool)
      requires Valid()
      modifies this
      ensures Valid() && !loading
      ensures fault || Join(table.rows, products).None? ==> items == old(items) && total == old(total)
      ensures !fault && Join(table.rows, products).Some? ==> items == Join(table.rows, products).value
    {
      var reply := table.SelectAll(fault);
      if reply.StoreError? {
        loading := false;
        return;
      }
      var joined := Join(reply.value, products);
      if joined.None? {
        loading := false;
        return;
      }
      items := joined.value;
      total := Total(joined.value);
      loading := false;
    }

    /**
     * Removal of one line item: the row with that id goes from the table, the items
     * with that cart id go from the list, and the total drops by exactly their share.
     * A store error changes nothing.
     */
    method RemoveFromCart(cartId: int, fault: bool)
      requires Valid()
      modifies this, table
      ensures Valid() && loading == old(loading) && table.nextId == old(table.nextId)
      ensures table.rows == if fault then old(table.rows) else Remaining(old(table.rows), Eq(Id, cartId))
      ensures items == if fault then old(items) else Without(old(items), ByCartId, cartId)
      ensures total == if fault then old(total) else old(total) - Total(WithCartId(old(items), cartId))
    {
      var ok := table.Delete(Eq(Id, cartId), fault);
      if !ok {
        return;
      }
      var updatedTotal := TotalExcept(items, cartId);
      TotalExceptIsRemainingTotal(items, cartId);
      TotalSplit(items, cartId);
      items := Without(items, ByCartId, cartId);
      total := updatedTotal;
    }

    /**
     * Checkout deletes every row with an id above 0, which is every row, and clears
     * the items and the total. A store error changes nothing.
     */
    method HandleCheckout(fault: bool)
      requires Valid()
      modifies this, table
      ensures Valid() && loading == old(loading) && table.nextId == old(table.nextId)
      ensures table.rows == if fault then old(table.rows) else []
      ensures items == (if fault then old(items) else []) && total == (if fault then old(total) else 0)
    {
      ghost var before := table.rows;
      var ok := table.Delete(Gt(Id, 0), fault);
      if !ok {
        return;
      }
      forall i | 0 <= i < |before| ensures before[i].id > 0 {
        assert before[i] in before;
      }
      DeleteAboveZeroEmpties(before);
      items := [];
      total := 0;
    }
  }
}
