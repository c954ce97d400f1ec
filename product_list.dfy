/**
 * The catalog view's quantity selector: a counter per product, seeded from the
 * cart table, stepped up and down by the buttons, and handed to add-to-cart only
 * when positive.
 */
module ProductList {
  import opened Catalog
  import opened CartTable
  import App

  /** The first `forEach`: every product identifier maps to 0 (a later duplicate id overwrites). */
  function ZeroQuantities(products: seq<Product>): (m: map<int, int>)
    ensures m.Keys == Ids(products)
    ensures forall id :: id in m ==> m[id] == 0
  {
    if products == [] then map[]
    else
      var init := products[..|products| - 1];
      var m := ZeroQuantities(init)[products[|products| - 1].id := 0];
      assert Ids(products) == Ids(init) + {products[|products| - 1].id} by {
        forall x | x in Ids(products) ensures x in Ids(init) + {products[|products| - 1].id} {
          var i :| 0 <= i < |products| && products[i].id == x;
          if i < |products| - 1 {
            assert init[i].id == x;
          }
        }
        forall x | x in Ids(init) ensures x in Ids(products) {
          var i :| 0 <= i < |init| && init[i].id == x;
          assert products[i].id == x;
        }
      }
      m
  }

  /**
   * The second `forEach`: each cart row whose product is a key overwrites that
   * product's counter with its quantity, in fetch order; other rows are ignored.
   */
  function Overlay(m: map<int, int>, rows: seq<Row>): (r: map<int, int>)
    ensures r.Keys == m.Keys
  {
    if rows == [] then m
    else
      var prev := Overlay(m, rows[..|rows| - 1]);
      var row := rows[|rows| - 1];
      if row.productId in prev then prev[row.productId := row.quantity] else prev
  }

  /** The counters the view settles on after a successful fetch. */
  function InitialQuantities(products: seq<Product>, rows: seq<Row>): (r: map<int, int>)
    ensures r.Keys == Ids(products)
  {
    Overlay(ZeroQuantities(products), rows)
  }

  /** A counter no row refers to keeps its value. */
  lemma {:induction false} OverlayUntouched(m: map<int, int>, rows: seq<Row>, id: int)
    requires id in m
    requires forall j :: 0 <= j < |rows| ==> rows[j].productId != id
    ensures Overlay(m, rows)[id] == m[id]
  {
    if rows != [] {
      OverlayUntouched(m, rows[..|rows| - 1], id);
    }
  }

  /** When several rows name one product, the last of them in fetch order sets its counter. */
  lemma {:induction false} OverlayLastWins(m: map<int, int>, rows: seq<Row>, i: int)
    requires 0 <= i < |rows| && rows[i].productId in m
    requires forall j :: i < j < |rows| ==> rows[j].productId != rows[i].productId
    ensures Overlay(m, rows)[rows[i].productId] == rows[i].quantity
  {
    var init := rows[..|rows| - 1];
    if i < |rows| - 1 {
      OverlayLastWins(m, init, i);
    }
  }

  /**
   * After initialisation the keys are exactly the catalog's ids; a product no row
   * names shows 0, and a product some row names shows the quantity of its last row.
   */
  lemma InitialQuantitiesSpec(products: seq<Product>, rows: seq<Row>)
    ensures InitialQuantities(products, rows).Keys == Ids(products)
    ensures forall id :: id in Ids(products) && (forall j :: 0 <= j < |rows| ==> rows[j].productId != id)
                         ==> InitialQuantities(products, rows)[id] == 0
    ensures forall i :: 0 <= i < |rows| && rows[i].productId in Ids(products)
                        && (forall j :: i < j < |rows| ==> rows[j].productId != rows[i].productId)
                        ==> InitialQuantities(products, rows)[rows[i].productId] == rows[i].quantity
  {
    var zero := ZeroQuantities(products);
    forall id | id in Ids(products) && (forall j :: 0 <= j < |rows| ==> rows[j].productId != id)
      ensures InitialQuantities(products, rows)[id] == 0
    {
      OverlayUntouched(zero, rows, id);
    }
    forall i | 0 <= i < |rows| && rows[i].productId in Ids(products)
               && (forall j :: i < j < |rows| ==> rows[j].productId != rows[i].productId)
      ensures InitialQuantities(products, rows)[rows[i].productId] == rows[i].quantity
    {
      OverlayLastWins(zero, rows, i);
    }
  }

  /** `handleIncrease`: the product's counter goes up by exactly one, nothing else changes. */
  function Increased(q: map<int, int>, id: int): (r: map<int, int>)
    requires id in q
    ensures r.Keys == q.Keys && r[id] == q[id] + 1
    ensures forall k :: k in q && k != id ==> r[k] == q[k]
  {
    q[id := q[id] + 1]
  }

  /** `handleDecrease`: `Math.max(q[id] - 1, 0)`, so it stops at zero; nothing else changes. */
  function Decreased(q: map<int, int>, id: int): (r: map<int, int>)
    requires id in q
    ensures r.Keys == q.Keys && r[id] >= 0
    ensures q[id] >= 1 ==> r[id] == q[id] - 1
    ensures q[id] <= 0 ==> r[id] == 0
    ensures forall k :: k in q && k != id ==> r[k] == q[k]
  {
    q[id := if q[id] - 1 > 0 then q[id] - 1 else 0]
  }

  /** Decreasing a counter that is already 0 changes nothing. */
  lemma DecreaseAtZero(q: map<int, int>, id: int)
    requires id in q && q[id] == 0
    ensures Decreased(q, id) == q
  {
  }

  /** A decrease undoes an increase on a non-negative counter. */
  lemma DecreaseUndoesIncrease(q: map<int, int>, id: int)
    requires id in q && q[id] >= 0
    ensures Decreased(Increased(q, id), id) == q
  {
  }

  /** A click on one of the selector's buttons. */
  datatype Click = Plus(id: int) | Minus(id: int)

  function Step(q: map<int, int>, c: Click): (r: map<int, int>)
    requires c.id in q
    ensures r.Keys == q.Keys
  {
    match c
    case Plus(id) => Increased(q, id)
    case Minus(id) => Decreased(q, id)
  }

  /** The counters after a sequence of clicks on product buttons. */
  function Replay(q: map<int, int>, clicks: seq<Click>): (r: map<int, int>)
    requires forall i :: 0 <= i < |clicks| ==> clicks[i].id in q
    ensures r.Keys == q.Keys
  {
    if clicks == [] then q else Replay(Step(q, clicks[0]), clicks[1..])
  }

  ghost predicate NonNegative(q: map<int, int>) {
    forall k :: k in q ==> q[k] >= 0
  }

  /** From non-negative counters, no sequence of clicks makes a counter negative. */
  lemma {:induction false} ReplayKeepsNonNegative(q: map<int, int>, clicks: seq<Click>)
    requires forall i :: 0 <= i < |clicks| ==> clicks[i].id in q
    requires NonNegative(q)
    ensures NonNegative(Replay(q, clicks))
  {
    if clicks != [] {
      var next := Step(q, clicks[0]);
      assert forall i :: 0 <= i < |clicks[1..]| ==> clicks[1..][i].id in next by {
        forall i | 0 <= i < |clicks[1..]| ensures clicks[1..][i].id in next {
          assert clicks[1..][i] == clicks[i + 1];
        }
      }
      ReplayKeepsNonNegative(next, clicks[1..]);
    }
  }

  /** The catalog view's state: the counters and the loading flag. */
  class ProductListView {
    const app: App.Storefront
    const products: seq<Product>
    var quantities: map<int, int>
    var loading: bool

    constructor (app: App.Storefront, products: seq<Product>)
      ensures this.app == app && this.products == products
      ensures quantities == map[] && loading
    {
      this.app := app;
      this.products := products;
      quantities := map[];
      loading := true;
    }

    /**
     * The fetch on mount: zero every product's counter, read all cart rows, and let
     * rows of known products overwrite. A store error leaves the counters unset and
     * the view loading.
     */
    method FetchProductsAndCart(fault: bool)
      modifies this
      ensures fault ==> quantities == old(quantities) && loading == old(loading)
      ensures !fault ==> quantities == InitialQuantities(products, app.table.rows) && !loading
    {
      var initial: map<int, int> := map[];
      var i := 0;
      while i < |products|
        invariant 0 <= i <= |products|
        invariant initial == ZeroQuantities(products[..i])
      {
        assert products[..i + 1][..i] == products[..i];
        initial := initial[products[i].id := 0];
        i := i + 1;
      }
      assert products[..|products|] == products;
      var reply := app.table.SelectAll(fault);
      if reply.StoreError? {
        return;
      }
      var cartData := reply.value;
      var k := 0;
      while k < |cartData|
        invariant 0 <= k <= |cartData|
        invariant initial == Overlay(ZeroQuantities(products), cartData[..k])
      {
        assert cartData[..k + 1][..k] == cartData[..k];
        if cartData[k].productId in initial {
          initial := initial[cartData[k].productId := cartData[k].quantity];
        }
        k := k + 1;
      }
      assert cartData[..|cartData|] == cartData;
      quantities := initial;
      loading := false;
    }

    method HandleIncrease(id: int)
      requires id in quantities
      modifies this
      ensures quantities == Increased(old(quantities), id) && loading == old(loading)
    {
      quantities := Increased(quantities, id);
    }

    method HandleDecrease(id: int)
      requires id in quantities
      modifies this
      ensures quantities == Decreased(old(quantities), id) && loading == old(loading)
    {
      quantities := Decreased(quantities, id);
    }

    /**
     * `handleAddToCart`: add-to-cart is called with the product's counter exactly when
     * that counter is positive (an id with no counter reads as undefined, which is not);
     * otherwise the view only warns and the table is untouched.
     */
    method HandleAddToCart(id: int, lookupFault: bool, writeFault: bool) returns (requested: bool)
      requires app.table.Valid()
      modifies app.table
      ensures app.table.Valid()
      ensures requested <==> id in quantities && quantities[id] > 0
      ensures requested && !lookupFault && !writeFault ==>
        app.table.rows == App.Upsert(old(app.table.rows), id, quantities[id], old(app.table.nextId))
      ensures requested && !lookupFault && !writeFault ==>
        app.table.nextId == if Selected(old(app.table.rows), App.ForProduct(id)) == [] then old(app.table.nextId) + 1
                            else old(app.table.nextId)
      ensures !requested || lookupFault || writeFault ==>
        app.table.rows == old(app.table.rows) && app.table.nextId == old(app.table.nextId)
    {
      requested := id in quantities && quantities[id] > 0;
      if requested {
        var _ := app.AddToCart(id, quantities[id], lookupFault, writeFault);
      }
    }
  }
}
