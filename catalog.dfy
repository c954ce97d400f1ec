/** The fixed product catalog of the storefront and the lookup of a product by its identifier. */
module Catalog {

  datatype Option<T> = None | Some(value: T)

  /** A catalog entry. Prices are integer cents: the catalog's 19.99 is 1999 here. */
  datatype Product = Product(id: int, name: string, price: int, imageUrl: string)

  /** The six products the root component hands to both views. */
  const Products: seq<Product> := [
    Product(1, "Product A", 1999, "https://loremflickr.com/320/240/cat"),
    Product(2, "Product B", 2999, "https://loremflickr.com/320/240/dog"),
    Product(3, "Product C", 3999, "https://loremflickr.com/320/240/hen"),
    Product(4, "Product D", 4999, "https://loremflickr.com/320/240/cow"),
    Product(5, "Product E", 5999, "https://loremflickr.com/320/240/rabbit"),
    Product(6, "Product F", 6999, "https://loremflickr.com/320/240/lion")
  ]

  /** No two products share an identifier. */
  ghost predicate DistinctIds(products: seq<Product>) {
    forall i, j :: 0 <= i < j < |products| ==> products[i].id != products[j].id
  }

  /** The set of identifiers of a product list. */
  ghost function Ids(products: seq<Product>): set<int> {
    set i | 0 <= i < |products| :: products[i].id
  }

  /** Index i holds the first product whose identifier is id. */
  predicate FirstWithId(products: seq<Product>, i: int, id: int) {
    0 <= i < |products| && products[i].id == id && forall j :: 0 <= j < i ==> products[j].id != id
  }

  /**
   * `products.find(p => p.id === id)`: the first product carrying the identifier,
   * or nothing when no product does.
   */
  function Find(products: seq<Product>, id: int): (r: Option<Product>)
    ensures r.None? <==> forall i :: 0 <= i < |products| ==> products[i].id != id
    ensures forall i :: FirstWithId(products, i, id) ==> r == Some(products[i])
  {
    if products == [] then None
    else if products[0].id == id then Some(products[0])
    else Find(products[1..], id)
  }

  /** With distinct identifiers a lookup by a product's own id finds exactly that product. */
  lemma FindUnique(products: seq<Product>, i: int)
    requires DistinctIds(products) && 0 <= i < |products|
    ensures Find(products, products[i].id) == Some(products[i])
  {
  }

  /** The catalog holds six products with the distinct identifiers 1 to 6, in that order. */
  lemma CatalogShape()
    ensures |Products| == 6 && DistinctIds(Products)
    ensures forall i :: 0 <= i < |Products| ==> Products[i].id == i + 1 && Products[i].price > 0
    ensures Ids(Products) == {1, 2, 3, 4, 5, 6}
  {
    assert Ids(Products) == {1, 2, 3, 4, 5, 6} by {
      forall x | x in {1, 2, 3, 4, 5, 6} ensures x in Ids(Products) {
        assert Products[x - 1].id == x;
      }
    }
  }

  /** A lookup in the catalog succeeds exactly for the identifiers 1 to 6, and then finds one product. */
  lemma CatalogLookup(id: int)
    ensures Find(Products, id).Some? <==> 1 <= id <= 6
    ensures 1 <= id <= 6 ==> Find(Products, id) == Some(Products[id - 1])
  {
  }
}
