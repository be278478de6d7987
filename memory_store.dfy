/** The in-memory store: an ordered list of products and an id counter. */
module MemoryDao {
  import opened JavaInt
  import opened ProductModel
  import opened ProductList

  class ProductStore {
    var products: seq<Product>
    var nextId: int32

    /** Stored ids are pairwise distinct and all lie in `[1, nextId)`. */
    ghost predicate Valid()
      reads this
    {
      1 <= nextId && DistinctIds(products) && IdsWithin(products, 1, nextId as int)
    }

    constructor ()
      ensures Valid()
      ensures products == [] && nextId == 1
    {
      products := [];
      nextId := 1;
    }

    /** `product.setId(nextId++); products.add(product)`: the product is
        stamped with the counter, appended, and handed back stamped. */
    method AddProduct(p: Product) returns (stamped: Product)
      requires Valid()
      requires nextId as int < MaxInt
      modifies this
      ensures Valid()
      ensures stamped == p.(id := old(nextId))
      ensures products == old(products) + [stamped]
      ensures nextId as int == old(nextId) as int + 1
    {
      stamped := p.(id := nextId);
      nextId := nextId + 1;
      products := products + [stamped];
    }

    /** Replaces the first entry whose id is `p`'s; a silent no-op otherwise. */
    method UpdateProduct(p: Product)
      requires Valid()
      modifies this
      ensures Valid()
      ensures products == ReplaceFirst(old(products), p)
      ensures nextId == old(nextId)
    {
      ReplaceFirstKeepsIds(products, p, 1, nextId as int);
      products := SetFirstMatch(products, p);
    }

    /** Removes every entry carrying `id`; the counter is never wound back. */
    method DeleteProduct(id: int32)
      requires Valid()
      modifies this
      ensures Valid()
      ensures products == RemoveId(old(products), id)
      ensures nextId == old(nextId)
    {
      RemoveIdKeepsInvariant(products, id, 1, nextId as int);
      products := RemoveIf(products, id);
    }

    /** A copy of the current contents; the store is not changed. */
    method GetAllProducts() returns (r: seq<Product>)
      ensures r == products
    {
      r := products;
    }

    /** The in-memory store has no data source: nothing changes. */
    method SetDataSource(source: string)
      ensures unchanged(this)
    {
    }
  }

  /** Adding one product to a fresh store lists just that product, with id 1. */
  method AddToEmptyStore(p: Product) returns (listed: seq<Product>)
    ensures listed == [p.(id := 1)]
  {
    var store := new ProductStore();
    var stamped := store.AddProduct(p);
    listed := store.GetAllProducts();
  }

  /** Add two products to a fresh store and delete the first by its id: only
      the second remains, with id 2 and its other fields as given. */
  method AddTwoDeleteFirst(a: Product, b: Product) returns (listed: seq<Product>)
    ensures listed == [b.(id := 2)]
  {
    var store := new ProductStore();
    var first := store.AddProduct(a);
    var second := store.AddProduct(b);
    store.DeleteProduct(first.id);
    listed := store.GetAllProducts();
    assert RemoveId([second], first.id) == [second];
  }
}
