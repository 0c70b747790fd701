/** The catalog store behind the `/products` REST handlers (and the GraphQL `products`
    query), with the catalog file as a field: reading the file reads `products`,
    writing the file assigns it. Whether the read (with its JSON parse) and the write
    succeed is not the store's to decide, so each operation takes it as a parameter. */
module CatalogStore {
  import opened ProductModel
  import opened CatalogSpec

  class Catalog {
    /** The content of the catalog file. */
    var products: seq<Product>

    constructor (initial: seq<Product>)
      ensures products == initial
    {
      products := initial;
    }

    /** GET /products and the GraphQL `products` query: the whole catalog, unmodified. */
    method List(readOk: bool) returns (r: Result<seq<Product>>)
      ensures readOk ==> r == Ok(products)
      ensures !readOk ==> r == StorageError
    {
      if !readOk {
        return StorageError;
      }
      r := Ok(products);
    }

    /** GET /products/:id: the first record whose id is `key`, or NotFound. */
    method Get(key: string, readOk: bool) returns (r: Result<Product>)
      ensures !readOk ==> r == StorageError
      ensures readOk && !HasId(products, key) ==> r == NotFound
      ensures readOk && HasId(products, key) ==>
                r.Ok? && r.value == products[FindIndex(products, key)]
    {
      if !readOk {
        return StorageError;
      }
      var product := Find(products, key);
      if product.None? {
        return NotFound;
      }
      FindIsFirstMatch(products, key);
      r := Ok(product.value);
    }

    /** POST /products: after the presence check, append a new record whose id is `newId`
        (the caller's clock reading) and return it. */
    method Create(f: Fields, newId: string, readOk: bool, writeOk: bool) returns (r: Result<Product>)
      modifies this
      ensures !Complete(f) ==> r == ValidationError
      ensures Complete(f) && !(readOk && writeOk) ==> r == StorageError
      ensures r.Ok? <==> Complete(f) && readOk && writeOk
      ensures r.Ok? ==> r.value.id == Str(newId) && r.value.name == f.name &&
                        r.value.price == f.price && r.value.category == f.category &&
                        r.value.description == f.description && r.value.extra == map[]
      ensures r.Ok? ==> products == old(products) + [r.value]
      ensures !r.Ok? ==> products == old(products)
      ensures UniqueIds(old(products)) && !HasId(old(products), newId) ==> UniqueIds(products)
      ensures AllWellFormed(old(products)) ==> AllWellFormed(products)
    {
      if !Complete(f) {
        return ValidationError;
      }
      var newProduct := NewProduct(newId, f);
      if !readOk {
        return StorageError;
      }
      var ps := products + [newProduct];
      if !writeOk {
        return StorageError;
      }
      if UniqueIds(products) && !HasId(products, newId) {
        AppendKeepsUnique(products, newProduct, newId);
      }
      products := ps;
      r := Ok(newProduct);
    }

    /** PUT /products/:id: after the presence check, overwrite the four fields of the first
        record whose id is `key`, keeping its id and any other keys, and return it. */
    method Update(key: string, f: Fields, readOk: bool, writeOk: bool) returns (r: Result<Product>)
      modifies this
      ensures !Complete(f) ==> r == ValidationError
      ensures Complete(f) && !readOk ==> r == StorageError
      ensures Complete(f) && readOk && !HasId(old(products), key) ==> r == NotFound
      ensures Complete(f) && readOk && HasId(old(products), key) && !writeOk ==> r == StorageError
      ensures r.Ok? <==> Complete(f) && readOk && HasId(old(products), key) && writeOk
      ensures !r.Ok? ==> products == old(products)
      ensures r.Ok? ==>
                var i := FindIndex(old(products), key);
                |products| == |old(products)| && products[i] == r.value &&
                r.value.id == old(products)[i].id && r.value.extra == old(products)[i].extra &&
                r.value.name == f.name && r.value.price == f.price &&
                r.value.category == f.category && r.value.description == f.description &&
                forall k :: 0 <= k < |products| && k != i ==> products[k] == old(products)[k]
      ensures UniqueIds(old(products)) ==> UniqueIds(products)
      ensures AllWellFormed(old(products)) ==> AllWellFormed(products)
    {
      if !Complete(f) {
        return ValidationError;
      }
      if !readOk {
        return StorageError;
      }
      var index := FindIndex(products, key);
      if index == -1 {
        return NotFound;
      }
      var ps := products[index := Merge(products[index], f)];
      if !writeOk {
        return StorageError;
      }
      if UniqueIds(products) {
        UpdateKeepsUnique(products, index, ps[index]);
      }
      products := ps;
      r := Ok(ps[index]);
    }

    /** DELETE /products/:id: drop every record whose id is `key`; NotFound, with nothing
        written, when the filter removed nothing. */
    method Delete(key: string, readOk: bool, writeOk: bool) returns (r: Result<()>)
      modifies this
      ensures !readOk ==> r == StorageError
      ensures readOk && !HasId(old(products), key) ==> r == NotFound
      ensures readOk && HasId(old(products), key) && !writeOk ==> r == StorageError
      ensures r.Ok? <==> readOk && HasId(old(products), key) && writeOk
      ensures r.Ok? ==> products == RemoveId(old(products), key)
      ensures !r.Ok? ==> products == old(products)
      ensures UniqueIds(old(products)) ==> UniqueIds(products)
      ensures AllWellFormed(old(products)) ==> AllWellFormed(products)
    {
      if !readOk {
        return StorageError;
      }
      var newProducts := RemoveId(products, key);
      if |products| == |newProducts| {
        return NotFound;
      }
      if !writeOk {
        return StorageError;
      }
      if UniqueIds(products) {
        RemoveIdKeepsUnique(products, key);
      }
      products := newProducts;
      r := Ok(());
    }
  }

  /** An empty catalog, one valid create, then a list and a get of the new id. */
  method CreateThenListScenario(newId: string) {
    var catalog := new Catalog([]);
    var widget := Fields(Str("Widget"), Num(9.99), Str("tools"), Str("a widget"));
    var created := catalog.Create(widget, newId, true, true);
    assert created.Ok? && created.value.id == Str(newId);
    assert [] + [created.value] == [created.value];
    var listed := catalog.List(true);
    assert listed == Ok([created.value]);
    FindIsFirstMatch(catalog.products, newId);
    var got := catalog.Get(newId, true);
    assert got == created;
  }

  /** A create with the price omitted is rejected and writes nothing. */
  method MissingPriceScenario(initial: seq<Product>, newId: string) {
    var catalog := new Catalog(initial);
    var noPrice := Fields(Str("Widget"), Undefined, Str("tools"), Str("a widget"));
    var created := catalog.Create(noPrice, newId, true, true);
    assert created == ValidationError && catalog.products == initial;
  }
}
