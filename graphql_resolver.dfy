/** The GraphQL `products` resolver of the Practice6 server: it reads the catalog and
    projects every record onto the four fields the schema's Product type exposes. */
module GraphQLResolver {
  import opened ProductModel
  import opened CatalogStore

  /** A record as the resolver returns it: there is no category and no other key. */
  datatype ProductView = ProductView(id: Value, name: Value, price: Value, description: Value)

  /** `products.map(({ id, name, price, description }) => ({ id, name, price, description }))` */
  function Project(s: seq<Product>): (r: seq<ProductView>)
    ensures |r| == |s|
    ensures forall i :: 0 <= i < |s| ==>
              r[i].id == s[i].id && r[i].name == s[i].name &&
              r[i].price == s[i].price && r[i].description == s[i].description
  {
    if s == [] then []
    else
      var head := ProductView(s[0].id, s[0].name, s[0].price, s[0].description);
      [head] + Project(s[1..])
  }

  /** Projection is taken record by record, so it commutes with concatenation. */
  lemma {:induction false} ProjectAppend(a: seq<Product>, b: seq<Product>)
    ensures Project(a + b) == Project(a) + Project(b)
  {
    if a == [] {
      assert a + b == b;
    } else {
      assert (a + b)[1..] == a[1..] + b;
      ProjectAppend(a[1..], b);
    }
  }

  /** The resolver: the projected catalog, or a storage error when the read fails. */
  method Products(catalog: Catalog, readOk: bool) returns (r: Result<seq<ProductView>>)
    ensures readOk ==> r == Ok(Project(catalog.products))
    ensures !readOk ==> r == StorageError
  {
    var listed := catalog.List(readOk);
    if !listed.Ok? {
      return StorageError;
    }
    r := Ok(Project(listed.value));
  }
}
