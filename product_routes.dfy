/** The public catalog: `GET /products` filters by category, featured flag and a search
    text, sorts by price or newest first, and applies the limit; `GET /products/:id`
    fetches one product. */
module ProductRoutes {
  import opened Base
  import opened Strings
  import opened Sorting
  import opened ProductModel

  /** The query string. `limit` is the value `parseInt` gives; absent or "" is None. */
  datatype CatalogQuery = CatalogQuery(category: Option<string>, search: Option<string>, featured: Option<string>,
                                       limit: Option<int>, sort: Option<string>)

  const ALL := "All"
  const PRICE_ASC := "price-asc"
  const PRICE_DESC := "price-desc"

  /** A case-insensitive substring test, the literal reading of `$regex` with option 'i'. */
  predicate MatchesText(s: string, search: string)
  {
    Contains(ToLower(s), ToLower(search))
  }

  predicate CategoryFilterActive(q: CatalogQuery)
  {
    Truthy(q.category) && q.category.value != ALL
  }

  /** The query object: each filter applies only when its parameter is truthy; any truthy
      `featured` value, "false" included, asks for featured products. */
  predicate Matches(p: Product, q: CatalogQuery)
  {
    && (CategoryFilterActive(q) ==> p.category == q.category.value)
    && (Truthy(q.featured) ==> p.featured)
    && (Truthy(q.search) ==> MatchesText(p.title, q.search.value) || MatchesText(p.shortDescription, q.search.value))
  }

  /** `Product.find(query)` in stored order. */
  function Select(products: seq<Product>, q: CatalogQuery): (r: seq<Product>)
    ensures forall p :: p in r <==> p in products && Matches(p, q)
    ensures |r| <= |products|
  {
    if products == [] then []
    else (if Matches(products[0], q) then [products[0]] else []) + Select(products[1..], q)
  }

  function PriceKey(p: Product): int { p.price }
  function DescendingPriceKey(p: Product): int { -p.price }
  function NewestFirst(p: Product): int { -(p.createdAt as int) }

  /** The sort the query asks for: by price either way, otherwise newest first. */
  function SortKey(q: CatalogQuery): Product -> int
  {
    if q.sort == Some(PRICE_ASC) then PriceKey
    else if q.sort == Some(PRICE_DESC) then DescendingPriceKey
    else NewestFirst
  }

  /** The whole query: filter, then sort, then limit. */
  function Catalog(products: seq<Product>, q: CatalogQuery): (r: seq<Product>)
    ensures forall p :: p in r ==> p in products && Matches(p, q)
    ensures q.sort == Some(PRICE_ASC) ==> forall i, j :: 0 <= i < j < |r| ==> r[i].price <= r[j].price
    ensures q.sort == Some(PRICE_DESC) ==> forall i, j :: 0 <= i < j < |r| ==> r[i].price >= r[j].price
    ensures q.sort != Some(PRICE_ASC) && q.sort != Some(PRICE_DESC)
            ==> forall i, j :: 0 <= i < j < |r| ==> r[i].createdAt >= r[j].createdAt
    ensures q.limit.Some? && q.limit.value != 0 ==>
              |r| == if Abs(q.limit.value) < |Select(products, q)| then Abs(q.limit.value) else |Select(products, q)|
    ensures q.limit.None? || q.limit.value == 0 ==> multiset(r) == multiset(Select(products, q))
  {
    var selected := Select(products, q);
    var sorted := SortBy(selected, SortKey(q));
    SameMembers(sorted, selected);
    var r := if q.limit.Some? then Limit(sorted, q.limit.value) else sorted;
    PrefixKeepsOrderAndMembers(sorted, r, SortKey(q));
    KeyOrder(r, q);
    r
  }

  /** Sequences with equal multisets have the same members. */
  lemma SameMembers(a: seq<Product>, b: seq<Product>)
    requires multiset(a) == multiset(b)
    ensures forall p :: p in a <==> p in b
  {
    forall p ensures p in a <==> p in b {
      assert p in a <==> p in multiset(a);
      assert p in b <==> p in multiset(b);
    }
  }

  /** A prefix of a sorted sequence is sorted and holds only its members. */
  lemma PrefixKeepsOrderAndMembers(s: seq<Product>, r: seq<Product>, key: Product -> int)
    requires SortedBy(s, key) && |r| <= |s| && r == s[..|r|]
    ensures SortedBy(r, key)
    ensures forall p :: p in r ==> p in s
  {
    forall p | p in r ensures p in s {
      var k :| 0 <= k < |r| && r[k] == p;
      assert s[k] == p;
    }
  }

  /** What sortedness by the query's key means for prices and dates. */
  lemma KeyOrder(r: seq<Product>, q: CatalogQuery)
    requires SortedBy(r, SortKey(q))
    ensures q.sort == Some(PRICE_ASC) ==> forall i, j :: 0 <= i < j < |r| ==> r[i].price <= r[j].price
    ensures q.sort == Some(PRICE_DESC) ==> forall i, j :: 0 <= i < j < |r| ==> r[i].price >= r[j].price
    ensures q.sort != Some(PRICE_ASC) && q.sort != Some(PRICE_DESC)
            ==> forall i, j :: 0 <= i < j < |r| ==> r[i].createdAt >= r[j].createdAt
  {
    if q.sort == Some(PRICE_ASC) {
      assert forall i, j :: 0 <= i < j < |r| ==> PriceKey(r[i]) <= PriceKey(r[j]);
    } else if q.sort == Some(PRICE_DESC) {
      assert forall i, j :: 0 <= i < j < |r| ==> DescendingPriceKey(r[i]) <= DescendingPriceKey(r[j]);
    } else {
      assert forall i, j :: 0 <= i < j < |r| ==> NewestFirst(r[i]) <= NewestFirst(r[j]);
    }
  }

  /** The answer of `GET /products`: the products and their count. */
  datatype Listing = Listing(data: seq<Product>, count: nat)

  function ListProducts(products: seq<Product>, q: CatalogQuery): (r: Reply<Listing>)
    ensures r.Done? && r.status == OK
    ensures r.data.data == Catalog(products, q) && r.data.count == |r.data.data|
  {
    var found := Catalog(products, q);
    Done(OK, Listing(found, |found|))
  }

  /** Without a limit every product that passes the filters is listed. */
  lemma CatalogIsComplete(products: seq<Product>, q: CatalogQuery, p: Product)
    requires q.limit.None? || q.limit.value == 0
    requires p in products && Matches(p, q)
    ensures p in Catalog(products, q)
  {
    assert p in multiset(Select(products, q));
  }

  /** Asking for the category 'All' is the same as not asking for a category. */
  lemma CategoryAllIsNoFilter(products: seq<Product>, q: CatalogQuery)
    requires q.category == Some(ALL)
    ensures Catalog(products, q) == Catalog(products, q.(category := None))
  {
    assert forall p :: Matches(p, q) == Matches(p, q.(category := None));
    SelectAgrees(products, q, q.(category := None));
  }

  lemma {:induction false} SelectAgrees(products: seq<Product>, q1: CatalogQuery, q2: CatalogQuery)
    requires forall p :: Matches(p, q1) == Matches(p, q2)
    ensures Select(products, q1) == Select(products, q2)
  {
    if products != [] {
      SelectAgrees(products[1..], q1, q2);
    }
  }

  /** A limited listing is the first products of the unlimited one. */
  lemma LimitTakesPrefix(products: seq<Product>, q: CatalogQuery)
    ensures var r := Catalog(products, q);
            var all := Catalog(products, q.(limit := None));
            |r| <= |all| && r == all[..|r|]
  {
    SelectAgrees(products, q, q.(limit := None));
  }

  function ProductId(p: Product): ObjectId { p.id }

  /** `Product.findById`. */
  function ProductIndex(products: seq<Product>, id: ObjectId): int
  {
    FindById(products, id, ProductId)
  }

  /** GET /products/:id: the product with that id, or 404. */
  function GetProduct(products: seq<Product>, id: ObjectId): (r: Reply<Product>)
    ensures r.Done? <==> exists i :: 0 <= i < |products| && products[i].id == id
    ensures r.Done? ==> r.status == OK && r.data in products && r.data.id == id
    ensures !r.Done? ==> r == Err(NotFound)
  {
    var i := ProductIndex(products, id);
    if i < 0 then Err(NotFound) else Done(OK, products[i])
  }
}
