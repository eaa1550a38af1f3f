/** The Product schema: required fields, the trimmed title, the 200-character short
    description, non-negative price, discount and stock, the category enumeration and the
    defaults, as a validity predicate and as the document a create or an update produces. */
module ProductModel {
  import opened Base
  import opened Strings

  const CATEGORIES: set<string> := {"Trouser", "Full Shirt", "Jacket", "Sweater", "Blazer", "Coat", "Accessories"}
  const SHORT_DESCRIPTION_MAX := 200

  /** An entry of `colors`; an absent hexCode is stored as null. */
  datatype Color = Color(name: string, hexCode: Option<string>)

  datatype Product = Product(
    id: ObjectId,
    title: string,
    shortDescription: string,
    fullDescription: string,
    price: int,
    discountPrice: int,
    category: string,
    sizes: seq<string>,
    colors: seq<Color>,
    images: seq<string>,
    stock: int,
    featured: bool,
    createdBy: Option<ObjectId>,
    createdAt: nat)

  // ------------------------------------------------------------------ validators per path

  /** A required string must be non-empty; the title is checked after trimming. */
  predicate TitleOk(t: string) { Trim(t) != "" }
  predicate ShortDescriptionOk(s: string) { s != "" && |s| <= SHORT_DESCRIPTION_MAX }
  predicate FullDescriptionOk(s: string) { s != "" }
  predicate AmountOk(n: int) { n >= 0 }
  predicate CategoryOk(c: string) { c in CATEGORIES }
  predicate EntriesOk(xs: seq<string>) { forall i :: 0 <= i < |xs| ==> xs[i] != "" }

  /** The invariant every stored product satisfies. */
  predicate ValidProduct(p: Product)
  {
    && p.title != "" && Trim(p.title) == p.title
    && ShortDescriptionOk(p.shortDescription)
    && FullDescriptionOk(p.fullDescription)
    && AmountOk(p.price) && AmountOk(p.discountPrice) && AmountOk(p.stock)
    && CategoryOk(p.category)
    && EntriesOk(p.sizes) && EntriesOk(p.images)
    && (forall i :: 0 <= i < |p.colors| ==> p.colors[i].name != "")
  }

  // ------------------------------------------------------------------ request bodies

  datatype ColorInput = ColorInput(name: Option<string>, hexCode: Option<string>)

  /** A request body: every path may be absent. */
  datatype ProductInput = ProductInput(
    title: Option<string>,
    shortDescription: Option<string>,
    fullDescription: Option<string>,
    price: Option<int>,
    discountPrice: Option<int>,
    category: Option<string>,
    sizes: Option<seq<string>>,
    colors: Option<seq<ColorInput>>,
    images: Option<seq<string>>,
    stock: Option<int>,
    featured: Option<bool>,
    createdBy: Option<ObjectId>)

  predicate ColorInputsOk(cs: seq<ColorInput>)
  {
    forall i :: 0 <= i < |cs| ==> Truthy(cs[i].name)
  }

  function ToColors(cs: seq<ColorInput>): (r: seq<Color>)
    requires ColorInputsOk(cs)
    ensures |r| == |cs|
    ensures forall i :: 0 <= i < |cs| ==> r[i].name == cs[i].name.value && r[i].name != "" && r[i].hexCode == cs[i].hexCode
  {
    seq(|cs|, i requires 0 <= i < |cs| => Color(cs[i].name.value, cs[i].hexCode))
  }

  /** Every path the body gives passes that path's validators. */
  predicate GivenFieldsOk(b: ProductInput)
  {
    && (b.title.Some? ==> TitleOk(b.title.value))
    && (b.shortDescription.Some? ==> ShortDescriptionOk(b.shortDescription.value))
    && (b.fullDescription.Some? ==> FullDescriptionOk(b.fullDescription.value))
    && (b.price.Some? ==> AmountOk(b.price.value))
    && (b.discountPrice.Some? ==> AmountOk(b.discountPrice.value))
    && (b.category.Some? ==> CategoryOk(b.category.value))
    && (b.sizes.Some? ==> EntriesOk(b.sizes.value))
    && (b.colors.Some? ==> ColorInputsOk(b.colors.value))
    && (b.images.Some? ==> EntriesOk(b.images.value))
    && (b.stock.Some? ==> AmountOk(b.stock.value))
  }

  /** `Product.create(body)` passes validation: the required paths are present and every
      given path is valid. */
  predicate AcceptsNew(b: ProductInput)
  {
    && b.title.Some? && b.shortDescription.Some? && b.fullDescription.Some?
    && b.price.Some? && b.category.Some?
    && GivenFieldsOk(b)
  }

  function GetOr<T>(o: Option<T>, default: T): (r: T)
    ensures o.Some? ==> r == o.value
    ensures o.None? ==> r == default
  {
    if o.Some? then o.value else default
  }

  /** The document `Product.create(body)` stores, or None when validation fails. */
  function CreateDocument(b: ProductInput, id: ObjectId, now: nat): (r: Option<Product>)
    ensures r.Some? <==> AcceptsNew(b)
    ensures r.Some? ==> ValidProduct(r.value) && Created(r.value, b, id, now)
  {
    if !AcceptsNew(b) then None else Some(Document(b, id, now))
  }

  /** The fields a created document takes from the body, and the schema defaults of the
      optional ones: every given path is stored (the title trimmed), every absent one takes
      its default. */
  predicate Created(p: Product, b: ProductInput, id: ObjectId, now: nat)
  {
    && p.id == id && p.createdBy == b.createdBy && p.createdAt == now
    && b.title.Some? && p.title == Trim(b.title.value)
    && b.shortDescription.Some? && p.shortDescription == b.shortDescription.value
    && b.fullDescription.Some? && p.fullDescription == b.fullDescription.value
    && b.price.Some? && p.price == b.price.value
    && b.category.Some? && p.category == b.category.value
    && (b.discountPrice.Some? ==> p.discountPrice == b.discountPrice.value)
    && (b.discountPrice.None? ==> p.discountPrice == 0)
    && (b.stock.Some? ==> p.stock == b.stock.value)
    && (b.stock.None? ==> p.stock == 0)
    && (b.featured.Some? ==> p.featured == b.featured.value)
    && (b.featured.None? ==> !p.featured)
    && (b.sizes.Some? ==> p.sizes == b.sizes.value)
    && (b.sizes.None? ==> p.sizes == [])
    && (b.images.Some? ==> p.images == b.images.value)
    && (b.images.None? ==> p.images == [])
    && (b.colors.Some? ==> ColorInputsOk(b.colors.value) && p.colors == ToColors(b.colors.value))
    && (b.colors.None? ==> p.colors == [])
  }

  function Document(b: ProductInput, id: ObjectId, now: nat): (p: Product)
    requires AcceptsNew(b)
    ensures ValidProduct(p) && Created(p, b, id, now)
  {
    var title := Trim(b.title.value);
    TrimIdempotent(b.title.value);
    var colors := if b.colors.Some? then ToColors(b.colors.value) else [];
    Product(
      id, title, b.shortDescription.value, b.fullDescription.value,
      b.price.value, GetOr(b.discountPrice, 0), b.category.value,
      GetOr(b.sizes, []), colors, GetOr(b.images, []), GetOr(b.stock, 0), GetOr(b.featured, false),
      b.createdBy, now)
  }

  /** The colours a body gives, as they are stored. */
  function GivenColors(b: ProductInput): (r: Option<seq<Color>>)
    requires b.colors.Some? ==> ColorInputsOk(b.colors.value)
    ensures r.Some? <==> b.colors.Some?
    ensures r.Some? ==> r.value == ToColors(b.colors.value)
  {
    if b.colors.Some? then Some(ToColors(b.colors.value)) else None
  }

  /** A path of an update: a given value replaces the stored one, an absent path keeps it. */
  predicate Overwrites<T(==)>(after: T, given: Option<T>, before: T)
  {
    && (given.Some? ==> after == given.value)
    && (given.None? ==> after == before)
  }

  /** `findByIdAndUpdate(id, body)`: every given path overwrites the stored one. */
  function ApplyPatch(p: Product, b: ProductInput): (r: Product)
    requires GivenFieldsOk(b)
    ensures r.id == p.id && r.createdAt == p.createdAt
    ensures b.title.Some? ==> r.title == Trim(b.title.value)
    ensures b.title.None? ==> r.title == p.title
    ensures Overwrites(r.colors, GivenColors(b), p.colors)
    ensures Overwrites(r.shortDescription, b.shortDescription, p.shortDescription)
    ensures Overwrites(r.fullDescription, b.fullDescription, p.fullDescription)
    ensures Overwrites(r.price, b.price, p.price)
    ensures Overwrites(r.discountPrice, b.discountPrice, p.discountPrice)
    ensures Overwrites(r.category, b.category, p.category)
    ensures Overwrites(r.sizes, b.sizes, p.sizes)
    ensures Overwrites(r.images, b.images, p.images)
    ensures Overwrites(r.stock, b.stock, p.stock)
    ensures Overwrites(r.featured, b.featured, p.featured)
    ensures Overwrites(r.createdBy, if b.createdBy.Some? then Some(b.createdBy) else None, p.createdBy)
  {
    Product(
      p.id,
      if b.title.Some? then Trim(b.title.value) else p.title,
      GetOr(b.shortDescription, p.shortDescription),
      GetOr(b.fullDescription, p.fullDescription),
      GetOr(b.price, p.price),
      GetOr(b.discountPrice, p.discountPrice),
      GetOr(b.category, p.category),
      GetOr(b.sizes, p.sizes),
      GetOr(GivenColors(b), p.colors),
      GetOr(b.images, p.images),
      GetOr(b.stock, p.stock),
      GetOr(b.featured, p.featured),
      if b.createdBy.Some? then b.createdBy else p.createdBy,
      p.createdAt)
  }

  /** An update that passes the update validators keeps a valid product valid. */
  lemma PatchKeepsValid(p: Product, b: ProductInput)
    requires ValidProduct(p) && GivenFieldsOk(b)
    ensures ValidProduct(ApplyPatch(p, b))
  {
    if b.title.Some? {
      TrimIdempotent(b.title.value);
    }
  }

  /** An empty body changes nothing. */
  lemma EmptyPatchIsIdentity(p: Product)
    ensures ApplyPatch(p, ProductInput(None, None, None, None, None, None, None, None, None, None, None, None)) == p
  {
  }
}
