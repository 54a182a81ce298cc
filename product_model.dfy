/**
 * The `Product` document schema (constraints and defaults) and its
 * `pre('remove')` hook, which deletes the product's reviews before the
 * product itself goes.
 */
module ProductModel {
  import opened Common
  import opened JsText

  const NameMaxLength: nat := 100
  const DescriptionMaxLength: nat := 1000
  const DefaultImage: string := "/uploads/example.jpg"
  const ProductCategories: set<string> := {"Fertilizers", "Irrigation", "Seeds", "Tools", "Others"}

  /** The fields of a request body the schema looks at; `None` is a field the body does not have. */
  datatype ProductInput = ProductInput(
    name: Option<string>,
    price: Option<int>,
    description: Option<string>,
    image: Option<string>,
    category: Option<string>,
    rating: Option<int>,
    numReviews: Option<int>,
    countInStock: Option<int>,
    user: Option<Id>)

  /** A stored product. */
  datatype Product = Product(
    name: string,
    price: int,
    description: string,
    image: string,
    category: string,
    rating: int,
    numReviews: int,
    countInStock: int,
    user: Id)

  datatype ProductField = NameField | DescriptionField | CategoryField | UserField

  /** What every product satisfies when it is saved. */
  predicate WellFormed(p: Product) {
    && p.name != [] && IsTrimmed(p.name) && Utf16Length(p.name) <= NameMaxLength
    && p.description != [] && Utf16Length(p.description) <= DescriptionMaxLength
    && p.category in ProductCategories
    && p.user != []
  }

  /** Whether the value given for `f` passes that path's validators. */
  predicate Accepts(i: ProductInput, f: ProductField) {
    match f
    case NameField =>
      i.name.Some? && Trim(i.name.value) != [] && Utf16Length(Trim(i.name.value)) <= NameMaxLength
    case DescriptionField =>
      i.description.Some? && i.description.value != []
      && Utf16Length(i.description.value) <= DescriptionMaxLength
    case CategoryField => i.category.Some? && i.category.value in ProductCategories
    case UserField => i.user.Some? && i.user.value != []
  }

  /** Every path the validation reports. */
  function Rejected(i: ProductInput): (e: set<ProductField>)
    ensures forall f :: f in e <==> !Accepts(i, f)
  {
    set f: ProductField | f in {NameField, DescriptionField, CategoryField, UserField} && !Accepts(i, f)
  }

  /**
   * Casting and validating a body into a product: `Failure` with every
   * failing path, or the product with the name trimmed and the defaults
   * filled in.  `price` and `countInStock` are required but have a default,
   * so leaving them out never fails.
   */
  function ValidateProduct(i: ProductInput): (r: Result<Product, set<ProductField>>)
    ensures r.Failure? ==> r.error != {} && forall f :: f in r.error <==> !Accepts(i, f)
    ensures r.Success? <==> forall f :: Accepts(i, f)
    ensures r.Success? ==> WellFormed(r.value)
    ensures r.Success? ==>
      && i.name.Some? && i.description.Some? && i.category.Some? && i.user.Some?
      && r.value.name == Trim(i.name.value)
      && r.value.description == i.description.value
      && r.value.category == i.category.value
      && r.value.user == i.user.value
      && r.value.price == i.price.GetOr(0)
      && r.value.image == i.image.GetOr(DefaultImage)
      && r.value.rating == i.rating.GetOr(0)
      && r.value.numReviews == i.numReviews.GetOr(0)
      && r.value.countInStock == i.countInStock.GetOr(0)
  {
    var e := Rejected(i);
    if e != {} then Failure(e)
    else
      assert Accepts(i, NameField) && Accepts(i, DescriptionField);
      assert Accepts(i, CategoryField) && Accepts(i, UserField);
      Success(Product(
        Trim(i.name.value), i.price.GetOr(0), i.description.value, i.image.GetOr(DefaultImage),
        i.category.value, i.rating.GetOr(0), i.numReviews.GetOr(0), i.countInStock.GetOr(0),
        i.user.value))
  }

  function ToInput(p: Product): ProductInput {
    ProductInput(Some(p.name), Some(p.price), Some(p.description), Some(p.image), Some(p.category),
      Some(p.rating), Some(p.numReviews), Some(p.countInStock), Some(p.user))
  }

  /** Validation accepts every well-formed product unchanged. */
  lemma ValidateProductRoundTrip(p: Product)
    requires WellFormed(p)
    ensures ValidateProduct(ToInput(p)) == Success(p)
  {
    TrimOfTrimmed(p.name);
    assert Accepts(ToInput(p), NameField);
  }

  /** A body with only the required fields gets every default. */
  lemma ProductDefaults(name: string, description: string, category: string, user: Id)
    requires name != [] && IsTrimmed(name) && Utf16Length(name) <= NameMaxLength
    requires description != [] && Utf16Length(description) <= DescriptionMaxLength
    requires category in ProductCategories && user != []
    ensures ValidateProduct(ProductInput(Some(name), None, Some(description), None, Some(category),
                                         None, None, None, Some(user)))
         == Success(Product(name, 0, description, DefaultImage, category, 0, 0, 0, user))
  {
    TrimOfTrimmed(name);
  }

  // ---------------------------------------------------------------------
  // The remove hook
  // ---------------------------------------------------------------------

  /**
   * A review, as far as the hook sees it: the product it belongs to.  The
   * Review schema is not part of this model.
   */
  datatype Review = Review(product: Option<Id>, rest: JsObject)

  /** The reviews `deleteMany({ product: id })` leaves. */
  function ReviewsAfterRemove(reviews: map<Id, Review>, id: Id): (r: map<Id, Review>)
    ensures forall k :: k in r <==> k in reviews && reviews[k].product != Some(id)
    ensures forall k :: k in r ==> r[k] == reviews[k]
  {
    map k | k in reviews && reviews[k].product != Some(id) :: reviews[k]
  }

  /** Removing twice is removing once. */
  lemma ReviewsAfterRemoveIdempotent(reviews: map<Id, Review>, id: Id)
    ensures ReviewsAfterRemove(ReviewsAfterRemove(reviews, id), id) == ReviewsAfterRemove(reviews, id)
  {
  }

  /**
   * `product.remove()`: the hook deletes every review of the product, then
   * the product is removed; other products and other reviews stay.
   */
  method RemoveProduct(products: Collection<Product>, reviews: Collection<Review>, id: Id)
    requires id in products.docs
    modifies products, reviews
    ensures reviews.docs == ReviewsAfterRemove(old(reviews.docs), id)
    ensures products.docs == old(products.docs) - {id}
  {
    var doomed := set k | k in reviews.docs && reviews.docs[k].product == Some(id);
    reviews.RemoveAll(doomed);
    products.Remove(id);
  }
}
