/** The storefront's top-level component (`src/App.tsx`): the catalog
    filter behind the product grid, the three catalog mutations the admin
    panel calls back into, and the choice of screen.

    The clock and the id generator are parameters of `AddProduct`, and the
    answer of the browser's confirmation dialog is a parameter of
    `DeleteProduct`. */
module App {
  import opened Options
  import opened Seqs
  import opened Text
  import opened Types
  import Auth

  // ---------------------------------------------------------------------
  // Catalog filter

  /** The truthiness test on `selectedCategory`: null and the empty string
      both mean that no category is selected. */
  predicate CategorySelected(selected: Option<string>)
  {
    selected.Some? && selected.value != []
  }

  /** The test of the category stage: the product is in category `c`. */
  function InCategory(c: string): Product -> bool
  {
    (p: Product) => p.category_id == c
  }

  /** The test of the search stage, given the already lower-cased query. */
  function MatchesLowered(query: string): Product -> bool
  {
    (p: Product) => Includes(Lower(p.name), query) || Includes(Lower(p.description), query)
  }

  /** The declarative reading of the filter: a product is visible when it
      is in the selected category, if any, and its lower-cased name or
      description contains the lower-cased, untrimmed query, if the query
      is not blank. */
  predicate Visible(p: Product, selected: Option<string>, query: string)
  {
    && (CategorySelected(selected) ==> p.category_id == selected.value)
    && (!IsBlank(query) ==>
          Includes(Lower(p.name), Lower(query)) || Includes(Lower(p.description), Lower(query)))
  }

  function VisibleTest(selected: Option<string>, query: string): Product -> bool
  {
    (p: Product) => Visible(p, selected, query)
  }

  /** The `filteredProducts` memo: the category stage when a category is
      selected, then the search stage when the query is not blank. The
      blankness test trims the query, the match itself does not. */
  function FilterProducts(products: seq<Product>, selected: Option<string>, query: string): (r: seq<Product>)
    ensures |r| <= |products|
    ensures forall p :: p in r <==> p in products && Visible(p, selected, query)
  {
    TrimEmptyIffBlank(query);
    var byCategory :=
      if CategorySelected(selected) then Filter(products, InCategory(selected.value))
      else products;
    if Trim(query) != [] then Filter(byCategory, MatchesLowered(Lower(query)))
    else byCategory
  }

  /** The two-stage filter is one filter by `Visible`. */
  lemma FilterProductsIsVisibleFilter(products: seq<Product>, selected: Option<string>, query: string)
    ensures FilterProducts(products, selected, query) == Filter(products, VisibleTest(selected, query))
  {
    TrimEmptyIffBlank(query);
    var visible := VisibleTest(selected, query);
    var matches := MatchesLowered(Lower(query));
    if CategorySelected(selected) {
      var inCategory := InCategory(selected.value);
      if IsBlank(query) {
        FilterSamePredicate(products, inCategory, visible);
      } else {
        FilterFilter(products, inCategory, matches, visible);
      }
    } else {
      if IsBlank(query) {
        FilterKeepsAll(products, visible);
      } else {
        FilterSamePredicate(products, matches, visible);
      }
    }
  }

  /** With no category and a blank query every product is shown, in order. */
  lemma NoCriteriaShowsAll(products: seq<Product>, selected: Option<string>, query: string)
    requires selected == None || selected == Some("")
    requires IsBlank(query)
    ensures FilterProducts(products, selected, query) == products
  {
    TrimEmptyIffBlank(query);
  }

  /** The filter only deletes: it keeps the catalog's order and never adds
      or repeats a product. */
  lemma FilterKeepsOrder(products: seq<Product>, selected: Option<string>, query: string)
    ensures IsSubsequence(FilterProducts(products, selected, query), products)
    ensures multiset(FilterProducts(products, selected, query)) <= multiset(products)
  {
    FilterProductsIsVisibleFilter(products, selected, query);
    FilterIsSubsequence(products, VisibleTest(selected, query));
    forall p
      ensures multiset(FilterProducts(products, selected, query))[p] <= multiset(products)[p]
    {
      FilterCounts(products, VisibleTest(selected, query), p);
    }
  }

  /** The filter is exact: a product is shown, as many times as it is in
      the catalog, exactly when it is visible. */
  lemma FilterIsExact(products: seq<Product>, selected: Option<string>, query: string, p: Product)
    ensures p in FilterProducts(products, selected, query) <==> p in products && Visible(p, selected, query)
    ensures multiset(FilterProducts(products, selected, query))[p]
         == if Visible(p, selected, query) then multiset(products)[p] else 0
  {
    FilterProductsIsVisibleFilter(products, selected, query);
    FilterCounts(products, VisibleTest(selected, query), p);
  }

  /** With a category selected, every shown product is in it. */
  lemma SelectedCategoryOnly(products: seq<Product>, c: string, query: string)
    requires c != []
    ensures forall p :: p in FilterProducts(products, Some(c), query) ==> p.category_id == c
  {
    forall p | p in FilterProducts(products, Some(c), query)
      ensures p.category_id == c
    {
      FilterIsExact(products, Some(c), query, p);
    }
  }

  /** With a non-blank query, a catalog product is shown exactly when it
      passes the category stage and its lower-cased name or description
      contains the lower-cased query, surrounding whitespace included. */
  lemma QueryMatchesUntrimmed(products: seq<Product>, selected: Option<string>, query: string, p: Product)
    requires !IsBlank(query)
    requires p in products
    ensures p in FilterProducts(products, selected, query)
        <==> && (CategorySelected(selected) ==> p.category_id == selected.value)
             && (Includes(Lower(p.name), Lower(query)) || Includes(Lower(p.description), Lower(query)))
  {
    FilterIsExact(products, selected, query, p);
  }

  /** Filtering the shown products again with the same criteria shows the
      same products. */
  lemma FilterIdempotentOnCatalog(products: seq<Product>, selected: Option<string>, query: string)
    ensures FilterProducts(FilterProducts(products, selected, query), selected, query)
         == FilterProducts(products, selected, query)
  {
    var shown := FilterProducts(products, selected, query);
    FilterProductsIsVisibleFilter(products, selected, query);
    FilterProductsIsVisibleFilter(shown, selected, query);
    FilterIdempotent(products, VisibleTest(selected, query));
  }

  /** " shirt" is not blank and, being longer than "shirt", is not found in it. */
  lemma PaddedQueryMisses(p: Product)
    requires p.name == "Shirt" && p.description == ""
    ensures !Visible(p, None, " shirt")
  {
    assert " shirt"[1] == 's';
    LowerOfLowerCase(" shirt");
    assert |Lower(p.name)| == 5;
  }

  /** "shirt" is found in the lower-cased name "Shirt". */
  lemma UnpaddedQueryHits(p: Product)
    requires p.name == "Shirt"
    ensures Visible(p, None, "shirt")
  {
    LowerOfLowerCase("shirt");
    assert Lower(p.name) == "shirt";
    assert OccursAt("shirt", "shirt", 0);
  }

  /** Because the query is not trimmed, a leading space stops "Shirt" from
      matching " shirt". */
  lemma LeadingSpaceTakesPartInMatch(shirt: Product)
    requires shirt.name == "Shirt" && shirt.description == ""
    ensures FilterProducts([shirt], None, " shirt") == []
  {
    PaddedQueryMisses(shirt);
    FilterDropsAll([shirt], VisibleTest(None, " shirt"));
    FilterProductsIsVisibleFilter([shirt], None, " shirt");
  }

  /** The same product is found by the query without the space. */
  lemma UnpaddedQueryMatches(shirt: Product)
    requires shirt.name == "Shirt"
    ensures FilterProducts([shirt], None, "shirt") == [shirt]
  {
    UnpaddedQueryHits(shirt);
    FilterKeepsAll([shirt], VisibleTest(None, "shirt"));
    FilterProductsIsVisibleFilter([shirt], None, "shirt");
  }

  /** "shirt" occurs in "blue shirt" at position 5. */
  lemma BlueShirtMatches()
    ensures Includes(Lower("Blue Shirt"), Lower("shirt"))
  {
    LowerOfLowerCase("shirt");
    assert Lower("Blue Shirt") == "blue shirt";
    assert OccursAt("blue shirt", "shirt", 5);
  }

  /** "shirt" occurs neither in "red hat" nor in the empty description. */
  lemma RedHatDoesNotMatch()
    ensures !Includes(Lower("Red Hat"), Lower("shirt"))
    ensures !Includes(Lower(""), Lower("shirt"))
  {
    LowerOfLowerCase("shirt");
    assert Lower("Red Hat") == "red hat";
    forall i | 0 <= i <= 2
      ensures !OccursAt("red hat", "shirt", i)
    {
      assert "red hat"[i] != 's';
    }
  }

  // Visibility of each product of the example below under category "c1" and query "shirt".
  lemma BlueShirtVisible(p: Product)
    requires p.name == "Blue Shirt" && p.category_id == "c1"
    ensures Visible(p, Some("c1"), "shirt")
  {
    BlueShirtMatches();
  }

  lemma RedHatHidden(p: Product)
    requires p.name == "Red Hat" && p.description == ""
    ensures !Visible(p, Some("c1"), "shirt")
  {
    assert !IsBlank("shirt") by { assert "shirt"[0] == 's'; }
    RedHatDoesNotMatch();
  }

  lemma OtherCategoryHidden(p: Product)
    requires p.category_id == "c2"
    ensures !Visible(p, Some("c1"), "shirt")
  {
  }

  /** Category and query compose by intersection: of a blue shirt in
      category "c1", a red hat in "c1" and a blue shirt in "c2", category
      "c1" with query "shirt" shows only the first. */
  lemma CategoryAndQueryIntersect(shirt1: Product, hat: Product, shirt2: Product)
    requires shirt1.name == "Blue Shirt" && shirt1.description == "" && shirt1.category_id == "c1"
    requires hat.name == "Red Hat" && hat.description == "" && hat.category_id == "c1"
    requires shirt2.name == "Blue Shirt" && shirt2.description == "" && shirt2.category_id == "c2"
    ensures FilterProducts([shirt1, hat, shirt2], Some("c1"), "shirt") == [shirt1]
  {
    var visible := VisibleTest(Some("c1"), "shirt");
    BlueShirtVisible(shirt1);
    RedHatHidden(hat);
    OtherCategoryHidden(shirt2);
    FilterKeepsFirstOfThree(shirt1, hat, shirt2, visible);
    FilterProductsIsVisibleFilter([shirt1, hat, shirt2], Some("c1"), "shirt");
  }

  // ---------------------------------------------------------------------
  // Catalog mutations

  /** `handleProductUpdate`: every product whose id is the updated one's
      is replaced by it; the rest stay where they are. */
  function UpdateProduct(products: seq<Product>, updated: Product): (r: seq<Product>)
    ensures |r| == |products|
    ensures forall i :: 0 <= i < |r| ==> r[i].id == products[i].id
    ensures forall i :: 0 <= i < |r| && products[i].id == updated.id ==> r[i] == updated
    ensures forall i :: 0 <= i < |r| && products[i].id != updated.id ==> r[i] == products[i]
  {
    seq(|products|, i requires 0 <= i < |products| =>
      if products[i].id == updated.id then updated else products[i])
  }

  /** An update whose id is not in the catalog changes nothing. */
  lemma UpdateUnknownIdIsNoop(products: seq<Product>, updated: Product)
    requires forall i :: 0 <= i < |products| ==> products[i].id != updated.id
    ensures UpdateProduct(products, updated) == products
  {
  }

  /** Applying the same update twice is applying it once. */
  lemma UpdateIdempotent(products: seq<Product>, updated: Product)
    ensures UpdateProduct(UpdateProduct(products, updated), updated) == UpdateProduct(products, updated)
  {
  }

  /** `handleProductDelete`: after a confirmed prompt the products with
      that id are removed; a refused prompt changes nothing. */
  function DeleteProduct(products: seq<Product>, id: string, confirmed: bool): (r: seq<Product>)
    ensures !confirmed ==> r == products
    ensures confirmed ==> forall p :: p in r <==> p in products && p.id != id
  {
    if confirmed then Filter(products, IdIsNot(id)) else products
  }

  function IdIsNot(id: string): Product -> bool
  {
    (p: Product) => p.id != id
  }

  /** A confirmed delete removes exactly the products with that id, keeps
      every other one as often as it was there, and keeps their order. */
  lemma DeleteRemovesExactlyId(products: seq<Product>, id: string, p: Product)
    ensures IsSubsequence(DeleteProduct(products, id, true), products)
    ensures multiset(DeleteProduct(products, id, true))[p] == if p.id == id then 0 else multiset(products)[p]
  {
    FilterIsSubsequence(products, IdIsNot(id));
    FilterCounts(products, IdIsNot(id), p);
  }

  /** Deleting an id that is not in the catalog changes nothing. */
  lemma DeleteAbsentIsNoop(products: seq<Product>, id: string, confirmed: bool)
    requires forall i :: 0 <= i < |products| ==> products[i].id != id
    ensures DeleteProduct(products, id, confirmed) == products
  {
    FilterKeepsAll(products, IdIsNot(id));
  }

  /** Deleting the same id twice is deleting it once. */
  lemma DeleteIdempotent(products: seq<Product>, id: string)
    ensures DeleteProduct(DeleteProduct(products, id, true), id, true) == DeleteProduct(products, id, true)
  {
    FilterIdempotent(products, IdIsNot(id));
  }

  /** `handleProductAdd`: the submitted fields, with the id and creation
      time the caller supplies, are appended after the existing products. */
  function AddProduct(products: seq<Product>, data: ProductData, id: string, created_at: string): (r: seq<Product>)
    ensures |r| == |products| + 1
    ensures r[..|products|] == products
    ensures DataOf(r[|products|]) == data
    ensures r[|products|].id == id && r[|products|].created_at == created_at
  {
    products + [WithIdentity(data, id, created_at)]
  }

  /** Deleting a freshly added product, whose id no other product has,
      restores the catalog. */
  lemma DeleteUndoesAdd(products: seq<Product>, data: ProductData, id: string, created_at: string)
    requires forall i :: 0 <= i < |products| ==> products[i].id != id
    ensures DeleteProduct(AddProduct(products, data, id, created_at), id, true) == products
  {
    var added := WithIdentity(data, id, created_at);
    FilterAppend(products, [added], IdIsNot(id));
    FilterKeepsAll(products, IdIsNot(id));
    assert Filter([added], IdIsNot(id)) == [];
  }

  // ---------------------------------------------------------------------
  // Screen selection

  datatype Screen = LoadingScreen | AdminScreen | StoreScreen

  /** The screen `AppContent` renders: the loading message while the
      session is being restored, the admin panel when it was requested by
      an administrator, the store otherwise. */
  function ScreenFor(loading: bool, showAdmin: bool, user: Option<User>): (v: Screen)
    ensures v == LoadingScreen <==> loading
    ensures v == AdminScreen <==> !loading && showAdmin && user.Some? && user.value.is_admin
  {
    if loading then LoadingScreen
    else if showAdmin && Auth.IsAdmin(user) then AdminScreen
    else StoreScreen
  }

  /** A visitor who is not an administrator never reaches the admin panel,
      whatever was requested. */
  lemma AdminScreenNeedsAdmin(loading: bool, showAdmin: bool, user: Option<User>)
    requires !Auth.IsAdmin(user)
    ensures ScreenFor(loading, showAdmin, user) != AdminScreen
  {
  }
}
