/** The admin panel (`src/components/AdminPanel.tsx`): the dashboard
    figures, the product form's starting values, the submit dispatch into
    the catalog mutations, the stock badges and the per-category counts. */
module AdminPanel {
  import opened Options
  import opened Seqs
  import opened Types
  import App

  // ---------------------------------------------------------------------
  // Dashboard

  /** A product's contribution to the inventory value. */
  function StockValue(p: Product): int
  {
    p.price * p.stock
  }

  predicate IsLowStock(p: Product)
  {
    p.stock < 10
  }

  predicate IsOutOfStock(p: Product)
  {
    p.stock == 0
  }

  /** The reference inventory value: the sum of price times stock. */
  function InventoryValue(products: seq<Product>): int
  {
    Sum(products, StockValue)
  }

  datatype Stats = Stats(
    totalProducts: nat,
    totalValue: int,
    lowStock: seq<Product>,
    outOfStock: seq<Product>)

  /** The dashboard figures. The value is the `reduce` from zero; the two
      lists are filters of the catalog. */
  function Dashboard(products: seq<Product>): (st: Stats)
    ensures st.totalProducts == |products|
    ensures st.totalValue == InventoryValue(products)
    ensures forall p :: p in st.lowStock <==> p in products && p.stock < 10
    ensures forall p :: p in st.outOfStock <==> p in products && p.stock == 0
    ensures IsSubsequence(st.lowStock, products) && IsSubsequence(st.outOfStock, products)
    ensures forall p :: multiset(st.lowStock)[p] == if p.stock < 10 then multiset(products)[p] else 0
    ensures forall p :: multiset(st.outOfStock)[p] == if p.stock == 0 then multiset(products)[p] else 0
    ensures |st.outOfStock| <= |st.lowStock| <= st.totalProducts
  {
    SumLeftIsSum(products, StockValue, 0);
    FilterStrongerIsShorter(products, IsOutOfStock, IsLowStock);
    FilterIsSubsequence(products, IsLowStock);
    FilterIsSubsequence(products, IsOutOfStock);
    FilterCountsAll(products, IsLowStock);
    FilterCountsAll(products, IsOutOfStock);
    Stats(|products|, SumLeft(products, StockValue, 0),
          Filter(products, IsLowStock), Filter(products, IsOutOfStock))
  }

  /** The out-of-stock list is the low-stock list filtered again: every
      out-of-stock product is listed as low on stock too, in the same order. */
  lemma OutOfStockWithinLowStock(products: seq<Product>)
    ensures Dashboard(products).outOfStock == Filter(Dashboard(products).lowStock, IsOutOfStock)
    ensures IsSubsequence(Dashboard(products).outOfStock, Dashboard(products).lowStock)
  {
    FilterFilter(products, IsLowStock, IsOutOfStock, IsOutOfStock);
    FilterIsSubsequence(Filter(products, IsLowStock), IsOutOfStock);
  }

  /** An empty catalog is worth nothing and has nothing to list. */
  lemma EmptyDashboard()
    ensures Dashboard([]) == Stats(0, 0, [], [])
  {
  }

  /** With non-negative prices and stock the inventory value is
      non-negative. */
  lemma InventoryValueNonNegative(products: seq<Product>)
    requires forall i :: 0 <= i < |products| ==> products[i].price >= 0 && products[i].stock >= 0
    ensures Dashboard(products).totalValue >= 0
  {
    SumNonNegative(products, StockValue);
  }

  /** Adding a product raises the inventory value by its price times its
      stock and the product count by one. */
  lemma AddRaisesInventory(products: seq<Product>, data: ProductData, id: string, created_at: string)
    ensures var after := Dashboard(App.AddProduct(products, data, id, created_at));
            && after.totalValue == Dashboard(products).totalValue + data.price * data.stock
            && after.totalProducts == Dashboard(products).totalProducts + 1
  {
    var added := WithIdentity(data, id, created_at);
    SumAppend(products, [added], StockValue);
  }

  // ---------------------------------------------------------------------
  // Product form

  /** JavaScript's `a || b` on strings: `a` unless it is empty. */
  function OrElse(a: string, b: string): (r: string)
    ensures a != [] ==> r == a
    ensures a == [] ==> r == b
  {
    if a != [] then a else b
  }

  /** `categories[0]?.id || ''`. */
  function FirstCategoryId(categories: seq<Category>): (r: string)
    ensures |categories| > 0 ==> r == categories[0].id
    ensures |categories| == 0 ==> r == []
  {
    if |categories| > 0 then OrElse(categories[0].id, "") else ""
  }

  /** The starting values of `ProductForm`: the edited product's fields,
      falling back to empty text, zero and the first category. On integers
      `x || 0` is `x`. */
  function InitialForm(product: Option<Product>, categories: seq<Category>): (d: ProductData)
    ensures product.None? ==> d == ProductData("", "", 0, "", FirstCategoryId(categories), 0)
    ensures product.Some? ==>
              && d.name == product.value.name
              && d.description == product.value.description
              && d.price == product.value.price
              && d.image == product.value.image
              && d.stock == product.value.stock
    ensures product.Some? && product.value.category_id != [] ==> d.category_id == product.value.category_id
    ensures product.Some? && product.value.category_id == [] ==> d.category_id == FirstCategoryId(categories)
  {
    match product
    case None =>
      ProductData("", "", 0, "", OrElse("", FirstCategoryId(categories)), 0)
    case Some(p) =>
      ProductData(OrElse(p.name, ""), OrElse(p.description, ""), p.price, OrElse(p.image, ""),
                  OrElse(p.category_id, FirstCategoryId(categories)), p.stock)
  }

  /** The form state of the panel. */
  datatype FormState = FormState(showForm: bool, editing: Option<Product>)

  /** What a submit asks the catalog to do. */
  datatype Action = UpdateAction(product: Product) | AddAction(data: ProductData)

  datatype SubmitResult = SubmitResult(action: Action, form: FormState)

  /** `{ ...editingProduct, ...productData }`. */
  function Merge(editing: Product, data: ProductData): (p: Product)
    ensures p.id == editing.id && p.created_at == editing.created_at
    ensures DataOf(p) == data
  {
    editing.(name := data.name, description := data.description, price := data.price,
             image := data.image, category_id := data.category_id, stock := data.stock)
  }

  /** `handleProductSubmit`: an update of the edited product when editing,
      an add otherwise; the form closes either way. */
  function Submit(form: FormState, data: ProductData): (r: SubmitResult)
    ensures form.editing.Some? ==> r.action.UpdateAction?
                                   && r.action.product.id == form.editing.value.id
                                   && r.action.product.created_at == form.editing.value.created_at
                                   && DataOf(r.action.product) == data
    ensures form.editing.None? ==> r.action == AddAction(data)
    ensures r.form == FormState(false, None)
  {
    var action := match form.editing
      case Some(e) => UpdateAction(Merge(e, data))
      case None => AddAction(data);
    SubmitResult(action, FormState(false, None))
  }

  /** The catalog after the callback a submit calls; `id` and `created_at`
      are what the clock gives an added product. */
  function Apply(products: seq<Product>, action: Action, id: string, created_at: string): (r: seq<Product>)
    ensures action.UpdateAction? ==> && |r| == |products|
                                     && (forall i :: 0 <= i < |r| ==> r[i].id == products[i].id)
                                     && (forall i :: 0 <= i < |r| && products[i].id == action.product.id ==> r[i] == action.product)
                                     && (forall i :: 0 <= i < |r| && products[i].id != action.product.id ==> r[i] == products[i])
    ensures action.AddAction? ==> && |r| == |products| + 1 && r[..|products|] == products
                                  && DataOf(r[|products|]) == action.data
                                  && r[|products|].id == id && r[|products|].created_at == created_at
  {
    match action
    case UpdateAction(p) => App.UpdateProduct(products, p)
    case AddAction(d) => App.AddProduct(products, d, id, created_at)
  }

  /** Submitting an edit keeps the catalog's size and ids; every entry
      with the edited product's id takes the submitted fields and the
      edited product's creation time (which is its own unless ids are
      shared), and nothing else changes. */
  lemma SubmitEditUpdatesInPlace(products: seq<Product>, e: Product, data: ProductData, id: string, created_at: string)
    ensures var after := Apply(products, Submit(FormState(true, Some(e)), data).action, id, created_at);
            && |after| == |products|
            && (forall i :: 0 <= i < |after| ==> after[i].id == products[i].id)
            && (forall i :: 0 <= i < |after| && products[i].id == e.id ==>
                  DataOf(after[i]) == data && after[i].created_at == e.created_at)
            && (forall i :: 0 <= i < |after| && products[i].id != e.id ==> after[i] == products[i])
  {
  }

  /** Submitting a new product appends it and changes nothing else. */
  lemma SubmitNewAppends(products: seq<Product>, data: ProductData, id: string, created_at: string)
    ensures var after := Apply(products, Submit(FormState(true, None), data).action, id, created_at);
            && |after| == |products| + 1
            && after[..|products|] == products
            && DataOf(after[|products|]) == data
  {
  }

  /** Opening the form on a catalog product and saving it untouched
      submits that product with an empty category replaced by the first
      category's id. So the catalog, in which every entry with its id is
      that product, is unchanged when the product has a category (or there
      is no category to fall back to); otherwise those entries move to the
      first category and nothing else changes. */
  lemma UnchangedEditIsNoop(products: seq<Product>, p: Product, categories: seq<Category>, id: string, created_at: string)
    requires forall i :: 0 <= i < |products| && products[i].id == p.id ==> products[i] == p
    ensures var saved := p.(category_id := if p.category_id != [] then p.category_id else FirstCategoryId(categories));
            && InitialForm(Some(p), categories) == DataOf(saved)
            && Submit(FormState(true, Some(p)), InitialForm(Some(p), categories)).action == UpdateAction(saved)
    ensures var after := Apply(products, Submit(FormState(true, Some(p)), InitialForm(Some(p), categories)).action, id, created_at);
            && |after| == |products|
            && (p.category_id != [] || FirstCategoryId(categories) == [] ==> after == products)
            && (forall i :: 0 <= i < |products| && products[i].id != p.id ==> after[i] == products[i])
            && (p.category_id == [] ==> forall i :: 0 <= i < |products| && products[i].id == p.id ==>
                  after[i] == p.(category_id := FirstCategoryId(categories)))
  {
    var saved := p.(category_id := if p.category_id != [] then p.category_id else FirstCategoryId(categories));
    assert Merge(p, DataOf(saved)) == saved;
    if p.category_id != [] || FirstCategoryId(categories) == [] {
      assert saved == p;
    }
  }

  // ---------------------------------------------------------------------
  // Stock badges

  datatype BadgeColor = Red | Orange | Green

  /** The colour of the stock cell in the products table. */
  function StockBadge(stock: int): (c: BadgeColor)
    ensures c == Red <==> stock == 0
    ensures c == Orange <==> stock != 0 && stock < 10
    ensures c == Green <==> stock >= 10
  {
    if stock == 0 then Red
    else if stock < 10 then Orange
    else Green
  }

  /** The colour of a row in the dashboard's low-stock list. */
  function LowStockRowColor(stock: int): (c: BadgeColor)
    ensures c != Green
    ensures c == Red <==> stock == 0
  {
    if stock == 0 then Red else Orange
  }

  /** A product in the low-stock list gets the same colour there as in the
      products table. */
  lemma LowStockRowAgreesWithTable(products: seq<Product>, p: Product)
    requires p in Dashboard(products).lowStock
    ensures LowStockRowColor(p.stock) == StockBadge(p.stock)
  {
  }

  // ---------------------------------------------------------------------
  // Categories tab

  /** The product count on a category card. */
  function CategoryCount(products: seq<Product>, c: Category): (n: nat)
    ensures n <= |products|
    ensures n == 0 <==> forall p :: p in products ==> p.category_id != c.id
  {
    var inCategory := Filter(products, App.InCategory(c.id));
    assert (forall p :: p in products ==> p.category_id != c.id) ==> inCategory == [] by {
      if |inCategory| > 0 {
        assert inCategory[0] in inCategory;
      }
    }
    |inCategory|
  }

  /** The count is the number of products in the category: none in an
      empty catalog, and one more for each product added in it. */
  lemma CategoryCountAppend(products: seq<Product>, p: Product, c: Category)
    ensures CategoryCount([], c) == 0
    ensures CategoryCount(products + [p], c)
         == CategoryCount(products, c) + (if p.category_id == c.id then 1 else 0)
  {
    FilterAppend(products, [p], App.InCategory(c.id));
  }

  /** The counts on all category cards added up. */
  function CountsTotal(products: seq<Product>, categories: seq<Category>): int
  {
    if |categories| == 0 then 0
    else CategoryCount(products, categories[0]) + CountsTotal(products, categories[1..])
  }

  function CategoryIds(categories: seq<Category>): (ids: seq<string>)
    ensures |ids| == |categories|
    ensures forall i :: 0 <= i < |ids| ==> ids[i] == categories[i].id
  {
    seq(|categories|, i requires 0 <= i < |categories| => categories[i].id)
  }

  /** The product's category is one of `ids`. */
  function InAnyCategory(ids: seq<string>): Product -> bool
  {
    (p: Product) => p.category_id in ids
  }

  predicate DistinctIds(categories: seq<Category>)
  {
    forall i, j :: 0 <= i < j < |categories| ==> categories[i].id != categories[j].id
  }

  /** With distinct category ids, the card counts add up to the number of
      products whose category exists: a product with a dangling category
      counts on no card, and no product counts twice. */
  lemma {:induction false} CountsPartitionCatalog(products: seq<Product>, categories: seq<Category>)
    requires DistinctIds(categories)
    ensures CountsTotal(products, categories) == |Filter(products, InAnyCategory(CategoryIds(categories)))|
  {
    var ids := CategoryIds(categories);
    if |categories| == 0 {
      FilterDropsAll(products, InAnyCategory(ids));
    } else {
      var rest := categories[1..];
      CountsPartitionCatalog(products, rest);
      assert CategoryIds(rest) == ids[1..];
      assert forall x :: x in ids <==> x == ids[0] || x in ids[1..] by {
        assert ids == [ids[0]] + ids[1..];
      }
      assert ids[0] !in ids[1..];
      FilterDisjointUnion(products, App.InCategory(categories[0].id),
                          InAnyCategory(ids[1..]), InAnyCategory(ids));
    }
  }

  /** The card counts add up to the catalog size exactly when no product
      has a dangling category. */
  lemma CountsCoverCatalogIffNoneDangling(products: seq<Product>, categories: seq<Category>)
    requires DistinctIds(categories)
    ensures CountsTotal(products, categories) <= |products|
    ensures CountsTotal(products, categories) == |products|
        <==> forall i :: 0 <= i < |products| ==> products[i].category_id in CategoryIds(categories)
  {
    var inAny := InAnyCategory(CategoryIds(categories));
    CountsPartitionCatalog(products, categories);
    if CountsTotal(products, categories) == |products| {
      FilterFullLength(products, inAny);
    }
    if forall i :: 0 <= i < |products| ==> products[i].category_id in CategoryIds(categories) {
      FilterKeepsAll(products, inAny);
    }
  }
}
