# Storefront catalog and session logic, modelled in Dafny

This project models the logic of a small client-side storefront written in
React and TypeScript. That logic is spread across the components:

- the catalog filter behind the product grid: a category plus a free-text search;
- the three catalog mutations the admin panel calls back into (update, delete, add);
- the mock sign-in provider with its saved session;
- the admin dashboard figures, the product form and its submit;
- the header's cart count and navigation;
- the stock badges on a product card.

Each piece is a pure Dafny function over immutable records that mirror
`src/types/index.ts`. Prices and stock are integers, and strings are
sequences of characters.

Modules follow the source files:

| module | source | file |
|---|---|---|
| `Types` | `src/types/index.ts` | `types.dfy` |
| `App` | `src/App.tsx` | `app.dfy` |
| `Auth` | `src/contexts/AuthContext.tsx` | `auth.dfy` |
| `AdminPanel` | `src/components/AdminPanel.tsx` | `admin_panel.dfy` |
| `Header` | `src/components/Header.tsx` | `header.dfy` |
| `ProductCard` | `src/components/ProductCard.tsx` | `product_card.dfy` |
| `Seqs` | JavaScript `filter` / `reduce` | `seqs.dfy` |
| `Text` | JavaScript `trim` / `toLowerCase` / `includes` | `text.dfy` |
| `Options` | `T \| null` | `options.dfy` |

Inputs the code gets from the browser become parameters:

- the clock and the id generator are the `id` and `created_at` arguments of `App.AddProduct`;
- the answer of `confirm()` is the `confirmed` argument of `App.DeleteProduct`;
- browser storage is the `stored` field of `Auth.Session`, an optional `User`.

## Behaviour of the code that the model keeps

- The search query is tested for blankness after `trim()`, but it is matched
  untrimmed (src/App.tsx:34-35). `App.LeadingSpaceTakesPartInMatch` shows the effect.
- The category test is JavaScript truthiness (src/App.tsx:30). An empty string
  therefore applies no category restriction, exactly like `null`.
- Ids are `Date.now().toString()` and are not guaranteed unique. No lemma
  assumes uniqueness unless it states it as a precondition. An edit overwrites
  every entry that shares the edited id, creation time included
  (`AdminPanel.SubmitEditUpdatesInPlace`).
- The product form falls back to the first category when the product's
  `category_id` is empty (src/components/AdminPanel.tsx:46). Opening such a
  product for editing and saving it untouched therefore moves it into the first
  category (`AdminPanel.UnchangedEditIsNoop`).
- The saved session is read with a bare `JSON.parse` (src/contexts/AuthContext.tsx:22).
  Nothing recovers from a corrupt value, so no recovery path is modelled.
  The stored value is an `Option<User>` that is assumed to round-trip.
- A negative stock shows the orange cell in the admin table but no badge on the
  product card (`ProductCard.CardAgreesWithAdminTable`).

## Model

| member | source | states |
|---|---|---|
| Seqs.Filter | src/App.tsx:28-42 | the filtered list is no longer than its input, and a value is in it iff it is in the input and passes the test |
| Seqs.FilterIsSubsequence | src/App.tsx:31 | `filter` keeps order and only deletes: its result is a subsequence of its input |
| Seqs.FilterCounts | src/App.tsx:36 | `filter` keeps every occurrence of a passing value and none of a failing one |
| Seqs.SumLeftIsSum | src/components/Header.tsx:18 | the left-to-right `reduce` from an accumulator equals the accumulator plus the reference sum |
| Text.TrimStart | src/App.tsx:34 | only leading whitespace is removed, and the result does not start with whitespace |
| Text.TrimEnd | src/App.tsx:34 | only trailing whitespace is removed, and the result does not end with whitespace |
| Text.Trim | src/App.tsx:34 | `trim()` returns the slice of the input between its leading and trailing whitespace, and that slice neither starts nor ends with whitespace |
| Text.TrimEmptyIffBlank | src/App.tsx:34 | `query.trim()` is falsy exactly when every character of the query is whitespace |
| Text.LowerChar | src/App.tsx:35-38 | an ASCII capital becomes the lower-case letter at the same alphabet position; every other character is unchanged |
| Text.Lower | src/App.tsx:35 | lower-casing keeps the length and lower-cases each character on its own, so "Shirt" becomes "shirt" |
| Text.Includes | src/App.tsx:37-38 | `includes` is true exactly when the needle occurs at some position of the haystack |
| Text.IncludesEmpty | src/App.tsx:37-38 | every string includes the empty string |
| Types.WithIdentity | src/App.tsx:56-60 | the new product carries the submitted fields plus the given id and creation time |
| App.FilterProducts | src/App.tsx:27-43 | the memo is no longer than the catalog, and a product is in it iff it is in the catalog and passes the category test (when one is selected) and the search test (when the query is not blank) |
| App.FilterProductsIsVisibleFilter | src/App.tsx:27-43 | the two-stage memo (category, then non-blank query) equals one filter by the declarative `Visible` test |
| App.NoCriteriaShowsAll | src/App.tsx:27-43 | with category null or "" and a blank query, the whole catalog is shown in order |
| App.FilterKeepsOrder | src/App.tsx:28-42 | the shown list is a subsequence of the catalog, with nothing added or repeated |
| App.FilterIsExact | src/App.tsx:27-43 | a product is shown iff it is in the catalog and visible, and then as often as it is in the catalog |
| App.SelectedCategoryOnly | src/App.tsx:30-32 | with a non-empty category selected, every shown product has that `category_id` |
| App.QueryMatchesUntrimmed | src/App.tsx:30-40 | with a non-blank query and any category selection, a catalog product is shown iff it passes the category test and its lower-cased name or description contains the lower-cased, untrimmed query |
| App.FilterIdempotentOnCatalog | src/App.tsx:27-43 | filtering the shown list again with the same criteria returns it unchanged |
| App.LeadingSpaceTakesPartInMatch | src/App.tsx:34-35 | the query " shirt" does not find a product named "Shirt" with an empty description, because the space is matched |
| App.UnpaddedQueryMatches | src/App.tsx:34-40 | the query "shirt" finds the product named "Shirt" despite the case difference |
| App.CategoryAndQueryIntersect | src/App.tsx:30-40 | category "c1" with query "shirt" keeps only the "c1" shirt from [c1 shirt, c1 hat, c2 shirt] |
| App.UpdateProduct | src/App.tsx:45-47 | update keeps the length and every id; entries with the updated id become the updated product; the others are unchanged |
| App.UpdateUnknownIdIsNoop | src/App.tsx:45-47 | an update whose id is not in the catalog changes nothing |
| App.UpdateIdempotent | src/App.tsx:45-47 | applying the same update twice equals applying it once |
| App.DeleteProduct | src/App.tsx:49-53 | an unconfirmed delete changes nothing; a confirmed one keeps exactly the products with another id |
| App.DeleteRemovesExactlyId | src/App.tsx:49-53 | a confirmed delete keeps order, drops every entry with the id, and keeps every other entry as often as before |
| App.DeleteAbsentIsNoop | src/App.tsx:49-53 | deleting an id that is not in the catalog changes nothing |
| App.DeleteIdempotent | src/App.tsx:49-53 | deleting the same id twice equals deleting it once |
| App.AddProduct | src/App.tsx:55-62 | add appends exactly one product, with the submitted fields and the given id and time, and leaves the earlier entries unchanged |
| App.DeleteUndoesAdd | src/App.tsx:49-62 | deleting a just-added product whose id is new restores the catalog |
| App.ScreenFor | src/App.tsx:64-73 | the loading screen shows iff loading; the admin panel shows iff not loading, it was requested, and the user is an admin |
| App.AdminScreenNeedsAdmin | src/App.tsx:73 | a visitor who is not an admin never gets the admin panel |
| Auth.Authenticate | src/contexts/AuthContext.tsx:27-53 | exactly the two fixed email/password pairs sign in, as the administrator and the customer respectively |
| Auth.Mount | src/contexts/AuthContext.tsx:15-16 | at mount nobody is signed in and loading is true |
| Auth.Restore | src/contexts/AuthContext.tsx:18-25 | a saved session becomes the current user; an absent one leaves the user unchanged; loading ends in both cases |
| Auth.StartupRestoresStored | src/contexts/AuthContext.tsx:15-25 | after a page load the current user is the saved one (or nobody) and loading is false |
| Auth.Login | src/contexts/AuthContext.tsx:27-53 | login succeeds iff the pair is in the table; on success the user and the saved session are that identity; otherwise nothing changes |
| Auth.Logout | src/contexts/AuthContext.tsx:56-59 | logout clears both the user and the saved session |
| Auth.IsAdmin | src/contexts/AuthContext.tsx:67 | nobody is never an admin; a signed-in user is one iff the record's `is_admin` flag is set |
| Auth.SyncedInvariant | src/contexts/AuthContext.tsx:18-59 | start-up, login and logout all keep the current user equal to the saved one |
| Auth.AdminLogin | src/contexts/AuthContext.tsx:29-38 | the admin pair signs in as ("1", "Store Admin", admin) and saves that record |
| Auth.CustomerLogin | src/contexts/AuthContext.tsx:41-50 | the customer pair signs in as ("2", "John Doe", not admin) and saves that record |
| Auth.RejectedLogins | src/contexts/AuthContext.tsx:27-53 | a wrong password, a differently-cased email, or a crossed pair fails and leaves the session unchanged |
| Auth.LoginThenReload | src/contexts/AuthContext.tsx:18-50 | after a successful login, reloading the page restores the same user |
| Auth.LogoutThenReload | src/contexts/AuthContext.tsx:18-59 | after logout, reloading the page restores nobody and no admin flag |
| Auth.AdminOnlyByAdminCredentials | src/contexts/AuthContext.tsx:27-67 | starting without the admin flag, login yields the flag iff the admin credentials were used |
| Auth.RunKeepsTableUsers | src/contexts/AuthContext.tsx:18-67 | along any sequence of logins and logouts, the user stays equal to the saved session and is nobody or a table identity, so the admin flag is held exactly by the administrator identity |
| Auth.ReachableFromEmptyStorage | src/contexts/AuthContext.tsx:18-59 | every session reachable from a page load with nothing saved is synced and holds nobody or a table identity |
| AdminPanel.Dashboard | src/components/AdminPanel.tsx:25-28 | the count is the catalog length; the value is the sum of price times stock; the low-stock and out-of-stock lists are subsequences of the catalog that hold every product with stock below 10, respectively stock 0, as often as the catalog does, and no other; out ≤ low ≤ total |
| AdminPanel.OutOfStockWithinLowStock | src/components/AdminPanel.tsx:27-28 | the out-of-stock list equals the low-stock list filtered by stock 0, and is a subsequence of it |
| AdminPanel.EmptyDashboard | src/components/AdminPanel.tsx:25-28 | an empty catalog has count 0, value 0 and empty lists |
| AdminPanel.InventoryValueNonNegative | src/components/AdminPanel.tsx:26 | with non-negative prices and stock, the inventory value is non-negative |
| AdminPanel.AddRaisesInventory | src/components/AdminPanel.tsx:25-26 | adding a product raises the value by its price times its stock, and the count by one |
| AdminPanel.FirstCategoryId | src/components/AdminPanel.tsx:46 | the fallback category is the first category's id, or "" when there are no categories |
| AdminPanel.InitialForm | src/components/AdminPanel.tsx:41-48 | a new-product form starts empty, with 0 price, 0 stock and the first category; an edit form starts from the product's fields; an empty category falls back to the first one |
| AdminPanel.Merge | src/components/AdminPanel.tsx:32 | the merged record keeps the edited product's id and creation time and takes all form fields |
| AdminPanel.Submit | src/components/AdminPanel.tsx:30-38 | editing dispatches an update of the merged product; otherwise it dispatches an add of the form data; the form closes and editing is cleared |
| AdminPanel.Apply | src/components/AdminPanel.tsx:30-38 | an update callback keeps the catalog's length and ids, replaces every entry with the updated id by the updated product and leaves the others unchanged; an add callback appends one product with the form fields and the given id and time after the unchanged catalog |
| AdminPanel.SubmitEditUpdatesInPlace | src/components/AdminPanel.tsx:30-38 | an edit submit keeps the catalog's length and ids; every entry with the edited id takes the form fields and the edited product's creation time; all other entries are unchanged |
| AdminPanel.SubmitNewAppends | src/components/AdminPanel.tsx:33-35 | a new-product submit appends one product with the form fields and leaves the existing entries unchanged |
| AdminPanel.UnchangedEditIsNoop | src/components/AdminPanel.tsx:30-48 | saving an untouched edit form submits the product with an empty category replaced by the first category's id; when every catalog entry with the product's id is that product, the catalog is unchanged if the product has a category or there is none to fall back to, and otherwise only those entries move to the first category |
| AdminPanel.StockBadge | src/components/AdminPanel.tsx:307-313 | the stock cell is red iff stock is 0, orange iff stock is non-zero and below 10, and green iff stock is at least 10 |
| AdminPanel.LowStockRowColor | src/components/AdminPanel.tsx:241-243 | a low-stock row is never green, and is red iff its stock is 0 |
| AdminPanel.LowStockRowAgreesWithTable | src/components/AdminPanel.tsx:237-243 | a product in the low-stock list has the same colour there as in the products table |
| AdminPanel.CategoryCount | src/components/AdminPanel.tsx:355 | a category's count is at most the catalog size, and is 0 iff no product has its id |
| AdminPanel.CategoryCountAppend | src/components/AdminPanel.tsx:355 | the count is 0 for an empty catalog and grows by one exactly for each product added with the category's id, so it is the number of such products |
| AdminPanel.CountsPartitionCatalog | src/components/AdminPanel.tsx:350-356 | with distinct category ids, the card counts add up to the number of products whose category exists; dangling products count nowhere |
| AdminPanel.CountsCoverCatalogIffNoneDangling | src/components/AdminPanel.tsx:350-356 | with distinct category ids, the counts total at most the catalog size, and equal it iff no product has a dangling category |
| Header.ItemCount | src/components/Header.tsx:18 | the item count is the sum of the quantities, and 0 for an empty cart |
| Header.ItemCountAppend | src/components/Header.tsx:18 | the count of two carts joined together is the sum of their counts |
| Header.ShowCartBadge | src/components/Header.tsx:85 | the badge shows only for a non-empty cart |
| Header.PositiveLinesShowBadge | src/components/Header.tsx:85-89 | when every line has a positive quantity, the count is at least the number of lines, and the badge shows iff the cart is non-empty |
| Header.BadgeHasPositiveLine | src/components/Header.tsx:85-89 | a shown badge implies some line has a positive quantity |
| Header.NavFor | src/components/Header.tsx:45-78 | sign-in shows iff signed out; the name, the profile link and logout show iff signed in; the admin link shows iff the user is an admin |
| Header.NavIsConsistent | src/components/Header.tsx:122-148 | sign-in and logout never show together; the admin link only appears with the user menu, and the profile link exactly with it |
| Header.LogoutShowsSignIn | src/components/Header.tsx:66 | after logout the header offers only the sign-in button |
| ProductCard.Controls | src/components/ProductCard.tsx:30-66 | low stock iff 0 < stock < 10; out of stock iff stock is 0; never both; none for negative stock; disabled iff out of stock; the label reads "Out of Stock" iff disabled |
| ProductCard.CardAgreesWithAdminTable | src/components/ProductCard.tsx:30-35 | the card's out-of-stock badge is the table's red cell, and its low-stock badge is the orange cell with positive stock |

## Left out

- The cart reducer (`addToCart`, `removeFromCart`, `updateQuantity`, `clearCart`, `total`) lives in `src/contexts/CartContext.tsx`, which is not part of this model. Only the `CartItem` record and the header's count over it are modelled. `src/components/Cart.tsx` only calls that reducer, so it is left out too.
- Rendering, styling and modal open/close state: `Footer.tsx`, `CategoryFilter.tsx` (it only passes `null` or a category id) and `ProductModal.tsx` (its stock tests repeat the card's). The admin tab switch and the hero-section buttons are left out for the same reason.
- Header.NavFor: models which controls the signed-in or signed-out header offers. It does not model the open/closed state of the desktop dropdown or the mobile menu.
- Floating point: prices and stock are exact integers, for example cents. `toFixed` formatting is left out, and so is the `parseFloat`/`parseInt` form parsing that can produce NaN.
- AdminPanel.InitialForm: `x || 0` is modelled as `x`, which holds for integers. The NaN-to-0 fallback of the source is not modelled.
- The clock, the id generator and `window.confirm` are parameters. `alert` is not modelled.
- `localStorage` and JSON: the saved session is an optional `User`. Serialising and parsing are assumed to round-trip, and a malformed value, which the code would throw on, is not modelled.
- The asynchronous `login` promise and React's `useMemo`/`useState` scheduling: every transition is a synchronous pure function.
- Text.Lower: maps only ASCII A–Z to a–z. JavaScript's `toLowerCase` also lower-cases the rest of Unicode.
- Text.LowerChar: lower-cases only the ASCII capitals A–Z and leaves every other character, non-ASCII capitals included, unchanged; JavaScript's `toLowerCase` also maps the rest of Unicode.
- AdminPanel.Submit: the browser's `required` checks on the form inputs (src/components/AdminPanel.tsx:70,80,92,103,113,130) are not modelled. A submit is taken to happen with whatever form data is given, so `AdminPanel.UnchangedEditIsNoop` also covers an empty fallback category, for which the browser would block the submit and keep the form open.
