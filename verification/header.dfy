/** The page header (`src/components/Header.tsx`): the cart item count and
    which navigation controls are shown for the current user. */
module Header {
  import opened Options
  import opened Seqs
  import opened Types
  import Auth

  function Quantity(item: CartItem): int
  {
    item.quantity
  }

  /** `itemCount`: the cart's quantities added up by a `reduce` from zero. */
  function ItemCount(items: seq<CartItem>): (n: int)
    ensures n == Sum(items, Quantity)
    ensures items == [] ==> n == 0
  {
    SumLeftIsSum(items, Quantity, 0);
    SumLeft(items, Quantity, 0)
  }

  /** The count badge on the cart button; an empty cart never shows it. */
  predicate ShowCartBadge(items: seq<CartItem>)
    ensures ShowCartBadge(items) ==> items != []
  {
    ItemCount(items) > 0
  }

  /** Adding items to the cart adds their quantities to the count. */
  lemma ItemCountAppend(a: seq<CartItem>, b: seq<CartItem>)
    ensures ItemCount(a + b) == ItemCount(a) + ItemCount(b)
  {
    SumAppend(a, b, Quantity);
  }

  /** When every line has a quantity of at least one, the count is at least
      the number of lines, so a non-empty cart shows the badge. */
  lemma PositiveLinesShowBadge(items: seq<CartItem>)
    requires forall i :: 0 <= i < |items| ==> items[i].quantity >= 1
    ensures ItemCount(items) >= |items|
    ensures ShowCartBadge(items) <==> |items| > 0
  {
    SumAtLeastLength(items, Quantity);
  }

  /** A shown badge means some line has a positive quantity. */
  lemma BadgeHasPositiveLine(items: seq<CartItem>) returns (i: nat)
    requires ShowCartBadge(items)
    ensures i < |items| && items[i].quantity > 0
  {
    i := PositiveSumHasPositiveTerm(items, Quantity);
  }

  /** The navigation controls, on the desktop bar and in the mobile menu. */
  datatype Nav = Nav(
    userName: Option<string>,   // the signed-in user's name, shown beside the icon
    adminLink: bool,            // the "Admin Panel" link
    profile: bool,              // the "Profile" link
    logout: bool,               // the "Logout" button
    signIn: bool)               // the bare sign-in button

  /** The controls shown for `user`. */
  function NavFor(user: Option<User>): (nav: Nav)
    ensures nav.signIn <==> user.None?
    ensures nav.logout <==> user.Some?
    ensures nav.profile <==> user.Some?
    ensures nav.userName.Some? <==> user.Some?
    ensures user.Some? ==> nav.userName == Some(user.value.full_name)
    ensures nav.adminLink <==> Auth.IsAdmin(user)
  {
    match user
    case Some(u) => Nav(Some(u.full_name), u.is_admin, true, true, false)
    case None => Nav(None, false, false, false, true)
  }

  /** The sign-in button and the user menu are never shown together, and
      the admin link appears only inside the user menu. */
  lemma NavIsConsistent(user: Option<User>)
    ensures NavFor(user).signIn != NavFor(user).logout
    ensures NavFor(user).adminLink ==> NavFor(user).logout
    ensures NavFor(user).profile == NavFor(user).logout
  {
  }

  /** After logout the header offers only the sign-in button. */
  lemma LogoutShowsSignIn(s: Auth.Session)
    ensures NavFor(Auth.Logout(s).user) == Nav(None, false, false, false, true)
  {
  }
}
