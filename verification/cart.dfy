/** The shopping cart of app.js (add, remove, set quantity, count, total,
    clear, theme toggle) and the cart page's own operations in cart.js
    (increase, decrease, typed-in quantity, coupons, guarded clear).

    The cart is a sequence of lines; prices are integer cents. */
module Cart {
  import opened Optional
  import opened Strings
  import opened Seqs

  /** A menu item as handed to `addToCart`; only the fields the cart reads. */
  datatype Item = Item(id: int, price: int)

  /** A cart line: the item's fields spread out, plus a quantity. */
  datatype Line = Line(id: int, price: int, quantity: int)

  // ---------------------------------------------------------------------
  // Invariants

  predicate HasId(cart: seq<Line>, id: int) {
    exists i :: 0 <= i < |cart| && cart[i].id == id
  }

  /** Some line for `id` holds `quantity` units. */
  predicate HasLine(cart: seq<Line>, id: int, quantity: int) {
    exists i :: 0 <= i < |cart| && cart[i].id == id && cart[i].quantity == quantity
  }

  /** No two lines share an id. */
  predicate UniqueIds(cart: seq<Line>) {
    forall i, j :: 0 <= i < j < |cart| ==> cart[i].id != cart[j].id
  }

  /** Every line has quantity at least 1. */
  predicate PositiveQuantities(cart: seq<Line>) {
    forall i :: 0 <= i < |cart| ==> cart[i].quantity >= 1
  }

  // ---------------------------------------------------------------------
  // Lookup and sums

  /** `cart.find(line => line.id === id)`, as the index of the first match. */
  function FindIndex(cart: seq<Line>, id: int): (r: Option<nat>)
    ensures r.None? <==> !HasId(cart, id)
    ensures r.Some? ==> r.value < |cart| && cart[r.value].id == id
    ensures r.Some? ==> forall j :: 0 <= j < r.value ==> cart[j].id != id
  {
    if cart == [] then None
    else if cart[0].id == id then Some(0)
    else match FindIndex(cart[1..], id)
      case None => None
      case Some(k) => Some(k + 1)
  }

  /** `cart.reduce((t, line) => t + f(line), 0)`. */
  function Sum(cart: seq<Line>, f: Line -> int): int {
    if cart == [] then 0 else f(cart[0]) + Sum(cart[1..], f)
  }

  function QuantityOf(l: Line): int { l.quantity }

  function Subtotal(l: Line): int { l.price * l.quantity }

  lemma {:induction false} SumAppend(a: seq<Line>, b: seq<Line>, f: Line -> int)
    ensures Sum(a + b, f) == Sum(a, f) + Sum(b, f)
  {
    if a == [] {
      assert a + b == b;
    } else {
      assert (a + b)[0] == a[0];
      assert (a + b)[1..] == a[1..] + b;
      SumAppend(a[1..], b, f);
    }
  }

  /** Replacing one line changes the sum by the difference of the two. */
  lemma {:induction false} SumUpdate(cart: seq<Line>, k: nat, l: Line, f: Line -> int)
    requires k < |cart|
    ensures Sum(cart[k := l], f) == Sum(cart, f) - f(cart[k]) + f(l)
  {
    if k > 0 {
      assert cart[k := l][1..] == cart[1..][k - 1 := l];
      SumUpdate(cart[1..], k - 1, l, f);
    }
  }

  /** A lower bound on every term bounds the sum by that many times it. */
  lemma {:induction false} SumAtLeast(cart: seq<Line>, f: Line -> int, b: int)
    ensures (forall i :: 0 <= i < |cart| ==> f(cart[i]) >= b) ==> Sum(cart, f) >= b * |cart|
  {
    if cart != [] && forall i :: 0 <= i < |cart| ==> f(cart[i]) >= b {
      assert forall i :: 0 <= i < |cart[1..]| ==> f(cart[1..][i]) >= b by {
        forall i | 0 <= i < |cart[1..]| ensures f(cart[1..][i]) >= b {
          assert cart[1..][i] == cart[i + 1];
        }
      }
      SumAtLeast(cart[1..], f, b);
      assert b * |cart| == b + b * |cart[1..]|;
    }
  }

  /** getCartItemCount: the number of units in the cart. With every
      quantity at least 1 it is at least the number of lines, so it is 0
      exactly for the empty cart. */
  function ItemCount(cart: seq<Line>): (r: int)
    ensures PositiveQuantities(cart) ==> r >= |cart|
    ensures PositiveQuantities(cart) ==> (r == 0 <==> cart == [])
  {
    SumAtLeast(cart, QuantityOf, 1);
    Sum(cart, QuantityOf)
  }

  /** getCartTotal: the sum of price times quantity, in cents; never
      negative when no price is. */
  function Total(cart: seq<Line>): (r: int)
    ensures (forall i :: 0 <= i < |cart| ==> cart[i].price >= 0 && cart[i].quantity >= 0) ==> r >= 0
  {
    SubtotalsNonNegative(cart);
    SumAtLeast(cart, Subtotal, 0);
    Sum(cart, Subtotal)
  }

  lemma SubtotalsNonNegative(cart: seq<Line>)
    ensures (forall i :: 0 <= i < |cart| ==> cart[i].price >= 0 && cart[i].quantity >= 0) ==>
      forall i :: 0 <= i < |cart| ==> Subtotal(cart[i]) >= 0
  {
  }

  // ---------------------------------------------------------------------
  // app.js

  /** addToCart: an existing line for the item gains one unit (keeping the
      price it was added with); otherwise a line with quantity 1 is
      appended. Lines of other items are untouched. */
  function AddToCart(cart: seq<Line>, item: Item): (r: seq<Line>)
    ensures HasId(cart, item.id) ==> |r| == |cart|
    ensures FindIndex(cart, item.id).Some? ==>
      var k := FindIndex(cart, item.id).value;
      r[k].quantity == cart[k].quantity + 1 && forall i :: 0 <= i < |cart| && i != k ==> r[i] == cart[i]
    ensures !HasId(cart, item.id) ==> r == cart + [Line(item.id, item.price, 1)]
    ensures forall i :: 0 <= i < |cart| && cart[i].id != item.id ==> r[i] == cart[i]
    ensures UniqueIds(cart) ==> UniqueIds(r)
    ensures PositiveQuantities(cart) ==> PositiveQuantities(r)
    ensures HasId(r, item.id)
  {
    match FindIndex(cart, item.id)
    case Some(k) =>
      var r := cart[k := cart[k].(quantity := cart[k].quantity + 1)];
      assert r[k].id == item.id;
      r
    case None =>
      var r := cart + [Line(item.id, item.price, 1)];
      assert r[|cart|].id == item.id;
      r
  }

  /** Adding an item raises the unit count by exactly one, and the total by
      the price of that item's line (the item's own price for a new line). */
  lemma AddToCartCounts(cart: seq<Line>, item: Item)
    ensures ItemCount(AddToCart(cart, item)) == ItemCount(cart) + 1
    ensures Total(AddToCart(cart, item)) == Total(cart) +
      (match FindIndex(cart, item.id) case Some(k) => cart[k].price case None => item.price)
  {
    match FindIndex(cart, item.id)
    case Some(k) =>
      assert AddToCart(cart, item) == cart[k := cart[k].(quantity := cart[k].quantity + 1)];
      BumpCounts(cart, k);
    case None =>
      assert AddToCart(cart, item) == cart + [Line(item.id, item.price, 1)];
      AppendCounts(cart, Line(item.id, item.price, 1));
  }

  /** One more unit of line `k` adds one unit and that line's price. */
  lemma BumpCounts(cart: seq<Line>, k: nat)
    requires k < |cart|
    ensures var c := cart[k := cart[k].(quantity := cart[k].quantity + 1)];
      ItemCount(c) == ItemCount(cart) + 1 && Total(c) == Total(cart) + cart[k].price
  {
    var l := cart[k].(quantity := cart[k].quantity + 1);
    SumUpdate(cart, k, l, QuantityOf);
    SumUpdate(cart, k, l, Subtotal);
    assert Subtotal(l) == Subtotal(cart[k]) + cart[k].price by {
      assert l.price * (cart[k].quantity + 1) == l.price * cart[k].quantity + l.price;
    }
  }

  /** Appending a line adds its units and its subtotal. */
  lemma AppendCounts(cart: seq<Line>, l: Line)
    ensures ItemCount(cart + [l]) == ItemCount(cart) + l.quantity
    ensures Total(cart + [l]) == Total(cart) + l.price * l.quantity
  {
    SumAppend(cart, [l], QuantityOf);
    SumAppend(cart, [l], Subtotal);
    assert Sum([l], QuantityOf) == l.quantity;
    assert Sum([l], Subtotal) == l.price * l.quantity;
  }

  function HasOtherId(id: int): Line -> bool {
    (l: Line) => l.id != id
  }

  /** removeFromCart: every line with that id goes; the others stay in
      their original order. */
  function RemoveFromCart(cart: seq<Line>, id: int): (r: seq<Line>)
    ensures !HasId(r, id)
    ensures forall i :: 0 <= i < |cart| && cart[i].id != id ==> cart[i] in r
    ensures forall i :: 0 <= i < |r| ==> r[i] in cart
    ensures IsSubsequence(r, cart)
    ensures !HasId(cart, id) ==> r == cart
  {
    if HasId(cart, id) then Filter(cart, HasOtherId(id))
    else
      FilterAll(cart, HasOtherId(id));
      Filter(cart, HasOtherId(id))
  }

  /** Removing lines keeps ids unique and quantities positive. */
  lemma RemovePreserves(cart: seq<Line>, id: int)
    ensures UniqueIds(cart) ==> UniqueIds(RemoveFromCart(cart, id))
    ensures PositiveQuantities(cart) ==> PositiveQuantities(RemoveFromCart(cart, id))
  {
    var r := RemoveFromCart(cart, id);
    SubsequencePreserves(r, cart);
  }

  lemma {:induction false} SubsequencePreserves(a: seq<Line>, b: seq<Line>)
    requires IsSubsequence(a, b)
    ensures UniqueIds(b) ==> UniqueIds(a)
    ensures PositiveQuantities(b) ==> PositiveQuantities(a)
    decreases |b|
  {
    if a != [] {
      if a[0] == b[0] && IsSubsequence(a[1..], b[1..]) {
        SubsequencePreserves(a[1..], b[1..]);
        SubsequenceMembers(a[1..], b[1..]);
      } else {
        SubsequencePreserves(a, b[1..]);
      }
    }
  }

  lemma {:induction false} SubsequenceMembers(a: seq<Line>, b: seq<Line>)
    requires IsSubsequence(a, b)
    ensures forall i :: 0 <= i < |a| ==> a[i] in b
    decreases |b|
  {
    if a != [] {
      if a[0] == b[0] && IsSubsequence(a[1..], b[1..]) {
        SubsequenceMembers(a[1..], b[1..]);
      } else {
        SubsequenceMembers(a, b[1..]);
      }
    }
  }

  /** updateCartItemQuantity: for an id in the cart, a quantity of 0 or
      less removes it and a positive one is set on its line; an unknown id
      changes nothing. */
  function UpdateCartItemQuantity(cart: seq<Line>, id: int, quantity: int): (r: seq<Line>)
    ensures !HasId(cart, id) ==> r == cart
    ensures HasId(cart, id) && quantity <= 0 ==> r == RemoveFromCart(cart, id)
    ensures HasId(cart, id) && quantity > 0 ==>
      && |r| == |cart|
      && HasLine(r, id, quantity)
      && forall i :: 0 <= i < |cart| ==>
        && r[i].id == cart[i].id && r[i].price == cart[i].price
        && (cart[i].id != id ==> r[i] == cart[i])
  {
    match FindIndex(cart, id)
    case None => cart
    case Some(k) =>
      if quantity <= 0 then RemoveFromCart(cart, id)
      else
        var r := cart[k := cart[k].(quantity := quantity)];
        assert r[k].id == id && r[k].quantity == quantity;
        r
  }

  /** Setting a quantity keeps ids unique; with unique ids a positive
      quantity lands on the one line with that id, so afterwards that line
      holds exactly the quantity set. */
  lemma UpdatePreserves(cart: seq<Line>, id: int, quantity: int)
    requires UniqueIds(cart)
    ensures UniqueIds(UpdateCartItemQuantity(cart, id, quantity))
    ensures PositiveQuantities(cart) ==>
      PositiveQuantities(UpdateCartItemQuantity(cart, id, quantity))
    ensures HasId(cart, id) && quantity > 0 ==>
      forall i :: 0 <= i < |cart| ==>
        UpdateCartItemQuantity(cart, id, quantity)[i] ==
          (if cart[i].id == id then cart[i].(quantity := quantity) else cart[i])
  {
    RemovePreserves(cart, id);
  }

  /** clearCart (app.js): empty cart, nothing to count, nothing to pay. */
  function ClearCart(cart: seq<Line>): (r: seq<Line>)
    ensures r == []
    ensures ItemCount(r) == 0 && Total(r) == 0
  {
    []
  }

  // ---------------------------------------------------------------------
  // Theme

  /** toggleTheme: 'light' becomes 'dark'; anything else becomes 'light'. */
  function ToggleTheme(theme: string): (r: string)
    ensures r == "light" || r == "dark"
    ensures r == "dark" <==> theme == "light"
  {
    if theme == "light" then "dark" else "light"
  }

  /** Two toggles restore either theme; from any other stored value two
      toggles give 'dark'. */
  lemma ToggleTwice(theme: string)
    ensures theme == "light" || theme == "dark" ==> ToggleTheme(ToggleTheme(theme)) == theme
    ensures theme != "light" && theme != "dark" ==> ToggleTheme(ToggleTheme(theme)) == "dark"
  {
  }

  /** loadTheme: the stored theme, or 'light' when none (or an empty one)
      is stored. */
  function LoadTheme(saved: Option<string>): (r: string)
    ensures r != ""
    ensures saved.Some? && saved.value != "" ==> r == saved.value
    ensures saved.None? || saved.value == "" ==> r == "light"
  {
    if saved.Some? && saved.value != "" then saved.value else "light"
  }

  /** setTheme stores the theme it sets, so a reload after a toggle
      shows the toggled theme, and a reload right after loading shows the
      same one. */
  lemma ThemeSurvivesReload(saved: Option<string>)
    ensures LoadTheme(Some(ToggleTheme(LoadTheme(saved)))) == ToggleTheme(LoadTheme(saved))
    ensures LoadTheme(Some(LoadTheme(saved))) == LoadTheme(saved)
  {
  }

  // ---------------------------------------------------------------------
  // cart.js

  /** increaseQuantity: one more unit on the first line with that id; an
      unknown id changes nothing. */
  function IncreaseQuantity(cart: seq<Line>, id: int): (r: seq<Line>)
    ensures |r| == |cart|
    ensures !HasId(cart, id) ==> r == cart
    ensures FindIndex(cart, id).Some? ==>
      var k := FindIndex(cart, id).value;
      r[k].quantity == cart[k].quantity + 1 && forall i :: 0 <= i < |cart| && i != k ==> r[i] == cart[i]
    ensures forall i :: 0 <= i < |cart| ==> r[i].id == cart[i].id && r[i].price == cart[i].price
    ensures forall i :: 0 <= i < |cart| && cart[i].id != id ==> r[i] == cart[i]
  {
    match FindIndex(cart, id)
    case None => cart
    case Some(k) => cart[k := cart[k].(quantity := cart[k].quantity + 1)]
  }

  /** The home page's add button and the cart page's plus button agree on
      an item already in the cart. */
  lemma AddExistingIsIncrease(cart: seq<Line>, item: Item)
    requires HasId(cart, item.id)
    ensures AddToCart(cart, item) == IncreaseQuantity(cart, item.id)
  {
  }

  /** decreaseQuantity: one unit fewer, but only from a line holding more
      than one; at quantity 1 (or for an unknown id) nothing changes. */
  function DecreaseQuantity(cart: seq<Line>, id: int): (r: seq<Line>)
    ensures |r| == |cart|
    ensures !HasId(cart, id) ==> r == cart
    ensures FindIndex(cart, id).Some? && cart[FindIndex(cart, id).value].quantity > 1 ==>
      var k := FindIndex(cart, id).value;
      r[k].quantity == cart[k].quantity - 1 && forall i :: 0 <= i < |cart| && i != k ==> r[i] == cart[i]
    ensures forall i :: 0 <= i < |cart| ==> r[i].id == cart[i].id && r[i].price == cart[i].price
    ensures forall i :: 0 <= i < |cart| && cart[i].id != id ==> r[i] == cart[i]
  {
    match FindIndex(cart, id)
    case None => cart
    case Some(k) =>
      if cart[k].quantity > 1 then cart[k := cart[k].(quantity := cart[k].quantity - 1)] else cart
  }

  /** updateQuantity: the typed-in value is read with `parseInt`; only a
      result above 0 is passed on (NaN and non-positive values are
      dropped), so this never removes a line. */
  function UpdateQuantity(cart: seq<Line>, id: int, input: string): (r: seq<Line>)
    ensures |r| == |cart|
    ensures forall i :: 0 <= i < |cart| ==> r[i].id == cart[i].id && r[i].price == cart[i].price
  {
    match ParseInt(input)
    case Some(q) =>
      if q > 0 then UpdateCartItemQuantity(cart, id, q) else cart
    case None => cart
  }

  /** The cart page's three quantity controls keep every quantity at 1 or
      more, and the ids in the cart unchanged. */
  lemma QuantityControlsKeepPositive(cart: seq<Line>, id: int, input: string)
    requires PositiveQuantities(cart)
    ensures PositiveQuantities(IncreaseQuantity(cart, id))
    ensures PositiveQuantities(DecreaseQuantity(cart, id))
    ensures PositiveQuantities(UpdateQuantity(cart, id, input))
  {
  }

  /** Decreasing never goes below 1, is a no-op on a line at 1, and
      otherwise removes exactly one unit from the count; increasing adds
      exactly one unit to the count. */
  lemma QuantityControlsEffect(cart: seq<Line>, id: int)
    ensures forall i :: 0 <= i < |cart| && cart[i].quantity >= 1 ==>
      DecreaseQuantity(cart, id)[i].quantity >= 1
    ensures FindIndex(cart, id).Some? && cart[FindIndex(cart, id).value].quantity == 1 ==>
      DecreaseQuantity(cart, id) == cart
    ensures FindIndex(cart, id).Some? && cart[FindIndex(cart, id).value].quantity > 1 ==>
      ItemCount(DecreaseQuantity(cart, id)) == ItemCount(cart) - 1
    ensures HasId(cart, id) ==> ItemCount(IncreaseQuantity(cart, id)) == ItemCount(cart) + 1
    ensures !HasId(cart, id) ==> ItemCount(IncreaseQuantity(cart, id)) == ItemCount(cart)
  {
    match FindIndex(cart, id)
    case None =>
    case Some(k) =>
      SumUpdate(cart, k, cart[k].(quantity := cart[k].quantity + 1), QuantityOf);
      SumUpdate(cart, k, cart[k].(quantity := cart[k].quantity - 1), QuantityOf);
  }

  /** With every quantity at least 1, the minus button undoes the plus
      button. */
  lemma DecreaseUndoesIncrease(cart: seq<Line>, id: int)
    requires PositiveQuantities(cart)
    ensures DecreaseQuantity(IncreaseQuantity(cart, id), id) == cart
  {
    match FindIndex(cart, id)
    case None =>
    case Some(k) =>
      var up := IncreaseQuantity(cart, id);
      FindIndexUpdate(cart, k, up[k]);
      assert DecreaseQuantity(up, id) == up[k := up[k].(quantity := up[k].quantity - 1)];
      assert up[k := up[k].(quantity := up[k].quantity - 1)] == cart;
  }

  /** Changing a line's quantity does not move the first line with that id. */
  lemma FindIndexUpdate(cart: seq<Line>, k: nat, l: Line)
    requires k < |cart| && FindIndex(cart, cart[k].id) == Some(k) && l.id == cart[k].id
    ensures FindIndex(cart[k := l], l.id) == Some(k)
  {
    var c := cart[k := l];
    assert forall j :: 0 <= j < k ==> c[j].id != l.id;
    assert c[k].id == l.id;
  }

  /** A typed-in "0", a negative number or text with no leading digits
      leaves the cart exactly as it was. */
  lemma UpdateQuantityIgnoresNonPositive(cart: seq<Line>, id: int, input: string)
    requires ParseInt(input).None? || ParseInt(input).value <= 0
    ensures UpdateQuantity(cart, id, input) == cart
  {
  }

  /** A typed-in decimal number above 0 sets exactly that quantity. */
  lemma UpdateQuantityDecimal(cart: seq<Line>, id: int, n: nat)
    requires n > 0
    ensures UpdateQuantity(cart, id, ShowNat(n)) == UpdateCartItemQuantity(cart, id, n)
  {
    ParseShowNat(n);
  }

  // ---------------------------------------------------------------------
  // Coupons

  /** The three coupons; amounts in percent or cents. */
  datatype Coupon = Percentage(percent: nat, description: string) | Fixed(cents: nat, description: string)

  /** `validCoupons[code.toUpperCase()]`. None of the three keys is the
      upper-cased form of an `Object.prototype` property name, so only they
      are found. */
  function LookupCoupon(code: string): (r: Option<Coupon>)
    ensures r.Some? <==> ToUpper(code) in {"WELCOME10", "FREESHIP", "SAVE5"}
  {
    var key := ToUpper(code);
    if key == "WELCOME10" then Some(Percentage(10, "10% off"))
    else if key == "FREESHIP" then Some(Fixed(399, "Free shipping"))
    else if key == "SAVE5" then Some(Fixed(500, "$5 off"))
    else None
  }

  /** applyCoupon: true, with the coupon applied, exactly when the code is
      valid; otherwise false and the applied coupon is unchanged. */
  function ApplyCoupon(applied: Option<Coupon>, code: string): (r: (bool, Option<Coupon>))
    ensures r.0 <==> ToUpper(code) in {"WELCOME10", "FREESHIP", "SAVE5"}
    ensures r.0 ==> r.1 == LookupCoupon(code) && r.1.Some?
    ensures !r.0 ==> r.1 == applied
  {
    match LookupCoupon(code)
    case Some(c) => (true, Some(c))
    case None => (false, applied)
  }

  /** Codes are matched without regard to ASCII letter case. */
  lemma CouponCaseInsensitive(code: string)
    ensures ApplyCoupon(None, ToLower(code)).0 == ApplyCoupon(None, code).0
  {
    UpperOfLower(code);
  }

  /** removeCoupon. */
  function RemoveCoupon(applied: Option<Coupon>): (r: Option<Coupon>)
    ensures r.None?
  {
    None
  }

  /** clearCart (cart.js): an empty cart is reported and left alone;
      otherwise the cart is emptied only if the user confirms. */
  function ClearCartConfirmed(cart: seq<Line>, confirmed: bool): (r: seq<Line>)
    ensures cart == [] ==> r == cart
    ensures r == cart || (r == [] && confirmed)
    ensures confirmed ==> r == []
  {
    if cart == [] then cart
    else if confirmed then ClearCart(cart)
    else cart
  }
}
