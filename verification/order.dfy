/** The checkout page (order.js): its field rules and per-field check, the
    digit-count phone test, the newest-first order history, submission
    (save, then empty the cart, or stop at the first storage failure) and
    the delivery-time estimate. */
module Order {
  import opened Optional
  import opened Strings
  import opened Forms
  import History
  import Cart

  /** The checkout rule table, by field name; a field not listed has no
      rule. None of the checkout rules has a maximum length. */
  function CheckoutRule(field: string): (r: Option<Rule>)
    ensures r.Some? ==> r.value.maxLength == 0
    ensures r.Some? && r.value.required <==>
      field in {"customerName", "customerPhone", "deliveryAddress", "city", "zipCode"}
    ensures r.Some? && !r.value.required <==> field == "customerEmail"
  {
    if field == "customerName" then Some(Rule(true, 2, 0, Some(Letters)))
    else if field == "customerPhone" then Some(Rule(true, 0, 0, Some(CheckoutPhone)))
    else if field == "customerEmail" then Some(Rule(false, 0, 0, Some(Email)))
    else if field == "deliveryAddress" then Some(Rule(true, 5, 0, None))
    else if field == "city" then Some(Rule(true, 2, 0, Some(Letters)))
    else if field == "zipCode" then Some(Rule(true, 0, 0, Some(Zip)))
    else None
  }

  /** isValidPhone: ten to fifteen digit characters, whatever else the
      value holds. */
  predicate IsValidPhone(phone: string)
    ensures IsValidPhone(phone) ==> |phone| >= 10
    ensures AllDigits(phone) ==> (IsValidPhone(phone) <==> 10 <= |phone| <= 15)
  {
    DigitsOfDigitsIf(phone);
    10 <= |Digits(phone)| <= 15
  }

  lemma DigitsOfDigitsIf(s: string)
    ensures AllDigits(s) ==> Digits(s) == s
  {
    if AllDigits(s) {
      DigitsOfDigits(s);
    }
  }

  /** Only the digits count: punctuation and spaces neither help nor hurt. */
  lemma IsValidPhoneDigitsOnly(phone: string, filler: string)
    requires forall i :: 0 <= i < |filler| ==> !IsDigit(filler[i])
    ensures IsValidPhone(phone + filler) == IsValidPhone(phone)
    ensures IsValidPhone(filler + phone) == IsValidPhone(phone)
    ensures IsValidPhone(Digits(phone)) == IsValidPhone(phone)
  {
    DigitsAppend(phone, filler);
    DigitsAppend(filler, phone);
    DigitsOfNonDigits(filler);
    DigitsOfDigits(Digits(phone));
  }

  /** validateField: the shared rule check on the trimmed value, then the
      email pattern once more (already implied) and, for the phone, the
      digit count. A field with no rule is always valid. */
  function ValidateField(field: string, raw: string): (r: Verdict)
    ensures r == Valid <==>
      || CheckoutRule(field).None?
      || (Check(CheckoutRule(field).value, raw) == Valid
          && (field != "customerPhone" || IsValidPhone(Trim(raw))))
    ensures CheckoutRule(field).None? ==> r == Valid
    ensures CheckoutRule(field).Some? && Check(CheckoutRule(field).value, raw).Invalid? ==>
      r == Check(CheckoutRule(field).value, raw)
    ensures r == Invalid(PhoneDigits) ==>
      field == "customerPhone" && Check(CheckoutRule(field).value, raw) == Valid
      && !IsValidPhone(Trim(raw))
  {
    match CheckoutRule(field)
    case None => Valid
    case Some(rule) =>
      var v := Trim(raw);
      var verdict := Check(rule, raw);
      if verdict.Invalid? then verdict
      else if field == "customerEmail" && v != [] && !Matches(Email, v) then Invalid(Mismatch)
      else if field == "customerPhone" && !IsValidPhone(v) then Invalid(PhoneDigits)
      else Valid
  }

  /** The digits after an optional `+` of a value the phone pattern accepts. */
  lemma CheckoutPhoneDigits(v: string)
    requires Matches(CheckoutPhone, v)
    ensures Digits(v) == AfterPlus(v)
  {
    var u := AfterPlus(v);
    assert u == [u[0]] + u[1..];
    DigitsAppend([u[0]], u[1..]);
    DigitsOfDigits(u[1..]);
    if v[0] == '+' {
      assert v == ['+'] + u;
      DigitsAppend(['+'], u);
    }
  }

  /** The phone is accepted exactly when, after an optional `+`, it is 10
      to 15 digits with no leading zero: the pattern alone would allow 1 to
      16 digits. */
  lemma PhoneAcceptedIff(raw: string)
    ensures ValidateField("customerPhone", raw) == Valid <==>
      var u := AfterPlus(Trim(raw));
      10 <= |u| <= 15 && IsNonZeroDigit(u[0]) && AllDigits(u[1..])
  {
    var v := Trim(raw);
    CheckValidIff(Rule(true, 0, 0, Some(CheckoutPhone)), raw);
    if Matches(CheckoutPhone, v) {
      CheckoutPhoneDigits(v);
    }
  }

  /** The second email test adds nothing to the rule check. */
  lemma EmailRecheckRedundant(raw: string)
    ensures ValidateField("customerEmail", raw) == Check(Rule(false, 0, 0, Some(Email)), raw)
  {
  }

  /** The ZIP field is accepted exactly when its trimmed value is five
      digits, optionally followed by a hyphen and four digits. */
  lemma ZipAcceptedIff(raw: string)
    ensures ValidateField("zipCode", raw) == Valid <==> Matches(Zip, Trim(raw))
  {
    CheckValidIff(Rule(true, 0, 0, Some(Zip)), raw);
  }

  /** A name (or city) is too short before its letters are looked at: a
      one-character value is reported as too short even when it is a digit. */
  lemma NameLengthFirst(raw: string)
    requires |Trim(raw)| == 1
    ensures ValidateField("customerName", raw) == Invalid(TooShort(2))
    ensures ValidateField("city", raw) == Invalid(TooShort(2))
  {
  }

  // ---------------------------------------------------------------------
  // Submission

  /** What an order records; the generated number, time stamp and money
      totals are not modelled. */
  datatype OrderData = OrderData(
    name: string, phone: string, email: string,
    address: string, city: string, zipCode: string, notes: string,
    paymentMethod: string, items: seq<Cart.Line>)

  const HISTORY_CAP: nat := 10

  /** saveOrderData: the order goes first in the history, which keeps at
      most the ten newest orders. */
  function SaveOrderData(history: seq<OrderData>, order: OrderData): (r: seq<OrderData>)
    ensures |r| == History.Min(|history| + 1, HISTORY_CAP)
    ensures r[0] == order
    ensures r[1..] == history[..|r| - 1]
    ensures |history| <= HISTORY_CAP ==> |r| <= HISTORY_CAP
  {
    History.Push(history, order, HISTORY_CAP)
  }

  /** The state submitOrder touches: the saved last order, the history and
      the app's in-memory cart. */
  datatype Stored = Stored(lastOrder: Option<OrderData>, history: seq<OrderData>, cart: seq<Cart.Line>)

  /** The first localStorage step that throws during a submission, if any:
      writing `lastOrder`, reading `orderHistory` (corrupt JSON, or JSON
      that is not an array), writing `orderHistory`, or writing the emptied
      cart. */
  datatype StorageFault = NoFault | LastOrderWrite | HistoryRead | HistoryWrite | CartWrite

  /** What a submission leaves: the state, and whether it went on to the
      confirmation page (`false`: `handleOrderError` ran instead). */
  datatype Submission = Submission(state: Stored, confirmed: bool)

  /** submitOrder: save the order as the last one and into the history,
      then empty the cart, all inside one `try`. A throw skips the rest of
      the steps and shows the error instead of the confirmation; the steps
      already done stay done. `clearCart` empties the in-memory cart before
      its own write can throw. */
  function SubmitOrder(s: Stored, order: OrderData, fault: StorageFault): (r: Submission)
    ensures r.confirmed <==> fault == NoFault
    ensures fault == NoFault || fault == CartWrite ==>
      && r.state.lastOrder == Some(order)
      && r.state.history == SaveOrderData(s.history, order)
      && r.state.cart == []
      && Cart.ItemCount(r.state.cart) == 0 && Cart.Total(r.state.cart) == 0
    ensures fault == LastOrderWrite ==> r.state == s
    ensures fault == HistoryRead || fault == HistoryWrite ==>
      r.state.lastOrder == Some(order) && r.state.history == s.history && r.state.cart == s.cart
  {
    match fault
    case LastOrderWrite => Submission(s, false)
    case HistoryRead => Submission(s.(lastOrder := Some(order)), false)
    case HistoryWrite => Submission(s.(lastOrder := Some(order)), false)
    case CartWrite =>
      Submission(Stored(Some(order), SaveOrderData(s.history, order), Cart.ClearCart(s.cart)), false)
    case NoFault =>
      Submission(Stored(Some(order), SaveOrderData(s.history, order), Cart.ClearCart(s.cart)), true)
  }

  /** A submission that fails before the cart is emptied keeps the cart and
      the history, so trying again and succeeding ends exactly where one
      clean submission would. */
  lemma RetryAfterFailure(s: Stored, order: OrderData, fault: StorageFault)
    requires fault == LastOrderWrite || fault == HistoryRead || fault == HistoryWrite
    ensures SubmitOrder(s, order, fault).state.cart == s.cart
    ensures SubmitOrder(SubmitOrder(s, order, fault).state, order, NoFault) == SubmitOrder(s, order, NoFault)
  {
  }

  /** After a successful submission the newest history entry is the last
      order, the history stays within ten entries, and the earlier orders
      follow in their old order, the oldest dropped only at the cap. */
  lemma SubmitOrderHistory(s: Stored, order: OrderData)
    requires |s.history| <= HISTORY_CAP
    ensures var r := SubmitOrder(s, order, NoFault).state;
      && r.history[0] == r.lastOrder.value
      && |r.history| <= HISTORY_CAP
      && (|s.history| < HISTORY_CAP ==> r.history == [order] + s.history)
  {
    var r := SubmitOrder(s, order, NoFault).state;
    if |s.history| < HISTORY_CAP {
      assert r.history == [r.history[0]] + r.history[1..];
    }
  }

  /** Submitting several orders in turn leaves the newest ten, newest first. */
  lemma SubmitManyKeepsNewest(h: seq<OrderData>, orders: seq<OrderData>)
    requires |h| <= HISTORY_CAP
    ensures History.PushAll(h, orders, HISTORY_CAP) ==
      (History.Reverse(orders) + h)[..History.Min(|orders| + |h|, HISTORY_CAP)]
    ensures |orders| >= HISTORY_CAP ==>
      History.PushAll(h, orders, HISTORY_CAP) == History.Reverse(orders)[..HISTORY_CAP]
  {
    History.PushAllPrefix(h, orders, HISTORY_CAP);
    var all := History.Reverse(orders) + h;
    if |orders| >= HISTORY_CAP {
      assert all[..HISTORY_CAP] == History.Reverse(orders)[..HISTORY_CAP];
    }
  }

  // ---------------------------------------------------------------------
  // Delivery time

  /** calculateDeliveryTime: 30 minutes plus 5 for every full group of
      three cart lines (lines, not units). */
  function DeliveryTime(cart: seq<Cart.Line>): (r: int)
    ensures r >= 30
    ensures (r - 30) % 5 == 0
    ensures 5 * |cart| - 10 <= 3 * (r - 30) <= 5 * |cart|
  {
    30 + (|cart| / 3) * 5
  }

  /** More lines never shorten the estimate, three more lines add exactly
      five minutes, and more units of a line already in the cart change
      nothing. */
  lemma DeliveryTimeMonotone(a: seq<Cart.Line>, b: seq<Cart.Line>, item: Cart.Item)
    ensures |a| <= |b| ==> DeliveryTime(a) <= DeliveryTime(b)
    ensures |b| == |a| + 3 ==> DeliveryTime(b) == DeliveryTime(a) + 5
    ensures Cart.HasId(a, item.id) ==> DeliveryTime(Cart.AddToCart(a, item)) == DeliveryTime(a)
  {
  }
}
