# Bella Vista restaurant PWA — a Dafny model of its core

This project models the logic of the Bella Vista restaurant web app in
Dafny 4.11 and proves properties of that logic. It covers:

- **Service worker** (`sw.js`):
  - the fetch listener's first-match request classifier;
  - the five cache strategies (navigation, static asset, dynamic asset, API, default);
  - the activate-time sweep of old caches;
  - the background sync loop for offline orders.
- **Cart** (`app.js`, `cart.js`):
  - add, remove and set-quantity;
  - item count and total;
  - clearing, with the cart page's confirmation guard;
  - the theme toggle;
  - the cart page's increase, decrease and typed-in quantity controls;
  - the coupon table.
- **Checkout** (`order.js`):
  - the field rules and the order in which they are checked;
  - the digit-count phone test and the ZIP pattern;
  - the newest-first order history (ten entries);
  - submission;
  - the delivery-time estimate.
- **Menu** (`menu.js`):
  - category and search filtering;
  - sorting by price or popularity (stable);
  - resetting the filters;
  - the favourites toggle.
- **Contact page** (`contact.js`):
  - the phone formatter;
  - the field rules;
  - submission with its re-entry guard, and what it collects from the form;
  - the message history (fifty entries);
  - the opening-hours check.

## How the model represents the app

Everything is immutable data and pure functions. A browser API becomes data or an input:

- **Cache Storage** is a map from cache name to cache. A cache is a map from URL to response.
- **The network** is an input: what `fetch` would do, either `Ok(status, body)` or `Fail`.
- **localStorage blobs** are sequences passed in and returned. At checkout, which storage step throws (if any) is an input too.
- **Money** is integer cents.
- **Regular expressions** are written out as character predicates, one per pattern (`Forms.Matches`).
- **`trim`, `includes`, `toUpperCase`, `toLowerCase`, `replace(/\D/g, '')` and `parseInt`** are modelled on strings in the `Strings` module.

Modules, one per file:

- `Optional` (`optional.dfy`)
- `Strings` (`strings.dfy`)
- `Seqs` (`seqs.dfy`): `filter` and order-preserving subsequences
- `History` (`history.dfy`): capped newest-first lists
- `Forms` (`forms.dfy`): the patterns and the rule check shared by both forms
- `ServiceWorker`, `Cart`, `Order`, `Menu`, `Contact`

## Model

| member | source | states |
|---|---|---|
| ServiceWorker.Classify | sw.js:84-105 | A request gets a handler exactly when it is a GET, and it goes to navigation exactly when it is a GET in navigate mode |
| ServiceWorker.ManifestSlashes | sw.js:7-28 | Every manifest entry contains a `/` |
| ServiceWorker.StaticIffSlash | sw.js:86-92 | Because `'/'` is a manifest entry, a request is routed to the static handler exactly when it is a non-navigation GET whose URL contains `/` |
| ServiceWorker.ApiRouteUnreachable | sw.js:90-100 | No request is ever routed to the API handler |
| ServiceWorker.AbsoluteUrlsRouteStaticOrNavigation | sw.js:84-104 | A URL containing `://` is never routed to the dynamic, API or default handler |
| ServiceWorker.DynamicAndDefaultIff | sw.js:94-104 | A non-navigation GET whose URL has no `/` goes to the dynamic handler exactly when the URL mentions `pixabay.com` or `images`, and to the default handler otherwise |
| ServiceWorker.HandleNavigation | sw.js:109-126 | Navigation writes no cache entry, and with a network response it serves that response and leaves the caches as they were |
| ServiceWorker.NavigationFallback | sw.js:114-125 | When the network fails, navigation serves the cached page, else the cached `/index.html`, else a network error; a cached `/` entry never changes the answer |
| ServiceWorker.HandleStatic | sw.js:129-145 | Only the STATIC cache can change; the reply is a network error exactly when the cache misses and the network fails |
| ServiceWorker.StaticStrategy | sw.js:130-144 | A cache hit is served whatever the network does and writes nothing; a miss with a response stores that response under the URL and serves it; a miss with a failure writes nothing |
| ServiceWorker.HandleDynamic | sw.js:148-174 | Only the DYNAMIC cache can change, and a response is always served |
| ServiceWorker.DynamicStoresOnly200 | sw.js:149-172 | DYNAMIC gains an entry only on a miss answered with status 200, and then it is exactly that response; a miss with a failure serves the 503 image placeholder; a hit does not depend on the network |
| ServiceWorker.HandleApi | sw.js:177-212 | A response is always served; a non-GET never touches the caches; a GET can change only DYNAMIC |
| ServiceWorker.ApiStrategy | sw.js:178-211 | Any network response is served as it came; it is stored only for a GET with status 200; on a failure a cached GET is served, otherwise the 503 offline JSON |
| ServiceWorker.HandleDefault | sw.js:215-228 | Writes no cache entry, and with a network response it serves that response unchanged |
| ServiceWorker.DefaultIgnoresDynamic | sw.js:215-227 | For any cache storage, the reply never depends on the DYNAMIC cache; on a failure it is the STATIC entry if there is one, else a network error |
| ServiceWorker.OnFetch | sw.js:79-106 | The listener responds exactly to GET requests |
| ServiceWorker.Activate | sw.js:56-70 | After the sweep the cache names are exactly the original ones equal to STATIC_CACHE or DYNAMIC_CACHE, with their contents unchanged |
| ServiceWorker.SweepLeavesAtMostTwo | sw.js:60-70 | After the sweep at most two names remain, and the install-era CACHE_NAME is gone |
| ServiceWorker.SyncOfflineOrders | sw.js:237-265 | Every order is posted once, in list order; the ids removed are those of the orders whose response was ok, in order |
| ServiceWorker.OkIdsIff | sw.js:242-261 | An id is removed exactly when some order with that id got an ok response, whatever happened to the other orders |
| Cart.FindIndex | app.js:112 | Finds the first line with the id; there is none exactly when no line has the id |
| Cart.ItemCount | app.js:149-151 | With every quantity at least 1 the count is at least the number of lines, and it is 0 exactly for the empty cart |
| Cart.Total | app.js:145-147 | The total is never negative when no price or quantity is |
| Cart.AddToCart | app.js:111-121 | An existing id bumps the first line with it by exactly one unit and leaves every other line as it was; a new id appends a line with quantity 1; unique ids and positive quantities are preserved; the id is then present |
| Cart.AddExistingIsIncrease | app.js:111-121 | For an item already in the cart, adding it is the same as the cart page's plus button |
| Cart.AddToCartCounts | app.js:111-151 | Adding raises the item count by exactly 1, and raises the total by the price of that item's line |
| Cart.RemoveFromCart | app.js:128-131 | No line with the id remains; every other line remains and nothing new appears; order is preserved (a subsequence); an absent id changes nothing |
| Cart.RemovePreserves | app.js:128-130 | Removing preserves unique ids and positive quantities |
| Cart.UpdateCartItemQuantity | app.js:133-143 | An unknown id is a no-op; quantity <= 0 removes the line; a positive quantity keeps every line's id and price, changes only lines with that id, and sets that quantity |
| Cart.UpdatePreserves | app.js:133-143 | Unique ids and positive quantities are preserved; with unique ids, the line for the id holds exactly the quantity set |
| Cart.ClearCart | app.js:175-178 | The cart is emptied, so nothing is left to count or pay |
| Cart.ToggleTheme | app.js:34-37 | The result is 'light' or 'dark', and it is 'dark' exactly when the theme was 'light' |
| Cart.ToggleTwice | app.js:34-37 | Toggling twice restores 'light' or 'dark'; from any other value, two toggles give 'dark' |
| Cart.LoadTheme | app.js:22-25 | A stored non-empty theme is used; otherwise the theme is 'light', never empty |
| Cart.ThemeSurvivesReload | app.js:22-37 | `setTheme` stores the theme it sets, so reloading after a toggle shows the toggled theme, and reloading right after a load shows the same theme |
| Cart.IncreaseQuantity | cart.js:103-112 | The first line with the id gains exactly one unit and every other line is untouched; ids, prices and the length are kept; an unknown id changes nothing |
| Cart.DecreaseQuantity | cart.js:114-123 | The first line with the id, when it holds more than one unit, loses exactly one and every other line is untouched; ids, prices and the length are kept; an unknown id changes nothing |
| Cart.UpdateQuantity | cart.js:125-133 | Never adds or removes a line, and never changes an id or a price |
| Cart.QuantityControlsKeepPositive | cart.js:103-133 | Starting from quantities >= 1, increase, decrease and update keep every quantity >= 1 |
| Cart.QuantityControlsEffect | cart.js:103-123 | Decrease never goes below 1, is a no-op on a line at 1, and otherwise lowers the item count by exactly 1; increase raises the item count by exactly 1 for a known id and changes nothing otherwise |
| Cart.DecreaseUndoesIncrease | cart.js:103-123 | With every quantity at least 1, decreasing after increasing restores the cart |
| Cart.UpdateQuantityIgnoresNonPositive | cart.js:125-133 | Input that parses to NaN or a value <= 0 leaves the cart unchanged |
| Cart.UpdateQuantityDecimal | cart.js:125-128 | A typed-in positive decimal number sets exactly that quantity |
| Cart.LookupCoupon | cart.js:233-239 | A coupon is found exactly when the upper-cased code is WELCOME10, FREESHIP or SAVE5 |
| Cart.ApplyCoupon | cart.js:232-249 | Returns true exactly for the three codes, and then applies that coupon; otherwise returns false and keeps the applied coupon |
| Cart.CouponCaseInsensitive | cart.js:239 | Whether a code is accepted does not depend on the case of its ASCII letters |
| Cart.RemoveCoupon | cart.js:251-255 | No coupon is applied afterwards |
| Cart.ClearCartConfirmed | cart.js:293-305 | An empty cart is left as it is; otherwise the cart is emptied exactly when the user confirms |
| Strings.Trim | order.js:146 | The result has no white space at either end, and it is a slice of the input with only white space cut away |
| Strings.TrimEmptyIff | order.js:155 | A value trims to empty exactly when it is all white space |
| Strings.Digits | order.js:198 | Keeps only digit characters and is never longer than the input |
| Strings.DigitsAppend | contact.js:299 | Stripping non-digits distributes over concatenation |
| Strings.Contains | menu.js:96-97 | A term that occurs is no longer than the text, and the empty term occurs in every text |
| Strings.ContainsIff | menu.js:96-97 | `includes` holds exactly when the term occurs at some position |
| Strings.ToUpper | cart.js:239 | Upper-cases each ASCII letter in place and keeps the length |
| Strings.ToLower | menu.js:35 | Lower-cases each ASCII letter in place and keeps the length |
| Strings.UpperOfLower | cart.js:239 | Upper-casing ignores any earlier lower-casing |
| Strings.ParseShowNat | cart.js:126 | `parseInt` reads back the decimal text of every natural number |
| Strings.ParseInt | cart.js:126 | Text starting with a digit (and not a `0x` prefix) parses to a number of at least 0; text starting with anything but a digit, white space or a sign is NaN |
| History.Push | order.js:325-331 | The new entry comes first; the length is min(old + 1, cap); the rest is the old list's prefix, in order |
| History.PushKeepsCap | order.js:328-331 | A list within the cap stays within it; below the cap nothing is dropped |
| History.PushAllPrefix | contact.js:247-253 | After a run of pushes, the list is the new entries newest first, then the old list, cut to the cap |
| Seqs.Filter | menu.js:90 | The result is a subsequence of the input holding exactly the elements that pass the test |
| Seqs.FilterAll | menu.js:89-91 | Filtering with a test every element passes changes nothing |
| Seqs.FilterIdempotent | menu.js:95-98 | Filtering twice with the same test equals filtering once |
| Seqs.FilterAppend | menu.js:434 | Filtering distributes over concatenation |
| Seqs.SubsequenceTrans | menu.js:86-99 | A subsequence of a subsequence is a subsequence |
| Forms.EmailShape | order.js:122 | An accepted email address has no white space and exactly one `@` |
| Forms.ZipDigits | order.js:136-139 | An accepted ZIP code is 5 or 10 characters long and holds 5 or 9 digits |
| Forms.Check | contact.js:88-129 | A value is accepted exactly when its trimmed form is empty and the field optional, or non-empty and within every bound and pattern; it is reported missing exactly when it is blank and required; a too-short report carries the rule's minimum |
| Forms.CheckValidIff | order.js:144-163 | A field is accepted exactly when its trimmed value is empty and the field optional, or non-empty and within every bound and pattern; an all-white-space value is missing for a required field and accepted for an optional one |
| Forms.CheckOrder | contact.js:98-124 | Rejections name the first failing check: a too-long value already met the minimum, and a pattern mismatch already met both length bounds |
| Forms.CheckIgnoresPadding | order.js:146 | A padded value gets the same verdict as its trimmed form |
| Order.CheckoutRule | order.js:107-141 | The required checkout fields are name, phone, address, city and ZIP; email is the only optional one; no field has a maximum length |
| Order.IsValidPhone | order.js:197-200 | A valid phone number has at least ten characters; a number of digits only is valid exactly when it has 10 to 15 of them |
| Order.IsValidPhoneDigitsOnly | order.js:197-200 | Non-digit characters never change whether a phone number has 10 to 15 digits |
| Order.ValidateField | order.js:144-191 | A field is accepted exactly when it has no rule, or passes the rule check and, for the phone, has 10 to 15 digits; a failed rule check is reported as is; the digit-count error comes only after every rule check passed |
| Order.CheckoutPhoneDigits | order.js:116-120 | For a value that matches the phone pattern, the digits are everything after the optional `+` |
| Order.PhoneAcceptedIff | order.js:166-186 | The phone is accepted exactly when, after an optional `+`, it is 10 to 15 digits with no leading zero |
| Order.EmailRecheckRedundant | order.js:177-180 | The second email test never changes the verdict |
| Order.ZipAcceptedIff | order.js:136-139 | The ZIP field is accepted exactly when its trimmed value matches the ZIP pattern |
| Order.NameLengthFirst | order.js:166-175 | A one-character name or city is reported as too short, before its pattern is checked |
| Order.SaveOrderData | order.js:320-334 | The order is placed first; the history keeps at most ten entries, and the older entries stay in order |
| Order.SubmitOrder | order.js:303-334 | The confirmation page is reached exactly when no storage step throws. Without a throw the order is recorded as the last one, pushed onto the history, and the cart is emptied. A failed `lastOrder` write changes nothing. A failed history read or write leaves only the last order recorded and keeps the cart. A failed cart write leaves everything saved and the in-memory cart empty |
| Order.RetryAfterFailure | order.js:303-318 | A submission that fails before the cart is emptied keeps the cart, and a successful retry ends exactly where one clean submission would |
| Order.SubmitOrderHistory | order.js:320-334 | After a successful submission the newest history entry is the last order, the history stays within ten entries, and below the cap the earlier orders follow unchanged |
| Order.SubmitManyKeepsNewest | order.js:325-331 | After ten or more submissions the history is exactly the ten newest orders, newest first |
| Order.DeliveryTime | order.js:428-434 | The estimate is at least 30, a multiple of 5 past 30, and within 5 minutes of 30 + 5n/3 for n cart lines |
| Order.DeliveryTimeMonotone | order.js:428-434 | The estimate never drops as lines are added; three more lines add exactly 5 minutes; more units of an existing line change nothing |
| Menu.GetFilteredItems | menu.js:85-102 | The result is a subsequence of the menu holding exactly the items in the category (unless 'all') that match the search term (unless empty); the initial view shows the whole menu |
| Menu.FilteredIff | menu.js:86-101 | An item is shown exactly when it is on the menu and passes both filters |
| Menu.FilterTwice | menu.js:85-102 | Applying the filters twice equals applying them once |
| Menu.SetSearch | menu.js:34-37 | The stored search term is the input with each character lower-cased, so it has the input's length and no upper-case ASCII letter; the category is kept |
| Menu.SearchCaseInsensitive | menu.js:35 | Typing the search in upper case shows the same items |
| Menu.FilterByCategory | menu.js:49-55 | The search term is kept, and an item passes the new view exactly when it is in the chosen category (any, for 'all') and matches the search term |
| Menu.CategoryShows | menu.js:49-102 | After choosing a category the page shows exactly the menu items of that category (any, for 'all') that match the search; 'all' from the initial view shows the whole menu |
| Menu.ClearFilters | menu.js:373-375 | After the reset, any menu is shown in full |
| Menu.ParseSortKey | menu.js:318-334 | Only 'name', 'price-low', 'price-high' and 'popular' select a sort |
| Menu.SortBy | menu.js:320-330 | The result is a permutation of the input, ordered by the comparator's rank |
| Menu.SortStable | menu.js:315-334 | Items of equal rank keep their relative order |
| Menu.SortMenuItems | menu.js:315-337 | The result is a permutation of the filtered items; it is sorted by the selected key, and any other value keeps the filtered order |
| Menu.SortOrders | menu.js:322-330 | 'price-low' gives non-decreasing prices, 'price-high' non-increasing prices, and 'popular' puts every popular item first |
| Menu.SortMenuItemsStable | menu.js:315-334 | Sorting the filtered items keeps menu order among items that compare equal |
| Menu.ToggleFavorite | menu.js:430-443 | Membership of the id flips and no other id's membership changes; an absent id is appended; removal keeps the others in order |
| Menu.ToggleTwice | menu.js:433-439 | Toggling an absent id twice restores the list; toggling a present id twice leaves it once, at the end |
| Contact.FormatPhone | contact.js:298-308 | The output has exactly the input's digits. With 10 or more digits it is `(ddd) ddd-dddd` then the rest; with 3 to 5 digits it is `(ddd) ` then the rest; any other count gives the bare digits |
| Contact.FormatKeepsDigits | contact.js:299-305 | The punctuation the formatter adds contains no digits |
| Contact.FormatIdempotent | contact.js:298-308 | Formatting an already formatted number changes nothing |
| Contact.ContactRule | contact.js:52-86 | Only the message has a maximum length, and only the phone is optional |
| Contact.ValidateFieldAsWritten | contact.js:88-129 | A field is accepted exactly when it has no rule, or is the blank optional phone, or is non-blank and within its rule's bounds and pattern; a blank value is reported missing exactly for a required field |
| Contact.FormattedPhoneRejected | contact.js:71-74 | As written, every formatted number with 10 or more digits, or with 3 to 5 digits, fails the phone pattern |
| Contact.FormattedPhoneRejectedExample | contact.js:298-308 | The number 5551234567, once formatted, is rejected |
| Contact.ParenRejected | contact.js:71-74 | As written, any value whose first character is `(` fails the phone pattern |
| Contact.ContactRuleCorrected | contact.js:71-74 | Uses the phone pattern corrected to take a leading `(`; every other rule is unchanged |
| Contact.ValidateField | contact.js:88-129 | The same acceptance rule under the corrected table; the same verdict as written on every field except the phone |
| Contact.FormattedPhoneAccepted | contact.js:71-74 | With the corrected pattern, a formatted number of 10 to 13 digits that does not start with 0 is accepted |
| Contact.BlankPhoneValid | contact.js:105-107 | The phone is optional: a blank or all-white-space value is valid |
| Contact.MessageLengthIff | contact.js:79-84 | A message is valid exactly when its trimmed length is 10 to 1000 |
| Contact.SubjectRequiredIff | contact.js:75-78 | A subject is valid exactly when it is not blank |
| Contact.ValidFormFacts | contact.js:155-166 | A form that passes has both names at least two characters long, a non-blank email and subject, and a message of 10 to 1000 characters, all after trimming |
| Contact.CollectFormData | contact.js:190-203 | Read from the disabled form, the record is the blank one (every field null, the phone ''); read from the enabled form, it reads back as exactly the typed message |
| Contact.SubmitContactFormAsWritten | contact.js:170-188 | As written, a valid submission puts in flight the blank record, because the inputs are disabled before the form is collected; an invalid or repeated one changes nothing |
| Contact.SubmitContactForm | contact.js:170-188 | Collecting before disabling: nothing happens while a submission is in flight or when the form is invalid; otherwise a record reading back as the typed message is put in flight and the stored records are untouched |
| Contact.SubmitTwice | contact.js:171 | A second submit while the first is in flight changes nothing |
| Contact.SaveContactMessage | contact.js:246-256 | The record is placed first, the list is capped at 50, and older records stay in order |
| Contact.HandleSubmissionSuccess | contact.js:224-238 | The flag is cleared and the record handed over is saved first; the cap of 50 is kept |
| Contact.HandleSubmissionError | contact.js:240-244 | The flag is cleared and nothing is stored |
| Contact.StoredEntryBlankAsWritten | contact.js:178-186 | As written, a completed submission of a valid form stores the blank record, holding none of the typed fields |
| Contact.SubmitThenSucceed | contact.js:170-238 | Collecting before disabling, a completed submission stores first a record that reads back as the typed message, and the form accepts the next submission |
| Contact.Hours | contact.js:456-464 | Sunday opens 12:00 to 21:00; Monday to Thursday 11:00 to 22:00; Friday and Saturday 11:00 to 23:00 |
| Contact.IsOpen | contact.js:466-467 | Open only between 11:00 and 23:00, and always open from 12:00 to 21:00 |
| Contact.HoursFacts | contact.js:456-467 | Every day opens before it closes; both the opening and the closing minute count as open; the place is never open before 11:00 or after 23:00, and is always open 12:00 to 21:00 |

## Left out

- The install handler (sw.js:36-53) is not modelled. It depends on `Cache.addAll`'s all-or-nothing behaviour, and its `.catch` swallows any failure, so installation always proceeds.
- The push, notificationclick, message and periodicsync handlers (sw.js:280-348) are not modelled: they are platform glue with no state of their own.
- Service-worker event concurrency and `waitUntil` lifetimes are not modelled: each handler is one atomic step.
- Unawaited writes are not modelled: `cache.put` in the static and dynamic handlers is not awaited, so a put the Cache API rejects (a 206 response, say) is modelled as stored.
- `cache.match` on a request is modelled as a lookup by URL string alone: there are no `Vary` headers, no URL resolution of `'/index.html'` against the scope, and no `statusText` or headers.
- Order.SubmitOrder: a failed write of the cart is modelled as leaving the in-memory cart empty. The stale copy it leaves in localStorage, which the next page load brings back (app.js:101-104, with no time limit), is not modelled.
- Contact.HandleSubmissionSuccess: a throwing `saveContactMessage` (corrupt `contactMessages` JSON or a failed write, contact.js:246-256) is not modelled. It runs in a timer callback with no `catch`, so the form would stay flagged as submitting; the model assumes the save succeeds.
- `getOfflineOrders` returns `[]` in the source, so the sync loop takes the order list as a parameter. `removeOfflineOrder` only logs, so the model returns the list of ids it is called with.
- Floating-point money is not modelled: no tax (0.08), delivery fee (3.99), `toFixed` or currency display. Prices are integer cents; the coupon amounts are kept as percent and cents and never applied to a total.
- Generated ids and time stamps are not modelled: `generateOrderNumber`, `generateMessageId`, `collectOrderData`'s ISO time, `loadCartState`'s 24-hour window, and the constant `getNextOpenTime`.
- The DOM, HTML templates, notifications, animations, the map, the contact cards, modals, the payment-info text and address suggestions are not modelled.
- Cart.ToggleTheme: the theme is passed in and returned; `setTheme`'s writes to the document and to localStorage are not modelled.
- Strings.ToUpper: maps ASCII letters only. JavaScript's `toUpperCase`/`toLowerCase` map all of Unicode (for example U+0131 to `I`). String length is counted in characters, not UTF-16 code units.
- Strings.ParseShowNat: `parseInt` is modelled on integers of any size. JavaScript returns a double, which loses precision above 2^53.
- Menu.SortBy: sorting by `'name'` uses a collation rank supplied by the caller in place of `localeCompare`. Locale collation itself is not modelled.
- Menu.SetSearch: the 300 ms debounce on the search input is not modelled.
- Contact.ValidateField: the corrected phone check (see Findings) is what `ValidateForm`, `SubmitContactForm` and `SubmitContactFormAsWritten` use. The source's own check is `Contact.ValidateFieldAsWritten`.
- Contact.SubmitContactForm: collects the form before disabling it, the correction of the second finding. The source's own order is `Contact.SubmitContactFormAsWritten`.
- `validateForm` in order.js checks only the inputs marked `required` in the page's HTML, which is not part of this model; `Order.ValidateField` models the per-field check.

## Findings

| source | as written | input that shows it | evidently intended | confidence | as-written member | corrected member |
|---|---|---|---|---|---|---|
| contact.js:71-74 | The phone input is reformatted on every keystroke to `(ddd) ddd-dddd` (contact.js:298-308). The phone pattern `^[\+]?[1-9][\d\s\-\(\)]{8,15}$` requires the first character after an optional `+` to be 1-9, so it rejects every formatted number with 10 or more digits (and every 3-to-5-digit one) | typing `5551234567` shows `(555) 123-4567`, which validateField rejects with 'Please enter a valid phone number' | the pattern accepts the formatter's own output, by allowing an optional `(` before the first digit: `^[\+]?\(?[1-9][\d\s\-\(\)]{8,15}$` | high, not executed | Contact.FormattedPhoneRejected | Contact.FormattedPhoneAccepted |
| contact.js:178-182 | `submitContactForm` calls `showSubmissionState`, which disables every input, select and textarea of the form, and only then calls `collectFormData`. A form's FormData leaves out disabled controls, so every `formData.get` returns null and the phone falls back to `''` | any valid form: the record put in flight and saved by `saveContactMessage` is `{firstName: null, lastName: null, email: null, phone: '', subject: null, message: null}` plus the time stamp and id | the form is collected before the inputs are disabled, as the checkout page does (order.js:244-248), so the saved record holds what was typed | high, not executed | Contact.StoredEntryBlankAsWritten | Contact.SubmitThenSucceed |
