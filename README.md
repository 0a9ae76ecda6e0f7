# Playwright acceptance suite for the Sauce Demo storefront: a verified model

The repository is a Playwright acceptance suite written in TypeScript. It
has page objects for the inventory, cart and checkout pages, fixture
helpers, and tests that drive the storefront.

This project models the deterministic logic around the browser calls and
proves what the tests promise about it:
- the fixture lookups;
- the product catalogue, and the add-to-cart loop;
- reading the cart-link count;
- reading and checking the cart contents;
- the checkout form, as a state machine over three fields and an error banner;
- the expected orders of the sorting test;
- the per-index product match of the display test;
- the cart-management, checkout-validation and full-regression tests themselves, as methods.

Every Playwright call is replaced by the state it observes or changes:
- The cart is a `Cart` object holding the ordered cart lines. A click on
  an add or remove control is a method call on it. The badge, the
  cart-link text and the control shown for each product are functions of
  the lines.
- The checkout form is a `CheckoutPage` object. Its three fields, its step
  and its banner change through `Fill`, `Clear` and `Submit`.
- What a rendered page shows is a parameter: product cards, cart rows and
  the names or prices listed after a sort. A text or attribute that can
  be missing is an `Option`.
- Each test becomes a method that builds fresh objects and returns whether
  the test passes. Its `ensures` says exactly when it passes.
- The fixtures (credentials and customer profiles) are parameters.

The catalogue is the page object's literal table, entry by entry. The four
control strings of each product (two `data-test` selectors and two id
XPaths) are written out as literals, and a proof shows that they pair up
around one slug. The names, prices and image keys are also kept as column
tables, which the proofs about them use.

Prices are handled as integer cents. A displayed price `$d.dd` is read by
removing its first `$`, as `replace('$', '')` does, and taking the
whole-units digits and two cent digits. `FormatPrice` is its inverse.

`Array.prototype.sort` with a comparator is modelled on a copy as a
stable insertion sort over a comparator function value (module
`ArraySort`). Its properties are proved for any antisymmetric comparator
that is transitive on the elements involved, and then applied to the
four comparators the sorting test uses.

Three facts about the code shape the cart model:
- `verifyCartContainsItems` checks equal lengths and then membership of
  each expected item, not a one-to-one match, so `[x, y]` passes against
  `[x, x]` (`CartPage.MatchIsNotOneToOne`).
- A product already in the cart shows its remove control and no add
  control, so a second add finds nothing to click; `Cart.ClickAdd`
  reports that and leaves the cart as it was.
- `getCartCount` reads the text of the cart link, not the badge element;
  `CartLinkText` models that text through the badge it contains.

## Model

| member | source | states |
|---|---|---|
| UserHelpers.GetUser | utils/user-helpers.ts:5-9 | The user found has the requested type and is one of the valid users or one of the invalid users. The error `User <type> not found` occurs exactly when no user in either list has that type. |
| UserHelpers.GetUserPrefersValidUsers | utils/user-helpers.ts:6-7 | When a valid user has the type, the first such valid user is returned, whatever the invalid users hold. |
| UserHelpers.GetUserFallsBackToInvalidUsers | utils/user-helpers.ts:6-7 | When no valid user has the type, the first invalid user of that type is returned. |
| UserHelpers.GetValidUsers | utils/user-helpers.ts:12-14 | The copy has the valid users' length and the same element at every index. |
| UserHelpers.GetInvalidUsers | utils/user-helpers.ts:16-18 | The copy has the invalid users' length and the same element at every index. |
| UserHelpers.GetCustomerInfo | utils/user-helpers.ts:20-25 | Succeeds exactly when the profile is in the table, and then returns that profile's record unchanged. Otherwise it fails with `Customer profile <p> not found`. |
| UserHelpers.GetCustomerInfoDefault | utils/user-helpers.ts:20 | With no argument, the lookup is that of the profile `default`. |
| UserHelpers.GetCustomerInfoAsWritten | utils/user-helpers.ts:20-25 | The code as written fails exactly when the key is neither an own profile nor a member inherited from `Object.prototype`. Otherwise it returns what the property read yields. |
| UserHelpers.PropertyRead | utils/user-helpers.ts:21 | `customerInfo[key]` is undefined exactly when the key is neither an own profile nor an inherited member. An own profile is returned as it is. |
| UserHelpers.PrototypeKeyPassesTheGuard | utils/user-helpers.ts:21-24 | For `toString`, when no profile has that name, the code as written returns the inherited member, while the intended lookup reports the missing profile. |
| UserHelpers.AsWrittenAgreesOffPrototype | utils/user-helpers.ts:21-24 | Off the inherited names, the code as written and the intended lookup fail together and return the same profile. |
| UserHelpers.GetAllCustomerProfiles | utils/user-helpers.ts:27-29 | The table returned holds exactly the profiles `getCustomerInfo` finds, with the same records. |
| Seqs.Find | utils/user-helpers.ts:7 | `find` returns nothing exactly when no element satisfies the predicate. Otherwise it returns the first element that does. |
| Seqs.FindAppend | utils/user-helpers.ts:6-7 | Searching a concatenation finds in the first list when it can, and otherwise searches the second. |
| InventoryCatalogue.CatalogueNamesDistinct | pages/inventory.page.ts:17-78 | The catalogue has six entries, and no two of them share a name. |
| InventoryCatalogue.CatalogueNamesDiffer | pages/inventory.page.ts:17-78 | Two different catalogue positions carry different names. |
| InventoryCatalogue.ControlsPairBySlug | pages/inventory.page.ts:22-75 | The four literal control strings of every entry are the `data-test` selectors and id XPaths of `add-to-cart-<slug>` and `remove-<slug>`, for one non-empty slug. |
| InventoryCatalogue.CatalogueIsListing | pages/inventory.page.ts:17-78 | The catalogue has distinct names. The control each card shows is the entry's remove selector while the product is in the cart, and its add selector otherwise. |
| InventoryCatalogue.CataloguePrices | pages/inventory.page.ts:21-71 | Every catalogue price is the display form of its amount in cents and reads back as that amount. Entries 3 and 6 share `$15.99`. |
| InventoryCatalogue.ProductLocatorSelectsOne | pages/inventory.page.ts:81-83 | On the catalogue's cards, the `getProductByName` locator for entry `i`'s name matches entry `i`'s card and no other. |
| InventoryCatalogue.ImageKeysDiffer | pages/inventory.page.ts:26-76 | One entry's image key is contained in another's exactly when the two are the same entry. |
| InventoryCatalogue.CatalogueAddsEveryOtherProduct | pages/inventory.page.ts:113-119 | On the catalogue and an empty cart, the loop as written adds the Backpack, the Bolt T-Shirt and the Onesie, and then finds no fourth add control. |
| InventoryPage.AddQueryMatchesAddControls | pages/inventory.page.ts:114 | A card's button matches the prefix query `[data-test^="add-to-cart-"]` exactly when its product is not in the cart, that is, exactly when the card shows its add control. |
| InventoryPage.QueryFindsFreshCards | pages/inventory.page.ts:114 | The prefix query matches exactly the cards whose product is not in the cart, in page order. |
| InventoryPage.AddQueryCoversEmptyCart | pages/inventory.page.ts:114 | On an empty cart the prefix query matches the button of every card shown. |
| InventoryPage.FreshCardsListed | pages/inventory.page.ts:114 | The buttons the query matches are cards shown on the page, with distinct names, none of whose products is in the cart. |
| InventoryPage.NextMatchIsFirst | pages/inventory.page.ts:114-116 | Once the first `k` matched products are in the cart, the query matches exactly the remaining ones, still in page order. |
| InventoryPage.AddAllItemsToCart | pages/inventory.page.ts:113-119 | The corrected loop clicks each initially matched add button exactly once, in page order. The cart gains those products' lines in that order. |
| InventoryPage.AddAllItemsToCartAsWritten | pages/inventory.page.ts:113-119 | The loop as written: the `k`-th locator clicks whatever the query's `k`-th match is at that moment. The run stops, incomplete, at the first position the query no longer reaches. |
| InventoryPage.ClickNthAddButton | pages/inventory.page.ts:116 | Clicking the `k`-th locator of `.all()` resolves it against the cart as it is then. It adds the product of the query's current `k`-th match and reports its id. When the query has fewer matches, nothing changes and no id is reported. |
| InventoryPage.AsWrittenAddsEveryOtherCard | pages/inventory.page.ts:113-119 | On six listed cards and an empty cart, the loop as written clicks the first, third and fifth cards and then stops incomplete, with those three lines in the cart. |
| InventoryPage.ProductLocator | pages/inventory.page.ts:81-83 | The locator matches exactly the cards whose text contains the name, ignoring case, in page order. |
| InventoryPage.GetCartCount | pages/inventory.page.ts:121-124 | A missing or empty cart-link text counts 0. A text that is the decimal string of `n` counts `n`. |
| InventoryPage.CartCountReadsCart | pages/inventory.page.ts:121-124 | A missing or empty cart-link text counts 0. A cart link showing the line count parses back to that count. |
| InventoryPage.ParseSortOption | pages/inventory.page.ts:95 | A code accepted by `sortBy` is the code of the option it names. |
| InventoryPage.SortOptionCodes | pages/inventory.page.ts:95 | `sortBy` accepts exactly `az`, `za`, `lohi` and `hilo`. Each option's code reads back as that option. |
| InventoryPage.RepeatedNameBreaksDistinctness | pages/inventory.page.ts:17-78 | A product whose name is already among the earlier products' lines makes the list of lines ill-formed. |
| CartModel.Cart.ClickAdd | tests/cart-management.spec.ts:29 | The click succeeds exactly when the product is not in the cart, and then appends its line. Otherwise nothing changes. |
| CartModel.Cart.ClickRemove | tests/cart-management.spec.ts:44 | The click succeeds exactly when the product is in the cart, and then removes its line. |
| CartModel.Badge | tests/cart-management.spec.ts:47-51 | The badge is shown exactly when the cart is non-empty. Its text parses back to the number of lines. |
| CartModel.AddedKeepsLines | tests/cart-management.spec.ts:29 | An add keeps the old lines as a prefix, grows the cart by at most one line, and leaves the product in the cart. A product already in the cart leaves it unchanged. |
| CartModel.Removed | tests/cart-management.spec.ts:44 | A remove takes the product out of the cart and adds no line. |
| CartModel.ControlsTrackTheCart | tests/cart-management.spec.ts:36-55 | After adding a product its remove control is shown. After removing one its add control is shown. |
| CartModel.AddThenRemove | tests/cart-management.spec.ts:25-56 | Adding a product not in the cart and then removing it restores the cart. |
| CartModel.AddedGrows | tests/cart-management.spec.ts:25-37 | Adding a new product appends its line, grows the cart by one and keeps the names distinct. |
| CartModel.RemovedNames | tests/cart-management.spec.ts:40-56 | After a remove, a product is in the cart exactly when it was before and it is not the product removed. |
| CartModel.RemovedKeepsWellFormed | tests/cart-management.spec.ts:40-56 | Removing keeps the names distinct. |
| CartModel.RemovedHead | tests/cart-management.spec.ts:40-44 | Removing the first line's product leaves exactly the remaining lines. |
| CartPage.GetCartItemCount | pages/cart.page.ts:32-34 | The count of the rows rendered for a cart is that cart's number of lines. |
| CartPage.GetCartContents | pages/cart.page.ts:36-47 | Returns exactly `getCartItemCount()` entries. Entry `i` holds row `i`'s name and price text, with a missing text read as `""`. |
| CartPage.OrEmpty | pages/cart.page.ts:42-43 | A missing text becomes `""`, and a present one is kept. |
| CartPage.ContentsOfRenderedCart | pages/cart.page.ts:36-47 | Reading the rows rendered for a list of cart lines gives back that list. |
| CartPage.FirstMissing | pages/cart.page.ts:54-60 | Nothing is missing exactly when every expected item is in the actual list. A reported item is expected and absent. |
| CartPage.VerifyCartContainsItems | pages/cart.page.ts:49-61 | The check passes exactly when the lengths are equal and every expected item appears in the actual list. |
| CartPage.CartVerdict | pages/cart.page.ts:52-60 | The verdict passes exactly when the lengths are equal and every expected item is a member of the actual list. It is a length mismatch, reporting both lengths, exactly when the lengths differ. A missing item it reports is expected and absent. |
| CartPage.VerdictIgnoresOrder | pages/cart.page.ts:54-59 | Any permutation of the actual items gets the same verdict. |
| CartPage.FoundIffMember | pages/cart.page.ts:55-58 | The `find` on name and price succeeds exactly when the expected item is in the list. |
| CartPage.MatchIsNotOneToOne | pages/cart.page.ts:52-59 | `[x, y]` passes against `[x, x]`, although the two are not permutations of one another. |
| CheckoutPage.FirstEmptyField | pages/checkout.page.ts:40-50 | Names the first empty field in the order first name, last name, postal code. It is none exactly when all three are filled. |
| CheckoutPage.Fill | pages/checkout.page.ts:18-28 | On step one a fill sets its own field. It never changes the other two fields, the step or the banner. |
| CheckoutPage.FillForm | pages/checkout.page.ts:60-64 | On step one `fillCheckoutForm` sets the three fields to the three values, whatever they held before. |
| CheckoutPage.Clear | pages/checkout.page.ts:72-76 | On step one `clearAllFields` empties all three fields, after which the first name is reported missing. Step and banner are kept. |
| CheckoutPage.Submit | pages/checkout.page.ts:30-32 | From step one, continue reaches step two exactly when all three fields are filled. Otherwise a banner is shown and the fields stay editable. The typed values are kept. |
| CheckoutPage.BlockedSubmitNamesFirstEmptyField | pages/checkout.page.ts:40-50 | A blocked continue keeps the fields, shows `Error: <field> is required` for the first empty field and leaves the fields editable. |
| CheckoutPage.EmptySubmitShowsFirstNameError | tests/checkout-validations.spec.ts:33-35 | Continue on the empty form stays on step one and shows `Error: First Name is required`. |
| CheckoutPage.CheckoutPage.FillFirstName | pages/checkout.page.ts:18-20 | The new state is the old one with the first name filled. |
| CheckoutPage.CheckoutPage.FillLastName | pages/checkout.page.ts:22-24 | The new state is the old one with the last name filled. |
| CheckoutPage.CheckoutPage.FillPostalCode | pages/checkout.page.ts:26-28 | The new state is the old one with the postal code filled. |
| CheckoutPage.CheckoutPage.ClickContinue | pages/checkout.page.ts:30-32 | The new state is the submission of the old one. |
| CheckoutPage.CheckoutPage.FillCheckoutForm | pages/checkout.page.ts:60-64 | The new state has the three fields set in order. |
| CheckoutPage.CheckoutPage.CompleteCheckout | pages/checkout.page.ts:66-69 | The new state is the filled form, submitted once. |
| CheckoutPage.CheckoutPage.ClearAllFields | pages/checkout.page.ts:72-76 | The new state is the old one with all three fields empty. |
| CheckoutPage.CheckoutPage.GoBack | tests/checkout-validations.spec.ts:145 | The browser's back navigation from step two gives an empty step one. Anywhere else, nothing changes. |
| CheckoutValidations.ShortErrorMatches | tests/checkout-validations.spec.ts:102 | A scenario's short error text is contained in a banner exactly when the banner is for the field that text names. |
| CheckoutValidations.BannerHoldsShortError | pages/checkout.page.ts:41-49 | Each banner contains its field's short error text. |
| CheckoutValidations.ScenarioExpectations | tests/checkout-validations.spec.ts:38-93 | Each scenario leaves some field unfilled. It expects the error for the first field it leaves unfilled. |
| CheckoutValidations.ScenarioPassesIff | tests/checkout-validations.spec.ts:95-106 | A scenario passes exactly when the profile values it types are non-empty where it fills the first name, and where it fills both names. |
| CheckoutValidations.AllScenariosPassIff | tests/checkout-validations.spec.ts:95-106 | All six scenarios pass exactly when the profile's first and last names are non-empty. |
| CheckoutValidations.ScenarioRound | tests/checkout-validations.spec.ts:97-105 | One scenario submission from an empty form stays on step one. Its outcome does not depend on the earlier banner, and clearing gives back an empty form. |
| CheckoutValidations.RunScenarios | tests/checkout-validations.spec.ts:95-106 | Running the scenarios in order, clearing after each, passes exactly when the first and last names are non-empty. The form is then empty again. |
| CheckoutValidations.PlayScenario | tests/checkout-validations.spec.ts:96-105 | One scenario from an empty form: its fills, continue and the banner check. The check holds exactly when the profile values it types are non-empty where they decide the first empty field, and the reset then gives back an empty form. |
| CheckoutValidations.StrictFieldValidation | tests/checkout-validations.spec.ts:31-114 | The test passes exactly when the profile has all three values. |
| CheckoutValidations.FieldEditabilityConsistency | tests/checkout-validations.spec.ts:116-147 | The fields are editable after each refused submission. The test passes exactly when the profile has all three values. |
| CartManagement.TestProducts | tests/cart-management.spec.ts:21 | The test products are the first three catalogue entries, or all of them when there are fewer. |
| CartManagement.ThreeProductTrajectory | tests/cart-management.spec.ts:26-41 | With three products, the expected badges are 1, 2, 3, 2, 1 and then no badge. |
| CartManagement.AddPhase | tests/cart-management.spec.ts:24-37 | The adds all succeed exactly when the products have distinct names. The badges then count up from 1, and the cart holds the products' lines in order. |
| CartManagement.AddStep | tests/cart-management.spec.ts:25-36 | Adding the next product appends its line, shows its remove control and shows the badge `index + 1`. |
| CartManagement.RemovePhase | tests/cart-management.spec.ts:39-56 | The removes empty the cart, and the badges count down to no badge. |
| CartManagement.RemoveStep | tests/cart-management.spec.ts:40-55 | Removing the next product leaves the rest, shows its add control and shows the badge `length - index - 1`. |
| CartManagement.ReAddPhase | tests/cart-management.spec.ts:59-62 | Adding the products again gives a cart holding their lines in order. |
| CartManagement.ShoppingCartValidation | tests/cart-management.spec.ts:21-80 | The test passes exactly when the test products have distinct names and distinct prices. The badges seen are then the expected trajectory. |
| CartManagement.VerifyEachProductShown | tests/cart-management.spec.ts:74-80 | The check succeeds exactly when, for every test product, exactly one cart row shows its name and exactly one row shows its price. A strict `:text-is` locator with no match times out, and one with several matches is a strict-mode error. |
| CartManagement.ReAddedCartShowsEachOnce | tests/cart-management.spec.ts:74-80 | On the rows of the re-added cart, whose names differ, every product is shown once exactly when no two products share a price. |
| CartManagement.SharedPriceFailsTheCartCheck | tests/cart-management.spec.ts:78-79 | With the Bolt T-Shirt and the Red T-Shirt, both $15.99, among the test products, the names differ but the prices do not. So the test fails. |
| CartManagement.CatalogueTestProductsDiffer | tests/cart-management.spec.ts:21 | The first three catalogue products have distinct names and distinct prices ($29.99, $9.99, $15.99), so the test passes on the catalogue. |
| InventoryDisplay.VerifyProducts | tests/inventory-display.spec.ts:19-34 | The loop reports no failure exactly when every entry has a card at its position with equal name, description and price texts and an image address containing the key. A reported failure is the first entry whose card is missing or differs. |
| InventoryDisplay.RenderedCataloguePasses | tests/inventory-display.spec.ts:19-34 | The catalogue rendered in order passes, whatever path and suffix surround each image key. |
| InventoryDisplay.SwappedImageFails | tests/inventory-display.spec.ts:33 | A card showing another catalogue entry's image key fails for this entry, however right its texts are. |
| InventoryDisplay.PositionsMatter | tests/inventory-display.spec.ts:19-30 | Showing an entry with another name at a position fails the test. |
| InventoryDisplay.MissingCardsFail | tests/inventory-display.spec.ts:19-20 | Fewer cards than entries fail the test. |
| FullRegression.CompletePurchaseFlow | tests/FullRegression-AllProducts.spec.ts:24-63 | The flow reaches the order summary exactly when every card shows its entry, the entries have distinct names and the profile fills the whole form. The count then ends at the number of entries. |
| FullRegression.ImageKeysAreLiteralPatterns | tests/FullRegression-AllProducts.spec.ts:38 | Every catalogue image key contains only lower-case letters, digits and `-`. So `new RegExp(key)` is a plain containment check, as in the display test. |
| JsNumbers.DecimalString | tests/cart-management.spec.ts:32 | `toString()` of a count is a non-empty decimal digit string without leading zeros. |
| JsNumbers.DecimalStringValue | tests/cart-management.spec.ts:32 | The decimal string of `n` has the value `n`. |
| JsNumbers.ParseIntCases | pages/inventory.page.ts:123 | `parseInt` of white space only is NaN. Text starting with a digit reads as a non-negative number, or as NaN only after an empty `0x` prefix. Text starting with any other character but a sign is NaN. |
| JsNumbers.ParseIntDecimalString | pages/inventory.page.ts:123 | `parseInt` reads the decimal string of `n` back as `n`. |
| JsNumbers.ParseIntDecimalPrefix | pages/inventory.page.ts:123 | `parseInt` stops at the first non-digit after a decimal number. |
| JsNumbers.ParseIntNegative | pages/inventory.page.ts:123 | `parseInt` reads `-` followed by a decimal string as the negative number. |
| JsNumbers.ParseIntSkipsWhitespace | pages/inventory.page.ts:123 | `parseInt` ignores leading white space. |
| JsNumbers.TrimStart | pages/inventory.page.ts:123 | What remains after leading white space is removed is a suffix of the text, starting with a non-space. |
| JsNumbers.StripDollar | tests/inventory-sorting.spec.ts:65-66 | `replace('$', '')` removes one character when a `$` is present, and changes nothing otherwise. |
| JsNumbers.StripDollarRemovesFirst | tests/inventory-sorting.spec.ts:65-66 | When a `$` is present, `replace('$', '')` removes the first `$` and keeps everything before and after it, in order. |
| JsNumbers.PriceRoundTrip | tests/inventory-sorting.spec.ts:65-66 | Reading the display form of an amount in cents, with its `$` removed, gives back that amount. The display form is canonical. |
| JsNumbers.ParseCentsOf | tests/inventory-sorting.spec.ts:65-66 | `d.cc` with decimal digits reads as `d * 100 + cc` cents. |
| ArraySort.Sort | tests/inventory-sorting.spec.ts:40 | The sorted copy is a permutation of the list, with the same length. |
| ArraySort.Insert | tests/inventory-sorting.spec.ts:40 | Insertion adds exactly the new element to the multiset. |
| ArraySort.SortIsSorted | tests/inventory-sorting.spec.ts:40-79 | For a consistent comparator, the copy is in comparator order. |
| ArraySort.InsertSorted | tests/inventory-sorting.spec.ts:40 | Inserting into a sorted list keeps it sorted. |
| ArraySort.SortedIsFixpoint | tests/inventory-sorting.spec.ts:40 | A list already in comparator order sorts to itself. |
| ArraySort.SortIsIdempotent | tests/inventory-sorting.spec.ts:40 | Sorting the sorted copy again changes nothing. |
| ArraySort.SortedPermutationsAgree | tests/inventory-sorting.spec.ts:41 | When ties are equal elements, two sorted permutations of one list are equal. |
| ArraySort.SortedCopyIff | tests/inventory-sorting.spec.ts:40-41 | A list equals the sorted copy exactly when it is a permutation in comparator order. |
| ArraySort.SortIgnoresStartingOrder | tests/inventory-sorting.spec.ts:28-40 | When ties are equal elements, the sorted copy depends only on the multiset of elements. |
| ArraySort.SwappedComparatorReverses | tests/inventory-sorting.spec.ts:40-53 | Sorting with the operands swapped gives the sorted copy reversed. |
| ArraySort.ReverseIsPermutation | tests/inventory-sorting.spec.ts:53 | The reversed list is a permutation of it. |
| InventorySorting.LocaleCompare | tests/inventory-sorting.spec.ts:40 | `localeCompare` is zero exactly on equal names, negative exactly when the first name comes first, positive exactly when the second does. |
| InventorySorting.PriceDifference | tests/inventory-sorting.spec.ts:64-67 | The difference's sign follows the prices' amounts when both read as amounts. Otherwise it is 0, as a NaN difference counts in `sort`. Two canonical prices tie exactly when they are equal. |
| InventorySorting.Compare | tests/inventory-sorting.spec.ts:40-83 | A-Z puts `a` first exactly when `a` comes first ordinally, and Z-A exactly when `b` does. Names tie only with themselves. Low-high and high-low put `a` first exactly when its amount is the smaller or the larger. |
| InventorySorting.StrLeTotal | tests/inventory-sorting.spec.ts:40 | Ordinal string order is total. |
| InventorySorting.StrLeAntisymmetric | tests/inventory-sorting.spec.ts:40 | Ordinal string order is antisymmetric. |
| InventorySorting.StrLeTransitive | tests/inventory-sorting.spec.ts:40 | Ordinal string order is transitive. |
| InventorySorting.CompareFlips | tests/inventory-sorting.spec.ts:40-83 | Each of the four comparators negates when its operands are swapped. |
| InventorySorting.CompareTransitive | tests/inventory-sorting.spec.ts:40-83 | Each comparator is transitive on names, and on prices that read as amounts. |
| InventorySorting.CompareTiesAreEqual | tests/inventory-sorting.spec.ts:40-68 | Names tie only with themselves, and so do canonical prices. |
| InventorySorting.ComparatorIsAntisymmetric | tests/inventory-sorting.spec.ts:40-79 | Each option's comparator, as a function value, is antisymmetric and ties only equal strict elements. |
| InventorySorting.ComparatorIsTransitive | tests/inventory-sorting.spec.ts:40-79 | Each option's comparator is transitive on comparable elements. |
| InventorySorting.OppositeSwapsOperands | tests/inventory-sorting.spec.ts:53-82 | Z-A is A-Z with its operands swapped, and high-low is low-high with its operands swapped. |
| InventorySorting.SortedCopyIsOrdered | tests/inventory-sorting.spec.ts:40-68 | Each expected list is a permutation of the initial list, in the option's order, and sorting it again changes nothing. |
| InventorySorting.ExpectedOrderIff | tests/inventory-sorting.spec.ts:40-41 | The shown list equals the expected one exactly when it is a permutation of the initial list in the option's order. The expectation is the same from any permutation of the initial list. |
| InventorySorting.DescendingIsReversedAscending | tests/inventory-sorting.spec.ts:53-83 | The Z-A expectation is the A-Z one reversed, and high-low is low-high reversed. |
| InventorySorting.ActiveOptionLabel | tests/inventory-sorting.spec.ts:44-85 | The labels of the name options start with `Name`, and those of the price options with `Price`. |
| InventorySorting.ExpectedOrder | tests/inventory-sorting.spec.ts:40-83 | Each expectation is a permutation of the initial names or prices. It is in the option's order for names, and for prices that all read as amounts. |
| InventorySorting.ActiveOptionLabelsDiffer | tests/inventory-sorting.spec.ts:44-85 | The four active-option labels are distinct. |
| InventorySorting.SortingTestPassesIff | tests/inventory-sorting.spec.ts:26-87 | With canonical prices, the test passes exactly when each step shows a permutation of the initial list in its option's order, under that option's label. |

## Left out

- Browser I/O is not modelled: navigation, clicks, fills, locators, `waitFor*`, `toHaveURL` and the polling of visibility and editability. Each is replaced by the state it observes or changes.
- The fixed sleeps (`waitForTimeout`) are left out: they are timing only.
- The login, visual, product-details and login-page tests are not part of this model. They only assert against the remote application.
- FullRegression.CompletePurchaseFlow: the run is modelled up to the order summary. The assertions after it check only the application's own pages: the subtotal and total labels are visible, the finish click, and the confirmation header text (tests/FullRegression-AllProducts.spec.ts:75-80). The model states when the summary is reached, not whether the test then passes. The label reads and the logging at :66-73 and :81 are left out too.
- `console.log` output is left out.
- Loading the JSON fixture files is not modelled. The credentials and the customer profiles are parameters.
- The repetition of each test for every user in the credentials is left out. Each test method models one run.
- `types/interfaces.ts` declares types only. Its records are the datatypes of module `Interfaces`, where `CartItem.quantity` is left out because the cart page never reads it.
- InventorySorting.CompareFlips: `parseFloat` is not modelled. Prices are integer cents read from `$d.dd`, so a price with other digits after the point does not read as an amount, and its difference counts as 0, as a NaN difference does in `sort`.
- InventorySorting.LocaleCompare: locale rules are not modelled. `localeCompare` is read as ordinal comparison of code points.
- InventorySorting.ExpectedOrderIff: stated only for lists of names or canonical prices. With two different prices of equal value, several orders are sorted, and only the stable one is expected.
- ArraySort.Sort: `sort` is modelled as a stable insertion sort. The engine's algorithm is not modelled, and with an inconsistent comparator its result can differ.
- JsNumbers.ParseInt: the result is an exact integer. The rounding of very long digit strings to a double is not modelled.
- Playwright's whitespace normalisation of `textContent` and `toHaveText` is not modelled. Texts are compared exactly.
- FullRegression.ImageKeysAreLiteralPatterns: general `RegExp` semantics are not modelled. The proof shows that the catalogue keys contain no special characters, so the match is containment.
- The `sortDropdown` locator (pages/inventory.page.ts:10) is a selector string with no behaviour, and is not modelled.
- CartModel.Cart.ClickAdd: cart lines are identified by product name. A second product with the same name as one in the cart shows no add control, so its click does not happen.
- CheckoutPage.NavigateBack: the browser's back navigation is modelled as returning to an empty step one. The browser's form restoration is not modelled.
- CartPage.GetCartContents: the cart rows are an observation passed in. How the page renders them is modelled only by `RowsShowing`.
- InventoryPage.AddAllItemsToCartAsWritten: which cards a page shows is a parameter. The add-to-cart controls are assumed to be the only elements whose `data-test` starts with `add-to-cart-`. A click whose locator matches nothing ends the run; Playwright's wait until the timeout is not modelled.
- InventoryPage.ProductLocator: a card's text is modelled as its product name only. The description, price and button text that `:has-text` also searches are left out, and so is its white-space normalisation. Case is folded for ASCII letters only.
- CartManagement.ShoppingCartValidation: the page is assumed to show one card per test product, whose add and remove controls are the ones its selectors name. `InventoryCatalogue.CatalogueIsListing` proves this pairing for the catalogue's own entries. For another table, two products with the same selector would make the strict locators at tests/cart-management.spec.ts:29, 36, 44 and 55 fail, which the model does not capture.
- FullRegression.CompletePurchaseFlow: the same assumption holds for the id XPaths clicked and checked at tests/FullRegression-AllProducts.spec.ts:41-46.
- CheckoutPage.Fill: off step one the model leaves the form unchanged, while Playwright's `fill` waits for the missing field until it times out. No call in the suite fills off step one. The same holds for CheckoutPage.Submit and the "Continue" button.

## Findings

| source | as written | input that shows it | evidently intended | confidence | as-written member | corrected member |
|---|---|---|---|---|---|---|
| pages/inventory.page.ts:113-119 | `.all()` returns `nth(0)` to `nth(n-1)` of the live query, and each is resolved again when clicked. A click turns that card's control into `remove-…`, which leaves the query, so positions shift | six cards and an empty cart: cards 1, 3 and 5 are added, then `nth(3)` matches nothing and the click waits until the test times out | add every product shown, each once, in page order | not executed | InventoryPage.AddAllItemsToCartAsWritten, InventoryPage.AsWrittenAddsEveryOtherCard, InventoryCatalogue.CatalogueAddsEveryOtherProduct | InventoryPage.AddAllItemsToCart |
| utils/user-helpers.ts:21-24 | `!customerInfo[profile]` only rejects an `undefined` read, and on a plain object inherited members such as `toString` are truthy | `getCustomerInfo('toString')` with no profile of that name returns `Object.prototype.toString` instead of throwing | throw `Customer profile toString not found` for any name that is not an own profile | not executed | UserHelpers.GetCustomerInfoAsWritten, UserHelpers.PrototypeKeyPassesTheGuard | UserHelpers.GetCustomerInfo |
