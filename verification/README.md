# Vendor front-end core, modelled in Dafny

This project models the state logic of a vendor web front-end. That logic is
the part of the React components and hooks that decides what the screens show
and what is sent to the services. It is written as immutable datatypes and
pure transition functions, with their properties proved.

- **Order fulfilment dashboard** (`Orders`):
  - the status and search filter over the order list;
  - status updates that keep the selected copy in sync;
  - tracking-id assignment on opening a label, with the `TRK-` prefix and eight digits;
  - printing and downloading a label, which set a `labelGenerated` flag that never goes back;
  - "mark as shipped", closing the detail panel and saving the status.
- **Order step flow** (`OrderFlow`): the hook's step counter, with a floor at the first screen. It also covers order selection by id, status updates, drop-off (in transit, then the completion screen) and delivery.
- **Product dashboard** (`ProductView`):
  - the sort-column toggle;
  - the category list, which is "All" followed by the distinct categories in first-appearance order;
  - the case-insensitive search and the category filter;
  - the four-column comparator with direction;
  - the sorted list, proved to be a sorted, stable permutation of the passing products;
  - selection, add and edit flags, and the delete confirmation.
- **Product form** (`ProductForm`):
  - loading a product into the draft;
  - editing, appending and removing pricing tiers, where removal never empties the list;
  - the ordered validation on submit;
  - assembly of the saved product: tier ids kept by position, the vendor id defaulting to 1, and `id` and `created_at` present only when editing.
- **New-order cart** (`Cart`):
  - removing lines;
  - quantity changes that are ignored below 1;
  - subtotal, shipping option price, 8% tax and total, in exact `real` arithmetic.
- **Vendor registration wizard** (`Registration`):
  - the field-keyed validation of steps 1 and 2;
  - "next", which advances only past a valid step, and "back";
  - the payload without the password confirmation;
  - the submission: the posted payload and the handling of the service's answer, both as the code is written (`Submit`) and with the intended alert (`SubmitIntended`).
- **Image upload service** (`ImageUpload`):
  - the result of a single upload;
  - the simulated batch upload (URL slugging and the progress ticks);
  - deletion by the file name taken from the last path segment of a URL.

`Catalog` holds the product and pricing-tier records of
`src/components/product/IProductTypes.ts:1-17`. `Options`, `Seqs`, `Sorting` and `Text` supply `Option`/`Result`, `filter`/`find`
on sequences, a stable sort proved for any total, transitive order, and the
JavaScript string operations used. The string operations are `toLowerCase`, `includes`, `trim`,
`replace(/\s/g, '-')`, `split('/').pop()` and number-to-decimal.

The `Orders` datatypes follow the records in `src/components/orders/mockData.ts`.
The `OrderFlow` order follows the `MOCK_ORDERS` records in `src/constants.ts`,
flattened to the fields the flow reads.
`src/components/orders/types.ts` and `src/types.ts` are not part of this model.
The statuses are the ones the code and its data use: `pending`, `processing`,
`shipped` and `delivered` on the dashboard, and `new`, `in_transit` and
`delivered` in the hook.

Step 2 of registration checks five fields: owner name, email, phone, password
and confirmation. The phone check (`RegisterVendor.tsx:59`) is part of the
model. The password length is counted as JavaScript's `.length` counts it, in
UTF-16 code units (`Text.Utf16Length`), so a character above U+FFFF counts twice.

Nondeterministic and external inputs are parameters:
- the `Math.random()` draw (a real in [0, 1));
- the clock reading taken by each `Date.now()` call;
- the outcome of each HTTP request: success or refusal, with the optional server message.

## Model

| member | source | states |
|---|---|---|
| Orders.Initial | src/components/orders/VendorOrdersDashboard.tsx:17-31 | the dashboard opens on the given orders with no selection, closed panels, the "all" filter, an empty search and a hidden toast, so every order is listed |
| Orders.MatchesOrder | src/components/orders/VendorOrdersDashboard.tsx:35-42 | with an empty search an order passes exactly when the filter is "all" or names its status; an order whose status the filter does not name never passes |
| Orders.FilteredOrders | src/components/orders/VendorOrdersDashboard.tsx:34-43 | every listed order passes both the status filter and the search, and the list is never longer than the order list |
| Orders.FilteredOrdersExactly | src/components/orders/VendorOrdersDashboard.tsx:35-42 | an order is listed if and only if it is in the list, its status equals the filter or the filter is "all", and the lower-cased search text occurs somewhere in its lower-cased id or customer name; the listed orders are a subsequence of the orders |
| Orders.UnfilteredShowsAll | src/components/orders/VendorOrdersDashboard.tsx:34-43 | with filter "all" and empty search the list is exactly the order list, in its order |
| Orders.ShowToast | src/components/orders/VendorOrdersDashboard.tsx:128-129 | the toast becomes visible with the given message and kind; nothing else changes |
| Orders.SelectOrder | src/components/orders/VendorOrdersDashboard.tsx:46-49 | the order becomes the selection and the detail panel opens; nothing else changes |
| Orders.SetStatusOf | src/components/orders/VendorOrdersDashboard.tsx:54-58 | same length; each order keeps every field but status; the status becomes the new one exactly for orders with the given id |
| Orders.UpdateStatus | src/components/orders/VendorOrdersDashboard.tsx:52-66 | only the status of orders with the id changes, every other order and field is kept; a selection stays present, and its status is refreshed if and only if its id is the updated one; the success toast is shown; nothing else changes |
| Orders.UpdateStatusIdempotent | src/components/orders/VendorOrdersDashboard.tsx:52-66 | applying the same update twice equals applying it once |
| Orders.UpdateStatusKeepsSelectionInSync | src/components/orders/VendorOrdersDashboard.tsx:54-63 | a selection equal to the list's k-th order is still equal to the list's k-th order after any update |
| Orders.TrackingNumber | src/components/orders/VendorOrdersDashboard.tsx:75 | for any draw in [0, 1) the number lies in [10000000, 99999999] |
| Orders.GeneratedTrackingIdWellFormed | src/components/orders/VendorOrdersDashboard.tsx:74-75 | the tracking id is `TRK-` followed by exactly eight digits that read back as the drawn number |
| Orders.FindOrder | src/components/orders/VendorOrdersDashboard.tsx:70 | returns the position of the first order with the id, or none exactly when no order has it |
| Orders.GenerateLabel | src/components/orders/VendorOrdersDashboard.tsx:69-81 | an unknown id changes nothing; only the tracking id can change; an order that already has one keeps it; an order that changes has the id and receives a well-formed tracking id; for a known id the label dialog opens and the selection is the list's order with that id, now holding a tracking id |
| Orders.GenerateLabelTouchesFirstMatch | src/components/orders/VendorOrdersDashboard.tsx:69-81 | the label is generated for the first order with the id: it becomes the selection as the list now holds it, and no other order changes |
| Orders.GenerateLabelIdempotent | src/components/orders/VendorOrdersDashboard.tsx:73-76 | a second label request for the same id changes nothing, whatever the second draw |
| Orders.MarkLabelGenerated | src/components/orders/VendorOrdersDashboard.tsx:84-119 | without a selection nothing changes; otherwise exactly the orders sharing the selected id get the flag set, the flag is never cleared, the selection is flagged, the dialog closes and the message is shown |
| Orders.PrintLabel | src/components/orders/VendorOrdersDashboard.tsx:84-100 | without a selection nothing changes; with one the selection is flagged and the print message is shown |
| Orders.DownloadLabel | src/components/orders/VendorOrdersDashboard.tsx:103-119 | without a selection nothing changes; with one the selection is flagged and the download message is shown |
| Orders.LabelGeneratedMonotonic | src/components/orders/VendorOrdersDashboard.tsx:84-119 | an order or selection whose flag is set keeps it through print or download |
| Orders.PrintAndDownloadCommute | src/components/orders/VendorOrdersDashboard.tsx:84-119 | print then download, and download then print, leave the same orders, selection and dialog as one print |
| Orders.MarkAsShipped | src/components/orders/VendorOrdersDashboard.tsx:122-125 | the drop-off message is the toast shown last |
| Orders.MarkAsShippedIsStatusUpdate | src/components/orders/VendorOrdersDashboard.tsx:122-125 | apart from the toast, marking as shipped equals the status update to `shipped`; every order with the id ends `shipped` |
| Orders.CloseDetail | src/components/orders/VendorOrdersDashboard.tsx:138-141 | the selection is cleared and the panel closes; nothing else changes |
| Orders.SaveStatus | src/components/orders/VendorOrdersDashboard.tsx:144-148 | without a selection nothing changes; with one only the saved message is shown |
| OrderFlow.Start | src/hooks/useOrders.ts:6-9 | the flow starts on the orders screen, modal closed, no current order |
| OrderFlow.GoToStep | src/hooks/useOrders.ts:11-13 | the step becomes exactly the given one; nothing else changes |
| OrderFlow.NavigateBack | src/hooks/useOrders.ts:15-19 | above the first screen the step drops by one, otherwise nothing changes; a step of at least 1 stays at least 1 |
| OrderFlow.NavigateBackFloor | src/hooks/useOrders.ts:15-19 | going back n times from step s lands on max(s - n, 1) and changes nothing else |
| OrderFlow.SetShowModal | src/hooks/useOrders.ts:7 | the modal flag becomes the given value; nothing else changes |
| OrderFlow.SelectOrder | src/hooks/useOrders.ts:21-27 | an unknown id clears the current order and keeps the step; a known id makes the first order with that id current and moves to the details screen |
| OrderFlow.UpdateOrderStatus | src/hooks/useOrders.ts:29-39 | only the status of orders with the id changes; the current order's status is refreshed if and only if it has the id; step and modal are kept |
| OrderFlow.UpdateKeepsCurrentInSync | src/hooks/useOrders.ts:29-39 | a current order equal to the list's k-th order stays equal to it after any update |
| OrderFlow.SelectThenUpdate | src/hooks/useOrders.ts:21-39 | selecting a known id and updating it leaves a current order with the new status that is in the updated list |
| OrderFlow.HandleDropOff | src/hooks/useOrders.ts:41-47 | without a current order nothing changes; otherwise it and every order with its id go in transit with their other fields kept, the modal closes and the completion screen is shown |
| OrderFlow.DropOffKeepsCurrentInSync | src/hooks/useOrders.ts:29-47 | a current order equal to the list's k-th order is still equal to it after the drop-off, and is in transit |
| OrderFlow.HandleDelivered | src/hooks/useOrders.ts:29-51 | it is the status update to delivered: only the status of orders with the id changes, the current order is refreshed exactly when it has the id, and the step and the modal are kept |
| OrderFlow.DeliveredKeepsCurrentInSync | src/hooks/useOrders.ts:29-51 | a current order equal to the list's k-th order is still equal to it after any delivery confirmation |
| OrderFlow.DropOffThenDelivered | src/hooks/useOrders.ts:29-51 | drop-off then delivery of the current order leaves it delivered, still the list's copy with its other fields unchanged, on the completion screen with the modal closed |
| ProductView.Initial | src/components/pages/VendorDashboard.tsx:16-27 | no products, sort by name ascending, filter "All", categories ["All"] |
| ProductView.HandleSort | src/components/pages/VendorDashboard.tsx:55-62 | the sort column becomes the clicked one; the direction flips when it was already active and is ascending otherwise; nothing else changes |
| ProductView.HandleSortTwiceRestores | src/components/pages/VendorDashboard.tsx:55-62 | clicking the active column twice restores the view |
| ProductView.HandleSortNewColumnTwice | src/components/pages/VendorDashboard.tsx:55-62 | clicking a new column twice sorts it descending |
| ProductView.Distinct | src/components/pages/VendorDashboard.tsx:40 | the result has no duplicates and holds only elements of the input |
| ProductView.DistinctKeepsAll | src/components/pages/VendorDashboard.tsx:40 | every element of the input appears in the distinct list |
| ProductView.DistinctFirstAppearanceOrder | src/components/pages/VendorDashboard.tsx:40 | the distinct list is ordered by each element's first appearance in the input |
| ProductView.CategoriesOf | src/components/pages/VendorDashboard.tsx:40 | one category per product, in product order |
| ProductView.CategoryList | src/components/pages/VendorDashboard.tsx:40-41 | "All" first, then categories without duplicates, holding exactly the categories some product has |
| ProductView.LoadProducts | src/components/pages/VendorDashboard.tsx:35-53 | a failed fetch changes nothing; a successful one replaces the products and the category list derived from them; nothing else changes |
| ProductView.ProductMatches | src/components/pages/VendorDashboard.tsx:136-148 | with an empty search a product passes exactly when the filter is "All" or its category; a product of another category never passes |
| ProductView.ProductMatchesExactly | src/components/pages/VendorDashboard.tsx:136-148 | a product passes if and only if the lower-cased search occurs in its lower-cased name, description or category, and the filter is "All" or its category |
| ProductView.EverythingMatchesUnfiltered | src/components/pages/VendorDashboard.tsx:138-147 | with empty search and "All" every product passes |
| ProductView.LexCompare | src/components/pages/VendorDashboard.tsx:152-154 | the comparison yields -1, 0 or 1 |
| ProductView.LexCompareAntisymmetric | src/components/pages/VendorDashboard.tsx:152-154 | swapping the strings negates the comparison |
| ProductView.LexCompareZero | src/components/pages/VendorDashboard.tsx:152-154 | the comparison is 0 exactly for equal strings |
| ProductView.LexCompareTransitive | src/components/pages/VendorDashboard.tsx:152-154 | the string order is transitive |
| ProductView.PriceKey | src/components/pages/VendorDashboard.tsx:158-160 | a product's price key is its first tier's price, or 0 when it has no tiers |
| ProductView.Compare | src/components/pages/VendorDashboard.tsx:149-162 | by quantity or price the comparison is negative exactly when the first key is smaller; by name or category it is zero exactly when the strings are equal |
| ProductView.CompareAntisymmetric | src/components/pages/VendorDashboard.tsx:149-162 | for every column, swapping the products negates the comparison |
| ProductView.BeforeTotal | src/components/pages/VendorDashboard.tsx:149-163 | for every column and direction any two products are ordered one way or the other |
| ProductView.BeforeTransitive | src/components/pages/VendorDashboard.tsx:149-163 | for every column and direction the order is transitive |
| ProductView.TiedTransitive | src/components/pages/VendorDashboard.tsx:149-162 | products tied with a third are tied with each other |
| ProductView.OrderingIsTotalPreorder | src/components/pages/VendorDashboard.tsx:149-163 | for every column and direction the comparator is a total, transitive order, as `sort` requires of it |
| ProductView.TiedWithIsTieClass | src/components/pages/VendorDashboard.tsx:149-163 | products tied with the same product may come in either order, for either direction |
| Sorting.Insert | src/components/pages/VendorDashboard.tsx:149-164 | insertion adds exactly the one element |
| Sorting.InsertionSort | src/components/pages/VendorDashboard.tsx:149-164 | the sorted list is a permutation of the input |
| Sorting.InsertSorted | src/components/pages/VendorDashboard.tsx:149-164 | for a total, transitive order, inserting into a sorted list keeps it sorted |
| Sorting.SortSorted | src/components/pages/VendorDashboard.tsx:149-164 | for a total, transitive order, the result is sorted |
| Sorting.InsertStable | src/components/pages/VendorDashboard.tsx:149-164 | the inserted element comes ahead of every member of its tie class already in the list, and the others keep their order |
| Sorting.SortStable | src/components/pages/VendorDashboard.tsx:149-164 | members of a tie class keep their relative order |
| ProductView.FilteredProducts | src/components/pages/VendorDashboard.tsx:135-164 | every shown product passes the search and category filter, and the shown products are drawn from the loaded ones, counted with multiplicity |
| ProductView.FilteredProductsCorrect | src/components/pages/VendorDashboard.tsx:135-164 | the shown list is a permutation of the passing products, sorted by the active column and direction, with tied products in loaded order |
| ProductView.UnfilteredShowsAll | src/components/pages/VendorDashboard.tsx:135-148 | with empty search and "All" the shown list is a permutation of all products |
| ProductView.PriceSortExample | src/components/pages/VendorDashboard.tsx:157-163 | products at 10 and 5 sort as 5, 10 ascending and 10, 5 descending |
| ProductView.SelectProduct | src/components/pages/VendorDashboard.tsx:64-68 | the product is selected and neither editing nor adding; nothing else changes |
| ProductView.CloseProductDetail | src/components/pages/VendorDashboard.tsx:70-74 | no selection, neither editing nor adding; nothing else changes |
| ProductView.DeleteClick | src/components/pages/VendorDashboard.tsx:77-80 | the product is pending deletion and the confirmation opens; nothing else changes |
| ProductView.ConfirmDelete | src/components/pages/VendorDashboard.tsx:83-95 | without a pending product or on failure nothing changes; on success the confirmation closes, nothing is pending, and the selection is cleared if and only if it has the deleted product's id |
| ProductView.CancelDelete | src/components/pages/VendorDashboard.tsx:97-100 | nothing pending, confirmation closed; nothing else changes |
| ProductView.AddProduct | src/components/pages/VendorDashboard.tsx:102-106 | adding, not editing, no selection; nothing else changes |
| ProductView.EditProduct | src/components/pages/VendorDashboard.tsx:108-112 | editing the product, not adding; nothing else changes |
| ProductView.CancelEdit | src/components/pages/VendorDashboard.tsx:129-132 | neither editing nor adding; nothing else changes |
| ProductForm.EmptyDraft | src/components/product/ProductForm.tsx:12-17 | a fresh form has one tier {moq 1, price 0}, an empty name and the placeholder image |
| ProductForm.TierDrafts | src/components/product/ProductForm.tsx:26 | one draft per tier with its moq and price |
| ProductForm.Load | src/components/product/ProductForm.tsx:19-28 | when editing a product every field is taken from it; otherwise the draft is kept |
| ProductForm.ApplyEdit | src/components/product/ProductForm.tsx:74 | the edited field takes the value, the other field is kept |
| ProductForm.ChangeTier | src/components/product/ProductForm.tsx:72-76 | same length; every other tier is kept; in tier i only the edited field changes |
| ProductForm.ChangeTierLastWins | src/components/product/ProductForm.tsx:72-76 | of two edits to the same field the later one wins |
| ProductForm.AddTier | src/components/product/ProductForm.tsx:78-80 | the list grows by exactly one default tier at the end |
| ProductForm.RemoveTier | src/components/product/ProductForm.tsx:82-87 | a single tier is never removed; with more, exactly tier i goes and the rest keep their order; a non-empty list stays non-empty |
| ProductForm.RemoveUndoesAdd | src/components/product/ProductForm.tsx:78-87 | removing the tier just added restores the list |
| ProductForm.RemovalsNeverEmpty | src/components/product/ProductForm.tsx:82-87 | no sequence of removals empties a non-empty tier list |
| ProductForm.FormatTiers | src/components/product/ProductForm.tsx:49-52 | same length, moq and price; tier i keeps the product's tier-i id when it exists, else is numbered i + 1 |
| ProductForm.VendorId | src/components/product/ProductForm.tsx:61 | the product's non-zero vendor id, otherwise 1; never 0 |
| ProductForm.Submit | src/components/product/ProductForm.tsx:30-70 | rejects with the name message if and only if the name is blank; otherwise with the category message if and only if the category is blank; otherwise with the tier message if and only if there are no tiers; else saves the form's fields with the formatted tiers; `id` and `created_at` are absent when adding and copied from the product when editing |
| ProductForm.EditRoundTrip | src/components/product/ProductForm.tsx:19-70 | loading a valid product and saving at once hands back its fields, tiers, id and creation time unchanged, with a vendor id of 0 replaced by 1 |
| ProductForm.TiersSurviveEdit | src/components/product/ProductForm.tsx:19-52 | a product's tiers loaded into the form and formatted back are its tiers |
| Cart.RemoveProduct | src/components/pages/Shipping.tsx:36-38 | no remaining line has the removed id |
| Cart.RemoveProductExactly | src/components/pages/Shipping.tsx:36-38 | a line remains if and only if it was in the cart with another id, with its multiplicity, in its original order |
| Cart.ChangeQuantity | src/components/pages/Shipping.tsx:40-46 | below 1 the cart is unchanged; otherwise exactly the lines with the id take the quantity, with length, order and other fields kept |
| Cart.QuantitiesStayPositive | src/components/pages/Shipping.tsx:36-46 | from quantities of at least 1, no sequence of removals and quantity changes brings a line below 1 |
| Cart.Subtotal | src/components/pages/Shipping.tsx:49 | an empty cart has subtotal 0 and a one-line cart the line's price times its quantity; with Cart.SubtotalAppend this fixes the sum over any cart |
| Cart.SubtotalAppend | src/components/pages/Shipping.tsx:49 | the subtotal is additive over concatenated carts |
| Cart.RemoveProductSubtotal | src/components/pages/Shipping.tsx:36-49 | the subtotal falls by exactly the removed lines' totals |
| Cart.SubtotalNonNegative | src/components/pages/Shipping.tsx:49 | non-negative prices and quantities give a non-negative subtotal |
| Cart.ShippingCost | src/components/pages/Shipping.tsx:50 | the price of the first option with the selected id, or 0 when none has it |
| Cart.OfferedShippingCosts | src/components/pages/Shipping.tsx:19-23 | standard 5.99, express 12.99, economy 3.99, unknown 0 |
| Cart.OrderSummary | src/components/pages/Shipping.tsx:49-52 | tax is 8% of the subtotal, total is subtotal plus shipping plus tax |
| Cart.RemoveProductTotal | src/components/pages/Shipping.tsx:36-52 | removing a product lowers the total by exactly the removed lines' subtotal plus its 8% tax |
| Cart.RemoveProductNeverRaisesTotal | src/components/pages/Shipping.tsx:36-52 | with non-negative prices and quantities, removing a product never raises the total |
| Cart.InitialSummary | src/components/pages/Shipping.tsx:14-52 | the opening cart gives subtotal 29.99, shipping 5.99, tax 2.3992, total 38.3792 |
| Registration.Set | src/components/RegisteVendor/RegisterVendor.tsx:37-39 | the named field reads back the new value; every other field is kept |
| Registration.SetOwnValue | src/components/RegisteVendor/RegisterVendor.tsx:37-39 | writing a field's own value back leaves the form unchanged |
| Registration.StepOneErrors | src/components/RegisteVendor/RegisterVendor.tsx:44-54 | an error exactly for each empty field among business name, category, address, city, state, country and pincode; the pincode message is "Postal code is required" for Canada and "Pincode is required" otherwise |
| Registration.StepTwoErrors | src/components/RegisteVendor/RegisterVendor.tsx:56-66 | an error exactly when the owner name or phone is empty, the email lacks '@', the password is under 6 UTF-16 code units, or the confirmation differs, and for no other field |
| Registration.StepErrors | src/components/RegisteVendor/RegisterVendor.tsx:41-66 | step 1 has an error exactly for each empty field among the seven address fields, the pincode message depending on "Canada"; step 2 has an error exactly when the owner name or phone is empty, the email lacks '@', the password is under 6 UTF-16 code units, or the confirmation differs; other steps have none |
| Registration.PasswordLengthInCodeUnits | src/components/RegisteVendor/RegisterVendor.tsx:60 | three characters above U+FFFF (six code units) pass the length check, three basic-plane letters do not |
| Registration.Start | src/components/RegisteVendor/RegisterVendor.tsx:11-35 | step 1, all fields empty, no errors |
| Registration.ValidateStep | src/components/RegisteVendor/RegisterVendor.tsx:41-75 | succeeds if and only if the step has no errors; the stored errors become the step's errors, empty on success; nothing else changes |
| Registration.Next | src/components/RegisteVendor/RegisterVendor.tsx:77-79 | the step grows by one exactly when the step validates; the errors are the step's errors |
| Registration.Prev | src/components/RegisteVendor/RegisterVendor.tsx:81 | the step drops by one, unconditionally |
| Registration.StepOneFailsIffFieldEmpty | src/components/RegisteVendor/RegisterVendor.tsx:44-79 | on step 1 "next" stays put if and only if one of the seven fields is empty |
| Registration.LaterStepsAlwaysAdvance | src/components/RegisteVendor/RegisterVendor.tsx:41-79 | beyond steps 1 and 2 validation always passes and "next" advances |
| Registration.NextThenPrev | src/components/RegisteVendor/RegisterVendor.tsx:77-81 | "next" past a valid step then "back" returns to it with errors cleared |
| Registration.PayloadOf | src/components/RegisteVendor/RegisterVendor.tsx:85 | the payload carries every field but the confirmation: with the confirmation it gives back the form |
| Registration.PayloadDropsOnlyConfirmation | src/components/RegisteVendor/RegisterVendor.tsx:85 | the payload together with the confirmation gives back the form, and the confirmation does not affect the payload |
| Registration.FailureAlertAsWritten | src/components/RegisteVendor/RegisterVendor.tsx:94 | the alert as the code computes it always starts with the mark |
| Registration.AsWrittenFallbackUnreachable | src/components/RegisteVendor/RegisterVendor.tsx:94 | as written, the alert is the mark plus the message, a bare mark for an empty message, and never the fallback text |
| Registration.FailureAlert | src/components/RegisteVendor/RegisterVendor.tsx:94 | the alert is the mark followed by the server's detail, or by "Registration failed" when there is none |
| Registration.JoinItems | src/components/RegisteVendor/RegisterVendor.tsx:94 | an array detail turned into text, as `"❌ " + message` converts it: empty for no entries, a single entry's own string, and 16 characters per object entry less the last comma |
| Registration.JoinItemsSnoc | src/components/RegisteVendor/RegisterVendor.tsx:94 | one more entry appends a comma and that entry's string |
| Registration.JoinItemsAppend | src/components/RegisteVendor/RegisterVendor.tsx:94 | two non-empty arrays side by side convert to their two strings joined by one comma, so entries are separated by exactly one comma |
| Registration.ReadDetail | src/components/RegisteVendor/RegisterVendor.tsx:89-91 | the detail or "" by the `or` operator, then `message.includes("Vendor already exists")`: the handler throws exactly for a truthy detail that is neither a string nor an array; the vendor-exists dialog opens exactly when a string detail contains the text or an array detail has it as an entry; an absent or falsy detail reads as "" |
| Registration.Submit | src/components/RegisteVendor/RegisterVendor.tsx:83-98 | the form without its confirmation is posted; success opens the success dialog; a string detail containing "Vendor already exists", or an array detail with that entry, opens that dialog; any other string or array detail raises the mark followed by its text; no detail gives the bare mark; a truthy detail of another kind throws, so nothing is shown |
| Registration.NonTextDetails | src/components/RegisteVendor/RegisterVendor.tsx:89-94 | a validation refusal whose detail has one object shows "❌ [object Object]", two objects are joined by a comma, and a numeric detail shows nothing |
| Registration.SubmitIntended | src/components/RegisteVendor/RegisterVendor.tsx:83-98 | the same submission with the intended alert, which falls back to "Registration failed" |
| Registration.SubmitDiffersOnlyWithoutDetail | src/components/RegisteVendor/RegisterVendor.tsx:89-94 | the as-written and intended submissions differ only in the alert, and only for a refusal whose detail reads as an empty message |
| ImageUpload.MessageOr | src/components/services/ImageUploadService.ts:71 | the server message when present and non-empty, otherwise the fallback |
| ImageUpload.UploadImage | src/components/services/ImageUploadService.ts:62-73 | success if and only if the server accepted; on success the server's URL and no message; on failure an empty URL and a non-empty message, the server's when it sent one |
| ImageUpload.FailedUploadsAreRecognisable | src/components/services/ImageUploadService.ts:62-73 | a failed upload differs from every successful one with a URL and always carries a message |
| ImageUpload.StoredUrl | src/components/services/ImageUploadService.ts:107 | every simulated URL starts with the uploads base |
| ImageUpload.StoredUrlEndsWithDashedName | src/components/services/ImageUploadService.ts:107 | every simulated URL ends with the file name with each whitespace character replaced by '-' |
| ImageUpload.UploadMultipleImages | src/components/services/ImageUploadService.ts:106-119 | exactly one result per file in order; all succeed with the URL from the clock reading and the dashed name, or all fail with an empty URL and "Upload failed" |
| ImageUpload.ProgressTicks | src/components/services/ImageUploadService.ts:94-103 | without a callback no ticks; otherwise multiples of the step, all below 100 but the last, which is the first at least 100; with step 10 exactly 10, 20, ..., 100 |
| ImageUpload.FileName | src/components/services/ImageUploadService.ts:131 | the file name has no '/', is a suffix of the URL, and is preceded by a '/' unless it is the whole URL |
| ImageUpload.NoFileNameIffTrailingSlash | src/components/services/ImageUploadService.ts:131-135 | the file name is empty if and only if the URL is empty or ends with '/' |
| ImageUpload.DeleteImage | src/components/services/ImageUploadService.ts:128-148 | no request is made if and only if the file name is empty, and then the result is "Invalid image URL"; otherwise the file's path is requested and success follows the server, a refusal reporting its message or "Delete failed" |
| ImageUpload.StoredFile | src/components/services/ImageUploadService.ts:107 | the stored name starts with the timestamp digits and completes the uploads base to the URL |
| ImageUpload.StoredFileHasNoSlash | src/components/services/ImageUploadService.ts:107 | a file name without '/' gives a stored name without '/' |
| ImageUpload.DeleteTargetsStoredFile | src/components/services/ImageUploadService.ts:107-137 | deleting a URL the batch upload produced requests exactly the stored file, whose leading digits read back as the upload time |
| Text.Lower | src/components/orders/VendorOrdersDashboard.tsx:39-40 | lower-casing keeps the length and maps each character |
| Text.Utf16Length | src/components/RegisteVendor/RegisterVendor.tsx:60 | `.length` counts UTF-16 code units: empty exactly for the empty string, between the number of characters and twice that |
| Text.Utf16LengthOfBasicPlane | src/components/RegisteVendor/RegisterVendor.tsx:60 | a string without characters above U+FFFF has one code unit per character |
| Text.Utf16LengthAppend | src/components/RegisteVendor/RegisterVendor.tsx:60 | the code-unit length of two strings side by side is the sum of their lengths |
| Text.IncludesIffOccurs | src/components/orders/VendorOrdersDashboard.tsx:39-40 | `includes` holds if and only if the text occurs at some position |
| Text.TrimEmptyIffBlank | src/components/product/ProductForm.tsx:34-42 | the trimmed text is empty if and only if every character is whitespace |
| Text.DashWhitespace | src/components/services/ImageUploadService.ts:107 | same length, no whitespace left, each whitespace character becomes '-', and every other character is kept |
| Text.SplitLastIsLastSegment | src/components/services/ImageUploadService.ts:131 | the last piece of a split is the text after the last separator |
| Text.DecimalRoundTrip | src/components/orders/VendorOrdersDashboard.tsx:75 | a number's decimal spelling reads back as the number |

## Left out

- HTTP requests, `localStorage` tokens and auth headers: each request is replaced by its answer (success or refusal with an optional message), passed in as a parameter. A registration refusal carries its `detail` as JSON gives it: absent, a string, an array, or another value.
- Registration.Submit: array entries other than strings and objects (numbers, `null`, nested arrays) are not modelled; a string or object entry is. For a detail that is neither a string nor an array only its truthiness is kept: a falsy one reads as "" and a truthy one throws inside the handler.
- OrderFlow.FlowOrder keeps only `id`, `status`, the product's `name` and `quantity`, the customer's `name` and `location`, `total` and `trackingId` of a `MOCK_ORDERS` record in `src/constants.ts`. The product's `size`, `color` and `imageUrl`, the customer's `address`, `city`, `postalCode` and `phone`, and the order's `tax`, `shippingCost`, `courier` and `deliveredDate` are left out, because the flow's operations only copy them.
- The reload of products after a delete or save is `ProductView.LoadProducts` applied to the fetched list. `handleSaveProduct` itself is only service calls and flag resets.
- Timers: the 3-second toast auto-hide, the 800 ms simulated delay and the 200 ms tick interval. Only the sequence of tick values is modelled.
- The per-upload progress percentage (`Math.round` of loaded over total) and the `onProgress` callback's timing.
- The `getInstance` singleton.
- Rendering, routing and the step sub-components of the registration wizard.
- Text.Lower: lower-cases ASCII letters only. Unicode case mapping is not modelled.
- ProductView.LexCompare: `localeCompare` is modelled as code-point lexicographic order. Locale collation rules are not modelled.
- Sorting.InsertionSort: JavaScript's sort is stable. The model uses a stable insertion sort, and sortedness, permutation and stability are proved. Any stable sort by the same comparator gives the same list.
- ProductView.Compare: prices are exact reals, and quantities (`available_quantity`, `moq`, a cart line's quantity) are integers. The number inputs that set them (`ProductForm.tsx:129,145`) have the default step of 1, so the form submits whole numbers; a fractional value typed past that step, IEEE rounding and NaN (which `|| 0` would map to 0) are not modelled.
- Cart.OrderSummary: exact decimal arithmetic. Binary floating-point rounding of the displayed sums is not modelled.
- ProductForm.ChangeTier: requires an index of an existing tier, since the form only renders existing rows. The source's write past the end of the array is not modelled.
- ProductView.LoadProducts: an answer whose data is present but not an array (for instance a paginated object) is not modelled. The source stores such data as the product list and then throws at `.map`, and the list rendering fails at `products.filter`. The model takes the fetched data as a list of products or as nothing.
- Orders.GenerateLabel: the source writes the tracking id into the order object held by the list, without a state update. The model updates the first list entry with the id, which is what the list holds afterwards.
- OrderFlow.GoToStep and Registration.Prev accept any step number, as the source does. Neither has a floor.
- Browser `alert` dialogs are modelled as the alert text returned.

## Findings

| source | as written | input that shows it | evidently intended | confidence | as-written member | corrected member |
|---|---|---|---|---|---|---|
| src/components/RegisteVendor/RegisterVendor.tsx:94 | the fallback text is the right operand of `or`, applied after the mark has been concatenated with the message, so the left operand is never empty and the fallback is never chosen | a refusal without a `detail` (message "") raises an alert showing only the mark | the mark followed by the message, or by "Registration failed" when the message is empty | not executed; follows from `+` binding tighter than the `or` operator; `Registration.Submit` keeps the as-written alert and `Registration.SubmitIntended` uses the corrected one, and `Registration.SubmitDiffersOnlyWithoutDetail` proves they differ exactly for a refusal whose detail reads as an empty message: no detail, an empty string, another falsy value, or an array whose entries all convert to "" | Registration.FailureAlertAsWritten | Registration.FailureAlert |
