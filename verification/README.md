# ProductsTable and ShippingMethodForm decision rules in Dafny

This project models the logic inside two React components of an e-commerce storefront. It leaves out the markup.

- **ProductsTable** is the admin products table. The model covers:
  - which body the table shows: a loading placeholder, an empty placeholder, or one row per product;
  - the three-way mapping from product status to badge label and colour;
  - when the pagination bar appears;
  - the numbered page links;
  - the previous/next controls, including the page each click requests and when each is greyed out.
- **ShippingMethodForm** is the checkout's shipping-method form. The model covers:
  - the fixed price table keyed by region tier and method;
  - the region default;
  - the form's local state (selection, cost, calculating flag) as a state machine.

The deferred cost computation (`setTimeout`) is modelled as its own event, `TimerFire`. The method is captured when the computation is scheduled. The region is read when it fires. Nothing cancels a scheduled computation, so the model keeps every pending computation and lets any one of them fire next.

Files:

- `wrappers.dfy`: `Option` (an omitted or null TypeScript value).
- `js_values.dfy`: JavaScript truthiness of optional strings, and `v || fallback`.
- `products_table.dfy`: module `ProductsTable`.
- `shipping_cost.dfy`: module `ShippingCost` (methods, region, price table).
- `shipping_method_form.dfy`: module `ShippingMethodForm` (state machine and display).

Modelling choices:

- **Truthiness.** In JavaScript, an absent value and the empty string are both falsy. The components test truthiness rather than null in several places: `|| 'SP'`, `|| 'Sem nome'`, `!selectedMethod`, `selectedMethod && …` and `formErrors.shippingMethod && …`. The model follows suit, so selecting `""` resets the cost to 0, just as a null selection does.
- **When the effect runs.** The effect re-runs only when `selectedMethod` changes value. Picking the method that is already selected therefore schedules nothing. It still reports the value to `setShippingMethod`.
- **Clearing the selection.** After mount the component never stores null: `setSelectedMethod` is only called from `handleMethodChange`, with a string (ShippingMethodForm.tsx:48-49). The `SetNull` event and `ClearSelection` therefore have no trigger inside the component; they are an extra event that exercises the effect's null branch (:23-26).
- **Greyed-out controls.** A greyed-out previous/next control has pointer events disabled. The model treats a click on it as never delivered.
- **One-sided clamping.** Both targets might be expected to clamp into [1, totalPages]. The code clamps only one side of each: "previous" is bounded below by 1 and "next" above by totalPages. The model follows the code. `PreviousCanOvershootPastTheEnd` shows the consequence when the caller's current page lies past the end.
- **Firing order.** Whichever computation for one of the three methods fires last decides the displayed cost; a computation that captured any other value leaves the cost as it was (`FireTimer`'s contract, `UnknownMethodKeepsCost`). The radio group itself only emits the three method values (ShippingMethodForm.tsx:64, :74, :84). `FiringOrderDecidesCost` shows two firing orders that leave different costs. `StaleQuoteSurvivesQuiescence` shows that, once everything has fired, the panel can show another method's price. `NewestWinsWhenFiredInOrder` shows that firing oldest-first makes the newest pick win.

## Model

| member | source | states |
|---|---|---|
| ProductsTable.StatusOf | src/components/admin/products/ProductsTable.tsx:76-86 | only the exact values `active` and `out_of_stock` are recognised; every other value, missing included, is inactive (each case as an if-and-only-if) |
| ProductsTable.BadgeFollowsStatus | src/components/admin/products/ProductsTable.tsx:76-86 | active gives "Ativo" in green, out_of_stock gives "Sem Est." in amber, anything else gives "Inativo" in red |
| ProductsTable.LabelAndStyleAgree | src/components/admin/products/ProductsTable.tsx:75-86 | the label chain and the colour chain agree: two status values share a label iff they share a colour iff they share a status |
| ProductsTable.BadgeStyle | src/components/admin/products/ProductsTable.tsx:75-81 | the colour chain: green iff the status is active, amber iff out_of_stock, red iff anything else |
| ProductsTable.BadgeLabel | src/components/admin/products/ProductsTable.tsx:82-86 | the label chain: "Ativo" iff the status is active, "Sem Est." iff out_of_stock, "Inativo" iff anything else |
| ProductsTable.RowOf | src/components/admin/products/ProductsTable.tsx:63-108 | a row is keyed by the product id; it passes the product to edit and its id to delete; its name is never empty and falls back to "Sem nome"; a truthy brand is shown verbatim and any other brand as ""; the price falls back to 0; the badge comes from the status |
| ProductsTable.RowsOf | src/components/admin/products/ProductsTable.tsx:63-110 | exactly one row per product, in input order |
| ProductsTable.BodyOf | src/components/admin/products/ProductsTable.tsx:50-111 | loading iff the loading placeholder; empty placeholder iff not loading and no products; otherwise rows matching the products one-to-one and in order |
| ProductsTable.PlaceholderText | src/components/admin/products/ProductsTable.tsx:50-61 | the loading and empty placeholders carry "Carregando produtos..." and "Nenhum produto encontrado." |
| ProductsTable.LoadingHidesProducts | src/components/admin/products/ProductsTable.tsx:50-55 | while loading, the body is the same whatever the product list holds |
| ProductsTable.RowsFollowInputOrder | src/components/admin/products/ProductsTable.tsx:56-63 | with a non-empty list and not loading, row i belongs to product i |
| ProductsTable.ShowsPagination | src/components/admin/products/ProductsTable.tsx:117 | the bar is shown iff the body shows rows and totalPages > 1 |
| ProductsTable.PreviousControl | src/components/admin/products/ProductsTable.tsx:122-125 | target never below 1; target stays in [1, totalPages] when the current page does; greyed out iff currentPage <= 1; when active, the target is exactly one below the current page; when greyed out, the target is 1 |
| ProductsTable.NextControl | src/components/admin/products/ProductsTable.tsx:141-144 | target never above totalPages; target stays in [1, totalPages] when the current page does; greyed out iff currentPage >= totalPages; when active, the target is exactly one above the current page; when greyed out, the target is totalPages |
| ProductsTable.LinksFrom | src/components/admin/products/ProductsTable.tsx:128-138 | the links first..totalPages in order, each active iff it equals the current page |
| ProductsTable.PageLinks | src/components/admin/products/ProductsTable.tsx:128-138 | exactly the pages 1..totalPages in ascending order (none when totalPages <= 0); a link is active iff it equals currentPage |
| ProductsTable.PageLinksAscendingAtMostOneActive | src/components/admin/products/ProductsTable.tsx:128-132 | links strictly ascend and no two are active |
| ProductsTable.CurrentPageLinkIsActive | src/components/admin/products/ProductsTable.tsx:128-132 | a current page in [1, totalPages] has exactly one active link, the one at index currentPage - 1 |
| ProductsTable.BarOf | src/components/admin/products/ProductsTable.tsx:119-147 | "previous" is greyed out iff currentPage <= 1 and targets 1 when greyed out, currentPage - 1 otherwise (max(1, currentPage - 1)); "next" is greyed out iff currentPage >= totalPages and targets totalPages when greyed out, currentPage + 1 otherwise (min(totalPages, currentPage + 1)); the links are exactly 1..totalPages in order (none when totalPages <= 0), each in [1, totalPages] and active iff its page is currentPage |
| ProductsTable.ControlRequest | src/components/admin/products/ProductsTable.tsx:122-144 | a previous/next click passes its target to `onPageChange` iff the control is active and a callback was given |
| ProductsTable.LinkRequest | src/components/admin/products/ProductsTable.tsx:132 | a link click passes its own page number iff a callback was given |
| ProductsTable.RequestsStayInRange | src/components/admin/products/ProductsTable.tsx:122-144 | with the current page in [1, totalPages], every requested page is in [1, totalPages], and previous/next never request the current page |
| ProductsTable.BoundaryControlsRequestNothing | src/components/admin/products/ProductsTable.tsx:122-144 | "previous" on page 1 and "next" on the last page request nothing |
| ProductsTable.PreviousCanOvershootPastTheEnd | src/components/admin/products/ProductsTable.tsx:123-124 | "previous" clamps only from below: from page 5 of 3 it requests page 4 |
| ProductsTable.Render | src/components/admin/products/ProductsTable.tsx:26-150 | the body follows the precedence rule; the bar appears iff the visibility rule holds for the defaulted totalPages; the bar is built from the defaulted current page and totalPages |
| ProductsTable.DefaultTotalPagesHidesPagination | src/components/admin/products/ProductsTable.tsx:33-117 | without a totalPages prop the bar never appears |
| ProductsTable.DefaultCurrentPageStartsAtFirst | src/components/admin/products/ProductsTable.tsx:32-132 | with the default current page, a shown bar has "previous" greyed out and link 1 active |
| ShippingCost.ParseMethod | src/components/checkout/ShippingMethodForm.tsx:35-41 | a value names a method iff it is that method's radio value |
| ShippingCost.ParseMethodValue | src/components/checkout/ShippingMethodForm.tsx:64-84 | parsing a method's radio value returns that method |
| ShippingCost.EffectiveRegion | src/components/checkout/ShippingMethodForm.tsx:32 | a stored region that is present and non-empty is used as is; otherwise "SP"; the result is never empty |
| ShippingCost.TierOf | src/components/checkout/ShippingMethodForm.tsx:34 | the SP/RJ tier iff the region is exactly "SP" or "RJ" |
| ShippingCost.Cost | src/components/checkout/ShippingMethodForm.tsx:34-41 | every price in the table is a positive number of reais |
| ShippingCost.SpOrRjPrices | src/components/checkout/ShippingMethodForm.tsx:34-37 | in SP or RJ: sedex 20, pac 15, transportadora 40 |
| ShippingCost.OtherRegionPrices | src/components/checkout/ShippingMethodForm.tsx:38-41 | elsewhere: sedex 30, pac 20, transportadora 40 |
| ShippingCost.TierComparison | src/components/checkout/ShippingMethodForm.tsx:34-41 | transportadora costs the same in both tiers; no method costs more in SP/RJ than elsewhere |
| ShippingCost.MissingRegionGetsSpPrices | src/components/checkout/ShippingMethodForm.tsx:32 | an absent or empty region gets SP-tier prices |
| ShippingCost.CostAtFire | src/components/checkout/ShippingMethodForm.tsx:31-42 | the source's nested string comparisons equal the table lookup for a recognised method and the region read at fire time; an unrecognised method keeps the previous cost |
| ShippingMethodForm.RemoveFirst | src/components/checkout/ShippingMethodForm.tsx:31-45 | removing a fired computation takes exactly one occurrence of its captured value out of the pending collection (as multisets, one shorter), and takes the oldest entry when that is the one that fired |
| ShippingMethodForm.RemoveFirstDropsOldest | src/components/checkout/ShippingMethodForm.tsx:31-45 | the entry a fired computation removes is the oldest pending one with its captured value: the result is the pending sequence with exactly that position cut out, every other entry kept in order |
| ShippingMethodForm.Effect | src/components/checkout/ShippingMethodForm.tsx:22-46 | a falsy selection sets the cost to 0 and leaves the flag and pending set alone; a truthy one raises the flag and schedules one computation capturing it, cost unchanged |
| ShippingMethodForm.Reselect | src/components/checkout/ShippingMethodForm.tsx:22-46 | storing a selection equal to the current one changes nothing (the effect depends on `selectedMethod` only); a changed truthy selection raises the flag and schedules exactly it; a changed falsy one zeroes the cost and schedules nothing |
| ShippingMethodForm.HandleMethodChange | src/components/checkout/ShippingMethodForm.tsx:46-51 | the picked value becomes the selection and is reported to `setShippingMethod` unchanged, whatever the state; a repeated pick changes nothing else; a new non-empty pick raises the flag and schedules exactly that value |
| ShippingMethodForm.ClearSelection | src/components/checkout/ShippingMethodForm.tsx:22-26 | a null selection schedules nothing and leaves the flag alone; it sets the cost to 0 when the selection was not already null |
| ShippingMethodForm.FireTimer | src/components/checkout/ShippingMethodForm.tsx:31-45 | firing clears the flag and consumes one pending computation; it sets the cost from the table for the captured method and the region read now; an unrecognised method leaves the cost unchanged; the selection is untouched |
| ShippingMethodForm.StepPreservesConsistent | src/components/checkout/ShippingMethodForm.tsx:17-51 | every event preserves the invariant: the flag is up only while something is pending, no pending computation captured "", and the cost is 0 or a table price |
| ShippingMethodForm.RunPreservesConsistent | src/components/checkout/ShippingMethodForm.tsx:17-51 | any run of events from a consistent state, in any firing order, ends in a consistent state |
| ShippingMethodForm.ReachableIsConsistent | src/components/checkout/ShippingMethodForm.tsx:17-51 | every reachable state is consistent and its cost is non-negative |
| ShippingMethodForm.Panel | src/components/checkout/ShippingMethodForm.tsx:98-115 | the panel is hidden iff the selection is falsy; it shows "Calculando..." iff selected and calculating; otherwise it shows the cost |
| ShippingMethodForm.HighlightFollowsRadio | src/components/checkout/ShippingMethodForm.tsx:58-82 | a card is highlighted iff the radio group's value is its method's value; at most one card is highlighted |
| ShippingMethodForm.ValidationMessage | src/components/checkout/ShippingMethodForm.tsx:93-95 | the message appears iff the error map has a non-empty `shippingMethod` entry, and it is that entry verbatim |
| ShippingMethodForm.MountKeepsInitial | src/components/checkout/ShippingMethodForm.tsx:17-26 | the mount-time effect leaves the initial state (nothing selected, cost 0) as it is, with the panel hidden |
| ShippingMethodForm.SelectThenFireShowsQuote | src/components/checkout/ShippingMethodForm.tsx:22-51 | a new pick of a known method shows "Calculando..."; when its own computation fires, the panel shows that method's price for the region read at that moment |
| ShippingMethodForm.UnknownMethodKeepsCost | src/components/checkout/ShippingMethodForm.tsx:28-45 | an unrecognised value still raises the flag and schedules a computation; when it fires, the old cost is shown |
| ShippingMethodForm.SedexInSp | src/components/checkout/ShippingMethodForm.tsx:31-37 | picking sedex with region SP ends at 20 |
| ShippingMethodForm.TransportadoraInMg | src/components/checkout/ShippingMethodForm.tsx:31-41 | picking transportadora with region MG ends at 40 |
| ShippingMethodForm.NullSelectionCostsNothing | src/components/checkout/ShippingMethodForm.tsx:22-26 | clearing the selection after a quoted pick ends at cost 0 with the panel hidden |
| ShippingMethodForm.FiringOrderDecidesCost | src/components/checkout/ShippingMethodForm.tsx:31-46 | with two computations pending, the two firing orders leave different costs (15 and 20) |
| ShippingMethodForm.StaleQuoteSurvivesQuiescence | src/components/checkout/ShippingMethodForm.tsx:31-46 | `Run` takes Initial through selecting sedex then pac to the state with both pending; firing pac's computation and then sedex's leaves nothing pending and no calculation, the panel showing the sedex price while pac is selected |
| ShippingMethodForm.StaleQuoteRunSettles | src/components/checkout/ShippingMethodForm.tsx:31-46 | as one `Run` of timer events from the state with sedex and pac pending, firing pac before sedex settles on cost 20 (the sedex price) with pac selected and nothing pending |
| ShippingMethodForm.DrainInOrder | src/components/checkout/ShippingMethodForm.tsx:31-46 | firing every pending computation oldest first leaves nothing pending, keeps the selection, and clears the flag if anything fired |
| ShippingMethodForm.NewestWinsWhenFiredInOrder | src/components/checkout/ShippingMethodForm.tsx:31-46 | fired oldest first, the pending computations leave the price of the newest one |
| ShippingMethodForm.PickSettlesWhenFiredInOrder | src/components/checkout/ShippingMethodForm.tsx:22-51 | with in-order firing and a fixed region, a new pick of a known method ends with that method's price on the panel |

## Left out

- OrdersTable: only renders rows; its row component and order types are not part of this model.
- JSX markup, CSS classes, icons and the UI primitives (table, pagination, radio group, alert) are not modelled, because they are presentation or foreign components. Only the values they receive are modelled.
- Currency formatting (`formatCurrency`, `toLocaleString('pt-BR', …)`) is left out, because it is a locale call. A row records the number handed to the formatter, and the panel records the cost.
- The browser storage read is not modelled. The region is an input to each `TimerFire` event.
- Real timing is not modelled: the 500 ms delay, event-loop ordering, React's batching of state updates, and a computation firing after the form unmounts. Each user event is treated as one render followed by its effect. A pending computation fires whenever the event sequence says it does.
- Callback side effects (`onPageChange`, `handleEditProduct`, `handleDeleteClick`, `setShippingMethod`) are not modelled. Only the value each callback receives is modelled.
- Page numbers and prices are JavaScript numbers in the source. The model uses unbounded integers, so fractional, NaN or infinite values are not modelled.
- The product's `sellingPrice || 0` also maps NaN to 0. NaN is not an integer, so the model only has "absent gives 0".
