# e-commerce demo client — a Dafny model of its decision logic

The repository is a thin Next.js client for an order-management API. It
stores nothing itself and computes no prices. What it does decide:

- which form values the four Zod schemas accept;
- how the order list's filters live in the page's query string;
- what query string the order list is fetched with;
- how the HTTP client survives an expired session;
- how the auth provider's session state moves;
- a handful of view decisions in the order page.

This project restates those decisions as pure Dafny functions over
immutable datatypes and proves what the code promises about them.

Modules, one per concern:

- `Wrappers`: `Option`, standing for the source's `undefined`/`null`.
- `JsNumbers`: `String(n)` and `parseInt(s)` on integers, with their round trip.
- `Types`: the `OrderStatus` enumeration and the user, product and order-item records (`src/lib/types.ts`).
- `Schemas`: the login, register, product and create-order schemas (`src/lib/schemas.ts`).
  - Each schema maps values to the set of `(field, rule)` issues that fire; a form is accepted when that set is empty.
  - Zod's e-mail, URL and UUID checks arrive as the function-valued `Formats` parameter.
- `SearchParams`: the `URLSearchParams` operations the hooks use: `get`, `set`, `delete`, `append` and `toString`.
  - They follow the WHATWG URL Standard's URLSearchParams class, over an ordered list of name/value pairs.
  - `Named(p, n)`, the values under one name, is the view every "nothing else changes" property is stated in.
- `Filters`: `useFilters`, i.e. reading the typed filters with defaults, `updateFilters` and `resetFilters`.
- `OrderQuery`: the query that `useOrder`'s query function builds for `/orders`.
- `OrderFiltersView`: the three dropdowns of `OrderFilters`: what each displays and which update each choice issues.
- `Api`: response settlement in `request`, and the 401 refresh-and-replay machine.
  - 401 is Unauthorized, section 15.5.2 of RFC 9110.
  - The machine is a sequential event system over `(isRefreshing, initiator, queue)`, with `processQueue` as the queue drain.
- `Auth`: `resolveUser` and the `(user, isLoading)` transitions of the session check, login, register and logout.
- `CreateOrderDialog`: the view decisions of the create-order dialog.
  - the shipping-fee sanitiser;
  - what each product row is given;
  - the precedence of the product panel;
  - when Create is enabled.
- `ProductRowView`: the row callbacks and the `+`/`-` enablement, together with the toggle and quantity handlers that receive them.
  - The dialog is handed those handlers as its `onToggleProduct` and `onQuantityChange` props.
  - Their bodies are `handleToggleProduct` and `handleQuantityChange` in the order page, `src/app/(protected)/order/page.tsx`, lines 147-172.
  - `hasSelectedProducts` is computed there as well, at lines 82-85, and the page hands its filters to `useOrder` at lines 26-27.
- `OrderRowView`: the status colour table, the items-summary fallback and the item key fallback.

## Model

| member | source | states |
|---|---|---|
| JsNumbers.NatToString | src/hooks/useFilters.ts:37 | the decimal text of a natural number is non-empty, all digits, and has no leading zero |
| JsNumbers.IntToString | src/hooks/useFilters.ts:37 | `String(n)` starts with a digit exactly for n >= 0 and with `-` exactly for n < 0 |
| JsNumbers.ParseInt | src/hooks/useFilters.ts:21-24 | `parseInt` with no radix reads hexadecimal after a `0x`/`0X` prefix and decimal otherwise; it is NaN exactly when no digit of that radix follows the optional sign and prefix; an all-digit string reads as its decimal value and a prefixed all-hex string as its hexadecimal value; the sign fixes the sign of the result |
| JsNumbers.ParseIntOfIntToString | src/hooks/useFilters.ts:37 | `parseInt(String(n)) == n` for every integer n, so a number written into the URL reads back unchanged |
| JsNumbers.IntToStringInjective | src/components/OrderRow.tsx:70 | distinct integers have distinct decimal texts |
| JsNumbers.RadixValueOfNatToString | src/hooks/useFilters.ts:37 | reading the digits of the decimal text gives back the number |
| JsNumbers.ParseIntHexPrefix | src/hooks/useFilters.ts:21-24 | `"0x10"` reads as 16 and `"-0x10"` as -16 |
| JsNumbers.ParseIntBareHexPrefix | src/hooks/useFilters.ts:21-24 | a bare `"0x"` reads as NaN, not 0 |
| JsNumbers.ParseIntLeadingZero | src/hooks/useFilters.ts:21-24 | a leading zero does not switch to octal: `"010"` reads as 10 |
| Types.StatusEnumeration | src/lib/types.ts:60 | the five statuses are listed once each, and no two share a wire spelling |
| Schemas.LoginIssues | src/lib/schemas.ts:3-11 | the required, e-mail-format and 6-character rules fire exactly when broken, and login reports nothing else |
| Schemas.LoginAcceptedIff | src/lib/schemas.ts:3-11 | login accepts exactly a non-empty, well-formed e-mail with a password of 6 or more characters |
| Schemas.RegisterPasswordChecks | src/lib/schemas.ts:18-22 | the 8-character, upper-case and digit rules each fire exactly when broken, and only on the password |
| Schemas.RegisterFieldIssues | src/lib/schemas.ts:14-27 | each name has a 2-character rule; the e-mail a format rule; the terms must be true; the password issues are exactly the password chain's; no mismatch issue is reported at field level |
| Schemas.RegisterIssues | src/lib/schemas.ts:13-31 | the refinement adds a `confirmPassword` mismatch issue exactly when the passwords differ, and leaves the field issues untouched |
| Schemas.RegisterPasswordIssues | src/lib/schemas.ts:18-22 | the password field is clean exactly when it has 8+ characters, an `A`-`Z` and a `0`-`9` |
| Schemas.RegisterAcceptedIff | src/lib/schemas.ts:13-31 | register accepts exactly when both names have 2+ characters, the e-mail is well formed, the password chain holds, the terms are accepted and the confirmation matches |
| Schemas.RegisterPasswordIssuesLocal | src/lib/schemas.ts:18-31 | the password and confirmation issues depend on the two passwords alone, whatever the other fields hold |
| Schemas.RegisterAcceptedImpliesLoginAccepted | src/lib/schemas.ts:3-31 | credentials the register form accepts are accepted by the login form |
| Schemas.ProductIssues | src/lib/schemas.ts:33-45 | each of the seven product rules fires exactly when its condition fails |
| Schemas.ProductAcceptedIff | src/lib/schemas.ts:33-45 | the product form accepts exactly the values meeting all field rules; `imageUrl` may be absent, empty or a URL |
| Schemas.CreateOrderIssues | src/lib/schemas.ts:47-52 | an empty list is reported; each item's UUID, integer and positive rules fire exactly when broken; issues name only existing items |
| Schemas.CreateOrderAcceptedIff | src/lib/schemas.ts:47-52 | an order is accepted exactly when it has an item and every item has a UUID and a positive whole quantity |
| SearchParams.NamedEmptyIffAbsent | src/hooks/useFilters.ts:18 | a name holds no values exactly when no pair carries it |
| SearchParams.Get | src/hooks/useFilters.ts:18 | `get` is null exactly when the name holds no value, and otherwise returns its first value |
| SearchParams.GetDeterminedByNamed | src/hooks/useFilters.ts:18 | `get` depends only on the values under its own name |
| SearchParams.Delete | src/hooks/useFilters.ts:35 | `delete` leaves no value under the name and every other name as it was |
| SearchParams.Set | src/hooks/useFilters.ts:37 | `set` leaves exactly the one new value under the name and every other name as it was |
| SearchParams.Append | src/hooks/useOrder.ts:26 | `append` adds the value after the name's earlier values and leaves every other name as it was |
| SearchParams.NamedConcat | src/hooks/useOrder.ts:26-31 | the values under a name in a concatenation are those of the parts, in order |
| SearchParams.DeleteAbsent | src/hooks/useFilters.ts:35 | deleting a name no pair carries changes nothing |
| SearchParams.SetPresent | src/hooks/useFilters.ts:37 | setting a name to the single value it already holds changes nothing |
| SearchParams.DeleteIdempotent | src/hooks/useFilters.ts:35 | deleting twice is deleting once |
| SearchParams.SetIdempotent | src/hooks/useFilters.ts:37 | setting the same value twice is setting it once |
| SearchParams.Serialize | src/hooks/useFilters.ts:41 | the query text is empty exactly when there are no parameters |
| SearchParams.SerializeConcat | src/hooks/useFilters.ts:41 | the text of two non-empty lists together is their two texts joined by a single `&` |
| Filters.NonEmpty | src/hooks/useFilters.ts:18 | `x \|\| undefined` drops exactly the missing and empty strings and keeps everything else as it is |
| Filters.TextParam | src/hooks/useFilters.ts:18-25 | a text filter is undefined exactly when its parameter is missing or empty, and otherwise is the parameter |
| Filters.NumberParam | src/hooks/useFilters.ts:21-24 | a missing or empty page or limit reads as the default; any other value goes through `parseInt` |
| Filters.CustomerId | src/hooks/useFilters.ts:14 | no customer while auth is loading or when there is no user id; otherwise the user's id |
| Filters.Read | src/hooks/useFilters.ts:13-27 | the filters memo: customer from the session, four text filters, page defaulting to 1 and limit to 10 |
| Filters.Text | src/hooks/useFilters.ts:37 | `String(value)` of a value that does not clear is never empty |
| Filters.ApplyEntry | src/hooks/useFilters.ts:34-37 | an undefined, null or empty value deletes its key; any other value sets the key to `String(value)`; no other key changes |
| Filters.Update | src/hooks/useFilters.ts:31-39 | keys the update does not mention keep their values |
| Filters.UpdateMentioned | src/hooks/useFilters.ts:33-39 | after the update a mentioned key holds nothing if its value clears, and exactly `String(value)` otherwise |
| Filters.UpdateStable | src/hooks/useFilters.ts:33-39 | an update each of whose entries is already in force changes nothing |
| Filters.UpdateIdempotent | src/hooks/useFilters.ts:29-44 | applying the same update twice gives the same query as applying it once |
| Filters.UpdateFilters | src/hooks/useFilters.ts:29-44 | the update navigates to the current path, and every key the update does not mention keeps its values there |
| Filters.ResetFilters | src/hooks/useFilters.ts:46-48 | reset navigates to the bare path, with an empty query |
| Filters.ResetReadsDefaults | src/hooks/useFilters.ts:46-48 | after a reset every text filter is undefined, the page is 1 and the limit is 10 |
| Filters.UpdatedTextReadsBack | src/hooks/useFilters.ts:33-37 | a text filter written by an update reads back as written; a cleared one reads back as undefined |
| Filters.UpdatedNumberReadsBack | src/hooks/useFilters.ts:37 | a page or limit written as a number reads back as that number |
| Filters.UnmentionedParamUnchanged | src/hooks/useFilters.ts:31-39 | a filter the update does not mention reads exactly as before |
| Filters.LoggedInCustomer | src/hooks/useFilters.ts:14 | after a successful login returning a user with an id, that id is the customer filter |
| Filters.LoggedOutCustomer | src/hooks/useFilters.ts:14 | after logout there is no customer filter |
| OrderQuery.FromFilters | src/hooks/useOrder.ts:8-15 | the order page hands its filters to the hook unchanged: status, sortBy, sortOrder, page and limit carry over as they are; `search` is not among the hook's fields |
| OrderQuery.Build | src/hooks/useOrder.ts:24-31 | the query holds at most six pairs and never an empty value |
| OrderQuery.TextPair | src/hooks/useOrder.ts:26-29 | a text filter adds one pair holding its value when truthy and nothing when missing or empty |
| OrderQuery.NumberPair | src/hooks/useOrder.ts:30-31 | a number filter adds one pair holding its decimal text when truthy and nothing when 0 or NaN |
| OrderQuery.BuildKeyOrder | src/hooks/useOrder.ts:24-31 | keys appear in the order customerId, status, sortBy, sortOrder, cursor, limit, so each at most once; `page` and `search` never appear |
| OrderQuery.BuildSends | src/hooks/useOrder.ts:26-31 | under each key the query holds exactly the filter's value when truthy and nothing otherwise |
| OrderQuery.BuildSendsNothingElse | src/hooks/useOrder.ts:26-31 | nothing is sent under any name other than the six keys |
| OrderQuery.PageSentAsCursor | src/hooks/useOrder.ts:30 | the page is sent as `cursor` when truthy, and never as `page` |
| OrderQuery.RequestPath | src/hooks/useOrder.ts:33-35 | the request path starts with `/orders?`; with no filters it is `/orders?` with an empty query |
| OrderQuery.DefaultRequest | src/hooks/useOrder.ts:30-31 | a logged-out page with an empty URL fetches with exactly `cursor=1` and `limit=10` |
| OrderQuery.TextFilterSentAsIs | src/hooks/useOrder.ts:27-29 | a status or sort filter that is missing or non-empty reaches the API unchanged |
| OrderQuery.SearchNeverSent | src/hooks/useOrder.ts:26-31 | the `search` filter never reaches the API |
| OrderQuery.UrlFiltersReachApi | src/hooks/useOrder.ts:27-29 | the status, sortBy and sortOrder the API receives are those the URL carries |
| OrderFiltersView.PriceMenuValue | src/components/OrderFilters.tsx:52 | the price menu shows the sort order, or Default when there is none |
| OrderFiltersView.DateMenuValue | src/components/OrderFilters.tsx:71 | the date menu shows the sort order, or Default when there is none |
| OrderFiltersView.OnPriceSortChange | src/components/OrderFilters.tsx:54-60 | a price choice mentions exactly sortBy and sortOrder: a direction sorts by `total` in that direction, Default clears both |
| OrderFiltersView.OnDateSortChange | src/components/OrderFilters.tsx:73-79 | a date choice mentions exactly sortBy and sortOrder: a direction sorts by `createdAt` in that direction, Default clears both |
| OrderFiltersView.StatusMenuValue | src/components/OrderFilters.tsx:34 | the status menu shows the status filter, or All Status when there is none |
| OrderFiltersView.SortMenusAgree | src/components/OrderFilters.tsx:52 | both sort menus show the same value, the sort order, whatever field is sorted by |
| OrderFiltersView.OnStatusChange | src/components/OrderFilters.tsx:36-38 | All Status clears the status filter; any other choice sets it; nothing else is mentioned |
| OrderFiltersView.OnSortChange | src/components/OrderFilters.tsx:54-60 | a direction sets sortBy to the menu's field and sortOrder to the direction; Default clears both |
| OrderFiltersView.StatusChoiceReadsBack | src/components/OrderFilters.tsx:36-38 | after a status choice the status filter reads back the choice while sorting and page are untouched |
| OrderFiltersView.SortChoiceReadsBack | src/components/OrderFilters.tsx:54-60 | after a sort choice both sort filters read back the choice, or undefined for Default, while status and page are untouched |
| OrderFiltersView.DateChoiceShowsInPriceMenu | src/components/OrderFilters.tsx:71-78 | choosing a date order makes the price menu display the same order |
| OrderFiltersView.UpperChar | src/components/OrderFilters.tsx:43 | lower-case ASCII letters map to their upper-case letters; all other characters stay as they are |
| OrderFiltersView.StatusLabel | src/components/OrderFilters.tsx:43 | the label upper-cases the first character, keeps the rest, and so keeps the length |
| OrderFiltersView.StatusLabelProperties | src/components/OrderFilters.tsx:43 | labelling a label changes nothing, and distinct lower-case options get distinct labels |
| Api.ErrorMessage | src/lib/api.ts:103-110 | the thrown message is the body's non-empty message, or `Network error` for an unparseable body, or else `HTTP error! status: N` |
| Api.Settle | src/lib/api.ts:103-118 | a non-ok response throws that message; an ok empty body yields `{data: null}`; any other ok body is handed to the parser |
| Api.ProcessQueue | src/lib/api.ts:16-25 | every waiter, in queue order, is rejected with the error when there is one and otherwise resolved with `success`; the queue ends empty |
| Api.RedirectTarget | src/lib/api.ts:93-98 | a failed refresh navigates to `/login` exactly when in a browser and not on `/login`, `/register` or `/` |
| Api.RefreshError | src/lib/api.ts:34-45 | the refresh succeeds exactly on an ok status; an error status throws `Token refresh failed` |
| Api.AsRetry | src/lib/api.ts:77 | a replay is the same request marked `_retry` |
| Api.WaiterEffect | src/lib/api.ts:74-78 | a resolved waiter replays its request as a retry; a rejected one fails with the error |
| Api.WaiterEffects | src/lib/api.ts:17-23 | the drained waiters' effects follow queue order, one per waiter |
| Api.StepPreservesValid | src/lib/api.ts:73-91 | every event keeps the invariant: when not refreshing the queue is empty and no initiator is pending, and every parked request was refresh-eligible |
| Api.QueuedWhileRefreshing | src/lib/api.ts:73-79 | an eligible 401 during a refresh is appended to the queue and starts no second refresh |
| Api.RefreshStartsOnlyWhenIdle | src/lib/api.ts:67-81 | a refresh starts exactly on a 401 that is not a retry, to neither `/auth/refresh` nor `/auth/login`, while none is in flight |
| Api.ReplaysAreRetries | src/lib/api.ts:77-88 | every replayed request carries `_retry` |
| Api.ReplayIsFinal | src/lib/api.ts:67-72 | a retry's response is always settled directly: it is never parked, never replayed and starts no refresh |
| Api.RefreshSuccessReplaysAll | src/lib/api.ts:76-88 | a successful refresh re-sends the initiator first, synchronously, then every waiter in the order it parked, and returns to idle |
| Api.Step | src/lib/api.ts:67-101 | a response that is not refresh-eligible is delivered with no state change; an eligible one leaves the client refreshing with one more parked request when a refresh was already running; a settled refresh returns to idle, and one settling while idle changes nothing |
| Api.RefreshFailureRejectsAll | src/lib/api.ts:89-99 | a failed refresh rejects every waiter and the initiator with the refresh error, navigates only when allowed, replays nothing, and returns to idle |
| Api.RunPreservesValid | src/lib/api.ts:10-14 | every state reachable from a valid one keeps the invariant |
| Api.RunRefreshBalance | src/lib/api.ts:81-91 | over any run, refreshes started and refreshes settled balance: at most one is ever in flight |
| Api.CountConcat | src/lib/api.ts:81-91 | counting an effect over concatenated runs adds the counts |
| Api.StepStartCount | src/lib/api.ts:81-91 | one event starts a refresh exactly when it moves from idle to refreshing, and leaves refreshing exactly when it settles the refresh |
| Auth.ResolveUser | src/providers/AuthProvider.tsx:22-28 | a falsy payload gives no user; a truthy payload gives its `user`, or no user when that is missing |
| Auth.ResolveUserSound | src/providers/AuthProvider.tsx:22-28 | a user is resolved exactly when the payload carries that user |
| Auth.BeginCall | src/providers/AuthProvider.tsx:40 | a call raises the loading flag and leaves the user as it is |
| Auth.SessionSettled | src/providers/AuthProvider.tsx:38-54 | while mounted, the check ends loading and sets the resolved user, or no user on failure; once unmounted it changes nothing |
| Auth.CredentialsSettled | src/providers/AuthProvider.tsx:67-79 | success stores the resolved user and goes to `/`; failure rethrows and keeps the user; loading ends either way |
| Auth.Logout | src/providers/AuthProvider.tsx:98-102 | logout clears the user at once, goes to `/login`, rethrows nothing, and leaves the loading flag alone |
| Auth.Login | src/providers/AuthProvider.tsx:67-79 | loading ends; success stores the resolved user, goes to `/` and rethrows nothing; failure keeps the user, stays put and rethrows the error |
| Auth.Register | src/providers/AuthProvider.tsx:81-96 | loading ends; success stores the resolved user, goes to `/` and rethrows nothing; failure keeps the user, stays put and rethrows the error |
| Auth.LoginRegisterAgree | src/providers/AuthProvider.tsx:81-96 | register settles exactly as login does |
| Auth.LogoutIgnoresServer | src/providers/AuthProvider.tsx:98-102 | the server's answer to logout never changes the outcome |
| Auth.RunLoading | src/providers/AuthProvider.tsx:38-102 | after any history the provider is loading exactly when the last event other than a logout is a session check that settled after unmount, or, with no such event, when it started out loading |
| Auth.RunUserProvenance | src/providers/AuthProvider.tsx:38-102 | a user held after any history was there at the start with no logout since, or was resolved from a successful login, register or mounted session check with no logout after it |
| CreateOrderDialog.SanitizeFee | src/components/CreateOrderDialog.tsx:153 | the fee keeps only digits and `.`, in their original order |
| CreateOrderDialog.SanitizeFeeCounts | src/components/CreateOrderDialog.tsx:153 | every digit and `.` is kept as often as it occurs, and every other character is removed |
| CreateOrderDialog.SanitizeFeeFixedPoint | src/components/CreateOrderDialog.tsx:153 | the filter leaves a string unchanged exactly when it is made of digits and `.` |
| CreateOrderDialog.SanitizeFeeIdempotent | src/components/CreateOrderDialog.tsx:153 | filtering twice is filtering once |
| CreateOrderDialog.SubsequenceLength | src/components/CreateOrderDialog.tsx:153 | removing characters never makes a string longer |
| CreateOrderDialog.RowFor | src/components/CreateOrderDialog.tsx:138-139 | a row is checked exactly when its product is selected, and shows the selected quantity or 1 |
| CreateOrderDialog.ProductPanel | src/components/CreateOrderDialog.tsx:118-146 | loading wins over an error, an error over "No products", and the list shows one row per product, in order |
| CreateOrderDialog.HasSelectedProducts | src/components/CreateOrderDialog.tsx:188 | some product is selected exactly when the selection holds an id |
| CreateOrderDialog.CreateDisabled | src/components/CreateOrderDialog.tsx:188 | Create is disabled exactly when nothing is selected |
| CreateOrderDialog.CreateEnabledIffRowChecked | src/components/CreateOrderDialog.tsx:188 | when every selected id is a listed product, Create is enabled exactly when some row is checked |
| ProductRowView.OnToggle | src/components/ProductRow.tsx:28-33 | the checkbox forwards exactly this product's id and the new checked state |
| ProductRowView.OnDecrease | src/components/ProductRow.tsx:35-37 | decrease sends this product's id with delta -1 |
| ProductRowView.OnIncrease | src/components/ProductRow.tsx:39-41 | increase sends this product's id with delta +1 |
| ProductRowView.DecreaseEnabled | src/components/ProductRow.tsx:102 | decrease is enabled exactly for a checked row with quantity 2 or more |
| ProductRowView.IncreaseEnabled | src/components/ProductRow.tsx:117 | increase is enabled exactly for a checked row |
| ProductRowView.Toggle | src/components/CreateOrderDialog.tsx:40 | checking keeps an existing quantity or starts at 1; unchecking removes the entry; other products are untouched |
| ProductRowView.ChangeQuantity | src/components/CreateOrderDialog.tsx:41 | a step on a selected product moves its quantity, floored at 1; unselected products are ignored |
| ProductRowView.HandlePreservesPositive | src/components/CreateOrderDialog.tsx:39-41 | every handler keeps all selected quantities at 1 or more |
| ProductRowView.HandleAllPositive | src/components/CreateOrderDialog.tsx:39-41 | any sequence of clicks keeps all selected quantities at 1 or more |
| ProductRowView.EnabledStepIsExact | src/components/ProductRow.tsx:98-121 | a click on an enabled stepper changes the quantity by exactly one and is never clamped |
| ProductRowView.DecreaseDisabledOnlyAtOne | src/components/ProductRow.tsx:102 | on a selected row, decrease is disabled exactly at quantity 1 |
| ProductRowView.ToggleShows | src/components/ProductRow.tsx:61 | after a toggle the row shows the new checked state, and an unchecked row shows quantity 1 |
| OrderRowView.ColorOf | src/components/OrderRow.tsx:9-15 | delivered is success, cancelled is error, shipped is info, pending and processing are warning |
| OrderRowView.StatusColorsTotal | src/components/OrderRow.tsx:9-15 | the colour table has an entry for every order status and no other key |
| OrderRowView.ItemsSummary | src/components/OrderRow.tsx:34 | a non-array `items` reads as no items; an array is used as it is |
| OrderRowView.ShowsSummaryIff | src/components/OrderRow.tsx:58 | the summary renders exactly when `items` is an array with at least one item |
| OrderRowView.ItemKey | src/components/OrderRow.tsx:70 | an item's key is its id, or `productId-quantity` when the id is empty |
| OrderRowView.TrailingDigitsAfterDash | src/components/OrderRow.tsx:70 | in a fallback key, the digits after the last `-` are exactly the quantity's |
| OrderRowView.FallbackKeyInjective | src/components/OrderRow.tsx:70 | two id-less items with non-negative quantities share a fallback key only when they have the same product and the same quantity |

## Left out

- `fetch`, cookies and credentials, `JSON.parse`, `window.location` and `router.push` are outside the model.
  - The model returns the decisions that lead to them: the path to navigate to, whether to replay, and the body text that would be parsed.
- Api.Step: promise interleaving is flattened into a sequence of events.
  - A `Replay` effect marks when a request is re-sent. After a successful refresh the initiator is re-sent synchronously, before the waiters' promise callbacks run, so its replay comes first.
  - When replayed requests' own responses arrive relative to other events is left to the event sequence.
- Api.Settle: a non-ok response whose JSON body is `null` is not modelled. The source would fail with a `TypeError` reading `message`. Any other non-object body has no `message`. The model treats it as a JSON body without a message, so the status message is used.
- Zod internals are not modelled:
  - the e-mail, URL and UUID formats are parameters;
  - `z.coerce.number()` is not modelled, so price and stock are taken after coercion, as reals;
  - the order and messages of reported issues are not modelled.
- Schemas.RegisterIssues: the refinement is modelled as always running, as Zod 3 does when field checks fail without a type error. A value of the wrong type, which aborts the parse, is not modelled.
- Percent-encoding is not modelled. `SearchParams.Serialize` joins raw text with `=` and `&`.
- JsNumbers.ParseInt:
  - leading white space is not modelled;
  - digits are read as an unbounded integer, so floating-point rounding of long digit strings is not modelled;
  - numbers in general are integers or NaN.
- OrderFiltersView.UpperChar maps ASCII letters only. Full Unicode `toUpperCase` is not modelled.
- String lengths are counted in Dafny characters, not UTF-16 code units. They differ only outside the Basic Multilingual Plane.
- Money is not modelled: `toFixed`, the subtotal and total shown in the dialog, and floating-point prices.
- `STATUS_OPTIONS` is imported from `src/lib/types.ts` but is not defined in its text. The labels are proved for any option string, and the option list itself is not modelled.
- Some files are not part of this model: `useAuth`, `mockData`, and the presentation and wrapper files.
  - The pages and layouts, `DeleteConfirmDialog`, `mui.ts`, `useCreateOrder`, `useDeleteOrder` and `useProducts` only render or wrap queries.
  - Only the order page's selection handlers and its hand-off of filters to `useOrder` are modelled from the order page.
- The remaining form fields of the create-order dialog are not modelled. They are forwarded as `onFormChange(field, value)` unchanged.
