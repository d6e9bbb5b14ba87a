# Deposit app core, modelled in Dafny

A model of the decision rules and list transformations of a React Native
app for a loyalty/deposit business. Members hold product entries and money
transactions in a per-member deposit document. Administrators edit those
entries. Members browse a product catalogue and mark deposited products as
received. The model covers:

- **Product catalogue** (`product_catalog.dfy`, module `ProductCatalog`).
  - The `sortProducts` comparator, and the in-place sort built on it.
  - The 24-hour product cache.
  - The provider that shows fresh data, the cached copy or the built-in fallback list.
- **Deposit screen** (`deposit_status.dfy`, module `DepositStatus`).
  - The three-valued `received` status and its labels.
  - "Mark as received", for one entry or for all of them.
  - The list sent to the backend.
- **Deposit management** (`deposit_management.dfy`, module `DepositManagement`).
  - The balance of a member's transactions.
  - Editing and removing product entries.
  - The guarded add-product and add-transaction forms, kept as a `DepositStore` class.
- **Per-product deposit counts** (`deposit_counts.dfy`).
  - `DepositProductListing` sums the counts of matching entries whose points are not issued.
  - `DepositPoints` takes the count of the first matching entry.
- **Admin status** (`admin_check.dfy`, module `AdminCheck`).
  - Resolution from the session id, the per-member cached string and a document read that succeeds or fails.
- **Accounts** (`accounts.dfy`, module `Accounts`).
  - Register and login against a map from member id to password hash.
  - The session.
- **Order form** (`order_form.dfy`, module `OrderForm`).
  - The order in which submit persists the fields and validates them.
  - Prefill on mount.

Shared pieces:
- `options.dfy` defines `Option`. Each use says which JavaScript value `None` stands for. For an entry's `received` it is `undefined` only.
- `deposit_types.dfy` defines the deposit entry record.
- `js_text.dfy` models `trim`, and the integer part of `parseInt`/`parseFloat` (`None` is `NaN`).

Modelling choices:

- **Storage is state.** AsyncStorage and Firestore documents are `map` fields of the classes that read and write them.
- **Effects are parameters.** The clock (`now`), time-derived ids (`freshId`), fetch results and the session id are passed in. A failed fetch is a `None` or `FetchFailed` value.
- **Hashing is opaque.** SHA-256 is a function value `hash: string -> string` held by the `AccountStore`. Nothing is assumed about it.
- **The sort is a real in-place sort.** `SortProducts` sorts an `array<Product>` with the source comparator, by adjacent swaps on strict inversions.
  - It always yields a permutation.
  - It is stable, like the engine's sort: products with equal (group, tag) keys keep their relative order.
  - When every `special` is undefined, 0, 1 or 2, the comparator is a consistent order: special products first, then ascending `tag`. The sort then yields that order.
  - For other `special` values the comparator is not transitive. JavaScript then leaves the order implementation-defined, so no order is promised beyond the permutation and the key-wise stability of the model's own sort.
  - For well-formed input, sortedness and stability leave exactly one possible result. So the order the provider shows is determined by the list it sorts.
- **`fetchProducts` is two steps.**
  - `BeginFetch` is what runs before its first `await`: loading on, error cleared.
  - `CompleteFetch` is the rest.
  - The mount effect starts the background refresh without awaiting it. So the model's `Initialize` ends with `BeginFetch`. Right after mount, `loading` is true again and the "no internet" message is already cleared, even when cached data is shown.
- **Ids are integers.** Deposit ids and catalogue ids are compared with JavaScript's loose `==`, so numeric strings and numbers meet.
- **Field names.** The entry fields (`id`, `title`, `count`, `paid`, `received`, `points`) and transaction fields (`id`, `adminId`, `amount`, `date`, `note`) follow what the screens read and write. The declared types in `utils/types.ts` are different.

## Model

| member | source | states |
|---|---|---|
| ProductCatalog.SpecialOf | contexts/ProductContext.tsx:83-84 | a missing `special` counts as 0, a present one as itself |
| ProductCatalog.TagOf | contexts/ProductContext.tsx:87-88 | a missing `tag` counts as 0, a present one as itself |
| ProductCatalog.SpecialBeforeRegular | contexts/ProductContext.tsx:85-86 | a product with special 1 or 2 compares before one with special 0, in both argument orders |
| ProductCatalog.CompareAntisymmetric | contexts/ProductContext.tsx:82-89 | for every pair, `Compare(a,b)` is negative/zero exactly when `Compare(b,a)` is positive/zero |
| ProductCatalog.Compare | contexts/ProductContext.tsx:82-89 | products with equal (group, tag) keys compare equal; on well-formed products the comparator is ≤ 0 exactly when the first precedes or ties with the second in the order "special group first, then ascending tag" |
| ProductCatalog.SortedGroupsSpecialFirst | contexts/ProductContext.tsx:85-89 | in a sorted well-formed list every special-1/2 product precedes every special-0 product, and each group has ascending tags |
| ProductCatalog.WithKey | contexts/ProductContext.tsx:82-89 | the products of a list that share a given (group, tag) key, exactly those, in their order |
| ProductCatalog.SwapKeepsKeyOrder | contexts/ProductContext.tsx:82-89 | swapping two neighbours with different keys keeps every key's products in their order |
| ProductCatalog.SortProducts | contexts/ProductContext.tsx:81-90 | sorting the array in place yields a permutation of it that keeps equal-key products in their original order (stable), sorted by (group, tag) whenever every `special` is undefined/0/1/2 |
| ProductCatalog.SortedCopy | contexts/ProductContext.tsx:81-82 | sorting a copy of a list yields a stable permutation of it, sorted whenever every `special` is undefined/0/1/2 |
| ProductCatalog.SortedSameKeyOrderUnique | contexts/ProductContext.tsx:82-89 | two sorted lists that list each key's products in the same order are equal |
| ProductCatalog.SortResultUnique | contexts/ProductContext.tsx:81-90 | a list of well-formed products has exactly one stable sorted permutation, so the order shown is determined |
| ProductCatalog.SortedPermutationUnique | contexts/ProductContext.tsx:82-89 | two sorted permutations of a list with distinct (group, tag) keys are equal, so the sort result is determined |
| ProductCatalog.FallbackSortedOrder | contexts/ProductContext.tsx:26-90 | sorting the fallback list gives the products with ids 1, 3, 2, 4 |
| ProductCatalog.LoadCachedProducts | contexts/ProductContext.tsx:92-106 | cached data is returned exactly when a stored entry exists and now − timestamp < 86 400 000 ms; otherwise the result is null |
| ProductCatalog.ProductProvider.constructor | contexts/ProductContext.tsx:76-79 | initial state: no products, price 0, loading, no error |
| ProductCatalog.ProductProvider.BeginFetch | contexts/ProductContext.tsx:119-121 | fetching sets loading and clears the error; products, price and cache unchanged |
| ProductCatalog.ProductProvider.CompleteFetch | contexts/ProductContext.tsx:122-143 | success: sorted fetched list and price shown, sorted list cached with time `now`; failure: error set, sorted fresh cache shown, else sorted fallback; loading false on both paths |
| ProductCatalog.ProductProvider.FetchProducts | contexts/ProductContext.tsx:119-144 | the whole fetch: as CompleteFetch, with the error cleared on success |
| ProductCatalog.ProductProvider.Initialize | contexts/ProductContext.tsx:146-161 | shows the sorted fresh cache or else the sorted fallback, then the background refresh leaves loading true and the error cleared |
| DepositStatus.GetStatusLabel | app/deposit.tsx:17-22 | undefined ⇔ pending/gray, false ⇔ not received/red, true ⇔ postponed points/orange |
| DepositStatus.MarkAt | app/deposit.tsx:47-50 | only the entry at the index changes, and only its `received`, to true; length and every other entry unchanged; an index out of range changes nothing |
| DepositStatus.DropUndefinedKeepsAll | app/deposit.tsx:58 | the `p !== undefined` filter removes nothing from the mapped list |
| DepositStatus.MarkAll | app/deposit.tsx:52-58 | every `received === false` becomes true, undefined and true are kept, all other fields and the length unchanged |
| DepositStatus.NoUnreceivedAfterMarkAll | app/deposit.tsx:52-57 | after mark-all no entry has `received === false` |
| DepositStatus.MarkAllIdempotent | app/deposit.tsx:52-57 | applying mark-all twice equals applying it once |
| DepositStatus.SentToBackend | app/deposit.tsx:66 | the send filter holds exactly when `received` is defined; its second conjunct is always true |
| DepositStatus.ToSend | app/deposit.tsx:65-67 | the list sent holds exactly the entries whose `received` is defined |
| DepositStatus.ToSendConcat | app/deposit.tsx:65-67 | the send filter distributes over concatenation, so it keeps the original order |
| DepositStatus.ToSendAllDefined | app/deposit.tsx:65-67 | when every entry has `received` defined, the whole list is sent |
| DepositStatus.HandleMarkAsReceived | app/deposit.tsx:43-68 | the shown list is the by-index or mark-all result; the sent list is exactly the send filter of it, in order and with repeats: its defined entries, all of them `received === true` after mark-all |
| DepositManagement.Balance | app/depositManagementScreen-copy.tsx:51-53 | no transactions give 0; when no amount is negative, neither is the balance |
| DepositManagement.BalanceConcat | app/depositManagementScreen-copy.tsx:51-53 | the balance of a concatenation is the sum of the two balances |
| DepositManagement.BalanceAppend | app/depositManagementScreen-copy.tsx:51-53 | one more transaction raises the balance by exactly its amount |
| DepositManagement.BalanceArrayUnion | app/depositManagementScreen-copy.tsx:105-107 | adding a transaction not yet present raises the balance by exactly its amount |
| DepositManagement.EditProduct | app/depositManagementScreen-copy.tsx:78-82 | entries with the target id get the new count and keep every other field; other entries and the length unchanged |
| DepositManagement.EditDoesNotClamp | app/depositManagementScreen-copy.tsx:143-148 | the "-" button on an entry with count 0 stores −1 |
| DepositManagement.RemoveProduct | app/depositManagementScreen-copy.tsx:88-90 | an entry remains exactly when it was present and its id differs from the removed one |
| DepositManagement.RemoveProductConcat | app/depositManagementScreen-copy.tsx:88-90 | removal distributes over concatenation, so the kept entries stay in their original order |
| DepositManagement.RemoveAbsentProduct | app/depositManagementScreen-copy.tsx:90 | removing an id that no entry carries changes nothing |
| DepositManagement.RemoveProductIdempotent | app/depositManagementScreen-copy.tsx:90 | removing twice equals removing once |
| DepositManagement.ArrayUnion | app/depositManagementScreen-copy.tsx:66-68 | `arrayUnion` appends the element unless an equal one is present |
| DepositManagement.CountInput | app/depositManagementScreen-copy.tsx:170-172 | the count is `parseInt(text)`, or 1 when that is falsy, so it is never 0: `NaN` and 0 give 1, any other parsed value is kept |
| DepositManagement.CountInputShowInt | app/depositManagementScreen-copy.tsx:171 | typing the decimal form of a nonzero count sets exactly that count |
| DepositManagement.NewDepositProduct | app/depositManagementScreen-copy.tsx:58-65 | a new entry carries the id, title and count, and starts not paid, not received, without points |
| DepositManagement.NoteOf | app/depositManagementScreen-copy.tsx:103 | an empty note is stored as undefined, any other note as itself |
| DepositManagement.DepositStore.constructor | app/depositManagementScreen-copy.tsx:23-30 | the forms start empty with count 1 |
| DepositManagement.DepositStore.SetCountText | app/depositManagementScreen-copy.tsx:170-172 | the count field becomes `CountInput(text)`; nothing else changes |
| DepositManagement.DepositStore.AddProduct | app/depositManagementScreen-copy.tsx:55-70 | empty title or count ≤ 0 changes nothing; otherwise the new entry is unioned into that member's products and the form resets to {"", 1}; a missing document changes nothing |
| DepositManagement.DepositStore.EditProductOf | app/depositManagementScreen-copy.tsx:72-84 | the member's products become `EditProduct` of them; other members and the forms unchanged |
| DepositManagement.DepositStore.RemoveProductOf | app/depositManagementScreen-copy.tsx:86-92 | the member's products become `RemoveProduct` of them; other members and the forms unchanged |
| DepositManagement.DepositStore.AddTransaction | app/depositManagementScreen-copy.tsx:94-110 | as written: `NaN` or 0, a missing document or an empty note (an `undefined` field Firestore refuses) changes nothing; otherwise the transaction with its note is unioned into the member's list, which raises the balance by its amount, and the amount and note reset to "" |
| DepositManagement.DepositStore.AddTransactionOmittingEmptyNote | app/depositManagementScreen-copy.tsx:94-110 | as intended: `NaN` or 0 or a missing document changes nothing; otherwise the transaction, without a note when the note is empty, is unioned into the member's list, which raises the balance by its amount, and the amount and note reset to "" |
| DepositManagement.EmptyNoteRecordsNothing | app/depositManagementScreen-copy.tsx:103-109 | with the note field empty, adding a transaction records nothing and keeps the typed amount |
| JsText.ParseIntShowInt | app/depositManagementScreen-copy.tsx:171 | `parseInt` and `parseFloat` read back the decimal rendering of any integer |
| JsText.ParseInt | app/depositManagementScreen-copy.tsx:171 | `parseInt` of a text without a decimal digit is `NaN` |
| JsText.ParseAmount | app/depositManagementScreen-copy.tsx:95 | the integer reading of `parseFloat` of a text without a decimal digit is `NaN` |
| JsText.ParseIntNoDigits | app/depositManagementScreen-copy.tsx:171 | `parseInt` of input with no digit after the white space and sign is `NaN` |
| JsText.Trim | components/OrderForm.tsx:39 | `s.trim()` is no longer than `s`, and neither of its ends is white space |
| JsText.TrimEmptyIffBlank | components/OrderForm.tsx:39 | `s.trim()` is empty exactly when `s` is all white space |
| DepositProductListing.SumUnpointed | components/DepositProductListing.tsx:50-53 | the fold is 0 when every entry has points issued, and never negative when no count is |
| DepositProductListing.AvailableCount | components/DepositProductListing.tsx:47-53 | a product's available count is never negative when no matching count is, and 0 when every matching entry has points issued |
| DepositProductListing.Matching | components/DepositProductListing.tsx:48-49 | the filter keeps exactly the entries carrying the product's id |
| DepositProductListing.AvailableCountConcat | components/DepositProductListing.tsx:47-53 | the available count of a concatenation is the sum of the two counts |
| DepositProductListing.AvailableCountAppend | components/DepositProductListing.tsx:47-53 | one more entry adds its count when it has the id and points not issued, else nothing; so entries with points and entries of other ids never count |
| DepositProductListing.AvailableCountNoMatch | components/DepositProductListing.tsx:47-53 | with no matching entry whose points are pending, the count is 0 |
| DepositProductListing.ListingCard | components/DepositProductListing.tsx:55-62 | `depositCount` and `selectedCount` both receive the available count |
| DepositPoints.FindIndex | components/DepositPoints.tsx:64 | returns the position of the first entry with the id, or none exactly when no entry has it |
| DepositPoints.Find | components/DepositPoints.tsx:64 | `find` yields the first entry with the id, or undefined exactly when there is none |
| DepositPoints.DepositCount | components/DepositPoints.tsx:63-66 | the count of the first entry with the id; 0 when there is none |
| DepositPoints.DepositCountIgnoresLater | components/DepositPoints.tsx:64 | entries after the first match never change the count |
| DepositPoints.DepositCountIgnoresPoints | components/DepositPoints.tsx:63-66 | lists differing only in `points` flags give the same count |
| DepositPoints.RulesDisagreeOnRepeatedEntries | components/DepositPoints.tsx:64-65 | with two pending entries of one product, this listing shows the first count while the other listing shows the sum |
| DepositPoints.PointsCard | components/DepositPoints.tsx:60-68 | the card gets the first-match count and the catalogue product's own count |
| AdminCheck.CacheKey | contexts/useAdminCheck.tsx:23 | the key is "admin_status_" followed by the member id |
| AdminCheck.CacheKeyInjective | contexts/useAdminCheck.tsx:23 | different members never share a cache key |
| AdminCheck.CacheKeyIsNotSessionKey | contexts/useAdminCheck.tsx:38-39 | writing the session id never overwrites a cached status |
| AdminCheck.ResolveStatus | contexts/useAdminCheck.tsx:33-46 | after a successful read: document exists ∧ `isAdmin === true`; after a failed one: cached string is "true" |
| AdminCheck.AdminStatus.constructor | contexts/useAdminCheck.tsx:10-11 | the hook starts loading (`isAdmin` null) with an empty user id |
| AdminCheck.AdminStatus.CheckAdminStatus | contexts/useAdminCheck.tsx:14-49 | no session: not admin and storage untouched. Session: user id set; cached value shown during the read; status resolved; a successful read writes the session id and the status string. Never loading afterwards |
| AdminCheck.CachedStatusSurvivesOffline | contexts/useAdminCheck.tsx:33-46 | the status a successful check caches is the one a later offline check reproduces |
| Accounts.VerifyPassword | app/index.tsx:25-28 | true exactly when the stored hash is present and equals the hash of the input |
| Accounts.AccountStore.RegisterUser | app/index.tsx:30-48 | an existing id changes nothing; a new id stores the password hash and saves the session as that id |
| Accounts.AccountStore.LoginUser | app/index.tsx:50-68 | the session is saved exactly when the document exists and the password verifies; otherwise it is unchanged; documents never change |
| Accounts.RegisterThenLogin | app/index.tsx:30-68 | registering a new id and logging in with the same password succeeds |
| OrderForm.Prefill | components/OrderForm.tsx:27-32 | a stored value replaces the field only when it is a nonempty string |
| OrderForm.Form.Mount | components/OrderForm.tsx:19-36 | id and name are prefilled from storage when present; storage and submissions unchanged |
| OrderForm.Form.HandleSubmit | components/OrderForm.tsx:38-48 | blank id: nothing stored or submitted; else both values stored before the name check; `onSubmit` called, with the untrimmed values, exactly when both are filled |
| OrderForm.FilledIffNotBlank | components/OrderForm.tsx:39-42 | a field counts as filled exactly when it has a non-white-space character |
| OrderForm.BlankNameIsPersisted | components/OrderForm.tsx:19-48 | a filled id with a blank name is still persisted, and the submit reports the missing name; a form mounted later over that storage gets the id back and an empty name |

## Left out

- Rendering, styling, RTL set-up, navigation (`router.replace`), alerts and console logging.
- The dollar price beyond storing it, and `productPrice` (not part of this model).
- Firestore and AsyncStorage are maps that are always reachable. Some failures are not modelled:
  - a write that fails after `isAdmin` is set (it would send the hook to its fallback branch);
  - a failing `AsyncStorage.getItem` outside a `try`;
  - a Firestore path rejected for an empty member id.
- `Promise.all` and the unawaited background refresh run as sequential steps. The refresh's completion is a later `CompleteFetch` call.
- `markProductsAsReceived`, `fetchUserDepositAndOrders`, `getProductsFromDB` and `getDollarPrice` live in `utils/functions.ts`, whose bodies are not part of this model. Only their arguments and results are modelled.
- The live-snapshot subscription of the management screen. The snapshot and the documents are one map.
- JsText.ParseAmount: reads only the integer part of `parseFloat`. Fractions, exponents, "Infinity" and inputs such as ".5" are not modelled, since amounts are integers here. This changes `addTransaction`'s guard: "0.5" reads as 0 and ".5" as `NaN`, so the model records nothing where the source records an amount of 0.5.
- JsText.ParseIntNoDigits: its `ParseAmount` half holds for the integer reading only; `parseFloat` reads ".5" and "Infinity" as numbers.
- An entry whose `received` is stored as `null` is not modelled. The mark-all test `received === undefined` is strict, so the source rewrites such an entry to `received: true`, while the label and the send filter treat it as undefined.
- Ids are integers. `editProduct` and `removeProduct` compare ids with strict `===`/`!==`, and `addProduct` creates string ids with `Date.now().toString()`; the model merges `3` and `"3"`, so a number id and its string form are the same entry here.
- Numbers are unbounded integers. JavaScript numbers are doubles, so integers above 2^53 lose precision; `ParseIntShowInt` holds for every integer only in this model.
- `sortProducts(FALLBACK_PRODUCTS)` sorts the module-level fallback constant in place, so it stays sorted for later uses. The model sorts a copy and keeps the constant in its written order. Both give the same shown list, since the fallback's keys are distinct.
- JsText.IsWhitespace: covers the common white-space and line-terminator characters. It does not cover every Unicode space separator that `trim` removes.
- ProductCatalog.SortProducts: promises only a permutation when some `special` is outside {undefined, 0, 1, 2}. The engine's order for an inconsistent comparator is implementation-defined.
- The `ProductCard` component's own count handling, and the stored `createdAt` of a registration beyond the `now` parameter.

## Findings

| source | as written | input that shows it | evidently intended | confidence | as-written member | corrected member |
|---|---|---|---|---|---|---|
| app/depositManagementScreen-copy.tsx:103-109 | an empty note becomes a `note` field holding `undefined` in the element given to `arrayUnion`; Firestore, created with default settings in `firebaseConfig.js`, refuses such a field, so `updateDoc` rejects and the form is not cleared | amount "5", note "" | a transaction without a note is recorded and the form cleared | medium, not executed; rests on the Firestore client refusing `undefined` field values by default | DepositManagement.DepositStore.AddTransaction, DepositManagement.EmptyNoteRecordsNothing | DepositManagement.DepositStore.AddTransactionOmittingEmptyNote |
