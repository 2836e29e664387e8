# VTU wallet: a verified model of the wallet, ledger and routing core

This project models the server-side core of a Nigerian virtual top-up (VTU)
web application. Users hold a naira wallet and buy data bundles, electricity
tokens, cable TV subscriptions and exam pins through an aggregator gateway.
They can also fund their wallet, withdraw from it and transfer money to one
another. The model covers:

- **String helpers** (`Utils`): phone-number sanitising and validation,
  network detection from the number's prefix, and the e-mail shape check.
- **The store** (`Database`): the `wallets`, `profiles` and `transactions`
  tables.
  - A `Db` value is a snapshot of the tables.
  - The `Store` class holds the tables that the route handlers update in place.
  - Every write takes a flag saying whether the store accepted it. The
    handlers react to some rejected writes and ignore others, and the model
    covers both.
- **The purchase protocol** shared by the data, electricity, cable and
  education routes (`Purchase`):
  1. check the wallet and the balance;
  2. insert a `pending` row;
  3. call the gateway;
  4. debit the wallet and settle the row with the gateway's answer.

  The gateway is an input: it fulfilled the request with a receipt, declined
  it with a message, or threw.
- **One module per route handler**:
  - `DataRoute`, `ElectricityRoute`, `CableRoute` and `EducationRoute`;
  - `TransferRoute`, `FundRoute`, `WithdrawRoute` and `BalanceRoute`;
  - `RegisterRoute`;
  - `Transactions`, the paginated ledger listing;
  - `Middleware`, the page-routing decision.

Each state-changing handler has two parts:

- a pure specification function (`PostSpec` or `GetSpec`) from the store's
  state before the request to the state after it and the HTTP response;
- a method (`Post` or `Get`) that issues the same reads and writes against a
  `Store`, in the source's order. Its contract ties the result to the
  specification of the old state.

The properties the application promises are stated as contracts of the
specification functions, or as lemmas about them. These include:

- money conservation over all wallets;
- no balance ever becoming negative;
- which rows a request leaves in the ledger, and in what status.

The behaviour is modelled as the code has it, including these quirks:

- A purchase's debit assigns the balance read before the gateway call.
- Data and cable amounts are only checked for being non-zero, so a negative
  amount raises the balance (`DataRoute.NegativeAmountCredits`).
- A transfer whose credit and restoring write both fail loses the amount
  (`TransferRoute.TransferMoney`).
- Withdrawals stay `pending` rows of type `wallet_transfer`.

Money is a whole number of naira. The authenticated user is an
`Option<AuthUser>`. The transaction reference and the row's creation time are
inputs, since they come from the clock and a random generator.

## Model

| member | source | states |
|---|---|---|
| Utils.StripNonDigits | src/lib/utils.ts:38 | the result holds only decimal digits, is no longer than the input, and equals the input exactly when the input is all digits |
| Utils.StripNonDigitsAppend | src/lib/utils.ts:38 | removing non-digits from a concatenation removes them from each part |
| Utils.ValidatePhoneNumber | src/lib/utils.ts:26-29 | an accepted number is eleven characters long and starts 07, 08 or 09 (its exact language is `ValidatePhoneNumberShape`) |
| Utils.SanitizePhoneNumber | src/lib/utils.ts:36-51 | the sanitised number is all digits, non-empty, and starts with 0, even for an input with no digits |
| Utils.SanitizeKeepsLeadingZero | src/lib/utils.ts:46-48 | a digit string that already starts with 0 is returned unchanged |
| Utils.SanitizeCountryCode | src/lib/utils.ts:41-43 | a digit string starting with 234 has that prefix replaced by a single 0 |
| Utils.SanitizeInternational | src/lib/utils.ts:38-43 | any input whose digits start with 234 (such as `+234 803 123 4567`) becomes 0 followed by its digits after the 234 |
| Utils.SanitizeIdempotent | src/lib/utils.ts:36-51 | sanitising twice gives the same result as sanitising once |
| Utils.ValidatePhoneNumberShape | src/lib/utils.ts:26-29 | validation accepts exactly the 11-character all-digit strings that start with 070, 080, 081, 090 or 091 |
| Utils.ValidNumberIsSanitized | src/lib/utils.ts:26-51 | a number that passes validation is a fixed point of sanitising |
| Utils.GetNetworkFromPhone | src/lib/utils.ts:53-68 | a network is returned only if its list holds the first four characters of the sanitised number; None exactly when no list holds them |
| Utils.PrefixListsDisjoint | src/lib/utils.ts:57-60 | no four-character prefix belongs to two networks |
| Utils.NetworkIsUniqueMatch | src/lib/utils.ts:53-68 | the answer is network n exactly when n's list holds the prefix, so the order of the checks does not change the answer |
| Utils.NetworkOfSanitized | src/lib/utils.ts:54 | detecting the network of an already sanitised number gives the same answer as for the raw input |
| Utils.ValidateEmail | src/lib/utils.ts:31-34 | an accepted address holds an `@` that is not its first character and is at least five characters long, as `a@b.c` is (its exact language is `EmailMatchesRegex`) |
| Utils.ValidEmailHasShape | src/lib/utils.ts:31-34 | an accepted address splits as local part, `@`, domain label, `.`, final label, each non-empty with no whitespace or `@` |
| Utils.ShapedEmailIsValid | src/lib/utils.ts:31-34 | every address of that shape is accepted |
| Utils.EmailMatchesRegex | src/lib/utils.ts:31-34 | the check accepts exactly the strings that the regular expression matches |
| Utils.ValidEmailProperties | src/lib/utils.ts:31-34 | an accepted address has exactly one `@` after a non-empty local part, no whitespace, and a dot after the `@` with text on both sides |
| Database.ProfileByEmail | src/app/api/wallet/transfer/route.ts:53-57 | `.eq('email').single()` finds a user exactly when one profile carries the e-mail, and that user is the only owner |
| Database.Store.InsertTx | src/app/api/services/data/route.ts:58-77 | an accepted insert appends the row and returns its position; a rejected one changes nothing |
| Database.Store.UpdateTx | src/app/api/services/data/route.ts:99-108 | an accepted update replaces that row only |
| Database.Store.UpdateBalance | src/app/api/services/data/route.ts:90-96 | an accepted update sets the user's balance to the given value; it matches nothing when the user has no wallet |
| Database.Store.InsertWallet | src/app/api/wallet/balance/route.ts:23-27 | a wallet is created, at the given balance, exactly when the store accepts it and the user has none yet |
| Database.Store.InsertProfile | src/app/api/auth/register/route.ts:41-46 | a profile is created exactly when the store accepts it and the id is new |
| Purchase.PendingRow | src/app/api/services/data/route.ts:58-70 | the pending row carries the user, type, positive-or-negative amount as given, `pending` status and reference, with the details in `metadata` or `meta` as the route chooses |
| Purchase.Artifacts | src/app/api/services/electricity/route.ts:99-108 | the settled details keep every original detail and add `inlomax_request_id` when the gateway returned one. Electricity also adds `token` and `units`, and education adds `pins`, each exactly when the gateway returned it and with the value it returned. Data and cable rows gain nothing but the request id |
| Purchase.SettledRow | src/app/api/services/data/route.ts:98-108 | the settled row is a `success` whose route column (`metadata` or `meta`) holds the merged details; every other member, the other column included, is the pending row's |
| Purchase.PurchaseSpec | src/app/api/services/data/route.ts:34-141 | a missing wallet (404), a short balance (400) or a rejected insert (500) change nothing. Otherwise exactly one row is appended and earlier rows are untouched. The row leaves `pending` exactly when the settle write lands: `success` on fulfilment, `failed` on a decline or a throw. A row not settled with a receipt keeps every member it was inserted with except its status. The wallet changes only on a fulfilled, debited purchase, to the balance read before the call minus the amount. The response is 400 with the gateway message or the route's fallback on a decline, and 503 on a throw. Profiles are untouched and solvency is kept |
| Purchase.PurchaseMoney | src/app/api/services/data/route.ts:88-96 | the money in all wallets drops by the amount on a fulfilled, debited purchase and is otherwise unchanged |
| Purchase.FulfilledRow | src/app/api/services/data/route.ts:88-108 | when every write lands and the gateway fulfils, the one appended row is the pending row settled with the receipt |
| Purchase.UnsettledRow | src/app/api/services/data/route.ts:117-136 | otherwise the one appended row is the pending row as inserted, with status `failed` when the failure update lands and `pending` when it is refused |
| Purchase.Fulfil | src/app/api/services/data/route.ts:34-141 | the store's reads and writes, in the handler's order, produce the state and outcome of `PurchaseSpec` |
| DataRoute.Check | src/app/api/services/data/route.ts:16-32 | a missing network, phone, plan or zero amount gives the required-fields error; otherwise the request is refused exactly when the sanitised phone is invalid. An accepted order charges the requested amount for the sanitised, valid number, with metadata `network`, `phone_number` and `plan_id` and the description `<network> data bundle to <phone>` |
| DataRoute.SuccessBody | src/app/api/services/data/route.ts:110-116 | the body reports the reference and the amount charged, and the network and phone number recorded in the row. That number is the sanitised, valid one, not the one the request gave |
| DataRoute.PostSpec | src/app/api/services/data/route.ts:6-148 | no session gives 401 and a refused request gives 400, both changing nothing. Otherwise the store evolves as the purchase protocol says. The response is 200 with `SuccessBody` exactly when a valid, affordable, recorded order is fulfilled. Every other response is the one the protocol stopped with: 404 for a missing wallet, 400 for a short balance, 500 for a rejected insert, 400 with the gateway's message on a decline, 503 on a throw |
| DataRoute.NegativeAmountCredits | src/app/api/services/data/route.ts:19-96 | a negative amount passes every check and, once fulfilled, raises the balance by its magnitude |
| DataRoute.Post | src/app/api/services/data/route.ts:6-148 | the handler against the store realises `PostSpec` and keeps every balance non-negative |
| ElectricityRoute.Check | src/app/api/services/electricity/route.ts:16-66 | missing fields give the required-fields error; otherwise the request is refused exactly when the amount is below 1,000. An accepted order charges at least 1,000, has no description, and keeps `disco`, `meter_number` and `meter_type` in `meta` |
| ElectricityRoute.SuccessBody | src/app/api/services/electricity/route.ts:110-118 | the body reports the reference, the amount and the meter number. `token`, `units` and `customerName` appear exactly when the gateway returned them, each with the value it returned, and no other member appears |
| ElectricityRoute.GatewayMembers | src/app/api/services/electricity/route.ts:115-117 | the gateway contributes `token`, `units` and `customerName`, each exactly when it returned that member and with the value it returned, and nothing else |
| ElectricityRoute.PostSpec | src/app/api/services/electricity/route.ts:6-150 | 401 and 400 change nothing; otherwise the purchase protocol applies. The response is 200 exactly when an affordable, recorded order is fulfilled, and otherwise it is the one the protocol stopped with (404, 400, 500, the decline's 400 or 503) |
| ElectricityRoute.SettledRowKeepsToken | src/app/api/services/electricity/route.ts:96-108 | a settled row keeps the meter details in `meta` and gains the gateway's token and units there, with `metadata` left empty |
| ElectricityRoute.PaymentNeverCredits | src/app/api/services/electricity/route.ts:26-31 | because of the 1,000 minimum, no wallet balance ever rises |
| ElectricityRoute.Post | src/app/api/services/electricity/route.ts:6-150 | the handler against the store realises `PostSpec` and keeps every balance non-negative |
| CableRoute.Check | src/app/api/services/cable/route.ts:16-61 | the request is refused exactly when a field is missing or the amount is zero. Any other amount is accepted as given, with `cable_name`, `plan_id` and `smart_card_number` in `meta` |
| CableRoute.SuccessBody | src/app/api/services/cable/route.ts:100-106 | the body reports the reference, the amount and the smart card number. `customerName` appears exactly when the gateway returned it, with the value it returned, and no other member appears |
| CableRoute.PostSpec | src/app/api/services/cable/route.ts:6-138 | 401 and 400 change nothing; otherwise the purchase protocol applies. The response is 200 exactly when an affordable, recorded order is fulfilled, and otherwise it is the one the protocol stopped with (404, 400, 500, the decline's 400 or 503) |
| CableRoute.SubscriptionMoney | src/app/api/services/cable/route.ts:78-86 | the money in all wallets drops by the requested amount exactly when a subscription succeeds and its debit lands; the plan plays no part |
| CableRoute.Post | src/app/api/services/cable/route.ts:6-138 | the handler against the store realises `PostSpec` and keeps every balance non-negative |
| EducationRoute.Lookup | src/app/api/services/education/route.ts:7-12 | an exam has a price exactly when the table names it, and the price is that of its first entry |
| EducationRoute.ExamPriceRange | src/app/api/services/education/route.ts:7-12 | exactly WAEC, NECO, NABTEB and JAMB have prices, each between 1,200 and 4,700 |
| EducationRoute.Check | src/app/api/services/education/route.ts:24-86 | a missing exam, an unknown exam, and a quantity outside 1..10 (defaulting to 1) are refused in that order. The amount is the price of one pin times the quantity, and the description is `<exam> Pin(s) x<quantity>` |
| Base.NatToStringRoundTrip | src/app/api/services/education/route.ts:82 | the quantity printed into the description reads back as the same number |
| EducationRoute.OrderAmountRange | src/app/api/services/education/route.ts:48 | an accepted order costs between 1,200 and 47,000 |
| EducationRoute.SuccessBody | src/app/api/services/education/route.ts:125-132 | the body reports the reference, the amount, the exam and the quantity. `pins` appears exactly when the gateway issued pins, as one `{pin, serial}` object per pin in the gateway's order, and no other member appears |
| EducationRoute.PostSpec | src/app/api/services/education/route.ts:14-165 | 401 and 400 change nothing; otherwise the purchase protocol applies to the computed amount. The response is 200 exactly when an affordable, recorded order is fulfilled, and otherwise it is the one the protocol stopped with (404, 400, 500, the decline's 400 or 503) |
| EducationRoute.SettledRowKeepsPins | src/app/api/services/education/route.ts:113-123 | a settled row gains the issued pins next to `exam_type` and `quantity` |
| EducationRoute.Post | src/app/api/services/education/route.ts:14-165 | the handler against the store realises `PostSpec` and keeps every balance non-negative |
| EducationRoute.Catalogue | src/app/api/services/education/route.ts:167-173 | the GET lists one `{name, price}` entry per exam, in table order, and each price is the one a purchase charges |
| TransferRoute.Authorize | src/app/api/wallet/transfer/route.ts:17-85 | a transfer proceeds exactly when the amount is positive, an e-mail is given, the sender's wallet covers the amount, and exactly one profile carries the e-mail and belongs to someone else with a wallet. The first failing check, in the handler's order, decides the response: 400 invalid amount, 400 missing e-mail, 404 sender wallet, 400 insufficient balance, 404 recipient not found, 400 self-transfer, 404 recipient wallet |
| TransferRoute.SenderRow | src/app/api/wallet/transfer/route.ts:127-136 | the sender's row is a `success` `wallet_transfer` debit of the amount under the transfer's reference, naming the recipient's id and e-mail |
| TransferRoute.RecipientRow | src/app/api/wallet/transfer/route.ts:138-147 | the recipient's row is a `success` `wallet_transfer` credit of the amount under the same reference, naming the sender's id and e-mail |
| TransferRoute.PostSpec | src/app/api/wallet/transfer/route.ts:6-161 | a refused transfer or a rejected debit changes nothing. A failed credit writes no rows, leaves the recipient as they were, and restores the sender unless the restore fails too. Otherwise the sender loses and the recipient gains the amount, both accepted rows are appended, and the response reports the sender's new balance and the transfer's reference. No balance becomes negative and profiles are untouched |
| TransferRoute.TransferMoney | src/app/api/wallet/transfer/route.ts:89-125 | the money in all wallets is conserved, except when the credit and the restoring write both fail, which loses the amount |
| TransferRoute.TransferRowsLinked | src/app/api/wallet/transfer/route.ts:127-147 | the two rows share the reference and are both `success` `wallet_transfer` rows; their amounts are opposite and each names the other party |
| TransferRoute.ReportedBalanceNonNegative | src/app/api/wallet/transfer/route.ts:45-153 | the balance a completed transfer reports is never negative |
| TransferRoute.NoSelfTransfer | src/app/api/wallet/transfer/route.ts:66-71 | a transfer to one's own e-mail is always refused |
| TransferRoute.TransferTouchesTwoWallets | src/app/api/wallet/transfer/route.ts:89-125 | no wallet other than the sender's and the recipient's changes |
| TransferRoute.Post | src/app/api/wallet/transfer/route.ts:6-161 | the handler against the store realises `PostSpec` and keeps every balance non-negative |
| FundRoute.PostSpec | src/app/api/wallet/fund/route.ts:5-81 | a non-positive amount (400), a missing wallet (404) or a rejected update (500) change nothing. Otherwise the wallet grows by the amount and the response reports the new balance and the reference. A `wallet_fund` row is appended only if the store accepts it, and success is reported either way |
| FundRoute.FundRow | src/app/api/wallet/fund/route.ts:54-63 | the row is a `success` `wallet_fund` credit of the amount; its metadata holds the payment reference exactly when one was given, and nothing else |
| FundRoute.FundMoney | src/app/api/wallet/fund/route.ts:38-45 | the money in all wallets grows by exactly the amount on success and is otherwise unchanged |
| FundRoute.Post | src/app/api/wallet/fund/route.ts:5-81 | the handler against the store realises `PostSpec` and keeps every balance non-negative |
| WithdrawRoute.PostSpec | src/app/api/wallet/withdraw/route.ts:5-91 | invalid amount (400), missing bank details (400), a missing wallet (404), a short balance (400) or a rejected update (500), checked in that order, change nothing. Otherwise the wallet shrinks by the amount, never below zero, and the response reports the new balance and the reference. A `pending` `wallet_transfer` row of the negated amount is appended if the store accepts it |
| WithdrawRoute.WithdrawRow | src/app/api/wallet/withdraw/route.ts:68-77 | the row is a `pending` `wallet_transfer` debit of the amount, described as a withdrawal to the bank, with the account and bank name as metadata |
| WithdrawRoute.WithdrawUndoesFund | src/app/api/wallet/withdraw/route.ts:52-59 | withdrawing an amount just funded restores every balance and leaves two new rows |
| WithdrawRoute.WithdrawMoney | src/app/api/wallet/withdraw/route.ts:52-66 | the money in all wallets drops by exactly the amount on success and is otherwise unchanged |
| WithdrawRoute.Post | src/app/api/wallet/withdraw/route.ts:5-91 | the handler against the store realises `PostSpec` and keeps every balance non-negative |
| BalanceRoute.GetSpec | src/app/api/wallet/balance/route.ts:4-43 | no session gives 401. A read fault gives 500 with its message. An existing wallet is returned unchanged. A missing wallet is created at 0 and returned, or 500 is returned if the insert is refused. No existing balance ever changes |
| BalanceRoute.WalletValue | src/app/api/wallet/balance/route.ts:14-38 | the wallet shown carries the user's id and their balance |
| BalanceRoute.GetIdempotent | src/app/api/wallet/balance/route.ts:14-38 | after a successful call, a second call changes nothing and answers the same |
| BalanceRoute.Get | src/app/api/wallet/balance/route.ts:4-43 | the handler against the store realises `GetSpec` and keeps every balance non-negative |
| RegisterRoute.NewProfile | src/app/api/auth/register/route.ts:41-46 | the profile carries the e-mail, and the name and phone as given; an empty or missing one is stored as null |
| RegisterRoute.PostSpec | src/app/api/auth/register/route.ts:4-76 | missing credentials (400), a sign-up error (400) or no user (500) change nothing. A signed-up user always gets 200 with their id and e-mail. Their profile and zero-balance wallet exist afterwards exactly when they existed before or the store accepted the insert. No existing row and no ledger row changes |
| RegisterRoute.RegisterMoney | src/app/api/auth/register/route.ts:52-56 | registration creates no money |
| RegisterRoute.RegisteredUserIsFound | src/app/api/auth/register/route.ts:41-46 | once registered with an e-mail no other profile carries, the user is the recipient a transfer to that e-mail finds |
| RegisterRoute.Post | src/app/api/auth/register/route.ts:4-76 | the handler against the store realises `PostSpec` and keeps every balance non-negative |
| Transactions.Filter | src/app/api/transactions/route.ts:25-35 | the kept rows are exactly those of the user that pass each given filter, each as many times as the ledger holds it |
| Transactions.NewestFirst | src/app/api/transactions/route.ts:26 | the result is ordered by `created_at` descending and is a permutation of the input |
| Transactions.Window | src/app/api/transactions/route.ts:20-27 | the window holds the rows at positions offset to offset+limit-1 that exist, and no others |
| Transactions.TotalPages | src/app/api/transactions/route.ts:52 | the page count is the least n with n·limit ≥ total, so it is 0 exactly when there are no rows |
| Transactions.PageOf | src/app/api/transactions/route.ts:20-27 | the page holds at most `limit` rows, all the user's and passing the filters, newest first. They are the run of the sorted matching rows that starts at offset (page-1)·limit, all of that run that exists, and the page is empty exactly when the offset is past the last matching row |
| Transactions.GetSpec | src/app/api/transactions/route.ts:4-62 | no session gives 401 and a query error gives 500. Otherwise the listing is `PageOf` the ledger (page 1 and limit 10 by default), and the pagination reports that page and limit, the number of matching rows and its ceiling over limit |
| Transactions.RowOnItsPage | src/app/api/transactions/route.ts:20-27 | every matching row whose position lies in a page's range is shown on that page, at its distance from the page's offset |
| Transactions.RowPage | src/app/api/transactions/route.ts:20 | the i-th newest matching row lies in the range of page i div limit + 1, at position i mod limit |
| Transactions.PageStartsPastTheEnd | src/app/api/transactions/route.ts:20-52 | a page starts past the last matching row exactly when its number exceeds totalPages |
| Transactions.PagesBeyondTheLastAreEmpty | src/app/api/transactions/route.ts:20-53 | the listing is empty exactly when the page number exceeds totalPages |
| Transactions.FiltersCompose | src/app/api/transactions/route.ts:29-35 | filtering by type and status together equals filtering by type, then by status |
| Middleware.Decide | src/middleware.ts:8-67 | an unconfigured store and API paths pass through. The redirect to /dashboard happens exactly for a signed-in user on an /auth path. The redirect to /auth/login happens exactly for a visitor without a session on a protected path, and keeps that path in `redirectTo`. Every other request passes through |
| Middleware.RouteClassesDisjoint | src/middleware.ts:42-48 | no path is both an /auth path and a protected path, or either of those and an API path, so at most one redirect applies |
| Middleware.RedirectTargetsSettle | src/middleware.ts:55-65 | the target of a redirect never redirects the same visitor again |
| Middleware.SessionMattersOnlyForGuardedPages | src/middleware.ts:55-67 | on paths outside /auth and the protected prefixes, the request passes through whether or not the visitor is signed in |

## Left out

- The user interface (`page.tsx` files, the header, the layout): forms and optimistic display only.
- The gateway client `src/lib/inlomax.ts` is not part of this model. Its answer is an input: fulfilled with a receipt, declined with a message, or thrown.
- The pass-through routes (`verify-meter`, `verify-smartcard`, `data-plans`, `cable-plans`) hold no wallet or ledger state.
- The airtime purchase route is not part of this model.
- The Supabase client factory, and cookie synchronisation in `src/middleware.ts:21-33`. The middleware's `config.matcher` (lines 70-80) is also out: `Middleware.Decide` decides for any path the matcher lets through.
- `generateReference`, `formatCurrency` and `formatDate` depend on the clock, randomness and `Intl`. The reference and the row's creation time are inputs to every handler.
- Concurrency: requests run one at a time. The purchase debit is modelled as an assignment from the earlier read, as written. The lost update it allows under interleaving is not modelled.
- The outer `catch` that turns any unexpected exception (a malformed JSON body, for instance) into 500 "Internal server error".
- The identity provider distinguishes an auth error from a missing user; both give 401, so both are the `None` user.
- JSON coercion: amounts and quantities are integers. Numeric strings, `NaN`, fractional quantities and money in floating point are out of scope. So is `EXAM_PRICES` answering inherited keys such as `constructor`.
- The `updated_at` column written with each balance update.
- Wallet reads that fail for a reason other than a missing row, in the purchase, transfer, fund and withdraw routes. The handlers treat them as a missing wallet, and so does the model. The balance route tells them apart, as `readFault`.
- The store's key constraints are assumed: one wallet per user and one profile per id, so a second insert for the same key is refused. Whether the store accepts a row with a `meta` member (electricity, cable) is part of the insert's outcome input.
- Transactions.GetSpec: requires page ≥ 1 and limit ≥ 1. A zero or negative page or limit gives a negative range, and what the store answers to that is not modelled.
- Transactions.NewestFirst: rows with equal `created_at` keep their ledger order. The store promises no order among ties.
- Register: the `full_name` and `phone` passed to the identity provider at sign-up are not modelled; only the profile row is.
- Transactions.PagesBeyondTheLastAreEmpty: within the model, a page past the last is answered 200 with an empty list. The store's own answer to a range that starts past the matching rows, and the 500 the route would then give, are not modelled.
- BalanceRoute.WalletValue: the wallet is shown with its user id and balance only. The row's other columns that `select('*')` returns (`id`, `created_at`, `updated_at`) are not modelled.
- Utils.SanitizeInternational: the worked example `+234 803 123 4567` → `08031234567` is an instance of this lemma. It is not evaluated on that literal string.
