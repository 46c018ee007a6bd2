# LedaaS dashboard core, modelled in Dafny

LedaaS ("Ledger as a Service") has a single-page dashboard. It signs users in,
lets them choose an API key, and posts double-entry transactions to the
ledger backend. Most of the dashboard is rendering and HTTP plumbing. This
project models the parts that hold logic:

- the form validators and `truncate` (`validation.ts`, `formatters.ts`);
- the transaction form's posting-list editor, totals and submit rule (`TransactionForm.tsx`);
- the session state machine with its `localStorage` marker and the 401 interceptor (`AuthContext.tsx`);
- the route guard (`RequireAuth.tsx`);
- the API-key holder with its `sessionStorage` entry and the shared `Authorization` header (`ApiKeyContext.tsx`).

Files, one module each:

- `wrappers.dfy`: `Option`, `Result` and map lookup.
- `js_strings.dfy`: the JavaScript built-ins `slice(0, end)` and `includes`.
- `validation.dfy`: the validators.
- `formatters.dfy`: `truncate`.
- `types.dfy`: `PostingDirection`, `PostingInput` and `UserResponse`.
- `amounts.dfy`: how an amount text is read.
- `transaction_form.dfy`: the form, as class `TransactionForm`.
- `auth_context.dfy`: the session, as class `AuthProvider`.
- `require_auth.dfy`: the guard.
- `api_key_context.dfy`: the key holder, as class `ApiKeyProvider`.

Modelling choices:

- Strings are sequences of characters.
- Each regular expression is a predicate that states the language it accepts.
- A numeric amount is an exact real. `NaN` is kept as its own value, because `parseFloat` produces it and the form's sums carry it through.
- `localStorage`, `sessionStorage` and the HTTP client's common headers are string-to-string maps held in fields.
- Each awaited API call is a parameter: the caller supplies the outcome (`Success(value)` or `Failure(error)`).
- Every operation runs atomically, one after another.
- The `now` timestamp of a new form is a constructor parameter.

## Model

| member | source | states |
|---|---|---|
| `Validation.IsValidEmail` | web/src/utils/validation.ts:8-11 | an accepted email is at least 5 characters long, and its first and last characters are neither white space nor `@` |
| `Validation.EmailValidIff` | web/src/utils/validation.ts:8-11 | the email pattern accepts a string iff it has exactly one `@`, not at index 0, no white space anywhere, and a domain with a `.` that has characters on both sides |
| `Validation.EmailRejectsEmpty` | web/src/utils/validation.ts:9 | the empty string is not a valid email |
| `Validation.EmailRejectsWhitespace` | web/src/utils/validation.ts:9 | any `\s` character anywhere makes the email invalid |
| `Validation.EmailRejectsSecondAtSign` | web/src/utils/validation.ts:9 | a string with two `@` is not a valid email |
| `Validation.EmailAcceptsExamples` | web/src/utils/validation.ts:9 | `ann@example.com` is accepted, and so is `a@b.c.d`, whose domain has several dots |
| `Validation.EmailRejectsDotlessDomain` | web/src/utils/validation.ts:9 | any string with an `@` and no `.` after it is refused |
| `Validation.EmailRejectsEmptyLocalPart` | web/src/utils/validation.ts:9 | any string starting with `@` is refused |
| `Validation.EmailRejectsEmptyLabel` | web/src/utils/validation.ts:9 | `ann@.com` is refused, because the label before the dot is empty |
| `Validation.IsValidPassword` | web/src/utils/validation.ts:16-21 | a password is valid iff it has at least 8 characters; a valid result has no message, an invalid one has the "at least 8 characters" message |
| `Validation.IsValidLedgerCode` | web/src/utils/validation.ts:26-29 | a valid ledger code holds no white space |
| `Validation.IsValidAccountCode` | web/src/utils/validation.ts:34-37 | a valid account code holds no white space |
| `Validation.CodesRejectEmpty` | web/src/utils/validation.ts:26-37 | the empty string is neither a ledger code nor an account code |
| `Validation.LedgerCodeRejectsUppercase` | web/src/utils/validation.ts:27 | one upper-case letter anywhere makes a ledger code invalid |
| `Validation.LedgerCodeRejectsUnderscore` | web/src/utils/validation.ts:27 | `_` or a space anywhere makes a ledger code invalid |
| `Validation.LedgerCodeIsAccountCode` | web/src/utils/validation.ts:27-35 | every valid ledger code is also a valid account code |
| `Validation.AccountCodeNotLedgerCode` | web/src/utils/validation.ts:27-35 | the converse fails: `Cash_01` is an account code but not a ledger code |
| `JsStrings.SlicePrefix` | web/src/utils/formatters.ts:61 | `slice(0, end)` returns a prefix of the string whose length is `end` clamped to the string; a negative `end` counts back from the end |
| `JsStrings.Includes` | web/src/contexts/AuthContext.tsx:141 | a string includes only substrings no longer than itself, and always includes the empty string |
| `JsStrings.IncludesIff` | web/src/contexts/AuthContext.tsx:141 | the left-to-right `includes` scan is true iff the substring occurs at some index |
| `Formatters.Truncate` | web/src/utils/formatters.ts:59-62 | a string no longer than `length` is returned unchanged; a longer one becomes a prefix of itself followed by `...` |
| `Formatters.TruncateCut` | web/src/utils/formatters.ts:61 | for `length >= 0`, a cut string is its first `length` characters plus `...`, exactly `length + 3` long |
| `Formatters.TruncateKeepsPrefix` | web/src/utils/formatters.ts:61 | the first `length` characters of the result equal those of the input |
| `Formatters.TruncateBound` | web/src/utils/formatters.ts:59-62 | for `length >= 0`, the result is never longer than the input or `length + 3`, whichever is larger |
| `Formatters.TruncateIdempotent` | web/src/utils/formatters.ts:59-62 | for `length >= 0`, truncating twice gives the same result as truncating once |
| `Formatters.TruncateNegative` | web/src/utils/formatters.ts:59-62 | for a negative `length`, the string is always cut and `length` counts back from the end; even `""` becomes `...` |
| `Formatters.TruncateNegativeNotIdempotent` | web/src/utils/formatters.ts:59-62 | for a negative `length`, truncation is not idempotent: `truncate("hello", -2)` truncates again |
| `Amounts.Add` | web/src/features/transactions/TransactionForm.tsx:99-103 | the sum is a number iff both operands are, and its value is then their exact sum (`NaN` absorbs) |
| `Amounts.MatchesAmountPattern` | web/src/features/transactions/TransactionForm.tsx:216 | a text in the input pattern is non-empty and starts and ends with a digit |
| `Amounts.ParseAmount` | web/src/features/transactions/TransactionForm.tsx:216 | reading an amount gives a number iff the text matches `^\d+(\.\d{1,10})?$`, and that number is never negative; its value is stated by `ParseAmountDigits` and `ParseAmountScaled` |
| `Amounts.ParseAmountDigits` | web/src/features/transactions/TransactionForm.tsx:98 | a text of digits alone reads as the integer those digits spell |
| `Amounts.ParseAmountScaled` | web/src/features/transactions/TransactionForm.tsx:98 | a decimal text reads as the integer spelled by its digits with the point dropped, divided by 10 to the number of fraction digits |
| `Amounts.OrZero` | web/src/features/transactions/TransactionForm.tsx:98 | an empty amount, which falls back to `"0"`, reads as 0, and any other amount reads as itself |
| `Amounts.ParseAmountExamples` | web/src/features/transactions/TransactionForm.tsx:98 | `"100.50"` reads as 100.5 and `"7"` as 7, as with `parseFloat` |
| `Amounts.ParseAmountNaNExamples` | web/src/features/transactions/TransactionForm.tsx:98 | `""` reads as `NaN`, as with `parseFloat`; `"1."` and `"1.5.0"` read as `NaN` in the model, where `parseFloat` gives 1 and 1.5 |
| `TransactionForms.InitialPostings` | web/src/features/transactions/TransactionForm.tsx:32-35 | a fresh form has exactly two postings, a debit then a credit, each with empty account code and amount |
| `TransactionForms.TransactionForm.constructor` | web/src/features/transactions/TransactionForm.tsx:27-35 | a new form has an empty external id, currency USD, the supplied time and the initial postings |
| `TransactionForms.TransactionForm.AddPosting` | web/src/features/transactions/TransactionForm.tsx:59-61 | appends one blank debit and keeps every existing posting; the list stays at two or more |
| `TransactionForms.FilterOutIndexRemoves` | web/src/features/transactions/TransactionForm.tsx:65 | the index filter removes exactly the posting at that index, keeps the others in order, and removes nothing when the index is out of range |
| `TransactionForms.TransactionForm.RemovePosting` | web/src/features/transactions/TransactionForm.tsx:63-67 | with two postings or fewer nothing changes; otherwise only the posting at `index` is removed, the rest keep their order, and the list never drops below two |
| `TransactionForms.WithField` | web/src/features/transactions/TransactionForm.tsx:71 | the posting copy changes the named field only |
| `TransactionForms.DirectionOf` | web/src/features/transactions/TransactionForm.tsx:99 | a selected value is a debit iff it is `"debit"`; any other value counts as a credit |
| `TransactionForms.TransactionForm.UpdatePosting` | web/src/features/transactions/TransactionForm.tsx:69-73 | only the named field of the posting at `index` changes; the length and every other posting stay |
| `TransactionForms.AmountOf` | web/src/features/transactions/TransactionForm.tsx:98 | a posting's amount is a number iff its text is empty or in the input pattern; an empty text counts as 0 |
| `TransactionForms.SideTotal` | web/src/features/transactions/TransactionForm.tsx:97-104 | a side's total, when it is a number, is never negative |
| `TransactionForms.IsBalanced` | web/src/features/transactions/TransactionForm.tsx:106 | equal finite totals balance, and a `NaN` total never does |
| `TransactionForms.BalanceSymmetric` | web/src/features/transactions/TransactionForm.tsx:106 | swapping debits and credits does not change whether the form balances |
| `TransactionForms.TransactionForm.CalculateTotals` | web/src/features/transactions/TransactionForm.tsx:93-107 | the loop's debits are the sum over debit postings and its credits the sum over the others; `balanced` holds iff the two totals differ by less than 0.01 |
| `TransactionForms.SideTotalFinite` | web/src/features/transactions/TransactionForm.tsx:97-104 | when every amount is empty or matches the input pattern, both totals are numbers, never negative |
| `TransactionForms.SideTotalNaN` | web/src/features/transactions/TransactionForm.tsx:98-106 | an amount that does not parse makes its side's total `NaN`, and the form is then never balanced |
| `TransactionForms.SideTotalAppend` | web/src/features/transactions/TransactionForm.tsx:97-104 | a posting added at the end adds its amount to its own side only |
| `TransactionForms.AppendEmptyKeepsTotals` | web/src/features/transactions/TransactionForm.tsx:59-61 | adding a blank posting changes neither total |
| `TransactionForms.AccountCodeEditKeepsTotals` | web/src/features/transactions/TransactionForm.tsx:69-73 | editing an account code changes neither total |
| `TransactionForms.InitialTotals` | web/src/features/transactions/TransactionForm.tsx:32-35 | a fresh form sums to 0 on both sides and is balanced |
| `TransactionForms.ToleranceAdmitsUnequalTotals` | web/src/features/transactions/TransactionForm.tsx:106 | debits of 1.005 against credits of 1 count as balanced, because the test allows a difference below 0.01 |
| `TransactionForms.TransactionForm.SubmitEnabled` | web/src/features/transactions/TransactionForm.tsx:260 | submission is enabled iff the totals balance and there are at least two postings; on a valid form, balance alone decides |
| `TransactionForms.TransactionForm.ResetAfterPost` | web/src/features/transactions/TransactionForm.tsx:50-55 | after a successful post the external id is empty and the postings are the initial two; currency and time stay |
| `AuthContext.GetAuthFlag` | web/src/contexts/AuthContext.tsx:22-24 | the marker is set iff storage holds `"true"` under `"isLoggedIn"` |
| `AuthContext.StoreAuthFlag` | web/src/contexts/AuthContext.tsx:26-32 | setting the flag to true stores `"true"`; setting it to false removes the key |
| `AuthContext.StoreThenGet` | web/src/contexts/AuthContext.tsx:18-32 | reading the flag after setting it to `v` returns `v`, and every other storage key is untouched |
| `AuthContext.AuthProvider.constructor` | web/src/contexts/AuthContext.tsx:35-38 | a new session has no user, is not authenticated, is loading, and reads its flag from storage; the invariant holds |
| `AuthContext.AuthProvider.SetAuthFlag` | web/src/contexts/AuthContext.tsx:26-32 | the provider's storage becomes `StoreAuthFlag` of the old storage |
| `AuthContext.AuthProvider.ClearAuth` | web/src/contexts/AuthContext.tsx:43-48 | clears the user, the authenticated flag, the stored marker and the in-memory flag; `isLoading` is untouched |
| `AuthContext.AuthProvider.CheckAuth` | web/src/contexts/AuthContext.tsx:53-84 | loading always ends. On success the returned user is held and returned, and both flags and the marker are set. On failure the session is cleared and null is returned |
| `AuthContext.AuthProvider.Login` | web/src/contexts/AuthContext.tsx:86-125 | a failed login call clears the session and rethrows its error. Otherwise the result is true iff the user check succeeded, and it equals `isAuthenticated` afterwards |
| `AuthContext.AuthProvider.Logout` | web/src/contexts/AuthContext.tsx:127-130 | the session is cleared only after the logout call succeeds; a failure leaves every field unchanged and propagates |
| `AuthContext.ShouldClearOn401` | web/src/contexts/AuthContext.tsx:137-141 | the interceptor clears only axios errors with status 401 |
| `AuthContext.ShouldClearOn401Iff` | web/src/contexts/AuthContext.tsx:137-141 | for a 401 response, auth is cleared iff the URL contains `/auth/me` or `/auth/check` at some index |
| `AuthContext.ShouldClearOn401Examples` | web/src/contexts/AuthContext.tsx:137-147 | a 401 from `/auth/me` clears; a 401 from `/auth/login` or `/ledgers` does not, and neither does a 403 or an error without a URL |
| `AuthContext.AuthProvider.OnResponseError` | web/src/contexts/AuthContext.tsx:136-149 | clears the session exactly when the test holds, otherwise changes nothing; it always rejects with the same error |
| `AuthContext.AuthProvider.Mount` | web/src/contexts/AuthContext.tsx:158-166 | with no stored marker, loading ends and nothing else changes; otherwise `checkAuth` runs with the supplied outcome |
| `AuthContext.CheckAuthRejected` | web/src/contexts/AuthContext.tsx:136-149 | when `/auth/me` is rejected, the interceptor's clear and then `checkAuth`'s own handling end cleared, not loading, with null returned |
| `RequireAuth.Decide` | web/src/components/auth/RequireAuth.tsx:8-31 | no marker always redirects; marker and loading shows the spinner; the page renders iff marker, not loading and authenticated; every redirect goes to `/unauthenticated` with `replace` and the current location |
| `RequireAuth.ChildrenHaveUser` | web/src/components/auth/RequireAuth.tsx:8-31 | in a valid session the protected page renders only while a user is held |
| `RequireAuth.VisitAfterLoad` | web/src/components/auth/RequireAuth.tsx:8-31 | on a fresh load the first render is the spinner if the marker is stored, else a redirect. Once mounted, the page shows iff the marker was stored and the user check succeeded |
| `RequireAuth.VisitAfterLogin` | web/src/components/auth/RequireAuth.tsx:8-31 | after a login attempt, the protected page shows iff both the login call and the user check succeeded; otherwise the guard redirects |
| `ApiKeyContext.ApiKeyProvider.constructor` | web/src/contexts/ApiKeyContext.tsx:12-17 | the initial key is the session value under `selected_api_key`, or null when that entry is absent |
| `ApiKeyContext.ApiKeyProvider.SetApiKey` | web/src/contexts/ApiKeyContext.tsx:19-24 | afterwards the key is `k`, the session maps the entry to `k`, the header is `"Bearer " + k`, and nothing else changes |
| `ApiKeyContext.ApiKeyProvider.ClearApiKey` | web/src/contexts/ApiKeyContext.tsx:26-30 | afterwards the key is null, the session entry and the `Authorization` header are gone, and nothing else changes |
| `ApiKeyContext.ApiKeyProvider.SyncAuthorizationHeader` | web/src/contexts/ApiKeyContext.tsx:33-37 | a truthy key is written to the header; the header is otherwise left alone and never deleted |
| `ApiKeyContext.SetApiKeyThenSync` | web/src/contexts/ApiKeyContext.tsx:19-37 | the effect that follows `setApiKey` changes nothing further |
| `ApiKeyContext.SetThenClear` | web/src/contexts/ApiKeyContext.tsx:19-30 | setting a key and then clearing it leaves session and headers exactly as clearing alone would, with no trace of the key |
| `ApiKeyContext.LoadFromSession` | web/src/contexts/ApiKeyContext.tsx:15-37 | after a fresh load and the mount effect, a truthy stored key is the one sent; an empty or absent key leaves the header as it was |

## Left out

- Each `Decide` redirect carries the router location as a plain value. React Router's `Navigate` and `useLocation` are not modelled.
- String length: JavaScript's `.length` counts UTF-16 code units, while the model counts characters. The two agree on text within the Basic Multilingual Plane. This affects `IsValidPassword` and `Truncate`.
- `Truncate`: `length` is an integer. The fractional lengths a JavaScript `number` allows are not modelled.
- `ParseAmount`: `parseFloat` is modelled only on texts that match the input pattern; every other text reads as `NaN`. Real `parseFloat` also reads a numeric prefix (`"12abc"` is 12) and accepts signs, exponents and `Infinity`. Rounding to binary floating point is not modelled either: amounts are exact decimals. So for such texts `SubmitEnabled` can differ from the source. Examples are `"1."`, `"-5"` and an amount with 11 decimal places: each reads as `NaN` here and blocks submission, while `parseFloat` reads a number.
- The browser's constraint validation (`required`, `pattern`) that blocks a native form submission is not modelled. `SubmitEnabled` is only the button's `disabled` rule.
- `TransactionForm.UpdatePosting` requires an index inside the list. Every caller passes the index of a rendered posting. With an index outside the list, JavaScript would grow a sparse array holding a partial record.
- `DirectionOf`: a direction value other than `"debit"` is stored as `Credit`. JavaScript stores the raw string, but the select offers only `"debit"` and `"credit"`, and the totals treat any other value as a credit.
- `handleSubmit` is not modelled: building the request, the idempotency key (from `Date.now` and `Math.random`) and the ISO date conversion. Clocks and randomness are outside the model.
- The plain `onChange` setters for external id, currency and time are not modelled. Each one only assigns its field.
- React Query's mutation state, cache invalidation and the `onSuccess` callback are not modelled. The reset after a successful post is `ResetAfterPost`.
- `AuthProvider.CheckAuth` and `AuthProvider.Login` run atomically. The intermediate `isLoading = true` render while a call is pending appears only as the first render in `VisitAfterLoad`. Overlapping concurrent calls are not modelled.
- Logging (`logger`) is not modelled. The interceptor's registration and ejection are not modelled either: `OnResponseError` is the interceptor's rule.
- Changes that other tabs make to `localStorage` are not modelled.
- The HTTP clients, REST wrappers, pages, UI components, date and currency formatting, and the Go server wiring are not modelled. They are rendering, network plumbing or server code.
