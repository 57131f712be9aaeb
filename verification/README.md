# ContractIntelligence core, modelled in Dafny

ContractIntelligence is a contract-review application. Vendors register and submit
contracts. An AI step attaches analyses to each contract. Administrators review contracts
and verify vendors from a dashboard. This project models the parts of it that hold its
logic:

- **The in-memory store** (`MemStorage`). It has five tables: users, vendors, contracts,
  AI analyses and notifications. Each table is a map from integer id to record, with its
  own id counter starting at 1.
  - Create, get, update, delete and mark-read operations.
  - The lookups and filtered queries.
  - The two joins: vendors with their user, and contracts with their vendor and analyses,
    newest submission first.
  - The dashboard statistics.
- **Vendor registration**: the route that creates a user and then a vendor pointing at
  it.
- **The shared schema**: record shapes, what each insert type leaves to the store, the
  status vocabularies, and partial updates as shallow merges.
- **The contract table's cell formatting**: value column, status variant, AI score and
  its colour, and the `CT-` display id.
- **The status badge**: icon, label and colour classes.
- **The contract list's search-and-status filter.**
- **The vendor portal**: verification counts, row marker and badge variant, the admin
  actions and the update they send, and the registration form's rules.

## How it is modelled

The store is an immutable `Storage.Store`. Every operation is a pure function returning
`Outcome(store, value)`. The clock reading (`now`, in milliseconds) is a parameter.

**Listing order.** A listing of a table is its records in ascending key order. JavaScript
`Map`s iterate in insertion order. The store only inserts keys in counter order, and an
update re-sets an existing key, which keeps its position. So the two orders agree.

**Money and scores.** Money is held as integer cents, because the columns are
`decimal(15, 2)`. Scores are integer hundredths.

**Rendering.** `toFixed` is modelled on the exact rational value:
- the magnitude is rounded half-up to `f` decimals;
- a minus sign is written for negative input, as ECMAScript does.

`toLocaleString` is modelled as en-US: comma groups and at most two fraction digits.

**Case mapping.** `toLowerCase` and `toUpperCase` are modelled on ASCII letters.

**Histories.** A run of operations (`History.Run`) shows what the counters guarantee:
- each table issues consecutive, strictly increasing ids;
- a deleted id is never reissued;
- a table's counter moves only when its own records are created.

**Where the code and its description differ, the model follows the code:**
- Deleting a contract does not delete its analyses. A lookup of analyses by the deleted
  contract's id still returns them (`Storage.DeleteKeepsAnalyses`).
- `updateContract` does not protect `id`, `createdAt` or `submissionDate`. A supplied
  value replaces them. Only `updatedAt` is forced to the clock reading.

## Model

| member | source | states |
|---|---|---|
| Schema.ParseContractStatus | shared/schema.ts:34 | a status string parses to a vocabulary entry exactly when it is one of the six names, and the entry's name is that string |
| Schema.ParseVerificationStatus | shared/schema.ts:24 | the same for the three vendor verification statuses |
| Schema.StampUser | server/storage.ts:214-219 | the stored user is the submission plus the counter's id and the clock reading; its submitted part projects back to exactly the submission |
| Schema.StampVendor | server/storage.ts:244-249 | the stored vendor is the submission plus id and creation time; the submitted part projects back |
| Schema.StampContract | server/storage.ts:290-297 | the stored contract is the submission plus id, and submission, creation and update times all equal to the clock reading; the submitted part projects back |
| Schema.StampAiAnalysis | server/storage.ts:320-325 | the stored analysis is the submission plus id and processing time; the submitted part projects back |
| Schema.StampNotification | server/storage.ts:335-340 | the stored notification is the submission plus id and creation time; the submitted part projects back |
| Schema.VendorPatchLaws | server/storage.ts:254-261 | the shallow merge `{...vendor, ...updates}`: an empty update changes nothing, a full update replaces the record, and merging the same update twice equals merging it once |
| Schema.ContractPatchLaws | server/storage.ts:302-309 | the contract merge always sets `updatedAt` to the clock reading: an empty update changes only that, a full update yields the supplied record with the new `updatedAt`, and the merge is idempotent |
| Schema.ApplyVendorPatch | server/storage.ts:258 | `{...vendor, ...updates}`: an empty update returns the vendor, an update supplying every field of another vendor returns that vendor, and an omitted verification status, id or owner is kept |
| Schema.ApplyContractPatch | server/storage.ts:306 | `{...contract, ...updates, updatedAt: new Date()}`: `updatedAt` is the clock reading whatever is supplied; an empty update changes only that; a full update yields the supplied contract with the new `updatedAt`; an omitted status, id or vendor is kept |
| Storage.ListingMembers | server/storage.ts:268-270 | a listing over a key range holds exactly the records stored under keys in that range |
| Storage.ListingValues | server/storage.ts:268-270 | with every key issued below the counter, the listing of a table holds exactly its stored records |
| Storage.ListingCount | server/storage.ts:356-364 | counting listed records that satisfy a test counts each matching key once |
| Storage.ListingLength | server/storage.ts:356-357 | the listing has one entry per stored record |
| Storage.FirstKey | server/storage.ts:210-212 | `find` over the listing: the earliest key whose record passes the test, or none when no key in range passes |
| Storage.GetUser | server/storage.ts:206-208 | a user is found exactly when one is stored under the id, and it is that record; an id the counter has not issued finds nothing; in a valid store the user found carries the id asked for |
| Storage.GetVendor | server/storage.ts:225-227 | a vendor is found exactly when one is stored under the id, and it is that record; an id the counter has not issued finds nothing |
| Storage.GetContract | server/storage.ts:264-266 | a contract is found exactly when one is stored under the id, and it is that record; an id the counter has not issued finds nothing |
| Storage.GetNotification | server/storage.ts:346 | `notifications.get(id)`: found exactly when stored under the id; nothing for an unissued id; in a valid store the notification found carries that id |
| Storage.GetUserByUsername | server/storage.ts:210-212 | the user found is stored and has that username; no stored user with that username has a smaller id; none is found exactly when no stored user has it |
| Storage.GetVendorByUserId | server/storage.ts:229-231 | the vendor found is stored and owned by that user, and no smaller key holds a vendor of that user, so it is the earliest-created one; none is found exactly when no stored vendor is owned by that user |
| Storage.GetContractsByVendor | server/storage.ts:286-288 | the result keeps listing order, has one entry per stored key whose contract names that vendor (records made equal by an update each count), and holds exactly the stored contracts of that vendor |
| Storage.GetAiAnalysesByContract | server/storage.ts:316-318 | the result keeps listing order, has one entry per stored key whose analysis names that contract, and holds exactly the stored analyses naming it |
| Storage.GetNotificationsByUser | server/storage.ts:331-333 | the result keeps listing order, has one entry per stored key whose notification is that user's, and holds exactly the stored notifications of that user |
| Storage.CreateUser | server/storage.ts:214-222 | the new user takes the counter's value as id; a get of that id returns it; every other id reads as before; the counter moves by one; no other table changes; over a valid store the id was free and the store stays valid |
| Storage.CreateVendor | server/storage.ts:244-252 | the same for vendors |
| Storage.CreateContract | server/storage.ts:290-300 | the same for contracts |
| Storage.CreateAiAnalysis | server/storage.ts:320-328 | the same for AI analyses |
| Storage.CreateNotification | server/storage.ts:335-343 | the same for notifications |
| Storage.UpdateVendor | server/storage.ts:254-261 | not found, with no change, exactly when the id is absent; otherwise the merged vendor is stored under the same key; other vendors, the key set, the counter and the other tables are unchanged |
| Storage.UpdateContract | server/storage.ts:302-309 | not found, with no change, exactly when the id is absent; otherwise the merge is stored with `updatedAt` equal to the clock reading, and a supplied `id`, `createdAt` or `submissionDate` replaces the old one, while an omitted one is kept; nothing else changes |
| Storage.DeleteContract | server/storage.ts:311-313 | true exactly when the id was stored; afterwards it is absent; every other contract, the counter and the other tables are unchanged |
| Storage.MarkNotificationAsRead | server/storage.ts:345-352 | false, with no change, exactly when the id is absent; otherwise only that notification's `isRead` becomes true |
| Storage.MarkReadIdempotent | server/storage.ts:345-352 | marking a notification read twice leaves the store and the answer as marking it once |
| Storage.DeleteKeepsAnalyses | server/storage.ts:311-318 | deleting a contract leaves every analysis lookup unchanged, including the lookup for the deleted contract's own id |
| Registration.RegisterVendor | server/routes.ts:112-129 | the route creates the user, then the vendor with `userId` overwritten by the new user's id; both are retrievable; each counter moves by one; other tables are unchanged; validity and vendor ownership are preserved; the user-id lookup then finds exactly the new vendor |
| Registration.ParseVendorBody | shared/schema.ts:79-82 | the server's vendor schema refuses a body exactly when its `userId` is missing, and otherwise keeps every field as sent |
| Registration.RegisterRoute | server/routes.ts:112-136 | as written: a validation error with the store unchanged exactly when the vendor part has no `userId`; otherwise the submitted user is stored and retrievable, the vendor's `userId` is the new user's id, each of the two counters moves by one, the other tables are unchanged; validity and vendor ownership are preserved either way |
| Registration.RegisterRouteIntended | server/routes.ts:112-129 | as intended: every well-typed body registers the submitted user and a vendor with the submitted fields pointing at that user; both counters move by one; validity and ownership are kept; the user-id lookup finds the new vendor |
| Joins.AttachUsers | server/storage.ts:233-242 | the vendors kept are exactly those whose user is stored, in their original order, each paired with the user its `userId` names |
| Joins.VendorsWithUser | server/storage.ts:233-242 | `getVendorsWithUser` over the whole vendor listing: the filtered vendors, each with its looked-up user |
| Joins.VendorsWithUserMembers | server/storage.ts:233-242 | a vendor is listed exactly when it is stored and its user is stored |
| Joins.NoVendorDropped | server/storage.ts:233-242 | when every vendor's user is stored, every vendor is listed |
| Joins.JoinContracts | server/storage.ts:274-281 | the contracts joined are exactly those whose vendor is stored, in listing order; each row carries that vendor and that contract's analyses |
| Joins.JoinMembers | server/storage.ts:274-281 | a row is in the join exactly when its contract is in the input and the row is correctly joined |
| Joins.InsertNewestFirst | server/storage.ts:283 | one insertion step of the sort: the result is a permutation of the element and the input, one longer, headed by the element or the input's head |
| Joins.InsertSorted | server/storage.ts:283 | inserting into a newest-first sequence keeps it newest-first |
| Joins.SortNewestFirst | server/storage.ts:283 | the result is newest-first and is a permutation of the input |
| Joins.InsertKeepsTies | server/storage.ts:283 | insertion keeps an element ahead of later elements with the same submission time |
| Joins.SortKeepsTies | server/storage.ts:283 | the sort is stable: contracts with equal submission times keep their relative order |
| Joins.ContractsWithVendor | server/storage.ts:272-284 | `getContractsWithVendor` is newest-first, a permutation of the join, and as long as the number of stored contracts whose vendor is stored |
| Joins.ContractsWithVendorMembers | server/storage.ts:272-284 | over a valid store, a row is listed exactly when its contract is stored and the row carries that contract's vendor and every analysis of it |
| Joins.ContractsWithVendorTies | server/storage.ts:283 | contracts submitted at the same instant appear in creation order |
| History.StepCounters | server/storage.ts:217 | one operation never moves a counter backwards, and moves it by exactly the ids that operation issued from it |
| History.CreationIssuesOne | server/storage.ts:217 | a creation issues one id from its own table and none from any other |
| History.MaintenanceIssuesNothing | server/storage.ts:254-352 | updates, deletion and mark-read issue no id and move no counter |
| History.CreateIssues | server/storage.ts:217 | a step that moves one counter by one and touches nothing else issues exactly that one id |
| History.StepValid | server/storage.ts:206-352 | every operation preserves the store invariant: every key lies in [1, counter), and every user, analysis and notification has its key as its id |
| History.IssuedIsRange | server/storage.ts:44-48 | a run issues from each table exactly the ids from the counter's start value to its final value, in order |
| History.RunValid | server/storage.ts:206-352 | every run preserves the store invariant |
| History.IssuedIncreasing | server/storage.ts:44-48 | issued ids strictly increase, so none is issued twice |
| History.IssuedFresh | server/storage.ts:44-48 | no issued id collides with a key the table held before the run |
| History.NeverReused | server/storage.ts:311-313 | ids issued by one run never reappear in a later run, deletions notwithstanding |
| History.CountersIndependent | server/storage.ts:44-48 | a run that issues nothing from a table leaves that table's counter where it was |
| Dashboard.Distribution | server/storage.ts:360-365 | the four status buckets add up to at most the number of contracts, and exactly to it when every status is one of the four bucketed ones |
| Dashboard.BucketsPartition | server/storage.ts:360-365 | the four buckets plus the unbucketed contracts (`ai_review`, `archived` or anything else) add up to the whole |
| Dashboard.ExpiresWithin | server/storage.ts:401-405 | a contract counts as expiring only when it has an end date no earlier than now and at most 30 days of milliseconds later, and every such contract counts |
| Dashboard.ApprovalRate | server/storage.ts:368 | the rate ends in `%`; it is `0%` exactly when there are no contracts; otherwise its digits read back to approved/total × 100 rounded to one decimal |
| Dashboard.TotalCentsAppend | server/storage.ts:371-373 | the summed value of two lists is the sum of their sums |
| Dashboard.MissingValuesAddNothing | server/storage.ts:372 | contracts without a value add nothing to the total |
| Dashboard.TotalValue | server/storage.ts:412 | `B` with one decimal exactly from a billion dollars up, else `M` with none; the digits read back to the rounded amount |
| Dashboard.IndustryValue | server/storage.ts:388-399 | `B`, `M`, `K` or plain dollars, each exactly within its threshold band; the digits read back to the rounded amount |
| Dashboard.Industries | server/storage.ts:376-380 | the industries that get an entry are listed without repetition |
| Dashboard.IndustriesMembers | server/storage.ts:376-380 | an industry is listed exactly when some contract names it and the name is not an inherited `Object.prototype` property |
| Dashboard.CountsOverAppendOne | server/storage.ts:381 | one more contract adds one to the per-industry counts exactly when its industry is listed |
| Dashboard.IndustryCountsSumToTotal | server/storage.ts:376-385 | the per-industry counts add up to the number of contracts whose industry is not inherited |
| Dashboard.OrdinaryIndustriesSumToTotal | server/storage.ts:376-385 | when no contract's industry is inherited, the per-industry counts add up to the number of contracts |
| Dashboard.InheritedIndustryUncounted | server/storage.ts:378-388 | contracts whose industries are all inherited are counted under no industry, so the counts fall short of the total |
| Dashboard.IndustryBreakdown | server/storage.ts:376-399 | the entries are keyed by exactly the industries that occur and are not inherited; each holds that industry's contract count and its summed value on the ladder |
| Dashboard.Stats | server/storage.ts:355-417 | over a valid store: the total is the number of stored contracts; each status bucket and the expiry figure count the stored contracts meeting their condition; the rate is `0%` exactly for an empty store and otherwise reads back to the approved share to one decimal; the value sums every stored contract once; the breakdown has an entry for exactly the non-inherited industries of stored contracts, each counting them and showing, on the B/M/K ladder, the summed value of the stored contracts of that industry; the processing time is the fixed figure |
| Dashboard.ListingCents | server/storage.ts:371-373 | summing the values over the listing sums the value of every stored key once |
| Dashboard.StoreFigures | server/storage.ts:356-373 | over a valid store, `getContracts()` has one row per stored contract and any count over it counts stored keys; its value sum, and the value sum of the rows passing any test, are those of the stored contracts, each key once |
| Dashboard.ListingCentsWhere | server/storage.ts:382-384 | summing the values of the listed contracts that pass a test sums the value of each stored key whose contract passes it, once |
| Dashboard.IndustryCountsOverStore | server/storage.ts:376-385 | over a valid store the breakdown's counts add up to the number of stored contracts whose industry is not inherited |
| ContractTable.FormatValue | client/src/components/ContractTable.tsx:15-24 | `N/A` exactly when there is no value; otherwise `$` with `M` exactly from a million up and `K` exactly from a thousand up, their digits reading back to the rounded amount; below a thousand, the en-US amount, with a minus sign exactly for a negative value, reading back to its dollars and cents |
| ContractTable.SmallWholeAmountReadsBack | client/src/components/ContractTable.tsx:23 | a whole amount below a thousand dollars is written as its plain digits, which read back to it |
| ContractTable.GetStatusVariant | client/src/components/ContractTable.tsx:31-45 | success exactly for `approved`; warning exactly for `pending` and `ai_review`; error exactly for `rejected` and `needs_review`; secondary exactly for anything else |
| ContractTable.VocabularyVariants | client/src/components/ContractTable.tsx:31-45 | of the six vocabulary statuses, only `archived` gets the secondary variant |
| ContractTable.AIScore | client/src/components/ContractTable.tsx:26-29 | the first analysis's score when it has one; otherwise a whole score in [60, 100) |
| ContractTable.ScoreColourOf | client/src/components/ContractTable.tsx:171-173 | green exactly from 80 up, yellow exactly in [60, 80), red exactly below 60 |
| ContractTable.FallbackScoreNeverRed | client/src/components/ContractTable.tsx:26-29 | a score made up for a contract without one is never shown red |
| ContractTable.DisplayId | client/src/components/ContractTable.tsx:145 | `CT-`, then the id's digits as a suffix, with zeros in front up to six characters and never truncated |
| ContractTable.DisplayIdReadsBack | client/src/components/ContractTable.tsx:145 | the digits after `CT-` read back to the id; the display is exactly nine characters long exactly for ids below a million |
| ContractFilter.FilterContracts | client/src/pages/Contracts.tsx:20-25 | the result keeps the input order, has one entry per matching row (duplicates included), and holds exactly the rows whose title or company name contains the term ignoring case and whose status passes the status choice |
| ContractFilter.MatchesSearch | client/src/pages/Contracts.tsx:21-22 | a row matches exactly when the lower-cased term occurs at some position of the lower-cased title or of the lower-cased company name; the empty term matches every row |
| ContractFilter.MatchesStatus | client/src/pages/Contracts.tsx:23 | `all` passes every row; any other choice passes exactly the rows with that status, so a choice outside the schema's vocabulary passes no vocabulary contract |
| ContractFilter.EmptySearchKeepsAll | client/src/pages/Contracts.tsx:11-25 | the initial state, an empty term with `all`, shows every contract |
| ContractFilter.SearchIgnoresCase | client/src/pages/Contracts.tsx:21-22 | terms that lower-case alike filter alike |
| ContractFilter.NeedsMoreInformationYieldsNothing | client/src/pages/Contracts.tsx:98 | the `needs_more_information` option matches no contract whose status is in the vocabulary, so over such contracts it always shows an empty list |
| StatusBadge.StatusIcon | client/src/components/StatusBadge.tsx:11-28 | check exactly for approved and verified, brain for `ai_review`, cross for rejected, warning for `needs_review`, clock for everything else |
| StatusBadge.DefaultLabel | client/src/components/StatusBadge.tsx:45 | the fallback label has the status's length and its first character upper-cased |
| StatusBadge.DefaultLabelPointwise | client/src/components/StatusBadge.tsx:45 | after the first character, the fallback label differs from the status only at the first underscore, which becomes a space |
| StatusBadge.DefaultLabelAt | client/src/components/StatusBadge.tsx:45 | with the first underscore at position k, the label is the capital, the status up to k, a space, and the rest with later underscores kept |
| StatusBadge.StatusText | client/src/components/StatusBadge.tsx:30-47 | the label is empty exactly for the empty status |
| StatusBadge.StatusTextReadsBack | client/src/components/StatusBadge.tsx:30-47 | for a lower-case snake status, lower-casing the label and turning spaces into underscores gives the status back, so no two such statuses share a label |
| StatusBadge.NeedsMoreInformationLabel | client/src/components/StatusBadge.tsx:45 | `needs_more_information` is shown as `Needs more_information`: only its first underscore is replaced |
| StatusBadge.EmptyStatusLabel | client/src/components/StatusBadge.tsx:45 | the empty status gets the empty label |
| StatusBadge.VariantClassDistinct | client/src/components/StatusBadge.tsx:49-60 | different variants get different colour classes |
| StatusBadge.VariantClass | client/src/components/StatusBadge.tsx:49-60 | success gets `bg-green-100 text-green-700 hover:bg-green-200`, warning the same in yellow, error in red, and every other variant in gray |
| VendorPortal.VerificationStatsOf | client/src/pages/VendorPortal.tsx:139-144 | the total is the number of vendors; verified, pending and rejected add up to at most the total, and exactly to it when every status is one of the three |
| VendorPortal.VerificationPartition | client/src/pages/VendorPortal.tsx:139-144 | the three statuses and the vendors with none of them add up to the whole list |
| VendorPortal.PortalCountsStore | client/src/pages/VendorPortal.tsx:139-144 | when every vendor's user is stored, the portal's total is the number of stored vendors, and each status figure is the number of stored vendors with that status |
| VendorPortal.VerificationMarker | client/src/pages/VendorPortal.tsx:126-137 | check exactly for verified, warning sign exactly for rejected, clock otherwise; grey exactly outside the vocabulary |
| VendorPortal.VerificationVariant | client/src/pages/VendorPortal.tsx:497 | success exactly for verified, warning exactly for pending, error for everything else |
| VendorPortal.MarkerMatchesBadge | client/src/pages/VendorPortal.tsx:126-137 | for each vocabulary status the marker's colour is the badge variant's colour, and the badge text is the capitalised status |
| VendorPortal.AdminActions | client/src/pages/VendorPortal.tsx:508-551 | no action exactly outside the vocabulary; two exactly for pending, leading to verified and rejected; one for verified and for rejected; no action targets the current status or `pending`, and every target is in the vocabulary |
| VendorPortal.ActionsToggle | client/src/pages/VendorPortal.tsx:508-551 | after any action the vendor has one action, which leads to the other status; taking it from a non-pending vendor leads back where it started |
| VendorPortal.StatusPatch | client/src/pages/VendorPortal.tsx:74-77 | the update sent changes only the verification status of whatever vendor it is merged into |
| VendorPortal.TakeAction | client/src/pages/VendorPortal.tsx:122-124 | not found, with no change, exactly for an absent vendor; otherwise that vendor with only its status set to the target; other vendors and other tables unchanged; validity preserved |
| VendorPortal.TakeActionIdempotent | client/src/pages/VendorPortal.tsx:122-124 | pressing the same button twice has the effect of pressing it once |
| VendorPortal.FormErrors | client/src/pages/VendorPortal.tsx:20-37 | a field is reported exactly when its rule fails; the phone number is never reported |
| VendorPortal.BlankFormRejected | client/src/pages/VendorPortal.tsx:96-116 | the blank form reports every field except the fixed role and status |
| VendorPortal.PortalSubmissionRejected | client/src/pages/VendorPortal.tsx:20-37 | as written, the route refuses every body the portal posts, even from an error-free form, and stores nothing, since the form never sends a `userId` |
| VendorPortal.AcceptedFormRegistersPendingVendor | client/src/pages/VendorPortal.tsx:20-37 | with the intended route, an error-free form registers a vendor-role user with a valid username and password, and a pending vendor with the submitted company pointing at that user, which the user-id lookup finds |
| Text.NatToStringRoundTrip | client/src/components/ContractTable.tsx:145 | the decimal rendering of a number reads back to it |
| Text.PadStart | client/src/components/ContractTable.tsx:145 | `padStart` keeps the string whole as its suffix and fills only the missing length |
| Text.ToFixed | server/storage.ts:368 | `toFixed` writes a minus sign exactly for negative input, a point before the last `f` digits, and digits that read back to the magnitude rounded half-up |
| Text.Money | server/storage.ts:390-397 | `$`, the `toFixed` digits and the suffix, with the digits reading back to the rounded amount |
| Text.GroupedReadsBack | client/src/components/ContractTable.tsx:23 | the en-US grouped rendering, with commas dropped, reads back to the number |
| Text.LocaleCents | client/src/components/ContractTable.tsx:23 | the en-US rendering starts with a minus sign exactly for a negative amount and ends in a digit |
| Text.LocaleCentsReadsBack | client/src/components/ContractTable.tsx:23 | the en-US rendering reads back: after the optional minus sign, the part before the point, commas dropped, is the whole dollars; there is no point exactly when the cents are zero; otherwise one or two digits follow it, without a trailing zero, and denote the cents |
| Text.FractionReadsBack | client/src/components/ContractTable.tsx:23 | the fraction of the en-US rendering is empty exactly for zero cents, else a point and one or two digits, the last not `0`, that denote the cents |
| Text.PointIndex | client/src/components/ContractTable.tsx:23 | the position of the first decimal point in a rendering, or its length when it has none |
| Text.Lower | client/src/pages/Contracts.tsx:21-22 | lower-casing keeps the length and maps every character through the ASCII case map |
| Text.ContainsSpec | client/src/pages/Contracts.tsx:21-22 | `includes` holds exactly when the term occurs at some position |
| Text.ReplaceFirstPointwise | client/src/components/StatusBadge.tsx:45 | `replace` with a one-character pattern changes only its first occurrence |
| Text.ReplaceFirstAt | client/src/components/StatusBadge.tsx:45 | with the first occurrence at k, the result is the prefix, the replacement, and the rest unchanged |

## Findings

| source | as written | input that shows it | evidently intended | confidence | as-written member | corrected member |
|---|---|---|---|---|---|---|
| server/routes.ts:118 | The route parses the vendor part with the full vendor schema, whose `userId` is required. The portal form (client/src/pages/VendorPortal.tsx:29-36) never sends one. | Any error-free portal form, e.g. username `acme`, password `secret1`, company `Acme`. The body's vendor part has no `userId`, so the route answers with a validation error and stores nothing. | The vendor part is parsed without `userId`, which the route fills in from the new user at lines 124-127. | high; not executed | VendorPortal.PortalSubmissionRejected (over Registration.RegisterRoute) | Registration.RegisterRouteIntended, with VendorPortal.AcceptedFormRegistersPendingVendor |

## Left out

- HTTP, the request handlers' status codes and error bodies, and authentication are left out. The model begins at the storage call or the page's own function.
- The asynchronous AI-analysis write after a contract is submitted is not modelled. It is an ordinary `createAiAnalysis` whose timing is outside the store.
- `seedData` is not modelled, because its submission dates and scores come from `Math.random`. The model's stores start empty (`Storage.Empty`) or from any valid store.
- `Math.random` in the AI score is not modelled. `ContractTable.AIScore` takes the draw as a whole number `roll` below 40.
- Clocks are not modelled. Each operation takes one reading `now` in milliseconds.
- The 30-day window is taken as a fixed 30 × 24 hours of milliseconds. `setDate` on a calendar date across a daylight-saving change is not modelled.
- Floating-point arithmetic is not modelled. Amounts are exact integer cents, and `toFixed` is applied to the exact rational value.
- Binary rounding artefacts, the exponent form of numbers from 10^21 up, and `parseFloat` of malformed text are out of scope.
- `toLowerCase` and `toUpperCase` are modelled on ASCII letters only. There is no Unicode case mapping.
- `toLocaleString` is modelled for the en-US locale only.
- Omitted fields with column defaults are not modelled. The database schema gives `status` "pending", `currency` "USD", `isRead` false, `role` and `verificationStatus` defaults, but `MemStorage` never applies them, so the source can store a record without them. The model's insert records carry every field, and `isRead` is a `bool` where the column is `boolean | null`. A missing status or verification status behaves in the counts like any string outside the vocabulary: it falls in no status bucket and no verification figure, and gets the `secondary` variant. The badge's fallback label would call `charAt` on `undefined` and throw, which the model does not follow.
- Zod validation is not modelled on the server side, except the vendor schema's required `userId` (Registration.ParseVendorBody). Otherwise the request bodies are taken as already well-typed.
- VendorPortal.FormErrors: the email format check is a parameter `isEmail`, not zod's email pattern.
- VendorPortal.FormErrors: string lengths are counted in Unicode scalar values, while JavaScript's `length`, which zod's `.min(n)` rules use, counts UTF-16 code units. A character outside the Basic Multilingual Plane counts twice there, so the username `😀a` has length 3 and passes `.min(3)` in the source, but has length 2 in the model and is reported. The same difference applies to the first character that StatusBadge.DefaultLabel capitalises (`charAt(0)`) and to the padding length in Text.PadStart. Over text in the Basic Multilingual Plane the two counts agree.
- StatusBadge.DefaultLabel: `charAt(0)` takes the first UTF-16 code unit, which for a status starting outside the Basic Multilingual Plane is half a surrogate pair; the model takes the whole first character.
- Text.PadStart: the target length counts Unicode scalar values, not UTF-16 code units as `padStart` does.
- The route's `ZodError` and 500 responses are not modelled.
- Dashboard.IndustryBreakdown: only the first effect of an inherited industry name is modelled, namely that no entry is made. The `NaN` written onto the inherited property is not. For `__proto__` that write lands on `Object.prototype` itself and persists for the rest of the process. After it, `value` also reads as inherited, and the model does not follow that.
- Object key order in `industryData` is not modelled. JavaScript lists integer-like keys first. The model returns a `map`, which has no order.
- `markNotificationAsRead` mutates the stored object in place. Any caller holding that object would see the change. The model has no aliasing and stores a new record.
- The `vendor?.companyName` guard in the contract filter is not modelled. In the model every row has a vendor, as `getContractsWithVendor` guarantees.
- Rendering, animation and mock pages are not modelled: React components, `framer-motion`, the dashboard and report pages' mock data, and the client-side auth store.
