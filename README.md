# Reveal quota of the agency dashboard, in Dafny

The agency dashboard lists agencies and their contacts. A contact's email and phone are masked
(`****`) until the signed-in user reveals them. A user may reveal at most 50 new contacts per
calendar day. Viewing a contact already revealed is free. This project models that quota and
proves its properties:

- `revealContactDetails`, the write path. It checks the caller, returns early for a pair already
  in the `ContactReveal` ledger, creates the user's `UserLimit` row if missing, resets the count
  on a new day, refuses with `LIMIT_REACHED` at 50, and otherwise increments the count and
  upserts the pair.
- `getUserUsage`, the read path. It applies the same day rollover without writing.
- The masking and page arithmetic of `getContacts` and `getAgencies`.
- The clamped count and remaining views shown by the `UsageCounter` widget.

Files:

- `wrappers.dfy`: `Option` and map lookup.
- `quota.dfy`: the limit of 50 and the widget arithmetic (components/UsageCounter.tsx).
- `ledger.dfy`: the tables as one value (`State`). `Reveal` and `UserUsage` are the write and
  read paths as functions of that value.
- `ledger_properties.dfy`: properties of a single call and of sequences of calls. These are the
  ceiling over any run of calls, free re-views, the exact outcomes of a day of new reveals, and
  the ledger agreeing with the counter.
- `service.dfy`: class `RevealService`. It holds the three tables as fields and performs the
  steps of the source in place. `RevealContactDetails` and `GetUserUsage` are proved to give the
  same results and new tables as `Ledger.Reveal` and `Ledger.UserUsage`. `UpsertReveal` is
  proved to add the pair to the ledger and change nothing else.
- `listing.dfy`: masking, `totalPages`, `skip`/`take` paging, and how a reveal changes the
  listing.

Modelling choices:

- The identity provider's `auth()` becomes a parameter `caller: Option<UserId>`. `UserId` is a
  non-empty string. The guards `if (!userId)` (lib/actions.ts:14, 92, 214) refuse an empty id,
  a null id and a missing id alike. So `None` stands for all three, and `Some` always holds an
  id that passes the guard.
- "Now" becomes a parameter `today: Day`, an abstract day number. `isSameDay` becomes equality
  of day numbers. The stored `lastViewDate` becomes the day it falls on.
- The database becomes `map`s and a `set` of pairs. A `findUnique` becomes a map lookup that
  may find nothing (`Option`).
- The thrown `Error("Unauthorized")` becomes the outcome `Unauthorized`.
- The source returns `{ data, count, alreadyRevealed: true }` on a re-view and `{ data, count }`
  on a new reveal. Both become `Revealed(data, count, alreadyRevealed)`.
- The Prisma schema is not part of this model. A freshly created `UserLimit` row is taken to
  hold count 0 (the column default) and today's date. Any other default date gives the same
  behaviour, because a date that is not today is reset to (0, today) before the check.
- JavaScript's `value || 'N/A'` treats `null` and the empty string alike, so both show `N/A`.
- The listing functions require `page >= 1` and `pageSize >= 1`. The pager only offers pages
  from 1 to `totalPages`, and the page sizes it offers are 10, 20, 50 and 100. A page of 0 would
  give a negative `skip`, and a page size of 0 gives `Infinity`/`NaN` in JavaScript.

Two consequences of the order of the code's steps:

- A new reveal of an id that names no contact still uses quota. The increment at
  lib/actions.ts:146 and the upsert at :152 come before the lookup at :166, which returns null.
  `LedgerProperties.MissingContactStillCharged` proves this of the model. The model assumes the
  ledger accepts any contact id (see "## Left out").
- A refused reveal writes nothing. A row just created (lib/actions.ts:124-128) or rolled over
  (:132-138) holds count 0, so the check at :141 refuses only a row that was already dated
  today and held 50 or more. The ceiling clause of `Ledger.Reveal` states that the whole state
  is unchanged.

## Model

| member | source | states |
|---|---|---|
| `Quota.DisplayCount` | components/UsageCounter.tsx:16 | the displayed count is never negative; it is at least the given count; it equals the given count when that is not negative and is 0 otherwise |
| `Quota.RemainingViews` | components/UsageCounter.tsx:17 | the views left are between 0 and 50; with the count they add up to 50 when the count is at most 50; they are 0 when the count is 50 or more |
| `Ledger.UserUsage` | lib/actions.ts:212-233 | no caller gives null; otherwise the answer is dated today and its count is the stored count when the stored day is today, else 0 (no row, or a stale day) |
| `Ledger.Reveal` | lib/actions.ts:90-175 | the directory is never written. No caller gives `Unauthorized` and leaves the state unchanged. A pair already revealed leaves the state unchanged and returns the contact's data with the count `getUserUsage` reports. A fresh pair with an effective count of 50 or more gives `LIMIT_REACHED` and writes nothing. Otherwise the stored row becomes (effective count + 1, today), that count is returned, and exactly the one pair is added |
| `LedgerProperties.RevealKeepsCeiling` | lib/actions.ts:141-149 | if every stored count is at most 50 before a call, it is after the call |
| `LedgerProperties.RunKeepsCeiling` | lib/actions.ts:130-149 | starting with every count at most 50, no sequence of calls by any users on any days stores a count above 50 |
| `LedgerProperties.RevealTwice` | lib/actions.ts:95-164 | revealing a fresh contact twice: the second call writes nothing and returns the same data and count, flagged as already revealed; the counter rose by exactly 1 in all |
| `LedgerProperties.FreeReviewAtLimit` | lib/actions.ts:104-117 | a contact already revealed is returned, not refused, even when the day's quota is used up |
| `LedgerProperties.FirstRevealOfNewDay` | lib/actions.ts:130-149 | the first new reveal after the stored day returns count 1 and stores (1, today), whatever count was stored |
| `LedgerProperties.ReadAfterReveal` | lib/actions.ts:141-173 | after a call that returns data, `getUserUsage` reports the count the call returned; after `LIMIT_REACHED` it reports at least 50 |
| `LedgerProperties.LedgerMatchesCounter` | lib/actions.ts:141-164 | a call adds one pair to the ledger and one unit to the caller's count exactly when it is a new reveal; otherwise it adds to neither |
| `LedgerProperties.RevealFramesOtherUsers` | lib/actions.ts:119-164 | a call leaves every other user's row and every other user's pairs as they were |
| `LedgerProperties.MissingContactStillCharged` | lib/actions.ts:146-169 | a new reveal of an id that names no contact still adds one to the count and records the pair, and returns no data |
| `LedgerProperties.NewRevealStep` | lib/actions.ts:130-164 | one new reveal of a fresh pair at effective count k <= 50 returns count k+1 below 50 and `LIMIT_REACHED` at 50; the count becomes k+1 or stays k, and the ledger gains that pair when the reveal succeeds and is unchanged otherwise |
| `LedgerProperties.DayRun` | lib/actions.ts:130-174 | one user revealing distinct fresh contacts on one day from effective count k gets exactly the outcomes of the reference sequence `DayOutcomes`; the final count is min(50, k+n), and the ledger grows by exactly the number of successes |
| `LedgerProperties.DayRunLedger` | lib/actions.ts:141-164 | one user revealing distinct fresh contacts on one day from effective count k: the ledger afterwards is the ledger before plus exactly the pairs of the calls i with k+i < 50, so no call past the 50th records a pair |
| `LedgerProperties.DayOfNewReveals` | lib/actions.ts:130-174 | one user revealing distinct fresh contacts on one day from effective count k: call i returns count k+i+1 while k+i < 50, every later call returns `LIMIT_REACHED`, the final count is min(50, k+n), and the ledger afterwards is the ledger before plus exactly the pairs of the calls i with k+i < 50 |
| `Service.RevealService.GetUserUsage` | lib/actions.ts:212-233 | the method changes nothing and answers what `Ledger.UserUsage` does on the current tables |
| `Service.RevealService.UpsertReveal` | lib/actions.ts:152-164 | the ledger afterwards is the ledger before with the pair added, whether or not the pair was there; nothing else changes |
| `Service.RevealService.RevealContactDetails` | lib/actions.ts:90-175 | the outcome and the new tables are those of `Ledger.Reveal` on the old tables |
| `Listing.TotalPages` | lib/actions.ts:35 | the page count is the least n with n * pageSize >= total, that is, the total over the page size rounded up |
| `Listing.PageOf` | lib/actions.ts:40-41 | the page holds at most pageSize rows; row i of the page is row (page - 1) * pageSize + i of the query; the page is full unless it reaches the end; it is empty when the skip is past the end |
| `Listing.PagesArePrefix` | lib/actions.ts:40-41 | the first n pages, one after another, are the first n * pageSize rows, or all rows |
| `Listing.PagesCoverAllRows` | lib/actions.ts:35-41 | pages 1 to `totalPages`, one after another, are exactly all the rows in order |
| `Listing.NonEmptyPages` | lib/actions.ts:35-41 | a page is non-empty exactly when its number is at most `totalPages` |
| `Listing.ShowField` | lib/actions.ts:77-78 | a revealed field shows its value, or `N/A` when it is null or empty |
| `Listing.MaskContact` | lib/actions.ts:71-81 | a listed contact keeps its id; it is flagged revealed exactly when the pair is in the ledger; its email and phone are `****` unless it is revealed and found; otherwise they are the fields as `ShowField` shows them |
| `Listing.GetContacts` | lib/actions.ts:7-88 | no caller gives an empty listing with total 0 and 0 pages. Otherwise the total is the number of matching contacts, `totalPages` is that total over the page size rounded up, and entry i is the matching contact at skip + i, masked for the caller |
| `Listing.GetAgencies` | lib/actions.ts:177-198 | the total is the number of agencies. `totalPages` is the least n with n * pageSize >= total. The page holds at most pageSize agencies, and entry i is agency (page - 1) * pageSize + i. The page is full unless it reaches the end, and empty when the skip is past the end |
| `Listing.AgencyPagesCoverAll` | lib/actions.ts:179-184 | paging through `getAgencies` from page 1 to the `totalPages` it reports lists every agency exactly once, in order, and the page after the last is empty |
| `Listing.RevealUnmasks` | lib/actions.ts:46-81 | an unrevealed contact is listed with email and phone masked; after a call that returns a contact's data, the listing shows that contact as revealed with that data |
| `Listing.ListingUnchangedUnlessGranted` | lib/actions.ts:46-81 | a call that does not reveal a new contact leaves every user's listing of every contact unchanged |

## Left out

- Concurrency and atomicity: the ledger check (lib/actions.ts:95) and the upsert (152) are separate, non-transactional queries, so parallel requests can race. Only sequential calls are modelled. The ceiling is not claimed under parallel requests.
- Clock and time zones: `new Date()` and `isSameDay` are replaced by an abstract day supplied to each call.
- Database semantics: the case-insensitive `contains` search, the agency filter, `orderBy` and the `include`/`_count` joins of `getContacts` and `getAgencies`. The matching rows, in order, are given as a sequence. The public columns of a contact, which are copied unchanged, are not modelled. `getAllAgencies` is only such a query and is not modelled.
- The `progress` percentage of components/UsageCounter.tsx:18, because it is floating point.
- JavaScript numbers: counts, pages and page sizes are modelled as unbounded integers. Callers never pass fractional or non-positive page arguments.
- The default arguments `page = 1` and `pageSize = 20` of `getContacts` and `getAgencies`: every argument is passed explicitly in the model.
- UI rendering and React state (ContactsTable, Sidebar, Navigation, ThemeToggle, UpgradeDialog, layouts, input), and prisma/seed.ts, which reads files and parses CSV.
- MissingContactStillCharged: assumes the ledger accepts any contact id, because the Prisma schema is not part of this model. If `ContactReveal.contactId` has a foreign key to `Contact`, the upsert at lib/actions.ts:152 rejects after the increment at :146. The unit is then charged, but no pair is recorded and the call fails instead of returning `data: null`.
- Database failures: a store that cannot be reached would reject the request's promise. The model does not represent such failures.
