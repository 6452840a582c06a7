# Library catalog: loans, holds and request review

A Dafny model of the lending core of a small library web app. Patrons borrow media items
(books, audiobooks, DVDs, music CDs, magazines), renew them, return them and pay late fines.
They also place and cancel holds and suggest acquisitions, which librarians approve or reject.

- `models.dfy` (module `CatalogModels`) holds the records as datatypes and the rules attached to
  them. These are the loan period by media type, overdue and fine arithmetic, renewal, and the
  per-patron counters.
- `views.dfy` (module `CatalogViews`) holds the request handlers that change data. They are
  methods of a class `Library` whose fields are the database tables, each a sequence indexed by
  record id. `Library.Valid()` is the store invariant:
  - every reference in the loan, hold, request and fine tables points at an existing row (log
    entries are not constrained);
  - barcodes are unique;
  - renewals never exceed two;
  - an item has at most one open loan;
  - an item with an open loan is never marked available.

Conventions:
- Time is whole seconds. "Now" is a parameter of every operation.
- Python's `timedelta.days` is floor division by 86400 seconds.
- Money is whole cents. The late fee of 0.45 a day is 45 cents.
- The signed-in patron or librarian is passed in by id.
- A lookup that would answer "404" returns an error value and leaves the store unchanged. The
  exception is the item lookup inside the checkout loop (catalog/views.py:421). There, the items
  lent earlier in the same pass stay lent. That is because Django runs each query in autocommit
  mode unless `ATOMIC_REQUESTS` is set, and it is not set by default. The project's settings
  module is not part of this model.

## Model

| member | source | states |
|---|---|---|
| CatalogModels.LoanPeriodDays | catalog/models.py:90-95 | loan length is 7 days exactly for DVDs and CDs, 14 exactly for magazines, and 21 for every other type, including values outside the choice list |
| CatalogModels.LoanPeriodBounds | catalog/models.py:90-95 | every loan period is a positive whole number of weeks between 7 and 21 days |
| CatalogModels.FinePerDay | catalog/models.py:97-98 | the daily rate is the flat 45 cents whatever the item |
| CatalogModels.IsOverdue | catalog/models.py:111-113 | overdue exactly when the return time (once returned) or now (while open) is past the due date, by any amount |
| CatalogModels.CheckTime | catalog/models.py:111-117 | lateness is judged at the return time once the loan is returned, otherwise at now |
| CatalogModels.DaysOverdue | catalog/models.py:115-119 | zero when the check time is at or before the due date; otherwise the floor of the lateness in whole days (days·86400 ≤ lateness < (days+1)·86400); positive only when the loan is overdue |
| CatalogModels.OverdueWithoutWholeDay | catalog/models.py:111-119 | less than one day late: overdue is true while days overdue is zero, so the converse of "days > 0 implies overdue" fails |
| CatalogModels.DaysUntilDue | catalog/models.py:121-126 | the two clock reads are separate parameters: `t1` for the past-due test and `t2` for the difference. Zero once returned or when past due at `t1`; otherwise the floor of (due date − `t2`) in whole days |
| CatalogModels.DaysUntilDueAtOneInstant | catalog/models.py:121-126 | when both reads give the same time, the days until due are never negative |
| CatalogModels.DaysUntilDueBetweenReads | catalog/models.py:124-126 | with the second read at most a day after the first, the result is at least −1. It is −1 exactly when the loan is open and the due date falls at or after the first read and before the second |
| CatalogModels.CalculateFine | catalog/models.py:128-132 | the fine is zero exactly when no full day is late, and otherwise days late × 45 cents |
| CatalogModels.FineGrowsWithLateness | catalog/models.py:115-132 | for an open loan, later check times never give fewer days overdue or a smaller fine |
| CatalogModels.ThreeDaysLateExample | catalog/models.py:115-132 | a 7-day loan returned ten days after checkout is three days late and owes 135 cents |
| CatalogModels.CanRenew | catalog/models.py:134-137 | never once returned; otherwise exactly when renewals < 2 and now ≤ due date |
| CatalogModels.TryRenew | catalog/models.py:134-145 | succeeds exactly when not returned, fewer than 2 renewals and now ≤ due date; on success the due date is now + loan period (counted from now, not from the old due date), renewals go up by exactly one and nothing else changes; on failure the loan is unchanged |
| CatalogModels.RenewalsBounded | catalog/models.py:134-145 | over any run of renewal attempts the final renewal count is the initial one plus the successes, and it never exceeds 2 |
| CatalogModels.FreshLoanRenewsAtMostTwice | catalog/models.py:137-142 | a new loan can be renewed successfully at most twice, however often renewal is attempted |
| CatalogModels.Count | catalog/models.py:36-40 | the number of selected rows is at most the table size, and zero exactly when no row is selected |
| CatalogModels.CountAppend | catalog/models.py:36-40 | counting over two tables joined is the sum of the two counts |
| CatalogModels.CountUpdate | catalog/models.py:36-40 | replacing one row changes the count by what the new row contributes minus what the old row contributed |
| CatalogModels.CheckedOutCount | catalog/models.py:36-37 | counts only the patron's loans with no return time: zero exactly when the patron has no open loan |
| CatalogModels.HoldsCount | catalog/models.py:39-40 | counts only the patron's pending, ready and in-transit holds: zero exactly when there is none |
| CatalogModels.TotalFines | catalog/models.py:33-34 | sums only unpaid fines of the patron: zero when there is none, and at least each unpaid fine's amount |
| CatalogModels.TotalFinesAppend | catalog/models.py:33-34 | a new fine raises the balance by its amount when it is the patron's and unpaid, and leaves the balance unchanged otherwise |
| CatalogViews.FindByBarcode | catalog/views.py:462 | finds the item carrying the barcode, and fails exactly when no item carries it |
| CatalogViews.FindOpenLoan | catalog/views.py:463 | finds the first unreturned loan of the item, and fails exactly when the item has no open loan |
| CatalogViews.HasActiveHold | catalog/views.py:235 | the duplicate-hold query: a pending, ready or in-transit hold of the patron on the item, which the patron's hold count always includes |
| CatalogViews.NewHold | catalog/views.py:242-246 | a new hold is pending at the given queue position, placed now, with no pickup deadline and the default pickup location "Main Branch" |
| CatalogViews.QueuePosition | catalog/views.py:240 | a new hold's position is between 1 and the number of holds + 1, and is 1 exactly when nothing is pending on the item |
| CatalogViews.QueuePositionsCanRepeat | catalog/views.py:240-246 | positions are never repacked. With A at 1 and B at 2 pending, A cancels, and the next hold is again given position 2 |
| CatalogViews.Reviewed | catalog/views.py:540-543 | a review sets status, review time and reviewer and keeps every other field of the request |
| CatalogViews.ReviewIsLastWriterWins | catalog/views.py:540-543 | reviewing an already reviewed request leaves nothing of the first review: approval and rejection are not one-way |
| CatalogViews.ProcessedCount | catalog/views.py:420-421 | the checkout loop gets through exactly the ids before the first one that names no item |
| CatalogViews.LendableSound | catalog/views.py:420-422 | every lent id was submitted, names an item that was available beforehand, and is lent only once |
| CatalogViews.LendableComplete | catalog/views.py:420-422 | every submitted id that names an item available beforehand is lent |
| CatalogViews.NewLoan | catalog/views.py:423-428 | a new loan is due one loan period (at least 7 days) after now, is not returned and has no renewals |
| CatalogViews.NewLoansAt | catalog/views.py:420-428 | the pass creates exactly one loan per lent item, in lending order, each due now + that item's loan period |
| CatalogViews.MarkLentAt | catalog/views.py:420-430 | after a pass an item is checked out if it was lent and is otherwise exactly as before |
| CatalogViews.CloseLoanConsistent | catalog/views.py:465-479 | closing an item's open loan and marking it available keeps at most one open loan per item and no open loan on an available item, and leaves the item with no open loan |
| CatalogViews.Library.constructor | catalog/models.py:8-233 | a store holding the given tables, which satisfy the invariant, and an empty activity log |
| CatalogViews.Library.Renew | catalog/models.py:139-145 | reports CanRenew of the loan, and replaces only that loan with its renewed form |
| CatalogViews.Library.PatronRenew | catalog/views.py:200-216 | an unknown patron, or a loan not theirs, fails with nothing changed; otherwise the loan is renewed when the rules allow, and a renewal log entry is written only on success |
| CatalogViews.Library.LendItem | catalog/views.py:422-438 | for an available item: appends the new loan, marks the item checked out, appends a checkout log entry |
| CatalogViews.Library.CheckoutStep | catalog/views.py:420-438 | one loop iteration: lends the item exactly when it is available when its id comes up, extending each of the pass's three effects by that item |
| CatalogViews.Library.CheckoutPass | catalog/views.py:420-438 | the loop: stops at the first id naming no item; lends Lendable of the ids before it, and the tables become MarkLent, old loans + NewLoans, old log + LoanLog of what was lent |
| CatalogViews.Library.LibrarianCheckout | catalog/views.py:410-441 | unknown librarian or patron fails with nothing lent; otherwise the pass runs, and an id naming no item ends it with an error while what was lent before stays lent |
| CatalogViews.Library.ReturnItem | catalog/views.py:465-479 | the loan gets its return time and the item becomes available; the item is left with no open loan, and the patron's checked-out count drops by one |
| CatalogViews.Library.RecordFine | catalog/views.py:469-476 | a fine row is appended exactly when the amount is positive, and the patron's unpaid total rises by exactly the amount |
| CatalogViews.Library.CloseLoan | catalog/views.py:465-487 | the effects of checking in an item with an open loan: loan closed, item available, fine when positive, checkin log entry |
| CatalogViews.Library.LibrarianCheckin | catalog/views.py:452-502 | succeeds exactly when the librarian exists, the barcode names an item and the item has an open loan, with a distinct error for each failure and nothing changed on error. On success it has CloseLoan's effects with amount = CalculateFine, a fine row only when that amount is positive, and the report row; the item has no open loan afterwards, the patron's unpaid total rises by the fine and their checked-out count drops by one |
| CatalogViews.Library.PlaceHold | catalog/views.py:230-256 | succeeds exactly when patron and item exist and the patron has no pending, ready or in-transit hold on the item, with nothing changed otherwise. On success it appends a pending hold at position = pending holds on the item + 1, leaves the other holds untouched, logs it, and the patron's hold count goes up by one |
| CatalogViews.Library.CancelHold | catalog/views.py:258-274 | succeeds exactly on the patron's own hold. Only that hold's status changes, to cancelled, from whatever it was. Every queue position is unchanged. The active-hold count drops by one if the hold was active |
| CatalogViews.Library.ApproveRequest | catalog/views.py:535-553 | unknown librarian or request fails with nothing changed; otherwise the review fields are overwritten with approved, now and the librarian, and an approval is logged |
| CatalogViews.Library.RejectRequest | catalog/views.py:555-566 | as approval but with rejected, and without a log entry |

## Left out

- Password and PIN hashing and checking: a call into a hashing library; credentials are not modelled.
- Random card-number and barcode generation (catalog/models.py:29-31, catalog/views.py:359): nondeterministic. `UniqueBarcodes` in the store invariant mirrors the `unique=True` constraint on the barcode column (catalog/models.py:81): the database rejects a colliding insert.
- Web plumbing: sessions, login/logout/signup, `messages`, rendering and redirects. The "checked out N item(s)" message counts skipped items too; messages are not modelled.
- The search, catalog and patron list views, and the JSON search endpoints: database filters that change nothing.
- Adding and deleting items (`librarian_add_item`, `librarian_delete_item`), patron signup (`patron_signup`) and submitting a request (the POST branch of `patron_requests`): not among the handlers modelled. Because nothing is deleted, ids stay valid table indexes.
- The clock: `timezone.now()` is the parameter `now`, and every handler stamps all the rows it writes with that single `now`. In the source, each explicit `timezone.now()` and each `auto_now_add` stamp of a created row (a fine, a hold, a log entry) is a clock read of its own. Only timestamps differ, and no rule depends on them. The checkout loop reads the clock once per item; the model uses one `now` for the whole pass. `days_until_due` reads the clock twice, and `DaysUntilDue` models both reads (catalog/models.py:124, 126).
- TryRenew: `can_renew` and the new due date read the clock separately (catalog/models.py:137, 141); the model uses one `now` for both.
- NewLoan: `checked_out_at` is set by `auto_now_add` when the row is saved (catalog/models.py:106), after the due date has been computed from an earlier read (catalog/views.py:423); the model uses one `now` for both.
- Floating point: `0.45` and `round(…, 2)` become exact integer cents. The `DecimalField(max_digits=6)` bound on fine amounts is not modelled.
- Concurrency: the handlers' unguarded read-modify-write races between requests.
- Log descriptions and the newest-first ordering of the activity log: the log is an append-only sequence of entries, oldest first, with action, patron, item, librarian and time.
- Descriptive item fields (ISBN, description, genre, publisher, location, pages), the fine's reason text (catalog/models.py:205) and creation timestamps.
- The patron's account status and expiry are not checked by checkout in the source; the model does not check them either.
- Placing a hold does not look at the item's status in the source; neither does the model.
- Sample-data seeding, URL routing, admin and form configuration.

## Behaviour worth noting

- ReviewIsLastWriterWins: a second approve or reject overwrites the review fields of an already reviewed request (catalog/views.py:540-543, 560-563).
- TryRenew: the new due date is counted from now, not from the old due date (catalog/models.py:141).
- DaysOverdue: `timedelta.days` floors the lateness and never rounds it up (catalog/models.py:119).
- LoanPeriodDays: a media type outside the choice list can be stored, because the `librarian_add_item` view passes the submitted value straight through (catalog/views.py:364). Such an item gets 21 days; the model represents it as `Other(name)`.
