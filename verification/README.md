# Verified model of the construction-management backend and its browser code

A Dafny model of the repository's concurrent ledgers, cursor pagination, session handling,
maintenance script, CSV format, entity lifecycles and offline service worker, with proofs
about every run of each. `dafny verify dfyconfig.toml` checks all of it.

## How it is put together

One module a component, one file a module. Three shapes recur:

- **Code that changes state in place** is a class with the source's fields. Each method's
  contract ties the new value of the object to a function of the old one (`Exec`, `Handle`,
  `Atomic`, ...), and that function is what the lemmas about runs are about.
- **Protocols** are state machines. `Enabled` says when a step can happen, `Apply` what it
  does, `Exec` leaves the state alone when the step would have to wait, and `Run` folds a
  schedule, which is any sequence of steps. A statement about all schedules is a statement
  about every interleaving.
- **Parsers, printers and rounding** are functions, with the source's loops as methods proved
  equal to them.

| module | models |
|---|---|
| `Money` | half-up cent rounding |
| `LineItems`, `LineReplacement` | a batch line replace: resolving and numbering, and the interleaving of many under READ COMMITTED |
| `Ledger` | payments, voids and sends on a bill or an invoice, run alone and interleaved |
| `Pagination`, `Cursors` | the page routines, walks over a table others write to, the cursor codecs |
| `CursorHooks` | the browser's two list loaders and the supersession counter |
| `TabRefresh`, `Session` | token refresh across tabs, and one tab's session state |
| `Prune` | the retry loop that deletes tenants' rows under foreign keys |
| `Csv` | the catalog CSV parser and printer |
| `Estimates`, `Projects`, `Leads` | lifecycles over runs of requests |
| `Tenancy` | the company forest, entitlements, soft deletion |
| `DailyLogs` | idempotent deliveries |
| `AfterCommit` | the event bus, the request transaction and deferred sends |
| `ServiceWorker`, `OverlappingPrimes` | priming, pruning and serving the offline caches, one thing at a time and interleaved |

## Assumptions

- PostgreSQL under READ COMMITTED: a row lock is held to the end of the transaction; an
  insert waits for another transaction's uncommitted write at the same unique key and fails
  on a committed one; a DELETE works on its own statement snapshot and locks row by row.
- Whether the locked re-read of a bill or invoice overwrites the status the session had
  already loaded is up to the object-relational mapper. The comments of the handlers intend
  that it does; the queries do not ask for it, and SQLAlchemy then keeps the values of a row
  the session holds. `Ledger` takes it as a flag, `rereads`, and proves its results for both
  values, with what each depends on as an exact condition.
- Amounts on the wire are exact decimals, modelled as `real`; stored money is whole cents,
  modelled as unbounded `int` (the column's twelve digits are not enforced).
- A walk's requests may see any table at all, so every insertion, deletion and edit between
  them is covered; ids and creation times are compared as integers.
- Which texts `datetime.fromisoformat` and `uuid.UUID` accept is a parameter of `Cursors`.
- The clock of `ServiceWorker` does not run backwards. React state setters take effect at
  once, and the session provider stays mounted.

## Where the code and its own words disagree

- `backend/app/routers/bills.py:256-265` and its like in `invoices.py` rely on the locked read
  for a fresh status. Where it does not refresh the status already loaded, a payment still
  lands on a bill voided meanwhile (`Ledger.VoidedBillIsPaid`). `Ledger.FinalIff` says exactly
  when nothing lands on a settled document, `Ledger.RunIsSerialIff` exactly when a run is
  serial, for either behaviour. The bound on the sum paid holds regardless.
- `frontend/contexts/AuthContext.tsx:204-210` counts on an `unreachable` refresh leaving the
  cookie untouched. The refresh route deletes the cookie with every error it answers, its own
  502 for an unreachable backend included, so one backend restart during a refresh does end
  the session (`TabRefresh.SurvivesOnlySuccess`). Only a request that never reached the route
  is harmless (`TabRefresh.FailingLocallyIsHarmless`).
- `frontend/contexts/AuthContext.tsx:169-174` says a refresh begun before a session change is
  discarded. That holds for each CALL; the request itself restores the session when another
  call joined it after the change (`Session.EarlierRequestRestoresIff`).
- The company switch takes no lock (`frontend/components/app-shell/CompanySwitcher.tsx:65-98`).
  Sending it, or any refresh, is safe exactly while the cookie is unspent and no unanswered
  request carries it (`TabRefresh.SendingIsSafeIff`); a switch overlapping a refresh is not
  (`TabRefresh.SwitchDuringRefreshKillsTheSession`). Nor is one on its own whose answer is
  lost: its handler keeps the cookie on failure, which is then spent
  (`TabRefresh.SwitchAloneSafeIff`).
- `backend/app/routers/estimates.py:686-705` answers every overtaken replace with 409. A
  replace with NO lines has nothing to collide with and can be answered 200 while another
  writer's lines stay (`LineReplacement.CommitInstalls`, `EmptyReplaceCanBeLost`).
- An approved estimate can be sent again, and then rejected or approved a second time, with a
  second ESTIMATE_APPROVED (`Estimates.ApprovedIsNotFinal`); it stays as it is exactly while
  nobody sends it (`Estimates.ApprovedStaysIff`). And its total may be that of lines since
  replaced, of another markup profile than the one it is on, or of percentages its profile no
  longer has (`Estimates.OutOfDateExactlyWhen`, with `StaleTotalCanBeSigned`,
  `OldMarkupCanBeSigned` and `EditedMarkupCanBeSigned`).
- `backend/app/routers/projects.py:300-387` and `change_orders.py` take no lock.
  `Projects.SoundThroughoutIff` says, for any number of requests whose checks and writes
  interleave, exactly when a completed project is left with a pending order or
  PROJECT_COMPLETED is published a second time (`StaggeredCompletionsPublishTwice`), and
  `Projects.OverlapBreaksIff` names the harmful pairs; `Leads.WonOnceThroughoutIff` and
  `OverlapWinsOnceIff` are the like for LEAD_WON.
- `frontend/public/sw.js:22-27` bounds a served document's age by a day. With a store falling
  between a serve's lookup and its reading of the stamp, the old document goes out under the
  new stamp (`ServiceWorker.OldDocumentServedUnderNewStamp`; `ServedTooOldIff` says exactly
  when). And a prime that fails on an asset has already stored the document that names it
  (`ServiceWorker.FailedPrimeCloses`); one that overlaps another of a different build prunes
  the other's assets (`ServiceWorker.OverlappingPrimesCloseIff`; and for any number of them
  `OverlappingPrimes.CoveredThroughoutIff`).
- `frontend/lib/csv.ts:44-61` numbers the row it complains about among the non-blank lines. That
  is its line in the file exactly when no blank line precedes it (`Csv.BadRowInFile`); with
  one in front, line 3 is refused as row 2 (`Csv.ThirdLineIsRowTwo`).

## Model

| member | source | states |
|---|---|---|
| `Money.HalfUpExact` | backend/app/core/money.py:12-23 | the stored cents are the nearest to the exact amount, ties going away from zero, and no other value is |
| `Money.HalfUpLaws` | backend/app/core/money.py:12-23 | rounding leaves stored amounts alone, keeps order, mirrors signs and moves an amount by at most half a cent |
| `Money.RoundedSumDrift` | backend/app/routers/estimates.py:648-660 | n amounts rounded one by one sum to within n/2 cents of their exact sum |
| `Money.GuardAcceptsExactly` | backend/app/routers/bills.py:274-293 | the payment guard on the rounded amount accepts exactly the amounts less than half a cent above the balance, and what it accepts is never negative |
| `Money.RawGuardDiffers` | backend/app/routers/invoices.py:219-246 | a guard on the raw amount would differ on exactly the payments above the balance by less than half a cent |
| `LineItems.NumberLines` | backend/app/routers/estimates.py:642-683 | the line sent at index k becomes the row at position k, with its rate and its total rounded half up |
| `LineItems.Resolve` | backend/app/routers/estimates.py:553-634 | accepted exactly if every line resolves and no rate changed; refused for the first line that does not resolve, else with every changed rate in the order sent |
| `LineItems.NoConflicts` | backend/app/routers/estimates.py:579-612 | the collected conflicts are empty exactly when no line's expected rate differs from the catalog's |
| `LineItems.RowMeans` | backend/app/routers/estimates.py:614-660 | a row's rate is the catalog's for an item and the estimator's own otherwise, and its total the nearest cents to quantity times rate |
| `LineItems.ConflictsAreChangedRates` | backend/app/routers/estimates.py:579-612 | a conflict is reported exactly for each line made out for another rate than its item has now |
| `LineReplacement.RemovedAllOrNothing` | backend/app/routers/estimates.py:635-640 | in every reachable state a replace past its delete removed all current lines or met none of them |
| `LineReplacement.CommitInstalls` | backend/app/routers/estimates.py:635-712 | a commit leaves exactly its own payload if and only if the payload is not empty or its delete removed the current lines; else it changes nothing |
| `LineReplacement.ConflictExactlyWhenOvertaken` | backend/app/routers/estimates.py:684-705 | an insert is answered 409 exactly when there are lines and none the delete saw is left; it is so at position 0 only |
| `LineReplacement.StepKeeps` | backend/app/models/estimate_line_item.py:87-94 | every step of every replace keeps the invariant: the committed lines are one replace's, uncommitted deletes and inserts stay apart |
| `LineReplacement.NeverAUnion` | backend/app/routers/estimates.py:635-705 | in every interleaving of any number of replaces the committed lines read back as exactly one committed request's payload in its sent order |
| `LineReplacement.RefusedLeavesNothing` | backend/app/routers/estimates.py:684-705 | an overtaken replace, and one abandoned, end for good and change no line |
| `LineReplacement.AloneInstalls` | backend/app/routers/estimates.py:635-712 | with no other replace under way one always goes through, and the estimate then has its lines and no others |
| `LineReplacement.InsertWaitsIff` | backend/app/models/estimate_line_item.py:87-94 | an insert waits exactly while another replace has an unfinished insert or delete at its position |
| `LineReplacement.EmptyReplaceCanBeLost` | backend/app/routers/estimates.py:635-705 | a schedule in which a replace with no lines commits and another's lines stay |
| `Ledger.Document.constructor` | backend/app/routers/bills.py:124-140 | a new document has its amount rounded and nothing paid |
| `Ledger.Document.PaidAmount` | backend/app/routers/bills.py:46-50 | the sum over all payments |
| `Ledger.Document.RecordPayment` | backend/app/routers/bills.py:256-309 | refused, or the rounded amount is added and the status becomes paid when the amount is reached; nothing else changes |
| `Ledger.Document.VoidDocument` | backend/app/routers/bills.py:340-360 | refused when paid or void, else void; payments stay |
| `Ledger.Document.SendInvoice` | backend/app/routers/invoices.py:130-150 | 409 unless a draft, 422 without a due date given or stored, else sent and due |
| `Ledger.FreshDocument` | backend/app/routers/invoices.py:85-112 | a new bill is unpaid and takes payments up to its amount; a new invoice is a draft that takes none until sent |
| `Ledger.PaymentAccepted` | backend/app/routers/invoices.py:208-246 | a payment is refused on a draft, paid or void invoice, a paid or void bill, or where its nearest cents exceed what is left; else those cents are added last, and the document is paid exactly when nothing is left |
| `Ledger.VoidAccepted` | backend/app/routers/bills.py:340-360 | a void is refused on a paid or void document alone, and moves no money |
| `Ledger.SendAccepted` | backend/app/routers/invoices.py:130-150 | a draft alone is sent, with the due date given, else the stored one, else 422 |
| `Ledger.SweepFlags` | backend/app/tasks/flag_overdue_financial_records.py:30-46 | the sweep flags open documents due before today and nothing else |
| `Ledger.LoneRequest` | backend/app/routers/bills.py:237-309 | from any state with the lock free, a request with nothing in between does what its handler does alone, or is refused as it is, and frees the lock |
| `Ledger.DraftsAreUnpaid` | backend/app/routers/invoices.py:208-211 | in every interleaving, whatever the locked read returns, a draft invoice has no payments |
| `Ledger.StepKeeps` | backend/app/routers/bills.py:256-309 | every step of every request keeps: one lock holder, the sum within the amount, and what the holder is about to add fits |
| `Ledger.NeverOverpaid` | backend/app/routers/bills.py:237-309 | in every interleaving of payments, voids, sends and sweeps on a bill or invoice, whatever the re-read returns, the committed payments sum to between 0 and the fixed amount |
| `Ledger.RunFinal` | backend/app/routers/bills.py:268-272 | whatever the locked read returns and whoever holds the lock: with no request under way that passes its guard on what it sees, nothing about a paid or void document changes again |
| `Ledger.FinalIff` | backend/app/routers/bills.py:256-293 | paid and void are final, payments included, exactly when no request under way passes its guard on the status it sees, for either behaviour of the locked read and any lock holder |
| `Ledger.OnlySendsStayPending` | backend/app/routers/invoices.py:137-150 | with a true re-read only an unlocked send can still change a settled document |
| `Ledger.StaleRereadPaysVoided` | backend/app/routers/bills.py:256-272 | without the fresh status a payment that loaded the bill before a void lands after it |
| `Ledger.VoidedBillIsPaid` | backend/app/routers/bills.py:256-309 | and that happens from every fresh bill and every payment that fits, by a run from the start |
| `Ledger.RefusalIsAtomic` | backend/app/routers/bills.py:271-293 | a payment or void is refused exactly when it would be running alone on the document with the status it saw, which with a true re-read is the committed one |
| `Ledger.SendRefusal` | backend/app/routers/invoices.py:137-146 | a send is refused exactly when it would be running alone on the status and due date it loaded |
| `Ledger.SendWritesDueIff` | backend/app/routers/invoices.py:137-150 | a send writes the due date exactly if it brings another than it loaded, and a date committed meanwhile else stays |
| `Ledger.CommitIsAtomicIff` | backend/app/routers/bills.py:285-309 | a commit is one whole handler run on the committed document exactly if its handler accepts the committed status |
| `Ledger.RunIsSerialIff` | backend/app/routers/bills.py:237-309 | on bills and invoices, for either behaviour of the locked read, a run equals its committed handlers one after another in commit order exactly when every commit met a status its handler accepts |
| `Ledger.OnlySendsAreLate` | backend/app/routers/invoices.py:137-150 | with a true re-read only a send can commit too late |
| `Ledger.PaidExactlyWhenSettled` | backend/app/routers/bills.py:306-309 | throughout a run paid marks exactly the documents whose payments reach the amount, if and only if no void and no send commits onto a paid one |
| `Ledger.BillsAreSerial` | backend/app/routers/bills.py:237-309 | with a true re-read every interleaving on a bill is serial in commit order, and it is paid exactly when it has payments and they sum to the amount |
| `Pagination.Trim` | backend/app/core/pagination.py:114-126 | fetching one row more than the limit and trimming gives a page: the first rows past the cursor in order, and a next cursor exactly when rows remain |
| `Pagination.Paginate` | backend/app/core/pagination.py:105-126 | for every table, cursor and limit the result is such a page |
| `Pagination.PaginateResolved` | backend/app/routers/catalogs.py:446-461 | the in-memory routine gives a page by the same definition |
| `Pagination.PageIsChronological` | backend/app/core/pagination.py:101-112 | creation times never go down a page and ties go by ascending id, id-only pages go by ascending id, and the page lies after the cursor and before every row left for later |
| `Pagination.WalkIncreases` | backend/app/core/pagination.py:105-126 | whatever is written between requests, a walk's keys strictly increase up to the cursor in hand |
| `Pagination.WalkIsChronological` | backend/app/core/pagination.py:101-112 | the same of a whole walk, under any writes |
| `Pagination.WalkIsExact` | backend/app/core/pagination.py:105-126 | a finished walk answers for every key in exactly one request, and gives a row out exactly if that request's table held it |
| `Pagination.PresentThroughoutOnce` | backend/app/routers/catalogs.py:650-664 | a row whose key is there at every request, its other fields edited or not, comes exactly once |
| `Pagination.StillWalkIsSortedTable` | backend/app/core/pagination.py:105-126 | on a table nobody writes to, a finished walk is the sorted table, for every limit of at least 1, in as many requests as full pages need |
| `Pagination.StillWalkFinishes` | backend/app/core/pagination.py:105-126 | on such a table an unfinished walk has made fewer requests than there are rows, so every walk ends |
| `Pagination.IdsComeOnce` | backend/app/routers/catalogs.py:446-461 | while keys stay fixed no id comes twice |
| `Pagination.IdComesTwiceIff` | backend/app/core/pagination.py:105-126 | under any writes an id comes under two keys exactly when the requests that answered for those keys each found it there |
| `Pagination.MovedKeyComesTwice` | backend/app/core/pagination.py:78-104 | one walk in which that happens |
| `Pagination.IdMissedIff` | backend/app/core/pagination.py:105-126 | under any writes an id never comes exactly when no request found it under a key it answered for |
| `Pagination.MovedKeyIsMissed` | backend/app/routers/catalogs.py:406-425 | on pages of one, a row behind another that is moved before it between the requests is there at every request of a finished walk and never given out |
| `Cursors.Base64RoundTrip` | backend/app/core/pagination.py:59-63 | URL-safe base64 decoding undoes encoding on every byte string |
| `Cursors.UrlSafeAlphabet` | backend/app/core/pagination.py:59-61 | the digits are those of the URL-safe alphabet, most significant first |
| `Cursors.TestVectors` | backend/app/core/pagination.py:59-61 | test vectors of section 10 of RFC 4648 |
| `Cursors.EitherAlphabet` | backend/app/core/pagination.py:64-75 | the decoder takes the standard alphabet too |
| `Cursors.CompleteGroups` | backend/app/core/pagination.py:64-75 | a text of letters and digits decodes exactly if its groups of four are complete |
| `Cursors.OthersAreSkipped` | backend/app/core/pagination.py:64-75 | characters of neither alphabet make no difference |
| `Cursors.PaddingIsNeeded` | backend/app/core/pagination.py:64-75 | padding cut short is refused |
| `Cursors.BeyondAscii` | backend/app/core/pagination.py:64-75 | a character beyond ASCII is refused |
| `Cursors.CursorRoundTrip` | backend/app/core/pagination.py:59-75 | the composite cursor decodes to what was encoded exactly when the id has no separator |
| `Cursors.AcceptedIff` | backend/app/core/pagination.py:64-75 | a cursor is accepted exactly if it decodes to a time and an id that parse, split at the last separator |
| `Cursors.IdCursorRoundTrip` | backend/app/routers/catalogs.py:359-385 | the id-only cursor decodes to what was encoded |
| `Cursors.CursorsDiffer` | backend/app/core/pagination.py:59-63 | two different rows never share a cursor |
| `Cursors.KindsNotConfused` | backend/app/routers/catalogs.py:359-385 | if ids never hold a separator, no text is accepted by both decoders, so each refuses every cursor of the other kind |
| `Cursors.LastSeparator` | backend/app/core/pagination.py:64-75 | the split point is the last separator, or there is none |
| `CursorHooks.LatestOnly.Begin` | frontend/lib/use-latest-only.ts:58-65 | beginning makes the new ticket current and every earlier one not |
| `CursorHooks.WalkAll` | frontend/lib/use-cursor-list.ts:316-340 | the loop is a walk over the tables it met, holds its page concatenation in key order, stops only at the end or when tables run out, and on a table nobody writes to returns the sorted table |
| `CursorHooks.CursorAll.ResponseArrives` | frontend/lib/use-cursor-list.ts:323-352 | a current walk writes as specified and goes round again exactly after a page with a next cursor; a superseded one writes nothing |
| `CursorHooks.ShowsOneWholeWalk` | frontend/lib/use-cursor-list.ts:316-352 | in every interleaving of walks the items are one walk's complete concatenation, the latest's once it completed, a row there throughout comes once, and loading is the latest walk's |
| `CursorHooks.OnlyTheLatestWrites` | frontend/lib/use-cursor-list.ts:325-352 | a response changes what is shown only if its walk is the latest begun, and the list shown never goes back to an older walk |
| `CursorHooks.WalkLands` | frontend/lib/use-cursor-list.ts:316-352 | a walk with none begun beside it shows nothing until its last page and then its whole concatenation |
| `CursorHooks.FailureShows` | frontend/lib/use-cursor-list.ts:323-352 | a response that is no page ends the walk; the current one's reports it beside the unchanged list |
| `CursorHooks.SupersededReturns` | frontend/lib/use-cursor-list.ts:325-330 | a superseded walk returns at its next response and is never heard of again |
| `CursorHooks.CursorList.LoadBegins` | frontend/lib/use-cursor-list.ts:174-183 | a replacing load starts a new generation, an appending one keeps it |
| `CursorHooks.CursorList.ResponseArrives` | frontend/lib/use-cursor-list.ts:183-207 | replaces or appends in the current generation, drops anything else |
| `CursorHooks.CursorList.Disable` | frontend/lib/use-cursor-list.ts:209-228 | clears the list and starts a new generation |
| `CursorHooks.LoadShows` | frontend/lib/use-cursor-list.ts:174-239 | what a reload and a load more show while loading and after each response, and when they do nothing |
| `CursorHooks.ConfigureShows` | frontend/lib/use-cursor-list.ts:209-228 | turning the list off empties it, turning it on is a reload |
| `CursorHooks.StaleLoadChangesNothing` | frontend/lib/use-cursor-list.ts:174-228 | a load issued before a reload or a disable is dropped when it lands, whatever happened in between |
| `CursorHooks.GuardedListIsAWalk` | frontend/lib/use-cursor-list.ts:174-239 | with "load more" disabled while loading, the list is at all times what one walk from the first page gives |
| `CursorHooks.LoadMoreSafeIff` | frontend/lib/use-cursor-list.ts:230-233 | pressing "load more" can never put the list out of order exactly when nothing is loading |
| `TabRefresh.StepKeeps` | frontend/contexts/AuthContext.tsx:112-158 | every orderly step keeps: at most one request, the lock holder's, carrying the head token; an answer leaves the head as cookie |
| `TabRefresh.NeverTakenForReplay` | frontend/contexts/AuthContext.tsx:112-158 | for any number of tabs and any orderly interleaving at most one refresh is in flight, it carries the unspent head, and the reuse branch never fires |
| `TabRefresh.SafeIffCookieUnspent` | backend/app/services/refresh_tokens.py:99-151 | from rest no orderly run is ever taken for a replay exactly when the cookie is not a spent token |
| `TabRefresh.LoneRefresh` | frontend/app/(app)/api/auth/refresh/route.ts:20-50 | one tab's refresh from rest: a new token for the old one, which is then spent; the family revoked if the cookie was spent; no cookie after any failure |
| `TabRefresh.LoneSwitch` | frontend/app/(app)/api/auth/switch-company/route.ts:20-71 | a company switch from rest is served as a refresh is, but a failure leaves the cookie |
| `TabRefresh.ReplyMeans` | backend/app/services/refresh_tokens.py:99-151 | what a request is told in each case |
| `TabRefresh.OneRequestATab` | frontend/contexts/AuthContext.tsx:112-119 | a tab with a refresh in flight starts no other and sends it once |
| `TabRefresh.LostAnswerKillsTheSession` | backend/app/services/refresh_tokens.py:133-138 | an answer lost after the rotation: the next refresh of any tab revokes the whole family |
| `TabRefresh.WireSafeIff` | backend/app/services/refresh_tokens.py:122-151 | requests on the wire are never taken for replays, in any order of serving, exactly when none carries a spent token and no two the same |
| `TabRefresh.SendingIsSafeIff` | frontend/contexts/AuthContext.tsx:121-130 | with or without the lock, in every reachable state with a safe wire, sending one more refresh or switch is safe exactly when the cookie is unspent and no unanswered request carries it |
| `TabRefresh.SentFreeIsNeverReplayed` | frontend/contexts/AuthContext.tsx:112-158 | a run all of whose requests were sent so has no replay: any tabs, switches, lost answers, with or without the lock |
| `TabRefresh.SwitchAloneSafeIff` | frontend/app/(app)/api/auth/switch-company/route.ts:20-71 | a switch with nothing else in flight leaves the tabs safe for ever exactly if its answer is not lost |
| `TabRefresh.SwitchDuringRefreshKillsTheSession` | backend/app/routers/auth.py:516-573 | after any orderly run, a company switch overlapping a refresh revokes the family |
| `TabRefresh.TwoTabsRaceWithoutLocks` | frontend/contexts/AuthContext.tsx:121-130 | without the Web Locks API two tabs refreshing together revoke the family |
| `TabRefresh.SurvivesOnlySuccess` | frontend/app/(app)/api/auth/refresh/route.ts:41-50 | a delivered answer leaves a cookie, the head, exactly if the refresh succeeded; otherwise no later run of any tab has a session again |
| `TabRefresh.FailingLocallyIsHarmless` | frontend/contexts/AuthContext.tsx:97-107 | a request that never left the browser leaves the cookie the head and the lock free |
| `Session.Provider.CoordinatedRefresh` | frontend/contexts/AuthContext.tsx:112-158 | shares the promise in flight or starts one |
| `Session.Provider.ClearSession` | frontend/contexts/AuthContext.tsx:178-183 | new generation, timer cleared, token dropped |
| `Session.Provider.ScheduleRefresh` | frontend/contexts/AuthContext.tsx:191-195 | the timer set before is cleared and a new one set |
| `Session.Provider.SetSession` | frontend/contexts/AuthContext.tsx:227-235 | new generation, new token, new timer |
| `Session.Provider.HandleOnline` | frontend/contexts/AuthContext.tsx:279-294 | schedules only when there is no token |
| `Session.Provider.CallResumes` | frontend/contexts/AuthContext.tsx:196-224 | what a settled call does: nothing if its generation is over, else by outcome and by who called |
| `Session.KeepsRefreshing` | frontend/contexts/AuthContext.tsx:178-294 | in every run at most one timer is pending, and with a token, or unreachable, a timer or a refresh of the current generation is |
| `Session.TokenDropsExactlyWhen` | frontend/contexts/AuthContext.tsx:198-215 | a token is dropped exactly by a clear or by a refusal to a timer's call of the current generation; never because the server was unreachable |
| `Session.GenerationMovesExactlyWhen` | frontend/contexts/AuthContext.tsx:178-235 | a new generation starts exactly with a sign-in, a clear, a hydration that succeeds, or a refusal to a timer's call, current in both cases |
| `Session.SignInOutdatesRefreshes` | frontend/contexts/AuthContext.tsx:196-230 | after any run a sign-in's token stays through whatever was in flight, until the next sign-in, clear or timer |
| `Session.HydrationShows` | frontend/contexts/AuthContext.tsx:236-278 | what the refresh at the mount leaves, by outcome |
| `Session.SettledIsOver` | frontend/contexts/AuthContext.tsx:112-158 | a settled request is over and the next timer starts another |
| `Session.OnlineRetriesWithoutToken` | frontend/contexts/AuthContext.tsx:279-294 | after any run, online does nothing with a token and else puts a new timer in place of the old |
| `Session.OutcomeShows` | frontend/contexts/AuthContext.tsx:194-224 | a call of a past generation changes nothing; of the current one, success gives the new token and a timer, unreachable keeps the token and sets a timer, a refusal ends the session only for a timer's call |
| `Session.ClearedStaysCleared` | frontend/contexts/AuthContext.tsx:168-183 | after any run, a cleared session stays cleared until a sign-in or an online event |
| `Session.EarlierRequestRestoresIff` | frontend/contexts/AuthContext.tsx:112-119 | a request begun before the session ended restores it exactly when some call joined it since |
| `Session.ClearedSessionComesBack` | frontend/contexts/AuthContext.tsx:279-294 | after any run to a live idle session: timer, clear, online and its timer, and the old request restores the session |
| `Prune.Database.DeleteFrom` | backend/scripts/prune_dev_tenants.py:103-113 | one DELETE in a savepoint: removes exactly its rows and counts them, or breaks a foreign key and changes nothing; no row of another table, another company or none is touched; integrity is kept |
| `Prune.RefusedIffDangling` | backend/scripts/prune_dev_tenants.py:103-109 | with unique ids a DELETE is refused exactly when it would leave a foreign key dangling |
| `Prune.TargetsAreTheirs` | backend/scripts/prune_dev_tenants.py:102-113 | the rows to go are those of the given companies in the given tables |
| `Prune.BlockedBy` | backend/scripts/prune_dev_tenants.py:103-109 | half-way, a table is refused exactly if a row that stays points at its share or another pending table does |
| `Prune.StuckMeans` | backend/scripts/prune_dev_tenants.py:115-120 | a pass that clears nothing means an outside reference or a cycle of tables |
| `Prune.AllCleared` | backend/scripts/prune_dev_tenants.py:121-122 | clearing every table means neither, and exactly the target rows are gone |
| `Prune.Database.Pass` | backend/scripts/prune_dev_tenants.py:100-114 | one pass clears some pending tables, keeps integrity, and clears none only if every pending table is blocked |
| `Prune.Database.DeleteTenantRows` | backend/scripts/prune_dev_tenants.py:87-122 | always ends; succeeds, with exactly the target rows gone and counted, if and only if no row that stays points at one and the tables' target rows form no cycle; otherwise names a nonempty blocked set; either way every row of another company, of none or of another table stays, and on success none of the companies' is left in the tables; integrity is kept throughout |
| `Prune.TargetCompanies` | backend/scripts/prune_dev_tenants.py:44-62 | the least set holding the matching companies that is closed under children; whatever else is in it has its parent in it |
| `Csv.ParseLine` | frontend/lib/csv.ts:18-44 | the character loop yields the fields of the quoting grammar's scanner |
| `Csv.QuotesOpenAnywhere` | frontend/lib/csv.ts:22-41 | a quote may open anywhere in a field and what it encloses is literal |
| `Csv.UnclosedQuote` | frontend/lib/csv.ts:22-43 | a quote left open takes the rest of the line |
| `Csv.SerializeCatalog` | frontend/lib/csv.ts:72-80 | header and rows, escaped and joined |
| `Csv.FileGrowsByLine` | frontend/lib/csv.ts:72-80 | a file is the line category,name,unit,unit_rate and then a line for each row |
| `Csv.PlainRowPrinted` | frontend/lib/csv.ts:65-71 | fields without commas, quotes and line breaks are printed as they are |
| `Csv.RowLineReadsBack` | frontend/lib/csv.ts:65-71 | an escaped row scans back to its four fields, whatever commas, quotes and doubled quotes they hold |
| `Csv.RefusedForFirstBadRow` | frontend/lib/csv.ts:55-62 | rows are accepted exactly if each has four columns; else the first that has not is named with its number and count |
| `Csv.HeaderInAnyCase` | frontend/lib/csv.ts:50-53 | a header is recognised exactly if its four names are the columns', in any case and with space around |
| `Csv.RefusedAtOnce` | frontend/lib/csv.ts:46-53 | refused as empty exactly if every line is blank, and for its header exactly if the first line that is not blank is another |
| `Csv.EitherLineEnd` | frontend/lib/csv.ts:47 | a file parses alike with either line end |
| `Csv.BadRowInFile` | frontend/lib/csv.ts:46-61 | the row refused is the first data line of the file without four columns, numbered by the non-blank lines up to it, which is its line number exactly when no blank line precedes it |
| `Csv.BlankLineInFront` | frontend/lib/csv.ts:46-61 | a blank line in front moves every line of the file and changes no answer, so no number either |
| `Csv.ThirdLineIsRowTwo` | frontend/lib/csv.ts:55-61 | a file whose third line is refused as row 2 |
| `Csv.ParsedIsClean` | frontend/lib/csv.ts:46-63 | parsed fields are trimmed and without line breaks |
| `Csv.RoundTripExactly` | frontend/lib/csv.ts:46-80 | printing then parsing gives the rows back exactly when every field is trimmed and without line breaks |
| `Csv.OneCharacterFields` | frontend/lib/csv.ts:46-80 | the single characters that do not survive: white space and line breaks |
| `Csv.ReimportIsStable` | frontend/lib/csv.ts:46-80 | for every accepted text, parse of serialize of parse is parse |
| `Estimates.CalculateEstimate` | backend/app/services/estimate_calculation.py:138-166 | the subtotal is the lines' sum, the breakdown names every category once with its own lines' sum, and adds up to the subtotal |
| `Estimates.CategoryTotalAdds` | backend/app/services/estimate_calculation.py:138-166 | a line counts for its item's category, and as miscellaneous without an item or without a category |
| `Estimates.SubtotalAdds` | backend/app/services/estimate_calculation.py:138-166 | the subtotal is the sum of the lines' totals |
| `Estimates.TotalIsNearestCent` | backend/app/services/estimate_calculation.py:189-208 | the total is the nearest cent to the exact product, is the subtotal without markup, and does not depend on which percentage is which |
| `Estimates.SubtotalDrift` | backend/app/routers/estimates.py:648-660 | the subtotal of n lines is within n/2 cents of their exact price |
| `Estimates.MarkupProfiles.Create` | backend/app/routers/catalogs.py:530-557 | a new profile with its percentages; no other changes |
| `Estimates.MarkupProfiles.Patch` | backend/app/routers/catalogs.py:569-587 | 404 if unknown, else the percentages given are overlaid, whatever estimates use the profile |
| `Estimates.MarkupProfiles.Remove` | backend/app/routers/catalogs.py:590-612 | 404 if unknown, 409 while an estimate uses it, else gone |
| `Estimates.Estimate.ReplaceLines` | backend/app/routers/estimates.py:529-712 | refused by snapshot, status or lines, else the lines are the request's in order and nothing else changes |
| `Estimates.Estimate.CalculateTotals` | backend/app/routers/estimates.py:757-781 | refused by snapshot or status, else subtotal and total of the current lines are stored |
| `Estimates.Estimate.UpdateProfile` | backend/app/routers/estimates.py:298-316 | draft only, not stale, known profile |
| `Estimates.Estimate.DeleteRow` | backend/app/routers/estimates.py:332-341 | draft only |
| `Estimates.Estimate.SendForSignature` | backend/app/routers/estimates.py:908-919 | needs a total and nothing else |
| `Estimates.Estimate.ApproveWith` | backend/app/routers/estimates.py:1000-1030 | from sent, by the caller: signed, approved, snapshotted, one event |
| `Estimates.Estimate.RejectIt` | backend/app/routers/estimates.py:1099-1103 | from sent: rejected |
| `Estimates.FreshEstimate` | backend/app/routers/estimates.py:908-919 | a new estimate is an empty draft, and is not sent before it is priced |
| `Estimates.AbsentIsNotFound` | backend/app/routers/estimates.py:298-341 | a deleted estimate answers 404 to everything |
| `Estimates.ReplaceOutcome` | backend/app/routers/estimates.py:529-712 | 409 when snapshotted or sent, then 422 for an unknown item, then 409 for a changed rate; else the lines alone change, to the request's |
| `Estimates.CalculateOutcome` | backend/app/routers/estimates.py:757-781 | 409 when snapshotted or sent; else the two totals alone change |
| `Estimates.DraftOutcomes` | backend/app/routers/estimates.py:298-341 | who may change the profile and delete, and what is answered otherwise |
| `Estimates.SigningOutcomes` | backend/app/routers/estimates.py:908-1103 | what send, approve and reject ask for, answer and change |
| `Estimates.ProfileOutcomes` | backend/app/routers/catalogs.py:569-612 | an edit overlays one profile, a deletion is refused exactly while an estimate uses it; no estimate is touched |
| `Estimates.NewProfile` | backend/app/routers/catalogs.py:530-557 | a new profile is added as sent |
| `Estimates.EveryRun` | backend/app/routers/estimates.py:1027-1030 | over every run of estimate and profile requests snapshotted holds exactly when a signature is linked, only priced estimates leave draft and those are never deleted, the profile of a present one is never deleted, and subtotals stay within half a cent a line |
| `Estimates.SnapshotIsForEver` | backend/app/routers/estimates.py:529-552 | once snapshotted, lines, subtotal, total and profile never change and the row is never deleted |
| `Estimates.ApprovedAsSent` | backend/app/routers/estimates.py:1000-1030 | every approval approves the lines, total and profile of the last accepted send before it, since which the estimate was never anything but sent |
| `Estimates.OutOfDateExactlyWhen` | backend/app/routers/catalogs.py:569-587 | of all requests, subtotal and total go out of date exactly by a replace to another subtotal, a move to a profile that gives another total, or an edit of the own profile's percentages, at any status, that gives another total |
| `Estimates.CalculatePrices` | backend/app/routers/estimates.py:757-781 | an accepted calculation brings both up to date |
| `Estimates.OldMarkupCanBeSigned` | backend/app/routers/estimates.py:298-316 | any priced draft can be put on another profile, sent and signed at its old total, which is out of date exactly if the markups differ in effect |
| `Estimates.EditedMarkupCanBeSigned` | backend/app/routers/catalogs.py:569-587 | any priced draft can be signed at its old total with its profile edited before, between or after send and approval, and that total is out of date exactly if the new percentages give another |
| `Estimates.StaleTotalCanBeSigned` | backend/app/routers/estimates.py:908-919 | any priced draft can be emptied, sent and signed at its old total |
| `Estimates.OnlySendMovesApproved` | backend/app/routers/estimates.py:908-919 | of all requests exactly a send changes an approved estimate |
| `Estimates.ApprovedStaysIff` | backend/app/routers/estimates.py:908-919 | over every run an approved estimate ends as it was exactly if nobody sends it |
| `Estimates.ApprovedIsNotFinal` | backend/app/routers/estimates.py:908-919 | after any run to approved, a send then allows a rejection, or a second approval with a second event |
| `Projects.ButtonsAreLegalMoves` | frontend/lib/state-machines.ts:20-27 | the browser shows a move exactly if the backend accepts it |
| `Projects.AllowedExactly` | backend/app/routers/projects.py:300-356 | the cases in which each request is accepted, written out |
| `Projects.CountPendingCounts` | backend/app/routers/projects.py:341-348 | the count is the number of pending orders |
| `Projects.Project.PendingCount` | backend/app/routers/projects.py:341-348 | counts the pending orders; positive exactly if there is one |
| `Projects.Project.UpdateStatus` | backend/app/routers/projects.py:300-387 | legal moves only, completion only with nothing pending, one event at completion |
| `Projects.Project.Create` | backend/app/routers/change_orders.py:266-290 | active projects only; stored in cents, pending |
| `Projects.Project.Approve` | backend/app/routers/change_orders.py:457-480 | pending only, by the caller; linked to its signature |
| `Projects.Project.Reject` | backend/app/routers/change_orders.py:524-528 | pending only |
| `Projects.CompletedOnceWithNothingOpen` | backend/app/routers/projects.py:300-387 | over every run a completed or archived project has no pending order and had exactly one PROJECT_COMPLETED; any other had none |
| `Projects.ThroughPreConstruction` | backend/app/services/project_transitions.py:60-67 | in every run a project that is active or beyond went from draft to pre-construction and from there to active |
| `Projects.AgreedBySigner` | backend/app/routers/change_orders.py:457-480 | in every run an agreed order was approved with that signature by the signer in person |
| `Projects.DecisionsAreFinal` | backend/app/routers/change_orders.py:187-207 | a decided order, and any order's cost, never changes |
| `Projects.CreatedInCents` | backend/app/routers/change_orders.py:275-289 | a new order is stored at the nearest cent, pending, after the others, and nothing else changes |
| `Projects.OrdersSettledOnceDone` | backend/app/routers/change_orders.py:266-273 | once a project is done its orders never change |
| `Projects.SoundThroughoutIff` | backend/app/routers/projects.py:300-387 | for any number of requests whose checks and writes interleave in any way, nothing is open on a done project and PROJECT_COMPLETED is counted once for it, throughout, exactly when no write is late: no order created on a done project, no completion with one open or already completed, no other change into or out of being done |
| `Projects.CheckThenWrite` | backend/app/routers/projects.py:300-387 | a request with nothing between its check and its writes is the request run alone |
| `Projects.InTimeIfUnchanged` | backend/app/routers/projects.py:300-356 | a write is never late if the status its check saw still stands and, for a completion, no order was opened since |
| `Projects.StaggeredCompletionsPublishTwice` | backend/app/routers/projects.py:380-387 | a completion checked before a suspension and one checked after it both write, and two events are counted |
| `Projects.OverlapBreaksIff` | backend/app/routers/projects.py:300-387 | of two accepted requests that both check before either writes, exactly these break the invariant: a completion with a created order, either way, or with another change of status written after it |
| `Projects.TwoCompletionsPublishTwice` | backend/app/routers/projects.py:380-387 | two overlapping completions publish PROJECT_COMPLETED twice |
| `Projects.OverlapLeavesCompletedWithOpen` | backend/app/routers/projects.py:340-356 | every active project that could be completed can be left completed with a pending order |
| `Projects.DecisionOverwrittenIff` | backend/app/routers/change_orders.py:187-207 | a decision is overwritten exactly by an overlapping different one of the same order |
| `Projects.DecisionStandsIff` | backend/app/routers/change_orders.py:457-528 | for any number of interleaved requests a decision stands throughout exactly when no other decision of its order is written |
| `Leads.ButtonsAreLegalMoves` | frontend/lib/state-machines.ts:7-14 | the browser shows a move exactly if the backend accepts it |
| `Leads.Lead.SetFields` | backend/app/routers/leads.py:173-177 | the loop overlays exactly the fields given |
| `Leads.Lead.UpdateLead` | backend/app/routers/leads.py:139-212 | one outcome: everything asked for, or nothing |
| `Leads.UpdateMeans` | backend/app/routers/leads.py:139-212 | what an update comes to, with the moves written out |
| `Leads.WonOnceThroughThePipeline` | backend/app/routers/leads.py:145-212 | over every run LEAD_WON was published once if the lead is won and never otherwise, and a won lead passed every stage in order |
| `Leads.ClosedIsFinal` | backend/app/services/lead_transitions.py:48-65 | won and lost never change |
| `Leads.WonOnceThroughoutIff` | backend/app/routers/leads.py:145-212 | for any number of updates whose checks and writes interleave in any way, LEAD_WON is counted once for a won lead and never for another, throughout, exactly when no change of status lands on a lead already won |
| `Leads.CheckThenWrite` | backend/app/routers/leads.py:139-212 | an update with nothing between its check and its writes is the update run alone |
| `Leads.OverlapWinsOnceIff` | backend/app/routers/leads.py:145-212 | of two accepted updates that overlap, LEAD_WON stays once for a won lead exactly unless the first wins it and the second changes its status too |
| `Tenancy.RootIsTheOneWithoutParent` | backend/migrations/versions/0010_billing_schema.py:55-72 | the walk up finds exactly one company without a parent, the root |
| `Tenancy.Platform.RootCompanyId` | backend/migrations/versions/0010_billing_schema.py:55-72 | the loop ends at the root |
| `Tenancy.Platform.IsCompanyLive` | backend/migrations/versions/0024_tenant_lifecycle.py:125-143 | the loop decides liveness; unknown companies are not live |
| `Tenancy.Platform.IsModuleAllowed` | backend/app/core/tier_gating.py:92-104 | override of the root, else tier of the root, else open |
| `Tenancy.Entitlements` | backend/app/routers/platform_tenants.py:117-145 | the console's list: one line a module with tier, override and effect |
| `Tenancy.EveryModuleListed` | backend/app/core/tier_gating.py:45-51 | the list has every module once |
| `Tenancy.Platform.Register` | backend/app/routers/platform_tenants.py:266-297 | accepted for a new company: a root with its subscription, at the standing given |
| `Tenancy.Platform.CreateChild` | backend/app/routers/companies.py:225-263 | only under a live company in good standing whose tree has the module |
| `Tenancy.Platform.DeactivateTenant` | backend/app/routers/platform_tenants.py:568-600 | flags the row, once |
| `Tenancy.Platform.RestoreTenant` | backend/app/routers/platform_tenants.py:603-633 | unflags the row, once |
| `Tenancy.Platform.SetModuleOverride` | backend/app/routers/platform_tenants.py:413-466 | roots only |
| `Tenancy.Platform.ClearModuleOverride` | backend/app/routers/platform_tenants.py:469-514 | roots only, and only if set |
| `Tenancy.AcceptedExactly` | backend/app/routers/companies.py:225-263 | the cases in which each request is accepted, written out, with the plans and standings that count |
| `Tenancy.RootsNeverChange` | backend/migrations/versions/0021_company_parent_immutable.py:60-92 | over every run companies stay a forest, each walk ends at one root, which holds the subscription, and no later run changes it |
| `Tenancy.NewBranchJoinsItsTree` | backend/app/routers/companies.py:225-263 | a new branch is live, in its parent's tree, with exactly the modules the tree may use; no other company changes |
| `Tenancy.NewTenantStandsAlone` | backend/app/routers/platform_tenants.py:266-297 | a new tenant is its own root, live, has exactly its tier's modules, and may write exactly if trialing or active; no other company changes |
| `Tenancy.GateAgreesWithConsole` | backend/app/core/tier_gating.py:83-104 | the request gate and the console's list agree for every company and module, and for all branches of a tree alike |
| `Tenancy.OverrideDecidesItsTree` | backend/app/routers/platform_tenants.py:413-466 | an override decides its module for exactly the companies of its tree |
| `Tenancy.ClearingDefersToTheTier` | backend/app/routers/platform_tenants.py:469-514 | clearing gives exactly that back to the tier |
| `Tenancy.PlanDecidesItsTree` | backend/app/core/tier_gating.py:43-51 | a change of plan decides every module without override for exactly its tree: starter none, pro estimation and compliance, enterprise all |
| `Tenancy.StandingDecidesItsTree` | backend/app/core/deps.py:200-210 | a change of standing decides who may write for exactly its tree: trialing and active alone |
| `Tenancy.UpgradeOnlyAdds` | backend/app/core/tier_gating.py:43-51 | a higher tier withholds nothing from anyone, and changes nothing where an override stands |
| `Tenancy.LiveIff` | backend/migrations/versions/0024_tenant_lifecycle.py:125-143 | live exactly when some set with the company and every member's parent is all in service |
| `Tenancy.DeactivateTakesTheSubtree` | backend/app/core/deps.py:117-130 | deactivation takes out exactly the company and its descendants |
| `Tenancy.RestoreBringsBack` | backend/app/routers/platform_tenants.py:603-633 | after a restore a company is live exactly if nothing else above it is out of service |
| `Tenancy.RestoredAsItWas` | backend/app/routers/platform_tenants.py:568-633 | deactivate, then anything but deactivations and restores, then restore: everyone is live exactly if they were |
| `DailyLogs.DailyLogTable.FindExisting` | backend/app/routers/projects.py:737-747 | finds the row holding the key, if any |
| `DailyLogs.DailyLogTable.CreateDailyLog` | backend/app/routers/projects.py:735-773 | returns the row there, or appends one with what was sent |
| `DailyLogs.WritesWhatWasSent` | backend/app/routers/projects.py:735-773 | 404 for a project not visible; a delivery without a key, and the first of a key in its company, writes what was sent and is answered with it; any other writes nothing |
| `DailyLogs.ReplayReturnsFirst` | backend/app/routers/projects.py:737-749 | every replay, however late, gets the answer the first delivery got, with its project, content and key, and writes nothing |
| `DailyLogs.ReplayingIsDeduplicating` | backend/app/routers/projects.py:735-773 | any sequence of deliveries ends as its de-duplicated sequence does, with at most one row a (company, key) |
| `DailyLogs.OverlappingDeliveriesWriteOnce` | backend/migrations/versions/0034_daily_log_client_reference.py:53-62 | in every interleaving, rollbacks included, at most one row a (company, key), and every answer is a stored row of its own key |
| `DailyLogs.FailsExactlyWhenOvertaken` | backend/app/routers/projects.py:735-773 | a delivery fails on the unique index exactly when another of its key committed after it looked, and a retry is then answered |
| `DailyLogs.UnhinderedDelivery` | backend/app/routers/projects.py:735-773 | a delivery no uncommitted insert of its key stands in the way of goes through whatever else is under way, and leaves nothing if rolled back |
| `DailyLogs.OverIsOver` | backend/app/routers/projects.py:735-773 | a delivery answered, failed or rolled back stays so |
| `AfterCommit.Backend.Register` | backend/app/core/events.py:50-53 | appends for its event, touches no other |
| `AfterCommit.Backend.RunBody` | backend/app/services/estimate_approved_handler.py:130-150 | a route or handler runs its own work and what it publishes, handlers of nested events in their place, up to the first that raises |
| `AfterCommit.Backend.PublishEvent` | backend/app/core/events.py:73-80 | runs the handlers in order, with all they publish themselves, up to the first that raises, and reports whether one did |
| `AfterCommit.Session.EnqueueAfterCommit` | backend/app/core/after_commit.py:52-60 | queues at the end |
| `AfterCommit.Backend.RunAfterCommit` | backend/app/core/after_commit.py:63-79 | attempts all that was queued, once each, in order, whatever raises; work queued meanwhile is left unrun |
| `AfterCommit.Backend.ServeRequest` | backend/app/core/deps.py:94-155 | all a request's writes, its route's and its handlers', and then its sends, or none of either |
| `AfterCommit.UncommittedLeavesNothing` | backend/app/core/deps.py:137-155 | a request refused before its route, or whose commit did not return, leaves the state as it was |
| `AfterCommit.OwnWorkCommits` | backend/app/core/deps.py:137-155 | a committed route's writes are stored and its sends attempted, or nothing if it raises |
| `AfterCommit.SubscribedHandlersRun` | backend/app/core/events.py:50-80 | two handlers subscribed one after the other both run on the event, in that order |
| `AfterCommit.InOrder` | backend/app/core/events.py:73-80 | each piece of work's writes and sends are its own, and several pieces' come one after the other |
| `AfterCommit.SentIsWhatWasCommitted` | backend/app/core/deps.py:137-155 | over every run, stored writes and attempted sends are those of the routes and handlers of requests whose commit returned, in order |
| `AfterCommit.OnlyCommittedCount` | backend/app/core/deps.py:137-155 | a run equals the run without the requests that were refused or whose commit did not return |
| `AfterCommit.LostAreTheRaising` | backend/app/core/after_commit.py:63-79 | the sends lost are those that raise, as often as attempted |
| `AfterCommit.UnrunWasQueuedBySends` | backend/app/core/after_commit.py:63-79 | what is left unrun is what sends queued |
| `AfterCommit.NothingFromWhatRaised` | backend/app/core/events.py:73-80 | nothing that raised, route or handler, has a write stored or a send attempted |
| `ServiceWorker.Worker.PutDocument` | frontend/public/sw.js:120-125 | stores the document and its stamp |
| `ServiceWorker.Worker.CacheAssets` | frontend/public/sw.js:160-170 | stores every asset that can be fetched, and succeeds exactly if all are then there |
| `ServiceWorker.Worker.PruneStaticCache` | frontend/public/sw.js:185-192 | keeps exactly the stored assets named |
| `ServiceWorker.Worker.FreshCachedDocument` | frontend/public/sw.js:224-238 | serves within a day of the stamp, else forgets the document and its stamp |
| `ServiceWorker.Worker.HandleNavigation` | frontend/public/sw.js:240-284 | network first; stores what is cacheable, falls back to the cache only when the network fails |
| `ServiceWorker.Worker.PrimeDocuments` | frontend/public/sw.js:301-333 | after ok every allow-listed path is stored and stamped with every asset it names, and pruning left exactly those and the page's list; a failed prime removes no asset |
| `ServiceWorker.ServedWithinADay` | frontend/public/sw.js:224-238 | after any run of events one at a time, what is served is an allow-listed document stored no more than a day before |
| `ServiceWorker.NavigationStores` | frontend/public/sw.js:258-284 | online, a document is stored exactly if allow-listed, ok, not redirected and HTML |
| `ServiceWorker.StoredForADay` | frontend/public/sw.js:224-284 | what was stored is served offline for a day and then forgotten with its stamp |
| `ServiceWorker.MatchThenCheck` | frontend/public/sw.js:224-238 | the two steps of a serve with nothing in between |
| `ServiceWorker.StoredThenServed` | frontend/public/sw.js:120-125 | step by step too a stored document is served for a day, and not after a clear |
| `ServiceWorker.PrimeSucceedsIff` | frontend/public/sw.js:301-333 | a prime succeeds exactly if both documents come as asked for, with all assets stored or to be had |
| `ServiceWorker.PagesKeepAssets` | frontend/public/sw.js:240-256 | build output a page asked for is kept if it could be had; clearing forgets everything |
| `ServiceWorker.PrimeCloses` | frontend/public/sw.js:301-333 | after a successful prime every stored document's assets are in the static cache, whatever was there before |
| `ServiceWorker.FailedPrimeCloses` | frontend/public/sw.js:301-333 | a failed prime keeps closed caches closed exactly if no asset was the reason |
| `ServiceWorker.NavigationClosesIff` | frontend/public/sw.js:271-282 | a navigation that stores its document keeps them closed exactly if its assets are already cached |
| `ServiceWorker.PruningClosesIff` | frontend/public/sw.js:185-192 | pruning keeps them closed exactly if it keeps every asset a stored document names |
| `ServiceWorker.OverlappingPrimesCloseIff` | frontend/public/sw.js:301-333 | a prime within another's, both ok: closed at the end exactly if the outer keeps all the inner's documents name |
| `OverlappingPrimes.AloneIsAtomic` | frontend/public/sw.js:301-333 | the steps of a prime with nothing in between are the whole prime |
| `OverlappingPrimes.CoveredThroughoutIff` | frontend/public/sw.js:301-333 | for any number of primes and page events interleaved in any way, every stored document has its assets, or a prime still to fetch them or that failed to, throughout, exactly when no pruning drops a needed asset and no navigation stores a document whose assets nothing has or fetches |
| `OverlappingPrimes.OneBuildCloses` | frontend/public/sw.js:172-192 | primes of one build leave the caches closed, however they interleave, whenever none is fetching assets and none failed to |
| `ServiceWorker.ServedTooOldIff` | frontend/public/sw.js:224-238 | in every interleaving a serve gives a document out more than a day after the stamp it had when matched exactly if a stamping no more than a day old came between and still stands |
| `ServiceWorker.ServedFreshUnlessRestamped` | frontend/public/sw.js:224-238 | a serve with no stamping in between gives its document out within a day of its stamp, in every interleaving |
| `ServiceWorker.OldDocumentServedUnderNewStamp` | frontend/public/sw.js:120-125 | a store between match and check: the old document is served, whatever its age |

## Left out

- Authentication by token and header, roles, row-level security, request parsing, 404s for
  rows of other tenants: plumbing around the modelled handlers.
- The overdue sweep is one atomic step of `Ledger`; accounting sync, e-mail, PDF rendering
  and Stripe are not part of this model.
- Estimate and tenant requests are taken one at a time. Project and lead requests interleave,
  each with its reads and checks as one step and its writes as another.
- `ServiceWorker` and `OverlappingPrimes` take a document and its stamp as stored together
  (but for the serves of one path), a document's assets as cached in one step, and a pruning
  as one step.
- The rounding of quantities and rates on their own columns, and the 28-digit context of
  Python's decimals, before a line's total is computed.
- The order of the category breakdown (by name) in a calculation's response.
- Expiry clocks and hashing of refresh tokens: an expired token is one of the backend's
  possible answers. Signing in again and signing out, which start and end a family, are not
  steps of `TabRefresh`.
- Unmounting the session provider, and `isHydrating`.
- `useCursorAll` without a token or disabled, which begins no walk; callers' own edits to the
  items through `setItems`; abandoned React renders.
- Reading asset URLs out of a document's markup, the deletion of outdated cache versions at
  activation, and URL resolution: `ServiceWorker` takes asset names as given.
- Foreign keys with ON DELETE actions, and the deletion of users and companies themselves:
  `Prune` covers the NO ACTION retry loop and the choice of companies.
- Python's recursion limit is counted in nested publications, and reaching it raises.
- Users, seats, billing identifiers, branding and the BOM routes.
- The page size limits and the filters of list routes.
