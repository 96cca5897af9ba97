# ff-dashboard appointment and EMR-access core, in Dafny

This project models the appointment / EMR-access workflow of the ff-dashboard hospital dashboard.
It also models the service-health summary on the dashboard's home page.

- **The appointment row.** An appointment row of `hospitals_appointments` carries a booking part and an EMR-access sub-state:
  - the one-time passcode (OTP): its code, expiry, verification and sent-to-owner flags;
  - read access, granted by a verified OTP;
  - write access, active during a consultation;
  - revocation.

  Each mutation hook in `src/hooks/useDatabase.ts` sends one update for one row. Module `AppointmentRow` gives each update as a function from the old row to the new one. It states which columns each update writes and that every other column group stays the same. It also shows that each update keeps the relations between EMR columns (`EmrConsistent`). Module `Database` holds the table as a class over a map from id to row. It has one method per hook. A missing row is an error, as `.single()` makes it. A rejected OTP writes nothing. The module also has the read-side join that attaches pet, owner and doctor records.
- **The appointments page.** Module `AppointmentsPage` models `src/app/core/appointments/page.tsx`:
  - the unified pet/owner search, with the remote query answers as inputs. The two `forEach` map-filling loops are a method proved against a specification function. Lemmas cover deduplication, the last record winning, owner pairing, and the ids of the final owner lookup.
  - the booking dialog, as a class. It covers validation order, the inserted row, slot and staff/date rules, and the reset after a booking.
  - the future-date start guard.
  - the OTP dialog, as a class. It trims what the user types, and a failure leaves the dialog as it was.
  - the row-action visibility predicates.
  - the case-insensitive text filter.
  - `formatTime`.
- **The dashboard.** Module `Dashboard` models `src/app/page.tsx`. It classifies a health probe as ONLINE, ERROR or OFFLINE and computes the summary counts. It also filters by category, keeps per-tab counts and refreshes a single card.
- **Shared helpers.** Module `Common` holds the JavaScript behaviour the code relies on:
  - the truthiness of text;
  - `toLowerCase` and `includes`;
  - `trim` and `parseInt`;
  - `%`, which truncates toward zero;
  - number-to-text conversion and `Array.prototype.find`.

  Module `Directory` holds pet and profile records and the semantics of a JavaScript `Map` built from a list: a later `set` replaces the value, while the key keeps its first insertion position.

Conventions:
- An identifier or text column that is `null` is the empty string, which JavaScript treats as falsy.
- The OTP code column is an `Option`, because the code compares it with `!==`.
- Timestamps are integers in milliseconds. Calendar days are integer day numbers. A date that is empty or unparsable is `None`.
- The clock is a parameter (`now`, `today`). So is the identifier the store assigns on insert.
- The OTP is a nondeterministic choice in 100000..999999, written in decimal.

The EMR-access workflow suggests two invariants: write access is active only on a verified row, and a revoked row never has active write access. The code does not enforce either, and the model follows the code. The lemmas below exhibit where behaviour departs from what the workflow suggests:
- `useStartConsultation` has no guard. It does not check status, verification, write access already being active, or revocation. So neither invariant holds. See `AppointmentRow.StartWithoutVerification` and `AppointmentRow.StartAfterRevocation`. The only start guard the page enforces is the future-date check. No "Start Consultation" button is rendered at all: the condition at `src/app/core/appointments/page.tsx:391` is only logged.
- `useCancelAppointment` cancels from any status, completed included (`AppointmentRow.CancelFromAnyStatus`). The Cancel button is shown only for scheduled or confirmed rows.
- Issuing a new code does not reset the verified flag (`AppointmentRow.ReissueKeepsVerification`). Neither hook checks for an outstanding code.

## Model

| member | source | states |
|---|---|---|
| AppointmentRow.Inserted | src/hooks/useDatabase.ts:838-842 | the inserted row has the given id and an empty number, copies every payload column, and leaves every timestamp, the code, its expiry, the revoker and the revocation reason unset |
| AppointmentRow.Cancel | src/hooks/useDatabase.ts:888 | status becomes cancelled; every other column group is unchanged; EMR consistency is kept |
| AppointmentRow.GenerateOtp | src/hooks/useDatabase.ts:937-946 | stores the code with expiry now + 24 h and grants access; not marked as sent, and sent-at is not written; status, booking, verification, write access and revocation are unchanged |
| AppointmentRow.SendOtp | src/hooks/useDatabase.ts:972-982 | as GenerateOtp, but marked as sent to the owner, with sent-at = now |
| AppointmentRow.CheckOtp | src/hooks/useDatabase.ts:1019-1036 | succeeds iff the stored code equals the submitted one and the expiry is absent or not before now; a wrong code gives "Invalid OTP code", checked before expiry; a correct code past expiry gives "OTP has expired"; success sets the verified flag, verified-at and read-access-at, and nothing else |
| AppointmentRow.StartConsultation | src/hooks/useDatabase.ts:1061-1064 | status becomes in-progress, write access becomes active and started-at = now, whatever the prior state; nothing else changes |
| AppointmentRow.EndConsultation | src/hooks/useDatabase.ts:1090-1093 | status becomes completed, write access becomes inactive and ended-at = now; nothing else changes |
| AppointmentRow.Revoke | src/hooks/useDatabase.ts:1127-1133 | sets revoked, revoked-at and revoked-by; the reason is replaced only when one is given; write access is forced off; status and every other group are unchanged |
| AppointmentRow.StartWithoutVerification | src/hooks/useDatabase.ts:1054-1078 | starting makes write access active on a row that was never verified |
| AppointmentRow.StartAfterRevocation | src/hooks/useDatabase.ts:1054-1078 | starting after a revocation makes write access active again while the row stays revoked |
| AppointmentRow.ReissueKeepsVerification | src/hooks/useDatabase.ts:966-1001 | sending or generating a new code keeps an earlier verification |
| AppointmentRow.CancelFromAnyStatus | src/hooks/useDatabase.ts:881-901 | a completed appointment can be cancelled |
| AppointmentRow.OtpCodeOf | src/hooks/useDatabase.ts:937 | every number in 100000..999999 is written as six digits, the first not '0', that read back as the number |
| Database.AppointmentsTable.CreateAppointment | src/hooks/useDatabase.ts:833-851 | inserts the row under a fresh id; an existing id is a store error that changes nothing; ids stay keys of their rows |
| Database.AppointmentsTable.CancelAppointment | src/hooks/useDatabase.ts:881-901 | a missing row is an error with no change; otherwise only that row becomes Cancel(row), which is returned; consistency is preserved |
| Database.AppointmentsTable.GenerateEmrOtp | src/hooks/useDatabase.ts:931-959 | only that row is updated by GenerateOtp, with a six-digit code |
| Database.AppointmentsTable.SendOtpToOwner | src/hooks/useDatabase.ts:966-1001 | only that row is updated by SendOtp, with a six-digit code |
| Database.AppointmentsTable.VerifyEmrOtp | src/hooks/useDatabase.ts:1006-1049 | a missing row or a rejected code leaves the table unchanged and reports why; otherwise only that row is updated to the verified row |
| Database.AppointmentsTable.StartConsultation | src/hooks/useDatabase.ts:1054-1078 | only that row is updated by StartConsultation |
| Database.AppointmentsTable.EndConsultation | src/hooks/useDatabase.ts:1083-1107 | only that row is updated by EndConsultation |
| Database.AppointmentsTable.RevokeEmrAccess | src/hooks/useDatabase.ts:1112-1147 | only that row is updated by Revoke |
| Database.AttachDetails | src/hooks/useDatabase.ts:732-761 | one entry per appointment (none for none), in order |
| Database.AttachDetailsSpec | src/hooks/useDatabase.ts:749-761 | entry i keeps appointment i. Its pet is present iff a fetched pet has that id, and is then the last one; likewise the owner. The doctor is absent when the appointment names none, and otherwise is the last fetched profile with that id |
| Directory.LookupIsLast | src/hooks/useDatabase.ts:749-751 | a Map built from a list finds a key iff some element has it, and holds the last such element |
| Directory.KeysInOrderSpec | src/app/core/appointments/page.tsx:120-126 | the Map's keys in insertion order are distinct and are exactly the truthy keys of the list |
| Directory.KeysInFirstOccurrenceOrder | src/app/core/appointments/page.tsx:120-126 | the Map's keys come in first-insertion order: every occurrence of a later key is preceded by an occurrence of each earlier key |
| Directory.ValuesInOrderSpec | src/app/core/appointments/page.tsx:120-126 | the Map's values have distinct, truthy keys; every truthy key is represented; each value is the last element with its key; the values line up with the keys in first-insertion order, the a-th value having the a-th key |
| AppointmentsPage.TruthyKeys | src/app/core/appointments/page.tsx:108 | the owner-id list holds exactly the truthy ids of the matched owners |
| AppointmentsPage.UnifiedSearch | src/app/core/appointments/page.tsx:72-166 | a query shorter than two characters gives no results and issues no lookup; otherwise the pet search is issued first |
| AppointmentsPage.FillMap | src/app/core/appointments/page.tsx:120-126 | the forEach loop leaves the insertion-ordered keys and the map of truthy keys, each holding its last element |
| AppointmentsPage.MergeById | src/app/core/appointments/page.tsx:120-126 | the pets read back from the map are one per truthy pet id, in first-insertion order, each the last record with its id |
| AppointmentsPage.PerformUnifiedSearch | src/app/core/appointments/page.tsx:72-166 | the page's loops issue the same lookups and produce the same results as the specification UnifiedSearch |
| AppointmentsPage.MergedPetsSpec | src/app/core/appointments/page.tsx:120-126 | merged pets have distinct, present pet ids; every returned pet with an id is represented; an owner-derived record replaces a text match |
| AppointmentsPage.PairSpec | src/app/core/appointments/page.tsx:146-158 | each pet is paired with the last fetched owner with its owner id; the owner is absent iff the pet has no owner id or no such owner was fetched |
| AppointmentsPage.OwnerLookupSpec | src/app/core/appointments/page.tsx:135-143 | the owner query asks for each distinct owner id of the merged pets, and nothing else |
| AppointmentsPage.ValidateCreate | src/app/core/appointments/page.tsx:423-462 | refuses unless pet, owner, entity, staff member and assignment, and time are all set, with errors in the page's order; the payload is scheduled, booked via "hospital-online", has all five EMR flags false, and the doctor is the chosen staff member |
| AppointmentsPage.StaffChanged | src/app/core/appointments/page.tsx:1055-1064 | the assignment is set; employee and doctor ids come from the first staff entry with that assignment, or are empty; the time is cleared; entity, date and the rest are kept |
| AppointmentsPage.DateChanged | src/app/core/appointments/page.tsx:1152-1156 | the date is set and the time cleared; nothing else changes |
| AppointmentsPage.SlotClicked | src/app/core/appointments/page.tsx:1189-1195 | an unavailable slot changes nothing; an available one sets the time and nothing else |
| AppointmentsPage.ChangeRequiresNewSlot | src/app/core/appointments/page.tsx:1055-1064 | after a staff or date change, booking is refused with "select a time slot" until a slot is clicked |
| AppointmentsPage.OwnerlessResultNotBookable | src/app/core/appointments/page.tsx:924-929 | choosing a search result without an owner can never lead to a booking |
| AppointmentsPage.NewAppointmentModal.ChooseSearchResult | src/app/core/appointments/page.tsx:924-929 | selects the result's pet and owner and clears the search; everything else is kept |
| AppointmentsPage.NewAppointmentModal.ChangeSelection | src/app/core/appointments/page.tsx:906-911 | clears pet, owner and search; everything else is kept |
| AppointmentsPage.NewAppointmentModal.ChooseEntity | src/app/core/appointments/page.tsx:1018-1023 | sets the entity and clears the entity search; the time is not cleared |
| AppointmentsPage.NewAppointmentModal.ClearEntity | src/app/core/appointments/page.tsx:1002-1005 | clears the entity; staff and time are kept |
| AppointmentsPage.NewAppointmentModal.ChooseStaff | src/app/core/appointments/page.tsx:1055-1064 | the selected employee is the first with that assignment; the form becomes StaffChanged |
| AppointmentsPage.NewAppointmentModal.ChooseDate | src/app/core/appointments/page.tsx:1105-1111 | the form becomes DateChanged, for any quick button or the date input |
| AppointmentsPage.NewAppointmentModal.ClickSlot | src/app/core/appointments/page.tsx:1189-1195 | the form becomes SlotClicked |
| AppointmentsPage.NewAppointmentModal.Reset | src/app/core/appointments/page.tsx:464-486 | closes the dialog and returns every field to its initial value |
| AppointmentsPage.NewAppointmentModal.Submit | src/app/core/appointments/page.tsx:420-500 | a refused form or a store error changes nothing; success inserts exactly the validated row and resets the dialog; table consistency is preserved |
| AppointmentsPage.NewRowConsistent | src/app/core/appointments/page.tsx:445-462 | a freshly booked row is EMR-consistent and offers exactly Cancel and Send-OTP |
| AppointmentsPage.SendOtpOffersVerify | src/app/core/appointments/page.tsx:821 | after sending a code, Send-OTP is hidden and Verify is shown iff the row was not verified |
| AppointmentsPage.VerifyHidesVerify | src/app/core/appointments/page.tsx:840 | a successful verification hides Verify |
| AppointmentsPage.CompleteVisibility | src/app/core/appointments/page.tsx:789 | Start shows Complete; End, Cancel and Revoke hide it, and Cancel also hides Cancel and Send-OTP |
| AppointmentsPage.ShowComplete | src/app/core/appointments/page.tsx:789 | Complete (shown on a running consultation with active write access) is never offered together with Cancel or Send-OTP |
| AppointmentsPage.ShowCancel | src/app/core/appointments/page.tsx:805 | Cancel is offered exactly on rows that are neither in progress, completed, cancelled nor no-show, i.e. scheduled or confirmed |
| AppointmentsPage.ShowSendOtp | src/app/core/appointments/page.tsx:821 | Send-OTP is offered only on rows that also offer Cancel |
| AppointmentsPage.ShowVerify | src/app/core/appointments/page.tsx:840 | Verify is never offered together with Send-OTP |
| AppointmentsPage.FormatTime | src/app/core/appointments/page.tsx:558-568 | the shown time always ends in " AM" or " PM" |
| AppointmentsPage.StartRejected | src/app/core/appointments/page.tsx:322-335 | the guard refuses only when a loaded appointment with that id exists; with no list loaded it never refuses |
| AppointmentsPage.StartRejectedSpec | src/app/core/appointments/page.tsx:322-335 | the guard refuses iff the first loaded appointment with that id has a day after today; an unknown id or no list passes |
| AppointmentsPage.HandleStartConsultation | src/app/core/appointments/page.tsx:320-346 | a refused start leaves the table unchanged; otherwise the unconditional start is applied to that row alone |
| AppointmentsPage.HandleEndConsultation | src/app/core/appointments/page.tsx:348-360 | nothing happens unless confirmed; then only that row is updated by EndConsultation |
| AppointmentsPage.HandleCancelAppointment | src/app/core/appointments/page.tsx:502-511 | nothing happens unless confirmed; then only that row is updated by Cancel |
| AppointmentsPage.OtpDialog.OpenFor | src/app/core/appointments/page.tsx:847 | opens the dialog for that appointment |
| AppointmentsPage.OtpDialog.Type | src/app/core/appointments/page.tsx:1372-1373 | stores the typed text, cut to its first six characters |
| AppointmentsPage.OtpDialog.VerifyEnabled | src/app/core/appointments/page.tsx:1424 | Verify is enabled only when the typed text is at least six characters long and no verification is pending |
| AppointmentsPage.OtpDialog.Close | src/app/core/appointments/page.tsx:1319-1322 | closes and clears the dialog |
| AppointmentsPage.OtpDialog.Resend | src/app/core/appointments/page.tsx:1387-1388 | sends a new six-digit code only when the dialog names an appointment |
| AppointmentsPage.OtpDialog.Submit | src/app/core/appointments/page.tsx:1328-1360 | blank input does nothing; otherwise the trimmed code is verified; a failure leaves dialog and table as they were, and success closes and clears the dialog |
| AppointmentsPage.TrimSurrounded | src/app/core/appointments/page.tsx:1330-1332 | whitespace around the typed text is removed and nothing else |
| AppointmentsPage.EnabledInputIsUntrimmed | src/app/core/appointments/page.tsx:1373-1424 | text the six-character field holds that enables the Verify button has no surrounding whitespace |
| AppointmentsPage.PaddedCodeVerifies | src/app/core/appointments/page.tsx:1330-1332 | a six-digit code typed with surrounding whitespace is submitted as the code itself |
| AppointmentsPage.KeepMatching | src/app/core/appointments/page.tsx:514-539 | the kept rows are a subsequence of the list, and a row is kept iff it is in the list and matches |
| AppointmentsPage.FilterAppointments | src/app/core/appointments/page.tsx:514-539 | no data gives nothing; otherwise the rows kept are, in order, those that match some listed field case-insensitively (all rows for an empty search) |
| AppointmentsPage.KeepMatchingMultiplicity | src/app/core/appointments/page.tsx:514-539 | each matching row is kept exactly as often as it occurs, and no other row is kept |
| AppointmentsPage.EmptySearchKeepsAll | src/app/core/appointments/page.tsx:516 | an empty search keeps the list exactly |
| AppointmentsPage.EntityOccurrenceKept | src/app/core/appointments/page.tsx:534 | a row whose entity id contains the search text, in any letter case and at any position, is kept |
| AppointmentsPage.Field | src/app/core/appointments/page.tsx:560 | the first piece of `split(':')` is the longest colon-free prefix |
| AppointmentsPage.FormatClock | src/app/core/appointments/page.tsx:558-568 | for `hh:mm` or `hh:mm:ss`, the hour comes from the digits before the first colon and the minutes piece is copied unchanged |
| AppointmentsPage.ClockHour | src/app/core/appointments/page.tsx:562-563 | for hours 0..23 the display hour is 1..12, AM iff before noon, and hour and suffix give back the 24-hour value |
| AppointmentsPage.UnreadableHour | src/app/core/appointments/page.tsx:561-564 | an hour that parseInt cannot read displays as 12 AM |
| Common.Lower | src/app/core/appointments/page.tsx:516 | lower-casing keeps the length and maps each character |
| Common.IncludesIffOccurs | src/app/core/appointments/page.tsx:519-536 | `includes` holds iff the needle occurs at some position |
| Common.DecimalRoundTrip | src/hooks/useDatabase.ts:937 | reading back the decimal text of n gives n |
| Common.ParseIntOfDigits | src/app/core/appointments/page.tsx:561 | parseInt of a digit string is its decimal value |
| Common.JsRem | src/app/core/appointments/page.tsx:563 | the truncated remainder: it lies strictly between -b and b, takes the sign of the dividend (equal to the mathematical remainder for a non-negative dividend, at most zero for a negative one) and is congruent to the dividend modulo b |
| Common.FindFirst | src/app/core/appointments/page.tsx:323 | returns the first element satisfying the test, or none iff no element does |
| Common.FindFirstAt | src/app/core/appointments/page.tsx:323 | when position i is the first match, find returns the element at i |
| Dashboard.HealthUrl | src/app/page.tsx:27 | the address each probe is sent to: the service URL followed by its health path, or "/api/health" when none is given |
| Dashboard.CheckServiceHealth | src/app/page.tsx:24-58 | the probe is sent to HealthUrl; ONLINE iff its response was ok, ERROR iff it was not ok, OFFLINE iff the fetch threw; elapsed time and check time are recorded; every other field is kept |
| Dashboard.CheckAll | src/app/page.tsx:63-64 | each service is replaced by the classification of its own fetch call, in order |
| Dashboard.CountStatus | src/app/page.tsx:72-74 | the count is the number of services whose status is the given one |
| Dashboard.ComputeStats | src/app/page.tsx:70-76 | the total is the list length; the online, offline and error counts are the numbers of services in each of those states |
| Dashboard.StatusCountsPartition | src/app/page.tsx:70-74 | with no service in CHECKING, the online, offline and error counts add up to the list length |
| Dashboard.CheckedStatsAddUp | src/app/page.tsx:61-80 | after a full check, online + offline + error = total |
| Dashboard.KeepCategory | src/app/page.tsx:85 | a subsequence holding exactly the services of that category |
| Dashboard.FilterServices | src/app/page.tsx:83-85 | 'all' returns the list unchanged; a category returns, in order, exactly its services |
| Dashboard.KeepCategoryMultiplicity | src/app/page.tsx:128-129 | the tab keeps each service of its category as often as it occurs, and no other |
| Dashboard.CategoryCountsAddUp | src/app/page.tsx:126-129 | the seven category tab counts add up to the All tab count |
| Dashboard.Replace | src/app/page.tsx:154-156 | length is kept; entries with the refreshed id become the refreshed service; all others are unchanged |
| Dashboard.ReplaceAt | src/app/page.tsx:154-156 | with unique ids, a refresh changes exactly the one entry |
| Dashboard.RefreshKeepsCategoryCounts | src/app/page.tsx:154-156 | a refresh keeps every category tab count |
| Dashboard.DashboardPage.constructor | src/app/page.tsx:12-21 | starts with the given services, zero counts, the All tab and no refresh in progress |
| Dashboard.DashboardPage.Shown | src/app/page.tsx:83-85 | the grid shows every service on the All tab; on a category tab it shows, in order, exactly the services of that category |
| Dashboard.DashboardPage.CheckAllServicesHealth | src/app/page.tsx:61-80 | services become the probed list; the counts are taken over it and add up to the total; refreshing ends |
| Dashboard.DashboardPage.RefreshService | src/app/page.tsx:154-156 | the refreshed service replaces its entries; the counts are not recomputed |
| Dashboard.DashboardPage.SelectCategory | src/app/page.tsx:133 | sets the selected tab only |

## Left out

- Supabase queries and remote procedures are not modelled. Their answers are inputs: search results, staff and slot lists, and the fetched pets and profiles of the join. Not modelled:
  - the `.ilike` fuzzy matching;
  - the related-id lists the join sends to the store;
  - the appointment filters by status and date range;
  - `sync_otp_verification_for_pet`, called after a successful verification. The propagation to other same-day appointments of the pet is not modelled.
- Query errors in the join and in the hooks: only `.single()` finding no row (`RowNotFound`) and a duplicate insert are errors in the model. Network and permission failures are not.
- The appointment number the store assigns on insert is not modelled. An inserted row starts with an empty number.
- React Query caching and invalidation, realtime subscriptions, the 300 ms search debounce, the 30 s polling interval, and the 5 s fetch timeout are left out. A timed-out fetch is a probe that threw.
- Alerts and console output are left out.
- `avgResponseTime` is left out. It is a floating-point average, and NaN for an empty list.
- The date-picker `min`, the HTML `required` and `pattern` checks, and the effects that reload staff and slots are left out. These are browser-side or remote. The OTP field's six-character limit and the Verify button's enabling condition (`OtpDialog.VerifyEnabled`) are modelled; the button's state is not a guard on `OtpDialog.Submit`, which models the form handler alone.
- AppointmentsPage.PaddedCodeVerifies: this is a property of the form handler only. Through the dialog, padded input cannot reach it: the field holds six characters, and the button needs six after trimming (`AppointmentsPage.EnabledInputIsUntrimmed`).
- The edit mode of the details dialog is left out. It has no save handler.
- Dates are integer day numbers, with no time zones. `today` is a parameter. So are the days the quick date buttons compute.
- Lower-casing covers ASCII letters only. There is no Unicode case folding.
- `parseInt` covers optional whitespace, a sign and decimal digits. Beyond-safe-integer precision and hexadecimal prefixes are not modelled.
- AppointmentsPage.UnifiedSearch: a string's length is its number of Unicode characters, while JavaScript's `length` counts UTF-16 code units. A one-character query outside the Basic Multilingual Plane (an emoji, say) is searched by the page and not by the model. The same holds for the six-character limit of the OTP field.
- A `null` text column and the empty string are the same value. This matters only where the source distinguishes them, and it does not for the fields modelled.
- `AppointmentsPage.PerformUnifiedSearch` returns the results instead of calling the page's state setter.
- `Dashboard.DashboardPage.CheckAllServicesHealth` takes one `fetch` call per service as input: each is a function from the address it is sent to to its outcome, elapsed time and check time. The concurrent `Promise.all` ordering of the probes is not modelled.
